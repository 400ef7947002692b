/** The loops of the switch core that take messages in, forward them and broadcast them. */
module SwitchCore {
  import opened Wrappers
  import opened Ttl
  import opened Messages
  import opened ConnectionHub
  import opened SwitchLounge

  /** What the loops push on each channel is a reference to one shared message. */
  ghost predicate DistinctChannels(targets: seq<ConnWithChan>) {
    forall i, j | 0 <= i < j < |targets| :: targets[i].sendChan != targets[j].sendChan
  }

  ghost function Channels(targets: seq<ConnWithChan>): set<SendChan> {
    set i | 0 <= i < |targets| :: targets[i].sendChan
  }

  /** Whether a pass that starts at `ttl` sends to its target number `i`. */
  predicate Serves(ttl: uint32, i: nat) {
    DecrementBy(ttl, i + 1) != 0
  }

  ghost function Served(ttl: uint32, n: nat): set<nat> {
    set i: nat | i < n && Serves(ttl, i)
  }

  /** The channels of the targets that such a pass sends to. */
  ghost function ServedChannels(targets: seq<ConnWithChan>, ttl: uint32): set<SendChan> {
    set i | i in Served(ttl, |targets|) && i < |targets| :: targets[i].sendChan
  }

  // ---------- counting what a pass serves ----------

  /** A pass serves all its targets exactly when the TTL exceeds their number or is already 0, and
      otherwise all but one. */
  lemma PassServes(ttl: uint32, n: nat)
    requires n < 0x1_0000_0000
    ensures |Served(ttl, n)| == if ttl > n || ttl == 0 then n else n - 1
  {
    PassOutcome(ttl, n);
    ServedCount(ttl, n);
  }

  lemma {:induction false} ServedCount(ttl: uint32, n: nat)
    ensures |Served(ttl, n)| == Sends(ttl, n)
  {
    if n > 0 {
      ServedCount(ttl, n - 1);
      assert Served(ttl, n) == Served(ttl, n - 1) + if Serves(ttl, n - 1) then {n - 1} else {};
    }
  }

  lemma AmpleTtlServesAll(ttl: uint32, n: nat)
    ensures ttl > n ==> forall i | 0 <= i < n :: Serves(ttl, i)
  {
    forall i | 0 <= i < n && ttl > n ensures Serves(ttl, i) {
      DecrementByIsModular(ttl, i + 1);
    }
  }

  lemma {:induction false} ChannelsCount(targets: seq<ConnWithChan>, indices: set<nat>)
    requires DistinctChannels(targets) && forall i <- indices :: i < |targets|
    ensures |set i | i in indices && i < |targets| :: targets[i].sendChan| == |indices|
  {
    if indices != {} {
      var k :| k in indices;
      ChannelsCount(targets, indices - {k});
      assert (set i | i in indices && i < |targets| :: targets[i].sendChan)
          == (set i | i in indices - {k} && i < |targets| :: targets[i].sendChan) + {targets[k].sendChan};
    }
  }

  lemma ServedChannelsCount(targets: seq<ConnWithChan>, ttl: uint32)
    requires DistinctChannels(targets)
    ensures |ServedChannels(targets, ttl)| == |Served(ttl, |targets|)|
  {
    ChannelsCount(targets, Served(ttl, |targets|));
  }

  lemma ServedChannelsExactly(targets: seq<ConnWithChan>, ttl: uint32)
    requires DistinctChannels(targets)
    ensures forall i | 0 <= i < |targets| :: targets[i].sendChan in ServedChannels(targets, ttl) <==> Serves(ttl, i)
    ensures forall c <- ServedChannels(targets, ttl) :: exists i :: 0 <= i < |targets| && targets[i].sendChan == c
  {
    hide Serves;
  }

  lemma TableFits(hub: TCPConnectionHub)
    requires hub.Valid()
    ensures |hub.conns| < 0x1_0000_0000
  {}

  lemma TargetsAreFiled(conns: Conns, targets: seq<ConnWithChan>)
    requires forall x :: x in targets <==> exists a :: a in conns && conns[a] == x
    ensures forall a <- conns :: conns[a].sendChan in Channels(targets)
    ensures forall c <- Channels(targets) :: InTable(conns, c)
  {
    forall a <- conns ensures conns[a].sendChan in Channels(targets) {
      assert conns[a] in targets;
    }
    forall c <- Channels(targets) ensures InTable(conns, c) {
      var i :| 0 <= i < |targets| && targets[i].sendChan == c;
      assert targets[i] in targets;
    }
  }

  lemma ChannelsWithin(targets: seq<ConnWithChan>, issued: set<SendChan>)
    requires forall i | 0 <= i < |targets| :: targets[i].sendChan in issued
    ensures Channels(targets) <= issued
  {}

  lemma SourceIsNoTarget(hub: TCPConnectionHub, targets: seq<ConnWithChan>, source: Option<string>)
    requires hub.Valid()
    requires forall x :: x in targets <==> exists a :: a in hub.conns && Some(a) != source && hub.conns[a] == x
    ensures source.Some? && source.value in hub.conns ==>
              hub.conns[source.value].sendChan in hub.issued
              && forall i | 0 <= i < |targets| :: targets[i].sendChan != hub.conns[source.value].sendChan
    ensures forall a <- hub.conns | Some(a) != source :: exists i :: 0 <= i < |targets| && targets[i] == hub.conns[a]
  {
    if source.Some? && source.value in hub.conns {
      forall i | 0 <= i < |targets| ensures targets[i].sendChan != hub.conns[source.value].sendChan {
        assert targets[i] in targets;
        var a :| a in hub.conns && Some(a) != source && hub.conns[a] == targets[i];
      }
    }
    forall a <- hub.conns | Some(a) != source ensures exists i :: 0 <= i < |targets| && targets[i] == hub.conns[a] {
      assert hub.conns[a] in targets;
    }
  }

  // ---------- the loops ----------

  lemma OneMore(ttl: uint32, n: nat)
    ensures DecrementBy(ttl, 0) == ttl && DecrementBy(ttl, n + 1) == Decrement(DecrementBy(ttl, n))
  {}

  /** The inner loop of the forwarder: for each connection the shared TTL goes down by one, and the
      message is sent unless the TTL is now 0. */
  method ForwardTo(msg: SwitchMessage, targets: seq<ConnWithChan>)
    requires DistinctChannels(targets)
    requires forall i | 0 <= i < |targets| :: !targets[i].sendChan.closed
    modifies msg.payload`discoveryTtl, Channels(targets)`queue
    ensures msg.payload.discoveryTtl == DecrementBy(old(msg.payload.discoveryTtl), |targets|)
    ensures forall i | 0 <= i < |targets| ::
              targets[i].sendChan.queue == old(targets[i].sendChan.queue)
                                           + if DecrementBy(old(msg.payload.discoveryTtl), i + 1) != 0 then [msg] else []
  {
    hide DecrementBy, Decrement;
    ghost var ttl := msg.payload.discoveryTtl;
    OneMore(ttl, 0);
    for n := 0 to |targets|
      invariant msg.payload.discoveryTtl == DecrementBy(ttl, n)
      invariant forall i | 0 <= i < n ::
                  targets[i].sendChan.queue == old(targets[i].sendChan.queue) + if DecrementBy(ttl, i + 1) != 0 then [msg] else []
      invariant forall i | n <= i < |targets| :: targets[i].sendChan.queue == old(targets[i].sendChan.queue)
    {
      OneMore(ttl, n);
      msg.payload.discoveryTtl := Decrement(msg.payload.discoveryTtl);
      if msg.payload.discoveryTtl <= 0 {
        continue;
      }
      targets[n].sendChan.Send(msg);
    }
  }

  /** A forwarding pass: every connection but the one the message came from. All of them get the
      message if the TTL exceeds their number or is already 0, and otherwise all but one; no other
      channel changes, and in particular not that of the source. */
  method PassOn(hub: TCPConnectionHub, msg: SwitchMessage) returns (targets: seq<ConnWithChan>)
    requires hub.Valid()
    modifies msg.payload`discoveryTtl, hub.issued`queue
    ensures hub.Valid() && hub.issued == old(hub.issued)
    ensures forall x :: x in targets <==> exists a :: a in hub.conns && Some(a) != msg.sourceAddr && hub.conns[a] == x
    ensures |targets| == |hub.conns| - (if msg.sourceAddr.Some? && msg.sourceAddr.value in hub.conns then 1 else 0)
    ensures forall i | 0 <= i < |targets| :: targets[i].sendChan in old(hub.issued)
    ensures msg.payload.discoveryTtl == DecrementBy(old(msg.payload.discoveryTtl), |targets|)
    ensures forall c <- old(hub.issued), i | 0 <= i < |targets| && targets[i].sendChan == c ::
              c.queue == old(c.queue) + if DecrementBy(old(msg.payload.discoveryTtl), i + 1) != 0 then [msg] else []
    ensures forall c <- old(hub.issued) ::
              c.queue == old(c.queue) || exists i :: 0 <= i < |targets| && targets[i].sendChan == c
    ensures |set c | c in old(hub.issued) && c.queue != old(c.queue)|
              == if old(msg.payload.discoveryTtl) > |targets| || old(msg.payload.discoveryTtl) == 0 then |targets| else |targets| - 1
    ensures old(msg.payload.discoveryTtl) > |targets| ==>
              forall a <- hub.conns | Some(a) != msg.sourceAddr :: hub.conns[a].sendChan.queue == old(hub.conns[a].sendChan.queue) + [msg]
    ensures msg.sourceAddr.Some? && msg.sourceAddr.value in hub.conns ==>
              hub.conns[msg.sourceAddr.value].sendChan.queue == old(hub.conns[msg.sourceAddr.value].sendChan.queue)
  {
    hide DecrementBy, hub.Valid, Served;
    ghost var ttl := msg.payload.discoveryTtl;
    targets := hub.GetConnectionsExcept(msg.sourceAddr);
    ForwardTo(msg, targets);
    TableFits(hub);
    PassServes(ttl, |targets|);
    ServedChannelsCount(targets, ttl);
    ServedChannelsExactly(targets, ttl);
    AmpleTtlServesAll(ttl, |targets|);
    SourceIsNoTarget(hub, targets, msg.sourceAddr);
    hide ServedChannels;
    assert (set c | c in old(hub.issued) && c.queue != old(c.queue)) == ServedChannels(targets, ttl);
  }

  /** One round of the forwarder: takes the next message out of the lounge and passes it on if it
      comes from a private address. */
  method Forward(sl: SwitchLounge, hub: TCPConnectionHub) returns (msg: SwitchMessage, targets: seq<ConnWithChan>)
    requires sl.Valid() && sl.lounge != [] && hub.Valid()
    modifies sl`lounge, sl.lounge[0].payload`discoveryTtl, hub.issued`queue
    ensures sl.Valid() && hub.Valid() && hub.issued == old(hub.issued)
    ensures msg == old(sl.lounge)[0] && sl.View() == old(sl.View()).(queue := old(sl.lounge)[1..])
    ensures msg.payload.originalAddr != Private ==>
              && targets == [] && msg.payload.discoveryTtl == old(sl.lounge[0].payload.discoveryTtl)
              && forall c <- old(hub.issued) :: c.queue == old(c.queue)
    ensures forall i | 0 <= i < |targets| :: targets[i].sendChan in old(hub.issued)
    ensures forall c <- old(hub.issued) ::
              c.queue == old(c.queue) || exists i :: 0 <= i < |targets| && targets[i].sendChan == c
    ensures msg.payload.originalAddr == Private ==>
      var ttl := old(sl.lounge[0].payload.discoveryTtl);
      && (forall x :: x in targets <==> exists a :: a in hub.conns && Some(a) != msg.sourceAddr && hub.conns[a] == x)
      && |targets| == |hub.conns| - (if msg.sourceAddr.Some? && msg.sourceAddr.value in hub.conns then 1 else 0)
      && msg.payload.discoveryTtl == DecrementBy(ttl, |targets|)
      && (forall c <- old(hub.issued), i | 0 <= i < |targets| && targets[i].sendChan == c ::
            c.queue == old(c.queue) + if DecrementBy(ttl, i + 1) != 0 then [msg] else [])
      && |set c | c in old(hub.issued) && c.queue != old(c.queue)| == (if ttl > |targets| || ttl == 0 then |targets| else |targets| - 1)
      && (ttl > |targets| ==>
            forall a <- hub.conns | Some(a) != msg.sourceAddr :: hub.conns[a].sendChan.queue == old(hub.conns[a].sendChan.queue) + [msg])
  {
    hide DecrementBy, sl.Valid, hub.Valid;
    msg := sl.Receive();
    hide sl.View;
    targets := [];
    if msg.payload.originalAddr == Private {
      label Passing:
      targets := PassOn(hub, msg);
      assert (set c | c in old(hub.issued) && c.queue != old@Passing(c.queue)) == (set c | c in old(hub.issued) && c.queue != old(c.queue));
    }
  }

  /** The inner loop of the broadcaster: the TTL goes down as well, but nothing is ever skipped, and
      the lounge does not learn the id. */
  method BroadcastTo(msg: SwitchMessage, targets: seq<ConnWithChan>)
    requires DistinctChannels(targets)
    requires forall i | 0 <= i < |targets| :: !targets[i].sendChan.closed
    modifies msg.payload`discoveryTtl, Channels(targets)`queue
    ensures msg.payload.discoveryTtl == DecrementBy(old(msg.payload.discoveryTtl), |targets|)
    ensures forall i | 0 <= i < |targets| :: targets[i].sendChan.queue == old(targets[i].sendChan.queue) + [msg]
    ensures forall c <- Channels(targets) :: c.queue == old(c.queue) + [msg]
  {
    for n := 0 to |targets|
      invariant msg.payload.discoveryTtl == DecrementBy(old(msg.payload.discoveryTtl), n)
      invariant forall i | 0 <= i < n :: targets[i].sendChan.queue == old(targets[i].sendChan.queue) + [msg]
      invariant forall i | n <= i < |targets| :: targets[i].sendChan.queue == old(targets[i].sendChan.queue)
    {
      msg.payload.discoveryTtl := Decrement(msg.payload.discoveryTtl);
      targets[n].sendChan.Send(msg);
    }
  }

  /** One message of the broadcaster: goes to every connection of the table. The lounge is not asked. */
  method Broadcast(hub: TCPConnectionHub, msg: SwitchMessage)
    requires hub.Valid()
    modifies msg.payload`discoveryTtl, hub.issued`queue
    ensures hub.Valid() && hub.issued == old(hub.issued)
    ensures msg.payload.discoveryTtl == DecrementBy(old(msg.payload.discoveryTtl), |hub.conns|)
    ensures forall a <- hub.conns :: hub.conns[a].sendChan.queue == old(hub.conns[a].sendChan.queue) + [msg]
    ensures forall c <- old(hub.issued) ::
              c.queue == old(c.queue) || InTable(hub.conns, c)
  {
    hide DecrementBy, hub.Valid;
    var targets := hub.GetConnectionsExcept(None);
    TargetsAreFiled(hub.conns, targets);
    ChannelsWithin(targets, hub.issued);
    hide InTable, Channels;
    BroadcastTo(msg, targets);
  }
}
