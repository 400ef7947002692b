/** That the bounds of channels and links are respected in every run: each loop waits with at most one
    message, and the network holds no more than its channels and links take. */
module FloodChannels {
  import opened Wrappers
  import opened Sequences
  import opened Topology
  import opened Ttl
  import opened Configs
  import opened FloodNetwork
  import opened FloodTheorems

  /** Each loop has at most one message in hand. */
  ghost predicate OneInHand(sendq: seq<Slot>) {
    forall i, j | 0 <= i < j < |sendq| && InHand(sendq, i) && InHand(sendq, j) ::
      sendq[i].port.Owner() != sendq[j].port.Owner() || sendq[i].phase != sendq[j].phase
  }

  ghost predicate LinksFit(wire: seq<Packet>, window: nat) {
    forall p :: LinkLength(wire, p) <= window
  }

  // ---------- counting ----------

  lemma {:induction false} ChannelAppend(sendq: seq<Slot>, x: Slot, p: Port)
    ensures ChannelLength(sendq + [x], p) == ChannelLength(sendq, p) + if x.port == p then 1 else 0
  {
    if sendq == [] {
      assert sendq + [x] == [x] && [x][1..] == [];
    } else {
      ChannelAppend(sendq[1..], x, p);
      assert (sendq + [x])[1..] == sendq[1..] + [x];
    }
  }

  lemma {:induction false} ChannelShrinks(sendq: seq<Slot>, i: nat, p: Port)
    requires i < |sendq|
    ensures ChannelLength(RemoveAt(sendq, i), p) <= ChannelLength(sendq, p)
  {
    if i == 0 {
      assert RemoveAt(sendq, 0) == sendq[1..];
    } else {
      ChannelShrinks(sendq[1..], i - 1, p);
      assert RemoveAt(sendq, i)[1..] == RemoveAt(sendq[1..], i - 1);
    }
  }

  lemma {:induction false} LinkAppend(wire: seq<Packet>, q: Packet, p: Port)
    ensures LinkLength(wire + [q], p) == LinkLength(wire, p) + if q.port == p then 1 else 0
  {
    if wire == [] {
      assert wire + [q] == [q] && [q][1..] == [];
    } else {
      LinkAppend(wire[1..], q, p);
      assert (wire + [q])[1..] == wire[1..] + [q];
    }
  }

  lemma {:induction false} LinkShrinks(wire: seq<Packet>, i: nat, p: Port)
    requires i < |wire|
    ensures LinkLength(RemoveAt(wire, i), p) <= LinkLength(wire, p)
  {
    if i == 0 {
      assert RemoveAt(wire, 0) == wire[1..];
    } else {
      LinkShrinks(wire[1..], i - 1, p);
      assert RemoveAt(wire, i)[1..] == RemoveAt(wire[1..], i - 1);
    }
  }

  // ---------- steps and runs ----------

  lemma AppendKeepsOne(sendq: seq<Slot>, x: Slot)
    requires OneInHand(sendq) && !Blocked(sendq, x.port.Owner(), x.phase)
    ensures OneInHand(sendq + [x])
  {
    forall i | 0 <= i < |sendq| ensures InHand(sendq + [x], i) <==> InHand(sendq, i) {
      assert (sendq + [x])[..i] == sendq[..i];
    }
    hide InHand;
  }

  /** A message behind a departed one may have got its place in the channel; no other lost its own. */
  lemma StillInHand(sendq: seq<Slot>, i: nat, j: nat)
    requires i < |sendq| && j < |sendq| - 1 && InHand(RemoveAt(sendq, i), j)
    ensures InHand(sendq, if j < i then j else j + 1) && RemoveAt(sendq, i)[j] == sendq[if j < i then j else j + 1]
  {
    var p := RemoveAt(sendq, i)[j].port;
    if j < i {
      assert RemoveAt(sendq, i)[..j] == sendq[..j];
    } else {
      assert RemoveAt(sendq, i)[..j] == RemoveAt(sendq[..j + 1], i);
      ChannelShrinks(sendq[..j + 1], i, p);
    }
  }

  lemma RemovalKeepsOne(sendq: seq<Slot>, i: nat)
    requires OneInHand(sendq) && i < |sendq|
    ensures OneInHand(RemoveAt(sendq, i))
  {
    var r := RemoveAt(sendq, i);
    forall k, l | 0 <= k < l < |r| && InHand(r, k) && InHand(r, l)
      ensures r[k].port.Owner() != r[l].port.Owner() || r[k].phase != r[l].phase
    {
      StillInHand(sendq, i, k);
      StillInHand(sendq, i, l);
    }
  }

  lemma TransmitKeepsBounds(t: Net, s: State, i: nat)
    requires Enabled(t, s, Transmit(i)) && OneInHand(s.sendq) && LinksFit(s.wire, t.window)
    ensures var s' := ApplyTransmit(s, i); OneInHand(s'.sendq) && LinksFit(s'.wire, t.window)
  {
    var s' := ApplyTransmit(s, i);
    RemovalKeepsOne(s.sendq, i);
    forall p ensures LinkLength(s'.wire, p) <= t.window {
      LinkAppend(s.wire, s'.wire[|s.wire|], p);
    }
    hide OneInHand;
  }

  lemma ReceiveKeepsBounds(s: State, i: nat, window: nat)
    requires i < |s.wire| && OneInHand(s.sendq) && LinksFit(s.wire, window)
    ensures var s' := ApplyReceive(s, i); OneInHand(s'.sendq) && LinksFit(s'.wire, window)
  {
    hide OneInHand, WriteLounge, LinkLength;
    forall p { LinkShrinks(s.wire, i, p); }
    var q := s.wire[i];
    WriteKeepsQueues(s.(wire := RemoveAt(s.wire, i)), q.port.Far(), Message(q.id, |s.cells|, Some(q.port.Peer()), q.routable), q.ttl, q.hops);
  }

  lemma LoopKeepsBounds(s: State, p: Port)
    requires OneInHand(s.sendq)
    ensures p in s.fwdTodo && !Blocked(s.sendq, p.Owner(), Forwarding) ==>
              OneInHand(ApplyForwardTo(s, p).sendq) && ApplyForwardTo(s, p).wire == s.wire
    ensures p in s.bcastTodo && !Blocked(s.sendq, p.Owner(), Broadcasting) ==>
              OneInHand(ApplyBroadcastTo(s, p).sendq) && ApplyBroadcastTo(s, p).wire == s.wire
  {
    hide OneInHand, Blocked, Turn;
    forall m, n, phase | !Blocked(s.sendq, p.Owner(), phase) ensures OneInHand(s.sendq + [Slot(p, phase, m, n)]) {
      AppendKeepsOne(s.sendq, Slot(p, phase, m, n));
    }
  }

  lemma WriteKeepsQueues(s: State, v: Node, m: Message, ttl: uint32, hops: nat)
    ensures WriteLounge(s, v, m, ttl, hops).sendq == s.sendq && WriteLounge(s, v, m, ttl, hops).wire == s.wire
  {
    hide LoungeLength;
  }

  lemma CaptureKeepsQueues(s: State, v: Node, r: bool)
    ensures ApplyCapture(s, v, r).sendq == s.sendq && ApplyCapture(s, v, r).wire == s.wire
  {
    hide WriteLounge;
    WriteKeepsQueues(Issue(s, v, Origin(Multicast, r)), v, Fresh(s, v, r), MAX_DISCOVERY_MESSAGE_TTL, 0);
  }

  lemma StartsKeepQueues(t: Net, s: State, v: Node, r: bool, i: nat)
    ensures ApplyStartBroadcast(t, s, v, r).sendq == s.sendq && ApplyStartBroadcast(t, s, v, r).wire == s.wire
    ensures i < |s.lounge| ==> ApplyStartForward(t, s, i).sendq == s.sendq && ApplyStartForward(t, s, i).wire == s.wire
  {
    hide Targets;
  }

  lemma OthersKeepQueues(t: Net, s: State, a: Action)
    requires Enabled(t, s, a) && (a.Capture? || a.StartBroadcast? || a.StartForward? || a.EndForward? || a.EndBroadcast?)
    ensures Apply(t, s, a).sendq == s.sendq && Apply(t, s, a).wire == s.wire
  {
    hide Apply, ApplyCapture, ApplyStartBroadcast, ApplyStartForward, Blocked, LinkLength;
    StepFrame(t, s, a);
    match a {
      case Capture(v, r) => CaptureKeepsQueues(s, v, r);
      case StartBroadcast(v, r) => StartsKeepQueues(t, s, v, r, 0);
      case StartForward(i) => StartsKeepQueues(t, s, 0, true, i);
      case EndForward(_) =>
      case EndBroadcast(_) =>
    }
  }

  lemma StepKeepsBounds(t: Net, s: State, a: Action)
    requires Enabled(t, s, a) && OneInHand(s.sendq) && LinksFit(s.wire, t.window)
    ensures var s' := Apply(t, s, a); OneInHand(s'.sendq) && LinksFit(s'.wire, t.window)
  {
    hide OneInHand, LinksFit, Blocked, LinkLength, Apply, ApplyBroadcastTo, ApplyForwardTo, ApplyTransmit, ApplyReceive;
    StepFrame(t, s, a);
    match a
    case BroadcastTo(p) => LoopKeepsBounds(s, p);
    case ForwardTo(p) => LoopKeepsBounds(s, p);
    case Transmit(i) => TransmitKeepsBounds(t, s, i);
    case Receive(i) => ReceiveKeepsBounds(s, i, t.window);
    case _ => OthersKeepQueues(t, s, a);
  }

  lemma {:induction false} RunKeepsBounds(t: Net, s: State, actions: seq<Action>, s': State)
    requires IsRun(t, s, actions, s') && OneInHand(s.sendq) && LinksFit(s.wire, t.window)
    ensures OneInHand(s'.sendq) && LinksFit(s'.wire, t.window)
    decreases |actions|
  {
    if actions != [] {
      hide OneInHand, LinksFit, Enabled, Apply;
      StepKeepsBounds(t, s, actions[0]);
      RunKeepsBounds(t, Apply(t, s, actions[0]), actions[1..], s');
    }
  }

  /** The slot of a port with `r` slots of that port before it. */
  lemma {:induction false} SlotOfRank(sendq: seq<Slot>, p: Port, r: nat) returns (i: nat)
    requires r < ChannelLength(sendq, p)
    ensures i < |sendq| && sendq[i].port == p && ChannelLength(sendq[..i], p) == r
    decreases |sendq|
  {
    var m := |sendq| - 1;
    assert sendq == sendq[..m] + [sendq[m]];
    ChannelAppend(sendq[..m], sendq[m], p);
    if r < ChannelLength(sendq[..m], p) {
      i := SlotOfRank(sendq[..m], p, r);
      assert sendq[..m][..i] == sendq[..i];
    } else {
      i := m;
    }
  }

  /** Three messages of one node are not in hand at once. */
  lemma ThreeLoops(sendq: seq<Slot>, i: nat, j: nat, k: nat)
    requires i < |sendq| && j < |sendq| && k < |sendq| && i != j && j != k && i != k
    requires sendq[i].port == sendq[j].port == sendq[k].port && InHand(sendq, i) && InHand(sendq, j) && InHand(sendq, k)
    ensures !OneInHand(sendq)
  {
    hide InHand;
    assert forall l | l in {i, j, k} :: sendq[l].phase == Forwarding || sendq[l].phase == Broadcasting;
  }

  lemma RanksApart(sendq: seq<Slot>, p: Port)
    requires OneInHand(sendq)
    ensures ChannelLength(sendq, p) <= TCP_SOCKET_SEND_CHAN_SIZE + 2
  {
    if ChannelLength(sendq, p) > TCP_SOCKET_SEND_CHAN_SIZE + 2 {
      var i := SlotOfRank(sendq, p, TCP_SOCKET_SEND_CHAN_SIZE);
      var j := SlotOfRank(sendq, p, TCP_SOCKET_SEND_CHAN_SIZE + 1);
      var k := SlotOfRank(sendq, p, TCP_SOCKET_SEND_CHAN_SIZE + 2);
      ThreeLoops(sendq, i, j, k);
    }
  }

  /** In every reachable state, whatever the TTL does: a link carries no more than its window, and behind
      the 32 messages of a send channel at most the forwarder and the broadcaster wait, with one each. */
  lemma ChannelsAreBounded(t: Net, s: State, p: Port)
    requires Reachable(t, s)
    ensures LinkLength(s.wire, p) <= t.window && OneInHand(s.sendq)
    ensures ChannelLength(s.sendq, p) <= 34
  {
    var actions :| IsRun(t, EMPTY, actions, s);
    RunKeepsBounds(t, EMPTY, actions, s);
    RanksApart(s.sendq, p);
  }

  // ---------- first in, first out ----------

  function ChannelOf(sendq: seq<Slot>, p: Port): seq<Slot> {
    if sendq == [] then [] else (if sendq[0].port == p then [sendq[0]] else []) + ChannelOf(sendq[1..], p)
  }

  function LinkOf(wire: seq<Packet>, p: Port): seq<Packet> {
    if wire == [] then [] else (if wire[0].port == p then [wire[0]] else []) + LinkOf(wire[1..], p)
  }

  lemma {:induction false} ChannelOfAppend(sendq: seq<Slot>, x: Slot, p: Port)
    ensures ChannelOf(sendq + [x], p) == ChannelOf(sendq, p) + if x.port == p then [x] else []
  {
    if sendq == [] {
      assert sendq + [x] == [x] && [x][1..] == [];
    } else {
      ChannelOfAppend(sendq[1..], x, p);
      assert (sendq + [x])[1..] == sendq[1..] + [x];
    }
  }

  lemma {:induction false} LinkOfAppend(wire: seq<Packet>, q: Packet, p: Port)
    ensures LinkOf(wire + [q], p) == LinkOf(wire, p) + if q.port == p then [q] else []
  {
    if wire == [] {
      assert wire + [q] == [q] && [q][1..] == [];
    } else {
      LinkOfAppend(wire[1..], q, p);
      assert (wire + [q])[1..] == wire[1..] + [q];
    }
  }

  lemma {:induction false} ChannelWithout(sendq: seq<Slot>, i: nat, p: Port)
    requires i < |sendq| && forall j | 0 <= j < i :: sendq[j].port != sendq[i].port
    ensures ChannelOf(sendq, p) == (if sendq[i].port == p then [sendq[i]] else []) + ChannelOf(RemoveAt(sendq, i), p)
  {
    if i == 0 {
      assert RemoveAt(sendq, 0) == sendq[1..];
    } else {
      ChannelWithout(sendq[1..], i - 1, p);
      assert RemoveAt(sendq, i)[1..] == RemoveAt(sendq[1..], i - 1);
    }
  }

  lemma {:induction false} LinkWithout(wire: seq<Packet>, i: nat, p: Port)
    requires i < |wire| && forall j | 0 <= j < i :: wire[j].port != wire[i].port
    ensures LinkOf(wire, p) == (if wire[i].port == p then [wire[i]] else []) + LinkOf(RemoveAt(wire, i), p)
  {
    if i == 0 {
      assert RemoveAt(wire, 0) == wire[1..];
    } else {
      LinkWithout(wire[1..], i - 1, p);
      assert RemoveAt(wire, i)[1..] == RemoveAt(wire[1..], i - 1);
    }
  }

  /** A sender takes what has been longest in its channel and puts it behind what is on its link; no
      other channel or link changes. */
  lemma SenderIsFifo(t: Net, s: State, i: nat, p: Port)
    requires Enabled(t, s, Transmit(i))
    ensures var x, s' := s.sendq[i], ApplyTransmit(s, i);
      && ChannelOf(s.sendq, p) == (if x.port == p then [x] else []) + ChannelOf(s'.sendq, p)
      && LinkOf(s'.wire, p) == LinkOf(s.wire, p)
           + if x.port == p then [Packet(p, x.msg.id, Load(s, x.msg).ttl, x.msg.routable, Load(s, x.msg).hops + 1, x.phase, x.turn)] else []
  {
    ChannelWithout(s.sendq, i, p);
    LinkOfAppend(s.wire, ApplyTransmit(s, i).wire[|s.wire|], p);
  }

  /** A receiver takes what has been longest on its link; no other link changes. */
  lemma ReceiverIsFifo(t: Net, s: State, i: nat, p: Port)
    requires Enabled(t, s, Receive(i))
    ensures LinkOf(s.wire, p) == (if s.wire[i].port == p then [s.wire[i]] else []) + LinkOf(ApplyReceive(s, i).wire, p)
  {
    var q := s.wire[i];
    LinkWithout(s.wire, i, p);
    hide LinkOf, WriteLounge;
    WriteKeepsQueues(s.(wire := RemoveAt(s.wire, i)), q.port.Far(), Message(q.id, |s.cells|, Some(q.port.Peer()), q.routable), q.ttl, q.hops);
  }

  /** A loop adds at the end of the channel, and to no other. */
  lemma LoopsQueueLast(s: State, p: Port, r: Port)
    ensures p in s.fwdTodo ==>
      var c, d := ChannelOf(s.sendq, r), ChannelOf(ApplyForwardTo(s, p).sendq, r);
      d == c || (r == p && |d| == |c| + 1 && d[..|c|] == c && d[|c|].msg == s.fwdTodo[p])
    ensures p in s.bcastTodo ==>
      var c, d := ChannelOf(s.sendq, r), ChannelOf(ApplyBroadcastTo(s, p).sendq, r);
      if r == p then |d| == |c| + 1 && d[..|c|] == c && d[|c|].msg == s.bcastTodo[p] else d == c
  {
    hide Turn;
    forall x { ChannelOfAppend(s.sendq, x, r); }
    hide ChannelOf;
  }

  // ---------- nothing waits for what does not concern it ----------

  lemma {:induction false} FirstOfChannel(sendq: seq<Slot>, p: Port) returns (i: nat)
    requires ChannelLength(sendq, p) > 0
    ensures i < |sendq| && sendq[i].port == p && forall j | 0 <= j < i :: sendq[j].port != p
  {
    if sendq[0].port == p {
      i := 0;
    } else {
      i := FirstOfChannel(sendq[1..], p);
      i := i + 1;
    }
  }

  lemma {:induction false} FirstOfLink(wire: seq<Packet>, p: Port) returns (i: nat)
    requires LinkLength(wire, p) > 0
    ensures i < |wire| && wire[i].port == p && forall j | 0 <= j < i :: wire[j].port != p
  {
    if wire[0].port == p {
      i := 0;
    } else {
      i := FirstOfLink(wire[1..], p);
      i := i + 1;
    }
  }

  lemma {:induction false} FirstOfLounge(lounge: seq<Waiting>, v: Node) returns (i: nat)
    requires LoungeLength(lounge, v) > 0
    ensures i < |lounge| && lounge[i].node == v && forall j | 0 <= j < i :: lounge[j].node != v
  {
    if lounge[0].node == v {
      i := 0;
    } else {
      i := FirstOfLounge(lounge[1..], v);
      i := i + 1;
    }
  }

  /** A message on a link can be received at any time, whatever goes on elsewhere. */
  lemma LinkDelivers(t: Net, s: State, p: Port) returns (i: nat)
    requires LinkLength(s.wire, p) > 0
    ensures Enabled(t, s, Receive(i)) && s.wire[i].port == p
  {
    i := FirstOfLink(s.wire, p);
  }

  /** One in a send channel can be transmitted as soon as its own link has room. */
  lemma ChannelDrains(t: Net, s: State, p: Port) returns (i: nat)
    requires ChannelLength(s.sendq, p) > 0 && LinkLength(s.wire, p) < t.window
    ensures Enabled(t, s, Transmit(i)) && s.sendq[i].port == p
  {
    i := FirstOfChannel(s.sendq, p);
  }

  /** One in a lounge can be taken as soon as the forwarder of that node is free. */
  lemma LoungeDrains(t: Net, s: State, v: Node) returns (i: nat)
    requires LoungeLength(s.lounge, v) > 0 && v !in s.forwarding
    ensures Enabled(t, s, StartForward(i)) && s.lounge[i].node == v
  {
    i := FirstOfLounge(s.lounge, v);
  }

  /** A loop may serve its connections in any order, unless it waits to get rid of its last message. */
  lemma LoopsGoOn(t: Net, s: State, p: Port, v: Node)
    ensures p in s.fwdTodo ==> (Enabled(t, s, ForwardTo(p)) <==> !Blocked(s.sendq, p.Owner(), Forwarding))
    ensures p in s.bcastTodo ==> (Enabled(t, s, BroadcastTo(p)) <==> !Blocked(s.sendq, p.Owner(), Broadcasting))
    ensures v in s.forwarding && !Blocked(s.sendq, v, Forwarding) && (forall q <- s.fwdTodo :: q.Owner() != v) ==>
              Enabled(t, s, EndForward(v))
    ensures v in s.broadcasting && !Blocked(s.sendq, v, Broadcasting) && (forall q <- s.bcastTodo :: q.Owner() != v) ==>
              Enabled(t, s, EndBroadcast(v))
  {
    hide Blocked;
  }

  /** A loop that waits, waits for its own connections only: one of them has a full channel. */
  lemma BlockedByFullChannel(s: State, v: Node, phase: Phase) returns (p: Port)
    requires Blocked(s.sendq, v, phase)
    ensures p.Owner() == v && ChannelLength(s.sendq, p) > 32
  {
    var i :| 0 <= i < |s.sendq| && s.sendq[i].port.Owner() == v && s.sendq[i].phase == phase && InHand(s.sendq, i);
    p := s.sendq[i].port;
    PrefixIsShorter(s.sendq, i + 1, p);
    ChannelAppend(s.sendq[..i], s.sendq[i], p);
    assert s.sendq[..i + 1] == s.sendq[..i] + [s.sendq[i]];
  }

  lemma {:induction false} PrefixIsShorter(sendq: seq<Slot>, n: nat, p: Port)
    requires n <= |sendq|
    ensures ChannelLength(sendq[..n], p) <= ChannelLength(sendq, p)
    decreases |sendq| - n
  {
    if n < |sendq| {
      PrefixIsShorter(sendq, n + 1, p);
      ChannelAppend(sendq[..n], sendq[n], p);
      assert sendq[..n + 1] == sendq[..n] + [sendq[n]];
    } else {
      assert sendq[..n] == sendq;
    }
  }
}
