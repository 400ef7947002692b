/** Coverage under conditions that can be read off the network: no lounge can overflow while at most
    as many messages were originated as a lounge holds. */
module FloodCapacity {
  import opened Sequences
  import opened Topology
  import opened Ttl
  import opened Configs
  import opened FloodNetwork
  import opened FloodInvariants
  import opened FloodTheorems
  import opened FloodTtl
  import opened FloodPasses

  /** The ids that wait in the lounge of node `v`. */
  function WaitingIds(lounge: seq<Waiting>, v: Node): set<Id> {
    if lounge == [] then {}
    else WaitingIds(lounge[1..], v) + if lounge[0].node == v then {lounge[0].msg.id} else {}
  }

  lemma {:induction false} WaitingIdsExact(lounge: seq<Waiting>, v: Node)
    ensures forall id :: id in WaitingIds(lounge, v) <==> exists i :: 0 <= i < |lounge| && Waits(lounge[i]) == Key(v, id)
  {
    if lounge != [] {
      WaitingIdsExact(lounge[1..], v);
      forall id ensures id in WaitingIds(lounge, v) <==> exists i :: 0 <= i < |lounge| && Waits(lounge[i]) == Key(v, id) {
        if i :| 0 <= i < |lounge[1..]| && Waits(lounge[1..][i]) == Key(v, id) {
          assert Waits(lounge[i + 1]) == Key(v, id);
        }
        if i :| 1 <= i < |lounge| && Waits(lounge[i]) == Key(v, id) {
          assert Waits(lounge[1..][i - 1]) == Key(v, id);
        }
      }
    }
  }

  lemma ApartAfterFirst(lounge: seq<Waiting>)
    requires lounge != [] && forall i, j | 0 <= i < j < |lounge| :: Waits(lounge[i]) != Waits(lounge[j])
    ensures forall i, j | 0 <= i < j < |lounge[1..]| :: Waits(lounge[1..][i]) != Waits(lounge[1..][j])
    ensures forall i | 0 <= i < |lounge[1..]| :: Waits(lounge[1..][i]) != Waits(lounge[0])
  {
    hide Waits;
    assert forall i | 0 <= i < |lounge[1..]| :: lounge[1..][i] == lounge[i + 1];
  }

  lemma {:induction false} LengthIsIds(lounge: seq<Waiting>, v: Node)
    requires forall i, j | 0 <= i < j < |lounge| :: Waits(lounge[i]) != Waits(lounge[j])
    ensures LoungeLength(lounge, v) == |WaitingIds(lounge, v)|
  {
    if lounge != [] {
      ApartAfterFirst(lounge);
      LengthIsIds(lounge[1..], v);
      WaitingIdsExact(lounge[1..], v);
      FirstIsNew(lounge, v);
    }
  }

  lemma FirstIsNew(lounge: seq<Waiting>, v: Node)
    requires lounge != [] && forall i | 0 <= i < |lounge[1..]| :: Waits(lounge[1..][i]) != Waits(lounge[0])
    requires forall id :: id in WaitingIds(lounge[1..], v) <==> exists i :: 0 <= i < |lounge[1..]| && Waits(lounge[1..][i]) == Key(v, id)
    ensures lounge[0].node == v ==> lounge[0].msg.id !in WaitingIds(lounge[1..], v)
  {
    hide WaitingIds;
  }

  /** A lounge holds no more messages than were originated, and not the one about to be written. */
  lemma LoungeHasRoom(t: Net, s: State, v: Node, id: Id)
    requires LoungeShape(t, s.origins, s.cells, s.lounge) && Lounged(s.table, s.log.started, s.lounge) && Key(v, id) !in s.table
    ensures LoungeLength(s.lounge, v) <= |s.origins.Keys - {id}|
  {
    WaitingIdsExact(s.lounge, v);
    LengthIsIds(s.lounge, v);
    forall w <- WaitingIds(s.lounge, v) ensures w in s.origins.Keys - {id} {
      var i :| 0 <= i < |s.lounge| && Waits(s.lounge[i]) == Key(v, w);
      assert Arrived(s.table, Waits(s.lounge[i]), s.lounge[i].msg.source);
    }
    SubsetCardinality(WaitingIds(s.lounge, v), s.origins.Keys - {id});
  }

  lemma RoomForNew(t: Net, s: State, v: Node)
    requires Shape(t, s) && Once(s)
    ensures LoungeLength(s.lounge, v) <= |s.origins|
    ensures Id(v, NextSeq(s, v)) !in s.origins
  {
    FreshId(t, s, v);
    hide LoungeLength, LoungeShape, Lounged, NextSeq;
    var id := Id(v, NextSeq(s, v));
    LoungeHasRoom(t, s, v, id);
    assert s.origins.Keys - {id} == s.origins.Keys;
  }

  lemma CaptureIssues(s: State, v: Node, r: bool)
    ensures ApplyCapture(s, v, r).origins.Keys == s.origins.Keys + {Id(v, NextSeq(s, v))}
  {
    hide LoungeLength, NextSeq;
  }

  lemma CaptureFits(s: State, v: Node, r: bool)
    requires LoungeLength(s.lounge, v) < SWITCH_LOUNGE_SIZE
    ensures ApplyCapture(s, v, r).log.lost == s.log.lost
  {
    hide LoungeLength, NextSeq;
  }

  lemma CaptureLosesNothing(t: Net, s: State, v: Node, r: bool)
    requires Shape(t, s) && Once(s) && |ApplyCapture(s, v, r).origins| <= SWITCH_LOUNGE_SIZE
    ensures ApplyCapture(s, v, r).log.lost == s.log.lost
  {
    hide *;
    CaptureIssues(s, v, r);
    RoomForNew(t, s, v);
    CaptureFits(s, v, r);
  }

  lemma ReceiveLosesNothing(t: Net, s: State, i: nat)
    requires Shape(t, s) && Once(s) && i < |s.wire| && |s.origins| <= SWITCH_LOUNGE_SIZE
    ensures ApplyReceive(s, i).log.lost == s.log.lost
  {
    var k := s.wire[i];
    if Key(k.port.Far(), k.id) !in s.table {
      LoungeHasRoom(t, s, k.port.Far(), k.id);
      assert k.id in s.origins.Keys;
      assert |s.origins.Keys - {k.id}| == |s.origins.Keys| - 1;
    }
    hide Shape, Once, LoungeLength;
  }

  /** The other actions originate and lose nothing, except that one begins a broadcast. */
  ghost predicate KeepsOriginated(s: State, s': State) {
    s.origins.Keys <= s'.origins.Keys && s'.log.lost == s.log.lost
  }

  lemma StartsOriginate(t: Net, s: State, v: Node, r: bool)
    ensures KeepsOriginated(s, ApplyStartBroadcast(t, s, v, r))
    ensures s.origins.Keys <= ApplyCapture(s, v, r).origins.Keys
  {
    hide Targets, LoungeLength;
  }

  lemma QueuesOriginateNothing(t: Net, s: State, i: nat)
    ensures i < |s.lounge| ==> KeepsOriginated(s, ApplyStartForward(t, s, i))
    ensures i < |s.sendq| ==> KeepsOriginated(s, ApplyTransmit(s, i))
    ensures i < |s.wire| ==> s.origins.Keys <= ApplyReceive(s, i).origins.Keys
  {
    hide Targets, LoungeLength;
  }

  lemma LoopsOriginateNothing(s: State, p: Port)
    ensures p in s.fwdTodo ==> KeepsOriginated(s, ApplyForwardTo(s, p))
    ensures p in s.bcastTodo ==> KeepsOriginated(s, ApplyBroadcastTo(s, p))
  {
    hide Turn, Decrement;
  }

  lemma StepLosesNothing(t: Net, s: State, a: Action)
    requires Inv(t, s) && Enabled(t, s, a)
    ensures s.origins.Keys <= Apply(t, s, a).origins.Keys
    ensures |Apply(t, s, a).origins| <= SWITCH_LOUNGE_SIZE ==> Apply(t, s, a).log.lost == s.log.lost
  {
    hide Shape, Once, Apply;
    hide ApplyCapture, ApplyStartBroadcast, ApplyBroadcastTo, ApplyStartForward, ApplyForwardTo, ApplyTransmit, ApplyReceive;
    assert Shape(t, s) && Once(s);
    StepFrame(t, s, a);
    match a
    case Capture(v, r) =>
      StartsOriginate(t, s, v, r);
      if |ApplyCapture(s, v, r).origins| <= SWITCH_LOUNGE_SIZE { CaptureLosesNothing(t, s, v, r); }
    case StartBroadcast(v, r) => StartsOriginate(t, s, v, r);
    case BroadcastTo(p) => LoopsOriginateNothing(s, p);
    case ForwardTo(p) => LoopsOriginateNothing(s, p);
    case StartForward(i) => QueuesOriginateNothing(t, s, i);
    case Transmit(i) => QueuesOriginateNothing(t, s, i);
    case Receive(i) =>
      QueuesOriginateNothing(t, s, i);
      SubsetCardinality(s.origins.Keys, ApplyReceive(s, i).origins.Keys);
      if |s.origins| <= SWITCH_LOUNGE_SIZE { ReceiveLosesNothing(t, s, i); }
    case _ =>
  }

  lemma {:induction false} RunLosesNothing(t: Net, s: State, actions: seq<Action>, s': State)
    requires t.Valid() && Inv(t, s) && IsRun(t, s, actions, s')
    ensures s.origins.Keys <= s'.origins.Keys
    ensures |s'.origins| <= SWITCH_LOUNGE_SIZE ==> s'.log.lost == s.log.lost
    decreases |actions|
  {
    if actions != [] {
      var s1 := Apply(t, s, actions[0]);
      StepKeepsInv(t, s, actions[0]);
      StepLosesNothing(t, s, actions[0]);
      hide Inv;
      RunLosesNothing(t, s1, actions[1..], s');
      SubsetCardinality(s1.origins.Keys, s'.origins.Keys);
    }
  }

  /** As long as no more messages were originated than a lounge holds, no lounge rejected any. */
  lemma NothingIsLost(t: Net, s: State)
    requires t.Valid() && Reachable(t, s) && |s.origins| <= 65025
    ensures s.log.lost == {}
  {
    var actions :| IsRun(t, EMPTY, actions, s);
    EmptyHasInv(t);
    RunLosesNothing(t, EMPTY, actions, s);
  }

  /** Coverage of a small network, from its degrees and the number of messages alone. */
  lemma SmallFloodIsCovered(t: Net, s: State, id: Id, v: Node)
    requires t.Valid() && Reachable(t, s) && Quiescent(s) && IsRoutable(s.origins, id)
    requires |s.origins| <= 65025 && |t.Ports()| + |t.PortsOf(id.origin)| < 255
    ensures v != id.origin ==> (Key(v, id) in s.table <==> t.Connected(id.origin, v))
    ensures s.origins[id].kind == Multicast ==> Key(id.origin, id) in s.table
  {
    NothingIsLost(t, s);
    SmallNetworkIsCovered(t, s, id, v);
  }

  /** Coverage of any network in which the message arrived everywhere with a TTL above the number of
      connections to serve, or with 0. */
  lemma AmpleTtlCovers(t: Net, s: State, id: Id, v: Node)
    requires t.Valid() && Reachable(t, s) && Quiescent(s) && IsRoutable(s.origins, id)
    requires |s.origins| <= SWITCH_LOUNGE_SIZE
    requires forall u | Key(u, id) in s.table && Key(u, id) in s.log.arrivals ::
      var n := |DuePorts(t, s, Key(u, id))|; n < 0x1_0000_0000 && (s.log.arrivals[Key(u, id)].ttl > n || s.log.arrivals[Key(u, id)].ttl == 0)
    ensures v != id.origin ==> (Key(v, id) in s.table <==> t.Connected(id.origin, v))
    ensures s.origins[id].kind == Multicast ==> Key(id.origin, id) in s.table
  {
    NothingIsLost(t, s);
    ReachablePasses(t, s);
    UnskippedExactly(t, s, id);
    FloodCovers(t, s, id, v);
  }
}
