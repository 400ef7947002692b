/** The nodes of the network machine run the lounge of LoungeSpec: away from its size cap and between
    cleanups, each write and each read of the machine is the lounge's at the node concerned. */
module FloodLounge {
  import opened Wrappers
  import opened Sequences
  import opened Topology
  import opened Ttl
  import opened Configs
  import opened FloodNetwork
  import opened FloodInvariants
  import opened FloodTheorems
  import opened FloodCapacity
  import LoungeSpec

  type NodeLounge = LoungeSpec.Lounge<Id, Message>

  /** What waits in the lounge channel of node `v`, in order. */
  function QueueOf(lounge: seq<Waiting>, v: Node): seq<Message> {
    if lounge == [] then []
    else (if lounge[0].node == v then [lounge[0].msg] else []) + QueueOf(lounge[1..], v)
  }

  /** The lounge `l` is in the state in which the machine has node `v`. */
  ghost predicate Agrees(l: NodeLounge, s: State, v: Node) {
    && !l.closed && l.queue == QueueOf(s.lounge, v)
    && (forall id :: id in LoungeSpec.Ids(l.entries) <==> Key(v, id) in s.table)
  }

  lemma {:induction false} QueueLength(lounge: seq<Waiting>, v: Node)
    ensures |QueueOf(lounge, v)| == LoungeLength(lounge, v)
  {
    if lounge != [] {
      QueueLength(lounge[1..], v);
    }
  }

  lemma {:induction false} QueueAppend(lounge: seq<Waiting>, w: Waiting, v: Node)
    ensures QueueOf(lounge + [w], v) == QueueOf(lounge, v) + if w.node == v then [w.msg] else []
  {
    if lounge == [] {
      assert lounge + [w] == [w] && [w][1..] == [];
    } else {
      QueueAppend(lounge[1..], w, v);
      assert (lounge + [w])[1..] == lounge[1..] + [w];
    }
  }

  /** A write of the machine at node `v` is a write of its lounge, with the same effect, and leaves
      the lounges of all other nodes alone. It is lost exactly when the lounge reports that it is full. */
  lemma WriteAgrees(c: LoungeSpec.Config, l: NodeLounge, s: State, v: Node, m: Message, ttl: uint32, hops: nat,
                    now: int, l': NodeLounge, r: LoungeSpec.Outcome)
    requires Agrees(l, s, v) && c.loungeSize == SWITCH_LOUNGE_SIZE && |l.entries| < c.maxEntries
    requires LoungeSpec.WriteStep(c, l, m.id, m, now, l', r)
    ensures Agrees(l', WriteLounge(s, v, m, ttl, hops), v)
    ensures m.id !in s.log.lost ==> (m.id in WriteLounge(s, v, m, ttl, hops).log.lost <==> r == LoungeSpec.ErrFull)
    ensures Key(v, m.id) !in s.table ==> (Key(v, m.id) in WriteLounge(s, v, m, ttl, hops).table <==> r == LoungeSpec.Accepted)
  {
    QueueLength(s.lounge, v);
    QueueAppend(s.lounge, Waiting(v, m), v);
    var x := LoungeSpec.Entry(m.id, now + c.lifetime);
    assert forall id :: id in LoungeSpec.Ids(l.entries + [x]) <==> id in LoungeSpec.Ids(l.entries) || id == m.id by {
      assert forall e :: e in l.entries + [x] <==> e in l.entries || e == x;
    }
  }

  lemma WriteLeavesOthers(l: NodeLounge, s: State, v: Node, m: Message, ttl: uint32, hops: nat, w: Node)
    requires Agrees(l, s, w) && w != v
    ensures Agrees(l, WriteLounge(s, v, m, ttl, hops), w)
  {
    QueueAppend(s.lounge, Waiting(v, m), w);
  }

  lemma {:induction false} QueueWithout(lounge: seq<Waiting>, i: nat, w: Node)
    requires i < |lounge| && forall j | 0 <= j < i :: lounge[j].node != lounge[i].node
    ensures var q := QueueOf(lounge, w);
      if w == lounge[i].node then q == [lounge[i].msg] + QueueOf(RemoveAt(lounge, i), w) else QueueOf(RemoveAt(lounge, i), w) == q
  {
    if i == 0 {
      assert RemoveAt(lounge, 0) == lounge[1..];
    } else {
      QueueWithout(lounge[1..], i - 1, w);
      assert RemoveAt(lounge, i)[1..] == RemoveAt(lounge[1..], i - 1);
    }
  }

  /** When the forwarder of a node takes a message, it takes the one its lounge hands out next. */
  lemma ReadAgrees(c: LoungeSpec.Config, t: Net, l: NodeLounge, s: State, i: nat, w: Node)
    requires Enabled(t, s, StartForward(i)) && Agrees(l, s, w)
    ensures var v, s' := s.lounge[i].node, ApplyStartForward(t, s, i);
      if w != v then Agrees(l, s', w)
      else l.queue != [] && l.queue[0] == s.lounge[i].msg
           && LoungeSpec.Step(c, l, LoungeSpec.Event<Id, Message>.Read, l.(queue := l.queue[1..])) && Agrees(l.(queue := l.queue[1..]), s', w)
  {
    QueueWithout(s.lounge, i, w);
  }

  lemma EntriesAreIssued(t: Net, l: NodeLounge, s: State, v: Node)
    requires Inv(t, s) && Agrees(l, s, v) && LoungeSpec.DistinctIds(l.entries)
    ensures |l.entries| == |LoungeSpec.Ids(l.entries)| && LoungeSpec.Ids(l.entries) <= s.origins.Keys
    ensures forall id :: id in LoungeSpec.Ids(l.entries) <==> Key(v, id) in s.table
  {
    LoungeSpec.DistinctIdsCount(l.entries);
    assert forall id <- LoungeSpec.Ids(l.entries) :: Key(v, id) in s.table;
  }

  lemma UnrecordedHasRoom(t: Net, l: NodeLounge, s: State, v: Node, id: Id, origins: set<Id>, max: nat)
    requires Inv(t, s) && Agrees(l, s, v) && LoungeSpec.DistinctIds(l.entries)
    requires s.origins.Keys <= origins && id in origins && Key(v, id) !in s.table && |origins| <= max
    ensures |l.entries| < max
  {
    EntriesAreIssued(t, l, s, v);
    hide Inv;
    SubsetCardinality(LoungeSpec.Ids(l.entries), origins - {id});
  }

  /** What WriteAgrees asks of the table holds in every reachable state, as long as no more messages
      were originated than the table has entries. */
  lemma TableHasRoom(c: LoungeSpec.Config, t: Net, l: NodeLounge, s: State, v: Node, id: Id)
    requires t.Valid() && Reachable(t, s) && Agrees(l, s, v) && LoungeSpec.DistinctIds(l.entries)
    requires id in s.origins && Key(v, id) !in s.table && |s.origins| <= c.maxEntries
    ensures |l.entries| < c.maxEntries
  {
    ReachableHasInv(t, s);
    UnrecordedHasRoom(t, l, s, v, id, s.origins.Keys, c.maxEntries);
  }

  // ---------- whole runs ----------

  type NodeEvent = LoungeSpec.Event<Id, Message>

  /** What the lounge of node `v` makes of a write of `id`. */
  function OutcomeAt(s: State, v: Node, id: Id): LoungeSpec.Outcome {
    if Key(v, id) in s.table then LoungeSpec.Duplicate
    else if LoungeLength(s.lounge, v) >= SWITCH_LOUNGE_SIZE then LoungeSpec.ErrFull
    else LoungeSpec.Accepted
  }

  function WriteAt(s: State, v: Node, m: Message, now: int): NodeEvent {
    LoungeSpec.Event.Write(m.id, m, now, OutcomeAt(s, v, m.id))
  }

  /** What an action at time `now` means for the lounge of node `v`: a write, a read, or nothing. */
  function EventAt(s: State, a: Action, v: Node, now: int): seq<NodeEvent> {
    match a
    case Capture(w, r) => if w == v then [WriteAt(s, v, Fresh(s, v, r), now)] else []
    case Receive(i) =>
      if i < |s.wire| && s.wire[i].port.Far() == v then
        var q := s.wire[i];
        [WriteAt(s, v, Message(q.id, |s.cells|, Some(q.port.Peer()), q.routable), now)]
      else []
    case StartForward(i) => if i < |s.lounge| && s.lounge[i].node == v then [LoungeSpec.Event.Read] else []
    case _ => []
  }

  /** The events at node `v` in a run of the network from `s`, action `i` taking place at `times[i]`. */
  ghost function EventsAt(t: Net, s: State, actions: seq<Action>, times: seq<int>, v: Node): seq<NodeEvent>
    requires |times| == |actions|
    decreases |actions|
  {
    if actions == [] || !Enabled(t, s, actions[0]) then []
    else EventAt(s, actions[0], v, times[0]) + EventsAt(t, Apply(t, s, actions[0]), actions[1..], times[1..], v)
  }

  /** The lounge after a write below the size cap. */
  function Written(c: LoungeSpec.Config, l: NodeLounge, m: Message, now: int, r: LoungeSpec.Outcome): NodeLounge {
    if r == LoungeSpec.Accepted then LoungeSpec.Lounge(l.entries + [LoungeSpec.Entry(m.id, now + c.lifetime)], l.queue + [m], false)
    else l
  }

  lemma WriteRuns(c: LoungeSpec.Config, t: Net, l: NodeLounge, s: State, v: Node, m: Message, ttl: uint32, hops: nat, now: int)
    requires Agrees(l, s, v) && LoungeSpec.DistinctIds(l.entries) && c.loungeSize == SWITCH_LOUNGE_SIZE
    requires Key(v, m.id) !in s.table ==> |l.entries| < c.maxEntries
    ensures var r := OutcomeAt(s, v, m.id); var l' := Written(c, l, m, now, r);
      && LoungeSpec.WriteStep(c, l, m.id, m, now, l', r)
      && LoungeSpec.DistinctIds(l'.entries) && Agrees(l', WriteLounge(s, v, m, ttl, hops), v)
  {
    hide LoungeSpec.DistinctIds;
    var r := OutcomeAt(s, v, m.id);
    var l' := Written(c, l, m, now, r);
    QueueLength(s.lounge, v);
    if Key(v, m.id) !in s.table {
      assert LoungeSpec.MakesRoom(c, l.entries, l.entries);
      assert LoungeSpec.Stores(c, l.entries, l, m.id, m, now, l', r);
      LoungeSpec.AppendKeepsDistinct(l.entries, LoungeSpec.Entry(m.id, now + c.lifetime));
      hide LoungeSpec.MakesRoom, LoungeSpec.Stores, WriteLounge, LoungeLength;
      WriteAgrees(c, l, s, v, m, ttl, hops, now, l', r);
    }
  }

  /** Node `v` is where it was: its lounge is not concerned. */
  lemma OthersAgree(t: Net, l: NodeLounge, s: State, a: Action, v: Node)
    requires Enabled(t, s, a) && Agrees(l, s, v)
    requires !a.Capture? && !a.Receive? && !a.StartForward?
    ensures Agrees(l, Apply(t, s, a), v)
  {
    StepFrame(t, s, a);
    StepLeaves(t, s, a);
    hide Apply, Enabled, Turn, Decrement, Targets, LoungeSpec.Ids, QueueOf;
  }

  /** Neither drawing an id nor taking a message from a link concerns a lounge. */
  lemma OutsideAgrees(l: NodeLounge, s: State, w: Node, o: Origin, wire: seq<Packet>, v: Node)
    requires Agrees(l, s, v)
    ensures Agrees(l, Issue(s, w, o), v) && Agrees(l, s.(wire := wire), v)
  {
    hide QueueOf, LoungeSpec.Ids;
  }

  lemma CaptureIssues(s: State, w: Node, r: bool)
    ensures var s1, id := Issue(s, w, Origin(Multicast, r)), Fresh(s, w, r).id;
      s.origins.Keys <= s1.origins.Keys && id in s1.origins && s1.origins == ApplyCapture(s, w, r).origins
  {
    hide LoungeLength;
  }

  lemma FreshIsIssued(t: Net, s: State, w: Node, r: bool)
    requires Inv(t, s)
    ensures var s1, id := Issue(s, w, Origin(Multicast, r)), Fresh(s, w, r).id;
      s.origins.Keys <= s1.origins.Keys && id in s1.origins && s1.origins == ApplyCapture(s, w, r).origins && forall v :: Key(v, id) !in s.table
  {
    assert Shape(t, s);
    hide Inv, Shape, Issue, ApplyCapture;
    CaptureIssues(s, w, r);
    FreshId(t, s, w);
  }

  lemma CaptureRuns(c: LoungeSpec.Config, t: Net, l: NodeLounge, s: State, w: Node, r: bool, v: Node, now: int) returns (l': NodeLounge)
    requires Inv(t, s) && Agrees(l, s, v) && LoungeSpec.DistinctIds(l.entries) && c.loungeSize == SWITCH_LOUNGE_SIZE
    requires |ApplyCapture(s, w, r).origins| <= c.maxEntries
    ensures Follows(c, l, EventAt(s, Capture(w, r), v, now), l') && Agrees(l', ApplyCapture(s, w, r), v)
  {
    hide Inv, Shape, Agrees, LoungeSpec.DistinctIds, LoungeSpec.WriteStep, LoungeLength, WriteLounge;
    var s1, m := Issue(s, w, Origin(Multicast, r)), Fresh(s, w, r);
    FreshIsIssued(t, s, w, r);
    OutsideAgrees(l, s, w, Origin(Multicast, r), s.wire, v);
    if w == v {
      UnrecordedHasRoom(t, l, s, v, m.id, s1.origins.Keys, c.maxEntries);
      WriteRuns(c, t, l, s1, v, m, MAX_DISCOVERY_MESSAGE_TTL, 0, now);
      l' := Written(c, l, m, now, OutcomeAt(s, v, m.id));
    } else {
      WriteLeavesOthers(l, s1, w, m, MAX_DISCOVERY_MESSAGE_TTL, 0, v);
      l' := l;
    }
  }

  lemma ReceiveRuns(c: LoungeSpec.Config, t: Net, l: NodeLounge, s: State, i: nat, v: Node, now: int) returns (l': NodeLounge)
    requires Inv(t, s) && Agrees(l, s, v) && LoungeSpec.DistinctIds(l.entries) && c.loungeSize == SWITCH_LOUNGE_SIZE
    requires i < |s.wire| && |s.origins| <= c.maxEntries
    ensures Follows(c, l, EventAt(s, Receive(i), v, now), l') && Agrees(l', ApplyReceive(s, i), v)
  {
    assert Shape(t, s);
    hide Inv, Shape, Agrees, LoungeSpec.DistinctIds, LoungeSpec.WriteStep, LoungeLength, WriteLounge;
    PacketIsIssued(t, s, i);
    var q := s.wire[i];
    var s1, w, m := s.(wire := RemoveAt(s.wire, i)), q.port.Far(), Message(q.id, |s.cells|, Some(q.port.Peer()), q.routable);
    OutsideAgrees(l, s, w, Origin(Multicast, q.routable), RemoveAt(s.wire, i), v);
    if w == v {
      if Key(v, q.id) !in s.table { UnrecordedHasRoom(t, l, s, v, q.id, s.origins.Keys, c.maxEntries); }
      WriteRuns(c, t, l, s1, v, m, q.ttl, q.hops, now);
      l' := Written(c, l, m, now, OutcomeAt(s, v, m.id));
    } else {
      WriteLeavesOthers(l, s1, w, m, q.ttl, q.hops, v);
      l' := l;
    }
  }

  /** At most one event, which is a step of the lounge. */
  ghost predicate Follows(c: LoungeSpec.Config, l: NodeLounge, events: seq<NodeEvent>, l': NodeLounge) {
    && LoungeSpec.DistinctIds(l'.entries)
    && if events == [] then l' == l else |events| == 1 && LoungeSpec.Step(c, l, events[0], l')
  }

  lemma StepRuns(c: LoungeSpec.Config, t: Net, l: NodeLounge, s: State, a: Action, v: Node, now: int) returns (l': NodeLounge)
    requires Inv(t, s) && Enabled(t, s, a) && Agrees(l, s, v) && LoungeSpec.DistinctIds(l.entries)
    requires c.loungeSize == SWITCH_LOUNGE_SIZE && |Apply(t, s, a).origins| <= c.maxEntries
    ensures Follows(c, l, EventAt(s, a, v, now), l') && Agrees(l', Apply(t, s, a), v)
  {
    hide Inv, Agrees, LoungeSpec.DistinctIds, LoungeSpec.Step, Apply, ApplyCapture, ApplyReceive, ApplyStartForward;
    StepFrame(t, s, a);
    match a {
      case Capture(w, r) => l' := CaptureRuns(c, t, l, s, w, r, v, now);
      case Receive(i) =>
        StepLosesNothing(t, s, a);
        SubsetCardinality(s.origins.Keys, Apply(t, s, a).origins.Keys);
        l' := ReceiveRuns(c, t, l, s, i, v, now);
      case StartForward(i) =>
        ReadAgrees(c, t, l, s, i, v);
        l' := if s.lounge[i].node == v then l.(queue := l.queue[1..]) else l;
      case _ =>
        OthersAgree(t, l, s, a, v);
        l' := l;
    }
  }

  /** `states` is a run of a lounge from `l`. */
  ghost predicate RunsFrom(c: LoungeSpec.Config, l: NodeLounge, events: seq<NodeEvent>, states: seq<NodeLounge>) {
    && |states| == |events| + 1 && states[0] == l
    && (forall i | 0 <= i < |events| :: LoungeSpec.Step(c, states[i], events[i], states[i + 1]))
  }

  lemma RunsPrepend(c: LoungeSpec.Config, l: NodeLounge, events: seq<NodeEvent>, l': NodeLounge, rest: seq<NodeEvent>, states: seq<NodeLounge>)
    returns (all: seq<NodeLounge>)
    requires Follows(c, l, events, l') && RunsFrom(c, l', rest, states)
    ensures RunsFrom(c, l, events + rest, all) && all[|all| - 1] == states[|states| - 1]
  {
    hide LoungeSpec.Step, LoungeSpec.DistinctIds;
    if events == [] {
      all := states;
      assert [] + rest == rest;
    } else {
      all := [l] + states;
      forall i | 0 <= i < |events + rest| ensures LoungeSpec.Step(c, all[i], (events + rest)[i], all[i + 1]) {
        if i > 0 { assert LoungeSpec.Step(c, states[i - 1], rest[i - 1], states[i]); }
      }
    }
  }

  lemma {:induction false} RunRuns(c: LoungeSpec.Config, t: Net, l: NodeLounge, s: State, actions: seq<Action>, times: seq<int>, s': State, v: Node)
    returns (states: seq<NodeLounge>)
    requires t.Valid() && Inv(t, s) && IsRun(t, s, actions, s') && |times| == |actions|
    requires Agrees(l, s, v) && LoungeSpec.DistinctIds(l.entries)
    requires c.loungeSize == SWITCH_LOUNGE_SIZE && |s'.origins| <= c.maxEntries
    ensures RunsFrom(c, l, EventsAt(t, s, actions, times, v), states) && Agrees(states[|states| - 1], s', v)
    decreases |actions|
  {
    if actions == [] {
      states := [l];
    } else {
      var a := actions[0];
      var s1 := Apply(t, s, a);
      hide Inv, Agrees, LoungeSpec.DistinctIds, Apply, Enabled, EventAt, LoungeSpec.Step, RunsFrom;
      StepKeepsInv(t, s, a);
      RunLosesNothing(t, s1, actions[1..], s');
      SubsetCardinality(s1.origins.Keys, s'.origins.Keys);
      var l1 := StepRuns(c, t, l, s, a, v, times[0]);
      var rest := RunRuns(c, t, l1, s1, actions[1..], times[1..], s', v);
      states := RunsPrepend(c, l, EventAt(s, a, v, times[0]), l1, EventsAt(t, s1, actions[1..], times[1..], v), rest);
    }
  }

  /** In every run of the network in which no more messages are originated than a table holds, whatever
      the clock, the writes and reads at each node are a run of a lounge as LoungeSpec has it, and the
      node ends in the state of that lounge. So what DedupWindow proves of runs holds of every node. */
  lemma NodesRunLounges(c: LoungeSpec.Config, t: Net, actions: seq<Action>, times: seq<int>, s: State, v: Node)
    returns (states: seq<NodeLounge>)
    requires t.Valid() && IsRun(t, EMPTY, actions, s) && |times| == |actions|
    requires c.loungeSize == SWITCH_LOUNGE_SIZE && |s.origins| <= c.maxEntries
    ensures LoungeSpec.IsRun(c, EventsAt(t, EMPTY, actions, times, v), states) && Agrees(states[|states| - 1], s, v)
  {
    EmptyHasInv(t);
    hide Inv, LoungeSpec.Step, EventsAt, IsRun;
    states := RunRuns(c, t, LoungeSpec.Lounge([], [], false), EMPTY, actions, times, s, v);
  }
}
