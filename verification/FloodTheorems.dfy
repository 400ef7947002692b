/** Whole-run theorems about the flood protocol. */
module FloodTheorems {
  import opened Wrappers
  import opened Sequences
  import opened Topology
  import opened Ttl
  import opened FloodNetwork
  import opened FloodInvariants

  /** Each action by name. */
  lemma StepFrame(t: Net, s: State, a: Action)
    requires Enabled(t, s, a)
    ensures a.Capture? ==> Apply(t, s, a) == ApplyCapture(s, a.node, a.routable)
    ensures a.StartBroadcast? ==> Apply(t, s, a) == ApplyStartBroadcast(t, s, a.node, a.routable)
    ensures a.BroadcastTo? ==> Apply(t, s, a) == ApplyBroadcastTo(s, a.port)
    ensures a.ForwardTo? ==> Apply(t, s, a) == ApplyForwardTo(s, a.port)
    ensures a.Transmit? ==> Apply(t, s, a) == ApplyTransmit(s, a.index)
    ensures a.Receive? ==> Apply(t, s, a) == ApplyReceive(s, a.index)
    ensures a.StartForward? ==> Apply(t, s, a) == ApplyStartForward(t, s, a.index)
    ensures a.EndForward? ==> Apply(t, s, a) == s.(forwarding := s.forwarding - {a.node})
    ensures a.EndBroadcast? ==> Apply(t, s, a) == s.(broadcasting := s.broadcasting - {a.node})
  {}

  /** Nothing was taken from or put into the queues, and no loop iteration performed. */
  ghost predicate QueuesKept(s: State, s': State) {
    s'.cells == s.cells && s'.sendq == s.sendq && s'.wire == s.wire && s'.log.done == s.log.done
  }

  ghost predicate TtlLogKept(s: State, s': State) {
    s'.log.skipped == s.log.skipped && s'.log.wrapped == s.log.wrapped
  }

  ghost predicate TableKept(s: State, s': State) {
    s'.table == s.table && s'.log.arrivals == s.log.arrivals
  }

  lemma CaptureLeaves(s: State, v: Node, r: bool)
    ensures var s' := ApplyCapture(s, v, r); TtlLogKept(s, s') && s'.log.casts == s.log.casts
  {
    hide LoungeLength;
  }

  lemma ReceiveLeaves(s: State, i: nat)
    requires i < |s.wire|
    ensures var s' := ApplyReceive(s, i); TtlLogKept(s, s') && s'.log.casts == s.log.casts
  {
    hide LoungeLength;
  }

  lemma StartBroadcastLeaves(t: Net, s: State, v: Node, r: bool)
    ensures var m, s' := Fresh(s, v, r), ApplyStartBroadcast(t, s, v, r);
      && TtlLogKept(s, s') && TableKept(s, s') && s'.log.casts == s.log.casts[m.id := m.cell]
      && s'.cells == s.cells + [Cell(m.id, MAX_DISCOVERY_MESSAGE_TTL, 0)] && s'.log.done == s.log.done
  {}

  lemma StartForwardLeaves(t: Net, s: State, i: nat)
    requires i < |s.lounge|
    ensures var s' := ApplyStartForward(t, s, i);
      QueuesKept(s, s') && TtlLogKept(s, s') && TableKept(s, s') && s'.log.casts == s.log.casts
  {
    hide Targets;
  }

  lemma TransmitLeaves(s: State, i: nat)
    requires i < |s.sendq|
    ensures var s' := ApplyTransmit(s, i);
      TtlLogKept(s, s') && TableKept(s, s') && s'.log.casts == s.log.casts && s'.cells == s.cells && s'.log.done == s.log.done
  {}

  lemma LoopLeaves(s: State, p: Port)
    ensures p in s.fwdTodo ==>
              var s' := ApplyForwardTo(s, p); TableKept(s, s') && s'.log.casts == s.log.casts && s.log.wrapped <= s'.log.wrapped
    ensures p in s.bcastTodo ==>
              var s' := ApplyBroadcastTo(s, p); TableKept(s, s') && s'.log.casts == s.log.casts && s.log.wrapped <= s'.log.wrapped
  {
    hide Turn, Decrement;
  }

  /** What the actions leave alone. */
  lemma StepLeaves(t: Net, s: State, a: Action)
    requires Enabled(t, s, a)
    ensures a.StartForward? || a.EndForward? || a.EndBroadcast? ==> QueuesKept(s, Apply(t, s, a))
    ensures !a.ForwardTo? && !a.BroadcastTo? ==> TtlLogKept(s, Apply(t, s, a))
    ensures !a.Capture? && !a.Receive? ==> TableKept(s, Apply(t, s, a))
    ensures s.log.wrapped <= Apply(t, s, a).log.wrapped
    ensures !a.StartBroadcast? ==> Apply(t, s, a).log.casts == s.log.casts
  {
    StepFrame(t, s, a);
    hide Apply, ApplyCapture, ApplyStartBroadcast, ApplyBroadcastTo, ApplyStartForward, ApplyForwardTo, ApplyTransmit, ApplyReceive;
    match a
    case Capture(v, r) => CaptureLeaves(s, v, r);
    case StartBroadcast(v, r) => StartBroadcastLeaves(t, s, v, r);
    case BroadcastTo(p) => LoopLeaves(s, p);
    case StartForward(i) => StartForwardLeaves(t, s, i);
    case ForwardTo(p) => LoopLeaves(s, p);
    case Transmit(i) => TransmitLeaves(s, i);
    case Receive(i) => ReceiveLeaves(s, i);
    case _ =>
  }

  /** `s` can be reached from the empty network. */
  ghost predicate Reachable(t: Net, s: State) {
    exists actions :: IsRun(t, EMPTY, actions, s)
  }

  lemma {:induction false} RunKeepsInv(t: Net, s: State, actions: seq<Action>, s': State)
    requires t.Valid() && Inv(t, s) && IsRun(t, s, actions, s')
    ensures Inv(t, s')
    decreases |actions|
  {
    if actions != [] {
      StepKeepsInv(t, s, actions[0]);
      hide Inv;
      RunKeepsInv(t, Apply(t, s, actions[0]), actions[1..], s');
    }
  }

  lemma ReachableHasInv(t: Net, s: State)
    requires t.Valid() && Reachable(t, s)
    ensures Inv(t, s)
  {
    var actions :| IsRun(t, EMPTY, actions, s);
    EmptyHasInv(t);
    RunKeepsInv(t, EMPTY, actions, s);
  }

  // ---------- termination ----------

  ghost function Unrecorded(nodes: set<Node>, ids: set<Id>, recorded: set<Key>): set<Key> {
    (set v, id | v in nodes && id in ids :: Key(v, id)) - recorded
  }

  /** What one entry of a lounge can still cause: three steps per connection and two for the loop. */
  ghost function EntryWeight(t: Net): nat {
    3 * |t.Ports()| + 2
  }

  /** Entries of lounges, present and still to come. */
  ghost function Entries(t: Net, s: State): nat {
    |Unrecorded(t.nodes, s.origins.Keys, s.table.Keys)| + |s.lounge|
  }

  /** Steps left for the messages already taken out of the lounges. */
  ghost function Underway(s: State): nat {
    3 * |s.fwdTodo.Keys| + 3 * |s.bcastTodo.Keys| + |s.forwarding| + |s.broadcasting| + 2 * |s.sendq| + |s.wire|
  }

  /** `n` times `w`, by addition. */
  function Times(n: nat, w: nat): nat {
    if n == 0 then 0 else Times(n - 1, w) + w
  }

  /** An upper bound on the steps left, if nothing new is originated. */
  ghost function Potential(t: Net, s: State): nat {
    Times(Entries(t, s), EntryWeight(t)) + Underway(s)
  }

  lemma RecordedOne(nodes: set<Node>, ids: set<Id>, recorded: set<Key>, k: Key)
    requires k.node in nodes && k.id in ids && k !in recorded
    ensures |Unrecorded(nodes, ids, recorded + {k})| == |Unrecorded(nodes, ids, recorded)| - 1
  {
    assert Unrecorded(nodes, ids, recorded + {k}) == Unrecorded(nodes, ids, recorded) - {k};
  }

  lemma LoopWeight(t: Net, s: State, i: nat)
    requires i < |s.lounge|
    ensures |ApplyStartForward(t, s, i).fwdTodo.Keys| <= |s.fwdTodo.Keys| + |t.Ports()|
    ensures |ApplyStartForward(t, s, i).forwarding| <= |s.forwarding| + 1
  {
    var s' := ApplyStartForward(t, s, i);
    SubsetCardinality(s'.fwdTodo.Keys, s.fwdTodo.Keys + t.Ports());
  }

  lemma TodoShrinks(todo: Todo, p: Port)
    requires p in todo
    ensures |(todo - {p}).Keys| == |todo.Keys| - 1
  {
    assert (todo - {p}).Keys == todo.Keys - {p};
  }

  /** One step less to go. */
  ghost predicate Lighter(t: Net, s: State, s': State) {
    || (Entries(t, s') == Entries(t, s) && Underway(s') < Underway(s))
    || (Entries(t, s') == Entries(t, s) - 1 && Underway(s') < Underway(s) + EntryWeight(t))
  }

  lemma StartForwardLightens(t: Net, s: State, i: nat)
    requires i < |s.lounge|
    ensures Lighter(t, s, ApplyStartForward(t, s, i))
  {
    hide Targets, Unrecorded;
    LoopWeight(t, s, i);
  }

  /** Accepting turns an unrecorded pair into a lounge entry. */
  lemma AcceptKeepsEntries(t: Net, s: State, v: Node, m: Message, ttl: uint32, hops: nat)
    requires v in t.nodes && m.id in s.origins && Key(v, m.id) !in s.table
    ensures Entries(t, Accept(s, v, m, ttl, hops)) == Entries(t, s)
  {
    RecordedOne(t.nodes, s.origins.Keys, s.table.Keys, Key(v, m.id));
    assert s.table[Key(v, m.id) := m.source].Keys == s.table.Keys + {Key(v, m.id)};
  }

  lemma ReceiveLightens(t: Net, s: State, i: nat)
    requires t.Valid() && WireShape(t, s.origins, s.wire) && i < |s.wire|
    ensures Lighter(t, s, ApplyReceive(s, i))
  {
    hide Unrecorded, EntryWeight;
    var k := s.wire[i];
    AtFarEnd(t, k.port);
    var m := Message(k.id, |s.cells|, Some(k.port.Peer()), k.routable);
    if Key(k.port.Far(), k.id) !in s.table {
      AcceptKeepsEntries(t, s.(wire := RemoveAt(s.wire, i)), k.port.Far(), m, k.ttl, k.hops);
    }
    assert Entries(t, s.(wire := RemoveAt(s.wire, i))) == Entries(t, s);
  }

  lemma BroadcastToLightens(t: Net, s: State, p: Port)
    requires p in s.bcastTodo
    ensures Lighter(t, s, ApplyBroadcastTo(s, p))
  {
    TodoShrinks(s.bcastTodo, p);
  }

  lemma ForwardToLightens(t: Net, s: State, p: Port)
    requires p in s.fwdTodo
    ensures Lighter(t, s, ApplyForwardTo(s, p))
  {
    TodoShrinks(s.fwdTodo, p);
  }

  lemma TransmitLightens(t: Net, s: State, i: nat)
    requires i < |s.sendq|
    ensures Lighter(t, s, ApplyTransmit(s, i))
  {}

  lemma EndLightens(t: Net, s: State, v: Node)
    ensures v in s.forwarding ==> Lighter(t, s, s.(forwarding := s.forwarding - {v}))
    ensures v in s.broadcasting ==> Lighter(t, s, s.(broadcasting := s.broadcasting - {v}))
  {}

  lemma LighterDecreases(t: Net, s: State, s': State)
    requires Lighter(t, s, s')
    ensures Potential(t, s') < Potential(t, s)
  {
    hide Entries, Underway, EntryWeight;
  }

  lemma StepDecreases(t: Net, s: State, a: Action)
    requires t.Valid() && Inv(t, s) && Enabled(t, s, a) && !Originates(a)
    ensures Potential(t, Apply(t, s, a)) < Potential(t, s)
  {
    hide Lighter, Potential;
    match a {
      case BroadcastTo(p) => BroadcastToLightens(t, s, p);
      case EndBroadcast(v) => EndLightens(t, s, v);
      case StartForward(i) => StartForwardLightens(t, s, i);
      case ForwardTo(p) => ForwardToLightens(t, s, p);
      case EndForward(v) => EndLightens(t, s, v);
      case Transmit(i) => TransmitLightens(t, s, i);
      case Receive(i) => ReceiveLightens(t, s, i);
    }
    LighterDecreases(t, s, Apply(t, s, a));
  }

  /** Termination on every topology, whatever the TTL does: once origination stops, the number of
      steps is bounded by the potential of the state. */
  lemma {:induction false} FloodTerminates(t: Net, s: State, actions: seq<Action>, s': State)
    requires t.Valid() && Inv(t, s) && IsRun(t, s, actions, s')
    requires forall a <- actions :: !Originates(a)
    ensures |actions| + Potential(t, s') <= Potential(t, s)
    decreases |actions|
  {
    if actions != [] {
      StepDecreases(t, s, actions[0]);
      StepKeepsInv(t, s, actions[0]);
      hide Inv, Potential;
      FloodTerminates(t, Apply(t, s, actions[0]), actions[1..], s');
    }
  }

  /** A network that is not quiescent can always move on without a new origination: bounded links and
      send channels and single-message forwarders never block it for good. */
  lemma FloodProgresses(t: Net, s: State) returns (a: Action)
    requires t.Valid() && !Quiescent(s)
    ensures Enabled(t, s, a) && !Originates(a)
  {
    if s.wire != [] {
      a := Receive(0);
    } else if s.sendq != [] {
      a := Transmit(0);
    } else if s.forwarding != {} {
      var v :| v in s.forwarding;
      if p :| p in s.fwdTodo && p.Owner() == v {
        a := ForwardTo(p);
      } else {
        a := EndForward(v);
      }
    } else if s.broadcasting != {} {
      var v :| v in s.broadcasting;
      if p :| p in s.bcastTodo && p.Owner() == v {
        a := BroadcastTo(p);
      } else {
        a := EndBroadcast(v);
      }
    } else {
      a := StartForward(0);
    }
  }

  /** Hence every reachable state runs to quiescence. */
  lemma {:induction false} FloodSettles(t: Net, s: State) returns (actions: seq<Action>, s': State)
    requires t.Valid() && Inv(t, s)
    ensures IsRun(t, s, actions, s') && Quiescent(s') && Inv(t, s')
    ensures forall a <- actions :: !Originates(a)
    decreases Potential(t, s)
  {
    actions, s' := [], s;
    if !Quiescent(s) {
      var a := FloodProgresses(t, s);
      StepDecreases(t, s, a);
      StepKeepsInv(t, s, a);
      hide Inv, Potential, Quiescent;
      actions, s' := FloodSettles(t, Apply(t, s, a));
      assert ([a] + actions)[1..] == actions;
      actions := [a] + actions;
    }
  }

  // ---------- traffic ----------

  ghost function TokensOf(tokens: set<Token>, id: Id): set<Token> {
    set tok | tok in tokens && tok.id == id
  }

  /** The number of times `id` was put on a link. */
  function Transmissions(sent: seq<Token>, id: Id): nat {
    if sent == [] then 0
    else Transmissions(sent[..|sent| - 1], id) + if sent[|sent| - 1].id == id then 1 else 0
  }

  lemma {:induction false} TransmissionsAreTokens(sent: seq<Token>, id: Id)
    requires forall tok :: multiset(sent)[tok] <= 1
    ensures Transmissions(sent, id) == |TokensOf(Elements(sent), id)|
  {
    if sent != [] {
      var rest, tok := sent[..|sent| - 1], sent[|sent| - 1];
      assert sent == rest + [tok];
      forall x ensures multiset(rest)[x] <= 1 {
        assert multiset(sent)[x] == multiset(rest)[x] + multiset([tok])[x];
      }
      assert tok !in rest by {
        assert multiset(sent)[tok] == multiset(rest)[tok] + 1;
      }
      TransmissionsAreTokens(rest, id);
      assert TokensOf(Elements(sent), id) == TokensOf(Elements(rest), id) + if tok.id == id then {tok} else {};
    }
  }

  /** All iterations that sending loops could ever perform for `id`. */
  ghost function PossibleTokens(t: Net, id: Id): set<Token> {
    (set p | p in t.Ports() :: Token(id, p, Forwarding)) + (set p | p in t.PortsOf(id.origin) :: Token(id, p, Broadcasting))
  }

  /** The sum of all node degrees plus the degree of the origin. */
  ghost function TrafficBound(t: Net, origin: Node): nat {
    |t.Ports()| + |t.PortsOf(origin)|
  }

  lemma {:induction false} PortTokens(ports: set<Port>, id: Id, phase: Phase)
    ensures |set p | p in ports :: Token(id, p, phase)| == |ports|
  {
    if ports != {} {
      var p :| p in ports;
      PortTokens(ports - {p}, id, phase);
      assert (set q | q in ports :: Token(id, q, phase)) ==
             (set q | q in ports - {p} :: Token(id, q, phase)) + {Token(id, p, phase)};
    }
  }

  lemma PossibleTokensBound(t: Net, id: Id)
    ensures |PossibleTokens(t, id)| == TrafficBound(t, id.origin)
  {
    var f := set p | p in t.Ports() :: Token(id, p, Forwarding);
    var b := set p | p in t.PortsOf(id.origin) :: Token(id, p, Broadcasting);
    assert f !! b;
    PortTokens(t.Ports(), id, Forwarding);
    PortTokens(t.PortsOf(id.origin), id, Broadcasting);
  }

  lemma DoneIsPossible(t: Net, s: State, id: Id)
    requires DoneShape(t, s.origins, s.log.done) && BroadcastsOnce(s.origins, s.bcastTodo, s.log.done)
    ensures TokensOf(s.log.done, id) <= PossibleTokens(t, id)
    ensures |TokensOf(s.log.done, id)| <= TrafficBound(t, id.origin)
  {
    SubsetCardinality(TokensOf(s.log.done, id), PossibleTokens(t, id));
    PossibleTokensBound(t, id);
  }

  lemma SentIsDone(t: Net, s: State)
    requires Books(s.sendq, s.log.sent, s.log.skipped, s.log.done)
    ensures Elements(s.log.sent) <= s.log.done
    ensures forall tok :: multiset(s.log.sent)[tok] <= 1
  {
    assert multiset(s.log.sent) <= multiset(s.log.done);
    forall tok | tok in s.log.sent ensures tok in s.log.done {
      assert tok in multiset(s.log.sent);
    }
  }

  /** Traffic: whatever the topology, the interleaving and the TTL, the copies of one id that are
      ever put on links are at most the sum of all degrees plus the degree of the origin; no loop
      sends an id to the same connection twice, and no node forwards an id back to the connection
      it came from. */
  lemma TrafficIsBounded(t: Net, s: State, id: Id)
    requires t.Valid() && Reachable(t, s)
    ensures Transmissions(s.log.sent, id) <= |t.Ports()| + |t.PortsOf(id.origin)|
    ensures forall tok :: multiset(s.log.sent)[tok] <= 1
    ensures forall tok <- s.log.sent | tok.phase == Forwarding ::
              var k := Key(tok.port.Owner(), tok.id); k in s.table && s.table[k] != Some(tok.port)
  {
    ReachableHasInv(t, s);
    SentIsDone(t, s);
    TransmissionsAreTokens(s.log.sent, id);
    DoneIsPossible(t, s, id);
    SubsetCardinality(TokensOf(Elements(s.log.sent), id), TokensOf(s.log.done, id));
    assert forall tok <- s.log.sent :: tok in Elements(s.log.sent);
  }

  /** The iterations due for `id`: every node that recorded it forwards it to all its connections
      but the one it came from, if its origin is private; a broadcast also goes to all the
      connections of its origin. */
  ghost function DueTokens(t: Net, s: State, id: Id): set<Token> {
    (set p | p in t.Ports() && IsRoutable(s.origins, id) && Key(p.Owner(), id) in s.table
             && s.table[Key(p.Owner(), id)] != Some(p) :: Token(id, p, Forwarding))
    + (set p | p in t.PortsOf(id.origin) && IsBroadcast(s.origins, id) :: Token(id, p, Broadcasting))
  }

  lemma QuiescentLoops(t: Net, s: State)
    requires Inv(t, s) && Quiescent(s)
    ensures s.fwdTodo == map[] && s.bcastTodo == map[]
    ensures s.log.started == s.table.Keys
    ensures s.log.done == s.log.skipped + Elements(s.log.sent)
  {
    assert Tokens(s.sendq) == [];
    assert multiset(s.log.sent) + multiset(s.log.skipped) == multiset(s.log.done);
    forall tok ensures tok in s.log.done <==> tok in s.log.skipped + Elements(s.log.sent) {
      assert tok in s.log.done <==> tok in multiset(s.log.done);
      assert tok in multiset(s.log.sent) + multiset(s.log.skipped) <==> tok in s.log.skipped || tok in s.log.sent;
    }
  }

  /** Exact traffic: at quiescence the iterations that transmitted, together with those skipped for
      their TTL, are exactly the ones due. */
  lemma TrafficIsExact(t: Net, s: State, id: Id)
    requires t.Valid() && Reachable(t, s) && Quiescent(s)
    ensures TokensOf(s.log.skipped + Elements(s.log.sent), id) == DueTokens(t, s, id)
    ensures TokensOf(s.log.skipped, id) == {} ==> Transmissions(s.log.sent, id) == |DueTokens(t, s, id)|
  {
    hide Reachable, DueTokens, Transmissions, TokensOf, Shape, Once, Spreads, RelaysForward, RelaysBroadcast, Books;
    ReachableHasInv(t, s);
    QuiescentLoops(t, s);
    DueIsDone(t, s, id);
    SentIsDone(t, s);
    TransmissionsAreTokens(s.log.sent, id);
    TokensOfUnion(s.log.skipped, Elements(s.log.sent), id);
  }

  lemma TokensOfUnion(a: set<Token>, b: set<Token>, id: Id)
    ensures TokensOf(a + b, id) == TokensOf(a, id) + TokensOf(b, id)
  {}

  lemma DueIsDone(t: Net, s: State, id: Id)
    requires Shape(t, s) && Once(s) && Relays(t, s)
    requires s.fwdTodo == map[] && s.bcastTodo == map[] && s.log.started == s.table.Keys
    ensures TokensOf(s.log.done, id) == DueTokens(t, s, id)
  {
    forall tok ensures tok in TokensOf(s.log.done, id) <==> tok in DueTokens(t, s, id) {
      if tok.id == id && tok.port in t.Ports() {
        if tok.phase == Forwarding {
          assert tok == Token(id, tok.port, Forwarding);
          assert tok in s.log.done || !Owes(s.origins, s.table, s.log.started, tok.port, id);
        } else {
          assert tok == Token(id, tok.port, Broadcasting);
        }
      }
    }
  }

  // ---------- coverage ----------

  /** Recorded ids travelled along links from their origin. */
  ghost predicate Rooted(t: Net, table: Table) {
    forall k <- table :: t.Connected(k.id.origin, k.node)
  }

  lemma {:induction false} PathExtends(t: Net, a: Node, path: seq<Port>, p: Port)
    requires p in t.Ports() && t.IsPath(a, path, p.Owner())
    ensures t.IsPath(a, path + [p], p.Far())
    decreases |path|
  {
    if path == [] {
      assert (path + [p])[1..] == [];
    } else {
      assert (path + [p])[1..] == path[1..] + [p];
      PathExtends(t, path[0].Far(), path[1..], p);
    }
  }

  lemma ConnectedExtends(t: Net, a: Node, p: Port)
    requires p in t.Ports() && t.Connected(a, p.Owner())
    ensures t.Connected(a, p.Far())
  {
    var path :| t.IsPath(a, path, p.Owner());
    PathExtends(t, a, path, p);
  }

  lemma ReceiveKeepsRooted(t: Net, s: State, i: nat)
    requires SendersSeen(s.table, s.wire) && WireShape(t, s.origins, s.wire) && i < |s.wire| && Rooted(t, s.table)
    ensures Rooted(t, ApplyReceive(s, i).table)
  {
    var p, id := s.wire[i].port, s.wire[i].id;
    assert t.IsPath(id.origin, [], id.origin);
    ConnectedExtends(t, id.origin, p);
    hide t.Connected;
  }

  lemma CaptureKeepsRooted(t: Net, s: State, v: Node, r: bool)
    requires Rooted(t, s.table)
    ensures Rooted(t, ApplyCapture(s, v, r).table)
  {
    assert t.IsPath(v, [], v);
    assert t.Connected(v, v);
  }

  lemma StepKeepsRooted(t: Net, s: State, a: Action)
    requires Inv(t, s) && Enabled(t, s, a) && Rooted(t, s.table)
    ensures Rooted(t, Apply(t, s, a).table)
  {
    assert SendersSeen(s.table, s.wire) && WireShape(t, s.origins, s.wire);
    StepFrame(t, s, a);
    hide Inv, Rooted, SendersSeen, WireShape, Apply;
    if a.Capture? {
      CaptureKeepsRooted(t, s, a.node, a.routable);
    } else if a.Receive? {
      ReceiveKeepsRooted(t, s, a.index);
    } else {
      StepLeaves(t, s, a);
    }
  }

  lemma {:induction false} RunKeepsRooted(t: Net, s: State, actions: seq<Action>, s': State)
    requires t.Valid() && Inv(t, s) && Rooted(t, s.table) && IsRun(t, s, actions, s')
    ensures Rooted(t, s'.table)
    decreases |actions|
  {
    if actions != [] {
      StepKeepsInv(t, s, actions[0]);
      StepKeepsRooted(t, s, actions[0]);
      hide Inv, Rooted;
      RunKeepsRooted(t, Apply(t, s, actions[0]), actions[1..], s');
    }
  }

  /** No copy of `id` was rejected by a full lounge or skipped for its TTL. */
  ghost predicate Undisturbed(s: State, id: Id) {
    id !in s.log.lost && TokensOf(s.log.skipped, id) == {}
  }

  /** At quiescence, what a node has, all its neighbours have. */
  lemma NeighboursHaveIt(t: Net, s: State, id: Id, p: Port)
    requires t.Valid() && Inv(t, s) && Quiescent(s) && Undisturbed(s, id)
    requires IsRoutable(s.origins, id) && p in t.Ports() && Seen(s.table, p.Owner(), id)
    ensures Seen(s.table, p.Far(), id)
  {
    QuiescentLoops(t, s);
    var k := Key(p.Owner(), id);
    var tok := Token(id, p, if k in s.table then Forwarding else Broadcasting);
    if tok in s.log.done {
      assert tok !in TokensOf(s.log.skipped, id);
      assert Key(p.Far(), id) in s.table || InFlight(s.wire, p, id);
    } else {
      assert k in s.table && s.table[k] == Some(p);
    }
  }

  lemma {:induction false} PathHasIt(t: Net, s: State, id: Id, v: Node, path: seq<Port>, w: Node)
    requires t.Valid() && Inv(t, s) && Quiescent(s) && Undisturbed(s, id)
    requires IsRoutable(s.origins, id) && Seen(s.table, v, id) && t.IsPath(v, path, w)
    ensures Seen(s.table, w, id)
    decreases |path|
  {
    if path != [] {
      NeighboursHaveIt(t, s, id, path[0]);
      hide Inv, Quiescent, Undisturbed, Seen;
      PathHasIt(t, s, id, path[0].Far(), path[1..], w);
    }
  }

  /** Coverage: in every run, once the network is quiescent, an undisturbed message with a private
      origin has been recorded by exactly the nodes connected to its origin - the origin itself
      included if it captured the message, and possibly not if it broadcast it. */
  lemma FloodCovers(t: Net, s: State, id: Id, v: Node)
    requires t.Valid() && Reachable(t, s) && Quiescent(s)
    requires IsRoutable(s.origins, id) && Undisturbed(s, id)
    ensures v != id.origin ==> (Key(v, id) in s.table <==> t.Connected(id.origin, v))
    ensures s.origins[id].kind == Multicast ==> Key(id.origin, id) in s.table
  {
    ReachableHasInv(t, s);
    var actions :| IsRun(t, EMPTY, actions, s);
    EmptyHasInv(t);
    RunKeepsRooted(t, EMPTY, actions, s);
    if t.Connected(id.origin, v) {
      var path :| t.IsPath(id.origin, path, v);
      PathHasIt(t, s, id, id.origin, path, v);
    }
  }
}
