/** Each node's forwarding pass inside the network: exactly when the TTL makes a node pass over one
    of its connections. */
module FloodPasses {
  import opened Wrappers
  import opened Sequences
  import opened Topology
  import opened Ttl
  import opened FloodNetwork
  import opened FloodInvariants
  import opened FloodTheorems

  type Arrivals = map<Key, Arrival>

  /** The iterations of the forwarding loop of node `k.node` for `k.id` among `tokens`. */
  ghost function PassTokens(tokens: set<Token>, k: Key): set<Token> {
    LoopTokens(tokens, k.node, k.id, Forwarding)
  }

  /** Every recorded key has an object of its own, ... */
  ghost predicate ArrivalCells(arrivals: Arrivals, table: Table, n: nat) {
    && arrivals.Keys == table.Keys
    && (forall k <- arrivals :: arrivals[k].cell < n)
    && (forall k, l | k in arrivals && l in arrivals && k != l :: arrivals[k].cell != arrivals[l].cell)
  }

  ghost predicate Holds(arrivals: Arrivals, k: Key, cell: nat) {
    k in arrivals && arrivals[k].cell == cell
  }

  /** ... which its lounge entry and its forwarding loop refer to, and no broadcast does. */
  ghost predicate LoungeCells(arrivals: Arrivals, lounge: seq<Waiting>) {
    forall i | 0 <= i < |lounge| :: Holds(arrivals, Waits(lounge[i]), lounge[i].msg.cell)
  }

  ghost predicate ForwardCells(arrivals: Arrivals, todo: Todo) {
    forall p <- todo :: Holds(arrivals, Key(p.Owner(), todo[p].id), todo[p].cell)
  }

  ghost predicate BroadcastCells(arrivals: Arrivals, todo: Todo, n: nat) {
    && (forall p <- todo :: todo[p].cell < n)
    && (forall p, k | p in todo && k in arrivals :: arrivals[k].cell != todo[p].cell)
  }

  ghost predicate OwnCells(s: State) {
    && ArrivalCells(s.log.arrivals, s.table, |s.cells|)
    && LoungeCells(s.log.arrivals, s.lounge)
    && ForwardCells(s.log.arrivals, s.fwdTodo)
    && BroadcastCells(s.log.arrivals, s.bcastTodo, |s.cells|)
  }

  lemma HoldsStays(arrivals: Arrivals, k: Key, a: Arrival, lounge: seq<Waiting>, todo: Todo)
    requires k !in arrivals
    ensures LoungeCells(arrivals, lounge) ==> LoungeCells(arrivals[k := a], lounge)
    ensures ForwardCells(arrivals, todo) ==> ForwardCells(arrivals[k := a], todo)
  {}

  lemma ArrivalGetsCell(arrivals: Arrivals, table: Table, n: nat, todo: Todo, k: Key, a: Arrival, source: Option<Port>)
    requires ArrivalCells(arrivals, table, n) && BroadcastCells(arrivals, todo, n) && k !in table && a.cell == n
    ensures k !in arrivals
    ensures ArrivalCells(arrivals[k := a], table[k := source], n + 1) && BroadcastCells(arrivals[k := a], todo, n + 1)
  {}

  lemma LoungeCellsWith(arrivals: Arrivals, lounge: seq<Waiting>, w: Waiting)
    requires LoungeCells(arrivals, lounge) && Holds(arrivals, Waits(w), w.msg.cell)
    ensures LoungeCells(arrivals, lounge + [w])
  {
    hide Holds;
  }

  lemma AcceptKeepsOwnCells(s: State, v: Node, m: Message, ttl: uint32, hops: nat)
    requires OwnCells(s) && Key(v, m.id) !in s.table && m.cell == |s.cells|
    ensures OwnCells(Accept(s, v, m, ttl, hops))
  {
    hide ArrivalCells, LoungeCells, ForwardCells, BroadcastCells;
    var k, a, arrivals := Key(v, m.id), Arrival(m.cell, ttl, hops), s.log.arrivals;
    ArrivalGetsCell(arrivals, s.table, |s.cells|, s.bcastTodo, k, a, m.source);
    HoldsStays(arrivals, k, a, s.lounge, s.fwdTodo);
    LoungeCellsWith(arrivals[k := a], s.lounge, Waiting(v, m));
  }

  lemma ReceiveKeepsOwnCells(s: State, i: nat)
    requires OwnCells(s) && i < |s.wire|
    ensures OwnCells(ApplyReceive(s, i))
  {
    var k := s.wire[i];
    if Key(k.port.Far(), k.id) !in s.table {
      AcceptKeepsOwnCells(s.(wire := RemoveAt(s.wire, i)), k.port.Far(),
        Message(k.id, |s.cells|, Some(k.port.Peer()), k.routable), k.ttl, k.hops);
    }
    hide Holds, ArrivalCells, LoungeCells, ForwardCells, BroadcastCells;
  }

  lemma CaptureKeepsOwnCells(t: Net, s: State, v: Node, r: bool)
    requires OwnCells(s) && Shape(t, s)
    ensures OwnCells(ApplyCapture(s, v, r))
  {
    FreshId(t, s, v);
    AcceptKeepsOwnCells(Issue(s, v, Origin(Multicast, r)), v, Fresh(s, v, r), MAX_DISCOVERY_MESSAGE_TTL, 0);
    hide Holds, ArrivalCells, LoungeCells, ForwardCells, BroadcastCells, Shape;
  }

  lemma StartBroadcastKeepsOwnCells(t: Net, s: State, v: Node, r: bool)
    requires OwnCells(s)
    ensures OwnCells(ApplyStartBroadcast(t, s, v, r))
  {}

  lemma LoungeCellsWithout(arrivals: Arrivals, lounge: seq<Waiting>, i: nat)
    requires LoungeCells(arrivals, lounge) && i < |lounge|
    ensures LoungeCells(arrivals, RemoveAt(lounge, i)) && Holds(arrivals, Waits(lounge[i]), lounge[i].msg.cell)
  {
    hide Holds;
  }

  lemma ForwardCellsWith(t: Net, arrivals: Arrivals, todo: Todo, v: Node, m: Message)
    requires ForwardCells(arrivals, todo) && Holds(arrivals, Key(v, m.id), m.cell)
    ensures ForwardCells(arrivals, todo + Targets(t, v, m))
  {
    hide Holds;
  }

  lemma StartForwardKeepsOwnCells(t: Net, s: State, i: nat)
    requires OwnCells(s) && i < |s.lounge|
    ensures OwnCells(ApplyStartForward(t, s, i))
  {
    hide ArrivalCells, LoungeCells, ForwardCells, BroadcastCells, Targets, Holds;
    var w := s.lounge[i];
    LoungeCellsWithout(s.log.arrivals, s.lounge, i);
    ForwardCellsWith(t, s.log.arrivals, s.fwdTodo, w.node, w.msg);
  }

  lemma LoopKeepsOwnCells(s: State, p: Port)
    requires OwnCells(s)
    ensures p in s.fwdTodo ==> OwnCells(ApplyForwardTo(s, p))
    ensures p in s.bcastTodo ==> OwnCells(ApplyBroadcastTo(s, p))
  {}

  lemma StepKeepsOwnCells(t: Net, s: State, a: Action)
    requires Shape(t, s) && OwnCells(s) && Enabled(t, s, a)
    ensures OwnCells(Apply(t, s, a))
  {
    match a
    case Capture(v, r) => CaptureKeepsOwnCells(t, s, v, r); hide OwnCells;
    case StartBroadcast(v, r) => StartBroadcastKeepsOwnCells(t, s, v, r); hide OwnCells;
    case BroadcastTo(p) => LoopKeepsOwnCells(s, p); hide OwnCells;
    case EndBroadcast(v) =>
    case StartForward(i) => StartForwardKeepsOwnCells(t, s, i); hide OwnCells;
    case ForwardTo(p) => LoopKeepsOwnCells(s, p); hide OwnCells;
    case EndForward(v) =>
    case Transmit(i) =>
    case Receive(i) => ReceiveKeepsOwnCells(s, i); hide OwnCells;
  }

  /** The object of `k` has been decremented once per iteration of its pass, and the iterations
      skipped are as many as the arithmetic of a pass says. */
  ghost predicate PassCount(ttl: uint32, c: Cell, done: set<Token>, skipped: set<Token>, k: Key) {
    var n := |PassTokens(done, k)|;
    c.ttl == DecrementBy(ttl, n) && |PassTokens(skipped, k)| + Sends(ttl, n) == n
  }

  ghost predicate Passes(arrivals: Arrivals, cells: seq<Cell>, done: set<Token>, skipped: set<Token>) {
    && (forall k | k in arrivals && arrivals[k].cell < |cells| ::
          PassCount(arrivals[k].ttl, cells[arrivals[k].cell], done, skipped, k))
    && (forall tok <- skipped :: tok.phase == Forwarding && tok in done)
  }

  lemma LoopGrows(done: set<Token>, tok: Token, v: Node, id: Id, phase: Phase)
    requires tok !in done
    ensures |LoopTokens(done + {tok}, v, id, phase)| == |LoopTokens(done, v, id, phase)|
              + if tok.id == id && tok.phase == phase && tok.port.Owner() == v then 1 else 0
  {
    if tok.id == id && tok.phase == phase && tok.port.Owner() == v {
      assert LoopTokens(done + {tok}, v, id, phase) == LoopTokens(done, v, id, phase) + {tok};
    } else {
      assert LoopTokens(done + {tok}, v, id, phase) == LoopTokens(done, v, id, phase);
    }
  }

  lemma PassGrows(done: set<Token>, tok: Token, k: Key)
    requires tok !in done
    ensures |PassTokens(done + {tok}, k)| == |PassTokens(done, k)|
              + if tok.phase == Forwarding && k == Key(tok.port.Owner(), tok.id) then 1 else 0
  {
    LoopGrows(done, tok, k.node, k.id, Forwarding);
  }

  lemma AcceptKeepsPasses(s: State, v: Node, m: Message, ttl: uint32, hops: nat)
    requires Once(s) && OwnCells(s) && Key(v, m.id) !in s.table && m.cell == |s.cells|
    requires Passes(s.log.arrivals, s.cells, s.log.done, s.log.skipped)
    ensures var s' := Accept(s, v, m, ttl, hops); Passes(s'.log.arrivals, s'.cells, s'.log.done, s'.log.skipped)
  {
    var k := Key(v, m.id);
    assert PassTokens(s.log.done, k) == {};
    assert PassTokens(s.log.skipped, k) == {};
  }

  lemma WriteKeepsPasses(s: State, v: Node, m: Message, ttl: uint32, hops: nat)
    requires Once(s) && OwnCells(s) && m.cell == |s.cells|
    requires Passes(s.log.arrivals, s.cells, s.log.done, s.log.skipped)
    ensures var s' := WriteLounge(s, v, m, ttl, hops); Passes(s'.log.arrivals, s'.cells, s'.log.done, s'.log.skipped)
  {
    if Key(v, m.id) !in s.table {
      AcceptKeepsPasses(s, v, m, ttl, hops);
    }
    hide Passes;
  }

  /** One more iteration, of the pass of `k` or of another loop. */
  lemma CountOneMore(ttl: uint32, c: Cell, done: set<Token>, skipped: set<Token>, k: Key, tok: Token)
    requires PassCount(ttl, c, done, skipped, k) && tok !in done && tok !in skipped
    ensures tok.phase == Forwarding && k == Key(tok.port.Owner(), tok.id) ==>
              var ttl' := Decrement(c.ttl);
              PassCount(ttl, c.(ttl := ttl'), done + {tok}, if ttl' == 0 then skipped + {tok} else skipped, k)
    ensures tok.phase != Forwarding || k != Key(tok.port.Owner(), tok.id) ==>
              PassCount(ttl, c, done + {tok}, skipped, k) && PassCount(ttl, c, done + {tok}, skipped + {tok}, k)
  {
    PassGrows(done, tok, k);
    PassGrows(skipped, tok, k);
  }

  lemma PassesOneMore(arrivals: Arrivals, table: Table, cells: seq<Cell>, done: set<Token>, skipped: set<Token>, cell: nat, tok: Token)
    requires Passes(arrivals, cells, done, skipped) && ArrivalCells(arrivals, table, |cells|)
    requires Holds(arrivals, Key(tok.port.Owner(), tok.id), cell) && tok.phase == Forwarding && tok !in done
    ensures var ttl := Decrement(cells[cell].ttl);
      Passes(arrivals, cells[cell := cells[cell].(ttl := ttl)], done + {tok}, if ttl == 0 then skipped + {tok} else skipped)
  {
    forall k <- arrivals {
      CountOneMore(arrivals[k].ttl, cells[arrivals[k].cell], done, skipped, k, tok);
    }
    hide PassCount;
  }

  lemma ForwardKeepsPasses(s: State, p: Port)
    requires Once(s) && OwnCells(s) && p in s.fwdTodo
    requires Passes(s.log.arrivals, s.cells, s.log.done, s.log.skipped)
    ensures var s' := ApplyForwardTo(s, p); Passes(s'.log.arrivals, s'.cells, s'.log.done, s'.log.skipped)
  {
    var m := s.fwdTodo[p];
    PassesOneMore(s.log.arrivals, s.table, s.cells, s.log.done, s.log.skipped, m.cell, Token(m.id, p, Forwarding));
    hide Once, OwnCells, Passes;
  }

  lemma BroadcastKeepsPasses(s: State, p: Port)
    requires Once(s) && OwnCells(s) && p in s.bcastTodo
    requires Passes(s.log.arrivals, s.cells, s.log.done, s.log.skipped)
    ensures var s' := ApplyBroadcastTo(s, p); Passes(s'.log.arrivals, s'.cells, s'.log.done, s'.log.skipped)
  {
    var m, s' := s.bcastTodo[p], ApplyBroadcastTo(s, p);
    var tok := Token(m.id, p, Broadcasting);
    forall l | l in s'.log.arrivals && s'.log.arrivals[l].cell < |s'.cells|
      ensures PassCount(s'.log.arrivals[l].ttl, s'.cells[s'.log.arrivals[l].cell], s'.log.done, s'.log.skipped, l)
    {
      CountOneMore(s.log.arrivals[l].ttl, s.cells[s.log.arrivals[l].cell], s.log.done, s.log.skipped, l, tok);
    }
  }

  lemma CaptureKeepsPasses(t: Net, s: State, v: Node, r: bool)
    requires Shape(t, s) && Once(s) && OwnCells(s)
    requires Passes(s.log.arrivals, s.cells, s.log.done, s.log.skipped)
    ensures var s' := ApplyCapture(s, v, r); Passes(s'.log.arrivals, s'.cells, s'.log.done, s'.log.skipped)
  {
    IssueKeepsOnce(t, s, v, Origin(Multicast, r));
    hide Passes, Once, Shape;
    WriteKeepsPasses(Issue(s, v, Origin(Multicast, r)), v, Fresh(s, v, r), MAX_DISCOVERY_MESSAGE_TTL, 0);
  }

  lemma ReceiveKeepsPasses(s: State, i: nat)
    requires Once(s) && OwnCells(s) && i < |s.wire|
    requires Passes(s.log.arrivals, s.cells, s.log.done, s.log.skipped)
    ensures var s' := ApplyReceive(s, i); Passes(s'.log.arrivals, s'.cells, s'.log.done, s'.log.skipped)
  {
    var k := s.wire[i];
    WriteKeepsPasses(s.(wire := RemoveAt(s.wire, i)), k.port.Far(),
      Message(k.id, |s.cells|, Some(k.port.Peer()), k.routable), k.ttl, k.hops);
    hide Passes;
  }

  lemma StepKeepsPasses(t: Net, s: State, a: Action)
    requires Inv(t, s) && OwnCells(s) && Enabled(t, s, a)
    requires Passes(s.log.arrivals, s.cells, s.log.done, s.log.skipped)
    ensures var s' := Apply(t, s, a); Passes(s'.log.arrivals, s'.cells, s'.log.done, s'.log.skipped)
  {
    hide Once, Shape, OwnCells, Passes, Apply;
    hide ApplyCapture, ApplyStartBroadcast, ApplyBroadcastTo, ApplyStartForward, ApplyForwardTo, ApplyTransmit, ApplyReceive;
    assert Once(s) && Shape(t, s);
    StepFrame(t, s, a);
    match a
    case Capture(v, r) => CaptureKeepsPasses(t, s, v, r);
    case StartBroadcast(v, r) =>
      StartBroadcastLeaves(t, s, v, r);
      NewCellKeepsPasses(s, Cell(Fresh(s, v, r).id, MAX_DISCOVERY_MESSAGE_TTL, 0));
    case BroadcastTo(p) => BroadcastKeepsPasses(s, p);
    case ForwardTo(p) => ForwardKeepsPasses(s, p);
    case Receive(i) => ReceiveKeepsPasses(s, i);
    case StartForward(i) => StartForwardLeaves(t, s, i);
    case Transmit(i) => TransmitLeaves(s, i);
    case _ =>
  }

  lemma NewCellKeepsPasses(s: State, c: Cell)
    requires OwnCells(s) && Passes(s.log.arrivals, s.cells, s.log.done, s.log.skipped)
    ensures Passes(s.log.arrivals, s.cells + [c], s.log.done, s.log.skipped)
  {}

  lemma {:induction false} RunKeepsPasses(t: Net, s: State, actions: seq<Action>, s': State)
    requires t.Valid() && Inv(t, s) && OwnCells(s) && IsRun(t, s, actions, s')
    requires Passes(s.log.arrivals, s.cells, s.log.done, s.log.skipped)
    ensures OwnCells(s') && Passes(s'.log.arrivals, s'.cells, s'.log.done, s'.log.skipped)
    decreases |actions|
  {
    if actions != [] {
      StepKeepsInv(t, s, actions[0]);
      StepKeepsOwnCells(t, s, actions[0]);
      StepKeepsPasses(t, s, actions[0]);
      hide Inv, OwnCells, Passes;
      RunKeepsPasses(t, Apply(t, s, actions[0]), actions[1..], s');
    }
  }

  /** The connections on which node `k.node` is to forward `k.id`. */
  ghost function DuePorts(t: Net, s: State, k: Key): set<Port>
    requires k in s.table
  {
    set p | p in t.PortsOf(k.node) && s.table[k] != Some(p)
  }

  /** Exact TTL condition at each node: once the network is quiescent, a node that recorded a message
      with a private origin has passed over one of its connections if the TTL the message arrived
      with is at least 1 and at most the number of connections to serve, and over none otherwise. */
  lemma NodeSkipsExactly(t: Net, s: State, k: Key)
    requires t.Valid() && Reachable(t, s) && Quiescent(s)
    requires k in s.table && IsRoutable(s.origins, k.id) && |DuePorts(t, s, k)| < 0x1_0000_0000
    ensures k in s.log.arrivals
    ensures |PassTokens(s.log.skipped, k)| == if 1 <= s.log.arrivals[k].ttl <= |DuePorts(t, s, k)| then 1 else 0
  {
    hide Shape, Once, Relays, Spreads, OwnCells, Passes, TokensOf, DueTokens, PassTokens, Quiescent, DecrementBy, Sends, DuePorts;
    ReachablePasses(t, s);
    QuiescentLoops(t, s);
    DueIsDone(t, s, k.id);
    PassIsDue(t, s, k);
    RecordedPass(s, k);
    PassOutcome(s.log.arrivals[k].ttl, |DuePorts(t, s, k)|);
  }

  lemma RecordedPass(s: State, k: Key)
    requires OwnCells(s) && Passes(s.log.arrivals, s.cells, s.log.done, s.log.skipped) && k in s.table
    ensures k in s.log.arrivals
    ensures var n := |PassTokens(s.log.done, k)|; |PassTokens(s.log.skipped, k)| + Sends(s.log.arrivals[k].ttl, n) == n
  {
    hide PassTokens, DecrementBy, Sends;
    assert PassCount(s.log.arrivals[k].ttl, s.cells[s.log.arrivals[k].cell], s.log.done, s.log.skipped, k);
  }

  lemma ReachablePasses(t: Net, s: State)
    requires t.Valid() && Reachable(t, s)
    ensures Inv(t, s) && OwnCells(s) && Passes(s.log.arrivals, s.cells, s.log.done, s.log.skipped)
    ensures s.log.arrivals.Keys == s.table.Keys
  {
    ReachableHasInv(t, s);
    var actions :| IsRun(t, EMPTY, actions, s);
    EmptyHasInv(t);
    RunKeepsPasses(t, EMPTY, actions, s);
    hide Inv, Passes, IsRun;
  }

  lemma PassIsDue(t: Net, s: State, k: Key)
    requires k in s.table && IsRoutable(s.origins, k.id) && TokensOf(s.log.done, k.id) == DueTokens(t, s, k.id)
    ensures |PassTokens(s.log.done, k)| == |DuePorts(t, s, k)|
  {
    PortTokens(DuePorts(t, s, k), k.id, Forwarding);
    var due := set p | p in DuePorts(t, s, k) :: Token(k.id, p, Forwarding);
    forall tok ensures tok in PassTokens(s.log.done, k) <==> tok in due {
      assert tok in PassTokens(s.log.done, k) <==> tok in TokensOf(s.log.done, k.id) && tok.phase == Forwarding && tok.port.Owner() == k.node;
    }
    assert PassTokens(s.log.done, k) == due;
  }

  /** Nothing was skipped for `id` exactly when the message reached every node with a TTL above the
      number of connections to serve (or with the TTL already 0, which wraps). */
  lemma UnskippedExactly(t: Net, s: State, id: Id)
    requires t.Valid() && Reachable(t, s) && Quiescent(s) && IsRoutable(s.origins, id)
    requires forall v | Key(v, id) in s.table :: |DuePorts(t, s, Key(v, id))| < 0x1_0000_0000
    ensures s.log.arrivals.Keys == s.table.Keys
    ensures TokensOf(s.log.skipped, id) == {} <==>
            forall v | Key(v, id) in s.table ::
              s.log.arrivals[Key(v, id)].ttl > |DuePorts(t, s, Key(v, id))| || s.log.arrivals[Key(v, id)].ttl == 0
  {
    hide Shape, Relays, Spreads, Once, OwnCells, Passes, TokensOf, PassTokens, Quiescent, DuePorts, Reachable;
    ReachablePasses(t, s);
    forall v | Key(v, id) in s.table
      ensures PassTokens(s.log.skipped, Key(v, id)) == {} <==>
        s.log.arrivals[Key(v, id)].ttl > |DuePorts(t, s, Key(v, id))| || s.log.arrivals[Key(v, id)].ttl == 0
    {
      NodeSkipsExactly(t, s, Key(v, id));
    }
    SkippedAtANode(t, s, id);
  }

  lemma SkippedAtANode(t: Net, s: State, id: Id)
    requires Once(s) && Passes(s.log.arrivals, s.cells, s.log.done, s.log.skipped)
    ensures TokensOf(s.log.skipped, id) == {} <==>
            forall v | Key(v, id) in s.table :: PassTokens(s.log.skipped, Key(v, id)) == {}
  {
    if tok :| tok in TokensOf(s.log.skipped, id) {
      var k := Key(tok.port.Owner(), id);
      assert tok in s.log.done && k in s.table;
      assert tok in PassTokens(s.log.skipped, k);
    } else {
      forall v ensures PassTokens(s.log.skipped, Key(v, id)) == {} {
        assert PassTokens(s.log.skipped, Key(v, id)) <= TokensOf(s.log.skipped, id);
      }
    }
  }
}
