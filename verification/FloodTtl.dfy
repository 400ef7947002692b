/** The TTL over whole runs of the flood protocol: when it is harmless, and what it bounds. */
module FloodTtl {
  import opened Sequences
  import opened Topology
  import opened Ttl
  import opened FloodNetwork
  import opened FloodInvariants
  import opened FloodTheorems

  /** Every copy of an id still carries 255 less the loop iterations performed for that id so far. */
  ghost predicate Budget(cells: seq<Cell>, wire: seq<Packet>, done: set<Token>) {
    && (forall i | 0 <= i < |cells| :: cells[i].ttl + |TokensOf(done, cells[i].id)| >= MAX_DISCOVERY_MESSAGE_TTL)
    && (forall i | 0 <= i < |wire| :: wire[i].ttl + |TokensOf(done, wire[i].id)| >= MAX_DISCOVERY_MESSAGE_TTL)
  }

  lemma DoneGrows(done: set<Token>, tok: Token, id: Id)
    requires tok !in done
    ensures |TokensOf(done + {tok}, id)| == |TokensOf(done, id)| + if tok.id == id then 1 else 0
  {
    assert TokensOf(done + {tok}, id) == TokensOf(done, id) + if tok.id == id then {tok} else {};
  }

  lemma SpendKeepsBudget(s: State, m: Message, tok: Token)
    requires Budget(s.cells, s.wire, s.log.done) && Handle(s.origins, s.cells, m) && tok.id == m.id && tok !in s.log.done
    ensures var s' := Spend(s, m, tok); Budget(s'.cells, s'.wire, s'.log.done)
  {
    forall id ensures |TokensOf(s.log.done + {tok}, id)| == |TokensOf(s.log.done, id)| + if tok.id == id then 1 else 0 {
      DoneGrows(s.log.done, tok, id);
    }
  }

  lemma WithCell(cells: seq<Cell>, wire: seq<Packet>, done: set<Token>, c: Cell)
    requires Budget(cells, wire, done) && c.ttl + |TokensOf(done, c.id)| >= MAX_DISCOVERY_MESSAGE_TTL
    ensures Budget(cells + [c], wire, done)
  {}

  lemma ReceiveKeepsBudget(s: State, i: nat)
    requires Budget(s.cells, s.wire, s.log.done) && i < |s.wire|
    ensures var s' := ApplyReceive(s, i); Budget(s'.cells, s'.wire, s'.log.done)
  {
    var k := s.wire[i];
    WithCell(s.cells, RemoveAt(s.wire, i), s.log.done, Cell(k.id, k.ttl, k.hops));
  }

  lemma TransmitKeepsBudget(t: Net, s: State, i: nat)
    requires Budget(s.cells, s.wire, s.log.done) && i < |s.sendq| && SendqShape(t, s.origins, s.cells, s.sendq)
    ensures var s' := ApplyTransmit(s, i); Budget(s'.cells, s'.wire, s'.log.done)
  {}

  lemma OriginateKeepsBudget(t: Net, s: State, v: Node, r: bool)
    requires Budget(s.cells, s.wire, s.log.done)
    ensures var s' := ApplyCapture(s, v, r); Budget(s'.cells, s'.wire, s'.log.done)
    ensures var s' := ApplyStartBroadcast(t, s, v, r); Budget(s'.cells, s'.wire, s'.log.done)
  {
    WithCell(s.cells, s.wire, s.log.done, Cell(Fresh(s, v, r).id, MAX_DISCOVERY_MESSAGE_TTL, 0));
  }

  lemma LoopKeepsBudget(t: Net, s: State, p: Port)
    requires Budget(s.cells, s.wire, s.log.done) && Shape(t, s) && Once(s)
    ensures p in s.fwdTodo ==> var s' := ApplyForwardTo(s, p); Budget(s'.cells, s'.wire, s'.log.done)
    ensures p in s.bcastTodo ==> var s' := ApplyBroadcastTo(s, p); Budget(s'.cells, s'.wire, s'.log.done)
  {
    if p in s.fwdTodo {
      SpendKeepsBudget(s, s.fwdTodo[p], Token(s.fwdTodo[p].id, p, Forwarding));
    }
    if p in s.bcastTodo {
      SpendKeepsBudget(s, s.bcastTodo[p], Token(s.bcastTodo[p].id, p, Broadcasting));
    }
    hide Budget;
  }

  lemma StepKeepsBudget(t: Net, s: State, a: Action)
    requires Inv(t, s) && Enabled(t, s, a) && Budget(s.cells, s.wire, s.log.done)
    ensures var s' := Apply(t, s, a); Budget(s'.cells, s'.wire, s'.log.done)
  {
    hide Once, SendqShape, Budget, Apply;
    hide ApplyCapture, ApplyStartBroadcast, ApplyBroadcastTo, ApplyStartForward, ApplyForwardTo, ApplyTransmit, ApplyReceive;
    assert Shape(t, s) && Once(s) && SendqShape(t, s.origins, s.cells, s.sendq);
    hide Shape;
    StepFrame(t, s, a);
    StepLeaves(t, s, a);
    match a
    case Capture(v, r) => OriginateKeepsBudget(t, s, v, r);
    case StartBroadcast(v, r) => OriginateKeepsBudget(t, s, v, r);
    case BroadcastTo(p) => LoopKeepsBudget(t, s, p);
    case ForwardTo(p) => LoopKeepsBudget(t, s, p);
    case Transmit(i) => TransmitKeepsBudget(t, s, i);
    case Receive(i) => ReceiveKeepsBudget(s, i);
    case _ =>
  }

  /** `id` was never skipped for its TTL, and its TTL never wrapped. */
  ghost predicate Unspent(skipped: set<Token>, wrapped: set<Id>, id: Id) {
    TokensOf(skipped, id) == {} && id !in wrapped
  }

  /** In a small network an iteration about to be performed finds a TTL of at least 2. */
  lemma TtlIsLeft(t: Net, s: State, m: Message, tok: Token)
    requires Shape(t, s) && Once(s) && Budget(s.cells, s.wire, s.log.done) && Handle(s.origins, s.cells, m)
    requires tok.id == m.id && tok !in s.log.done && tok in PossibleTokens(t, m.id)
    requires TrafficBound(t, m.id.origin) < MAX_DISCOVERY_MESSAGE_TTL
    ensures Load(s, m).ttl >= 2
  {
    DoneIsPossible(t, s, m.id);
    SubsetCardinality(TokensOf(s.log.done, m.id) + {tok}, PossibleTokens(t, m.id));
    PossibleTokensBound(t, m.id);
  }

  lemma SpendKeepsUnspent(s: State, m: Message, tok: Token, id: Id)
    requires Unspent(s.log.skipped, s.log.wrapped, id) && (m.id == id ==> Load(s, m).ttl >= 2)
    ensures var s' := Spend(s, m, tok); Unspent(s'.log.skipped, s'.log.wrapped, id)
    ensures m.id == id ==> Load(Spend(s, m, tok), m).ttl > 0
  {}

  lemma LoopKeepsUnspent(t: Net, s: State, p: Port, id: Id)
    requires Shape(t, s) && Once(s) && Budget(s.cells, s.wire, s.log.done) && Unspent(s.log.skipped, s.log.wrapped, id)
    requires TrafficBound(t, id.origin) < MAX_DISCOVERY_MESSAGE_TTL
    ensures p in s.fwdTodo ==> var s' := ApplyForwardTo(s, p); Unspent(s'.log.skipped, s'.log.wrapped, id)
    ensures p in s.bcastTodo ==> var s' := ApplyBroadcastTo(s, p); Unspent(s'.log.skipped, s'.log.wrapped, id)
  {
    if p in s.fwdTodo {
      var m := s.fwdTodo[p];
      var tok := Token(m.id, p, Forwarding);
      if m.id == id {
        TtlIsLeft(t, s, m, tok);
      }
      SpendKeepsUnspent(s, m, tok, id);
    }
    if p in s.bcastTodo {
      var m := s.bcastTodo[p];
      var tok := Token(m.id, p, Broadcasting);
      if m.id == id {
        TtlIsLeft(t, s, m, tok);
      }
      SpendKeepsUnspent(s, m, tok, id);
    }
    hide Shape, Once, Budget, PossibleTokens, TrafficBound;
  }

  lemma StepKeepsUnspent(t: Net, s: State, a: Action, id: Id)
    requires Inv(t, s) && Enabled(t, s, a) && Budget(s.cells, s.wire, s.log.done) && Unspent(s.log.skipped, s.log.wrapped, id)
    requires TrafficBound(t, id.origin) < MAX_DISCOVERY_MESSAGE_TTL
    ensures var s' := Apply(t, s, a); Unspent(s'.log.skipped, s'.log.wrapped, id)
  {
    assert Shape(t, s) && Once(s);
    StepFrame(t, s, a);
    StepLeaves(t, s, a);
    hide Inv, Shape, Once, Budget, TrafficBound, Unspent, Apply;
    if a.ForwardTo? || a.BroadcastTo? {
      LoopKeepsUnspent(t, s, a.port, id);
    }
  }

  lemma {:induction false} RunKeepsUnspent(t: Net, s: State, actions: seq<Action>, s': State, id: Id)
    requires t.Valid() && Inv(t, s) && IsRun(t, s, actions, s')
    requires Budget(s.cells, s.wire, s.log.done) && Unspent(s.log.skipped, s.log.wrapped, id)
    requires TrafficBound(t, id.origin) < MAX_DISCOVERY_MESSAGE_TTL
    ensures Unspent(s'.log.skipped, s'.log.wrapped, id)
    decreases |actions|
  {
    if actions != [] {
      StepKeepsInv(t, s, actions[0]);
      StepKeepsBudget(t, s, actions[0]);
      StepKeepsUnspent(t, s, actions[0], id);
      hide Inv, Budget, Unspent, TrafficBound;
      RunKeepsUnspent(t, Apply(t, s, actions[0]), actions[1..], s', id);
    }
  }

  /** Coverage without a proviso on the run: when the sum of all degrees plus the degree of the origin
      is below 255, no interleaving can exhaust the TTL, and a message with a private origin that no
      full lounge rejected reaches exactly the nodes connected to its origin. */
  lemma SmallNetworkIsCovered(t: Net, s: State, id: Id, v: Node)
    requires t.Valid() && Reachable(t, s) && Quiescent(s)
    requires IsRoutable(s.origins, id) && id !in s.log.lost
    requires |t.Ports()| + |t.PortsOf(id.origin)| < 255
    ensures v != id.origin ==> (Key(v, id) in s.table <==> t.Connected(id.origin, v))
    ensures s.origins[id].kind == Multicast ==> Key(id.origin, id) in s.table
    ensures Transmissions(s.log.sent, id) == |DueTokens(t, s, id)|
  {
    var actions :| IsRun(t, EMPTY, actions, s);
    EmptyHasInv(t);
    RunKeepsUnspent(t, EMPTY, actions, s, id);
    FloodCovers(t, s, id, v);
    TrafficIsExact(t, s, id);
  }
}
