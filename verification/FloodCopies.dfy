/** Every copy of a message on its way: which pass it comes from, what TTL it carries, how far it has
    travelled; and what it takes for the TTL of a message to wrap. */
module FloodCopies {
  import opened Wrappers
  import opened Sequences
  import opened Topology
  import opened Ttl
  import opened Configs
  import opened FloodNetwork
  import opened FloodInvariants
  import opened FloodTheorems
  import opened FloodPasses

  type Casts = map<Id, nat>

  /** The iterations of the broadcasting loop for `id`. */
  ghost function CastTokens(tokens: set<Token>, id: Id): set<Token> {
    LoopTokens(tokens, id.origin, id, Broadcasting)
  }

  // ---------- the objects ----------

  ghost predicate HoldsCopy(cells: seq<Cell>, cell: nat, id: Id, hops: nat) {
    cell < |cells| && cells[cell].id == id && cells[cell].hops == hops
  }

  ghost predicate ArrivalCopies(arrivals: Arrivals, cells: seq<Cell>) {
    forall k <- arrivals :: HoldsCopy(cells, arrivals[k].cell, k.id, arrivals[k].hops)
  }

  /** Every broadcast message has an object of its own, which its loop refers to. */
  ghost predicate CastCopies(casts: Casts, cells: seq<Cell>) {
    forall id <- casts :: HoldsCopy(cells, casts[id], id, 0)
  }

  ghost predicate CastApart(arrivals: Arrivals, casts: Casts) {
    forall k, id | k in arrivals && id in casts :: arrivals[k].cell != casts[id]
  }

  ghost predicate CastIds(origins: Origins, casts: Casts) {
    forall id :: id in casts <==> IsBroadcast(origins, id)
  }

  ghost predicate CastLoop(casts: Casts, todo: Todo) {
    forall p <- todo :: todo[p].id in casts && casts[todo[p].id] == todo[p].cell
  }

  /** The object of a broadcast has been decremented once per iteration of its loop. */
  ghost predicate CastCount(casts: Casts, cells: seq<Cell>, done: set<Token>) {
    forall id | id in casts && casts[id] < |cells| ::
      cells[casts[id]].ttl == DecrementBy(MAX_DISCOVERY_MESSAGE_TTL, |CastTokens(done, id)|)
  }

  // ---------- wrapping ----------

  ghost predicate PassWraps(arrivals: Arrivals, done: set<Token>, k: Key) {
    k in arrivals && |PassTokens(done, k)| > arrivals[k].ttl
  }

  /** Some pass for `id` has performed more iterations than the TTL it began with. */
  ghost predicate Wraps(arrivals: Arrivals, done: set<Token>, id: Id) {
    || (exists v :: PassWraps(arrivals, done, Key(v, id)))
    || |CastTokens(done, id)| > MAX_DISCOVERY_MESSAGE_TTL
  }

  ghost predicate WrapCount(arrivals: Arrivals, done: set<Token>, wrapped: set<Id>) {
    forall id :: id in wrapped <==> Wraps(arrivals, done, id)
  }

  // ---------- copies in send channels and on links ----------

  /** Queued by iteration `turn` of a pass of `n` so far that began with `ttl` and has object `cell`. */
  ghost predicate QueuedForward(a: Arrival, cell: nat, turn: nat, n: nat) {
    a.cell == cell && 1 <= turn <= n && DecrementBy(a.ttl, turn) != 0
  }

  ghost predicate Queued(arrivals: Arrivals, casts: Casts, done: set<Token>, x: Slot) {
    match x.phase
    case Forwarding =>
      var k := Key(x.port.Owner(), x.msg.id);
      k in arrivals && QueuedForward(arrivals[k], x.msg.cell, x.turn, |PassTokens(done, k)|)
    case Broadcasting =>
      && x.msg.id in casts && casts[x.msg.id] == x.msg.cell
      && 1 <= x.turn <= |CastTokens(done, x.msg.id)|
  }

  ghost predicate AllQueued(arrivals: Arrivals, casts: Casts, done: set<Token>, sendq: seq<Slot>) {
    forall i | 0 <= i < |sendq| :: Queued(arrivals, casts, done, sendq[i])
  }

  /** `ttl` is what an object that began with `start` holds after some number of iterations, not fewer
      than `turn` and at most `n`. */
  ghost predicate Serialised(start: uint32, turn: nat, n: nat, ttl: uint32) {
    exists j: nat :: turn <= j <= n && ttl == DecrementBy(start, j)
  }

  ghost predicate SentForward(a: Arrival, q: Packet, n: nat) {
    && 1 <= q.turn && DecrementBy(a.ttl, q.turn) != 0
    && q.hops == a.hops + 1 && Serialised(a.ttl, q.turn, n, q.ttl)
  }

  ghost predicate SentCast(q: Packet, n: nat) {
    1 <= q.turn && q.hops == 1 && Serialised(MAX_DISCOVERY_MESSAGE_TTL, q.turn, n, q.ttl)
  }

  ghost predicate Sent(arrivals: Arrivals, casts: Casts, done: set<Token>, q: Packet) {
    match q.phase
    case Forwarding =>
      var k := Key(q.port.Owner(), q.id);
      k in arrivals && SentForward(arrivals[k], q, |PassTokens(done, k)|)
    case Broadcasting => q.id in casts && SentCast(q, |CastTokens(done, q.id)|)
  }

  ghost predicate AllSent(arrivals: Arrivals, casts: Casts, done: set<Token>, wire: seq<Packet>) {
    forall i | 0 <= i < |wire| :: Sent(arrivals, casts, done, wire[i])
  }

  ghost predicate Copies(s: State) {
    && ArrivalCopies(s.log.arrivals, s.cells) && CastCopies(s.log.casts, s.cells)
    && CastApart(s.log.arrivals, s.log.casts) && CastIds(s.origins, s.log.casts) && CastLoop(s.log.casts, s.bcastTodo)
    && CastCount(s.log.casts, s.cells, s.log.done)
    && WrapCount(s.log.arrivals, s.log.done, s.log.wrapped)
    && AllQueued(s.log.arrivals, s.log.casts, s.log.done, s.sendq)
    && AllSent(s.log.arrivals, s.log.casts, s.log.done, s.wire)
  }

  // ---------- recording a message ----------

  lemma NoPassYet(s: State, k: Key)
    requires Once(s) && k !in s.table
    ensures PassTokens(s.log.done, k) == {}
  {}

  /** One more arrival, without iterations so far. */
  ghost predicate Records(arrivals: Arrivals, arrivals': Arrivals, done: set<Token>, k: Key) {
    k !in arrivals && k in arrivals' && arrivals' == arrivals[k := arrivals'[k]] && PassTokens(done, k) == {}
  }

  lemma RecordKeepsWraps(arrivals: Arrivals, arrivals': Arrivals, done: set<Token>, wrapped: set<Id>, k: Key)
    requires Records(arrivals, arrivals', done, k) && WrapCount(arrivals, done, wrapped)
    ensures WrapCount(arrivals', done, wrapped)
  {
    forall l ensures PassWraps(arrivals', done, l) <==> PassWraps(arrivals, done, l) {}
    hide PassWraps;
  }

  lemma RecordKeepsQueued(arrivals: Arrivals, arrivals': Arrivals, casts: Casts, done: set<Token>, sendq: seq<Slot>, k: Key)
    requires Records(arrivals, arrivals', done, k) && AllQueued(arrivals, casts, done, sendq)
    ensures AllQueued(arrivals', casts, done, sendq)
  {
    hide QueuedForward, PassTokens, CastTokens;
  }

  lemma RecordKeepsSent(arrivals: Arrivals, arrivals': Arrivals, casts: Casts, done: set<Token>, wire: seq<Packet>, k: Key)
    requires Records(arrivals, arrivals', done, k) && AllSent(arrivals, casts, done, wire)
    ensures AllSent(arrivals', casts, done, wire)
  {
    hide SentForward, SentCast, PassTokens, CastTokens;
  }

  lemma RecordKeepsCopies(arrivals: Arrivals, casts: Casts, cells: seq<Cell>, done: set<Token>, k: Key, a: Arrival, c: Cell)
    requires ArrivalCopies(arrivals, cells) && CastCopies(casts, cells) && CastApart(arrivals, casts) && CastCount(casts, cells, done)
    requires k !in arrivals && a.cell == |cells| && c == Cell(k.id, a.ttl, a.hops)
    ensures ArrivalCopies(arrivals[k := a], cells + [c]) && CastCopies(casts, cells + [c])
    ensures CastApart(arrivals[k := a], casts) && CastCount(casts, cells + [c], done)
  {
    hide CastTokens, DecrementBy;
  }

  lemma AcceptKeepsCopies(s: State, v: Node, m: Message, ttl: uint32, hops: nat)
    requires Once(s) && OwnCells(s) && Copies(s) && Key(v, m.id) !in s.table && m.cell == |s.cells|
    ensures Copies(Accept(s, v, m, ttl, hops))
  {
    var k, a := Key(v, m.id), Arrival(m.cell, ttl, hops);
    var arrivals' := s.log.arrivals[k := a];
    NoPassYet(s, k);
    assert k !in s.log.arrivals;
    assert Records(s.log.arrivals, arrivals', s.log.done, k);
    RecordKeepsCopies(s.log.arrivals, s.log.casts, s.cells, s.log.done, k, a, Cell(m.id, ttl, hops));
    RecordKeepsWraps(s.log.arrivals, arrivals', s.log.done, s.log.wrapped, k);
    RecordKeepsQueued(s.log.arrivals, arrivals', s.log.casts, s.log.done, s.sendq, k);
    RecordKeepsSent(s.log.arrivals, arrivals', s.log.casts, s.log.done, s.wire, k);
    hide ArrivalCopies, CastCopies, CastApart, CastIds, CastLoop, CastCount, WrapCount, AllQueued, AllSent, Once, OwnCells;
  }

  lemma CaptureKeepsCopies(t: Net, s: State, v: Node, r: bool)
    requires Shape(t, s) && Once(s) && OwnCells(s) && Copies(s)
    ensures Copies(ApplyCapture(s, v, r))
  {
    hide ArrivalCopies, CastCopies, CastApart, CastLoop, CastCount, WrapCount, AllQueued, AllSent, OwnCells;
    var o := Origin(Multicast, r);
    var s1 := Issue(s, v, o);
    FreshId(t, s, v);
    IssueKeepsOnce(t, s, v, o);
    assert Copies(s1);
    assert OwnCells(s1) by { IssueKeepsOwnCells(s, v, o); }
    hide Shape, Once, Copies;
    if LoungeLength(s1.lounge, v) < SWITCH_LOUNGE_SIZE {
      AcceptKeepsCopies(s1, v, Fresh(s, v, r), MAX_DISCOVERY_MESSAGE_TTL, 0);
    } else {
      LossKeepsCopies(s1, Fresh(s, v, r).id);
    }
  }

  lemma IssueKeepsOwnCells(s: State, v: Node, o: Origin)
    requires OwnCells(s)
    ensures OwnCells(Issue(s, v, o))
  {
    hide ArrivalCells, LoungeCells, ForwardCells, BroadcastCells;
  }

  lemma LossKeepsCopies(s: State, id: Id)
    requires Copies(s)
    ensures Copies(s.(log := s.log.(lost := s.log.lost + {id})))
  {
    hide ArrivalCopies, CastCopies, CastApart, CastIds, CastLoop, CastCount, WrapCount, AllQueued, AllSent;
  }

  lemma ReceiveKeepsCopies(s: State, i: nat)
    requires Once(s) && OwnCells(s) && Copies(s) && i < |s.wire|
    ensures Copies(ApplyReceive(s, i))
  {
    var k := s.wire[i];
    var s1 := s.(wire := RemoveAt(s.wire, i));
    var v, m := k.port.Far(), Message(k.id, |s.cells|, Some(k.port.Peer()), k.routable);
    hide ArrivalCopies, CastCopies, CastApart, CastIds, CastLoop, CastCount, WrapCount, AllQueued, Sent;
    hide ArrivalCells, LoungeCells, ForwardCells, BroadcastCells, Lounged, ForwardsOnce, BroadcastsOnce;
    assert Copies(s1) && OwnCells(s1) && Once(s1);
    hide Copies, OwnCells, Once;
    if Key(v, m.id) !in s1.table {
      if LoungeLength(s1.lounge, v) < SWITCH_LOUNGE_SIZE {
        AcceptKeepsCopies(s1, v, m, k.ttl, k.hops);
      } else {
        LossKeepsCopies(s1, m.id);
      }
    }
  }

  // ---------- starting a broadcast ----------

  lemma CastKeepsCopies(origins: Origins, casts: Casts, arrivals: Arrivals, cells: seq<Cell>, done: set<Token>, id: Id)
    requires ArrivalCopies(arrivals, cells) && CastCopies(casts, cells) && CastApart(arrivals, casts) && CastCount(casts, cells, done)
    requires id !in casts && CastTokens(done, id) == {}
    ensures var cells', casts' := cells + [Cell(id, MAX_DISCOVERY_MESSAGE_TTL, 0)], casts[id := |cells|];
      && ArrivalCopies(arrivals, cells') && CastCopies(casts', cells') && CastApart(arrivals, casts')
      && CastCount(casts', cells', done)
  {
    hide CastTokens;
    assert DecrementBy(MAX_DISCOVERY_MESSAGE_TTL, 0) == MAX_DISCOVERY_MESSAGE_TTL;
    hide DecrementBy;
  }

  lemma CastKeepsQueues(arrivals: Arrivals, casts: Casts, done: set<Token>, sendq: seq<Slot>, wire: seq<Packet>, id: Id, cell: nat)
    requires AllQueued(arrivals, casts, done, sendq) && AllSent(arrivals, casts, done, wire) && id !in casts
    ensures AllQueued(arrivals, casts[id := cell], done, sendq) && AllSent(arrivals, casts[id := cell], done, wire)
  {
    hide QueuedForward, SentForward, SentCast, PassTokens, CastTokens;
  }

  lemma CastLoopWith(t: Net, origins: Origins, casts: Casts, todo: Todo, v: Node, m: Message, o: Origin)
    requires CastIds(origins, casts) && CastLoop(casts, todo) && m.id !in casts && o.kind == Broadcast
    ensures CastIds(origins[m.id := o], casts[m.id := m.cell]) && CastLoop(casts[m.id := m.cell], todo + Targets(t, v, m))
  {}

  lemma FreshIsNotCast(t: Net, s: State, v: Node, r: bool)
    requires Shape(t, s) && CastIds(s.origins, s.log.casts)
    ensures var id := Fresh(s, v, r).id; id !in s.log.casts && CastTokens(s.log.done, id) == {}
  {
    FreshIsNotDone(t, s, v);
    FreshId(t, s, v);
    hide Shape;
  }

  lemma StartBroadcastKeepsCopies(t: Net, s: State, v: Node, r: bool)
    requires Shape(t, s) && Copies(s)
    ensures Copies(ApplyStartBroadcast(t, s, v, r))
  {
    hide Shape, CastIds, CastLoop, ArrivalCopies, CastCopies, CastApart, CastCount, WrapCount, AllQueued, AllSent, CastTokens, Targets;
    var m := Fresh(s, v, r);
    FreshIsNotCast(t, s, v, r);
    CastLoopWith(t, s.origins, s.log.casts, s.bcastTodo, v, m, Origin(Broadcast, r));
    CastKeepsCopies(s.origins, s.log.casts, s.log.arrivals, s.cells, s.log.done, m.id);
    CastKeepsQueues(s.log.arrivals, s.log.casts, s.log.done, s.sendq, s.wire, m.id, m.cell);
  }

  // ---------- the iterations of the loops ----------

  lemma CastGrowsBy(done: set<Token>, tok: Token, id: Id)
    requires tok !in done
    ensures |CastTokens(done + {tok}, id)| == |CastTokens(done, id)|
              + if tok.phase == Broadcasting && tok.id == id && tok.port.Owner() == id.origin then 1 else 0
  {
    LoopGrows(done, tok, id.origin, id, Broadcasting);
  }

  lemma QueuedStays(arrivals: Arrivals, casts: Casts, done: set<Token>, tok: Token, x: Slot)
    requires Queued(arrivals, casts, done, x) && tok !in done
    ensures Queued(arrivals, casts, done + {tok}, x)
  {
    PassGrows(done, tok, Key(x.port.Owner(), x.msg.id));
    CastGrowsBy(done, tok, x.msg.id);
    hide PassTokens, CastTokens;
  }

  lemma SerialisedStays(start: uint32, turn: nat, n: nat, ttl: uint32)
    requires Serialised(start, turn, n, ttl)
    ensures Serialised(start, turn, n + 1, ttl)
  {
    var j: nat :| turn <= j <= n && ttl == DecrementBy(start, j);
    assert turn <= j <= n + 1;
  }

  lemma SentStays(arrivals: Arrivals, casts: Casts, done: set<Token>, tok: Token, q: Packet)
    requires Sent(arrivals, casts, done, q) && tok !in done
    ensures Sent(arrivals, casts, done + {tok}, q)
  {
    var k := Key(q.port.Owner(), q.id);
    PassGrows(done, tok, k);
    CastGrowsBy(done, tok, q.id);
    hide PassTokens, CastTokens, DecrementBy;
    if q.phase == Forwarding {
      SerialisedStays(arrivals[k].ttl, q.turn, |PassTokens(done, k)|, q.ttl);
    } else {
      SerialisedStays(MAX_DISCOVERY_MESSAGE_TTL, q.turn, |CastTokens(done, q.id)|, q.ttl);
    }
    hide Serialised;
  }

  lemma IterationKeepsQueues(arrivals: Arrivals, casts: Casts, done: set<Token>, sendq: seq<Slot>, wire: seq<Packet>, tok: Token)
    requires AllQueued(arrivals, casts, done, sendq) && AllSent(arrivals, casts, done, wire) && tok !in done
    ensures AllQueued(arrivals, casts, done + {tok}, sendq) && AllSent(arrivals, casts, done + {tok}, wire)
  {
    hide Queued, Sent;
    forall i | 0 <= i < |sendq| ensures Queued(arrivals, casts, done + {tok}, sendq[i]) {
      QueuedStays(arrivals, casts, done, tok, sendq[i]);
    }
    forall i | 0 <= i < |wire| ensures Sent(arrivals, casts, done + {tok}, wire[i]) {
      SentStays(arrivals, casts, done, tok, wire[i]);
    }
  }

  /** The field is 0 after `n` decrements only if there were at least as many as it began with. */
  lemma ZeroAfter(start: uint32, n: nat)
    ensures DecrementBy(start, n) == 0 ==> n >= start
    ensures n == start ==> DecrementBy(start, n) == 0
  {
    DecrementByIsModular(start, n);
  }

  /** An iteration that finds the TTL at 0 is the one with which its pass comes to exceed the TTL it
      began with, or a later one of such a pass. */
  lemma ForwardKeepsWraps(arrivals: Arrivals, done: set<Token>, wrapped: set<Id>, tok: Token, ttl: uint32)
    requires WrapCount(arrivals, done, wrapped) && tok !in done && tok.phase == Forwarding
    requires var k := Key(tok.port.Owner(), tok.id); k in arrivals && ttl == DecrementBy(arrivals[k].ttl, |PassTokens(done, k)|)
    ensures WrapCount(arrivals, done + {tok}, if ttl == 0 then wrapped + {tok.id} else wrapped)
  {
    var k := Key(tok.port.Owner(), tok.id);
    ZeroAfter(arrivals[k].ttl, |PassTokens(done, k)|);
    forall l ensures |PassTokens(done + {tok}, l)| == |PassTokens(done, l)| + if l == k then 1 else 0 {
      PassGrows(done, tok, l);
    }
    forall id ensures |CastTokens(done + {tok}, id)| == |CastTokens(done, id)| {
      CastGrowsBy(done, tok, id);
    }
    hide PassTokens, CastTokens, DecrementBy;
    forall l ensures PassWraps(arrivals, done + {tok}, l) <==> PassWraps(arrivals, done, l) || (l == k && ttl == 0) {}
    hide PassWraps;
    forall id ensures Wraps(arrivals, done + {tok}, id) <==> Wraps(arrivals, done, id) || (id == tok.id && ttl == 0) {
      if id == tok.id && ttl == 0 { assert PassWraps(arrivals, done + {tok}, Key(tok.port.Owner(), id)); }
    }
  }

  lemma BroadcastKeepsWraps(arrivals: Arrivals, done: set<Token>, wrapped: set<Id>, tok: Token, ttl: uint32)
    requires WrapCount(arrivals, done, wrapped) && tok !in done && tok.phase == Broadcasting && tok.port.Owner() == tok.id.origin
    requires ttl == DecrementBy(MAX_DISCOVERY_MESSAGE_TTL, |CastTokens(done, tok.id)|)
    ensures WrapCount(arrivals, done + {tok}, if ttl == 0 then wrapped + {tok.id} else wrapped)
  {
    ZeroAfter(MAX_DISCOVERY_MESSAGE_TTL, |CastTokens(done, tok.id)|);
    forall l ensures |PassTokens(done + {tok}, l)| == |PassTokens(done, l)| {
      PassGrows(done, tok, l);
    }
    forall id ensures |CastTokens(done + {tok}, id)| == |CastTokens(done, id)| + if id == tok.id then 1 else 0 {
      CastGrowsBy(done, tok, id);
    }
    hide PassTokens, CastTokens, DecrementBy;
    forall l ensures PassWraps(arrivals, done + {tok}, l) <==> PassWraps(arrivals, done, l) {}
    hide PassWraps;
    forall id ensures Wraps(arrivals, done + {tok}, id) <==> Wraps(arrivals, done, id) || (id == tok.id && ttl == 0) {}
  }

  lemma SpendKeepsCells(arrivals: Arrivals, casts: Casts, cells: seq<Cell>, cell: nat, ttl: uint32)
    requires ArrivalCopies(arrivals, cells) && CastCopies(casts, cells) && cell < |cells|
    ensures var cells' := cells[cell := cells[cell].(ttl := ttl)]; ArrivalCopies(arrivals, cells') && CastCopies(casts, cells')
  {}

  lemma ForwardKeepsCasts(casts: Casts, cells: seq<Cell>, done: set<Token>, cell: nat, ttl: uint32, tok: Token)
    requires CastCount(casts, cells, done) && tok !in done && tok.phase == Forwarding && cell < |cells|
    requires forall id <- casts :: casts[id] != cell
    ensures CastCount(casts, cells[cell := cells[cell].(ttl := ttl)], done + {tok})
  {
    forall id ensures |CastTokens(done + {tok}, id)| == |CastTokens(done, id)| {
      CastGrowsBy(done, tok, id);
    }
    hide CastTokens, DecrementBy;
  }

  lemma BroadcastKeepsCasts(casts: Casts, cells: seq<Cell>, done: set<Token>, tok: Token)
    requires CastCount(casts, cells, done) && CastCopies(casts, cells) && tok !in done && tok.phase == Broadcasting
    requires tok.port.Owner() == tok.id.origin && tok.id in casts
    ensures var cell := casts[tok.id];
      CastCount(casts, cells[cell := cells[cell].(ttl := Decrement(cells[cell].ttl))], done + {tok})
  {
    forall id ensures |CastTokens(done + {tok}, id)| == |CastTokens(done, id)| + if id == tok.id then 1 else 0 {
      CastGrowsBy(done, tok, id);
    }
    assert forall n: nat :: DecrementBy(MAX_DISCOVERY_MESSAGE_TTL, n + 1) == Decrement(DecrementBy(MAX_DISCOVERY_MESSAGE_TTL, n));
    hide CastTokens, DecrementBy, Decrement;
  }

  lemma LoopDone(s: State, p: Port)
    requires Once(s)
    ensures p in s.fwdTodo ==> Token(s.fwdTodo[p].id, p, Forwarding) !in s.log.done
    ensures p in s.bcastTodo ==> Token(s.bcastTodo[p].id, p, Broadcasting) !in s.log.done && s.bcastTodo[p].id.origin == p.Owner()
  {}

  lemma ForwardQueues(arrivals: Arrivals, casts: Casts, done: set<Token>, sendq: seq<Slot>, x: Slot)
    requires AllQueued(arrivals, casts, done + {x.Tok()}, sendq) && x.Tok() !in done && x.phase == Forwarding
    requires var k := Key(x.port.Owner(), x.msg.id);
      Holds(arrivals, k, x.msg.cell) && x.turn == |PassTokens(done, k)| + 1 && DecrementBy(arrivals[k].ttl, x.turn) != 0
    ensures AllQueued(arrivals, casts, done + {x.Tok()}, sendq + [x])
  {
    PassGrows(done, x.Tok(), Key(x.port.Owner(), x.msg.id));
    hide PassTokens, CastTokens, DecrementBy;
    assert Queued(arrivals, casts, done + {x.Tok()}, x);
    hide Queued;
  }

  lemma BroadcastQueues(arrivals: Arrivals, casts: Casts, done: set<Token>, sendq: seq<Slot>, x: Slot)
    requires AllQueued(arrivals, casts, done + {x.Tok()}, sendq) && x.Tok() !in done && x.phase == Broadcasting
    requires x.msg.id in casts && casts[x.msg.id] == x.msg.cell && x.port.Owner() == x.msg.id.origin
    requires x.turn == |CastTokens(done, x.msg.id)| + 1
    ensures AllQueued(arrivals, casts, done + {x.Tok()}, sendq + [x])
  {
    CastGrowsBy(done, x.Tok(), x.msg.id);
    hide PassTokens, CastTokens;
    assert Queued(arrivals, casts, done + {x.Tok()}, x);
    hide Queued;
  }

  /** The pass that serves `p` holds, in its object, the TTL it began with less its iterations. */
  lemma PassHolds(s: State, p: Port)
    requires OwnCells(s) && Copies(s) && Passes(s.log.arrivals, s.cells, s.log.done, s.log.skipped) && p in s.fwdTodo
    ensures var m := s.fwdTodo[p]; var k := Key(p.Owner(), m.id);
      && Holds(s.log.arrivals, k, m.cell) && m.cell < |s.cells|
      && s.cells[m.cell].ttl == DecrementBy(s.log.arrivals[k].ttl, |PassTokens(s.log.done, k)|)
      && forall id <- s.log.casts :: s.log.casts[id] != m.cell
  {
    var m := s.fwdTodo[p];
    assert Holds(s.log.arrivals, Key(p.Owner(), m.id), m.cell);
    hide PassTokens, DecrementBy, CastCount, WrapCount, AllQueued, AllSent;
  }

  lemma CastHolds(s: State, p: Port)
    requires Copies(s) && p in s.bcastTodo
    ensures var m := s.bcastTodo[p];
      && m.id in s.log.casts && s.log.casts[m.id] == m.cell && m.cell < |s.cells|
      && s.cells[m.cell].ttl == DecrementBy(MAX_DISCOVERY_MESSAGE_TTL, |CastTokens(s.log.done, m.id)|)
  {
    hide CastTokens, DecrementBy, WrapCount, AllQueued, AllSent;
  }

  lemma TurnIsNext(done: set<Token>, p: Port, id: Id)
    ensures Turn(done, Token(id, p, Forwarding)) == |PassTokens(done, Key(p.Owner(), id))| + 1
    ensures p.Owner() == id.origin ==> Turn(done, Token(id, p, Broadcasting)) == |CastTokens(done, id)| + 1
  {}

  lemma ForwardToKeepsCopies(s: State, p: Port)
    requires Once(s) && OwnCells(s) && Copies(s) && Passes(s.log.arrivals, s.cells, s.log.done, s.log.skipped) && p in s.fwdTodo
    ensures Copies(ApplyForwardTo(s, p))
  {
    hide Turn, LoopTokens, PassTokens, CastTokens, Once, OwnCells, Passes, DecrementBy, Decrement;
    hide ArrivalCopies, CastCopies, CastApart, CastIds, CastLoop, CastCount, WrapCount, AllQueued, AllSent;
    LoopDone(s, p);
    PassHolds(s, p);
    TurnIsNext(s.log.done, p, s.fwdTodo[p].id);
    var m := s.fwdTodo[p];
    var k, tok := Key(p.Owner(), m.id), Token(m.id, p, Forwarding);
    var ttl := s.cells[m.cell].ttl;
    SpendKeepsCells(s.log.arrivals, s.log.casts, s.cells, m.cell, Decrement(ttl));
    ForwardKeepsCasts(s.log.casts, s.cells, s.log.done, m.cell, Decrement(ttl), tok);
    ForwardKeepsWraps(s.log.arrivals, s.log.done, s.log.wrapped, tok, ttl);
    IterationKeepsQueues(s.log.arrivals, s.log.casts, s.log.done, s.sendq, s.wire, tok);
    OneMoreDecrement(s.log.arrivals[k].ttl, |PassTokens(s.log.done, k)|);
    if Decrement(ttl) != 0 {
      ForwardQueues(s.log.arrivals, s.log.casts, s.log.done, s.sendq, Slot(p, Forwarding, m, Turn(s.log.done, tok)));
    }
  }

  lemma OneMoreDecrement(ttl: uint32, n: nat)
    ensures DecrementBy(ttl, n + 1) == Decrement(DecrementBy(ttl, n))
  {}

  lemma BroadcastToKeepsCopies(s: State, p: Port)
    requires Once(s) && Copies(s) && p in s.bcastTodo
    ensures Copies(ApplyBroadcastTo(s, p))
  {
    LoopDone(s, p);
    CastHolds(s, p);
    TurnIsNext(s.log.done, p, s.bcastTodo[p].id);
    hide Turn, LoopTokens, PassTokens, CastTokens, Once, ArrivalCopies, CastCopies, CastApart, CastIds, CastCount, WrapCount, AllQueued, AllSent, DecrementBy, Decrement;
    var m := s.bcastTodo[p];
    var tok := Token(m.id, p, Broadcasting);
    var ttl := s.cells[m.cell].ttl;
    SpendKeepsCells(s.log.arrivals, s.log.casts, s.cells, m.cell, Decrement(ttl));
    BroadcastKeepsCasts(s.log.casts, s.cells, s.log.done, tok);
    BroadcastKeepsWraps(s.log.arrivals, s.log.done, s.log.wrapped, tok, ttl);
    IterationKeepsQueues(s.log.arrivals, s.log.casts, s.log.done, s.sendq, s.wire, tok);
    BroadcastQueues(s.log.arrivals, s.log.casts, s.log.done, s.sendq, Slot(p, Broadcasting, m, Turn(s.log.done, tok)));
  }

  // ---------- serialising ----------

  /** A sender serialises what the object holds when it gets to it. */
  lemma TransmitSends(s: State, i: nat)
    requires Copies(s) && Passes(s.log.arrivals, s.cells, s.log.done, s.log.skipped) && i < |s.sendq|
    ensures var x := s.sendq[i]; var c := Load(s, x.msg);
      Sent(s.log.arrivals, s.log.casts, s.log.done, Packet(x.port, x.msg.id, c.ttl, x.msg.routable, c.hops + 1, x.phase, x.turn))
  {
    var x := s.sendq[i];
    assert Queued(s.log.arrivals, s.log.casts, s.log.done, x);
    hide PassTokens, CastTokens, DecrementBy, WrapCount, AllQueued, AllSent;
    if x.phase == Forwarding {
      var k := Key(x.port.Owner(), x.msg.id);
      assert PassCount(s.log.arrivals[k].ttl, s.cells[x.msg.cell], s.log.done, s.log.skipped, k);
      Holding(s.log.arrivals[k].ttl, x.turn, |PassTokens(s.log.done, k)|);
    } else {
      Holding(MAX_DISCOVERY_MESSAGE_TTL, x.turn, |CastTokens(s.log.done, x.msg.id)|);
    }
    hide Serialised;
  }

  lemma Holding(start: uint32, turn: nat, n: nat)
    requires turn <= n
    ensures Serialised(start, turn, n, DecrementBy(start, n))
  {}

  lemma TransmitKeepsCopies(s: State, i: nat)
    requires Copies(s) && Passes(s.log.arrivals, s.cells, s.log.done, s.log.skipped) && i < |s.sendq|
    ensures Copies(ApplyTransmit(s, i))
  {
    TransmitSends(s, i);
    hide ArrivalCopies, CastCopies, CastApart, CastIds, CastLoop, CastCount, WrapCount, Queued, Sent, Passes;
  }

  lemma StepKeepsCopies(t: Net, s: State, a: Action)
    requires Inv(t, s) && OwnCells(s) && Copies(s) && Enabled(t, s, a)
    requires Passes(s.log.arrivals, s.cells, s.log.done, s.log.skipped)
    ensures Copies(Apply(t, s, a))
  {
    hide Shape, Once, OwnCells, Passes, Copies, Apply, ApplyCapture, ApplyBroadcastTo, ApplyForwardTo, ApplyTransmit, ApplyReceive, ApplyStartBroadcast, ApplyStartForward;
    assert Once(s) && Shape(t, s);
    StepFrame(t, s, a);
    hide Inv;
    match a
    case Capture(v, r) => CaptureKeepsCopies(t, s, v, r);
    case StartBroadcast(v, r) => StartBroadcastKeepsCopies(t, s, v, r);
    case BroadcastTo(p) => BroadcastToKeepsCopies(s, p);
    case ForwardTo(p) => ForwardToKeepsCopies(s, p);
    case Transmit(i) => TransmitKeepsCopies(s, i);
    case Receive(i) => ReceiveKeepsCopies(s, i);
    case StartForward(i) => StartForwardKeepsCopies(t, s, i);
    case EndForward(v) => EndLoopKeepsCopies(s, v);
    case EndBroadcast(v) => EndLoopKeepsCopies(s, v);
  }

  lemma StartForwardKeepsCopies(t: Net, s: State, i: nat)
    requires Copies(s) && i < |s.lounge|
    ensures Copies(ApplyStartForward(t, s, i))
  {
    hide ArrivalCopies, CastCopies, CastApart, CastIds, CastLoop, CastCount, WrapCount, AllQueued, AllSent;
  }

  lemma EndLoopKeepsCopies(s: State, v: Node)
    requires Copies(s)
    ensures Copies(s.(forwarding := s.forwarding - {v})) && Copies(s.(broadcasting := s.broadcasting - {v}))
  {
    hide ArrivalCopies, CastCopies, CastApart, CastIds, CastLoop, CastCount, WrapCount, AllQueued, AllSent;
  }
}
