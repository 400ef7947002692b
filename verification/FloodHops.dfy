/** What the TTL of a copy on a link can be, when the TTL of a message wraps, and how far a message
    travels, over whole runs of the flood protocol. */
module FloodHops {
  import opened Sequences
  import opened Topology
  import opened Ttl
  import opened FloodNetwork
  import opened FloodInvariants
  import opened FloodTheorems
  import opened FloodPasses
  import opened FloodCopies

  /** A message recorded after h links carries at most 255 - h, unless its TTL wrapped. */
  ghost predicate Limited(arrivals: Arrivals, wrapped: set<Id>) {
    forall k <- arrivals | k.id !in wrapped :: Within(arrivals[k].ttl, arrivals[k].hops)
  }

  ghost predicate Within(ttl: uint32, hops: nat) {
    ttl + hops <= MAX_DISCOVERY_MESSAGE_TTL && hops < MAX_DISCOVERY_MESSAGE_TTL
  }

  /** Node `v` recorded `id` one link before `hops`. */
  ghost predicate RecordedBefore(arrivals: Arrivals, v: Node, id: Id, hops: nat) {
    Key(v, id) in arrivals && arrivals[Key(v, id)].hops + 1 == hops
  }

  /** What precedes a copy that has travelled `hops` links: its origin, or a node one link closer. */
  ghost predicate Precedes(arrivals: Arrivals, casts: Casts, id: Id, hops: nat) {
    || hops == 0
    || (hops == 1 && id in casts)
    || (exists v :: RecordedBefore(arrivals, v, id, hops))
  }

  ghost predicate Chained(arrivals: Arrivals, casts: Casts) {
    forall k <- arrivals :: Precedes(arrivals, casts, k.id, arrivals[k].hops)
  }

  ghost predicate Tracked(s: State) {
    && OwnCells(s) && Copies(s) && Passes(s.log.arrivals, s.cells, s.log.done, s.log.skipped)
    && Limited(s.log.arrivals, s.log.wrapped) && Chained(s.log.arrivals, s.log.casts)
  }

  // ---------- copies on links ----------

  lemma DecrementsBelow(start: uint32, j: nat)
    requires j <= start
    ensures DecrementBy(start, j) == start - j
  {
    DecrementByIsModular(start, j);
  }

  lemma SentWithin(a: Arrival, q: Packet, n: nat)
    requires SentForward(a, q, n) && n <= a.ttl && Within(a.ttl, a.hops)
    ensures Within(q.ttl, q.hops)
  {
    var j: nat :| q.turn <= j <= n && q.ttl == DecrementBy(a.ttl, j);
    DecrementsBelow(a.ttl, j);
    DecrementsBelow(a.ttl, q.turn);
  }

  lemma CastWithin(q: Packet, n: nat)
    requires SentCast(q, n) && n <= MAX_DISCOVERY_MESSAGE_TTL
    ensures Within(q.ttl, q.hops)
  {
    var j: nat :| q.turn <= j <= n && q.ttl == DecrementBy(MAX_DISCOVERY_MESSAGE_TTL, j);
    DecrementsBelow(MAX_DISCOVERY_MESSAGE_TTL, j);
  }

  lemma PacketWithin(s: State, i: nat)
    requires Copies(s) && Limited(s.log.arrivals, s.log.wrapped) && i < |s.wire| && s.wire[i].id !in s.log.wrapped
    ensures Within(s.wire[i].ttl, s.wire[i].hops)
  {
    var q := s.wire[i];
    assert Sent(s.log.arrivals, s.log.casts, s.log.done, q);
    assert !Wraps(s.log.arrivals, s.log.done, q.id);
    hide Copies, SentForward, SentCast, Within, PassTokens, CastTokens;
    if q.phase == Forwarding {
      var k := Key(q.port.Owner(), q.id);
      assert !PassWraps(s.log.arrivals, s.log.done, k);
      SentWithin(s.log.arrivals[k], q, |PassTokens(s.log.done, k)|);
    } else {
      CastWithin(q, |CastTokens(s.log.done, q.id)|);
    }
  }

  lemma PacketPrecedes(s: State, i: nat)
    requires Copies(s) && i < |s.wire|
    ensures s.wire[i].hops > 0 && Precedes(s.log.arrivals, s.log.casts, s.wire[i].id, s.wire[i].hops)
  {
    var q := s.wire[i];
    assert Sent(s.log.arrivals, s.log.casts, s.log.done, q);
    hide Copies, Serialised, PassTokens, CastTokens, DecrementBy;
    if q.phase == Forwarding {
      assert RecordedBefore(s.log.arrivals, q.port.Owner(), q.id, q.hops);
    }
  }

  // ---------- steps and runs ----------

  /** What a step adds to the arrivals: at most one, captured or taken from a link. */
  ghost predicate Grows(s: State, s': State, q: Packet, k: Key) {
    && s'.log.wrapped == s.log.wrapped && s'.log.casts == s.log.casts
    && (s'.log.arrivals == s.log.arrivals
        || (k !in s.log.arrivals && s'.log.arrivals == s.log.arrivals[k := Arrival(|s.cells|, q.ttl, q.hops)]))
  }

  lemma ReceiveGrows(s: State, i: nat)
    requires OwnCells(s) && i < |s.wire|
    ensures var q := s.wire[i]; Grows(s, ApplyReceive(s, i), q, Key(q.port.Far(), q.id))
  {
    hide LoungeCells, ForwardCells, BroadcastCells, LoungeLength;
  }

  lemma CaptureGrows(t: Net, s: State, v: Node, r: bool)
    requires OwnCells(s)
    ensures forall q: Packet | q.ttl == MAX_DISCOVERY_MESSAGE_TTL && q.hops == 0 ::
              Grows(s, ApplyCapture(s, v, r), q, Key(v, Fresh(s, v, r).id))
  {
    hide LoungeCells, ForwardCells, BroadcastCells, LoungeLength;
  }

  lemma GrownPrecedes(arrivals: Arrivals, casts: Casts, k: Key, a: Arrival, id: Id, hops: nat)
    requires k !in arrivals && Precedes(arrivals, casts, id, hops)
    ensures Precedes(arrivals[k := a], casts, id, hops)
  {
    if v :| RecordedBefore(arrivals, v, id, hops) {
      assert RecordedBefore(arrivals[k := a], v, id, hops);
    }
  }

  lemma GrowsKeepsChains(s: State, s': State, q: Packet, k: Key)
    requires Grows(s, s', q, k) && Limited(s.log.arrivals, s.log.wrapped) && Chained(s.log.arrivals, s.log.casts)
    requires (k.id !in s.log.wrapped ==> Within(q.ttl, q.hops)) && Precedes(s.log.arrivals, s.log.casts, k.id, q.hops)
    ensures Limited(s'.log.arrivals, s'.log.wrapped) && Chained(s'.log.arrivals, s'.log.casts)
  {
    if s'.log.arrivals != s.log.arrivals {
      var a := Arrival(|s.cells|, q.ttl, q.hops);
      forall l <- s'.log.arrivals ensures Precedes(s'.log.arrivals, s.log.casts, l.id, s'.log.arrivals[l].hops) {
        GrownPrecedes(s.log.arrivals, s.log.casts, k, a, l.id, s'.log.arrivals[l].hops);
      }
    }
    hide Precedes, Within;
  }

  lemma CastsGrow(arrivals: Arrivals, casts: Casts, id: Id, cell: nat)
    requires Chained(arrivals, casts)
    ensures Chained(arrivals, casts[id := cell])
  {
    forall k <- arrivals ensures Precedes(arrivals, casts[id := cell], k.id, arrivals[k].hops) {
      assert Precedes(arrivals, casts, k.id, arrivals[k].hops);
    }
  }

  lemma CaptureKeepsChains(t: Net, s: State, v: Node, r: bool)
    requires OwnCells(s) && Limited(s.log.arrivals, s.log.wrapped) && Chained(s.log.arrivals, s.log.casts)
    ensures var s' := ApplyCapture(s, v, r); Limited(s'.log.arrivals, s'.log.wrapped) && Chained(s'.log.arrivals, s'.log.casts)
  {
    var q := Packet(Port(Link(v, v, 0), true), Fresh(s, v, r).id, MAX_DISCOVERY_MESSAGE_TTL, r, 0, Broadcasting, 0);
    CaptureGrows(t, s, v, r);
    hide OwnCells, Grows, Limited, Chained;
    GrowsKeepsChains(s, ApplyCapture(s, v, r), q, Key(v, q.id));
  }

  lemma ReceiveKeepsChains(s: State, i: nat)
    requires OwnCells(s) && Copies(s) && Limited(s.log.arrivals, s.log.wrapped) && Chained(s.log.arrivals, s.log.casts) && i < |s.wire|
    ensures var s' := ApplyReceive(s, i); Limited(s'.log.arrivals, s'.log.wrapped) && Chained(s'.log.arrivals, s'.log.casts)
  {
    var q := s.wire[i];
    if q.id !in s.log.wrapped { PacketWithin(s, i); }
    PacketPrecedes(s, i);
    ReceiveGrows(s, i);
    hide OwnCells, Copies, Grows, Limited, Chained, Precedes, Within, ApplyReceive;
    GrowsKeepsChains(s, ApplyReceive(s, i), q, Key(q.port.Far(), q.id));
  }

  /** The other steps record nothing; some begin a broadcast, some wrap a TTL. */
  lemma OtherKeepsChains(t: Net, s: State, a: Action)
    requires Enabled(t, s, a) && !a.Capture? && !a.Receive?
    requires Limited(s.log.arrivals, s.log.wrapped) && Chained(s.log.arrivals, s.log.casts)
    ensures var s' := Apply(t, s, a); Limited(s'.log.arrivals, s'.log.wrapped) && Chained(s'.log.arrivals, s'.log.casts)
  {
    StepFrame(t, s, a);
    StepLeaves(t, s, a);
    if a.StartBroadcast? {
      var m := Fresh(s, a.node, a.routable);
      StartBroadcastLeaves(t, s, a.node, a.routable);
      CastsGrow(s.log.arrivals, s.log.casts, m.id, m.cell);
    }
    hide Apply, ApplyStartBroadcast, Enabled, Chained, Within;
  }

  lemma StepKeepsTracked(t: Net, s: State, a: Action)
    requires Inv(t, s) && Tracked(s) && Enabled(t, s, a)
    ensures Tracked(Apply(t, s, a))
  {
    assert Shape(t, s);
    hide Inv, Shape, OwnCells, Copies, Passes, Limited, Chained, Apply, ApplyCapture, ApplyReceive;
    StepKeepsOwnCells(t, s, a);
    StepKeepsPasses(t, s, a);
    StepKeepsCopies(t, s, a);
    StepFrame(t, s, a);
    if a.Capture? {
      CaptureKeepsChains(t, s, a.node, a.routable);
    } else if a.Receive? {
      ReceiveKeepsChains(s, a.index);
    } else {
      OtherKeepsChains(t, s, a);
    }
  }

  lemma {:induction false} RunKeepsTracked(t: Net, s: State, actions: seq<Action>, s': State)
    requires t.Valid() && Inv(t, s) && Tracked(s) && IsRun(t, s, actions, s')
    ensures Tracked(s')
    decreases |actions|
  {
    if actions != [] {
      StepKeepsInv(t, s, actions[0]);
      StepKeepsTracked(t, s, actions[0]);
      hide Inv, Tracked;
      RunKeepsTracked(t, Apply(t, s, actions[0]), actions[1..], s');
    }
  }

  lemma EmptyIsTracked()
    ensures Tracked(EMPTY)
  {
    assert forall k: Key :: k !in EMPTY.log.arrivals;
    forall id ensures CastTokens(EMPTY.log.done, id) == {} {}
    hide CastTokens, PassTokens;
  }

  lemma ReachableIsTracked(t: Net, s: State)
    requires t.Valid() && Reachable(t, s)
    ensures Inv(t, s) && Tracked(s)
  {
    ReachableHasInv(t, s);
    var actions :| IsRun(t, EMPTY, actions, s);
    EmptyHasInv(t);
    EmptyIsTracked();
    RunKeepsTracked(t, EMPTY, actions, s);
  }

  // ---------- the TTL of a copy ----------

  lemma PassIsBounded(t: Net, s: State, k: Key)
    requires DoneShape(t, s.origins, s.log.done) && Once(s) && k in s.table
    ensures |PassTokens(s.log.done, k)| <= |DuePorts(t, s, k)|
  {
    PortTokens(DuePorts(t, s, k), k.id, Forwarding);
    var due := set p | p in DuePorts(t, s, k) :: Token(k.id, p, Forwarding);
    forall tok <- PassTokens(s.log.done, k) ensures tok in due {
      assert tok == Token(k.id, tok.port, Forwarding);
    }
    SubsetCardinality(PassTokens(s.log.done, k), due);
  }

  lemma CastIsBounded(t: Net, s: State, id: Id)
    requires DoneShape(t, s.origins, s.log.done)
    ensures |CastTokens(s.log.done, id)| <= |t.PortsOf(id.origin)|
  {
    PortTokens(t.PortsOf(id.origin), id, Broadcasting);
    var due := set p | p in t.PortsOf(id.origin) :: Token(id, p, Broadcasting);
    forall tok <- CastTokens(s.log.done, id) ensures tok in due {
      assert tok == Token(id, tok.port, Broadcasting);
    }
    SubsetCardinality(CastTokens(s.log.done, id), due);
  }

  lemma SerialisedRange(start: uint32, turn: nat, n: nat, ttl: uint32, bound: nat)
    requires Serialised(start, turn, n, ttl) && 1 <= turn && n <= bound < start
    ensures start - bound <= ttl <= start - turn && turn <= bound
  {
    var j: nat :| turn <= j <= n && ttl == DecrementBy(start, j);
    SerialisedTtl(start, bound, turn, j);
  }

  /** TTL of a forwarded copy: if the message arrived at the forwarding node with a TTL T above the
      number n of connections to serve, then every copy that its pass puts on a link, as the i-th of
      the pass and whenever the sender gets to it, carries a TTL in [T - n, T - i]. So the TTL falls
      at each such hop, and does not wrap. */
  lemma ForwardedTtl(t: Net, s: State, i: nat)
    requires t.Valid() && Reachable(t, s) && i < |s.wire| && s.wire[i].phase == Forwarding
    ensures var q := s.wire[i]; var k := Key(q.port.Owner(), q.id);
      && k in s.table && k in s.log.arrivals && q.hops == s.log.arrivals[k].hops + 1
      && var T, n := s.log.arrivals[k].ttl, |DuePorts(t, s, k)|;
         T > n ==> T - n <= q.ttl <= T - q.turn && 1 <= q.turn <= n && 0 < q.ttl < T
  {
    ReachableIsTracked(t, s);
    hide Inv, Tracked;
    CopyOfPass(t, s, i);
  }

  lemma CopyOfPass(t: Net, s: State, i: nat)
    requires Inv(t, s) && Tracked(s) && i < |s.wire| && s.wire[i].phase == Forwarding
    ensures var q := s.wire[i]; var k := Key(q.port.Owner(), q.id);
      && k in s.table && k in s.log.arrivals && q.hops == s.log.arrivals[k].hops + 1
      && var T, n := s.log.arrivals[k].ttl, |DuePorts(t, s, k)|;
         T > n ==> T - n <= q.ttl <= T - q.turn && 1 <= q.turn <= n && 0 < q.ttl < T
  {
    var q := s.wire[i];
    var k := Key(q.port.Owner(), q.id);
    assert Sent(s.log.arrivals, s.log.casts, s.log.done, q);
    assert k in s.table;
    PassIsBounded(t, s, k);
    hide Inv, Tracked, Serialised, PassTokens, DuePorts, DecrementBy;
    if s.log.arrivals[k].ttl > |DuePorts(t, s, k)| {
      SerialisedRange(s.log.arrivals[k].ttl, q.turn, |PassTokens(s.log.done, k)|, q.ttl, |DuePorts(t, s, k)|);
    }
  }

  /** The same for a copy that comes from the broadcaster of its origin, which begins with 255. */
  lemma BroadcastTtl(t: Net, s: State, i: nat)
    requires t.Valid() && Reachable(t, s) && i < |s.wire| && s.wire[i].phase == Broadcasting
    ensures var q := s.wire[i]; var n := |t.PortsOf(q.id.origin)|;
      && q.hops == 1 && IsBroadcast(s.origins, q.id)
      && (MAX_DISCOVERY_MESSAGE_TTL > n ==>
            MAX_DISCOVERY_MESSAGE_TTL - n <= q.ttl <= MAX_DISCOVERY_MESSAGE_TTL - q.turn && 1 <= q.turn <= n)
  {
    ReachableIsTracked(t, s);
    hide Inv, Tracked;
    CopyOfCast(t, s, i);
  }

  lemma CopyOfCast(t: Net, s: State, i: nat)
    requires Inv(t, s) && Tracked(s) && i < |s.wire| && s.wire[i].phase == Broadcasting
    ensures var q := s.wire[i]; var n := |t.PortsOf(q.id.origin)|;
      && q.hops == 1 && IsBroadcast(s.origins, q.id)
      && (MAX_DISCOVERY_MESSAGE_TTL > n ==>
            MAX_DISCOVERY_MESSAGE_TTL - n <= q.ttl <= MAX_DISCOVERY_MESSAGE_TTL - q.turn && 1 <= q.turn <= n)
  {
    var q := s.wire[i];
    assert Sent(s.log.arrivals, s.log.casts, s.log.done, q);
    CastIsBounded(t, s, q.id);
    hide Inv, OwnCells, Passes, Limited, Chained, Serialised, CastTokens, DecrementBy;
    if MAX_DISCOVERY_MESSAGE_TTL > |t.PortsOf(q.id.origin)| {
      SerialisedRange(MAX_DISCOVERY_MESSAGE_TTL, q.turn, |CastTokens(s.log.done, q.id)|, q.ttl, |t.PortsOf(q.id.origin)|);
    }
  }

  // ---------- wrapping ----------

  /** When a TTL wraps, in every reachable state: if and only if some node's pass has performed more
      iterations than the TTL the message arrived with there, or its broadcaster more than 255. */
  lemma WrappedExactly(t: Net, s: State, id: Id)
    requires t.Valid() && Reachable(t, s)
    ensures s.log.arrivals.Keys == s.table.Keys
    ensures id in s.log.wrapped <==>
            || (exists v :: Key(v, id) in s.table && |PassTokens(s.log.done, Key(v, id))| > s.log.arrivals[Key(v, id)].ttl)
            || |CastTokens(s.log.done, id)| > MAX_DISCOVERY_MESSAGE_TTL
  {
    ReachableIsTracked(t, s);
    assert WrapCount(s.log.arrivals, s.log.done, s.log.wrapped) && s.log.arrivals.Keys == s.table.Keys;
    hide Inv, Tracked, PassTokens, CastTokens;
    forall v ensures PassWraps(s.log.arrivals, s.log.done, Key(v, id)) <==>
                     Key(v, id) in s.table && |PassTokens(s.log.done, Key(v, id))| > s.log.arrivals[Key(v, id)].ttl {}
    hide PassWraps;
  }

  /** At quiescence that is a matter of the topology and of the TTLs the message arrived with. */
  lemma WrappedAtQuiescence(t: Net, s: State, id: Id)
    requires t.Valid() && Reachable(t, s) && Quiescent(s)
    ensures s.log.arrivals.Keys == s.table.Keys
    ensures id in s.log.wrapped <==>
            || (IsRoutable(s.origins, id)
                && exists v :: Key(v, id) in s.table && |DuePorts(t, s, Key(v, id))| > s.log.arrivals[Key(v, id)].ttl)
            || (IsBroadcast(s.origins, id) && |t.PortsOf(id.origin)| > MAX_DISCOVERY_MESSAGE_TTL)
  {
    ReachableHasInv(t, s);
    QuiescentLoops(t, s);
    DueIsDone(t, s, id);
    WrappedExactly(t, s, id);
    hide Inv, Quiescent;
    forall v | Key(v, id) in s.table
      ensures |PassTokens(s.log.done, Key(v, id))| == if IsRoutable(s.origins, id) then |DuePorts(t, s, Key(v, id))| else 0
    {
      if IsRoutable(s.origins, id) { PassIsDue(t, s, Key(v, id)); } else { NoPassIsDue(t, s, Key(v, id)); }
    }
    CastIsDue(t, s, id);
    hide PassTokens, CastTokens, DuePorts, DueTokens, TokensOf;
  }

  lemma NoPassIsDue(t: Net, s: State, k: Key)
    requires !IsRoutable(s.origins, k.id) && TokensOf(s.log.done, k.id) == DueTokens(t, s, k.id)
    ensures PassTokens(s.log.done, k) == {}
  {
    assert PassTokens(s.log.done, k) <= TokensOf(s.log.done, k.id);
  }

  lemma CastIsDue(t: Net, s: State, id: Id)
    requires TokensOf(s.log.done, id) == DueTokens(t, s, id)
    ensures |CastTokens(s.log.done, id)| == if IsBroadcast(s.origins, id) then |t.PortsOf(id.origin)| else 0
  {
    PortTokens(t.PortsOf(id.origin), id, Broadcasting);
    var due := set p | p in t.PortsOf(id.origin) :: Token(id, p, Broadcasting);
    forall tok ensures tok in CastTokens(s.log.done, id) <==> tok in due && IsBroadcast(s.origins, id) {
      assert tok in CastTokens(s.log.done, id) <==>
             tok in TokensOf(s.log.done, id) && tok.phase == Broadcasting && tok.port.Owner() == id.origin;
    }
    if IsBroadcast(s.origins, id) {
      assert CastTokens(s.log.done, id) == due;
    } else {
      assert CastTokens(s.log.done, id) == {};
    }
  }

  // ---------- path length ----------

  /** Unless its TTL wrapped, no copy of a message has travelled more than 254 links. */
  lemma PathsAreShort(t: Net, s: State, i: nat)
    requires t.Valid() && Reachable(t, s) && i < |s.wire| && s.wire[i].id !in s.log.wrapped
    ensures s.wire[i].hops <= 254 && s.wire[i].hops + s.wire[i].ttl <= 255
  {
    ReachableIsTracked(t, s);
    hide Inv, OwnCells, Copies, Passes, Limited, Chained;
    PacketWithin(s, i);
  }

  /** In particular if at every node the message arrived with a TTL above the number of connections
      to serve, and its origin does not broadcast it to more than 255. */
  lemma AmpleTtlBoundsPaths(t: Net, s: State, i: nat)
    requires t.Valid() && Reachable(t, s) && i < |s.wire|
    requires var id := s.wire[i].id;
      && (forall v | Key(v, id) in s.table && Key(v, id) in s.log.arrivals ::
            s.log.arrivals[Key(v, id)].ttl > |DuePorts(t, s, Key(v, id))|)
      && (IsBroadcast(s.origins, id) ==> |t.PortsOf(id.origin)| <= MAX_DISCOVERY_MESSAGE_TTL)
    ensures s.wire[i].hops <= 254 && s.wire[i].hops + s.wire[i].ttl <= 255
  {
    var id := s.wire[i].id;
    WrappedExactly(t, s, id);
    ReachableHasInv(t, s);
    forall v | Key(v, id) in s.table ensures |PassTokens(s.log.done, Key(v, id))| <= s.log.arrivals[Key(v, id)].ttl {
      PassIsBounded(t, s, Key(v, id));
    }
    CastIsBounded(t, s, id);
    NoCast(s, id);
    hide Inv, PassTokens, CastTokens, DuePorts, Reachable;
    PathsAreShort(t, s, i);
  }

  lemma NoCast(s: State, id: Id)
    requires Once(s)
    ensures !IsBroadcast(s.origins, id) ==> CastTokens(s.log.done, id) == {}
  {}

  /** The nodes that recorded `id` after `lo` to `hi` links. */
  ghost function Stations(arrivals: Arrivals, nodes: set<Node>, id: Id, lo: nat, hi: nat): set<Node> {
    set u | u in nodes && Key(u, id) in arrivals && lo <= arrivals[Key(u, id)].hops <= hi
  }

  lemma OneMoreStation(arrivals: Arrivals, nodes: set<Node>, id: Id, v: Node, lo: nat)
    requires Key(v, id) in arrivals && v in nodes && arrivals[Key(v, id)].hops > lo
    ensures var h := arrivals[Key(v, id)].hops; |Stations(arrivals, nodes, id, lo, h - 1)| < |Stations(arrivals, nodes, id, lo, h)|
  {
    var h := arrivals[Key(v, id)].hops;
    assert v in Stations(arrivals, nodes, id, lo, h) && v !in Stations(arrivals, nodes, id, lo, h - 1);
    SubsetCardinality(Stations(arrivals, nodes, id, lo, h - 1), Stations(arrivals, nodes, id, lo, h));
  }

  /** A node that recorded a message after h links was preceded by a node for each number of links
      down to that of the first recording. */
  lemma {:induction false} StationsOnTheWay(arrivals: Arrivals, casts: Casts, nodes: set<Node>, id: Id, v: Node)
    requires Chained(arrivals, casts) && Key(v, id) in arrivals && forall k <- arrivals :: k.node in nodes
    ensures var lo, h := if id in casts then 1 else 0, arrivals[Key(v, id)].hops;
      h >= lo ==> |Stations(arrivals, nodes, id, lo, h)| >= h - lo + 1
    decreases arrivals[Key(v, id)].hops
  {
    hide Chained, Stations;
    var lo, h := if id in casts then 1 else 0, arrivals[Key(v, id)].hops;
    assert v in nodes;
    if h > lo {
      var u := StationBefore(arrivals, casts, id, v);
      StationsOnTheWay(arrivals, casts, nodes, id, u);
      OneMoreStation(arrivals, nodes, id, v, lo);
    } else if h == lo {
      FirstStation(arrivals, nodes, id, v, lo);
    }
  }

  lemma StationBefore(arrivals: Arrivals, casts: Casts, id: Id, v: Node) returns (u: Node)
    requires Chained(arrivals, casts) && Key(v, id) in arrivals && arrivals[Key(v, id)].hops > if id in casts then 1 else 0
    ensures RecordedBefore(arrivals, u, id, arrivals[Key(v, id)].hops)
  {
    assert Precedes(arrivals, casts, id, arrivals[Key(v, id)].hops);
    u :| RecordedBefore(arrivals, u, id, arrivals[Key(v, id)].hops);
  }

  lemma FirstStation(arrivals: Arrivals, nodes: set<Node>, id: Id, v: Node, h: nat)
    requires Key(v, id) in arrivals && v in nodes && arrivals[Key(v, id)].hops == h
    ensures |Stations(arrivals, nodes, id, h, h)| >= 1
  {
    SubsetCardinality({v}, Stations(arrivals, nodes, id, h, h));
  }

  lemma PacketsPassNodes(s: State, nodes: set<Node>, i: nat)
    requires Copies(s) && Chained(s.log.arrivals, s.log.casts) && i < |s.wire| && forall k <- s.log.arrivals :: k.node in nodes
    ensures s.wire[i].hops <= |nodes| + if s.wire[i].id in s.log.casts then 1 else 0
  {
    hide Copies, Chained;
    var id, h := s.wire[i].id, s.wire[i].hops;
    PacketPrecedes(s, i);
    if h > 1 || id !in s.log.casts {
      var v :| RecordedBefore(s.log.arrivals, v, id, h);
      StationsOnTheWay(s.log.arrivals, s.log.casts, nodes, id, v);
      var lo := if id in s.log.casts then 1 else 0;
      SubsetCardinality(Stations(s.log.arrivals, nodes, id, lo, h - 1), nodes);
      hide Stations;
    }
  }

  /** Whatever the TTL does, no copy travels more links than there are nodes, and one more if its
      origin broadcast it and may therefore record it on its return. */
  lemma PathsVisitNodesOnce(t: Net, s: State, i: nat)
    requires t.Valid() && Reachable(t, s) && i < |s.wire|
    ensures s.wire[i].hops <= |t.nodes| + if IsBroadcast(s.origins, s.wire[i].id) then 1 else 0
  {
    hide Passes, Limited, Chained;
    ReachableIsTracked(t, s);
    assert CastIds(s.origins, s.log.casts);
    assert s.log.arrivals.Keys == s.table.Keys;
    assert forall k <- s.log.arrivals :: k.node in t.nodes;
    hide Inv, OwnCells, Copies;
    PacketsPassNodes(s, t.nodes, i);
  }
}
