/** That the condition of FloodPaths is exact for captured messages: along a path that is not affordable
    there is a run that leaves a node with too little TTL for its connections. */
module FloodExhaustion {
  import opened Wrappers
  import opened Sequences
  import opened Topology
  import opened Ttl
  import opened FloodNetwork
  import opened FloodInvariants
  import opened FloodTheorems
  import opened FloodPasses
  import opened FloodCapacity
  import opened FloodCopies
  import opened FloodHops
  import opened FloodOrigins
  import opened FloodPaths

  // ---------- runs ----------

  /** What is recorded stays recorded, as it was. */
  ghost predicate Keeps(s: State, s': State) {
    && s.table.Keys <= s'.table.Keys && (forall k <- s.table :: s'.table[k] == s.table[k])
    && s.log.arrivals.Keys <= s'.log.arrivals.Keys && (forall k <- s.log.arrivals :: s'.log.arrivals[k] == s.log.arrivals[k])
  }

  lemma StepKeepsRecords(t: Net, s: State, a: Action)
    requires Inv(t, s) && Tracked(s) && Enabled(t, s, a) && !Originates(a)
    ensures Keeps(s, Apply(t, s, a))
  {
    hide Inv, Tracked, Apply, Enabled, ApplyReceive;
    StepFrame(t, s, a);
    RecordedKeys(t, s);
    if a.Receive? {
      ReceivedIsThere(t, s, a);
      ReceiveRecords(s, a.index);
    } else {
      StepRecordsNothing(t, s, a);
    }
  }

  lemma {:induction false} RunKeepsRecords(t: Net, s: State, actions: seq<Action>, s': State)
    requires t.Valid() && Inv(t, s) && Tracked(s) && IsRun(t, s, actions, s') && forall a <- actions :: !Originates(a)
    ensures Keeps(s, s')
    decreases |actions|
  {
    hide Inv, Tracked, Apply, Enabled, t.Valid;
    if actions != [] {
      StepKeepsInv(t, s, actions[0]);
      StepKeepsTracked(t, s, actions[0]);
      StepKeepsRecords(t, s, actions[0]);
      RunKeepsRecords(t, Apply(t, s, actions[0]), actions[1..], s');
      KeepsCompose(s, Apply(t, s, actions[0]), s');
    }
  }

  lemma KeepsCompose(s: State, s': State, s'': State)
    requires Keeps(s, s') && Keeps(s', s'')
    ensures Keeps(s, s'')
  {}

  // ---------- one message in the network ----------

  /** `id` is the only message, and was captured. */
  ghost predicate Alone(s: State, id: Id) {
    s.origins == map[id := Origin(Multicast, true)]
  }

  lemma TokenAlone(t: Net, s: State, id: Id, tok: Token)
    requires Inv(t, s) && Alone(s, id) && tok in s.log.done
    ensures tok.id == id && tok.phase == Forwarding && Key(tok.port.Owner(), id) in s.log.started
  {
    assert tok.phase == Broadcasting ==> IsBroadcast(s.origins, tok.id);
    assert !IsBroadcast(s.origins, tok.id);
  }

  lemma QueuedAlone(t: Net, s: State, id: Id, i: nat)
    requires Inv(t, s) && Alone(s, id) && i < |s.sendq|
    ensures s.sendq[i].Tok() == Token(id, s.sendq[i].port, Forwarding) && s.sendq[i].Tok() in s.log.done
    ensures Key(s.sendq[i].port.Owner(), id) in s.log.started
  {
    var tok := s.sendq[i].Tok();
    assert Tokens(s.sendq)[i] == tok;
    assert tok in multiset(Tokens(s.sendq)) + multiset(s.log.sent) + multiset(s.log.skipped);
    assert tok in s.log.done;
    hide Inv;
    TokenAlone(t, s, id, tok);
  }

  /** No connection has two messages in its channel. */
  lemma OncePerChannel(t: Net, s: State, id: Id, i: nat, j: nat)
    requires Inv(t, s) && Alone(s, id) && i < |s.sendq| && j < |s.sendq| && s.sendq[i].port == s.sendq[j].port
    ensures i == j
  {
    QueuedAlone(t, s, id, i);
    QueuedAlone(t, s, id, j);
    var tok := s.sendq[i].Tok();
    assert multiset(Tokens(s.sendq))[tok] <= multiset(s.log.done)[tok];
    assert Tokens(s.sendq)[i] == tok == Tokens(s.sendq)[j];
    hide Inv;
    if i < j { TwiceInMultiset(Tokens(s.sendq), i, j); }
    if j < i { TwiceInMultiset(Tokens(s.sendq), j, i); }
  }

  lemma TwiceInMultiset<T>(xs: seq<T>, i: nat, j: nat)
    requires i < j < |xs| && xs[i] == xs[j]
    ensures multiset(xs)[xs[i]] >= 2
  {
    assert xs == xs[..j] + [xs[j]] + xs[j + 1..];
    assert xs[..j][i] in multiset(xs[..j]);
  }

  lemma {:induction false} SomeInChannel(sendq: seq<Slot>, p: Port)
    requires ChannelLength(sendq, p) > 0
    ensures exists j :: 0 <= j < |sendq| && sendq[j].port == p
  {
    if sendq[0].port != p {
      SomeInChannel(sendq[1..], p);
      var j :| 0 <= j < |sendq[1..]| && sendq[1..][j].port == p;
      assert sendq[j + 1].port == p;
    }
  }

  /** So no loop ever waits. */
  lemma NothingBlocks(t: Net, s: State, id: Id, v: Node, phase: Phase)
    requires Inv(t, s) && Alone(s, id)
    ensures !Blocked(s.sendq, v, phase)
  {
    forall i | 0 <= i < |s.sendq| ensures !InHand(s.sendq, i) {
      if ChannelLength(s.sendq[..i], s.sendq[i].port) > 0 {
        SomeInChannel(s.sendq[..i], s.sendq[i].port);
        var j :| 0 <= j < i && s.sendq[..i][j].port == s.sendq[i].port;
        OncePerChannel(t, s, id, i, j);
      }
    }
  }

  // ---------- a pass ----------

  /** The message is at node `v`, about to be forwarded; nothing is on a link and no loop is busy. */
  ghost predicate OnTheWay(t: Net, s: State, id: Id, v: Node, ttl: uint32) {
    && Reachable(t, s) && Alone(s, id) && s.log.lost == {}
    && s.wire == [] && s.forwarding == {} && s.fwdTodo == map[]
    && |s.lounge| == 1 && Waits(s.lounge[0]) == Key(v, id)
    && Key(v, id) in s.table && Key(v, id) in s.log.arrivals && s.log.arrivals[Key(v, id)].ttl == ttl
  }

  /** The forwarder of `v` is busy with the message and nothing else goes on. */
  ghost predicate InPass(t: Net, s: State, id: Id, v: Node) {
    && Reachable(t, s) && Alone(s, id) && s.log.lost == {}
    && s.wire == [] && s.lounge == [] && s.forwarding == {v}
  }

  /** Nothing was recorded or transmitted. */
  ghost predicate SameRecords(s: State, s': State) {
    s'.table == s.table && s'.log.arrivals == s.log.arrivals && s'.log.sent == s.log.sent
  }

  lemma PassBegins(t: Net, s: State, id: Id, v: Node, ttl: uint32)
    requires t.Valid() && OnTheWay(t, s, id, v, ttl)
    ensures Enabled(t, s, StartForward(0))
    ensures var s' := Apply(t, s, StartForward(0)); InPass(t, s', id, v) && SameRecords(s, s')
  {
    ReachableHasInv(t, s);
    WaitingIsIssued(t, s, 0);
    var a := StartForward(0);
    assert s.lounge[0].node == v && s.lounge[0].msg.routable;
    assert RemoveAt(s.lounge, 0) == [];
    assert Enabled(t, s, a);
    hide Inv, Reachable;
    ReachableStep(t, s, a);
  }

  lemma SpendLeaves(s: State, m: Message, tok: Token)
    ensures var s' := Spend(s, m, tok);
      && s'.wire == s.wire && s'.lounge == s.lounge && s'.forwarding == s.forwarding && s'.fwdTodo == s.fwdTodo
      && s'.origins == s.origins && s'.log.lost == s.log.lost && SameRecords(s, s')
  {
    hide Load, Decrement;
  }

  lemma ForwardInPass(s: State, v: Node, p: Port)
    requires p in s.fwdTodo && s.wire == [] && s.lounge == [] && s.forwarding == {v}
    ensures var s' := ApplyForwardTo(s, p);
      && s'.wire == [] && s'.lounge == [] && s'.forwarding == {v} && s'.fwdTodo == s.fwdTodo - {p}
      && s'.origins == s.origins && s'.log.lost == s.log.lost && SameRecords(s, s')
  {
    hide Turn, Spend, Load;
    SpendLeaves(s, s.fwdTodo[p], Token(s.fwdTodo[p].id, p, Forwarding));
  }

  lemma PassGoesOn(t: Net, s: State, id: Id, v: Node, p: Port)
    requires t.Valid() && InPass(t, s, id, v) && p in s.fwdTodo
    ensures Enabled(t, s, ForwardTo(p))
    ensures var s' := Apply(t, s, ForwardTo(p));
      InPass(t, s', id, v) && SameRecords(s, s') && s'.fwdTodo == s.fwdTodo - {p}
  {
    hide Inv, Reachable, Blocked, Turn, Decrement, ApplyForwardTo, SameRecords, t.Valid;
    ReachableHasInv(t, s);
    NothingBlocks(t, s, id, p.Owner(), Forwarding);
    ReachableStep(t, s, ForwardTo(p));
    ForwardInPass(s, v, p);
  }

  /** The pass runs to its end. */
  lemma {:induction false} PassEnds(t: Net, s: State, id: Id, v: Node) returns (s': State)
    requires t.Valid() && InPass(t, s, id, v)
    ensures InPass(t, s', id, v) && SameRecords(s, s') && s'.fwdTodo == map[]
    decreases |s.fwdTodo|
  {
    if s.fwdTodo == map[] {
      s' := s;
    } else {
      var p :| p in s.fwdTodo;
      PassGoesOn(t, s, id, v, p);
      TodoShrinks(s.fwdTodo, p);
      hide InPass, Enabled, Apply, t.Valid;
      s' := PassEnds(t, Apply(t, s, ForwardTo(p)), id, v);
    }
  }

  lemma ForwarderIsFree(t: Net, s: State, id: Id, v: Node)
    requires t.Valid() && InPass(t, s, id, v) && s.fwdTodo == map[]
    ensures Enabled(t, s, EndForward(v))
    ensures var s' := Apply(t, s, EndForward(v)); s' == s.(forwarding := {}) && Reachable(t, s')
  {
    ReachableHasInv(t, s);
    NothingBlocks(t, s, id, v, Forwarding);
    hide Inv, Reachable, Blocked;
    ReachableStep(t, s, EndForward(v));
  }

  /** Between two passes: every recorded message has been forwarded to all connections due, and what was
      not transmitted yet waits in its channel. */
  ghost predicate Idle(t: Net, s: State, id: Id) {
    && Reachable(t, s) && Alone(s, id) && s.log.lost == {}
    && s.wire == [] && s.lounge == [] && s.forwarding == {} && s.fwdTodo == map[]
  }

  lemma AllStarted(t: Net, s: State)
    requires Inv(t, s) && s.lounge == []
    ensures s.log.started == s.table.Keys
  {
    assert Lounged(s.table, s.log.started, s.lounge);
  }

  lemma NoBroadcast(t: Net, s: State, id: Id)
    requires Inv(t, s) && Alone(s, id)
    ensures s.bcastTodo == map[]
  {
    assert BroadcastsOnce(s.origins, s.bcastTodo, s.log.done);
    hide Inv;
    if p :| p in s.bcastTodo { assert false; }
  }

  lemma IdleCount(t: Net, s: State, id: Id, k: Key)
    requires t.Valid() && Idle(t, s, id) && k in s.table && k.id == id
    ensures Inv(t, s) && OwnCells(s) && Passes(s.log.arrivals, s.cells, s.log.done, s.log.skipped)
    ensures TokensOf(s.log.done, id) == DueTokens(t, s, id) && |PassTokens(s.log.done, k)| == |DuePorts(t, s, k)|
  {
    ReachablePasses(t, s);
    AllStarted(t, s);
    NoBroadcast(t, s, id);
    DueIsDone(t, s, id);
    assert IsRoutable(s.origins, id);
    hide Inv, OwnCells, Passes, TokensOf, DueTokens, PassTokens, DuePorts, Reachable;
    PassIsDue(t, s, k);
  }

  /** If the TTL exceeds the connections due, nothing was skipped, and the object holds the rest. */
  lemma IdleTtl(t: Net, s: State, id: Id, k: Key)
    requires t.Valid() && Idle(t, s, id) && k in s.table && k.id == id && k in s.log.arrivals
    requires s.log.arrivals[k].ttl > |DuePorts(t, s, k)|
    ensures var T, n, cell := s.log.arrivals[k].ttl, |DuePorts(t, s, k)|, s.log.arrivals[k].cell;
      cell < |s.cells| && s.cells[cell].ttl == T - n && PassTokens(s.log.skipped, k) == {}
  {
    IdleCount(t, s, id, k);
    var T, n := s.log.arrivals[k].ttl, |DuePorts(t, s, k)|;
    assert s.log.arrivals[k].cell < |s.cells|;
    assert PassCount(T, s.cells[s.log.arrivals[k].cell], s.log.done, s.log.skipped, k);
    hide Inv, OwnCells, Passes, TokensOf, DueTokens, PassTokens, DuePorts, Idle, DecrementBy, Sends;
    PassOutcome(T, n);
    DecrementsBelow(T, n);
  }

  // ---------- a hop ----------

  /** The copy for connection `p` of node `k.node` waits in its channel. */
  lemma CopyWaits(t: Net, s: State, id: Id, k: Key, p: Port) returns (i: nat)
    requires t.Valid() && Idle(t, s, id) && k in s.table && k.id == id && k in s.log.arrivals
    requires s.log.arrivals[k].ttl > |DuePorts(t, s, k)| && p in DuePorts(t, s, k) && Token(id, p, Forwarding) !in s.log.sent
    ensures i < |s.sendq| && s.sendq[i].Tok() == Token(id, p, Forwarding) && s.sendq[i].msg.cell == s.log.arrivals[k].cell
  {
    IdleTtl(t, s, id, k);
    IdleCount(t, s, id, k);
    var tok := Token(id, p, Forwarding);
    assert tok in DueTokens(t, s, id);
    assert tok in TokensOf(s.log.done, id);
    assert tok !in PassTokens(s.log.skipped, k);
    i := QueuedSomewhere(s, tok);
    hide Inv, OwnCells, Passes, DueTokens, TokensOf, PassTokens, DuePorts;
    ReachableIsTracked(t, s);
    QueuedCell(s, i);
  }

  lemma QueuedSomewhere(s: State, tok: Token) returns (i: nat)
    requires Books(s.sendq, s.log.sent, s.log.skipped, s.log.done) && tok in s.log.done && tok !in s.log.sent && tok !in s.log.skipped
    ensures i < |s.sendq| && s.sendq[i].Tok() == tok
  {
    assert multiset(s.log.done)[tok] == multiset(Tokens(s.sendq))[tok] + multiset(s.log.sent)[tok] + multiset(s.log.skipped)[tok];
    assert tok in multiset(Tokens(s.sendq));
    i :| 0 <= i < |Tokens(s.sendq)| && Tokens(s.sendq)[i] == tok;
  }

  lemma QueuedCell(s: State, i: nat)
    requires Tracked(s) && i < |s.sendq| && s.sendq[i].phase == Forwarding
    ensures var k := Key(s.sendq[i].port.Owner(), s.sendq[i].msg.id); k in s.log.arrivals && s.log.arrivals[k].cell == s.sendq[i].msg.cell
  {
    hide OwnCells, Passes, Limited, Chained, ArrivalCopies, CastCopies, CastApart, CastIds, CastLoop, CastCount, WrapCount, AllSent;
    assert Queued(s.log.arrivals, s.log.casts, s.log.done, s.sendq[i]);
    hide PassTokens, CastTokens, DecrementBy;
  }

  /** The copy is put on its link, with what the pass left of the TTL. */
  lemma CopyLeaves(t: Net, s: State, id: Id, k: Key, p: Port) returns (s': State)
    requires t.Valid() && Idle(t, s, id) && k in s.table && k.id == id && k in s.log.arrivals
    requires s.log.arrivals[k].ttl > |DuePorts(t, s, k)| && p in DuePorts(t, s, k) && Token(id, p, Forwarding) !in s.log.sent
    ensures Reachable(t, s') && s'.origins == s.origins && s'.log.lost == {} && s'.table == s.table && s'.log.arrivals == s.log.arrivals
    ensures s'.lounge == [] && s'.forwarding == {} && s'.fwdTodo == map[]
    ensures |s'.wire| == 1 && s'.wire[0].port == p && s'.wire[0].id == id && s'.wire[0].routable
    ensures s'.wire[0].ttl == s.log.arrivals[k].ttl - |DuePorts(t, s, k)|
  {
    var i := CopyWaits(t, s, id, k, p);
    IdleTtl(t, s, id, k);
    ReachableHasInv(t, s);
    var a := Transmit(i);
    forall j | 0 <= j < i ensures s.sendq[j].port != s.sendq[i].port {
      if s.sendq[j].port == s.sendq[i].port { OncePerChannel(t, s, id, j, i); }
    }
    assert s.sendq[i].msg.routable;
    assert Enabled(t, s, a);
    hide Inv, Reachable, DuePorts, PassTokens;
    ReachableStep(t, s, a);
    s' := Apply(t, s, a);
  }

  /** And recorded by the node at the far end, if that did not have the message yet. */
  lemma CopyArrives(t: Net, s: State, id: Id)
    requires t.Valid() && Reachable(t, s) && Alone(s, id) && s.log.lost == {}
    requires s.lounge == [] && s.forwarding == {} && s.fwdTodo == map[]
    requires |s.wire| == 1 && s.wire[0].id == id && s.wire[0].routable && Key(s.wire[0].port.Far(), id) !in s.table
    ensures Enabled(t, s, Receive(0))
    ensures var s', q := Apply(t, s, Receive(0)), s.wire[0];
      && OnTheWay(t, s', id, q.port.Far(), q.ttl)
      && s'.table == s.table[Key(q.port.Far(), id) := Some(q.port.Peer())]
  {
    assert RemoveAt(s.wire, 0) == [];
    assert LoungeLength(s.lounge, s.wire[0].port.Far()) == 0;
    hide Reachable, LoungeLength;
    ReachableStep(t, s, Receive(0));
  }

  /** From node to node: the whole pass at `v`, then the copy for `p`. */
  lemma Hop(t: Net, s: State, id: Id, v: Node, ttl: uint32, p: Port) returns (s': State)
    requires t.Valid() && OnTheWay(t, s, id, v, ttl) && p in t.PortsOf(v) && Key(p.Far(), id) !in s.table
    requires ttl > |DuePorts(t, s, Key(v, id))|
    ensures OnTheWay(t, s', id, p.Far(), ttl - |DuePorts(t, s, Key(v, id))|)
    ensures s'.table == s.table[Key(p.Far(), id) := Some(p.Peer())]
  {
    var k := Key(v, id);
    NotSentYet(t, s, id, v, ttl, p);
    NotTheWayIn(t, s, id, v, ttl, p);
    PassBegins(t, s, id, v, ttl);
    var s1 := Apply(t, s, StartForward(0));
    hide Inv, Reachable, DuePorts, Enabled, t.Valid, t.PortsOf, Apply;
    var s2 := PassEnds(t, s1, id, v);
    ForwarderIsFree(t, s2, id, v);
    var s3 := Apply(t, s2, EndForward(v));
    SameDue(t, s, s3, k);
    assert Idle(t, s3, id);
    var s4 := CopyLeaves(t, s3, id, k, p);
    CopyArrives(t, s4, id);
    s' := Apply(t, s4, Receive(0));
  }

  lemma SameDue(t: Net, s: State, s': State, k: Key)
    requires k in s.table && s'.table == s.table
    ensures DuePorts(t, s', k) == DuePorts(t, s, k)
  {}

  lemma NotSentYet(t: Net, s: State, id: Id, v: Node, ttl: uint32, p: Port)
    requires t.Valid() && OnTheWay(t, s, id, v, ttl) && p.Owner() == v
    ensures Token(id, p, Forwarding) !in s.log.sent
  {
    ReachableHasInv(t, s);
    var tok := Token(id, p, Forwarding);
    assert Waits(s.lounge[0]) !in s.log.started;
    assert Books(s.sendq, s.log.sent, s.log.skipped, s.log.done);
    if tok in s.log.sent {
      SentIsNotSkipped(t, s, tok);
      TokenAlone(t, s, id, tok);
    }
  }

  /** A node that already has the message is where it came from, or is not; a new one is not. */
  lemma NotTheWayIn(t: Net, s: State, id: Id, v: Node, ttl: uint32, p: Port)
    requires t.Valid() && OnTheWay(t, s, id, v, ttl) && p in t.PortsOf(v) && Key(p.Far(), id) !in s.table
    ensures p in DuePorts(t, s, Key(v, id))
  {
    ReachableHasInv(t, s);
    assert SourcesSeen(t, s.table);
    assert s.origins[id].kind == Multicast && id !in s.log.lost;
    assert Arrived(s.table, Key(id.origin, id), None);
  }

  lemma FirstNode(t: Net, o: Node) returns (s: State)
    requires t.Valid() && o in t.nodes
    ensures OnTheWay(t, s, Id(o, 0), o, MAX_DISCOVERY_MESSAGE_TTL) && s.table == map[Key(o, Id(o, 0)) := None]
  {
    EmptyIsReachable(t);
    AnyNodeMayOriginate(t, EMPTY, o, Origin(Multicast, true));
    assert LoungeLength([], o) == 0;
    hide Reachable, LoungeLength;
    s := Apply(t, EMPTY, Capture(o, true));
  }

  // ---------- along a path ----------

  /** The node that a path from `o` has reached after `i` links. */
  function NodeAt(o: Node, path: seq<Port>, i: nat): Node
    requires i <= |path|
  {
    if i == 0 then o else path[i - 1].Far()
  }

  lemma {:induction false} PathLink(t: Net, o: Node, path: seq<Port>, w: Node, i: nat)
    requires t.IsPath(o, path, w) && i < |path|
    ensures path[i] in t.PortsOf(NodeAt(o, path, i))
    decreases |path|
  {
    if i > 0 {
      PathLink(t, path[0].Far(), path[1..], w, i - 1);
    }
  }

  /** The message went along the first `i` links of the path, and nowhere else. */
  ghost predicate Went(t: Net, s: State, o: Node, path: seq<Port>, i: nat)
    requires i <= |path|
  {
    var id := Id(o, 0);
    && Spent(t, o, path[..i]) < MAX_DISCOVERY_MESSAGE_TTL
    && OnTheWay(t, s, id, NodeAt(o, path, i), MAX_DISCOVERY_MESSAGE_TTL - Spent(t, o, path[..i]))
    && (s.table[Key(NodeAt(o, path, i), id)] == None <==> i == 0)
    && (forall k <- s.table :: k.node == o || Enters(path[..i], k.node))
  }

  /** What the pass at node `i` of the path costs. */
  lemma PassAt(t: Net, s: State, o: Node, path: seq<Port>, i: nat)
    requires t.Valid() && i <= |path| && Went(t, s, o, path, i)
    ensures var k := Key(NodeAt(o, path, i), Id(o, 0));
      k in s.table && Degree(t, o) + Toll(t, path[..i]) == Spent(t, o, path[..i]) + |DuePorts(t, s, k)|
  {
    var v := NodeAt(o, path, i);
    ReachableHasInv(t, s);
    DueIsPassing(t, s, Key(v, Id(o, 0)));
    if i > 0 { SpentAndPassing(t, o, path[..i]); }
  }

  lemma NewNode(t: Net, s: State, o: Node, path: seq<Port>, i: nat)
    requires i < |path| && Went(t, s, o, path, i) && Simple(path) && !Enters(path, o)
    ensures forall id :: Key(path[i].Far(), id) !in s.table
  {
    var u := path[i].Far();
    assert u != o;
    assert !Enters(path[..i], u);
  }

  lemma WentExtends(t: Net, s: State, s': State, o: Node, path: seq<Port>, i: nat, n: nat)
    requires i < |path| && Went(t, s, o, path, i)
    requires Degree(t, o) + Toll(t, path[..i]) == Spent(t, o, path[..i]) + n < MAX_DISCOVERY_MESSAGE_TTL
    requires OnTheWay(t, s', Id(o, 0), path[i].Far(), MAX_DISCOVERY_MESSAGE_TTL - Spent(t, o, path[..i]) - n)
    requires s'.table == s.table[Key(path[i].Far(), Id(o, 0)) := Some(path[i].Peer())]
    ensures Went(t, s', o, path, i + 1)
  {
    hide Degree, Toll, Spent, OnTheWay, Enters;
    assert path[..i + 1] == path[..i] + [path[i]];
    TollExtends(t, path[..i], path[i]);
    forall k <- s'.table ensures k.node == o || Enters(path[..i + 1], k.node) {
      if k in s.table && k.node != o { assert Enters(path[..i], k.node); }
      EntersMore(path, i, k.node);
    }
  }

  lemma GoesOn(t: Net, s: State, o: Node, path: seq<Port>, w: Node, i: nat) returns (s': State)
    requires t.Valid() && t.IsPath(o, path, w) && Simple(path) && !Enters(path, o) && i < |path| && Went(t, s, o, path, i)
    requires Degree(t, o) + Toll(t, path[..i]) < MAX_DISCOVERY_MESSAGE_TTL
    ensures Went(t, s', o, path, i + 1)
  {
    hide Degree, Toll, Spent, OnTheWay, DuePorts, t.IsPath, t.PortsOf, t.Valid, Enters, Simple;
    var v, id, p := NodeAt(o, path, i), Id(o, 0), path[i];
    PathLink(t, o, path, w, i);
    PassAt(t, s, o, path, i);
    NewNode(t, s, o, path, i);
    s' := Hop(t, s, id, v, MAX_DISCOVERY_MESSAGE_TTL - Spent(t, o, path[..i]), p);
    WentExtends(t, s, s', o, path, i, |DuePorts(t, s, Key(v, id))|);
  }

  lemma EntersMore(path: seq<Port>, i: nat, v: Node)
    requires i < |path|
    ensures Enters(path[..i], v) || v == path[i].Far() ==> Enters(path[..i + 1], v)
  {
    if v == path[i].Far() {
      assert path[..i + 1][i].Far() == v;
    } else if j :| 0 <= j < i && path[..i][j].Far() == v {
      assert path[..i + 1][j].Far() == v;
    }
  }

  lemma {:induction false} WayTo(t: Net, o: Node, path: seq<Port>, w: Node, i: nat) returns (s: State)
    requires t.Valid() && o in t.nodes && t.IsPath(o, path, w) && Simple(path) && !Enters(path, o) && i <= |path|
    requires forall j | 0 <= j < i :: Degree(t, o) + Toll(t, path[..j]) < MAX_DISCOVERY_MESSAGE_TTL
    ensures Went(t, s, o, path, i)
    decreases i
  {
    hide Degree, Toll, OnTheWay, t.IsPath, t.Valid, Enters, Simple;
    if i == 0 {
      s := FirstNode(t, o);
      assert path[..0] == [];
    } else {
      var s1 := WayTo(t, o, path, w, i - 1);
      hide Went;
      s := GoesOn(t, s1, o, path, w, i - 1);
    }
  }

  // ---------- a node is left without TTL ----------

  lemma {:induction false} LeastFailing(t: Net, o: Node, path: seq<Port>, n: nat) returns (i: nat)
    requires n <= |path| && Degree(t, o) + Toll(t, path[..n]) >= MAX_DISCOVERY_MESSAGE_TTL
    ensures i <= n && Degree(t, o) + Toll(t, path[..i]) >= MAX_DISCOVERY_MESSAGE_TTL
    ensures forall j | 0 <= j < i :: Degree(t, o) + Toll(t, path[..j]) < MAX_DISCOVERY_MESSAGE_TTL
    decreases n
  {
    hide Degree, Toll;
    i := n;
    if j :| 0 <= j < n && Degree(t, o) + Toll(t, path[..j]) >= MAX_DISCOVERY_MESSAGE_TTL {
      i := LeastFailing(t, o, path, j);
    }
  }

  /** The node skips a connection when the network settles. */
  lemma SettlesWithSkip(t: Net, s: State, o: Node, k: Key) returns (s': State)
    requires t.Valid() && Reachable(t, s) && Alone(s, k.id) && k.id.origin == o && k in s.table && k in s.log.arrivals
    requires 1 <= s.log.arrivals[k].ttl <= |DuePorts(t, s, k)| < 0x1_0000_0000
    ensures Reachable(t, s') && Quiescent(s') && IsCaptured(s', k.id) && |PassTokens(s'.log.skipped, k)| == 1
  {
    hide Inv, Tracked, Reachable, Quiescent, DuePorts, PassTokens, t.Valid;
    ReachableIsTracked(t, s);
    var actions;
    actions, s' := FloodSettles(t, s);
    RunKeepsOrigins(t, s, actions, s');
    RunKeepsRecords(t, s, actions, s');
    ReachableExtends(t, s, actions, s');
    NothingIsLost(t, s');
    SameDueAt(t, s, s', k);
    NodeSkipsExactly(t, s', k);
  }

  lemma SameDueAt(t: Net, s: State, s': State, k: Key)
    requires k in s.table && k in s'.table && s'.table[k] == s.table[k]
    ensures DuePorts(t, s', k) == DuePorts(t, s, k)
  {}

  lemma ExhaustingRun(t: Net, o: Node, path: seq<Port>, w: Node) returns (s: State, id: Id)
    requires t.Valid() && o in t.nodes && (forall v :: |t.PortsOf(v)| < 0x1_0000_0000)
    requires t.IsPath(o, path, w) && Simple(path) && !Enters(path, o)
    requires Degree(t, o) + Toll(t, path) >= MAX_DISCOVERY_MESSAGE_TTL
    ensures Reachable(t, s) && Quiescent(s) && IsCaptured(s, id) && id.origin == o && TokensOf(s.log.skipped, id) != {}
  {
    assert path[..|path|] == path;
    var i := LeastFailing(t, o, path, |path|);
    var s1 := WayTo(t, o, path, w, i);
    id := Id(o, 0);
    var k := Key(NodeAt(o, path, i), id);
    PassAt(t, s1, o, path, i);
    DueIsSmall(t, s1, k);
    hide Reachable, Quiescent, DuePorts, Degree, Toll, Spent, Simple, Enters, t.IsPath, t.Valid;
    s := SettlesWithSkip(t, s1, o, k);
    SomeSkipped(s.log.skipped, k);
  }

  lemma SomeSkipped(skipped: set<Token>, k: Key)
    requires |PassTokens(skipped, k)| == 1
    ensures TokensOf(skipped, k.id) != {}
  {
    var tok :| tok in PassTokens(skipped, k);
    assert tok in TokensOf(skipped, k.id);
  }

  lemma DueIsSmall(t: Net, s: State, k: Key)
    requires k in s.table && forall v :: |t.PortsOf(v)| < 0x1_0000_0000
    ensures |DuePorts(t, s, k)| < 0x1_0000_0000
  {
    SubsetCardinality(DuePorts(t, s, k), t.PortsOf(k.node));
  }

  /** The exact condition on the network, for captured messages: in no run whatever is a connection
      passed over for want of TTL, if and only if every path from the origin is affordable. */
  lemma AffordsExactly(t: Net, o: Node)
    requires t.Valid() && o in t.nodes && (forall v :: |t.PortsOf(v)| < 0x1_0000_0000)
    ensures Affords(t, o, Multicast) <==>
      forall s, id | Reachable(t, s) && Quiescent(s) && IsCaptured(s, id) && id.origin == o :: TokensOf(s.log.skipped, id) == {}
  {
    hide Reachable, Quiescent, TokensOf, Degree, Toll, Simple, Enters, t.IsPath, t.Valid, t.PortsOf, DuePorts;
    if Affords(t, o, Multicast) {
      hide Affords;
      forall s, id | Reachable(t, s) && Quiescent(s) && IsCaptured(s, id) && id.origin == o ensures TokensOf(s.log.skipped, id) == {} {
        AffordedIsUnskipped(t, s, id);
      }
    } else {
      var path, w :| t.IsPath(o, path, w) && Simple(path) && !Enters(path, o) && Degree(t, o) + Toll(t, path) >= MAX_DISCOVERY_MESSAGE_TTL;
      var s, id := ExhaustingRun(t, o, path, w);
    }
  }
}
