/** Where recorded messages come from, over whole runs: a node that recorded a message without a source
    captured it, and every source is the far end of a transmission. What that says of the origin of a
    message: what its own pass skips, and whether it hears its own broadcasts. */
module FloodOrigins {
  import opened Wrappers
  import opened Sequences
  import opened Topology
  import opened Ttl
  import opened FloodNetwork
  import opened FloodInvariants
  import opened FloodTheorems
  import opened FloodPasses
  import opened FloodCapacity
  import opened FloodHops

  ghost predicate WireSent(wire: seq<Packet>, sent: seq<Token>) {
    forall i | 0 <= i < |wire| :: Token(wire[i].id, wire[i].port, wire[i].phase) in sent
  }

  /** `id` was transmitted on `p`, by one loop or the other. */
  ghost predicate SentOn(sent: seq<Token>, p: Port, id: Id) {
    Token(id, p, Forwarding) in sent || Token(id, p, Broadcasting) in sent
  }

  ghost predicate SourcesSent(table: Table, sent: seq<Token>) {
    forall k <- table | table[k].Some? :: SentOn(sent, table[k].value.Peer(), k.id)
  }

  /** Only a captured message has no source; it is recorded by its origin, with the full TTL. */
  ghost predicate CapturedAtOrigin(origins: Origins, table: Table, arrivals: Arrivals) {
    forall k <- table | table[k].None? ::
      && k.node == k.id.origin && k.id in origins && origins[k.id].kind == Multicast
      && k in arrivals && arrivals[k].ttl == MAX_DISCOVERY_MESSAGE_TTL && arrivals[k].hops == 0
  }

  ghost predicate Sourced(s: State) {
    && WireSent(s.wire, s.log.sent) && SourcesSent(s.table, s.log.sent)
    && CapturedAtOrigin(s.origins, s.table, s.log.arrivals)
  }

  lemma OriginsKeepSourced(origins: Origins, table: Table, arrivals: Arrivals, id: Id, o: Origin)
    requires CapturedAtOrigin(origins, table, arrivals) && id !in origins
    ensures CapturedAtOrigin(origins[id := o], table, arrivals)
  {}

  lemma CaptureKeepsSourced(t: Net, s: State, v: Node, r: bool)
    requires Sourced(s) && Shape(t, s)
    ensures Sourced(ApplyCapture(s, v, r))
  {
    hide Shape, WriteLounge, WireSent, SourcesSent, CapturedAtOrigin;
    FreshId(t, s, v);
    var m := Fresh(s, v, r);
    OriginsKeepSourced(s.origins, s.table, s.log.arrivals, m.id, Origin(Multicast, r));
    WriteKeepsSourced(Issue(s, v, Origin(Multicast, r)), v, m, MAX_DISCOVERY_MESSAGE_TTL, 0);
  }

  lemma StartBroadcastKeepsSourced(t: Net, s: State, v: Node, r: bool)
    requires Sourced(s) && Shape(t, s)
    ensures Sourced(ApplyStartBroadcast(t, s, v, r))
  {
    hide Shape, Targets, WireSent, SourcesSent, CapturedAtOrigin;
    FreshId(t, s, v);
    OriginsKeepSourced(s.origins, s.table, s.log.arrivals, Fresh(s, v, r).id, Origin(Broadcast, r));
  }

  lemma TransmitKeepsSourced(s: State, i: nat)
    requires Sourced(s) && i < |s.sendq|
    ensures Sourced(ApplyTransmit(s, i))
  {}

  lemma TakingKeepsSent(wire: seq<Packet>, sent: seq<Token>, i: nat)
    requires WireSent(wire, sent) && i < |wire|
    ensures WireSent(RemoveAt(wire, i), sent) && SentOn(sent, wire[i].port, wire[i].id)
  {
    var q := wire[i];
    assert q.phase == Forwarding || q.phase == Broadcasting;
  }

  lemma RecordedKeepsSourced(origins: Origins, table: Table, arrivals: Arrivals, sent: seq<Token>, k: Key, source: Option<Port>, a: Arrival)
    requires SourcesSent(table, sent) && CapturedAtOrigin(origins, table, arrivals)
    requires source.Some? ==> SentOn(sent, source.value.Peer(), k.id)
    requires source.None? ==> k.node == k.id.origin && k.id in origins && origins[k.id].kind == Multicast
                              && a.ttl == MAX_DISCOVERY_MESSAGE_TTL && a.hops == 0
    ensures SourcesSent(table[k := source], sent) && CapturedAtOrigin(origins, table[k := source], arrivals[k := a])
  {
    hide SentOn;
  }

  lemma WriteKeepsSourced(s: State, v: Node, m: Message, ttl: uint32, hops: nat)
    requires Sourced(s)
    requires m.source.Some? ==> SentOn(s.log.sent, m.source.value.Peer(), m.id)
    requires m.source.None? ==> v == m.id.origin && m.id in s.origins && s.origins[m.id].kind == Multicast
                                && ttl == MAX_DISCOVERY_MESSAGE_TTL && hops == 0
    ensures Sourced(WriteLounge(s, v, m, ttl, hops))
  {
    hide LoungeLength, WireSent, SentOn, SourcesSent, CapturedAtOrigin;
    RecordedKeepsSourced(s.origins, s.table, s.log.arrivals, s.log.sent, Key(v, m.id), m.source, Arrival(m.cell, ttl, hops));
  }

  lemma ReceiveKeepsSourced(s: State, i: nat)
    requires Sourced(s) && i < |s.wire|
    ensures Sourced(ApplyReceive(s, i))
  {
    hide WriteLounge, WireSent, SentOn, SourcesSent, CapturedAtOrigin;
    var q := s.wire[i];
    TakingKeepsSent(s.wire, s.log.sent, i);
    assert q.port.Peer().Peer() == q.port;
    WriteKeepsSourced(s.(wire := RemoveAt(s.wire, i)), q.port.Far(), Message(q.id, |s.cells|, Some(q.port.Peer()), q.routable), q.ttl, q.hops);
  }

  lemma LoopKeepsSourced(t: Net, s: State, p: Port)
    requires Sourced(s)
    ensures p in s.fwdTodo ==> Sourced(ApplyForwardTo(s, p))
    ensures p in s.bcastTodo ==> Sourced(ApplyBroadcastTo(s, p))
  {
    hide Turn, Decrement, WireSent, SourcesSent, CapturedAtOrigin;
  }

  lemma StartForwardKeepsSourced(t: Net, s: State, i: nat)
    requires Sourced(s) && i < |s.lounge|
    ensures Sourced(ApplyStartForward(t, s, i))
  {
    hide Targets, WireSent, SourcesSent, CapturedAtOrigin;
  }

  lemma EndKeepsSourced(s: State, busy: set<Node>)
    requires Sourced(s)
    ensures Sourced(s.(forwarding := busy)) && Sourced(s.(broadcasting := busy))
  {
    hide WireSent, SourcesSent, CapturedAtOrigin;
  }

  lemma StepKeepsSourced(t: Net, s: State, a: Action)
    requires Shape(t, s) && Sourced(s) && Enabled(t, s, a)
    ensures Sourced(Apply(t, s, a))
  {
    StepFrame(t, s, a);
    hide Shape, Sourced, Blocked, LinkLength, Apply;
    hide ApplyCapture, ApplyStartBroadcast, ApplyBroadcastTo, ApplyStartForward, ApplyForwardTo, ApplyTransmit, ApplyReceive;
    match a
    case Capture(v, r) => CaptureKeepsSourced(t, s, v, r);
    case StartBroadcast(v, r) => StartBroadcastKeepsSourced(t, s, v, r);
    case BroadcastTo(p) => LoopKeepsSourced(t, s, p);
    case StartForward(i) => StartForwardKeepsSourced(t, s, i);
    case ForwardTo(p) => LoopKeepsSourced(t, s, p);
    case Transmit(i) => TransmitKeepsSourced(s, i);
    case Receive(i) => ReceiveKeepsSourced(s, i);
    case EndForward(v) => EndKeepsSourced(s, s.forwarding - {v});
    case EndBroadcast(v) => EndKeepsSourced(s, s.broadcasting - {v});
  }

  lemma {:induction false} RunKeepsSourced(t: Net, s: State, actions: seq<Action>, s': State)
    requires t.Valid() && Inv(t, s) && Sourced(s) && IsRun(t, s, actions, s')
    ensures Sourced(s')
    decreases |actions|
  {
    if actions != [] {
      StepKeepsInv(t, s, actions[0]);
      StepKeepsSourced(t, s, actions[0]);
      hide Inv, Sourced;
      RunKeepsSourced(t, Apply(t, s, actions[0]), actions[1..], s');
    }
  }

  lemma ReachableIsSourced(t: Net, s: State)
    requires t.Valid() && Reachable(t, s)
    ensures Inv(t, s) && Sourced(s)
  {
    hide Inv, t.Valid;
    ReachableHasInv(t, s);
    var actions :| IsRun(t, EMPTY, actions, s);
    EmptyHasInv(t);
    RunKeepsSourced(t, EMPTY, actions, s);
  }

  // ---------- a captured message at its origin ----------

  /** Captured with a private address, and rejected by no lounge. */
  ghost predicate IsCaptured(s: State, id: Id) {
    IsRoutable(s.origins, id) && s.origins[id].kind == Multicast && id !in s.log.lost
  }

  lemma CapturedArrival(t: Net, s: State, id: Id)
    requires Spreads(t, s) && Sourced(s) && IsCaptured(s, id)
    ensures var k := Key(id.origin, id);
      && k in s.table && s.table[k] == None && k in s.log.arrivals
      && s.log.arrivals[k].ttl == MAX_DISCOVERY_MESSAGE_TTL && DuePorts(t, s, k) == t.PortsOf(id.origin)
  {
    assert Arrived(s.table, Key(id.origin, id), None);
    hide t.PortsOf, Spreads;
  }

  /** What the TTL does at the origin of a captured message, in every run: once the network is quiescent
      the origin has passed over exactly one of its connections if it has 255 or more, and over none if
      it has fewer; and with more than 255 the TTL has wrapped. */
  lemma OriginSkipsExactly(t: Net, s: State, id: Id)
    requires t.Valid() && Reachable(t, s) && Quiescent(s) && IsCaptured(s, id) && |t.PortsOf(id.origin)| < 0x1_0000_0000
    ensures |PassTokens(s.log.skipped, Key(id.origin, id))| == if |t.PortsOf(id.origin)| >= 255 then 1 else 0
    ensures |t.PortsOf(id.origin)| > 255 ==> id in s.log.wrapped
  {
    hide Shape, Once, Relays, Spreads, Sourced, Quiescent, PassTokens, DuePorts, Reachable, t.PortsOf;
    ReachableIsSourced(t, s);
    CapturedArrival(t, s, id);
    NodeSkipsExactly(t, s, Key(id.origin, id));
    WrappedAtQuiescence(t, s, id);
  }

  // ---------- such states are reachable ----------

  lemma LoopsIssueNothing(s: State, p: Port)
    ensures p in s.fwdTodo ==> ApplyForwardTo(s, p).origins == s.origins && ApplyForwardTo(s, p).nextSeq == s.nextSeq
    ensures p in s.bcastTodo ==> ApplyBroadcastTo(s, p).origins == s.origins && ApplyBroadcastTo(s, p).nextSeq == s.nextSeq
  {
    hide Turn, Decrement;
  }

  lemma WriteIssuesNothing(s: State, v: Node, m: Message, ttl: uint32, hops: nat)
    ensures var s' := WriteLounge(s, v, m, ttl, hops); s'.origins == s.origins && s'.nextSeq == s.nextSeq
  {
    hide LoungeLength;
  }

  lemma ReceiveIssuesNothing(s: State, i: nat)
    requires i < |s.wire|
    ensures ApplyReceive(s, i).origins == s.origins && ApplyReceive(s, i).nextSeq == s.nextSeq
  {
    hide WriteLounge;
    var q := s.wire[i];
    WriteIssuesNothing(s.(wire := RemoveAt(s.wire, i)), q.port.Far(), Message(q.id, |s.cells|, Some(q.port.Peer()), q.routable), q.ttl, q.hops);
  }

  lemma QueuesIssueNothing(t: Net, s: State, i: nat)
    ensures i < |s.lounge| ==> ApplyStartForward(t, s, i).origins == s.origins && ApplyStartForward(t, s, i).nextSeq == s.nextSeq
    ensures i < |s.sendq| ==> ApplyTransmit(s, i).origins == s.origins && ApplyTransmit(s, i).nextSeq == s.nextSeq
  {
    hide Targets;
  }

  lemma StepKeepsOrigins(t: Net, s: State, a: Action)
    requires Enabled(t, s, a) && !Originates(a)
    ensures Apply(t, s, a).origins == s.origins && Apply(t, s, a).nextSeq == s.nextSeq
  {
    StepFrame(t, s, a);
    hide Blocked, LinkLength, Apply, ApplyBroadcastTo, ApplyStartForward, ApplyForwardTo, ApplyTransmit, ApplyReceive;
    match a {
      case BroadcastTo(p) => LoopsIssueNothing(s, p);
      case StartForward(i) => QueuesIssueNothing(t, s, i);
      case ForwardTo(p) => LoopsIssueNothing(s, p);
      case Transmit(i) => QueuesIssueNothing(t, s, i);
      case Receive(i) => ReceiveIssuesNothing(s, i);
      case EndForward(_) =>
      case EndBroadcast(_) =>
    }
  }

  lemma {:induction false} RunKeepsOrigins(t: Net, s: State, actions: seq<Action>, s': State)
    requires IsRun(t, s, actions, s') && forall a <- actions :: !Originates(a)
    ensures s'.origins == s.origins && s'.nextSeq == s.nextSeq
    decreases |actions|
  {
    if actions != [] {
      StepKeepsOrigins(t, s, actions[0]);
      hide Enabled, Apply;
      RunKeepsOrigins(t, Apply(t, s, actions[0]), actions[1..], s');
    }
  }

  lemma RunPrepends(t: Net, s: State, a: Action, actions: seq<Action>, s': State)
    requires Enabled(t, s, a) && IsRun(t, Apply(t, s, a), actions, s')
    ensures IsRun(t, s, [a] + actions, s')
  {
    assert ([a] + actions)[1..] == actions;
    hide Enabled, Apply;
  }



  lemma {:induction false} RunsCompose(t: Net, s: State, actions: seq<Action>, s': State, more: seq<Action>, s'': State)
    requires IsRun(t, s, actions, s') && IsRun(t, s', more, s'')
    ensures IsRun(t, s, actions + more, s'')
    decreases |actions|
  {
    hide Enabled, Apply;
    if actions == [] {
      assert actions + more == more;
    } else {
      var a, rest := actions[0], actions[1..];
      RunsCompose(t, Apply(t, s, a), rest, s', more, s'');
      RunPrepends(t, s, a, rest + more, s'');
      assert actions + more == [a] + (rest + more);
    }
  }

  lemma ReachableExtends(t: Net, s: State, actions: seq<Action>, s': State)
    requires Reachable(t, s) && IsRun(t, s, actions, s')
    ensures Reachable(t, s')
  {
    var before :| IsRun(t, EMPTY, before, s);
    RunsCompose(t, EMPTY, before, s, actions, s');
  }

  lemma ReachableStep(t: Net, s: State, a: Action)
    requires Reachable(t, s) && Enabled(t, s, a)
    ensures Reachable(t, Apply(t, s, a))
  {
    hide Enabled, Apply, Reachable;
    assert IsRun(t, Apply(t, s, a), [], Apply(t, s, a));
    RunPrepends(t, s, a, [], Apply(t, s, a));
    ReachableExtends(t, s, [a] + [], Apply(t, s, a));
  }

  /** How a message enters the network at node `v`. */
  function Origination(v: Node, o: Origin): Action {
    match o.kind
    case Multicast => Capture(v, o.routable)
    case Broadcast => StartBroadcast(v, o.routable)
  }

  lemma OriginationIssues(t: Net, s: State, v: Node, o: Origin)
    requires v in t.nodes && (o.kind == Broadcast ==> v !in s.broadcasting)
    ensures Enabled(t, s, Origination(v, o))
    ensures var s' := Apply(t, s, Origination(v, o));
      && s'.origins == s.origins[Id(v, NextSeq(s, v)) := o]
      && s'.nextSeq == s.nextSeq[v := NextSeq(s, v) + 1]
  {
    if o.kind == Multicast {
      WriteIssuesNothing(Issue(s, v, o), v, Fresh(s, v, o.routable), MAX_DISCOVERY_MESSAGE_TTL, 0);
    }
    hide Targets, WriteLounge;
  }

  /** In every reachable state any node may capture a message, and broadcast one unless its broadcaster
      is at work: with a private address or without, the id is new and carries the next number. */
  lemma AnyNodeMayOriginate(t: Net, s: State, v: Node, o: Origin)
    requires t.Valid() && Reachable(t, s) && v in t.nodes && (o.kind == Broadcast ==> v !in s.broadcasting)
    ensures Enabled(t, s, Origination(v, o)) && Reachable(t, Apply(t, s, Origination(v, o)))
    ensures Id(v, NextSeq(s, v)) !in s.origins && Apply(t, s, Origination(v, o)).origins == s.origins[Id(v, NextSeq(s, v)) := o]
  {
    ReachableHasInv(t, s);
    FreshId(t, s, v);
    hide Inv, Reachable, Enabled, Apply;
    OriginationIssues(t, s, v, o);
    ReachableStep(t, s, Origination(v, o));
  }

  /** And a broadcaster at work comes to an end, so that this holds of every node before long. */
  lemma AnyNodeMayBroadcastLater(t: Net, s: State, v: Node, r: bool) returns (s': State)
    requires t.Valid() && Reachable(t, s) && v in t.nodes
    ensures Reachable(t, s') && s'.origins == s.origins[Id(v, NextSeq(s, v)) := Origin(Broadcast, r)]
    ensures Id(v, NextSeq(s, v)) !in s.origins
  {
    hide Inv, Reachable, Apply, Enabled;
    ReachableHasInv(t, s);
    var actions, s1 := FloodSettles(t, s);
    RunKeepsOrigins(t, s, actions, s1);
    ReachableExtends(t, s, actions, s1);
    AnyNodeMayOriginate(t, s1, v, Origin(Broadcast, r));
    s' := Apply(t, s1, Origination(v, Origin(Broadcast, r)));
  }

  /** The ids of a node are numbered from 0 on without gaps. */
  ghost predicate Numbered(s: State) {
    forall id: Id :: id in s.origins <==> id.seqNo < NextSeq(s, id.origin)
  }

  lemma StepKeepsNumbered(t: Net, s: State, a: Action)
    requires Enabled(t, s, a) && Numbered(s)
    ensures Numbered(Apply(t, s, a))
  {
    if Originates(a) {
      OriginationIssues(t, s, a.node, Origin(if a.Capture? then Multicast else Broadcast, a.routable));
    } else {
      StepKeepsOrigins(t, s, a);
    }
    hide Apply, Enabled;
  }

  lemma {:induction false} RunKeepsNumbered(t: Net, s: State, actions: seq<Action>, s': State)
    requires IsRun(t, s, actions, s') && Numbered(s)
    ensures Numbered(s')
    decreases |actions|
  {
    hide Numbered, Apply, Enabled;
    if actions != [] {
      StepKeepsNumbered(t, s, actions[0]);
      RunKeepsNumbered(t, Apply(t, s, actions[0]), actions[1..], s');
    }
  }

  lemma IdsAreNumbered(t: Net, s: State, id: Id)
    requires Reachable(t, s)
    ensures id in s.origins <==> id.seqNo < NextSeq(s, id.origin)
  {
    var actions :| IsRun(t, EMPTY, actions, s);
    assert Numbered(EMPTY);
    RunKeepsNumbered(t, EMPTY, actions, s);
    hide IsRun;
  }

  /** On every network, any node can be the first to originate a message, and the network then settles. */
  lemma FirstMessageSettles(t: Net, v: Node, o: Origin) returns (s: State)
    requires t.Valid() && v in t.nodes
    ensures Reachable(t, s) && Quiescent(s) && s.origins == map[Id(v, 0) := o] && s.log.lost == {}
  {
    hide Inv, Quiescent, Enabled, Apply, Reachable, Origination;
    var a := Origination(v, o);
    EmptyIsReachable(t);
    AnyNodeMayOriginate(t, EMPTY, v, o);
    var s1 := Apply(t, EMPTY, a);
    assert s1.origins == map[Id(v, 0) := o];
    ReachableHasInv(t, s1);
    var actions;
    actions, s := FloodSettles(t, s1);
    RunKeepsOrigins(t, s1, actions, s);
    ReachableExtends(t, s1, actions, s);
    NothingIsLost(t, s);
  }

  lemma EmptyIsReachable(t: Net)
    ensures Reachable(t, EMPTY)
  {
    assert IsRun(t, EMPTY, [], EMPTY);
  }

  lemma CaptureSettles(t: Net, v: Node) returns (s: State, id: Id)
    requires t.Valid() && v in t.nodes
    ensures Reachable(t, s) && Quiescent(s) && id.origin == v && IsCaptured(s, id) && |s.origins| == 1
  {
    hide Quiescent, Reachable;
    s := FirstMessageSettles(t, v, Origin(Multicast, true));
    id := Id(v, 0);
  }

  /** A broadcast goes out on every connection of its origin, whatever the TTL, in every run. */
  lemma BroadcastIsSent(t: Net, s: State, id: Id, p: Port)
    requires t.Valid() && Reachable(t, s) && Quiescent(s) && IsBroadcast(s.origins, id) && p in t.PortsOf(id.origin)
    ensures Token(id, p, Broadcasting) in s.log.sent
    ensures id !in s.log.lost ==> Key(p.Far(), id) in s.table
  {
    ReachablePasses(t, s);
    QuiescentLoops(t, s);
    DueIsDone(t, s, id);
    var tok := Token(id, p, Broadcasting);
    assert tok in DueTokens(t, s, id);
    assert tok in TokensOf(s.log.done, id);
    assert tok !in s.log.skipped;
    assert tok in s.log.sent;
    assert !InFlight(s.wire, p, id);
  }

  /** On every network, any node can broadcast a message with a private address, and there is a run after
      which it has gone out on all its connections and all its neighbours have recorded it. */
  lemma BroadcastSettles(t: Net, v: Node) returns (s: State, id: Id)
    requires t.Valid() && v in t.nodes
    ensures Reachable(t, s) && Quiescent(s) && id.origin == v && IsBroadcast(s.origins, id) && IsRoutable(s.origins, id)
    ensures forall p <- t.PortsOf(v) :: Token(id, p, Broadcasting) in s.log.sent && Key(p.Far(), id) in s.table
  {
    hide Quiescent, Reachable;
    s := FirstMessageSettles(t, v, Origin(Broadcast, true));
    id := Id(v, 0);
    forall p <- t.PortsOf(v) ensures Token(id, p, Broadcasting) in s.log.sent && Key(p.Far(), id) in s.table {
      BroadcastIsSent(t, s, id, p);
    }
  }

  /** So on every network with a node of 255 connections or more, the TTL does run out in some run: the
      node is left with a connection on which the message never goes out. With fewer it is not. */
  lemma TtlRunsOut(t: Net, v: Node) returns (s: State, id: Id)
    requires t.Valid() && v in t.nodes && |t.PortsOf(v)| < 0x1_0000_0000
    ensures Reachable(t, s) && Quiescent(s) && id.origin == v && IsCaptured(s, id)
    ensures |PassTokens(s.log.skipped, Key(v, id))| == if |t.PortsOf(v)| >= 255 then 1 else 0
    ensures |t.PortsOf(v)| > 255 ==> id in s.log.wrapped
  {
    hide Quiescent, Reachable, IsCaptured, PassTokens, t.PortsOf;
    s, id := CaptureSettles(t, v);
    OriginSkipsExactly(t, s, id);
  }

  // ---------- does an origin hear its own broadcast? ----------

  /** Sent and skipped iterations are different ones. */
  lemma SentIsNotSkipped(t: Net, s: State, tok: Token)
    requires Books(s.sendq, s.log.sent, s.log.skipped, s.log.done) && tok in s.log.sent
    ensures tok !in s.log.skipped && tok in s.log.done
  {
    assert multiset(s.log.done)[tok] == multiset(Tokens(s.sendq))[tok] + multiset(s.log.sent)[tok] + multiset(s.log.skipped)[tok];
    assert multiset(s.log.sent)[tok] >= 1;
  }

  /** Who sent a message to the node that recorded it. */
  lemma SourceExactly(t: Net, s: State, k: Key)
    requires Inv(t, s) && Sourced(s) && k in s.table && s.table[k].Some?
    ensures var p := s.table[k].value;
      && p in t.PortsOf(k.node)
      && (Token(k.id, p.Peer(), Forwarding) in s.log.sent
          || (Token(k.id, p.Peer(), Broadcasting) in s.log.sent && IsBroadcast(s.origins, k.id) && p.Far() == k.id.origin))
  {
    assert SourcesSeen(t, s.table);
    var p := s.table[k].value;
    assert SentOn(s.log.sent, p.Peer(), k.id);
    if tok :| tok == Token(k.id, p.Peer(), Broadcasting) && tok in s.log.sent {
      SentIsNotSkipped(t, s, tok);
    }
  }

  /** A neighbour that has the message of this origin from elsewhere, or the origin itself. */
  ghost predicate Echoes(s: State, id: Id, p: Port) {
    var k := Key(p.Far(), id);
    p.Far() == id.origin || (k in s.table && s.table[k] != Some(p.Peer()))
  }

  /** Whether an origin records its own broadcast: at quiescence it has, if nothing was skipped or
      rejected, if and only if it has a connection to itself, or some neighbour recorded the message as
      coming over another connection than the one between the two. */
  lemma BroadcasterHearsItself(t: Net, s: State, id: Id)
    requires t.Valid() && Reachable(t, s) && Quiescent(s) && IsRoutable(s.origins, id) && Undisturbed(s, id)
    requires IsBroadcast(s.origins, id)
    ensures Key(id.origin, id) in s.table <==> exists p :: p in t.PortsOf(id.origin) && Echoes(s, id, p)
  {
    ReachableIsSourced(t, s);
    var k := Key(id.origin, id);
    if k in s.table {
      assert s.table[k].Some?;
      SourceExactly(t, s, k);
      EchoFrom(t, s, id, s.table[k].value);
    }
    hide Inv, Sourced, Reachable, Quiescent;
    if p :| p in t.PortsOf(id.origin) && Echoes(s, id, p) {
      EchoReturns(t, s, id, p);
    }
  }

  lemma EchoFrom(t: Net, s: State, id: Id, p: Port)
    requires Inv(t, s) && p in t.PortsOf(id.origin)
    requires Token(id, p.Peer(), Forwarding) in s.log.sent
             || (Token(id, p.Peer(), Broadcasting) in s.log.sent && p.Far() == id.origin)
    ensures Echoes(s, id, p)
  {
    if p.Far() != id.origin {
      SentIsNotSkipped(t, s, Token(id, p.Peer(), Forwarding));
      assert p.Peer().Owner() == p.Far();
    }
  }

  lemma EchoReturns(t: Net, s: State, id: Id, p: Port)
    requires t.Valid() && Inv(t, s) && Quiescent(s) && IsRoutable(s.origins, id) && Undisturbed(s, id)
    requires IsBroadcast(s.origins, id) && p in t.PortsOf(id.origin) && Echoes(s, id, p)
    ensures Key(id.origin, id) in s.table
  {
    AtFarEnd(t, p);
    QuiescentLoops(t, s);
    DueIsDone(t, s, id);
    var tok := if p.Far() == id.origin then Token(id, p, Broadcasting) else Token(id, p.Peer(), Forwarding);
    assert tok in DueTokens(t, s, id);
    assert tok in TokensOf(s.log.done, id);
    assert tok !in TokensOf(s.log.skipped, id);
    assert tok in s.log.sent;
    assert !InFlight(s.wire, tok.port, id);
  }
}
