/** Coverage from the paths of the network: if on every path from the origin that does not visit a node
    twice the degrees add up to less than 255, no interleaving exhausts the TTL. */
module FloodPaths {
  import opened Wrappers
  import opened Sequences
  import opened Topology
  import opened Ttl
  import opened Configs
  import opened FloodNetwork
  import opened FloodInvariants
  import opened FloodTheorems
  import opened FloodPasses
  import opened FloodCapacity
  import opened FloodCopies
  import opened FloodHops
  import opened FloodOrigins
  import opened FloodStar

  ghost function Degree(t: Net, v: Node): nat {
    |t.PortsOf(v)|
  }

  /** What a pass at a node in the middle of a path can cost: its degree without the way in. */
  ghost function Passing(t: Net, v: Node): nat {
    if Degree(t, v) == 0 then 0 else Degree(t, v) - 1
  }

  ghost function Toll(t: Net, path: seq<Port>): nat {
    if path == [] then 0 else Toll(t, path[..|path| - 1]) + Passing(t, path[|path| - 1].Far())
  }

  /** The path enters no node twice. */
  ghost predicate Simple(path: seq<Port>) {
    forall i, j | 0 <= i < j < |path| :: path[i].Far() != path[j].Far()
  }

  ghost predicate Enters(path: seq<Port>, v: Node) {
    exists i :: 0 <= i < |path| && path[i].Far() == v
  }

  /** Every path from `o` is affordable: the degree of `o` and the tolls of the nodes entered stay below
      255. A captured message does not come back to its origin; a broadcast may, once. */
  ghost predicate Affords(t: Net, o: Node, kind: Kind) {
    forall path, w | t.IsPath(o, path, w) && Simple(path) && (kind == Multicast ==> !Enters(path, o)) ::
      Degree(t, o) + Toll(t, path) < MAX_DISCOVERY_MESSAGE_TTL
  }

  /** The TTL spent on the way along a path. */
  ghost function Spent(t: Net, o: Node, path: seq<Port>): nat {
    if path == [] then 0 else Degree(t, o) + Toll(t, path[..|path| - 1])
  }

  ghost predicate AllEntered(arrivals: Arrivals, id: Id, path: seq<Port>) {
    forall i | 0 <= i < |path| :: Key(path[i].Far(), id) in arrivals
  }

  /** A path along nodes that recorded `id`, which a copy that carries `ttl` at `v` can have taken. */
  ghost predicate Route(t: Net, arrivals: Arrivals, id: Id, kind: Kind, v: Node, ttl: uint32, path: seq<Port>) {
    && t.IsPath(id.origin, path, v) && Simple(path) && AllEntered(arrivals, id, path)
    && (kind == Multicast ==> !Enters(path, id.origin) && Key(id.origin, id) in arrivals)
    && ttl + Spent(t, id.origin, path) >= MAX_DISCOVERY_MESSAGE_TTL
  }

  ghost predicate Routed(t: Net, table: Table, arrivals: Arrivals, k: Key, kind: Kind) {
    k in table && k in arrivals
    && exists path :: Route(t, arrivals, k.id, kind, k.node, arrivals[k].ttl, path) && (path == [] <==> table[k] == None)
  }

  ghost predicate AllRouted(t: Net, origins: Origins, table: Table, arrivals: Arrivals) {
    forall k <- arrivals | k.id in origins && Affords(t, k.id.origin, origins[k.id].kind) ::
      Routed(t, table, arrivals, k, origins[k.id].kind)
  }

  // ---------- one more hop ----------

  lemma TollExtends(t: Net, path: seq<Port>, p: Port)
    ensures Toll(t, path + [p]) == Toll(t, path) + Passing(t, p.Far())
    ensures forall o :: Spent(t, o, path + [p]) == Degree(t, o) + Toll(t, path)
  {
    assert (path + [p])[..|path|] == path;
  }

  lemma SpentAndPassing(t: Net, o: Node, path: seq<Port>)
    requires path != []
    ensures Degree(t, o) + Toll(t, path) == Spent(t, o, path) + Passing(t, path[|path| - 1].Far())
  {}

  lemma {:induction false} PathEnd(t: Net, a: Node, path: seq<Port>, b: Node)
    requires t.IsPath(a, path, b)
    ensures if path == [] then a == b else path[|path| - 1].Far() == b
    decreases |path|
  {
    if |path| > 1 {
      PathEnd(t, path[0].Far(), path[1..], b);
    }
  }

  /** A node that got the message from a neighbour has one connection less to serve than it has. */
  lemma DueIsPassing(t: Net, s: State, k: Key)
    requires Inv(t, s) && k in s.table
    ensures |DuePorts(t, s, k)| == if s.table[k] == None then Degree(t, k.node) else Passing(t, k.node)
  {
    assert SourcesSeen(t, s.table);
    if s.table[k].Some? {
      assert DuePorts(t, s, k) == t.PortsOf(k.node) - {s.table[k].value};
      assert s.table[k].value in t.PortsOf(k.node);
    } else {
      assert DuePorts(t, s, k) == t.PortsOf(k.node);
    }
  }

  /** The TTL with which an affordable message arrived exceeds the connections to serve. */
  lemma RouteLeavesTtl(t: Net, s: State, k: Key, path: seq<Port>)
    requires Inv(t, s) && k in s.table && k in s.log.arrivals && k.id in s.origins && Affords(t, k.id.origin, s.origins[k.id].kind)
    requires Route(t, s.log.arrivals, k.id, s.origins[k.id].kind, k.node, s.log.arrivals[k].ttl, path) && (path == [] <==> s.table[k] == None)
    ensures var T, n, o := s.log.arrivals[k].ttl, |DuePorts(t, s, k)|, k.id.origin;
      T > n && T - n + Degree(t, o) + Toll(t, path) >= MAX_DISCOVERY_MESSAGE_TTL && n < MAX_DISCOVERY_MESSAGE_TTL
  {
    var o := k.id.origin;
    DueIsPassing(t, s, k);
    PathEnd(t, o, path, k.node);
    assert Degree(t, o) + Toll(t, path) < MAX_DISCOVERY_MESSAGE_TTL;
    hide Inv, Affords, Degree, Passing, DuePorts;
    if path != [] { SpentAndPassing(t, o, path); }
  }

  lemma SimpleExtends(arrivals: Arrivals, id: Id, path: seq<Port>, p: Port)
    requires Simple(path) && AllEntered(arrivals, id, path) && Key(p.Far(), id) !in arrivals
    ensures Simple(path + [p])
    ensures forall v :: Enters(path + [p], v) ==> Enters(path, v) || v == p.Far()
  {
    forall v | Enters(path + [p], v) ensures Enters(path, v) || v == p.Far() {
      var i :| 0 <= i < |path| + 1 && (path + [p])[i].Far() == v;
      if i < |path| { assert path[i].Far() == v; }
    }
  }

  /** What is known of a copy on a link: a route to the node before, extended by the link. */
  ghost predicate Heads(t: Net, arrivals: Arrivals, id: Id, kind: Kind, q: Packet, path: seq<Port>) {
    && t.IsPath(id.origin, path, q.port.Far()) && Simple(path)
    && (forall i | 0 <= i < |path| :: Key(path[i].Far(), id) in arrivals || path[i].Far() == q.port.Far())
    && (kind == Multicast ==> !Enters(path, id.origin) && Key(id.origin, id) in arrivals)
    && q.ttl + Spent(t, id.origin, path) >= MAX_DISCOVERY_MESSAGE_TTL
  }

  lemma RouteExtends(t: Net, arrivals: Arrivals, kind: Kind, q: Packet, T: uint32, n: nat, way: seq<Port>)
    requires Route(t, arrivals, q.id, kind, q.port.Owner(), T, way) && q.port in t.Ports() && Key(q.port.Far(), q.id) !in arrivals
    requires T - n + Degree(t, q.id.origin) + Toll(t, way) >= MAX_DISCOVERY_MESSAGE_TTL && q.ttl >= T - n
    ensures Heads(t, arrivals, q.id, kind, q, way + [q.port])
  {
    TollExtends(t, way, q.port);
    PathExtends(t, q.id.origin, way, q.port);
    SimpleExtends(arrivals, q.id, way, q.port);
    hide Degree, Toll, Spent, Simple, Enters, t.IsPath, t.Ports;
    assert forall i | 0 <= i < |way| :: (way + [q.port])[i] == way[i];
  }

  lemma RouteOf(t: Net, s: State, k: Key) returns (way: seq<Port>)
    requires AllRouted(t, s.origins, s.table, s.log.arrivals) && k in s.log.arrivals
    requires k.id in s.origins && Affords(t, k.id.origin, s.origins[k.id].kind)
    ensures k in s.table && (way == [] <==> s.table[k] == None)
    ensures Route(t, s.log.arrivals, k.id, s.origins[k.id].kind, k.node, s.log.arrivals[k].ttl, way)
  {
    hide Affords, Route;
    assert Routed(t, s.table, s.log.arrivals, k, s.origins[k.id].kind);
    way :| Route(t, s.log.arrivals, k.id, s.origins[k.id].kind, k.node, s.log.arrivals[k].ttl, way) && (way == [] <==> s.table[k] == None);
  }

  /** A copy that a forwarding pass put on a link has a route one link longer. */
  lemma ForwardedRoute(t: Net, s: State, i: nat) returns (path: seq<Port>)
    requires t.Valid() && Inv(t, s) && Tracked(s) && AllRouted(t, s.origins, s.table, s.log.arrivals)
    requires i < |s.wire| && s.wire[i].phase == Forwarding
    requires var q := s.wire[i]; q.id in s.origins && Affords(t, q.id.origin, s.origins[q.id].kind) && Key(q.port.Far(), q.id) !in s.log.arrivals
    ensures var q := s.wire[i]; path != [] && Heads(t, s.log.arrivals, q.id, s.origins[q.id].kind, q, path)
  {
    assert Shape(t, s);
    hide Inv, Shape, Tracked, AllRouted, Affords, DuePorts, Degree, Toll, Spent, Route, Heads, t.Ports;
    var q := s.wire[i];
    var k, kind := Key(q.port.Owner(), q.id), s.origins[q.id].kind;
    CopyOfPass(t, s, i);
    PacketIsIssued(t, s, i);
    var way := RouteOf(t, s, k);
    RouteLeavesTtl(t, s, k, way);
    path := way + [q.port];
    RouteExtends(t, s.log.arrivals, kind, q, s.log.arrivals[k].ttl, |DuePorts(t, s, k)|, way);
  }

  lemma AffordedDegree(t: Net, o: Node, kind: Kind)
    requires Affords(t, o, kind)
    ensures Degree(t, o) < MAX_DISCOVERY_MESSAGE_TTL
  {
    assert t.IsPath(o, [], o) && Toll(t, []) == 0 && !Enters([], o);
  }

  lemma BroadcastIsAtOrigin(t: Net, s: State, i: nat)
    requires Inv(t, s) && Sourced(s) && i < |s.wire| && s.wire[i].phase == Broadcasting
    ensures s.wire[i].port in t.Ports() && s.wire[i].port.Owner() == s.wire[i].id.origin
  {
    var q := s.wire[i];
    assert Token(q.id, q.port, q.phase) in s.log.sent;
    SentIsNotSkipped(t, s, Token(q.id, q.port, q.phase));
  }

  /** So does one from the broadcaster. */
  lemma BroadcastRoute(t: Net, s: State, i: nat) returns (path: seq<Port>)
    requires t.Valid() && Inv(t, s) && Tracked(s) && Sourced(s)
    requires i < |s.wire| && s.wire[i].phase == Broadcasting
    requires var q := s.wire[i]; q.id in s.origins && Affords(t, q.id.origin, s.origins[q.id].kind)
    ensures var q := s.wire[i]; path != [] && Heads(t, s.log.arrivals, q.id, s.origins[q.id].kind, q, path)
  {
    hide Inv, Tracked, Sourced, Passing, Affords, Degree, t.Ports, t.Valid;
    var q := s.wire[i];
    CopyOfCast(t, s, i);
    BroadcastIsAtOrigin(t, s, i);
    AffordedDegree(t, q.id.origin, s.origins[q.id].kind);
    path := FirstLink(t, q);
    DegreeIs(t, q.id.origin);
  }

  lemma DegreeIs(t: Net, v: Node)
    ensures Degree(t, v) == |t.PortsOf(v)|
  {}

  lemma FirstLink(t: Net, q: Packet) returns (path: seq<Port>)
    requires q.port in t.Ports() && q.port.Owner() == q.id.origin
    ensures path == [q.port] && t.IsPath(q.id.origin, path, q.port.Far()) && Spent(t, q.id.origin, path) == Degree(t, q.id.origin)
  {
    hide Degree, Passing, t.Ports;
    path := [q.port];
    assert t.IsPath(q.id.origin, [], q.id.origin);
    TollExtends(t, [], q.port);
    assert [] + [q.port] == path;
    PathExtends(t, q.id.origin, [], q.port);
  }

  // ---------- steps and runs ----------

  lemma RouteStays(t: Net, arrivals: Arrivals, id: Id, kind: Kind, v: Node, ttl: uint32, path: seq<Port>, k: Key, a: Arrival)
    requires Route(t, arrivals, id, kind, v, ttl, path)
    ensures Route(t, arrivals[k := a], id, kind, v, ttl, path)
  {
    hide t.IsPath, Simple, Enters, Spent;
  }

  lemma OldStayRouted(t: Net, origins: Origins, table: Table, arrivals: Arrivals, k: Key, a: Arrival, source: Option<Port>, l: Key)
    requires AllRouted(t, origins, table, arrivals) && k !in arrivals && k !in table && l in arrivals
    requires l.id in origins && Affords(t, l.id.origin, origins[l.id].kind)
    ensures Routed(t, table[k := source], arrivals[k := a], l, origins[l.id].kind)
  {
    hide Affords, Route;
    assert Routed(t, table, arrivals, l, origins[l.id].kind);
    var kind := origins[l.id].kind;
    var path :| Route(t, arrivals, l.id, kind, l.node, arrivals[l].ttl, path) && (path == [] <==> table[l] == None);
    RouteStays(t, arrivals, l.id, kind, l.node, arrivals[l].ttl, path, k, a);
  }

  lemma RecordKeepsRouted(t: Net, origins: Origins, table: Table, arrivals: Arrivals, k: Key, a: Arrival, source: Option<Port>)
    requires AllRouted(t, origins, table, arrivals) && k !in arrivals && k !in table && k.id in origins
    requires Affords(t, k.id.origin, origins[k.id].kind) ==> Routed(t, table[k := source], arrivals[k := a], k, origins[k.id].kind)
    ensures AllRouted(t, origins, table[k := source], arrivals[k := a])
  {
    hide Affords, Routed;
    forall l <- arrivals[k := a] | l.id in origins && Affords(t, l.id.origin, origins[l.id].kind)
      ensures Routed(t, table[k := source], arrivals[k := a], l, origins[l.id].kind)
    {
      if l != k { OldStayRouted(t, origins, table, arrivals, k, a, source, l); }
    }
  }

  lemma HeadsIsRoute(t: Net, arrivals: Arrivals, k: Key, a: Arrival, kind: Kind, q: Packet, path: seq<Port>)
    requires Heads(t, arrivals, k.id, kind, q, path) && k.node == q.port.Far() && a.ttl == q.ttl
    ensures Route(t, arrivals[k := a], k.id, kind, k.node, a.ttl, path)
  {
    hide t.IsPath, Simple, Enters, Spent;
  }

  lemma NewIsRouted(t: Net, table: Table, arrivals: Arrivals, k: Key, a: Arrival, source: Option<Port>, kind: Kind, q: Packet, path: seq<Port>)
    requires Heads(t, arrivals, k.id, kind, q, path) && k.node == q.port.Far() && a.ttl == q.ttl && (path == [] <==> source == None)
    ensures Routed(t, table[k := source], arrivals[k := a], k, kind)
  {
    hide Heads, Route;
    HeadsIsRoute(t, arrivals, k, a, kind, q, path);
    assert (arrivals[k := a])[k].ttl == a.ttl && (table[k := source])[k] == source;
  }

  lemma HeadsOf(t: Net, s: State, i: nat) returns (path: seq<Port>)
    requires t.Valid() && Inv(t, s) && Tracked(s) && Sourced(s) && AllRouted(t, s.origins, s.table, s.log.arrivals) && i < |s.wire|
    requires var q := s.wire[i]; q.id in s.origins && Affords(t, q.id.origin, s.origins[q.id].kind) && Key(q.port.Far(), q.id) !in s.log.arrivals
    ensures var q := s.wire[i]; path != [] && Heads(t, s.log.arrivals, q.id, s.origins[q.id].kind, q, path)
  {
    hide *;
    if s.wire[i].phase == Forwarding { path := ForwardedRoute(t, s, i); } else { path := BroadcastRoute(t, s, i); }
  }

  lemma RecordedKeys(t: Net, s: State)
    requires Inv(t, s) && Tracked(s)
    ensures Shape(t, s) && s.log.arrivals.Keys == s.table.Keys
  {
    hide Shape, Once, Relays, Spreads, Copies, Passes, Limited, Chained;
  }

  lemma ReceiveRecords(s: State, i: nat)
    requires i < |s.wire|
    ensures var q, s' := s.wire[i], ApplyReceive(s, i);
      var k, a, source := Key(q.port.Far(), q.id), Arrival(|s.cells|, q.ttl, q.hops), Some(q.port.Peer());
      && s'.origins == s.origins
      && ((s'.table == s.table && s'.log.arrivals == s.log.arrivals)
          || (k !in s.table && s'.table == s.table[k := source] && s'.log.arrivals == s.log.arrivals[k := a]))
  {
    hide LoungeLength;
  }

  lemma ReceiveKeepsRouted(t: Net, s: State, i: nat)
    requires t.Valid() && Inv(t, s) && Tracked(s) && Sourced(s) && AllRouted(t, s.origins, s.table, s.log.arrivals) && i < |s.wire|
    ensures var s' := ApplyReceive(s, i); AllRouted(t, s'.origins, s'.table, s'.log.arrivals)
  {
    hide *;
    var q := s.wire[i];
    var k, a, source := Key(q.port.Far(), q.id), Arrival(|s.cells|, q.ttl, q.hops), Some(q.port.Peer());
    RecordedKeys(t, s);
    PacketIsIssued(t, s, i);
    ReceiveRecords(s, i);
    if k !in s.table {
      if Affords(t, q.id.origin, s.origins[q.id].kind) {
        var path := HeadsOf(t, s, i);
        NewIsRouted(t, s.table, s.log.arrivals, k, a, source, s.origins[q.id].kind, q, path);
      }
      RecordKeepsRouted(t, s.origins, s.table, s.log.arrivals, k, a, source);
    }
  }

  /** Drawing an id changes nothing for what is recorded. */
  lemma OriginsKeepRouted(t: Net, origins: Origins, table: Table, arrivals: Arrivals, id: Id, o: Origin)
    requires AllRouted(t, origins, table, arrivals) && (forall k <- arrivals :: k.id != id)
    ensures AllRouted(t, origins[id := o], table, arrivals)
  {
    hide Affords, Routed;
  }

  lemma FreshIsNotRecorded(t: Net, s: State, v: Node)
    requires Shape(t, s) && s.log.arrivals.Keys == s.table.Keys
    ensures forall k <- s.log.arrivals :: k.id != Id(v, NextSeq(s, v))
  {
    FreshId(t, s, v);
    assert forall k <- s.log.arrivals :: k in s.table && k.id in s.origins;
  }

  lemma CaptureKeepsRouted(t: Net, s: State, v: Node, r: bool)
    requires Shape(t, s) && s.log.arrivals.Keys == s.table.Keys && AllRouted(t, s.origins, s.table, s.log.arrivals)
    ensures var s' := ApplyCapture(s, v, r); AllRouted(t, s'.origins, s'.table, s'.log.arrivals)
  {
    hide Shape, AllRouted, Affords, LoungeLength;
    var m, o := Fresh(s, v, r), Origin(Multicast, r);
    var k, a := Key(v, m.id), Arrival(m.cell, MAX_DISCOVERY_MESSAGE_TTL, 0);
    FreshIsNotRecorded(t, s, v);
    OriginsKeepRouted(t, s.origins, s.table, s.log.arrivals, m.id, o);
    var table', arrivals' := s.table[k := None], s.log.arrivals[k := a];
    assert Route(t, arrivals', m.id, Multicast, v, a.ttl, []);
    assert Routed(t, table', arrivals', k, Multicast);
    hide Routed;
    RecordKeepsRouted(t, s.origins[m.id := o], s.table, s.log.arrivals, k, a, None);
  }

  lemma StartBroadcastKeepsRouted(t: Net, s: State, v: Node, r: bool)
    requires Shape(t, s) && s.log.arrivals.Keys == s.table.Keys && AllRouted(t, s.origins, s.table, s.log.arrivals)
    ensures var s' := ApplyStartBroadcast(t, s, v, r); AllRouted(t, s'.origins, s'.table, s'.log.arrivals)
  {
    hide Shape, AllRouted, Targets;
    FreshIsNotRecorded(t, s, v);
    OriginsKeepRouted(t, s.origins, s.table, s.log.arrivals, Fresh(s, v, r).id, Origin(Broadcast, r));
  }

  lemma StepKeepsRouted(t: Net, s: State, a: Action)
    requires t.Valid() && Inv(t, s) && Tracked(s) && Sourced(s) && Enabled(t, s, a) && AllRouted(t, s.origins, s.table, s.log.arrivals)
    ensures var s' := Apply(t, s, a); AllRouted(t, s'.origins, s'.table, s'.log.arrivals)
  {
    hide Inv, Shape, Tracked, Sourced, AllRouted, Apply, Enabled, ApplyCapture, ApplyStartBroadcast, ApplyReceive, t.Valid, TableKept;
    StepFrame(t, s, a);
    RecordedKeys(t, s);
    if a.Capture? {
      CaptureKeepsRouted(t, s, a.node, a.routable);
    } else if a.StartBroadcast? {
      StartBroadcastKeepsRouted(t, s, a.node, a.routable);
    } else if a.Receive? {
      ReceivedIsThere(t, s, a);
      ReceiveKeepsRouted(t, s, a.index);
    } else {
      StepRecordsNothing(t, s, a);
    }
  }

  lemma StepRecordsNothing(t: Net, s: State, a: Action)
    requires Enabled(t, s, a) && !a.Receive? && !Originates(a)
    ensures var s' := Apply(t, s, a); s'.table == s.table && s'.log.arrivals == s.log.arrivals && s'.origins == s.origins
  {
    hide Apply, Enabled;
    StepLeaves(t, s, a);
    StepKeepsOrigins(t, s, a);
  }

  lemma ReceivedIsThere(t: Net, s: State, a: Action)
    requires Enabled(t, s, a) && a.Receive?
    ensures a.index < |s.wire|
  {}

  lemma {:induction false} RunKeepsRouted(t: Net, s: State, actions: seq<Action>, s': State)
    requires t.Valid() && Inv(t, s) && Tracked(s) && Sourced(s) && IsRun(t, s, actions, s')
    requires AllRouted(t, s.origins, s.table, s.log.arrivals)
    ensures AllRouted(t, s'.origins, s'.table, s'.log.arrivals)
    decreases |actions|
  {
    if actions != [] {
      assert Shape(t, s);
      hide Inv, Shape, Tracked, Sourced, AllRouted;
      StepKeepsInv(t, s, actions[0]);
      StepKeepsTracked(t, s, actions[0]);
      StepKeepsSourced(t, s, actions[0]);
      StepKeepsRouted(t, s, actions[0]);
      RunKeepsRouted(t, Apply(t, s, actions[0]), actions[1..], s');
    }
  }

  lemma ReachableIsRouted(t: Net, s: State)
    requires t.Valid() && Reachable(t, s)
    ensures Inv(t, s) && Tracked(s) && Sourced(s) && AllRouted(t, s.origins, s.table, s.log.arrivals)
  {
    hide Inv, Tracked, t.Valid;
    ReachableIsTracked(t, s);
    ReachableIsSourced(t, s);
    var actions :| IsRun(t, EMPTY, actions, s);
    EmptyHasInv(t);
    EmptyIsTracked();
    RunKeepsRouted(t, EMPTY, actions, s);
  }

  // ---------- what affordable paths are good for ----------

  /** In every reachable state: an affordable message arrives everywhere with a TTL above the number of
      connections to serve there. */
  lemma AffordedTtl(t: Net, s: State, k: Key)
    requires t.Valid() && Reachable(t, s) && k in s.table && k.id in s.origins && Affords(t, k.id.origin, s.origins[k.id].kind)
    ensures k in s.log.arrivals && s.log.arrivals[k].ttl > |DuePorts(t, s, k)|
    ensures |DuePorts(t, s, k)| < MAX_DISCOVERY_MESSAGE_TTL
  {
    ReachableIsRouted(t, s);
    assert s.log.arrivals.Keys == s.table.Keys;
    hide Inv, Tracked, Sourced, Affords, Route, DuePorts, Reachable, AllRouted;
    var path := RouteOf(t, s, k);
    RouteLeavesTtl(t, s, k, path);
  }

  lemma AffordedIsUnskipped(t: Net, s: State, id: Id)
    requires t.Valid() && Reachable(t, s) && Quiescent(s) && IsRoutable(s.origins, id) && Affords(t, id.origin, s.origins[id].kind)
    ensures TokensOf(s.log.skipped, id) == {}
  {
    hide Affords, DuePorts, Quiescent, Reachable, TokensOf;
    forall u | Key(u, id) in s.table ensures s.log.arrivals.Keys == s.table.Keys
      ensures s.log.arrivals[Key(u, id)].ttl > |DuePorts(t, s, Key(u, id))| && |DuePorts(t, s, Key(u, id))| < 0x1_0000_0000
    {
      ReachablePasses(t, s);
      AffordedTtl(t, s, Key(u, id));
    }
    UnskippedExactly(t, s, id);
  }

  /** Coverage and exact traffic from the paths of the network and the number of messages alone. */
  lemma AffordedFloodIsCovered(t: Net, s: State, id: Id, v: Node)
    requires t.Valid() && Reachable(t, s) && Quiescent(s) && IsRoutable(s.origins, id)
    requires |s.origins| <= SWITCH_LOUNGE_SIZE && Affords(t, id.origin, s.origins[id].kind)
    ensures v != id.origin ==> (Key(v, id) in s.table <==> t.Connected(id.origin, v))
    ensures s.origins[id].kind == Multicast ==> Key(id.origin, id) in s.table
    ensures Transmissions(s.log.sent, id) == |DueTokens(t, s, id)|
  {
    hide Affords, Quiescent, Reachable, Transmissions, DueTokens, TokensOf;
    AffordedIsUnskipped(t, s, id);
    NothingIsLost(t, s);
    FloodCovers(t, s, id, v);
    TrafficIsExact(t, s, id);
  }

  /** And in every reachable state no copy of such a message has wrapped or travelled over 254 links. */
  lemma AffordedPathsAreShort(t: Net, s: State, i: nat)
    requires t.Valid() && Reachable(t, s) && i < |s.wire|
    requires var id := s.wire[i].id; id in s.origins && Affords(t, id.origin, s.origins[id].kind)
    ensures s.wire[i].hops <= 254 && s.wire[i].hops + s.wire[i].ttl <= 255
  {
    hide Affords, DuePorts, Reachable;
    var id := s.wire[i].id;
    AffordedDegree(t, id.origin, s.origins[id].kind);
    forall v | Key(v, id) in s.table && Key(v, id) in s.log.arrivals
      ensures s.log.arrivals[Key(v, id)].ttl > |DuePorts(t, s, Key(v, id))|
    {
      AffordedTtl(t, s, Key(v, id));
    }
    AmpleTtlBoundsPaths(t, s, i);
  }

  // ---------- networks with affordable paths ----------

  /** All connections of the nodes that a path enters. */
  ghost function EnteredPorts(t: Net, path: seq<Port>): set<Port> {
    if path == [] then {} else EnteredPorts(t, path[..|path| - 1]) + t.PortsOf(path[|path| - 1].Far())
  }

  lemma {:induction false} EnteredOwners(t: Net, path: seq<Port>)
    ensures EnteredPorts(t, path) <= t.Ports() && forall p <- EnteredPorts(t, path) :: Enters(path, p.Owner())
  {
    if path != [] {
      var m := |path| - 1;
      EnteredOwners(t, path[..m]);
      forall p <- EnteredPorts(t, path) ensures Enters(path, p.Owner()) {
        if p in EnteredPorts(t, path[..m]) {
          var i :| 0 <= i < m && path[..m][i].Far() == p.Owner();
          assert path[i].Far() == p.Owner();
        } else {
          assert path[m].Far() == p.Owner();
        }
      }
    }
  }

  lemma {:induction false} TollIsBounded(t: Net, path: seq<Port>)
    requires Simple(path)
    ensures Toll(t, path) <= |EnteredPorts(t, path)|
  {
    if path != [] {
      var m := |path| - 1;
      TollIsBounded(t, path[..m]);
      EnteredOwners(t, path[..m]);
      hide Enters;
      forall p <- t.PortsOf(path[m].Far()) ensures p !in EnteredPorts(t, path[..m]) {
        assert !Enters(path[..m], p.Owner()) by { NotEntered(path); }
      }
    }
  }

  lemma NotEntered(path: seq<Port>)
    requires Simple(path) && path != []
    ensures !Enters(path[..|path| - 1], path[|path| - 1].Far())
  {}

  /** The condition of SmallFloodIsCovered is a special case: it adds up all degrees. */
  lemma SmallIsAffordable(t: Net, o: Node, kind: Kind)
    requires TrafficBound(t, o) < MAX_DISCOVERY_MESSAGE_TTL
    ensures Affords(t, o, kind)
  {
    forall path, w | t.IsPath(o, path, w) && Simple(path) && (kind == Multicast ==> !Enters(path, o))
      ensures Degree(t, o) + Toll(t, path) < MAX_DISCOVERY_MESSAGE_TTL
    {
      TollIsBounded(t, path);
      EnteredOwners(t, path);
      SubsetCardinality(EnteredPorts(t, path), t.Ports());
    }
  }

  /** And it is exact on stars: what a hub captures has affordable paths if and only if there are fewer
      than 255 leaves, which by FloodStar.StarIsCoveredExactly is when every leaf gets it. */
  lemma StarIsAffordableExactly(t: Net, hub: Node)
    requires IsStar(t, hub)
    ensures Affords(t, hub, Multicast) <==> |Leaves(t, hub)| < 255
  {
    HubDegree(t, hub);
    if Affords(t, hub, Multicast) { AffordedDegree(t, hub, Multicast); }
    forall path, w | t.IsPath(hub, path, w) && Simple(path) && !Enters(path, hub) ensures Toll(t, path) == 0 {
      StarPath(t, hub, path, w);
    }
    hide IsStar, Leaves, Toll, t.IsPath, Simple, Enters;
  }

  lemma SecondLinkReturns(t: Net, hub: Node, path: seq<Port>, w: Node)
    requires IsStar(t, hub) && t.IsPath(hub, path, w) && |path| > 1
    ensures Enters(path, hub)
  {
    LeafAt(t, hub, path[0]);
    assert path[1..][0] in t.PortsOf(path[0].Far());
    assert path[1] == path[0].Peer();
    assert path[1].Far() == hub;
  }

  lemma StarPath(t: Net, hub: Node, path: seq<Port>, w: Node)
    requires IsStar(t, hub) && t.IsPath(hub, path, w) && !Enters(path, hub)
    ensures Toll(t, path) == 0
  {
    if path != [] {
      LeafAt(t, hub, path[0]);
      assert Passing(t, path[0].Far()) == 0;
      if |path| > 1 { SecondLinkReturns(t, hub, path, w); }
      assert |path| == 1 && path[..0] == [];
    }
  }
}
