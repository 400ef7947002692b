/** The star: one hub, every other node connected to it once. Here the limit of 255 is exact. */
module FloodStar {
  import opened Topology
  import opened FloodNetwork
  import opened FloodInvariants
  import opened FloodTheorems
  import opened FloodPasses
  import opened FloodOrigins

  ghost predicate Leaf(t: Net, hub: Node, w: Node) {
    exists p :: t.PortsOf(w) == {p} && p.Far() == hub
  }

  ghost predicate IsStar(t: Net, hub: Node) {
    && t.Valid() && hub in t.nodes
    && (forall w <- t.nodes | w != hub :: Leaf(t, hub, w))
    && (forall p <- t.PortsOf(hub) :: p.Far() != hub)
  }

  ghost function Leaves(t: Net, hub: Node): set<Node> {
    t.nodes - {hub}
  }

  /** The connection of the hub to a leaf. */
  lemma PortTo(t: Net, hub: Node, w: Node) returns (p: Port)
    requires IsStar(t, hub) && w in Leaves(t, hub)
    ensures p in t.PortsOf(hub) && p.Far() == w && t.PortsOf(w) == {p.Peer()}
  {
    assert Leaf(t, hub, w);
    var r :| t.PortsOf(w) == {r} && r.Far() == hub;
    assert r in t.PortsOf(w);
    AtFarEnd(t, r);
    p := r.Peer();
    assert p.Peer() == r;
  }

  lemma LeafAt(t: Net, hub: Node, p: Port)
    requires IsStar(t, hub) && p in t.PortsOf(hub)
    ensures p.Far() in Leaves(t, hub) && t.PortsOf(p.Far()) == {p.Peer()}
  {
    AtFarEnd(t, p);
    assert Leaf(t, hub, p.Far());
    assert p.Peer() in t.PortsOf(p.Far());
  }

  lemma {:induction false} FarEnds(ports: set<Port>)
    requires forall p, q | p in ports && q in ports && p.Far() == q.Far() :: p == q
    ensures |set p | p in ports :: p.Far()| == |ports|
  {
    if ports != {} {
      var p :| p in ports;
      FarEnds(ports - {p});
      assert (set q | q in ports :: q.Far()) == (set q | q in ports - {p} :: q.Far()) + {p.Far()};
    }
  }

  /** The hub has as many connections as there are leaves. */
  lemma HubDegree(t: Net, hub: Node)
    requires IsStar(t, hub)
    ensures |t.PortsOf(hub)| == |Leaves(t, hub)|
  {
    forall p, q | p in t.PortsOf(hub) && q in t.PortsOf(hub) && p.Far() == q.Far() ensures p == q {
      LeafAt(t, hub, p);
      LeafAt(t, hub, q);
      assert p.Peer() in {q.Peer()};
    }
    FarEnds(t.PortsOf(hub));
    forall w ensures w in Leaves(t, hub) <==> w in set p | p in t.PortsOf(hub) :: p.Far() {
      if w in Leaves(t, hub) { var p := PortTo(t, hub, w); }
      if p :| p in t.PortsOf(hub) && p.Far() == w { LeafAt(t, hub, p); }
    }
    assert Leaves(t, hub) == set p | p in t.PortsOf(hub) :: p.Far();
  }

  /** A leaf has a message that the hub captured exactly if the hub did not skip it. */
  lemma LeafHasItExactly(t: Net, s: State, id: Id, p: Port)
    requires IsStar(t, id.origin) && Inv(t, s) && Sourced(s) && Quiescent(s) && IsCaptured(s, id) && p in t.PortsOf(id.origin)
    ensures Key(p.Far(), id) in s.table <==> Token(id, p, Forwarding) !in s.log.skipped
  {
    var hub, k, tok := id.origin, Key(p.Far(), id), Token(id, p, Forwarding);
    LeafAt(t, hub, p);
    if k in s.table {
      assert s.table[k].Some?;
      SourceExactly(t, s, k);
      assert s.table[k].value in {p.Peer()};
      assert p.Peer().Peer() == p;
      SentIsNotSkipped(t, s, tok);
    } else {
      CapturedArrival(t, s, id);
      QuiescentLoops(t, s);
      DueIsDone(t, s, id);
      assert tok in DueTokens(t, s, id);
      assert tok in TokensOf(s.log.done, id);
      assert !InFlight(s.wire, p, id);
    }
  }

  /** The leaves that a message never reached. */
  ghost function Missed(t: Net, s: State, id: Id): set<Node> {
    set w | w in Leaves(t, id.origin) && Key(w, id) !in s.table
  }

  lemma MissedAreSkipped(t: Net, s: State, id: Id)
    requires IsStar(t, id.origin) && Inv(t, s) && Sourced(s) && Quiescent(s) && IsCaptured(s, id)
    ensures |Missed(t, s, id)| == |PassTokens(s.log.skipped, Key(id.origin, id))|
  {
    hide Inv, Sourced, Quiescent, IsCaptured;
    var skipped := set p | p in t.PortsOf(id.origin) && Token(id, p, Forwarding) in s.log.skipped;
    forall p, q | p in skipped && q in skipped && p.Far() == q.Far() ensures p == q {
      LeafAt(t, id.origin, p);
      LeafAt(t, id.origin, q);
      assert p.Peer() in {q.Peer()};
    }
    FarEnds(skipped);
    forall w ensures w in Missed(t, s, id) <==> w in set p | p in skipped :: p.Far() {
      if w in Missed(t, s, id) {
        var p := PortTo(t, id.origin, w);
        LeafHasItExactly(t, s, id, p);
      }
      if p :| p in skipped && p.Far() == w {
        LeafAt(t, id.origin, p);
        LeafHasItExactly(t, s, id, p);
      }
    }
    assert Missed(t, s, id) == set p | p in skipped :: p.Far();
    PortTokens(skipped, id, Forwarding);
    SkippedPorts(t, s, id, skipped);
  }

  lemma SkippedPorts(t: Net, s: State, id: Id, ports: set<Port>)
    requires Inv(t, s) && Sourced(s)
    requires ports == set p | p in t.PortsOf(id.origin) && Token(id, p, Forwarding) in s.log.skipped
    ensures PassTokens(s.log.skipped, Key(id.origin, id)) == set p | p in ports :: Token(id, p, Forwarding)
  {
    forall tok <- PassTokens(s.log.skipped, Key(id.origin, id)) ensures tok.port in ports && tok == Token(id, tok.port, Forwarding) {
      SkippedIsDone(t, s, tok);
    }
  }

  lemma SkippedIsDone(t: Net, s: State, tok: Token)
    requires Shape(t, s) && Relays(t, s) && tok in s.log.skipped
    ensures tok in s.log.done && tok.port in t.Ports()
  {
    assert multiset(s.log.done)[tok] == multiset(Tokens(s.sendq))[tok] + multiset(s.log.sent)[tok] + multiset(s.log.skipped)[tok];
  }

  function LeafNodes(n: nat): (r: set<Node>)
    ensures |r| == n && forall w <- r :: 1 <= w <= n
  {
    if n == 0 then {} else LeafNodes(n - 1) + {n}
  }

  /** A star with `n` leaves, around node 0. */
  function Star(n: nat, window: nat): Net {
    Net({0} + LeafNodes(n), set w | w in LeafNodes(n) :: Link(0, w, 0), window)
  }

  /** There are stars of any size. */
  lemma StarIsStar(n: nat, window: nat)
    requires window >= 1
    ensures IsStar(Star(n, window), 0) && |Leaves(Star(n, window), 0)| == n
  {
    var t := Star(n, window);
    forall w <- LeafNodes(n) ensures Leaf(t, 0, w) {
      var p := Port(Link(0, w, 0), false);
      assert p in t.Ports();
      forall q <- t.PortsOf(w) ensures q == p {}
      assert t.PortsOf(w) == {p};
    }
    forall p <- t.PortsOf(0) ensures p.Far() != 0 {}
    assert Leaves(t, 0) == LeafNodes(n);
  }

  /** In every run on a star, once the network is quiescent, a message captured at the hub has missed
      exactly one leaf if there are 255 leaves or more, and none if there are fewer. */
  lemma StarMisses(t: Net, s: State, id: Id)
    requires IsStar(t, id.origin) && |Leaves(t, id.origin)| < 0x1_0000_0000
    requires Reachable(t, s) && Quiescent(s) && IsCaptured(s, id)
    ensures |Missed(t, s, id)| == if |Leaves(t, id.origin)| >= 255 then 1 else 0
  {
    hide Inv, Sourced, Reachable, Quiescent, IsCaptured, PassTokens, Missed, Leaves;
    assert t.Valid();
    hide IsStar;
    HubDegree(t, id.origin);
    ReachableIsSourced(t, s);
    MissedAreSkipped(t, s, id);
    OriginSkipsExactly(t, s, id);
  }

  /** So the limit on coverage is exact: every leaf records the message if and only if there are fewer
      than 255 of them. */
  lemma StarIsCoveredExactly(t: Net, s: State, id: Id)
    requires IsStar(t, id.origin) && |Leaves(t, id.origin)| < 0x1_0000_0000
    requires Reachable(t, s) && Quiescent(s) && IsCaptured(s, id)
    ensures (forall w <- Leaves(t, id.origin) :: Key(w, id) in s.table) <==> |Leaves(t, id.origin)| < 255
  {
    hide IsStar, Reachable, Quiescent, IsCaptured, Leaves;
    StarMisses(t, s, id);
    assert forall w <- Leaves(t, id.origin) :: Key(w, id) in s.table || w in Missed(t, s, id);
  }

  /** And such a run exists on every star: with 255 leaves or more a message is lost on the way to one. */
  lemma LargeStarLoses(t: Net, hub: Node) returns (s: State, id: Id, w: Node)
    requires IsStar(t, hub) && 255 <= |Leaves(t, hub)| < 0x1_0000_0000
    ensures Reachable(t, s) && Quiescent(s) && id.origin == hub && IsCaptured(s, id)
    ensures w in t.nodes && t.Connected(hub, w) && Key(w, id) !in s.table
  {
    s, id := CaptureSettles(t, hub);
    hide Reachable, Quiescent, IsCaptured;
    StarMisses(t, s, id);
    w :| w in Missed(t, s, id);
    var p := PortTo(t, hub, w);
    assert t.IsPath(p.Far(), [], w) && [p][1..] == [];
    assert t.IsPath(hub, [p], w);
  }
}
