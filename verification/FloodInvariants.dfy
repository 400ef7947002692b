/** What every step of the flood protocol keeps. Each part of the invariant is stated over the
    components of the state it reads, so a step that leaves those alone keeps it for free. */
module FloodInvariants {
  import opened Wrappers
  import opened Sequences
  import opened Topology
  import opened Ttl
  import opened FloodNetwork

  type Origins = map<Id, Origin>
  type Table = map<Key, Option<Port>>
  type Todo = map<Port, Message>

  // ---------- ids, cells and ports in use were issued ----------

  ghost predicate Handle(origins: Origins, cells: seq<Cell>, m: Message) {
    && m.id in origins && m.routable == origins[m.id].routable
    && m.cell < |cells| && cells[m.cell].id == m.id
  }

  ghost predicate LoungeShape(t: Net, origins: Origins, cells: seq<Cell>, lounge: seq<Waiting>) {
    forall i | 0 <= i < |lounge| :: lounge[i].node in t.nodes && Handle(origins, cells, lounge[i].msg)
  }

  ghost predicate TodoShape(t: Net, origins: Origins, cells: seq<Cell>, todo: Todo, busy: set<Node>) {
    && busy <= t.nodes
    && (forall p <- todo :: p in t.Ports() && p.Owner() in busy && Handle(origins, cells, todo[p]))
  }

  ghost predicate SendqShape(t: Net, origins: Origins, cells: seq<Cell>, sendq: seq<Slot>) {
    forall i | 0 <= i < |sendq| :: sendq[i].port in t.Ports() && Handle(origins, cells, sendq[i].msg)
  }

  ghost predicate WireShape(t: Net, origins: Origins, wire: seq<Packet>) {
    forall i | 0 <= i < |wire| ::
      wire[i].port in t.Ports() && wire[i].id in origins && wire[i].routable == origins[wire[i].id].routable
  }

  ghost predicate Issued(t: Net, nextSeq: map<Node, nat>, origins: Origins) {
    forall id <- origins :: id.origin in t.nodes && id.origin in nextSeq && id.seqNo < nextSeq[id.origin]
  }

  ghost predicate CellShape(origins: Origins, cells: seq<Cell>) {
    forall i | 0 <= i < |cells| :: cells[i].id in origins
  }

  ghost predicate KeyShape(t: Net, origins: Origins, table: Table) {
    forall k <- table :: k.node in t.nodes && k.id in origins
  }

  ghost predicate DoneShape(t: Net, origins: Origins, done: set<Token>) {
    forall tok <- done :: tok.port in t.Ports() && tok.id in origins
  }

  ghost predicate Shape(t: Net, s: State) {
    && Issued(t, s.nextSeq, s.origins)
    && CellShape(s.origins, s.cells)
    && LoungeShape(t, s.origins, s.cells, s.lounge)
    && TodoShape(t, s.origins, s.cells, s.fwdTodo, s.forwarding)
    && TodoShape(t, s.origins, s.cells, s.bcastTodo, s.broadcasting)
    && SendqShape(t, s.origins, s.cells, s.sendq)
    && WireShape(t, s.origins, s.wire)
    && KeyShape(t, s.origins, s.table)
    && DoneShape(t, s.origins, s.log.done)
  }

  // ---------- dedup: each node forwards an id at most once per connection ----------

  function Waits(w: Waiting): Key {
    Key(w.node, w.msg.id)
  }

  ghost predicate Arrived(table: Table, k: Key, source: Option<Port>) {
    k in table && table[k] == source
  }

  /** A recorded id is in the lounge exactly once until the forwarder takes it. */
  ghost predicate Lounged(table: Table, started: set<Key>, lounge: seq<Waiting>) {
    && started <= table.Keys
    && (forall i, j | 0 <= i < j < |lounge| :: Waits(lounge[i]) != Waits(lounge[j]))
    && (forall i | 0 <= i < |lounge| ::
          Waits(lounge[i]) !in started && Arrived(table, Waits(lounge[i]), lounge[i].msg.source))
    && (forall k <- table | k !in started :: exists i :: 0 <= i < |lounge| && Waits(lounge[i]) == k)
  }

  ghost predicate IsRoutable(origins: Origins, id: Id) {
    id in origins && origins[id].routable
  }

  /** A forwarding loop serves a recorded id with a private origin, on connections not served yet,
      and never on the connection the message came from. */
  ghost predicate ForwardsOnce(origins: Origins, table: Table, started: set<Key>, todo: Todo, done: set<Token>) {
    && (forall p <- todo :: var m := todo[p];
          && Key(p.Owner(), m.id) in started && Arrived(table, Key(p.Owner(), m.id), m.source)
          && m.source != Some(p) && IsRoutable(origins, m.id) && Token(m.id, p, Forwarding) !in done)
    && (forall tok <- done | tok.phase == Forwarding ::
          var k := Key(tok.port.Owner(), tok.id);
          k in started && !Arrived(table, k, Some(tok.port)) && IsRoutable(origins, tok.id))
  }

  ghost predicate IsBroadcast(origins: Origins, id: Id) {
    id in origins && origins[id].kind == Broadcast
  }

  ghost predicate BroadcastsOnce(origins: Origins, todo: Todo, done: set<Token>) {
    && (forall p <- todo :: var m := todo[p];
          m.id.origin == p.Owner() && IsBroadcast(origins, m.id) && Token(m.id, p, Broadcasting) !in done)
    && (forall tok <- done | tok.phase == Broadcasting ::
          tok.id.origin == tok.port.Owner() && IsBroadcast(origins, tok.id))
  }

  // ---------- relaying: nothing is forgotten ----------

  /** The forwarder of the owner of `p` has begun on `id` and must serve `p`: the message may be
      forwarded and did not arrive through `p`. */
  ghost predicate Owes(origins: Origins, table: Table, started: set<Key>, p: Port, id: Id) {
    var k := Key(p.Owner(), id);
    IsRoutable(origins, id) && k in started && k in table && table[k] != Some(p)
  }

  ghost predicate Promised(todo: Todo, p: Port, id: Id) {
    p in todo && todo[p].id == id
  }

  ghost predicate RelaysForward(t: Net, origins: Origins, table: Table, started: set<Key>, todo: Todo, done: set<Token>) {
    forall p, id | p in t.Ports() && Owes(origins, table, started, p, id) ::
      Token(id, p, Forwarding) in done || Promised(todo, p, id)
  }

  ghost predicate RelaysBroadcast(t: Net, origins: Origins, todo: Todo, done: set<Token>) {
    forall p, id | p in t.Ports() && IsBroadcast(origins, id) && p.Owner() == id.origin ::
      Token(id, p, Broadcasting) in done || Promised(todo, p, id)
  }

  function Tokens(sendq: seq<Slot>): (r: seq<Token>)
    ensures |r| == |sendq| && forall i | 0 <= i < |r| :: r[i] == sendq[i].Tok()
  {
    if sendq == [] then [] else [sendq[0].Tok()] + Tokens(sendq[1..])
  }

  /** Every iteration was skipped, waits in a send channel, or was transmitted - exactly one of
      these, and once. */
  ghost predicate Books(sendq: seq<Slot>, sent: seq<Token>, skipped: set<Token>, done: set<Token>) {
    multiset(Tokens(sendq)) + multiset(sent) + multiset(skipped) == multiset(done)
  }

  ghost predicate InFlight(wire: seq<Packet>, p: Port, id: Id) {
    exists i :: 0 <= i < |wire| && wire[i].port == p && wire[i].id == id
  }

  /** What was transmitted is recorded at the far end, still on the link, or was rejected there. */
  ghost predicate Delivers(table: Table, wire: seq<Packet>, sent: seq<Token>, lost: set<Id>) {
    forall tok <- sent | tok.id !in lost ::
      Key(tok.port.Far(), tok.id) in table || InFlight(wire, tok.port, tok.id)
  }

  /** `v` has the message: it recorded the id, or it is where the message comes from. */
  ghost predicate Seen(table: Table, v: Node, id: Id) {
    Key(v, id) in table || v == id.origin
  }

  /** Messages come from nodes that have them. */
  ghost predicate SourcesSeen(t: Net, table: Table) {
    forall k <- table | table[k].Some? ::
      table[k].value in t.Ports() && table[k].value.Owner() == k.node && Seen(table, table[k].value.Far(), k.id)
  }

  ghost predicate SendersSeen(table: Table, wire: seq<Packet>) {
    forall i | 0 <= i < |wire| :: Seen(table, wire[i].port.Owner(), wire[i].id)
  }

  /** A captured message is in its origin's own table. */
  ghost predicate Captured(origins: Origins, table: Table, lost: set<Id>) {
    forall id <- origins | origins[id].kind == Multicast && id !in lost :: Arrived(table, Key(id.origin, id), None)
  }

  ghost predicate Once(s: State) {
    && Lounged(s.table, s.log.started, s.lounge)
    && ForwardsOnce(s.origins, s.table, s.log.started, s.fwdTodo, s.log.done)
    && BroadcastsOnce(s.origins, s.bcastTodo, s.log.done)
  }

  ghost predicate Relays(t: Net, s: State) {
    && RelaysForward(t, s.origins, s.table, s.log.started, s.fwdTodo, s.log.done)
    && RelaysBroadcast(t, s.origins, s.bcastTodo, s.log.done)
    && Books(s.sendq, s.log.sent, s.log.skipped, s.log.done)
  }

  ghost predicate Spreads(t: Net, s: State) {
    && Delivers(s.table, s.wire, s.log.sent, s.log.lost)
    && SourcesSeen(t, s.table) && SendersSeen(s.table, s.wire)
    && Captured(s.origins, s.table, s.log.lost)
  }

  ghost predicate Inv(t: Net, s: State) {
    Shape(t, s) && Once(s) && Relays(t, s) && Spreads(t, s)
  }

  lemma EmptyHasInv(t: Net)
    ensures Inv(t, EMPTY)
  {}

  // ---------- drawing an id ----------

  lemma FreshId(t: Net, s: State, v: Node)
    requires Shape(t, s)
    ensures var id := Id(v, NextSeq(s, v)); id !in s.origins && forall u :: Key(u, id) !in s.table
  {}

  lemma IssueKeepsShape(t: Net, s: State, v: Node, o: Origin)
    requires Shape(t, s) && v in t.nodes
    ensures Shape(t, Issue(s, v, o))
  {
    FreshId(t, s, v);
  }

  lemma IssueKeepsOnce(t: Net, s: State, v: Node, o: Origin)
    requires Shape(t, s) && Once(s)
    ensures Once(Issue(s, v, o))
  {
    hide Lounged, ForwardsOnce, BroadcastsOnce, Shape;
    FreshId(t, s, v);
    OriginsGrow(s.origins, Id(v, NextSeq(s, v)), o, s.table, s.log.started, s.fwdTodo, s.bcastTodo, s.log.done);
  }

  lemma IssueKeepsRelays(t: Net, s: State, v: Node, o: Origin)
    requires Shape(t, s) && Once(s) && Relays(t, s) && o.kind == Multicast
    ensures Relays(t, Issue(s, v, o))
  {
    FreshId(t, s, v);
  }

  // ---------- writing to a lounge ----------

  ghost predicate Acceptable(t: Net, s: State, v: Node, m: Message) {
    && v in t.nodes && Key(v, m.id) !in s.table && m.cell == |s.cells|
    && m.id in s.origins && m.routable == s.origins[m.id].routable
  }

  lemma AcceptKeepsShape(t: Net, s: State, v: Node, m: Message, ttl: uint32, hops: nat)
    requires Shape(t, s) && Acceptable(t, s, v, m)
    ensures Shape(t, Accept(s, v, m, ttl, hops))
  {}

  lemma LoungedWithNew(table: Table, started: set<Key>, lounge: seq<Waiting>, w: Waiting)
    requires Lounged(table, started, lounge) && Waits(w) !in table
    ensures Lounged(table[Waits(w) := w.msg.source], started, lounge + [w])
  {
    var l := lounge + [w];
    forall k <- table[Waits(w) := w.msg.source] | k !in started
      ensures exists i :: 0 <= i < |l| && Waits(l[i]) == k
    {
      if k == Waits(w) {
        assert Waits(l[|lounge|]) == k;
      } else {
        var i :| 0 <= i < |lounge| && Waits(lounge[i]) == k;
        assert Waits(l[i]) == k;
      }
    }
  }

  lemma LoungedWithout(table: Table, started: set<Key>, lounge: seq<Waiting>, i: nat)
    requires Lounged(table, started, lounge) && i < |lounge|
    ensures Lounged(table, started + {Waits(lounge[i])}, RemoveAt(lounge, i))
  {
    var l := RemoveAt(lounge, i);
    forall k <- table | k !in started + {Waits(lounge[i])}
      ensures exists j :: 0 <= j < |l| && Waits(l[j]) == k
    {
      var j :| 0 <= j < |lounge| && Waits(lounge[j]) == k;
      assert Waits(l[if j < i then j else j - 1]) == k;
    }
  }

  lemma AcceptKeepsOnce(t: Net, s: State, v: Node, m: Message, ttl: uint32, hops: nat)
    requires Shape(t, s) && Once(s) && Acceptable(t, s, v, m)
    ensures Once(Accept(s, v, m, ttl, hops))
  {
    LoungedWithNew(s.table, s.log.started, s.lounge, Waiting(v, m));
  }

  lemma AcceptKeepsRelays(t: Net, s: State, v: Node, m: Message, ttl: uint32, hops: nat)
    requires Shape(t, s) && Once(s) && Relays(t, s) && Acceptable(t, s, v, m)
    ensures Relays(t, Accept(s, v, m, ttl, hops))
  {}

  lemma AcceptKeepsSpread(t: Net, s: State, v: Node, m: Message)
    requires Acceptable(t, s, v, m)
    requires m.source.Some? ==> m.source.value in t.Ports() && m.source.value.Owner() == v && Seen(s.table, m.source.value.Far(), m.id)
    ensures var table := s.table[Key(v, m.id) := m.source];
      && (Delivers(s.table, s.wire, s.log.sent, s.log.lost) ==> Delivers(table, s.wire, s.log.sent, s.log.lost))
      && (SourcesSeen(t, s.table) ==> SourcesSeen(t, table))
      && (SendersSeen(s.table, s.wire) ==> SendersSeen(table, s.wire))
      && (Captured(s.origins, s.table, s.log.lost) ==> Captured(s.origins, table, s.log.lost))
  {}

  lemma CaptureKeepsCaptured(origins: Origins, table: Table, lost: set<Id>, id: Id, r: bool)
    requires Captured(origins, table, lost) && id !in origins
    ensures var origins' := origins[id := Origin(Multicast, r)];
      Captured(origins', table[Key(id.origin, id) := None], lost) && Captured(origins', table, lost + {id})
  {}

  lemma LossKeepsDelivers(table: Table, wire: seq<Packet>, sent: seq<Token>, lost: set<Id>, id: Id)
    requires Delivers(table, wire, sent, lost)
    ensures Delivers(table, wire, sent, lost + {id})
  {
    hide InFlight;
  }

  lemma CaptureKeepsSpreads(t: Net, s: State, v: Node, r: bool)
    requires Shape(t, s) && Spreads(t, s) && v in t.nodes
    ensures Spreads(t, ApplyCapture(s, v, r))
  {
    hide Shape, Delivers, SourcesSeen, SendersSeen, Captured, LoungeLength;
    FreshId(t, s, v);
    var s1, m := Issue(s, v, Origin(Multicast, r)), Fresh(s, v, r);
    AcceptKeepsSpread(t, s1, v, m);
    CaptureKeepsCaptured(s.origins, s.table, s.log.lost, m.id, r);
    LossKeepsDelivers(s.table, s.wire, s.log.sent, s.log.lost, m.id);
  }

  lemma LossKeeps(t: Net, s: State, id: Id)
    ensures var s' := s.(log := s.log.(lost := s.log.lost + {id}));
      && (Shape(t, s) ==> Shape(t, s')) && (Once(s) ==> Once(s')) && (Relays(t, s) ==> Relays(t, s'))
  {
    hide Issued, CellShape, LoungeShape, TodoShape, SendqShape, WireShape, KeyShape, DoneShape;
    hide Lounged, ForwardsOnce, BroadcastsOnce, RelaysForward, RelaysBroadcast, Books;
  }

  /** Capturing: the id is drawn, then written to the node's own lounge. */
  lemma CaptureKeepsInv(t: Net, s: State, v: Node, r: bool)
    requires Inv(t, s) && v in t.nodes
    ensures Inv(t, ApplyCapture(s, v, r))
  {
    hide Shape, Once, Relays, Spreads, LoungeLength;
    var o := Origin(Multicast, r);
    var s1 := Issue(s, v, o);
    var m := Fresh(s, v, r);
    FreshId(t, s, v);
    IssueKeepsShape(t, s, v, o);
    IssueKeepsOnce(t, s, v, o);
    IssueKeepsRelays(t, s, v, o);
    AcceptKeepsShape(t, s1, v, m, MAX_DISCOVERY_MESSAGE_TTL, 0);
    AcceptKeepsOnce(t, s1, v, m, MAX_DISCOVERY_MESSAGE_TTL, 0);
    AcceptKeepsRelays(t, s1, v, m, MAX_DISCOVERY_MESSAGE_TTL, 0);
    LossKeeps(t, s1, m.id);
    CaptureKeepsSpreads(t, s, v, r);
  }

  lemma AtFarEnd(t: Net, p: Port)
    requires t.Valid() && p in t.Ports()
    ensures p.Far() in t.nodes && p.Owner() in t.nodes
    ensures p.Peer() in t.Ports() && p.Peer().Owner() == p.Far() && p.Peer().Far() == p.Owner()
  {
    assert p.Peer() == Port(p.link, !p.dialing);
  }

  lemma TakenFromWire(wire: seq<Packet>, i: nat, p: Port, id: Id)
    requires i < |wire| && InFlight(wire, p, id) && !(p == wire[i].port && id == wire[i].id)
    ensures InFlight(RemoveAt(wire, i), p, id)
  {
    var j :| 0 <= j < |wire| && wire[j].port == p && wire[j].id == id;
    assert RemoveAt(wire, i)[if j < i then j else j - 1] == wire[j];
  }

  /** A message taken from a link is recorded at the far end, or lost. */
  lemma ReceiveKeepsDelivers(table: Table, table': Table, wire: seq<Packet>, sent: seq<Token>, lost: set<Id>, lost': set<Id>, i: nat)
    requires Delivers(table, wire, sent, lost) && i < |wire| && table.Keys <= table'.Keys && lost <= lost'
    requires Key(wire[i].port.Far(), wire[i].id) in table' || wire[i].id in lost'
    ensures Delivers(table', RemoveAt(wire, i), sent, lost')
  {
    var k := wire[i];
    forall tok <- sent | tok.id !in lost'
      ensures Key(tok.port.Far(), tok.id) in table' || InFlight(RemoveAt(wire, i), tok.port, tok.id)
    {
      if InFlight(wire, tok.port, tok.id) && !(tok.port == k.port && tok.id == k.id) {
        TakenFromWire(wire, i, tok.port, tok.id);
      }
    }
    hide InFlight;
  }

  lemma TakingKeepsSenders(table: Table, wire: seq<Packet>, i: nat)
    requires SendersSeen(table, wire) && i < |wire|
    ensures SendersSeen(table, RemoveAt(wire, i)) && Seen(table, wire[i].port.Owner(), wire[i].id)
  {}

  lemma LossKeepsCaptured(origins: Origins, table: Table, lost: set<Id>, id: Id)
    requires Captured(origins, table, lost)
    ensures Captured(origins, table, lost + {id})
  {}

  lemma ReceiveKeepsSpreads(t: Net, s: State, i: nat)
    requires t.Valid() && Shape(t, s) && Spreads(t, s) && i < |s.wire|
    ensures Spreads(t, ApplyReceive(s, i))
  {
    hide Shape, Delivers, SourcesSeen, SendersSeen, Captured, LoungeLength, Seen;
    var k := s.wire[i];
    var s1, s' := s.(wire := RemoveAt(s.wire, i)), ApplyReceive(s, i);
    var v, m := k.port.Far(), Message(k.id, |s.cells|, Some(k.port.Peer()), k.routable);
    PacketIsIssued(t, s, i);
    AtFarEnd(t, k.port);
    TakingKeepsSenders(s.table, s.wire, i);
    ReceiveKeepsDelivers(s.table, s'.table, s.wire, s.log.sent, s.log.lost, s'.log.lost, i);
    LossKeepsCaptured(s.origins, s.table, s.log.lost, k.id);
    if Key(v, m.id) !in s.table {
      AcceptKeepsSpread(t, s1, v, m);
    }
  }

  lemma TakingKeeps(t: Net, s: State, i: nat)
    requires i < |s.wire|
    ensures var s' := s.(wire := RemoveAt(s.wire, i));
      && (Shape(t, s) ==> Shape(t, s')) && (Once(s) ==> Once(s')) && (Relays(t, s) ==> Relays(t, s'))
  {
    hide Issued, CellShape, LoungeShape, TodoShape, SendqShape, KeyShape, DoneShape;
    hide Lounged, ForwardsOnce, BroadcastsOnce, RelaysForward, RelaysBroadcast, Books;
  }

  lemma PacketIsIssued(t: Net, s: State, i: nat)
    requires Shape(t, s) && i < |s.wire|
    ensures var k := s.wire[i]; k.port in t.Ports() && k.id in s.origins && k.routable == s.origins[k.id].routable
  {}

  lemma ReceiveKeepsInv(t: Net, s: State, i: nat)
    requires t.Valid() && Inv(t, s) && i < |s.wire|
    ensures Inv(t, ApplyReceive(s, i))
  {
    hide Shape, Once, Relays, Spreads, LoungeLength;
    var k := s.wire[i];
    var s1 := s.(wire := RemoveAt(s.wire, i));
    var v, m := k.port.Far(), Message(k.id, |s.cells|, Some(k.port.Peer()), k.routable);
    PacketIsIssued(t, s, i);
    AtFarEnd(t, k.port);
    TakingKeeps(t, s, i);
    if Key(v, m.id) !in s.table {
      AcceptKeepsShape(t, s1, v, m, k.ttl, k.hops);
      AcceptKeepsOnce(t, s1, v, m, k.ttl, k.hops);
      AcceptKeepsRelays(t, s1, v, m, k.ttl, k.hops);
      LossKeeps(t, s1, m.id);
    }
    ReceiveKeepsSpreads(t, s, i);
  }

  // ---------- the sending loops ----------

  lemma SetWithNew<T>(xs: set<T>, x: T)
    requires x !in xs
    ensures multiset(xs + {x}) == multiset(xs) + multiset{x}
  {
    assert forall y :: multiset(xs + {x})[y] == (multiset(xs) + multiset{x})[y];
  }

  lemma BooksQueue(sendq: seq<Slot>, sent: seq<Token>, skipped: set<Token>, done: set<Token>, x: Slot)
    requires Books(sendq, sent, skipped, done) && x.Tok() !in done
    ensures Books(sendq + [x], sent, skipped, done + {x.Tok()})
  {
    assert Tokens(sendq + [x]) == Tokens(sendq) + [x.Tok()];
    SetWithNew(done, x.Tok());
  }

  lemma BooksSkip(sendq: seq<Slot>, sent: seq<Token>, skipped: set<Token>, done: set<Token>, tok: Token)
    requires Books(sendq, sent, skipped, done) && tok !in done
    ensures Books(sendq, sent, skipped + {tok}, done + {tok})
  {
    assert multiset(skipped)[tok] <= multiset(done)[tok];
    SetWithNew(skipped, tok);
    SetWithNew(done, tok);
  }

  lemma BooksTransmit(sendq: seq<Slot>, sent: seq<Token>, skipped: set<Token>, done: set<Token>, i: nat)
    requires Books(sendq, sent, skipped, done) && i < |sendq|
    ensures Books(RemoveAt(sendq, i), sent + [sendq[i].Tok()], skipped, done)
  {
    assert Tokens(RemoveAt(sendq, i)) == RemoveAt(Tokens(sendq), i);
    RemoveAtMultiset(Tokens(sendq), i);
  }

  lemma AllocateKeepsShape(t: Net, s: State, c: Cell)
    requires Shape(t, s) && c.id in s.origins
    ensures Shape(t, s.(cells := s.cells + [c]))
  {}

  lemma StartBroadcastKeepsShape(t: Net, s: State, v: Node, r: bool)
    requires Shape(t, s) && v in t.nodes && v !in s.broadcasting
    ensures Shape(t, ApplyStartBroadcast(t, s, v, r))
  {
    var m := Fresh(s, v, r);
    var s1 := Issue(s, v, Origin(Broadcast, r));
    FreshId(t, s, v);
    IssueKeepsShape(t, s, v, Origin(Broadcast, r));
    AllocateKeepsShape(t, s1, Cell(m.id, MAX_DISCOVERY_MESSAGE_TTL, 0));
  }

  /** A new id changes nothing for the messages under way. */
  lemma OriginsGrow(origins: Origins, id: Id, o: Origin, table: Table, started: set<Key>, fwd: Todo, bcast: Todo, done: set<Token>)
    requires id !in origins && ForwardsOnce(origins, table, started, fwd, done) && BroadcastsOnce(origins, bcast, done)
    ensures ForwardsOnce(origins[id := o], table, started, fwd, done) && BroadcastsOnce(origins[id := o], bcast, done)
  {}

  lemma BroadcastBegins(t: Net, origins: Origins, todo: Todo, done: set<Token>, v: Node, m: Message)
    requires BroadcastsOnce(origins, todo, done) && IsBroadcast(origins, m.id) && m.id.origin == v
    requires forall tok <- done :: tok.id != m.id
    ensures BroadcastsOnce(origins, todo + Targets(t, v, m), done)
  {}

  lemma FreshIsNotDone(t: Net, s: State, v: Node)
    requires Shape(t, s)
    ensures forall tok <- s.log.done :: tok.id != Id(v, NextSeq(s, v))
  {
    FreshId(t, s, v);
  }

  lemma StartBroadcastKeepsOnce(t: Net, s: State, v: Node, r: bool)
    requires Shape(t, s) && Once(s) && v in t.nodes && v !in s.broadcasting
    ensures Once(ApplyStartBroadcast(t, s, v, r))
  {
    hide Lounged, ForwardsOnce, BroadcastsOnce, Shape, Targets;
    var o, m := Origin(Broadcast, r), Fresh(s, v, r);
    FreshId(t, s, v);
    FreshIsNotDone(t, s, v);
    OriginsGrow(s.origins, m.id, o, s.table, s.log.started, s.fwdTodo, s.bcastTodo, s.log.done);
    BroadcastBegins(t, s.origins[m.id := o], s.bcastTodo, s.log.done, v, m);
  }

  lemma StartBroadcastKeepsRelays(t: Net, s: State, v: Node, r: bool)
    requires Shape(t, s) && Once(s) && Relays(t, s) && v in t.nodes && v !in s.broadcasting
    ensures Relays(t, ApplyStartBroadcast(t, s, v, r))
  {
    FreshId(t, s, v);
  }

  lemma StartBroadcastKeepsSpreads(t: Net, s: State, v: Node, r: bool)
    requires Shape(t, s) && Once(s) && Relays(t, s) && Spreads(t, s) && v in t.nodes && v !in s.broadcasting
    ensures Spreads(t, ApplyStartBroadcast(t, s, v, r))
  {
    FreshId(t, s, v);
  }

  lemma LoungeShapeWithout(t: Net, origins: Origins, cells: seq<Cell>, lounge: seq<Waiting>, i: nat)
    requires LoungeShape(t, origins, cells, lounge) && i < |lounge|
    ensures LoungeShape(t, origins, cells, RemoveAt(lounge, i))
  {
    hide Handle;
  }

  lemma LoopBegins(t: Net, origins: Origins, cells: seq<Cell>, todo: Todo, busy: set<Node>, v: Node, m: Message)
    requires TodoShape(t, origins, cells, todo, busy) && v in t.nodes && Handle(origins, cells, m)
    ensures TodoShape(t, origins, cells, todo + Targets(t, v, m), busy + {v})
  {
    hide Handle;
  }

  lemma StartForwardKeepsShape(t: Net, s: State, i: nat)
    requires Shape(t, s) && i < |s.lounge| && s.lounge[i].node !in s.forwarding
    ensures Shape(t, ApplyStartForward(t, s, i))
  {
    hide Issued, CellShape, LoungeShape, TodoShape, SendqShape, WireShape, KeyShape, DoneShape, Targets, Handle;
    var w := s.lounge[i];
    WaitingIsIssued(t, s, i);
    LoungeShapeWithout(t, s.origins, s.cells, s.lounge, i);
    LoopBegins(t, s.origins, s.cells, s.fwdTodo, s.forwarding, w.node, w.msg);
  }

  lemma ForwardBegins(t: Net, origins: Origins, table: Table, started: set<Key>, todo: Todo, done: set<Token>, k: Key, m: Message)
    requires ForwardsOnce(origins, table, started, todo, done) && k.id == m.id && k !in started
    requires IsRoutable(origins, m.id) && Arrived(table, k, m.source)
    ensures ForwardsOnce(origins, table, started + {k}, todo + Targets(t, k.node, m), done)
  {}

  lemma ForwardIsRefused(origins: Origins, table: Table, started: set<Key>, todo: Todo, done: set<Token>, k: Key)
    requires ForwardsOnce(origins, table, started, todo, done)
    ensures ForwardsOnce(origins, table, started + {k}, todo, done)
  {}

  lemma WaitingIsRecorded(table: Table, started: set<Key>, lounge: seq<Waiting>, i: nat)
    requires Lounged(table, started, lounge) && i < |lounge|
    ensures Waits(lounge[i]) !in started && Arrived(table, Waits(lounge[i]), lounge[i].msg.source)
  {}

  lemma WaitingIsIssued(t: Net, s: State, i: nat)
    requires Shape(t, s) && i < |s.lounge|
    ensures s.lounge[i].node in t.nodes && Handle(s.origins, s.cells, s.lounge[i].msg)
  {}

  lemma StartForwardKeepsOnce(t: Net, s: State, i: nat)
    requires Shape(t, s) && Once(s) && i < |s.lounge| && s.lounge[i].node !in s.forwarding
    ensures Once(ApplyStartForward(t, s, i))
  {
    hide Lounged, ForwardsOnce, BroadcastsOnce, Shape, Targets, Arrived;
    var w := s.lounge[i];
    WaitingIsIssued(t, s, i);
    WaitingIsRecorded(s.table, s.log.started, s.lounge, i);
    LoungedWithout(s.table, s.log.started, s.lounge, i);
    if w.msg.routable {
      ForwardBegins(t, s.origins, s.table, s.log.started, s.fwdTodo, s.log.done, Waits(w), w.msg);
    } else {
      ForwardIsRefused(s.origins, s.table, s.log.started, s.fwdTodo, s.log.done, Waits(w));
    }
  }

  lemma StartForwardKeepsRelays(t: Net, s: State, i: nat)
    requires Shape(t, s) && Once(s) && Relays(t, s) && i < |s.lounge| && s.lounge[i].node !in s.forwarding
    ensures Relays(t, ApplyStartForward(t, s, i))
  {}

  lemma StartForwardKeepsSpreads(t: Net, s: State, i: nat)
    requires Shape(t, s) && Once(s) && Relays(t, s) && Spreads(t, s) && i < |s.lounge| && s.lounge[i].node !in s.forwarding
    ensures Spreads(t, ApplyStartForward(t, s, i))
  {}

  lemma SpendKeepsShape(t: Net, s: State, m: Message, tok: Token)
    requires Shape(t, s) && Handle(s.origins, s.cells, m) && tok.port in t.Ports() && tok.id == m.id
    ensures Shape(t, Spend(s, m, tok))
  {}

  lemma BroadcastToKeepsShape(t: Net, s: State, p: Port)
    requires Shape(t, s) && p in s.bcastTodo
    ensures Shape(t, ApplyBroadcastTo(s, p))
  {
    SpendKeepsShape(t, s, s.bcastTodo[p], Token(s.bcastTodo[p].id, p, Broadcasting));
  }

  lemma BroadcastToKeepsOnce(t: Net, s: State, p: Port)
    requires Shape(t, s) && Once(s) && p in s.bcastTodo
    ensures Once(ApplyBroadcastTo(s, p))
  {
    hide Turn, Decrement, Lounged;
  }

  lemma BroadcastToKeepsRelays(t: Net, s: State, p: Port)
    requires Shape(t, s) && Once(s) && Relays(t, s) && p in s.bcastTodo
    ensures Relays(t, ApplyBroadcastTo(s, p))
  {
    hide Turn;
    BooksQueue(s.sendq, s.log.sent, s.log.skipped, s.log.done, Slot(p, Broadcasting, s.bcastTodo[p], Turn(s.log.done, Token(s.bcastTodo[p].id, p, Broadcasting))));
  }

  lemma BroadcastToKeepsSpreads(t: Net, s: State, p: Port)
    requires Shape(t, s) && Once(s) && Relays(t, s) && Spreads(t, s) && p in s.bcastTodo
    ensures Spreads(t, ApplyBroadcastTo(s, p))
  {}

  lemma ForwardToKeepsShape(t: Net, s: State, p: Port)
    requires Shape(t, s) && p in s.fwdTodo
    ensures Shape(t, ApplyForwardTo(s, p))
  {
    SpendKeepsShape(t, s, s.fwdTodo[p], Token(s.fwdTodo[p].id, p, Forwarding));
  }

  lemma ForwardToKeepsOnce(t: Net, s: State, p: Port)
    requires Shape(t, s) && Once(s) && p in s.fwdTodo
    ensures Once(ApplyForwardTo(s, p))
  {
    hide Turn, Decrement, Lounged;
  }

  lemma ServedKeepsRelays(t: Net, origins: Origins, table: Table, started: set<Key>, todo: Todo, done: set<Token>, p: Port)
    requires RelaysForward(t, origins, table, started, todo, done) && p in todo
    ensures RelaysForward(t, origins, table, started, todo - {p}, done + {Token(todo[p].id, p, Forwarding)})
  {
    hide Owes;
  }

  lemma DoneKeepsBroadcasts(t: Net, origins: Origins, todo: Todo, done: set<Token>, tok: Token)
    requires RelaysBroadcast(t, origins, todo, done)
    ensures RelaysBroadcast(t, origins, todo, done + {tok})
  {
    hide IsBroadcast;
  }

  lemma ForwardIsNew(s: State, p: Port)
    requires Once(s) && p in s.fwdTodo
    ensures Token(s.fwdTodo[p].id, p, Forwarding) !in s.log.done
  {}

  lemma ForwardToKeepsRelays(t: Net, s: State, p: Port)
    requires Shape(t, s) && Once(s) && Relays(t, s) && p in s.fwdTodo
    ensures Relays(t, ApplyForwardTo(s, p))
  {
    hide Turn, Shape, Once, RelaysForward, RelaysBroadcast, Books, Decrement;
    var tok := Token(s.fwdTodo[p].id, p, Forwarding);
    ForwardIsNew(s, p);
    ServedKeepsRelays(t, s.origins, s.table, s.log.started, s.fwdTodo, s.log.done, p);
    DoneKeepsBroadcasts(t, s.origins, s.bcastTodo, s.log.done, tok);
    BooksQueue(s.sendq, s.log.sent, s.log.skipped, s.log.done, Slot(p, Forwarding, s.fwdTodo[p], Turn(s.log.done, tok)));
    BooksSkip(s.sendq, s.log.sent, s.log.skipped, s.log.done, tok);
  }

  lemma ForwardToKeepsSpreads(t: Net, s: State, p: Port)
    requires Shape(t, s) && Once(s) && Relays(t, s) && Spreads(t, s) && p in s.fwdTodo
    ensures Spreads(t, ApplyForwardTo(s, p))
  {}

  lemma TransmitKeepsShape(t: Net, s: State, i: nat)
    requires Shape(t, s) && i < |s.sendq|
    ensures Shape(t, ApplyTransmit(s, i))
  {}

  lemma TransmitKeepsOnce(t: Net, s: State, i: nat)
    requires Shape(t, s) && Once(s) && i < |s.sendq|
    ensures Once(ApplyTransmit(s, i))
  {}

  lemma TransmitKeepsRelays(t: Net, s: State, i: nat)
    requires Shape(t, s) && Once(s) && Relays(t, s) && i < |s.sendq|
    ensures Relays(t, ApplyTransmit(s, i))
  {
    BooksTransmit(s.sendq, s.log.sent, s.log.skipped, s.log.done, i);
  }

  /** A queued message comes from a node that has it. */
  lemma QueuedIsSeen(t: Net, s: State, i: nat)
    requires Once(s) && Relays(t, s) && i < |s.sendq|
    ensures Seen(s.table, s.sendq[i].port.Owner(), s.sendq[i].msg.id)
  {
    var tok := s.sendq[i].Tok();
    assert tok in Tokens(s.sendq) by { assert Tokens(s.sendq)[i] == tok; }
    assert tok in multiset(Tokens(s.sendq)) + multiset(s.log.sent) + multiset(s.log.skipped);
    assert tok in s.log.done;
  }

  lemma TransmitKeepsSpreads(t: Net, s: State, i: nat)
    requires Shape(t, s) && Once(s) && Relays(t, s) && Spreads(t, s) && i < |s.sendq|
    ensures Spreads(t, ApplyTransmit(s, i))
  {
    QueuedIsSeen(t, s, i);
    SentIntoWire(s.table, s.wire, s.log.sent, s.log.lost, s.sendq[i].Tok(), ApplyTransmit(s, i).wire[|s.wire|]);
  }

  lemma SentIntoWire(table: Table, wire: seq<Packet>, sent: seq<Token>, lost: set<Id>, tok: Token, k: Packet)
    requires Delivers(table, wire, sent, lost) && k.port == tok.port && k.id == tok.id
    ensures Delivers(table, wire + [k], sent + [tok], lost)
  {
    var wire' := wire + [k];
    assert wire'[|wire|] == k;
    forall p, id | InFlight(wire, p, id) ensures InFlight(wire', p, id) {
      var i :| 0 <= i < |wire| && wire[i].port == p && wire[i].id == id;
      assert wire'[i] == wire[i];
    }
  }

  lemma EndForwardKeepsInv(t: Net, s: State, v: Node)
    requires Inv(t, s) && (forall p <- s.fwdTodo :: p.Owner() != v)
    ensures Inv(t, s.(forwarding := s.forwarding - {v}))
  {}

  lemma EndBroadcastKeepsInv(t: Net, s: State, v: Node)
    requires Inv(t, s) && (forall p <- s.bcastTodo :: p.Owner() != v)
    ensures Inv(t, s.(broadcasting := s.broadcasting - {v}))
  {}

  /** Every step keeps the invariant. */
  lemma StepKeepsInv(t: Net, s: State, a: Action)
    requires t.Valid() && Inv(t, s) && Enabled(t, s, a)
    ensures Inv(t, Apply(t, s, a))
  {
    hide Shape, Once, Relays, Spreads;
    match a
    case Capture(v, r) => CaptureKeepsInv(t, s, v, r);
    case StartBroadcast(v, r) =>
      StartBroadcastKeepsShape(t, s, v, r);
      StartBroadcastKeepsOnce(t, s, v, r);
      StartBroadcastKeepsRelays(t, s, v, r);
      StartBroadcastKeepsSpreads(t, s, v, r);
    case BroadcastTo(p) =>
      BroadcastToKeepsShape(t, s, p);
      BroadcastToKeepsOnce(t, s, p);
      BroadcastToKeepsRelays(t, s, p);
      BroadcastToKeepsSpreads(t, s, p);
    case EndBroadcast(v) => EndBroadcastKeepsInv(t, s, v);
    case StartForward(i) =>
      StartForwardKeepsShape(t, s, i);
      StartForwardKeepsOnce(t, s, i);
      StartForwardKeepsRelays(t, s, i);
      StartForwardKeepsSpreads(t, s, i);
    case ForwardTo(p) =>
      ForwardToKeepsShape(t, s, p);
      ForwardToKeepsOnce(t, s, p);
      ForwardToKeepsRelays(t, s, p);
      ForwardToKeepsSpreads(t, s, p);
    case EndForward(v) => EndForwardKeepsInv(t, s, v);
    case Transmit(i) =>
      TransmitKeepsShape(t, s, i);
      TransmitKeepsOnce(t, s, i);
      TransmitKeepsRelays(t, s, i);
      TransmitKeepsSpreads(t, s, i);
    case Receive(i) => ReceiveKeepsInv(t, s, i);
  }
}
