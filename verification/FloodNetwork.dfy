/** The flood protocol of a network of switches as a state machine.

    Every node runs a forwarder, a broadcaster and a core loop; every connection end has a bounded
    send channel drained by a sender, and every link a bounded capacity. The machine is fine-grained:
    one iteration of a sending loop is one step, and a message is an object shared by the send channels
    it was put in, so a sender serialises whatever TTL the object holds at that moment. An iteration
    decrements first and then sends; if the channel is full, its loop goes on only when a place is free. */
module FloodNetwork {
  import opened Wrappers
  import opened Sequences
  import opened Topology
  import opened Ttl
  import opened Configs

  /** A discovery id: the identifier of the originating switch and its sequence number. */
  datatype Id = Id(origin: Node, seqNo: nat)

  /** An entry of the dedup table of a node. */
  datatype Key = Key(node: Node, id: Id)

  /** How a message enters the network: captured from the local multicast group and written to the
      node's own lounge, or sent straight to the links by the periodic broadcaster. */
  datatype Kind = Multicast | Broadcast
  datatype Origin = Origin(kind: Kind, routable: bool)

  /** A reference to a message object: its immutable fields and the cell that holds the rest.
      `source` is the connection it arrived on, `routable` says that its original address parses as
      a private IP. */
  datatype Message = Message(id: Id, cell: nat, source: Option<Port>, routable: bool)

  /** The mutable part of a message object, its TTL; `id` and `hops`, the number of links it has
      travelled, are bookkeeping that no step depends on. */
  datatype Cell = Cell(id: Id, ttl: uint32, hops: nat)

  /** How a node recorded a message: as which object, with what TTL, after how many links. */
  datatype Arrival = Arrival(cell: nat, ttl: uint32, hops: nat)

  datatype Phase = Forwarding | Broadcasting

  /** One iteration of a sending loop: which message, to which connection, by which loop. */
  datatype Token = Token(id: Id, port: Port, phase: Phase)

  /** An entry of a lounge, of a send channel, and of the byte stream that leaves a port. `phase`, and
      `turn`, the number of the loop iteration that sent the message, are bookkeeping as well. */
  datatype Waiting = Waiting(node: Node, msg: Message)
  datatype Slot = Slot(port: Port, phase: Phase, msg: Message, turn: nat) {
    function Tok(): Token { Token(msg.id, port, phase) }
  }
  datatype Packet = Packet(port: Port, id: Id, ttl: uint32, routable: bool, hops: nat, phase: Phase, turn: nat)

  /** The lounges, the send channels and the links are each kept as one sequence; the channel of one
      node or port is its subsequence, and steps take the first entry of that subsequence. Behind the
      first 32 slots of a port, those that follow are still with the loops that wait to send them. */
  datatype State = State(
    nextSeq: map<Node, nat>,
    cells: seq<Cell>,
    table: map<Key, Option<Port>>,          // forwardedIds of every node, with the arrival port
    lounge: seq<Waiting>,
    forwarding: set<Node>,                  // forwarders inside their loop
    fwdTodo: map<Port, Message>,            // connections those loops have yet to visit
    broadcasting: set<Node>,
    bcastTodo: map<Port, Message>,
    sendq: seq<Slot>,
    wire: seq<Packet>,
    origins: map<Id, Origin>,               // history, never read by a step
    log: Log                                // likewise
  )

  /** What happened so far. */
  datatype Log = Log(
    arrivals: map<Key, Arrival>,
    casts: map<Id, nat>,                    // the object of each message that was broadcast
    started: set<Key>,                      // taken out of the lounge
    done: set<Token>,                       // loop iterations performed
    skipped: set<Token>,                    // iterations that hit TTL 0 and did not send
    sent: seq<Token>,                       // transmissions
    lost: set<Id>,                          // rejected by a full lounge somewhere
    wrapped: set<Id>                        // decremented past 0 somewhere
  )

  const EMPTY: State :=
    State(map[], [], map[], [], {}, map[], {}, map[], [], [], map[], Log(map[], map[], {}, {}, {}, [], {}, {}))

  datatype Action =
    | Capture(node: Node, routable: bool)    // the core loop takes a message from multicastChan
    | StartBroadcast(node: Node, routable: bool)
    | BroadcastTo(port: Port)
    | EndBroadcast(node: Node)
    | StartForward(index: nat)               // the forwarder takes a message from its lounge
    | ForwardTo(port: Port)
    | EndForward(node: Node)
    | Transmit(index: nat)                   // a sender takes a message from its channel
    | Receive(index: nat)                    // the core loop takes a message from a link

  predicate Originates(a: Action) {
    a.Capture? || a.StartBroadcast?
  }

  function NextSeq(s: State, v: Node): nat {
    if v in s.nextSeq then s.nextSeq[v] else 0
  }

  /** What the object of `m` holds now (its cell is always allocated, see `Issued`). */
  function Load(s: State, m: Message): Cell {
    if m.cell < |s.cells| then s.cells[m.cell] else Cell(m.id, 0, 0)
  }

  function LoungeLength(lounge: seq<Waiting>, v: Node): nat {
    if lounge == [] then 0 else LoungeLength(lounge[1..], v) + if lounge[0].node == v then 1 else 0
  }

  function ChannelLength(sendq: seq<Slot>, p: Port): nat {
    if sendq == [] then 0 else ChannelLength(sendq[1..], p) + if sendq[0].port == p then 1 else 0
  }

  function LinkLength(wire: seq<Packet>, p: Port): nat {
    if wire == [] then 0 else LinkLength(wire[1..], p) + if wire[0].port == p then 1 else 0
  }

  /** Slot `i` is not in its channel yet, for want of room: the loop that sends it waits. Channels
      admit waiting loops in the order in which they came. */
  predicate InHand(sendq: seq<Slot>, i: nat)
    requires i < |sendq|
  {
    ChannelLength(sendq[..i], sendq[i].port) >= TCP_SOCKET_SEND_CHAN_SIZE
  }

  ghost predicate Blocked(sendq: seq<Slot>, v: Node, phase: Phase) {
    exists i :: 0 <= i < |sendq| && sendq[i].port.Owner() == v && sendq[i].phase == phase && InHand(sendq, i)
  }

  ghost predicate Enabled(t: Net, s: State, a: Action) {
    match a
    case Capture(v, _) => v in t.nodes
    case StartBroadcast(v, _) => v in t.nodes && v !in s.broadcasting
    case BroadcastTo(p) => p in s.bcastTodo && !Blocked(s.sendq, p.Owner(), Broadcasting)
    case EndBroadcast(v) =>
      v in s.broadcasting && (forall p <- s.bcastTodo :: p.Owner() != v) && !Blocked(s.sendq, v, Broadcasting)
    case StartForward(i) =>
      && i < |s.lounge| && s.lounge[i].node !in s.forwarding
      && (forall j | 0 <= j < i :: s.lounge[j].node != s.lounge[i].node)
    case ForwardTo(p) => p in s.fwdTodo && !Blocked(s.sendq, p.Owner(), Forwarding)
    case EndForward(v) =>
      v in s.forwarding && (forall p <- s.fwdTodo :: p.Owner() != v) && !Blocked(s.sendq, v, Forwarding)
    case Transmit(i) =>
      && i < |s.sendq| && (forall j | 0 <= j < i :: s.sendq[j].port != s.sendq[i].port)
      && LinkLength(s.wire, s.sendq[i].port) < t.window
    case Receive(i) =>
      i < |s.wire| && (forall j | 0 <= j < i :: s.wire[j].port != s.wire[i].port)
  }

  /** Node `v` records a new message object under its id and queues it for forwarding. */
  function Accept(s: State, v: Node, m: Message, ttl: uint32, hops: nat): State {
    s.(cells := s.cells + [Cell(m.id, ttl, hops)],
       table := s.table[Key(v, m.id) := m.source],
       lounge := s.lounge + [Waiting(v, m)],
       log := s.log.(arrivals := s.log.arrivals[Key(v, m.id) := Arrival(m.cell, ttl, hops)]))
  }

  /** `SwitchLounge.Write` at node `v`, away from its size cap: a known id is ignored, a full lounge
      rejects the message without recording it, anything else is accepted. */
  function WriteLounge(s: State, v: Node, m: Message, ttl: uint32, hops: nat): State {
    if Key(v, m.id) in s.table then s
    else if LoungeLength(s.lounge, v) >= SWITCH_LOUNGE_SIZE then s.(log := s.log.(lost := s.log.lost + {m.id}))
    else Accept(s, v, m, ttl, hops)
  }

  /** Node `v` draws its next sequence number. */
  function Issue(s: State, v: Node, origin: Origin): State {
    s.(nextSeq := s.nextSeq[v := NextSeq(s, v) + 1],
       origins := s.origins[Id(v, NextSeq(s, v)) := origin])
  }

  /** The message object of the id drawn, which is to occupy the next free cell. */
  function Fresh(s: State, v: Node, routable: bool): Message {
    Message(Id(v, NextSeq(s, v)), |s.cells|, None, routable)
  }

  function ApplyCapture(s: State, v: Node, routable: bool): State {
    WriteLounge(Issue(s, v, Origin(Multicast, routable)), v, Fresh(s, v, routable), MAX_DISCOVERY_MESSAGE_TTL, 0)
  }

  /** What a sending loop of node `v` has to do for `m`: every connection but the one it came from. */
  ghost function Targets(t: Net, v: Node, m: Message): map<Port, Message> {
    map p | p in t.PortsOf(v) && m.source != Some(p) :: m
  }

  ghost function ApplyStartBroadcast(t: Net, s: State, v: Node, routable: bool): State {
    var m := Fresh(s, v, routable);
    Issue(s, v, Origin(Broadcast, routable)).(
      cells := s.cells + [Cell(m.id, MAX_DISCOVERY_MESSAGE_TTL, 0)],
      broadcasting := s.broadcasting + {v},
      bcastTodo := s.bcastTodo + Targets(t, v, m),
      log := s.log.(casts := s.log.casts[m.id := m.cell]))
  }

  /** The iterations among `tokens` of one loop: that of node `v` for `id` in phase `phase`. */
  function LoopTokens(tokens: set<Token>, v: Node, id: Id, phase: Phase): set<Token> {
    set tok | tok in tokens && tok.id == id && tok.phase == phase && tok.port.Owner() == v
  }

  /** The number that iteration `tok` will have in its loop. */
  function Turn(done: set<Token>, tok: Token): nat {
    |LoopTokens(done, tok.port.Owner(), tok.id, tok.phase)| + 1
  }

  /** `DiscoveryTtl--` on the shared object `m`, as both sending loops do before each send. */
  function Spend(s: State, m: Message, tok: Token): State {
    var c := Load(s, m);
    s.(cells := if m.cell < |s.cells| then s.cells[m.cell := c.(ttl := Decrement(c.ttl))] else s.cells,
       log := s.log.(done := s.log.done + {tok},
                     wrapped := if c.ttl == 0 then s.log.wrapped + {m.id} else s.log.wrapped))
  }

  function ApplyBroadcastTo(s: State, p: Port): State
    requires p in s.bcastTodo
  {
    var m := s.bcastTodo[p];
    var slot := Slot(p, Broadcasting, m, Turn(s.log.done, Token(m.id, p, Broadcasting)));
    Spend(s, slot.msg, slot.Tok()).(bcastTodo := s.bcastTodo - {p}, sendq := s.sendq + [slot])
  }

  ghost function ApplyStartForward(t: Net, s: State, i: nat): State
    requires i < |s.lounge|
  {
    var w := s.lounge[i];
    var taken := s.(lounge := RemoveAt(s.lounge, i), log := s.log.(started := s.log.started + {Key(w.node, w.msg.id)}));
    if !w.msg.routable then taken
    else taken.(forwarding := s.forwarding + {w.node},
                fwdTodo := s.fwdTodo + Targets(t, w.node, w.msg))
  }

  function ApplyForwardTo(s: State, p: Port): State
    requires p in s.fwdTodo
  {
    var m := s.fwdTodo[p];
    var slot := Slot(p, Forwarding, m, Turn(s.log.done, Token(m.id, p, Forwarding)));
    var spent := Spend(s, slot.msg, slot.Tok()).(fwdTodo := s.fwdTodo - {p});
    if Load(spent, slot.msg).ttl <= 0 then spent.(log := spent.log.(skipped := s.log.skipped + {slot.Tok()}))
    else spent.(sendq := s.sendq + [slot])
  }

  function ApplyTransmit(s: State, i: nat): State
    requires i < |s.sendq|
  {
    var x := s.sendq[i];
    var c := Load(s, x.msg);
    s.(sendq := RemoveAt(s.sendq, i), log := s.log.(sent := s.log.sent + [x.Tok()]),
       wire := s.wire + [Packet(x.port, x.msg.id, c.ttl, x.msg.routable, c.hops + 1, x.phase, x.turn)])
  }

  function ApplyReceive(s: State, i: nat): State
    requires i < |s.wire|
  {
    var k := s.wire[i];
    WriteLounge(s.(wire := RemoveAt(s.wire, i)), k.port.Far(),
                Message(k.id, |s.cells|, Some(k.port.Peer()), k.routable), k.ttl, k.hops)
  }

  ghost function Apply(t: Net, s: State, a: Action): State
    requires Enabled(t, s, a)
  {
    match a
    case Capture(v, routable) => ApplyCapture(s, v, routable)
    case StartBroadcast(v, routable) => ApplyStartBroadcast(t, s, v, routable)
    case BroadcastTo(p) => ApplyBroadcastTo(s, p)
    case EndBroadcast(v) => s.(broadcasting := s.broadcasting - {v})
    case StartForward(i) => ApplyStartForward(t, s, i)
    case ForwardTo(p) => ApplyForwardTo(s, p)
    case EndForward(v) => s.(forwarding := s.forwarding - {v})
    case Transmit(i) => ApplyTransmit(s, i)
    case Receive(i) => ApplyReceive(s, i)
  }

  /** `actions` is a run from `s` to `s'`. */
  ghost predicate IsRun(t: Net, s: State, actions: seq<Action>, s': State)
    decreases |actions|
  {
    if actions == [] then s' == s
    else Enabled(t, s, actions[0]) && IsRun(t, Apply(t, s, actions[0]), actions[1..], s')
  }

  /** Nothing is left to do without a new origination: every queue is empty, every loop idle. */
  predicate Quiescent(s: State) {
    s.lounge == [] && s.sendq == [] && s.wire == [] && s.forwarding == {} && s.broadcasting == {}
  }
}
