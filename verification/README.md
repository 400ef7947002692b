# localsend-switch: a verified model of the exchange network, the switch lounge, log rotation and framing

A switch is a node of a network that carries LocalSend discovery messages between subnets. Nodes are
joined by TCP connections. Each node deduplicates the messages it sees, keeps new ones in a *lounge*,
and forwards them on every connection but the one they came from; a counter in each message, the TTL,
goes down on the way. This project models that protocol and the pieces it is made of, and proves what
they promise. `dafny verify dfyconfig.toml` checks everything.

## How it is laid out

**The flood protocol** (`Topology`, `FloodNetwork`, `FloodInvariants`, `FloodTheorems`, `FloodTtl`,
`FloodPasses`, `FloodCopies`, `FloodHops`, `FloodCapacity`, `FloodOrigins`, `FloodStar`, `FloodPaths`,
`FloodExhaustion`, `FloodChannels`, `FloodLounge`). The network is any finite multigraph, cycles, parallel
connections and connections of a node to itself included. The machine is fine-grained: one iteration of a
sending loop is one step, a message is an object with a TTL cell that is shared by all send channels it
was put in, and a sender serialises whatever the cell holds when it gets to it. Send channels are bounded
(32) and a loop that finds one full waits with its message in hand, already decremented; links are
bounded, lounges are bounded (65025), the TTL is a `uint32` that wraps, and the periodic broadcaster
bypasses the lounge of its own node, so that an origin may accept and forward its own message once.
`Inv` is the invariant of every reachable state; the theorems are termination, coverage and traffic
(`FloodTheorems`), the TTL budget (`FloodTtl`), what each node's pass skips (`FloodPasses`), what TTL a
copy on a link carries, when it wraps and how far copies travel (`FloodHops`, over the invariants of
`FloodCopies`), coverage from the number of messages alone (`FloodCapacity`), what happens at the origin
of a message (`FloodOrigins`), the exact limit on a star (`FloodStar`), coverage from the paths of the
network (`FloodPaths`) and that this condition is exact (`FloodExhaustion`), and that channels and links
keep their order and bounds and wait for nothing else (`FloodChannels`).

**The lounge** (`LoungeSpec`, `TtlHeap`, `SwitchLounge`, `DedupWindow`, `Messages`, `KeyRefinement`).
`LoungeSpec` says what a lounge may do, on an insertion-ordered list of (id, expiry) pairs and a
bounded queue; the class `SwitchLounge` keeps a map, a binary heap and a queue and is proved to do just
that, on the switch ids and sequence numbers of messages. `DedupWindow` is about whole runs;
`KeyRefinement` shows that the string keys lose nothing; `FloodLounge` shows that in every run of the
network machine each node runs such a lounge.

**The core loops and the connection table** (`Ttl`, `SwitchCore`, `ConnectionHub`, with the constants in `Configs`).

**Log rotation** (`LogHistory`, `RotatedName`, `Decimal`, `LogRotation`, `RotationRefinement`,
`RotationSurvival`, `RotationOverwrites`, `RotatingLog`, `RotationAmong`). `LogHistory` is the log as a
reader sees it. `LogRotation` says what the delete and rename loops do to a directory, `RotationRefinement`
that this is a rotation of the log it holds, and the class `LogWriter` (module `RotatingLog`) runs the
loops. The other three are about any directory: `RotationSurvival` says which names survive a rotation,
`RotationOverwrites` exactly when it overwrites a file, and `RotationAmong` follows one log among others
over whole runs.

**Framing and encryption** (`Cipher`, `Framing`, `TcpCore`). `Framing` defines the byte stream of a
connection and what a receiver makes of it; `TcpCore` has the two loops. Serialisation and the AEAD are
parameters whose second half inverts the first; where it matters, the AEAD also opens nothing else.

## What turned out differently from the documentation

* README.md:151 of the repository says that the TTL goes down by one for each switch a message passes
  through. The code decrements it once per outgoing connection, on a shared object
  (services/switch_core.go:67-76), and its test is `<= 0` on an unsigned field. The model follows the
  code. `Ttl.PassCostsOneHop`: a pass costs one hop if and only if it has one connection to serve.
  `FloodPasses.NodeSkipsExactly`: a node passes over one of its connections if and only if the TTL a
  message arrived with is at least 1 and at most the number of connections to serve.
  `FloodOrigins.TtlRunsOut`: on every network, a node with 255 connections or more does so with a message
  it captures itself; and `FloodStar.StarIsCoveredExactly`: on a star every leaf gets the message if and
  only if there are fewer than 255. `FloodExhaustion.AffordsExactly` is the condition on the network: no run
  passes over a connection with a message captured at a node if and only if, on every path from that node
  that enters no node twice and does not return, its degree and the degrees less one of the nodes entered
  add up to less than 255; then coverage needs no assumption on the TTL
  (`FloodPaths.AffordedFloodIsCovered`). A message that arrives with
  TTL 0 is forwarded all the same, because the decrement wraps past the test;
  `FloodHops.WrappedAtQuiescence` says when that comes about.
* `maxHistoricalLogs` may be set to 0 (main.go:114), but then the deleting loop starts at a negative
  index: `RotatingLog.LogWriter.RotateLogs` panics if and only if the limit is not positive.
* A rotation can overwrite files. One with id 0 is renumbered to 1 and then replaced by the current log
  (`RotationSurvival.IdZeroIsLost`); of `b_rotated.1.log` and `b_rotated.01.log`, which have the same id,
  only one is left (`RotationOverwrites.SpellingIsLost`); and a file with id 2^31 - 1 replaces one numbered
  2^31, which the pattern does not recognise (`RotationOverwrites.AboveGreatestIsLost`).
  `RotationOverwrites.OverwritesNothingExactly` gives the exact condition for every directory.
* Any log file name is accepted (main.go:77). One that looks like a rotated log, say
  `x_rotated.1.log`, is taken for history by its own rotation and, with limit 1, deleted:
  `RotationSurvival.RotatedCurrentIsLost`. `RotationSurvival.CurrentSurvivesExactly` says when a
  rotation ends with a current file.
* A log file named just `.log`, one with a newline in its name, or an id beyond 31 bits is rotated to
  a name that the pattern no longer recognises: `RotatedName.RoundTripExactly`. With `.log` one
  historical file is kept, whatever the limit: `RotationSurvival.EmptyBaseKeepsOne`.
* Rotation does not compare base names: it deletes and renumbers the files of other logs in the same
  directory along with its own: `RotationSurvival.DeletionIgnoresBase`, `RotationSurvival.OtherLogIsDeleted`.
  What it keeps of each log is still the newest part, unaltered: `RotationAmong.OwnFilesAreSuffix`.

## Model

| member | source | states |
|---|---|---|
| FloodInvariants.StepKeepsInv | services/switch_core.go:49-77 | every step of every loop of every node keeps the invariant: shape of all queues, each forwarding and broadcasting iteration done at most once, each one due still promised, and what was sent is either on its link or recorded at the far end |
| FloodTheorems.ReachableHasInv | services/switch_core.go:283-303 | the invariant holds in every state of every run from the empty network |
| FloodTheorems.StepDecreases | services/switch_lounge.go:123-147 | on any topology and whatever the TTL does, every step that is not an origination lowers a natural-number potential |
| FloodTheorems.FloodTerminates | services/switch_lounge.go:123-147 | once origination stops, the number of further steps is bounded by the potential, cycles and TTL wrap-around included |
| FloodTheorems.FloodProgresses | services/switch_core.go:66-77 | a network with work left can always take a step, so its bounded send channels and bounded links cannot deadlock it |
| FloodTheorems.FloodSettles | services/switch_core.go:66-77 | every reachable state can be run to quiescence without further originations |
| FloodTheorems.TrafficIsBounded | services/switch_core.go:66-77 | the copies of one id ever put on links number at most the sum of all node degrees plus the degree of the origin; no loop sends an id twice to a connection, and none forwards it to where it came from |
| FloodTheorems.TrafficIsExact | services/switch_core.go:66-77 | at quiescence the iterations that sent an id or skipped it are exactly the due ones: each recording node, every connection but the arrival one, plus those of the origin for a broadcast |
| FloodTheorems.FloodCovers | services/switch_core.go:137-146 | at quiescence, an id with a private origin that no full lounge rejected and no TTL stopped is recorded, among the nodes other than its origin, at exactly those connected to it, and at its origin if that captured it (for one that broadcast it see FloodOrigins.BroadcasterHearsItself) |
| FloodTtl.SmallNetworkIsCovered | services/switch_core.go:67-77 | if the sum of all degrees plus the degree of the origin is below 255, no interleaving exhausts the TTL: coverage and exact traffic hold for every id that no full lounge rejected |
| FloodTtl.StepKeepsBudget | services/switch_core.go:67-73 | every copy of an id carries at least 255 less the loop iterations performed for it anywhere so far |
| FloodCapacity.NothingIsLost | services/switch_lounge.go:139-151 | as long as at most 65025 messages were originated, no lounge has ever been full when written to |
| FloodCapacity.SmallFloodIsCovered | services/switch_core.go:67-77 | coverage under two conditions on the network alone: at most 65025 messages, and the sum of all degrees plus the degree of the origin below 255 |
| FloodCapacity.AmpleTtlCovers | services/switch_core.go:67-77 | coverage of any network with at most 65025 messages in which the message arrived everywhere with a TTL above the number of connections to serve, or with 0 |
| FloodOrigins.AnyNodeMayOriginate | services/switch_core.go:129-146 | in every reachable state any node may capture a message, and broadcast one unless its broadcaster is at work, from a private address or not; the id is new and carries the next number of the node |
| FloodOrigins.AnyNodeMayBroadcastLater | services/switch_core.go:129-146 | and from every reachable state there is a run without other originations in which it broadcasts |
| FloodOrigins.IdsAreNumbered | services/switch_core.go:140 | the ids of a node carry the numbers from 0 on, without gaps |
| FloodOrigins.FirstMessageSettles | services/switch_core.go:283-303 | on every network, any node can be the first to originate a message of any kind, and the network then settles |
| FloodOrigins.BroadcastIsSent | services/switch_core.go:142-145 | in every run: at quiescence a broadcast has gone out on every connection of its origin, whatever the TTL, and what no lounge rejected is recorded at the far ends |
| FloodOrigins.BroadcastSettles | services/switch_core.go:129-146 | and on every network there is such a run for every node, with a private address |
| FloodOrigins.OriginSkipsExactly | services/switch_core.go:67-77 | in every run: once the network is quiescent, the origin of a captured message has passed over exactly one of its connections if it has 255 or more, and over none if it has fewer; above 255 the TTL of the message has wrapped |
| FloodOrigins.TtlRunsOut | services/switch_core.go:67-77 | and such a run exists on every network, for every node |
| FloodOrigins.BroadcasterHearsItself | services/switch_core.go:137-146 | at quiescence an origin has recorded its own undisturbed broadcast if and only if it has a connection to itself or some neighbour recorded the message as coming over another connection than the one between the two |
| FloodStar.StarMisses | services/switch_core.go:67-77 | in every run on a star, a message captured at the hub has in the end missed exactly one leaf if there are 255 or more, and none if there are fewer |
| FloodStar.StarIsCoveredExactly | services/switch_core.go:67-77 | so every leaf records it if and only if there are fewer than 255 |
| FloodStar.LargeStarLoses | services/switch_core.go:67-77 | on every larger star there is a run that ends with a connected node that does not have the message |
| FloodPaths.AffordedTtl | services/switch_core.go:67-77 | in every reachable state, a message from an origin whose paths are affordable arrives everywhere with a TTL above the number of connections to serve |
| FloodPaths.AffordedFloodIsCovered | services/switch_core.go:67-77 | then coverage and exact traffic hold, for at most 65025 messages |
| FloodPaths.AffordedPathsAreShort | services/switch_core.go:67-73 | and no copy of it has wrapped or travelled more than 254 links |
| FloodPaths.SmallIsAffordable | services/switch_core.go:67-77 | the condition of SmallFloodIsCovered is a special case |
| FloodPaths.StarIsAffordableExactly | services/switch_core.go:67-77 | the paths from the hub of a star are affordable if and only if it has fewer than 255 leaves |
| FloodExhaustion.AffordsExactly | services/switch_core.go:67-77 | the exact condition on the network: no run whatever passes over a connection with a message captured at a node if and only if every path from that node is affordable |
| FloodExhaustion.ExhaustingRun | services/switch_core.go:67-77 | for a path that is not, the run that takes the message along it and leaves a node with too little TTL |
| FloodChannels.ChannelsAreBounded | services/tcp_connection_hub.go:48 | in every reachable state at most the forwarder and the broadcaster of a node wait behind the 32 messages of a send channel, with one message each anywhere, and no link carries more than its window |
| FloodChannels.SenderIsFifo | services/tcp_core.go:134-150 | a sender takes what has been longest in its channel and puts it, as its object stands, behind what is on its link; no other channel or link changes |
| FloodChannels.ReceiverIsFifo | services/tcp_core.go:65-112 | what has been longest on a link is received first, and no other link changes |
| FloodChannels.LinkDelivers | services/switch_core.go:296-300 | what is on a link can be received in every state, whatever goes on elsewhere |
| FloodChannels.ChannelDrains | services/tcp_core.go:134-150 | what is in a send channel can be transmitted as soon as its own link has room |
| FloodChannels.LoungeDrains | services/switch_core.go:49-53 | what is in a lounge can be taken as soon as the forwarder of that node is free |
| FloodChannels.BlockedByFullChannel | services/switch_core.go:76 | a loop waits only for a full channel of its own node |
| FloodPasses.NodeSkipsExactly | services/switch_core.go:67-77 | at quiescence a node skipped exactly one connection if 1 <= arriving TTL <= connections to serve, and none otherwise |
| FloodPasses.UnskippedExactly | services/switch_core.go:67-77 | nothing was skipped for an id if and only if it reached every node with a TTL above the number of connections to serve there, or 0 |
| FloodCopies.StepKeepsCopies | services/switch_core.go:66-77 | every step keeps what is known of each copy: the pass and iteration that queued it, that its object has been decremented once per iteration of that pass, and that a copy on a link carries what the object held after some iteration from its own on |
| FloodHops.ForwardedTtl | services/switch_core.go:67-77 | in every reachable state, a copy on a link that was the i-th of a forwarding pass over n connections, at a node where the message arrived with a TTL T above n, carries a TTL in [T - n, T - i] and has travelled one link more: the TTL falls at every such hop |
| FloodHops.BroadcastTtl | services/switch_core.go:142-145 | likewise a copy from the broadcaster of an origin of degree n below 255 carries a TTL in [255 - n, 255 - i] and has travelled one link |
| FloodHops.WrappedExactly | services/switch_core.go:67-73 | in every reachable state, the TTL of an id has wrapped if and only if some node's pass performed more iterations than the TTL it arrived with, or the broadcaster more than 255 |
| FloodHops.WrappedAtQuiescence | services/switch_core.go:67-73 | at quiescence: if and only if some recording node has more connections to serve than the TTL the message arrived with, or a broadcasting origin has degree above 255 |
| FloodHops.PathsAreShort | services/switch_core.go:67-73 | unless its TTL wrapped, no copy of a message travels more than 254 links, and hops plus TTL never exceed 255 |
| FloodHops.AmpleTtlBoundsPaths | services/switch_core.go:67-77 | in particular if at every node the TTL it arrived with exceeds the number of connections to serve, and its origin does not broadcast it to more than 255 |
| FloodHops.PathsVisitNodesOnce | services/switch_lounge.go:123-127 | whatever the TTL does, no copy travels more links than there are nodes, plus one for a broadcast message |
| FloodLounge.WriteAgrees | services/switch_lounge.go:114-153 | below the size cap of the table, a write in the network machine is a write of the lounge of that node, lost exactly when the lounge reports that it is full |
| FloodLounge.TableHasRoom | services/switch_lounge.go:129 | and the table is below its cap in every reachable state with at most as many messages as the cap |
| FloodLounge.WriteLeavesOthers | services/switch_lounge.go:114-153 | a write at one node leaves the lounge of every other node as it was |
| FloodLounge.ReadAgrees | services/switch_lounge.go:156-158 | the forwarder of a node takes what its lounge hands out next, and no other node's lounge changes |
| FloodLounge.NodesRunLounges | services/switch_lounge.go:114-158 | in every run of the network with no more messages than the size cap, and for any clock, the writes and reads at each node are a run of the specified lounge that ends in the state of that node |
| Ttl.DecrementByIsModular | services/switch_core.go:69 | n decrements of the field give (TTL - n) modulo 2^32 |
| Ttl.PassOutcome | services/switch_core.go:67-77 | a pass over n < 2^32 connections leaves (TTL - n) mod 2^32 and sends n times if TTL > n or TTL = 0, and n - 1 times otherwise |
| Ttl.PassCostsOneHop | services/switch_core.go:67-73 | the documented decrement by one per node happens if and only if exactly one connection is served |
| Ttl.SkippedIteration | services/switch_core.go:71-73 | the iteration passed over is the TTL-th and no other |
| Ttl.SerialisedTtl | services/tcp_core.go:145 | arithmetic behind FloodHops.ForwardedTtl: after j decrements with i <= j <= n < TTL, the field lies in [TTL - n, TTL - i], above 0 and below what arrived |
| SwitchCore.ForwardTo | services/switch_core.go:67-77 | the loop sends the one shared object to exactly the targets at which the TTL, decremented once per target so far, is not 0, and leaves (TTL - n) in it |
| SwitchCore.PassOn | services/switch_core.go:66-77 | each channel of the table minus its source gets the message once if the TTL, decremented once per connection so far, is not 0; these are all n of them if TTL > n or TTL = 0, and n - 1 otherwise; no other channel changes, that of the source in particular |
| SwitchCore.Forward | services/switch_core.go:49-77 | a round takes the next message; with a private origin it goes to the table minus its source connection as in PassOn, otherwise nowhere |
| SwitchCore.BroadcastTo | services/switch_core.go:142-145 | the broadcaster decrements as well but sends to every target, whatever the TTL |
| SwitchCore.Broadcast | services/switch_core.go:138-146 | a broadcast message goes once to the channel of every connection of the table and to no other, and its TTL goes down by their number |
| SwitchCore.PassServes | services/switch_core.go:67-77 | the set of targets served by a pass has n members if TTL > n or TTL = 0, and n - 1 otherwise |
| ConnectionHub.TCPConnectionHub.constructor | services/tcp_connection_hub.go:28-32 | an empty, valid table |
| ConnectionHub.TCPConnectionHub.AddConnection | services/tcp_connection_hub.go:35-54 | refused exactly if the address is present or 2550 are; otherwise filed under its own address with a fresh open channel, and a channel is open exactly while it is in the table |
| ConnectionHub.TCPConnectionHub.RemoveConnection | services/tcp_connection_hub.go:57-67 | removes exactly that address, closes its connection and its channel, which was open: no channel is closed twice |
| ConnectionHub.TCPConnectionHub.GetConnectionsExcept | services/tcp_connection_hub.go:84-94 | exactly the table minus the given address, each connection once, all channels open at that moment |
| ConnectionHub.ListsAll | services/tcp_connection_hub.go:84-94 | visiting each remaining address once yields that set without duplicate channels and with the right count |
| TtlHeap.RootIsOldest | services/switch_lounge.go:34-36 | in a heap no item expires before the root |
| TtlHeap.TTLHeap.Swap | services/switch_lounge.go:38-40 | exchanges two items and keeps the bag |
| TtlHeap.TTLHeap.Up | services/switch_lounge.go:144-147 | sifting up restores heap order and keeps the bag |
| TtlHeap.TTLHeap.Down | services/switch_lounge.go:134 | sifting down restores heap order of the first n items and keeps bag and tail |
| TtlHeap.TTLHeap.Push | services/switch_lounge.go:42-44 | heap order, and the bag grows by the item |
| TtlHeap.TTLHeap.Pop | services/switch_lounge.go:46-50 | heap order, the bag loses one item, and that item expires no later than any other |
| SwitchLounge.SwitchLounge.Write | services/switch_lounge.go:114-153 | is a write of the specified lounge in every case (closed, duplicate, eviction, full after eviction, accepted), keeping map, heap and list in agreement; in terms of messages: a duplicate exactly if one with the same switch id and sequence number is on record, and otherwise accepted exactly if the queue has room; the inconsistent state is reported if and only if the cap is 0 |
| SwitchLounge.SwitchLounge.RemoveOldest | services/switch_lounge.go:134-135 | removes from heap, map and list one entry that expires first |
| SwitchLounge.SwitchLounge.Store | services/switch_lounge.go:139-151 | accepts into queue, map and heap, or reports a full queue and records nothing |
| SwitchLounge.SwitchLounge.RemoveExpired | services/switch_lounge.go:92-103 | removes an expired root, or finds that nothing in the table has expired |
| SwitchLounge.SwitchLounge.Cleanup | services/switch_lounge.go:88-105 | removes exactly the entries whose time is up and keeps the order of the others |
| SwitchLounge.SwitchLounge.Receive | services/switch_lounge.go:156-158 | hands out queued messages first in, first out |
| SwitchLounge.SwitchLounge.Close | services/switch_lounge.go:161-172 | closes once; nothing else changes |
| SwitchLounge.SwitchLounge.TableAndHeapAgree | services/switch_lounge.go:88-147 | the heap's ids are duplicate-free, equal the keys of the map, and are at most the cap |
| SwitchLounge.NewSwitchLounge | services/switch_lounge.go:70-78 | an empty lounge with the configured 65536 entries, 65025 places and 300 seconds |
| SwitchLounge.SameMessageTwice | services/switch_lounge.go:114-153 | with the configured constants: of two accepted messages with the same switch id and sequence number the second came at least 300 seconds later, or after 65535 other discoveries |
| SwitchLounge.OnlyRepeatsAreIgnored | services/switch_lounge.go:123-127 | a message is ignored as a duplicate only if one with the same switch id and sequence number was accepted before |
| LoungeSpec.UnexpiredMembers | services/switch_lounge.go:91-104 | what a cleanup keeps is exactly what has not expired |
| LoungeSpec.RoomIsMade | services/switch_lounge.go:129-136 | an eviction leaves fewer entries than the cap, all of them old ones, without duplicates |
| LoungeSpec.WriteOutcomes | services/switch_lounge.go:118-151 | an open lounge accepts exactly the unrecorded ids as long as its queue has room, at the size cap too, and reports exactly otherwise that it is full |
| LoungeSpec.WriteEffects | services/switch_lounge.go:129-151 | only an accepted message is recorded and queued, and only at the cap does a write cost an entry, one that expires no later than any other |
| DedupWindow.RunIsConsistent | services/switch_lounge.go:88-147 | in every run ids stay unique, cap and queue size hold, and every entry stems from an acceptance |
| DedupWindow.StaysRecorded | services/switch_lounge.go:88-147 | an accepted id stays recorded until its lifetime is over or cap - 1 other ids were accepted since |
| DedupWindow.AcceptedTwice | services/switch_lounge.go:88-147 | an id accepted twice was accepted again a full lifetime later, or after cap - 1 other ids, for any cap, lifetime and interleaving of writes and cleanups |
| DedupWindow.AcceptedTwiceStrict | services/switch_lounge.go:123-147 | with strictly increasing write times those other acceptances lie strictly between the two |
| DedupWindow.RepeatIsDuplicate | services/switch_lounge.go:123-127 | within that window a repeated write of an open lounge is ignored as a duplicate |
| DedupWindow.DuplicateWasAccepted | services/switch_lounge.go:123-127 | a write is a duplicate only if its id was accepted before |
| DedupWindow.ForgottenIsAccepted | services/switch_lounge.go:88-105 | after the first cleanup past its lifetime an id is accepted again, if the lounge is open and its queue has room |
| Messages.DiscoveryIdIsInjective | utils/switch.go:29-32 | distinct (switch id, sequence number) pairs have distinct discovery ids, underscores notwithstanding |
| Messages.KeyIdentifies | utils/switch.go:29-32 | two messages have the same dedup key if and only if they have the same switch id and the same sequence number |
| Messages.KeyIsSpelled | utils/switch.go:29-32 | the key is the switch id, an underscore, and the digits of the sequence number without leading zeros |
| KeyRefinement.StepRefines | services/switch_lounge.go:115-127 | every step of the string-keyed lounge is a step of the pair-keyed one with the same outcome |
| KeyRefinement.RunRefines | services/switch_lounge.go:115-127 | every run of the string-keyed lounge is the image of a run of the pair-keyed one |
| Decimal.FormatRoundTrip | utils/switch.go:30 | a numeral is non-empty, all digits, and evaluates to its number |
| Decimal.FormatIsInjective | utils/switch.go:30 | distinct numbers have distinct numerals |
| Decimal.FormatExactly | utils/switch.go:30 | a number is written as the one string of digits with its value that has no leading zeros |
| RotatedName.FormatRoundTrip | utils/log.go:18-21 | for every non-empty newline-free base, even one that looks like a rotated name itself, and 31-bit id, the lazy anchored pattern recovers both from the formatted name |
| RotatedName.RoundTripExactly | utils/log.go:18-21 | a formatted name is recognised if and only if its base is non-empty and newline-free and its id fits 32 bits |
| RotatedName.SpellingRoundTrip | utils/log.go:18-21 | base and id are recovered however the id is spelled, leading zeros included |
| RotatedName.ParseExactly | utils/log.go:72-83 | a name is recognised with a base and an id if and only if the base is non-empty and newline-free, the id fits 32 bits, and the name spells them |
| RotatedName.ParseIsSound | utils/log.go:72-83 | a recognised name is base, middle part, digits with that value, extension, with a non-empty newline-free base and a 31-bit id |
| RotatedName.FormatExactly | utils/log.go:20-21 | a rotated file is named by its base, "_rotated.", the digits of its id without leading zeros, and ".log" |
| RotatedName.EmptyBaseIsLost | utils/log.go:18-21 | a rotated name with an empty base is not recognised |
| RotatedName.FormatDetermines | utils/log.go:107 | equal formatted names have the same base and id, whatever the bases look like |
| RotatedName.FormatIsInjective | utils/log.go:107 | distinct ids of one base have distinct names |
| LogHistory.WriteConserves | utils/log.go:130-153 | one write deletes a prefix of the retained bytes and appends the data; nothing in between is lost or reordered |
| LogHistory.LogIsSuffixOfHistory | utils/log.go:130-153 | over every run of writes, initial contents plus all data equals deleted bytes followed by retained bytes |
| LogHistory.LogStaysBounded | utils/log.go:90-122 | over every run from any log: the history is as it was or has at most the maximum of files; gaps in the ids do not arise; every file is within the size limit, one oversized write, or was there to begin with |
| LogHistory.RotateCount | utils/log.go:90-102 | a rotation leaves min(n + 1, max) historical files |
| LogHistory.LogSpace | utils/log.go:142-151 | if neither the size limit nor any write nor any initial file exceeds a size, the log never takes more than that for the current file and for each of max historical ones, or as many as there were |
| LogRotation.ListingIsHistory | utils/log.go:66-88 | whatever order the directory is read in, the sorted listing is the history of the log |
| LogRotation.CurrentIsNotRotated | utils/log.go:115 | the current file never has the name of one of its own rotated files |
| LogRotation.RemoveAllExact | utils/log.go:94-100 | the deleting loop removes exactly the listed files and touches no contents |
| LogRotation.ShiftUpExact | utils/log.go:104-113 | on the files of one log under their canonical names, the renaming loop is exactly the shift k to k + 1, keeps all else, and no rename meets an existing file (for any listing see RotationOverwrites) |
| RotationRefinement.RemovalKeeps | utils/log.go:91-102 | deleting the tail of the listing deletes exactly the oldest segments of the log |
| RotationRefinement.ShiftRenumbers | utils/log.go:104-113 | the renaming loop renumbers the kept segments, and leaves number 1 free |
| RotationRefinement.RotationRefines | utils/log.go:62-127 | a rotation of a directory that holds a log yields a directory that holds the rotated log; all other files are untouched and nothing is overwritten |
| RotationRefinement.RepresentsUnique | utils/log.go:66-88 | a directory holds at most one log |
| RotationRefinement.EveryLogIsHeld | utils/log.go:66-88 | and every log with ascending 31-bit ids from 1 on is held by some directory |
| RotationSurvival.ShiftUpNames | utils/log.go:104-113 | on any listing: after the renaming loop a name is in use if and only if something was renamed to it, or it was in use and is not listed, in which case its contents are untouched |
| RotationSurvival.CurrentSurvivesExactly | utils/log.go:89-121 | for every directory: a rotation ends with a current file if and only if that file was there and does not look like a rotated log, or a kept file is renamed to its name |
| RotationSurvival.PlainCurrentSurvives | utils/log.go:89-121 | a log file whose name does not look like a rotated log never goes missing |
| RotationSurvival.RotatedCurrentIsLost | utils/log.go:91-120 | a log file named like a rotated log is deleted by its own rotation with limit 1, which ends with an empty directory |
| RotationSurvival.EmptyBaseKeepsOne | utils/log.go:115-117 | with a log file named ".log" every rotation overwrites "_rotated.1.log" and touches no other such name, whatever the limit |
| RotationSurvival.DeletionIgnoresBase | utils/log.go:94-100 | whatever is listed from the number of files to keep on is deleted, whichever log it belongs to |
| RotationSurvival.OtherLogIsDeleted | utils/log.go:72-100 | an input on which a rotation deletes the rotated file of another log |
| RotationSurvival.IdZeroIsLost | utils/log.go:104-117 | if a kept file of a log has id 0, every file after the rotation is the new current file or has the contents of a file other than that one, so it is lost |
| RotationOverwrites.NeverClobbersExactly | utils/log.go:104-113 | on any listing, no rename of the loop meets an existing file if and only if the new names are distinct and each one in use belongs to a file to be renamed itself |
| RotationOverwrites.LoopOverwritesNothingExactly | utils/log.go:89-113 | for every directory: that is so if and only if no two kept files have one id in two spellings and none with id 2^31 - 1 has a successor |
| RotationOverwrites.KeptContents | utils/log.go:104-113 | for every directory: what a kept file holds is found under its next number, unless another file of the same base and id precedes it |
| RotationOverwrites.FirstIsFreeExactly | utils/log.go:115-117 | for every directory: the target of the last rename is occupied if and only if a kept file of this log has id 0, or it was there before and is not recognised |
| RotationOverwrites.OverwritesNothingExactly | utils/log.go:89-121 | for every directory: a rotation overwrites no file if and only if all of this is excluded, told from the directory before it |
| RotationOverwrites.NothingElseIsLost | utils/log.go:89-121 | then every kept file is found under its next number, the current file as number 1, and every other file where it was |
| RotationOverwrites.SpellingIsLost | utils/log.go:74-113 | an input with one id in two spellings: whichever of the two files is listed first, the other is gone |
| RotationOverwrites.AboveGreatestIsLost | utils/log.go:74-113 | an input with id 2^31 - 1 and its successor: the successor is overwritten |
| RotationAmong.RotationAmongOthers | utils/log.go:62-127 | a rotation of a directory with any other files in it is a rotation of the log among them: it keeps the newest part of its history, in order and byte for byte |
| RotationAmong.KeptAmongExactly | utils/log.go:86-102 | the part of a log that is kept is exactly what is listed of it among the files to keep |
| RotationAmong.RunAmong | utils/log.go:62-153 | over every run, whatever becomes of other files between the writes, the directory goes on holding this log, and everything ever there is what was deleted followed by what is retained |
| RotationAmong.OwnFilesAreSuffix | utils/log.go:62-153 | so the retained files of a log among others, read from highest id to 1 and then the current one, are a suffix of everything ever there |
| LogRotation.StemIsBeforeLastDot | utils/path.go:33-37 | the stem of a file name is what precedes its last dot, or all of it without one |
| RotatingLog.LogWriter.constructor | utils/log.go:38-59 | opens the current file with what it holds, or creates it empty, and touches no other |
| RotatingLog.LogWriter.ListLogs | utils/log.go:66-88 | lists each recognised file of the directory once, with its base and id, by ascending id |
| RotatingLog.LogWriter.DeleteFrom | utils/log.go:94-100 | deletes the files listed from an index on; none of the deletions can fail |
| RotatingLog.LogWriter.RenameAll | utils/log.go:104-113 | renames all listed files from the highest id down; none of the renames can fail |
| RotatingLog.LogWriter.RotateLogs | utils/log.go:62-127 | yields the rotated directory and an empty current file; fails if and only if, in the directory before it, the current file looks like a rotated log and no kept file is to be renamed to its name; panics if and only if the limit is not positive |
| RotatingLog.LogWriter.Write | utils/log.go:130-153 | refused if closed or not open; otherwise rotates exactly if the size limit would be exceeded, fails exactly if that rotation fails, and then appends; a successful write is a step of the runs of RunRefines and RunAmong |
| RotatingLog.LogWriter.Close | utils/log.go:156-171 | succeeds if closed already or open, and fails on a handle that a failed rotation left closed |
| RotatingLog.SortById | utils/log.go:86-88 | a permutation in ascending order of ids |
| RotatingLog.WriteRefines | utils/log.go:130-153 | one write to a directory that holds a log is one write to that log |
| RotatingLog.RunRefines | utils/log.go:130-153 | over every run of writes the directory holds the log computed by the specification |
| RotatingLog.RetainedFilesAreSuffix | utils/log.go:62-153 | over every run, the retained files read from highest id to 1 and then the current one are a suffix of everything ever there |
| Cipher.DecryptInvertsEncrypt | utils/cipher.go:28-60 | decryption inverts encryption for every nonce; the envelope adds 28 bytes, or none without a secret |
| Cipher.DecryptExactly | utils/cipher.go:43-60 | for an AEAD that opens only what it sealed: data opens to a text if and only if it is a nonce of 12 bytes and that text sealed under it; without a secret, if and only if it is the text |
| Cipher.RefusedExactly | utils/cipher.go:49-58 | so with a secret everything else is refused, whether never sealed or tampered with |
| Framing.BigEndianRoundTrip | services/tcp_core.go:175-176 | the length field is read back as it was written |
| Framing.FrameIsSpelled | services/tcp_core.go:150-190 | a heartbeat is the byte 2; a frame is the byte 1, the length in four bytes with the most significant first, and the payload |
| Framing.CutDeliversPrefix | services/tcp_core.go:65-92 | for any bytes and any cut, the messages delivered before the cut are the first of those the whole stream delivers |
| Framing.CutStops | services/tcp_core.go:65-92 | a cut never makes the receiver reject what the whole stream would not have made it reject |
| Framing.CleanPiecesAreDelivered | services/tcp_core.go:56-117 | heartbeats and well-formed frames are received one by one, and reading goes on right behind them, whatever follows |
| Framing.StreamRoundTrip | services/tcp_core.go:134-201 | for every interleaving of heartbeats and frames of at most 1 MiB, exactly the messages are delivered and every byte is consumed |
| Framing.CutStreamDeliversPrefix | services/tcp_core.go:65-92 | every cut of such a stream delivers a prefix of the messages and ends as a cut, not as a rejection |
| Framing.DeliveredWereFramed | services/tcp_core.go:56-117 | conversely, on any stream the delivered messages are those of whole frames at the start of the stream |
| Framing.OnlySealedIsDelivered | services/tcp_core.go:94-112 | with a secret, on any stream: every frame read is some text sealed under the key, and the delivered messages are what these texts unmarshal to, in order |
| Framing.RefusedFrameStops | services/tcp_core.go:95-100 | a frame of anything else ends delivery: exactly the messages before it arrive |
| Framing.SealedFrameFits | services/tcp_core.go:83-94 | a sealed message is delivered if and only if it is at most 1 MiB with its 28 bytes of overhead; a longer one drops the connection |
| Framing.StrayTypeStops | services/tcp_core.go:157-173 | after a lone type byte the receiver delivers nothing more, whatever the sender sends |
| Framing.DeliveredUpToStray | services/tcp_core.go:157-173 | with a lone type byte somewhere, exactly the messages before it are delivered |
| TcpCore.WriteAllBytes | utils/net.go:58-67 | on success all data is on the stream, however short the single writes; on failure a prefix of it |
| TcpCore.SendText | services/tcp_core.go:154-186 | leaves a whole frame of the sealed text, a lone type byte exactly if randomness failed, or the beginning of a frame exactly if a write failed |
| TcpCore.EncryptRandomly | utils/cipher.go:28-40 | with a secret, exactly one nonce is drawn, and the result is that nonce and the text sealed under it; fails exactly if randomness fails; without a secret the text passes and nothing is drawn |
| TcpCore.HandleSend | services/tcp_core.go:134-201 | the stream is the image of one piece per event, each one that this event may leave; if no write and no draw of randomness fails, every event has its turn: a heartbeat per tick, a whole frame per message; each frame is sealed under the nonce drawn in its turn; and the loop ends early exactly after a turn whose first write found the connection closed |
| TcpCore.FrameUsesItsDraw | utils/cipher.go:33-38 | every frame begins with the nonce that follows the draws of all turns before it, and holds its message sealed under that nonce |
| TcpCore.NoncesAreDistinct | utils/cipher.go:33-38 | if the random source does not repeat itself, no two frames of a connection share a nonce |
| TcpCore.FramesUseDrawsInOrder | utils/cipher.go:33-38 | without a cut frame, the k-th frame on the stream opens under the k-th nonce drawn, and there are as many of one as of the other |
| TcpCore.HandleRecv | services/tcp_core.go:52-117 | the loop over one reused buffer delivers exactly what the receiver function says of the stream, and stops for that reason |
| TcpCore.EndToEnd | services/tcp_core.go:134-201 | serialised, sealed and framed messages with heartbeats anywhere come out of the receiver as exactly the messages sent |
| TcpCore.EncryptionFailureEndsDelivery | services/tcp_core.go:167-173 | if the first failure is an encryption failure, exactly the messages before it arrive |
| TcpCore.MessagesBeforeFailureArrive | services/tcp_core.go:154-186 | whatever fails first, the messages before it arrive, first and in order |

## Left out

* Sockets, UDP multicast, HTTP(S) requests to clients, TLS, signals, goroutines and tickers: they are steps or parameters. The clock is a parameter of the lounge.
* Protobuf and JSON, AES-GCM and SHA-256: library code. The framing theorems take serialisation and an AEAD as parameters. Of the AEAD they assume that opening inverts sealing and that 16 bytes are added; DecryptExactly and what builds on it also assume that it opens nothing but what it sealed, which AES-GCM offers up to a negligible probability. GenuineExists shows that the assumptions can be met.
* FloodNetwork joins the receiving goroutine, the channel to the core loop and `SwitchLounge.Write` into one step, and keeps each connection first in, first out. The 128 places of that channel, which all connections of a node share, are part of the window of each link.
* FloodNetwork has neither eviction nor expiry, and its connections neither appear nor break: the flood theorems are about one lifetime of an id on a fixed topology. How long an id is remembered is what `DedupWindow` proves.
* Sequence numbers do not wrap at 2^64, and switch identifiers are taken to be distinct.
* A multicast message carries the address of a local UDP client, which is taken to differ from the remote address of every connection.
- FloodTheorems.FloodCovers: whether an origin records a message that it broadcast depends on the interleaving; BroadcasterHearsItself says when it does.
- FloodExhaustion.AffordsExactly: stated for captured messages. For broadcast ones the condition is sufficient only, since the broadcaster itself passes over nothing and its copies may arrive with TTL 0, which wraps.
- FloodLounge.WriteAgrees: the network machine has no eviction, so agreement is stated below the size cap of the table; NodesRunLounges holds in every run that originates no more messages than that.
- SwitchCore.Forward: a send on a full channel waits in the source; the bound of 32 is modelled in FloodNetwork only. The registration requests to clients (services/switch_core.go:80-108) are not part of this model.
- ConnectionHub.TCPConnectionHub.GetConnectionsExcept: the result is a snapshot. That a channel is still open when the caller gets to send on it is not claimed.
- LogRotation.ShiftUpExact: for the files of one log with canonical names and distinct ids. The general statements are in RotationOverwrites.
- RotationRefinement.RotationRefines: requires that every file the pattern recognises belongs to this log under its canonical name, with ids from 1, and that kept ids are below 2^31 - 1. RotationAmong allows for the files of other logs; RotationOverwrites and RotationSurvival say what happens without the rest.
- RotationAmong.RunAmong: between two writes others may do anything to other files, but must leave the files of this log alone. A second writer in the same directory would renumber and delete them too (DeletionIgnoresBase), which is not followed over runs.
- RotatingLog.LogWriter.Write: file-system errors other than missing files, and a directory that others change between writes, are not part of this model.
- TcpCore.MessagesBeforeFailureArrive: after a write that failed half-way the sender goes on with the next message, and the receiver reads the remains of the first as part of it. Nothing is claimed of what it makes of that, except after an encryption failure.
* `connectPeer` and its retries, the TCP server, the lounge of local clients, the alive checker, packing of client information, configuration, command line and autostart: they would only add easy members.
* The read deadline, and the removal of a connection when its receiver stops: a stream may end anywhere, which is what the truncation theorems are about.
