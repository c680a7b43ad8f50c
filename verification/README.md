# AODV route discovery

A Dafny model of the route-discovery engine in `aodv/model`, an implementation of AODV (RFC 3561) for ns-3,
with proofs of what its parts and whole networks of it promise.

## How it is built

* Objects the program updates in place are classes with loops and fields: `RoutingTables.RoutingTable`,
  `RequestQueues.RequestQueue`, `IdCacheObject.IdCache`, `NeighborLists.Neighbors`, `WireObjects.Buffer`, and
  `RoutingProtocols.RoutingProtocol`, which owns the others. Every method is proved against a function on
  values (modules `RouteEntries`, `MultipathRoutes`, `PacketQueues`, `IdCaches`, `WireFormat`, `Nodes`).
* `Nodes.Node` is the state of one node as a value, `Nodes.Handle` what each event does to it;
  `RoutingProtocols.RoutingProtocol.Step` shows that the object steps as the value does.
* `Networks` puts nodes together. Everything a node has ever sent stays in its log; a packet in a log may be
  delivered to its addressee, and a broadcast to any node, any number of times, late, out of order, or never.
* `RouteViews` and `NodeViews` describe each handler by its effect on the routes that are visible after the
  next purge; all theorems about networks use these.
* The theorems: `LoopFreedom` and `LoopExample`, `IssuedNumbers`, `Floods` and `FloodEnds`, `ReverseTrees`,
  `ReplyHomes`, `ForwardRoutes`, `Discoveries` and `RingDiscoveries`, `SearchStates` and `Strandings`,
  `RingSearches`, `RingGuards`, `OverrunExample` and `RingBudgets`, `LinkBreaks`, `NeighborRuns`.
* What each operation does, whole, is stated beside them without reference to its own body: `EntryMachines` for
  the routing table, `HandlerEffects`, `RequestEffects`, `ReplyEffects` and `EventEffects` for the protocol.

Times are integers in nanoseconds and are passed to each call. Fields of fixed width wrap as they do in the
program; the difference of sequence numbers, which is signed overflow in C++, is modelled with wrap-around.
Attributes are assumed to satisfy `Nodes.Config.Sane`: durations are not negative and the queue holds at
least one packet.

## What the proofs found

* Loops. `RoutingTableEntry::Invalidate` (aodv/model/aodv-rtable.cc:156-167) does not raise the sequence
  number, although the comment at aodv/model/aodv-rtable.h:635-636 says that invalidation does; the model
  follows the code. A search for a destination whose number is known can therefore be answered by a node
  that routes through the searcher: `LoopExample` runs four freshly started nodes with the default attributes
  into such a loop. `LoopFreedom.Undisturbed` lists the steps that are safe.
* Stranded packets. `SendPacketFromQueue` returns at the first packet tied to another interface and leaves
  the ones behind it without a search; `Strandings` says exactly when, and shows a run.
* Give-up test. It is an equality. A request put off at the rate limit can jump over it: exactly when it comes
  with no retry left (`RingGuards.OverrunsIff`, `OverrunExample`), and only then can a count go on to
  wrap and abort the program. The equality with the diameter in `SendRequest` makes some parameter choices
  abort it (`RingBudgets.AbortsIff`); start-up only checks that TtlStart is at most NetDiameter.
* Sequence numbers. The destination raises its own number only when asked for its successor; asked for a
  later one, it would answer with an older number (`HandlerEffects.AnswerIsCurrent`). Neither happens while all
  nodes keep running: nobody asks for a number the destination has not reached (`IssuedNumbers`). It takes a
  destination that has been restarted, or messages of nodes outside the model.
* Precursors. When the route to the destination of a RREP runs through its origin, one of the four precursor
  insertions is overwritten by a stale copy (`HandlerEffects.PrecursorsNoted`).
* Large RERRs. A RERR with more than 255 destinations does not survive the wire (`WireFormat.RerrRoundTrip`).

## Model

| member | source | states |
|---|---|---|
| SequenceNumbers.SeqDiff | aodv/model/aodv-routing-protocol.cc:1400 | the signed 32-bit difference of two sequence numbers: congruent to the plain difference modulo 2^32, and in [-2^31, 2^31) |
| SequenceNumbers.WindowOrder | aodv/model/aodv-routing-protocol.cc:1487-1489 | on numbers within half the circle of a base, the test "difference > 0" is the order of the unwrapped numbers: total, antisymmetric |
| SequenceNumbers.WindowTransitive | aodv/model/aodv-routing-protocol.cc:1707 | inside such a window the test is transitive |
| SequenceNumbers.NoGlobalOrder | aodv/model/aodv-routing-protocol.cc:1707 | outside a window it is not: three numbers each newer than the next, in a circle |
| SequenceNumbers.NextAhead | aodv/model/aodv-routing-protocol.cc:1550-1553 | an increment is one step ahead, also across the rollover from 2^32 - 1 to 0 |
| SequenceNumbers.CounterOrder | aodv/model/aodv-routing-protocol.cc:1137 | a counter incremented fewer than 2^31 times orders its values exactly as it issued them |
| Headers.FlagBits | aodv/model/aodv-packet.cc:218-273 | setting or clearing a flag bit has that effect on that bit and none on the others |
| Headers.FlagPositions | aodv/model/aodv-packet.cc:218-273 | the G, D and U flags of a RREQ and the A flag of a RREP are the bits that RFC 3561 gives them |
| Headers.LifeTimeRoundTrip | aodv/model/aodv-packet.cc:369-380 | a duration that fits the millisecond field comes back from it short of less than a millisecond, and unchanged when it is whole milliseconds |
| WireFormat.Be32RoundTrip | aodv/model/aodv-packet.cc:170-199 | network byte order of a 32-bit field, both ways |
| WireFormat.RreqBytesInjective | aodv/model/aodv-packet.cc:170-181 | two RREQs with the same 23 bytes are the same RREQ |
| WireFormat.RrepBytesInjective | aodv/model/aodv-packet.cc:327-337 | two RREPs with the same 19 bytes are the same RREP |
| WireFormat.RreqLayout | aodv/model/aodv-packet.cc:170-181 | where each field of a RREQ stands on the wire |
| WireFormat.RrepLayout | aodv/model/aodv-packet.cc:327-337 | where each field of a RREP stands on the wire |
| WireFormat.RerrLayout | aodv/model/aodv-packet.cc:540-551 | where flag, count and each record of a RERR stand: record after record in strictly ascending order of address, each with the number the map has for it |
| WireFormat.RerrRead | aodv/model/aodv-packet.cc:553-573 | what is read back from any long enough buffer: flag and reserved byte, the addresses of the announced records, and for each the number of the first record that names it |
| WireFormat.RerrRoundTrip | aodv/model/aodv-packet.cc:540-573 | sorted emission and map insertion rebuild a RERR exactly when it names at most 255 destinations |
| WireFormat.RerrSizeCheck | aodv/model/aodv-packet.cc:553-573 | the size assertion at the end of Deserialize holds exactly when the records on the wire name distinct addresses |
| WireObjects.DeserializeType | aodv/model/aodv-packet.cc:62-83 | one byte is read; a known type is recognised, any other leaves the header invalid |
| WireObjects.SerializeRreq | aodv/model/aodv-packet.cc:170-181 | appends the 23 bytes of the header |
| WireObjects.DeserializeRreq | aodv/model/aodv-packet.cc:183-199 | consumes exactly 23 bytes and returns the one header that serialises to them |
| WireObjects.SerializeRrep | aodv/model/aodv-packet.cc:327-337 | appends the 19 bytes of the header |
| WireObjects.DeserializeRrep | aodv/model/aodv-packet.cc:339-355 | consumes exactly 19 bytes and returns the one header that serialises to them |
| WireObjects.SerializeRerr | aodv/model/aodv-packet.cc:540-551 | appends flag, reserved byte, one-byte count and the records in ascending order of address |
| WireObjects.DeserializeRerr | aodv/model/aodv-packet.cc:553-573 | consumes three bytes and eight for each announced record; an address named twice keeps its first number |
| WireObjects.SerializeRrepAck | aodv/model/aodv-packet.cc:473-477 | appends the one reserved byte |
| WireObjects.DeserializeRrepAck | aodv/model/aodv-packet.cc:479-487 | consumes one byte and returns the one reserved value that serialises to it |
| WireFormat.Unambiguous | aodv/model/aodv-packet.cc:62-83 | with the type byte in front no message is the beginning of another: two messages (RERRs of at most 255 destinations) that begin the same bytes are equal, and so is what follows |
| RouteEntries.WellFormedAlways | aodv/model/aodv-rtable.cc:271-317 | in every table that any sequence of public operations can leave, keys are the stored destinations and a non-zero request count implies IN_SEARCH |
| EntryMachines.EntriesIndependent | aodv/model/aodv-rtable.cc:222-466 | over every sequence of public operations, what the table has about a destination is what the life of that entry alone, stepped through the same operations, has come to; so no entry depends on any other |
| RouteEntries.ValidIsFresh | aodv/model/aodv-rtable.cc:243-255 | what LookupValidRoute hands out has not expired and is unchanged by its purge |
| RouteEntries.PurgeIdempotent | aodv/model/aodv-rtable.cc:377-413 | a second purge at the same instant changes nothing, if and only if the bad-link lifetime is not negative or no VALID entry is overdue |
| RouteEntries.PurgeIsTwoStage | aodv/model/aodv-rtable.cc:377-413 | a purge never removes a VALID entry and never touches a search; an overdue VALID entry goes down with a deadline |
| RouteEntries.DownEntryLifespan | aodv/model/aodv-rtable.cc:336-352 | over any run, an entry that went down at t is still there, unchanged, until the first purge strictly after t plus the bad-link lifetime, and that purge removes it |
| RoutingTables.RoutingTable.Purge | aodv/model/aodv-rtable.cc:377-413 | one walk over the map, erasing and invalidating in place, leaves the aged table; the multipath table is purged only when there was an entry |
| RoutingTables.RoutingTable.LookupRoute | aodv/model/aodv-rtable.cc:222-241 | purges, then finds the entry of the destination or none |
| RoutingTables.RoutingTable.LookupValidRoute | aodv/model/aodv-rtable.cc:243-255 | true exactly when the entry was VALID and not expired |
| RoutingTables.RoutingTable.DeleteRoute | aodv/model/aodv-rtable.cc:257-269 | purges, removes the entry, and tells whether there was one |
| RoutingTables.RoutingTable.AddRoute | aodv/model/aodv-rtable.cc:271-282 | purges, adds only a destination not there yet, and clears the request count of anything but a search |
| RoutingTables.RoutingTable.Update | aodv/model/aodv-rtable.cc:284-301 | replaces only a known destination, and clears the request count of anything but a search |
| RoutingTables.RoutingTable.SetEntryState | aodv/model/aodv-rtable.cc:303-317 | sets the flag of a known destination and clears its request count |
| RoutingTables.RoutingTable.MarkLinkAsUnidirectional | aodv/model/aodv-rtable.cc:451-466 | blacklists a known neighbour until the timeout and clears its request count |
| RoutingTables.RoutingTable.DeleteAllRoutesFromInterface | aodv/model/aodv-rtable.cc:354-375 | the erase-while-walking loop removes exactly the entries on the interface, without a purge |
| RoutingTables.RoutingTable.Clear | aodv/model/aodv-rtable.h:682-685 | empties the table and leaves the multipath table |
| RoutingTables.RoutingTable.GetListOfDestinationWithNextHop | aodv/model/aodv-rtable.cc:319-334 | a destination is listed if and only if it is routed through the next hop, whatever its flag, and with the sequence number of its entry |
| RoutingTables.RoutingTable.InvalidateRoutesWithDst | aodv/model/aodv-rtable.cc:336-352 | exactly the listed VALID entries of the purged table go down |
| RoutingTables.RoutingTable.AddMultipathRoute | aodv/model/aodv-rtable.cc:803-823 | expired paths go, the path through a known next hop is replaced where it stands, a new one goes to the end |
| RoutingTables.RoutingTable.RemoveMultipathRoute | aodv/model/aodv-rtable.cc:869-889 | the path goes, an emptied destination goes; the answer is whether the destination was there |
| RoutingTables.RoutingTable.GetAllMultipathRoutes | aodv/model/aodv-rtable.cc:843-854 | exactly the paths whose expiry lies after now |
| RoutingTables.RoutingTable.HasMultipathRoute | aodv/model/aodv-rtable.cc:856-867 | true exactly when a path has not expired |
| RoutingTables.RoutingTable.GetBestMultipathRoute | aodv/model/aodv-rtable.cc:825-841 | the first of the unexpired paths with the fewest hops, or none when all have expired |
| RoutingTables.RoutingTable.PurgeMultipathRoutes | aodv/model/aodv-rtable.cc:891-911 | every destination keeps its unexpired paths; one without any goes |
| MultipathRoutes.PutAt | aodv/model/aodv-rtable.cc:504-542 | a path through a next hop not seen before goes to the end, otherwise it replaces the first through that next hop |
| MultipathRoutes.PathsAfter | aodv/model/aodv-rtable.cc:504-590 | which paths to a destination there are after any operation on any reachable table: expired ones go exactly when the operation looks at the destination, a new one replaces the one through its next hop |
| MultipathRoutes.LazyRefinesEager | aodv/model/aodv-rtable.cc:803-911 | for every interleaving of operations and clock advances, the lazily purged table shows at any instant exactly what a table shows that drops paths the moment they expire |
| MultipathRoutes.NextHopsUniqueAlways | aodv/model/aodv-rtable.cc:504-542 | in every reachable multipath table, no destination has two paths through one next hop |
| PacketQueues.LedgerBalances | aodv/model/aodv-rqueue.cc:40-144 | over any sequence of operations, the accepted packets are, with multiplicity, those waiting, those returned and those given to their error callback |
| PacketQueues.QueueStaysOrderly | aodv/model/aodv-rqueue.cc:40-60 | with a limit of at least one and a monotone clock: never over the limit, (uid, destination) pairs unique, sorted by expiry, so that an overflow evicts the oldest |
| PacketQueues.FirstInFirstOut | aodv/model/aodv-rqueue.cc:80-93 | packets for one destination leave in the order in which they were accepted |
| PacketQueues.EnqueuedOnce | aodv/model/aodv-rqueue.cc:40-60 | a packet is refused if and only if an unexpired one with its id and destination waits; otherwise it is appended with its expiry, and the front of a full queue is reported |
| PacketQueues.DequeuedFirst | aodv/model/aodv-rqueue.cc:80-93 | what is handed out is the first unexpired packet for the destination, and it alone leaves the queue; nothing when there is none |
| PacketQueues.DroppedAll | aodv/model/aodv-rqueue.cc:62-77 | giving up a destination reports exactly the packets for it and the expired ones, and keeps exactly the others |
| RequestQueues.RequestQueue.Enqueue | aodv/model/aodv-rqueue.cc:40-60 | refuses a known (uid, destination), evicts the front of a full queue through its error callback, stamps and appends the rest |
| RequestQueues.RequestQueue.Dequeue | aodv/model/aodv-rqueue.cc:80-93 | takes out and returns the first unexpired packet for the destination |
| RequestQueues.RequestQueue.DropPacketWithDst | aodv/model/aodv-rqueue.cc:62-77 | every packet for the destination is reported once, then removed |
| RequestQueues.RequestQueue.Find | aodv/model/aodv-rqueue.cc:96-107 | true exactly when a packet for the destination waits |
| RequestQueues.RequestQueue.GetSize | aodv/model/aodv-rqueue.cc:33-37 | the number of unexpired packets |
| RequestQueues.RequestQueue.PurgeExpired | aodv/model/aodv-rqueue.cc:126-137 | two passes: expired packets are reported once each, then removed; order kept |
| IdCaches.DuplicateIffRecorded | aodv/model/aodv-id-cache.cc:25-39 | for every history of calls with a monotone clock and any lifetimes: a call answers true exactly when an earlier call for the same key answered false and its lifetime has not run out |
| IdCaches.FalseAnswersFarApart | aodv/model/aodv-id-cache.cc:25-39 | two false answers for one key are further apart than the lifetime set at the first |
| IdCaches.KeysUniqueAlways | aodv/model/aodv-id-cache.cc:25-45 | no key is in the cache twice |
| IdCaches.CacheIsHistory | aodv/model/aodv-id-cache.cc:25-45 | an unexpired record is in the cache exactly when some call left it there |
| IdCacheObject.IdCache.IsDuplicate | aodv/model/aodv-id-cache.cc:25-39 | the linear search and the in-place append answer and remember as the history says |
| IdCacheObject.IdCache.Purge | aodv/model/aodv-id-cache.cc:41-45 | exactly the records whose expiry has not passed stay, in order |
| IdCacheObject.IdCache.GetSize | aodv/model/aodv-id-cache.cc:47-51 | the number of unexpired records |
| NeighborLists.Neighbors.Purge | aodv/model/aodv-neighbor.cc:107-129 | exactly the expired or closed neighbours go, and each is reported in list order |
| NeighborLists.Neighbors.Update | aodv/model/aodv-neighbor.cc:68-87 | a known neighbour never loses lifetime; a new one is appended and the list purged; addresses stay distinct |
| NeighborLists.Neighbors.IsNeighbor | aodv/model/aodv-neighbor.cc:40-51 | true exactly for a listed neighbour that is neither expired nor closed |
| NeighborLists.Neighbors.ProcessTxError | aodv/model/aodv-neighbor.cc:167-179 | closes the neighbours behind the failed address, and no others, then purges |
| NeighborLists.OneFailureEach | aodv/model/aodv-neighbor.cc:107-129 | each neighbour removed from a list without repetitions is reported to the failure handler exactly once, and nobody else is |
| EventEffects.NeighborsLeft | aodv/model/aodv-neighbor.cc:107-129 | a neighbour stays if and only if its time has not passed and it is not closed |
| EventEffects.NeighborNew | aodv/model/aodv-neighbor.cc:68-87 | a new neighbour is added to what a purge of the list without it leaves, and exactly the links that would have broken without it break |
| NeighborRuns.DistinctKept | aodv/model/aodv-neighbor.cc:68-87 | no event of a node lists an address twice |
| NeighborRuns.FailuresOnce | aodv/model/aodv-neighbor.cc:107-129 | so after every run of a node that started without neighbours a purge reports each closing neighbour exactly once |
| RoutingProtocols.RoutingProtocol.constructor | aodv/model/aodv-routing-protocol.cc:134-195 | a fresh protocol has empty tables, no timers and zero counters |
| RoutingProtocols.RoutingProtocol.UpdateRouteToNeighbor | aodv/model/aodv-routing-protocol.cc:1292-1332 | a one-hop route to the sender is created or put in place of anything but a one-hop route with a known number; its lifetime is in HandlerEffects.HeardStays |
| RoutingProtocols.RoutingProtocol.UpdateRouteLifeTime | aodv/model/aodv-routing-protocol.cc:1273-1289 | updates exactly a VALID entry, and its deadline becomes the later of the old one and the new |
| HandlerEffects.NeighborHeard | aodv/model/aodv-routing-protocol.cc:1292-1332 | the entry of the sender after any message, field by field, with its deadline; all others are those of the purged table |
| HandlerEffects.HeardStays | aodv/model/aodv-routing-protocol.cc:1292-1332 | at every later instant the route to a sender is VALID if and only if the route timeout since then has not passed or the deadline it had has not; a one-hop route with a known number keeps its flag and its deadline |
| HandlerEffects.UsedRouteStays | aodv/model/aodv-routing-protocol.cc:1273-1289 | a used route is VALID at a later purge exactly until the later of the two deadlines |
| RoutingProtocols.RoutingProtocol.SendRequest | aodv/model/aodv-routing-protocol.cc:1053-1178 | at the rate limit the call is put off; otherwise the ring grows in 16-bit arithmetic, the counters advance, the id is remembered and one RREQ goes out |
| RequestEffects.RequestSent | aodv/model/aodv-routing-protocol.cc:1053-1213 | a request, whole: put off exactly at the limit; otherwise one RREQ with exactly these flags, numbers and TTL, exactly one entry of the table changed to that of the search, and the wait that ring and count call for, or the abort |
| RoutingProtocols.RoutingProtocol.ScheduleRreqRetry | aodv/model/aodv-routing-protocol.cc:1187-1213 | linear wait below the network diameter, doubling wait at it, abort at the diameter with a zero count |
| RoutingProtocols.RoutingProtocol.RecvRequest | aodv/model/aodv-routing-protocol.cc:1335-1538 | blacklist, duplicate, reverse route, neighbour route, then reply or relay, in that order and with those purges |
| RequestEffects.ReverseEntry | aodv/model/aodv-routing-protocol.cc:1381-1418 | the entry of the originator after a RREQ, field by field: a known number that is no older stays, the deadline never moves back, the flag stays |
| RequestEffects.NeighborEntry | aodv/model/aodv-routing-protocol.cc:1420-1445 | the entry of the node a RREQ came from, field by field: one hop, VALID for the route timeout, under a number that does not count |
| RoutingProtocols.RoutingProtocol.AnswerOrRelay | aodv/model/aodv-routing-protocol.cc:1452-1538 | the destination replies, a fresh enough VALID route replies, a route back through the sender stays silent, everything else with TTL of at least two goes on |
| RequestEffects.AnswersIff | aodv/model/aodv-routing-protocol.cc:1458-1509 | a node that is not the destination sends a RREP if and only if it has a VALID route with a known number no older than asked for that does not lead back, and the D flag is off; it is silent exactly when, without such an answer, the route leads back or the TTL is below two; otherwise the RREQ that goes on is this one |
| RequestEffects.AnswersFromView | aodv/model/aodv-routing-protocol.cc:1458-1496 | the same condition over the routes visible at the time of the call |
| RoutingProtocols.RoutingProtocol.SendReply | aodv/model/aodv-routing-protocol.cc:1542-1570 | one RREP along the reverse route, with hop count 0, its hops as TTL, and the own number after the call; that advances by at most one, and is no older than the number asked for exactly when that is at most one ahead |
| HandlerEffects.AnswerIsCurrent | aodv/model/aodv-routing-protocol.cc:1550-1553 | the same about nodes: a RREQ that asks for a number two or more ahead would be answered with an older one |
| IssuedNumbers.OnlyIssuedNumbers | aodv/model/aodv-routing-protocol.cc:1542-1724 | in every run of fewer than 2^31 steps, whatever happens: every number of a destination in a table, in a RREP about it, in a RREQ of it and in a RREQ for it is one that the destination has issued by then |
| IssuedNumbers.NeverAskedAhead | aodv/model/aodv-routing-protocol.cc:1550-1553 | so in such a run no RREQ asks for a number ahead of the destination: its answer keeps its own number, and is never older than asked for |
| RoutingProtocols.RoutingProtocol.SendReplyByIntermediateNode | aodv/model/aodv-routing-protocol.cc:1573-1633 | precursors both ways, the RREP from the table, and the gratuitous one on request |
| RequestEffects.TableAnswer | aodv/model/aodv-routing-protocol.cc:1573-1633 | one RREP about the destination, asking for an acknowledgement exactly when that is one hop away, and one about the originator exactly when a gratuitous one was asked for, with the hops, numbers, remaining lifetimes, TTLs and addressees of the two routes |
| RequestEffects.TableAnswerNoted | aodv/model/aodv-routing-protocol.cc:1596-1599 | the next hop of each of the two routes becomes a precursor of the other, and no entry changes otherwise |
| RoutingProtocols.RoutingProtocol.RecvReply | aodv/model/aodv-routing-protocol.cc:1655-1814 | HELLO, installation by the four rules, acknowledgement, then the originator or the relay branch |
| ReplyEffects.ReplyArrived | aodv/model/aodv-routing-protocol.cc:1732-1748 | a RREP at the node that asked, whole: the route, the acknowledgement, the timer, and the packets that go out by the route there is afterwards |
| RoutingProtocols.RoutingProtocol.InstallRoute | aodv/model/aodv-routing-protocol.cc:1694-1724 | the offered route is stored when there is none or one of the rules (i) to (iv) holds, and only then |
| ReplyEffects.InstallsIff | aodv/model/aodv-routing-protocol.cc:1663-1724 | the table after a RREP: the purged one, with the offered route, field by field, if and only if there was none, its number was unknown or older, or the same on a route that is not VALID or is longer |
| RoutingProtocols.RoutingProtocol.FinishSearch | aodv/model/aodv-routing-protocol.cc:1732-1748 | a running search takes the offer unconditionally and loses its timer; in any case the waiting packets go out |
| RoutingProtocols.RoutingProtocol.RelayReply | aodv/model/aodv-routing-protocol.cc:1750-1796 | passed on whether or not the route was installed, unless the way to the origin is missing or being searched for, or the TTL is below two |
| ReplyEffects.ReplyPassedOn | aodv/model/aodv-routing-protocol.cc:1750-1796 | a RREP on its way, whole: nothing happens without a way to the origin; otherwise that way lives on for the route timeout at least, the precursors of every entry are those of PrecursorsNoted if the route to the destination is VALID and unchanged if not, and with a TTL of at least two it goes to the next hop |
| HandlerEffects.PrecursorsNoted | aodv/model/aodv-routing-protocol.cc:1760-1779 | which precursors every entry has after the four insertions: the next hop to the origin on the entries of the destination and of its next hop, the next hop to the destination on those of the origin and of its next hop; when the route to the destination runs through the origin, the written-back copy loses the first of these |
| HandlerEffects.AckRestores | aodv/model/aodv-routing-protocol.cc:1818-1828 | the entry of the sender becomes VALID whatever it was, nothing else changes, and the next lookup finds it exactly when it has not run out |
| RoutingProtocols.RoutingProtocol.ProcessHello | aodv/model/aodv-routing-protocol.cc:1831-1871 | a one-hop VALID route to the sender of the HELLO under its sequence number, and the neighbour list refreshed |
| ReplyEffects.HelloTakes | aodv/model/aodv-routing-protocol.cc:1831-1871 | the entry that a HELLO leaves, field by field: a new one lives as long as the HELLO says, the deadline of a known one never moves back |
| RoutingProtocols.RoutingProtocol.RecvError | aodv/model/aodv-routing-protocol.cc:1874-1929 | the drain and refill loops terminate, never trip the 255-destination assertion for a RERR off the wire, and take down and announce exactly what was lost |
| RoutingProtocols.RoutingProtocol.SendRerrWhenBreaksLinkToNextHop | aodv/model/aodv-routing-protocol.cc:2084-2135 | everything routed through the neighbour is listed with a duplicate-free union of precursors, announced and taken down; a neighbour without an entry is passed over |
| RoutingProtocols.RoutingProtocol.GetPrecursors | aodv/model/aodv-rtable.cc:130-154 | the precursors are added without repeating any |
| RoutingProtocols.RoutingProtocol.SendRerrMessage | aodv/model/aodv-routing-protocol.cc:2194-2273 | to the only precursor, or to everyone when there are several, and only when a VALID route leads to one of them |
| RoutingProtocols.RoutingProtocol.PurgeNeighbors | aodv/model/aodv-neighbor.cc:107-129 | with the failure handler installed: every failure is handled in order, then the list is purged |
| RoutingProtocols.RoutingProtocol.UpdateNeighbor | aodv/model/aodv-neighbor.cc:68-87 | Neighbors::Update with its failures handled |
| RoutingProtocols.RoutingProtocol.ProcessTxError | aodv/model/aodv-neighbor.cc:167-179 | Neighbors::ProcessTxError with its failures handled |
| RoutingProtocols.RoutingProtocol.SendPacketFromQueue | aodv/model/aodv-routing-protocol.cc:2060-2081 | the dequeue loop forwards in order and stops at a packet tied to another interface |
| RoutingProtocols.RoutingProtocol.DeferredRouteOutput | aodv/model/aodv-routing-protocol.cc:480-502 | an accepted packet starts a search unless one is on |
| EventEffects.PacketWaits | aodv/model/aodv-routing-protocol.cc:480-502 | a packet that waits already changes nothing but the queue; any other asks for its destination if and only if no search for it is on |
| RoutingProtocols.RoutingProtocol.RouteRequestTimerExpire | aodv/model/aodv-routing-protocol.cc:1932-1971 | forward, give up at the last retry, ask again while searching, give up otherwise |
| EventEffects.TimerFired | aodv/model/aodv-routing-protocol.cc:1932-1971 | forwards exactly with a VALID route, asks again exactly when a search has a count other than the retries, and gives up in every other case |
| RoutingProtocols.RoutingProtocol.RecvAodv | aodv/model/aodv-routing-protocol.cc:1217-1270 | the sender is refreshed first, then the message is dispatched by type; Step adds the packet of unknown type, which only refreshes the sender |
| HandlerEffects.HelloHeard | aodv/model/aodv-routing-protocol.cc:2018-2055 | whoever hears a HELLO, whatever other links it finds broken, has a VALID one-hop route to its sender under its own number, and lists it as a neighbour for the lifetime of a HELLO |
| RoutingProtocols.RoutingProtocol.RreqRateLimitTimerExpire | aodv/model/aodv-routing-protocol.cc:1995-2000 | the request counter starts afresh and nothing else changes |
| RoutingProtocols.RoutingProtocol.Step | aodv/model/aodv-routing-protocol.cc:1217-1270 | every event moves the object exactly as it moves the nodes of the network theorems |
| LinkBreaks.LinkBreakComplete | aodv/model/aodv-routing-protocol.cc:2084-2135 | after a purge that removed neighbours, the table is the purged table in which exactly the VALID entries of, and through, each removed neighbour with an entry of its own are down |
| LinkBreaks.AnnouncesOnly | aodv/model/aodv-routing-protocol.cc:2084-2135 | every RERR that a purge of the neighbour list sends lists one removed neighbour and everything routed through it in the purged table, each with the sequence number of its entry, and nothing else |
| LinkBreaks.AnnouncesAll | aodv/model/aodv-routing-protocol.cc:2194-2273 | and a loss that fits one RERR and that a precursor with a VALID route relied on is announced |
| LinkBreaks.AnnouncesExactly | aodv/model/aodv-routing-protocol.cc:2084-2135 | the whole log of a purge of the neighbour list, read off the purged table alone: for each closing neighbour with an entry, in order, the RERR with exactly what is lost with it, to the only precursor or to everyone, unless its count is zero or no precursor has a VALID route that is not downstream of an earlier loss |
| LinkBreaks.RecvErrorTakesDown | aodv/model/aodv-routing-protocol.cc:1874-1929 | exactly the VALID entries listed in the RERR whose next hop is its sender go down; all others are those of the purged table |
| LinkBreaks.RecvErrorReports | aodv/model/aodv-routing-protocol.cc:1890-1927 | what is sent on is exactly the listed destinations reached through the sender, with the numbers received, and never more than was received |
| LinkBreaks.RecvErrorAnnounces | aodv/model/aodv-routing-protocol.cc:1874-1929 | what a received RERR makes a node send, exactly: one RERR cut down to what is hit if its count is not zero and a precursor of it has a VALID route, to the only precursor or to everyone; nothing otherwise |
| LinkBreaks.RecvErrorPassedOn | aodv/model/aodv-routing-protocol.cc:1916-1927 | so a RERR off the wire that hits a route somebody reachable relies on is passed on |
| NextHopGraphs.AcyclicToRoot | aodv/model/aodv-routing-protocol.cc:1694-1724 | if every next hop is the root or ranks strictly better, every walk reaches the root within as many hops as there are nodes, and none comes back |
| LoopFreedom.StepEffect | aodv/model/aodv-routing-protocol.cc:1663-1724 | under the invariant, a harmless step of any node never worsens its rank (sequence number, then fewer hops) for the destination, and every RREP it sends about it is one it can vouch for |
| LoopFreedom.InvKept | aodv/model/aodv-routing-protocol.cc:1750-1796 | such a step keeps the network invariant: next hops rank strictly better than the nodes that use them, and senders at least as good as their RREPs, also for RREPs passed on without being installed |
| LoopFreedom.InvMeansLoopFree | aodv/model/aodv-routing-protocol.cc:1694-1724 | under the invariant, following next hops ends at the destination and never cycles |
| LoopFreedom.NumberStep | aodv/model/aodv-routing-protocol.cc:1550-1553 | no event of any kind advances the own sequence number of a node by more than one |
| LoopFreedom.LoopFreeAlways | aodv/model/aodv-routing-protocol.cc:1655-1796 | loop freedom over every run of fewer than 2^31 harmless steps from a network without routes, with HELLOs, and with any loss, repetition, delay and reordering of messages |
| LoopExample.SearchClosesLoop | aodv/model/aodv-rtable.cc:156-167 | a run of four freshly started nodes with the default attributes into a routing loop: 3 discovers 4 through 1 and 2, 2 loses its link to 4 and searches, 3 answers it; Invalidate leaves the sequence number alone, so 2 takes the route that runs through itself |
| Floods.FloodStep | aodv/model/aodv-routing-protocol.cc:1335-1538 | every event is silent, starts one flood under a new remembered id, or takes one unseen RREQ, remembers it and passes it on at most once with hop count plus one and TTL minus one |
| Floods.FloodConservation | aodv/model/aodv-routing-protocol.cc:1502-1538 | in every run, hop count plus TTL of every RREQ on the air is the TTL with which its originator sent it; so hop counts never wrap |
| Floods.StoredHops | aodv/model/aodv-routing-protocol.cc:1377-1418 | after every run, taking a RREQ leaves a route to its originator whose stored hop count is at most the TTL with which the originator sent that RREQ (or 1) |
| Floods.OriginNeverReprocesses | aodv/model/aodv-routing-protocol.cc:1360-1364 | while the cache record of that one RREQ lives, its originator treats it as a duplicate: nothing is sent, and only the route to the sender is refreshed |
| FloodEnds.FloodTerminates | aodv/model/aodv-routing-protocol.cc:1360-1368 | over runs of any length in which every copy that reaches a node that has broadcast the RREQ is recognised there, and the originator does not use the id again: no node broadcasts it twice, and the flood on N nodes costs at most N broadcasts |
| FloodEnds.TimelyFloodTerminates | aodv/model/aodv-routing-protocol.cc:1360-1368 | in particular if, under a clock that does not go back, no copy reaches a node that has broadcast it later than PathDiscoveryTime after the node took it |
| FloodEnds.LiveIsRecognised | aodv/model/aodv-id-cache.cc:25-39 | and while the record of that one RREQ lives, every copy is recognised |
| ReverseTrees.TreeStep | aodv/model/aodv-routing-protocol.cc:1377-1418 | a calm event leaves the route towards the originator straight, along the RREQ just taken, or as it was; what is sent towards the originator follows that route with its hops, or one less than received, as TTL |
| ReverseTrees.TreeKept | aodv/model/aodv-routing-protocol.cc:1377-1418 | every calm, in-order step keeps the tree: a parent has taken a later flood, or the same one exactly one hop closer |
| ReverseTrees.InvMeansTree | aodv/model/aodv-routing-protocol.cc:1292-1332 | reverse next hops always reach the originator, although refreshed entries jump to one hop; within one flood each hop is to a strictly smaller stored hop count |
| ReverseTrees.FloodsBuildTree | aodv/model/aodv-routing-protocol.cc:1377-1418 | the tree, in every run of floods that each node sees in the order of their ids |
| ReverseTrees.HopsWithinTtl | aodv/model/aodv-routing-protocol.cc:1377-1418 | in that tree every stored hop count is 1, straight to the originator, or within the TTL of one of the RREQs the originator sent |
| Floods.LaunchesIff | aodv/model/aodv-routing-protocol.cc:1053-1068 | exactly which events advance the request id, read off the state before them |
| ReplyHomes.HomeKept | aodv/model/aodv-routing-protocol.cc:1541-1570 | after any number of floods, every calm, in-order step in which the originator starts no later one keeps it that the RREPs that belong to the latest flood, answers of nodes that have taken it and what passes them on, are addressed to the originator or to a strictly closer node of the same flood, with more TTL than hops left |
| ReplyHomes.NeverDropped | aodv/model/aodv-routing-protocol.cc:1781-1788 | after any number of floods that each node takes in order, and then any calm run in which the originator starts no later one: no RREP that belongs to the latest flood fails the TTL test on its way home, and its addressee knows a way on |
| ReplyHomes.LastIsLatest | aodv/model/aodv-routing-protocol.cc:1137-1139 | in every run in which the request id does not wrap, the last flood the originator has sent is the latest on the air |
| ReplyHomes.OnwardInTree | aodv/model/aodv-routing-protocol.cc:1377-1418 | a tree node that has not forgotten its route to the originator has it through the originator, a node that has taken a later flood, or one strictly closer in the same |
| ReplyHomes.GetsHome | aodv/model/aodv-routing-protocol.cc:1750-1796 | from any state of the tree, after any number of floods: if no node on the way home of a RREP has forgotten it, and the TTL of the RREP outlasts the way, delivering it and what it causes reaches the originator in exactly as many deliveries as the way has nodes |
| ReplyHomes.AnswersLast | aodv/model/aodv-routing-protocol.cc:1541-1570 | the TTL of a RREP that belongs to the latest flood does outlast its way |
| ForwardRoutes.LeavesRoute | aodv/model/aodv-routing-protocol.cc:1663-1796 | from any state of the tree, after any number of floods, whatever the tables off the way hold: if the nodes on the way home of a RREP have not forgotten it and none of them has a route that is better than the one it will be offered, the RREP has TTL for the way, and it carries the length of a VALID chain that keeps clear of that way, then delivering it hop by hop leaves the originator a VALID chain to the destination of exactly the stored length, which is that length plus the deliveries |
| ForwardRoutes.OwnReplyLeavesRoute | aodv/model/aodv-routing-protocol.cc:1541-1570 | in particular the RREP with which the destination itself answers the latest of any number of floods, in runs from a network without routes: the stored length is the number of deliveries |
| Discoveries.DeliveryIsCalm | aodv/model/aodv-routing-protocol.cc:1335-1538 | in a discovery from a blank network, every delivery meets all hypotheses of the tree and homing theorems |
| Discoveries.DiscoveryKept | aodv/model/aodv-routing-protocol.cc:1663-1724 | every delivery keeps the exact chain: each route to the destination is VALID, current, and one hop longer than that of its next hop one level down the tree |
| Discoveries.DiscoveryIsExact | aodv/model/aodv-routing-protocol.cc:1663-1796 | for the discovery of a blank network, in every order of deliveries: every route left by the RREP at any node leads to the destination along VALID entries in exactly the stored number of hops |
| Discoveries.DiscoverySucceeds | aodv/model/aodv-routing-protocol.cc:1732-1796 | once a RREP of the discovery is on the air, delivering it hop by hop, at most one delivery per level of the tree, gives the originator such a route; when it knew none, the length is what the RREP had come plus these deliveries |
| Discoveries.DestinationAnswers | aodv/model/aodv-routing-protocol.cc:1448-1457 | the first copy of the RREQ to reach the destination makes it answer, towards the node the copy came from |
| Discoveries.DiscoveryCompletes | aodv/model/aodv-routing-protocol.cc:1335-1796 | as long as nothing runs out, from any state of a discovery with an unseen RREQ on the air there is a sequence of deliveries that ends with such a route at the originator, of the length the RREQ has come |
| RingDiscoveries.BlankDiscovery | aodv/model/aodv-routing-protocol.cc:1932-1971 | every blank network completes a discovery along any path of distinct relays that ring number k fits, whatever k: the timers of the rings before it fire, each at its expiry, the last RREQ travels along the path, the RREP back, and the originator ends with a VALID route of exactly its length |
| RingDiscoveries.DefaultRings | aodv/model/aodv-routing-protocol.cc:134-150 | with the default attributes the fifth ring is such a ring for any path of up to 34 relays |
| RingDiscoveries.RingIsExact | aodv/model/aodv-routing-protocol.cc:1663-1796 | and in that ring, in every order of deliveries, every route that the RREP leaves at any node leads to the destination in exactly the stored number of hops |
| SearchStates.SendsExactly | aodv/model/aodv-routing-protocol.cc:2060-2081 | the packets due are forwarded in order up to the first tied to another interface; that one is lost and the rest go on waiting |
| SearchStates.SendsNothingElse | aodv/model/aodv-routing-protocol.cc:2060-2081 | packets for other destinations stay, and only expired packets reach their error callbacks |
| SearchStates.DrainsIff | aodv/model/aodv-routing-protocol.cc:2060-2074 | the queue is empty of the destination afterwards if and only if no due packet but the last is tied to another interface |
| Strandings.TimerStrandsIff | aodv/model/aodv-routing-protocol.cc:1932-1971 | the timer, when it does not abort, leaves packets waiting that nothing will look after if and only if a VALID route has come, a due packet but the last is tied to another interface, and no request is put off |
| Strandings.ReplyStrandsIff | aodv/model/aodv-routing-protocol.cc:1732-1748 | the same for a RREP that ends at this node, with the route it leaves; a timer that goes on running beside it is the only other rescue |
| Strandings.StrandsIff | aodv/model/aodv-routing-protocol.cc:2060-2081 | for every event that does not abort the program: packets for a destination become stranded if and only if a packet joins a search that nobody drives, or a timer or a RREP stops short, in the state before the event |
| Strandings.NeverStrandedIff | aodv/model/aodv-routing-protocol.cc:2060-2081 | over every run of a started node of which no event aborts the program, with packets tied to any interface: packets for a destination are never stranded if and only if no event of the run meets that condition |
| Strandings.PacketStranded | aodv/model/aodv-routing-protocol.cc:2060-2074 | a run of a freshly started node with the default attributes that strands a packet |
| SearchStates.SearchKept | aodv/model/aodv-routing-protocol.cc:1932-1971 | every event keeps it that each searched or awaited destination has a timer or a deferred request |
| SearchStates.NoneStranded | aodv/model/aodv-routing-protocol.cc:480-502 | no packet is stranded: in every state a one-interface node can reach, unless the program has aborted |
| SearchStates.TimerSettles | aodv/model/aodv-routing-protocol.cc:1932-1971 | a timer that fires re-arms the search, or every due packet has been forwarded or reported |
| SearchStates.ReplyForMeTends | aodv/model/aodv-routing-protocol.cc:1732-1742 | a RREP for this node ends the search and forwards every due packet |
| RingSearches.RequestEntry | aodv/model/aodv-routing-protocol.cc:1075-1126 | every state left by SendRequest has an IN_SEARCH entry with hops at most the diameter, and a positive count at the diameter |
| RingSearches.RingKept | aodv/model/aodv-routing-protocol.cc:1198-1212 | no event of a patient run brings a count past the retries or the node to the abort |
| RingSearches.NeverAborts | aodv/model/aodv-routing-protocol.cc:1198-1209 | the abort is unreachable, in every patient run under sensible parameters |
| RingGuards.RequestOverruns | aodv/model/aodv-routing-protocol.cc:1948-1952 | one request carries a count past the equality test with RreqRetries if and only if it goes out, at the largest ring, from an entry whose count equals RreqRetries |
| RingGuards.RequestAborts | aodv/model/aodv-routing-protocol.cc:1198-1209 | one request reaches the abort if and only if the 8-bit count of its entry wraps at the largest ring, or the ring comes out beyond the diameter with nothing counted; the latter never under sensible parameters |
| RingGuards.OverrunsIff | aodv/model/aodv-routing-protocol.cc:1932-1971 | for every event: counts go past the retries exactly when a deferred call sends such a request (a timer or a data packet never does), and the node aborts exactly when a timer or a deferred call makes a count wrap |
| RingGuards.CountsWithinIff | aodv/model/aodv-routing-protocol.cc:1053-1068 | over every run: the counts stay within the retries throughout if and only if no deferred call comes with no retry left |
| RingGuards.RunAbortsIff | aodv/model/aodv-routing-protocol.cc:1198-1209 | over every run: the node has aborted if and only if some count has wrapped round |
| RingGuards.NoOverrunNoAbort | aodv/model/aodv-routing-protocol.cc:1198-1209 | so no run aborts in which no deferred call comes with no retry left |
| RingGuards.PatienceSuffices | aodv/model/aodv-routing-protocol.cc:1053-1068 | a patient run has no such call |
| RingBudgets.RingClosedForm | aodv/model/aodv-routing-protocol.cc:1075-1126 | the TTL and the count of every request of an unanswered search, in closed form, under sensible parameters (TtlStart and TtlThreshold at most NetDiameter, which is below 65536, and 1 to 31 retries), when the rings start within the threshold, their step is not zero, and no 16-bit sum wraps to a small ring |
| RingBudgets.RingClosedFormIff | aodv/model/aodv-routing-protocol.cc:1075-1126 | and, the other conditions given, the closed form is right if and only if no such sum wraps |
| RingBudgets.SearchBudget | aodv/model/aodv-routing-protocol.cc:1948-1970 | under the same conditions an unanswered, undeferred search sends exactly one RREQ per ring below the diameter and one per retry at it, each at its exact time; the equality test is hit, the search is given up and never aborts; the waits at the diameter come to NetTraversalTime * (2^RreqRetries - 1) |
| RingBudgets.AbortsIff | aodv/model/aodv-routing-protocol.cc:1086-1104 | for any parameters without overflow, the abort is reached if and only if the start lies beyond the diameter or the rings step over the diameter within the threshold |
| RingBudgets.SearchAborts | aodv/model/aodv-routing-protocol.cc:1204-1208 | and that is exactly when the node of such a search aborts |
| OverrunExample.SevenPutOff | aodv/model/aodv-routing-protocol.cc:1053-1068 | a run of a freshly started node with the default attributes: ten requests use up the limit, seven packets for one destination put seven more off, and after the limiter has been reset the seventh carries the count past the equality test |

## Left out

- Sockets, devices, ARP, MAC frames, jitter and logging: a send appends to a log, a failed MAC transmission
  names the set of neighbour addresses behind it.
- RouteInput, Forwarding and RouteOutput: they appear as the events Output, UseRoute and UseNeighbor, without
  the packets they carry, and without the RERR for a packet that cannot be forwarded.
- Interface and address notifications: every node has one fixed interface; an entry records only whether it
  has an output device.
- The RERR rate limit: its counter rises on one path only, so the code supports no bound.
- The RREP-ACK timer: it is set up on a copy of the entry and never runs.
- Link-quality metrics, composite scores and the pre-emptive switching built on them: placeholders that
  decide nothing; the multipath insertion at the end of RecvReply, which is off by default.
- The timer of the neighbour list and HELLO scheduling: their expiries are events that may come at any time.
- The handler of link failures runs after the neighbours have been removed from the list instead of before;
  it does not look at the list, and the result is proved to be that of the program's order.
- std::map iteration order, where nothing depends on it: loops over tables pick the keys in any order.
- The vector of multipath entries is a value inside the table, not an object of its own.
- The debug assertion of AddUnDestination for a node that loses more than 255 routes at once: the list grows
  on, as it does in a build without assertions.
- LoopFreedom.LoopFreeAlways: proved for harmless steps only, because the code does not keep it for others;
  LoopExample.SearchClosesLoop shows one. That a step is harmless is sufficient, not necessary.
- Discoveries.DiscoveryIsExact: one discovery in a blank network while nothing expires (RingDiscoveries.RingIsExact
  for any ring of it); ForwardRoutes.LeavesRoute covers a RREP in any network and among other traffic, delivered
  hop by hop.
- ForwardRoutes.LeavesRoute: no node on the way with a better route; with a better one a node keeps it, and the
  length may differ.
- RingSearches.NeverAborts: assumes that no destination gets a second search while one is put off;
  RingGuards.NoOverrunNoAbort needs less.
- RoutingProtocols.RoutingProtocol.RecvError: asks for at most 255 destinations, all that a RERR off the wire
  can carry.
- RoutingProtocols.RoutingProtocol.RecvReply: without the multipath and metric processing, which an attribute
  that is off by default switches on.
- RoutingProtocols.RoutingProtocol.FinishSearch: without the same processing.
- RoutingTables.RoutingTable.DeleteAllRoutesFromInterface: an entry is on the node's own interface or on none;
  the program compares interface addresses.
- RoutingProtocols.RoutingProtocol.SendRerrMessage: without the RERR rate limit, see above.
- RoutingProtocols.RoutingProtocol.ProcessTxError: is given the neighbours behind the failed hardware address,
  which the program finds by comparing addresses it has from ARP.
- NeighborLists.Neighbors.ProcessTxError: the same.
- RequestQueues.RequestQueue.Enqueue: asks for a limit of at least one packet; with a limit of zero the
  program reads the front of an empty vector.
