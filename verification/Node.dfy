/** One AODV node as a value: its configuration, its state, and what each event does to it.
    Messages a node sends are appended to `sent`; callbacks are recorded in ledgers. */
module Nodes {
  import opened Basics
  import opened SequenceNumbers
  import opened Headers
  import opened RouteEntries
  import Q = PacketQueues
  import C = IdCaches

  /** The attributes of the protocol. Times are in nanoseconds. */
  datatype Config = Config(
    rreqRetries: U32, ttlStart: U16, ttlIncrement: U16, ttlThreshold: U16, timeoutBuffer: U16,
    rreqRateLimit: U16, activeRouteTimeout: int, netDiameter: U32, nodeTraversalTime: int,
    netTraversalTime: int, pathDiscoveryTime: int, myRouteTimeout: int, helloLifetime: int,
    deletePeriod: int, gratuitousReply: bool, destinationOnly: bool, enableHello: bool,
    maxQueueLen: nat, maxQueueTime: int)
  {
    /** Durations are not negative. */
    predicate Sane() {
      deletePeriod >= 0 && activeRouteTimeout >= 0 && myRouteTimeout >= 0 && helloLifetime >= 0
      && maxQueueLen >= 1
    }
  }

  datatype Target = Broadcast | To(addr: Addr)

  /** A message on the air, with the TTL of its IP packet. */
  datatype Packet = Packet(msg: Message, ttl: U8, target: Target)

  datatype Neighbor = Neighbor(addr: Addr, expire: int, close: bool)

  /** `timers` holds the running RREQ timers with their expiry; `pending` the SendRequest calls that the
      rate limit has put off; `forwarded` the queued packets handed to their forward callback. */
  datatype Node = Node(
    me: Addr, iface: nat, table: Table, queue: Q.Queue, timers: map<Addr, int>, pending: multiset<Addr>,
    rreqCount: U16, seqNo: U32, requestId: U32, idCache: C.Cache, nb: seq<Neighbor>,
    sent: seq<Packet>, forwarded: seq<Q.QueueEntry>, aborted: bool)
  {
    function Send(p: Packet): Node {
      this.(sent := sent + [p])
    }
  }

  /** A node that has just been started. */
  function NewNode(me: Addr, iface: nat): Node {
    Node(me, iface, map[], Q.EMPTY, map[], multiset{}, 0, 0, 0, [], [], [], [], false)
  }

  const SECOND := 1_000_000_000

  /** The default attributes. */
  const DEFAULTS := Config(2, 1, 2, 7, 2, 10, 3 * SECOND, 35, SECOND / 25, 14 * SECOND / 5, 28 * SECOND / 5,
                           56 * SECOND / 5, 2 * SECOND, 15 * SECOND, true, false, true, 64, 30 * SECOND)

  function Bump8(x: U8): U8 {
    (x + 1) % 0x100
  }

  function Bump16(x: U16): U16 {
    (x + 1) % 0x1_0000
  }

  // ------------------------------------------------------------------------------- neighbours

  /** Every AODV packet refreshes or creates a one-hop route to its sender. */
  function UpdateRouteToNeighbor(t: Table, sender: Addr, now: int, c: Config): Table {
    var t := Purge(t, now, c.deletePeriod);
    if sender !in t then
      AddRoute(t, NewEntry(sender, false, 0, 1, sender, c.activeRouteTimeout, true, now), now, c.deletePeriod)
    else
      var e := t[sender];
      if e.validSeqNo && e.hops == 1 && e.bound then t
      else Update(t, NewEntry(sender, false, 0, 1, sender, Max(c.activeRouteTimeout, e.LifeTime(now)), true, now))
  }

  function UpdateRouteLifeTime(t: Table, addr: Addr, lifetime: int, now: int, c: Config): Table {
    var t := Purge(t, now, c.deletePeriod);
    if addr in t && t[addr].flag == VALID
    then Update(t, t[addr].(reqCount := 0, expire := now + Max(lifetime, t[addr].LifeTime(now))))
    else t
  }

  function IndexOfNeighbor(nb: seq<Neighbor>, addr: Addr): (i: nat)
    ensures i <= |nb| && (i < |nb| ==> nb[i].addr == addr)
    ensures forall j :: 0 <= j < i ==> nb[j].addr != addr
  {
    if nb == [] || nb[0].addr == addr then 0 else 1 + IndexOfNeighbor(nb[1..], addr)
  }

  predicate Closing(b: Neighbor, now: int) {
    b.expire < now || b.close
  }

  function Open(now: int): Neighbor -> bool {
    (b: Neighbor) => !Closing(b, now)
  }

  /** Neighbors::Update: a known neighbour lives longer, a new one is added and the list purged. */
  function NbUpdate(n: Node, addr: Addr, lifetime: int, now: int, c: Config): Node {
    var i := IndexOfNeighbor(n.nb, addr);
    if i < |n.nb|
    then n.(nb := n.nb[i := n.nb[i].(expire := Max(now + lifetime, n.nb[i].expire))])
    else NbPurge(n.(nb := n.nb + [Neighbor(addr, now + lifetime, false)]), now, c)
  }

  /** Neighbors::Purge: the link-failure handler runs once for each closing neighbour, in order; then
      they are removed. */
  function NbPurge(n: Node, now: int, c: Config): Node {
    BreakLinks(n, n.nb, now, c).(nb := Filter(n.nb, Open(now)))
  }

  function BreakLinks(n: Node, nb: seq<Neighbor>, now: int, c: Config): Node
    decreases |nb|
  {
    if nb == [] then n
    else if Closing(nb[0], now) then BreakLinks(LinkBreak(n, nb[0].addr, now, c), nb[1..], now, c)
    else BreakLinks(n, nb[1..], now, c)
  }

  /** Everyone who has told this node that it routes through it to one of `dsts`. */
  function Precursors(t: Table, dsts: set<Addr>): set<Addr> {
    set d, p | d in dsts && d in t && p in t[d].precursors :: p
  }

  predicate ValidRoute(t: Table, k: Addr) {
    k in t && t[k].flag == VALID
  }

  /** SendRerrMessage: to the only precursor, or to everyone when there are several; and only if there is
      a VALID route to (one of) them. `t` has been purged. */
  function RerrMessage(t: Table, h: RerrHeader, precursors: set<Addr>): seq<Packet> {
    if h.DestCount() == 0 || !(exists p :: p in precursors && ValidRoute(t, p)) then []
    else if exists p :: p in precursors && precursors == {p} then
      var p :| p in precursors && precursors == {p};
      [Packet(Rerr(h), 1, To(p))]
    else [Packet(Rerr(h), 1, Broadcast)]
  }

  /** SendRerrWhenBreaksLinkToNextHop: a neighbour without a table entry is passed over; otherwise it
      and everything routed through it are announced and taken down. */
  function LinkBreak(n: Node, nextHop: Addr, now: int, c: Config): Node {
    var t := Purge(n.table, now, c.deletePeriod);
    if nextHop !in t then n.(table := t)
    else
      var lost := Through(t, nextHop)[nextHop := t[nextHop].seqNo];
      n.(table := InvalidateRoutesWithDst(t, lost.Keys, now, c.deletePeriod),
         sent := n.sent + RerrMessage(t, EMPTY_RERR.(dests := lost), Precursors(t, lost.Keys)))
  }

  // ------------------------------------------------------------------------------- requests

  /** The TTL of the next ring. The sums are uint16_t, and the diameter is cut to 16 bits. */
  function NextTtl(rt: Entry, c: Config): U16 {
    var d: U16 := c.netDiameter % 0x1_0000;
    var next: U16 := (rt.hops + c.ttlIncrement) % 0x1_0000;
    if rt.flag != IN_SEARCH then (if d < next then d else next)
    else if next > c.ttlThreshold then d else next
  }

  /** The entry a search leaves in the table when there was one already. */
  function Searching(rt: Entry, now: int, c: Config): Entry {
    var ttl := NextTtl(rt, c);
    rt.(reqCount := if ttl == c.netDiameter then Bump8(rt.reqCount) else rt.reqCount,
        hops := ttl, flag := IN_SEARCH, expire := now + c.pathDiscoveryTime)
  }

  function FreshSearch(dst: Addr, now: int, c: Config): Entry {
    NewEntry(dst, false, 0, c.ttlStart, UNSET, c.pathDiscoveryTime, false, now)
      .(flag := IN_SEARCH, reqCount := if c.ttlStart == c.netDiameter then 1 else 0)
  }

  function SearchTable(t: Table, dst: Addr, now: int, c: Config): Table {
    var t := Purge(t, now, c.deletePeriod);
    if dst in t then Update(t, Searching(t[dst], now, c))
    else AddRoute(t, FreshSearch(dst, now, c), now, c.deletePeriod)
  }

  function RequestHeader(n: Node, t: Table, dst: Addr, c: Config): RreqHeader {
    var known := dst in t && t[dst].validSeqNo;
    RreqHeader(0, 0, 0, Next(n.requestId), dst, if known then t[dst].seqNo else 0, n.me, Next(n.seqNo))
      .SetUnknownSeqno(!known)
      .SetGratuitousRrep(c.gratuitousReply)
      .SetDestinationOnly(c.destinationOnly)
  }

  /** SendRequest. At the rate limit the call is put off; otherwise the ring grows and a RREQ goes out. */
  function SendRequest(n: Node, dst: Addr, now: int, c: Config): Node {
    if n.rreqCount == c.rreqRateLimit then n.(pending := n.pending + multiset{dst})
    else ScheduleRreqRetry(EmitRequest(n, dst, now, c), dst, now, c)
  }

  function EmitRequest(n: Node, dst: Addr, now: int, c: Config): Node {
    var t := Purge(n.table, now, c.deletePeriod);
    var t' := SearchTable(n.table, dst, now, c);
    var ttl := if dst in t then NextTtl(t[dst], c) else c.ttlStart;
    n.(rreqCount := Bump16(n.rreqCount), table := t', seqNo := Next(n.seqNo), requestId := Next(n.requestId),
       idCache := C.Remember(n.idCache, n.me, Next(n.requestId), now, c.pathDiscoveryTime),
       sent := n.sent + [Packet(Rreq(RequestHeader(n, t, dst, c)), ttl % 0x100, Broadcast)])
  }

  /** ScheduleRreqRetry: the wait grows with the ring, and doubles with each attempt at the largest one. */
  function ScheduleRreqRetry(n: Node, dst: Addr, now: int, c: Config): Node {
    var t := Purge(n.table, now, c.deletePeriod);
    var rt := Lookup(t, dst).GetOr(DefaultEntry(now));
    var n := n.(table := t, timers := n.timers - {dst});
    if rt.hops < c.netDiameter
    then n.(timers := n.timers[dst := now + 2 * c.nodeTraversalTime * (rt.hops + c.timeoutBuffer)])
    else if rt.reqCount == 0 then n.(aborted := true)
    else n.(timers := n.timers[dst := now + c.netTraversalTime * Pow2(rt.reqCount - 1)])
  }

  /** The reverse route to the originator: the next hop becomes the node the RREQ came from, whatever
      the sequence numbers say; the flag stays what it was. `m` carries the incremented hop count. */
  function ReverseRoute(t: Table, m: RreqHeader, src: Addr, now: int, c: Config): Table {
    var t := Purge(t, now, c.deletePeriod);
    var minimal := 2 * c.netTraversalTime - 2 * m.hopCount * c.nodeTraversalTime;
    if m.origin !in t then
      AddRoute(t, NewEntry(m.origin, true, m.originSeqNo, m.hopCount, src, minimal, true, now), now, c.deletePeriod)
    else
      var e := t[m.origin];
      var newer := !e.validSeqNo || SeqDiff(m.originSeqNo, e.seqNo) > 0;
      Update(t, e.(validSeqNo := true, seqNo := if newer then m.originSeqNo else e.seqNo, nextHop := src,
                   bound := true, hops := m.hopCount, expire := now + Max(minimal, e.LifeTime(now))))
  }

  /** The one-hop route to the node the RREQ came from; its sequence number is the originator's, and is
      marked invalid. */
  function NeighborRoute(t: Table, originSeqNo: U32, src: Addr, now: int, c: Config): Table {
    var t := Purge(t, now, c.deletePeriod);
    if src !in t then
      AddRoute(t, NewEntry(src, false, originSeqNo, 1, src, c.activeRouteTimeout, true, now), now, c.deletePeriod)
    else
      Update(t, t[src].(expire := now + c.activeRouteTimeout, validSeqNo := false, seqNo := originSeqNo,
                        flag := VALID, bound := true, hops := 1, nextHop := src))
  }

  /** RecvRequest, after the sender's route has been refreshed. */
  function RecvRequest(n: Node, m: RreqHeader, ttl: U8, src: Addr, now: int, c: Config): Node {
    var t := Purge(n.table, now, c.deletePeriod);
    if src in t && t[src].blacklisted then n.(table := t)
    else if C.Duplicate(n.idCache, m.origin, m.requestID, now) then
      n.(table := t, idCache := C.Purge(n.idCache, now))
    else
      AnswerOrRelay(AcceptRequest(n, m, src, now, c), m.(hopCount := Bump8(m.hopCount)), ttl, src, now, c)
  }

  /** What a RREQ seen for the first time leaves in the cache, the table and the neighbour list. */
  function AcceptRequest(n: Node, m: RreqHeader, src: Addr, now: int, c: Config): Node {
    var t := Purge(n.table, now, c.deletePeriod);
    var t1 := ReverseRoute(t, m.(hopCount := Bump8(m.hopCount)), src, now, c);
    NbUpdate(n.(table := NeighborRoute(t1, m.originSeqNo, src, now, c),
                idCache := C.Remember(n.idCache, m.origin, m.requestID, now, c.pathDiscoveryTime)),
             src, c.helloLifetime, now, c)
  }

  function AnswerOrRelay(n: Node, m: RreqHeader, ttl: U8, src: Addr, now: int, c: Config): Node {
    var t := Purge(n.table, now, c.deletePeriod);
    var n := n.(table := t);
    var toOrigin := Lookup(t, m.origin).GetOr(DefaultEntry(now));
    if m.dst == n.me then SendReply(n, m, toOrigin, c)
    else if m.dst !in t then Relay(n, m, ttl)
    else
      var toDst := t[m.dst];
      if toDst.nextHop == src then n
      else if (m.UnknownSeqno() || SeqDiff(toDst.seqNo, m.dstSeqNo) >= 0) && toDst.validSeqNo then
        if !m.DestinationOnly() && toDst.flag == VALID
        then SendReplyByIntermediateNode(n, toDst, toOrigin, m.GratuitousRrep(), now, c)
        else Relay(n, m.(dstSeqNo := toDst.seqNo).SetUnknownSeqno(false), ttl)
      else Relay(n, m, ttl)
  }

  function Relay(n: Node, m: RreqHeader, ttl: U8): Node {
    if ttl < 2 then n else n.Send(Packet(Rreq(m), ttl - 1, Broadcast))
  }

  /** SendReply: the destination answers with its own sequence number. */
  function SendReply(n: Node, m: RreqHeader, toOrigin: Entry, c: Config): Node {
    var own := if !m.UnknownSeqno() && m.dstSeqNo == Next(n.seqNo) then Next(n.seqNo) else n.seqNo;
    n.(seqNo := own)
     .Send(Packet(Rrep(NewRrep(0, m.dst, own, toOrigin.dst, c.myRouteTimeout)), toOrigin.hops % 0x100,
                  To(toOrigin.nextHop)))
  }

  /** SendReplyByIntermediateNode: answers from the table, and tells the destination about the origin
      when a gratuitous RREP was asked for. */
  function SendReplyByIntermediateNode(n: Node, toDst: Entry, toOrigin: Entry, gratuitous: bool, now: int,
                                       c: Config): Node {
    var reply := NewRrep(toDst.hops % 0x100, toDst.dst, toDst.seqNo, toOrigin.dst, toDst.LifeTime(now))
                 .SetAckRequired(toDst.hops == 1);
    var t := Update(Update(n.table, toDst.InsertPrecursor(toOrigin.nextHop)),
                    toOrigin.InsertPrecursor(toDst.nextHop));
    var n := n.(table := t).Send(Packet(Rrep(reply), toOrigin.hops % 0x100, To(toOrigin.nextHop)));
    if gratuitous then
      n.Send(Packet(Rrep(NewRrep(toOrigin.hops % 0x100, toOrigin.dst, toOrigin.seqNo, toDst.dst,
                                 toOrigin.LifeTime(now))),
                    toDst.hops % 0x100, To(toDst.nextHop)))
    else n
  }

  // ------------------------------------------------------------------------------- replies

  /** When an existing entry gives way to the route of a RREP: rules (i) to (iv) of section 6.7. */
  predicate Accepts(e: Entry, seqNo: U32, hops: U8) {
    || !e.validSeqNo
    || SeqDiff(seqNo, e.seqNo) > 0
    || (seqNo == e.seqNo && e.flag != VALID)
    || (seqNo == e.seqNo && hops < e.hops)
  }

  /** The route a RREP offers. */
  function Offered(m: RrepHeader, sender: Addr, now: int): Entry {
    NewEntry(m.dst, true, m.dstSeqNo, Bump8(m.hopCount), sender, m.LifeTime(), true, now)
  }

  function InstallRoute(t: Table, m: RrepHeader, sender: Addr, now: int, c: Config): Table {
    var t := Purge(t, now, c.deletePeriod);
    var offered := Offered(m, sender, now);
    if m.dst !in t then AddRoute(t, offered, now, c.deletePeriod)
    else if Accepts(t[m.dst], m.dstSeqNo, Bump8(m.hopCount)) then Update(t, offered)
    else t
  }

  /** RecvReply, after the sender's route has been refreshed. A RREP for its own origin is a HELLO. */
  function RecvReply(n: Node, m: RrepHeader, ttl: U8, sender: Addr, now: int, c: Config): Node {
    if m.dst == m.origin then ProcessHello(n, m, now, c)
    else
      var t := Purge(n.table, now, c.deletePeriod);
      var searching := m.dst in t && t[m.dst].flag == IN_SEARCH;
      var n := TakeReply(n, m, sender, now, c);
      if m.origin == n.me then FinishSearch(n, m, searching, sender, now, c)
      else RelayReply(n, m.(hopCount := Bump8(m.hopCount)).SetAckRequired(false), ttl, now, c)
  }

  /** Installs the route where the rules allow it, and acknowledges the RREP when it asks for that. */
  function TakeReply(n: Node, m: RrepHeader, sender: Addr, now: int, c: Config): Node {
    var n := n.(table := InstallRoute(n.table, m, sender, now, c));
    if m.AckRequired() then SendReplyAck(n, sender, now, c) else n
  }

  function SendReplyAck(n: Node, neighbor: Addr, now: int, c: Config): Node {
    n.(table := Purge(n.table, now, c.deletePeriod)).Send(Packet(RrepAck, 1, To(neighbor)))
  }

  /** The originator's branch: a running search takes the offered route unconditionally and its timer
      stops; in any case the packets that waited for the destination go out. */
  function FinishSearch(n: Node, m: RrepHeader, searching: bool, sender: Addr, now: int, c: Config): Node {
    var n := if searching
             then n.(table := Update(n.table, Offered(m, sender, now)), timers := n.timers - {m.dst})
             else n;
    var t := Purge(n.table, now, c.deletePeriod);
    SendPacketFromQueue(n.(table := t), m.dst, Lookup(t, m.dst).GetOr(DefaultEntry(now)), now)
  }

  /** Everyone else passes the RREP on towards its origin, whether or not the route was installed. */
  function RelayReply(n: Node, m: RrepHeader, ttl: U8, now: int, c: Config): Node {
    var t := Purge(n.table, now, c.deletePeriod);
    if m.origin !in t || t[m.origin].flag == IN_SEARCH then n.(table := t)
    else
      var e := t[m.origin];
      var toOrigin := e.(expire := now + Max(c.activeRouteTimeout, e.LifeTime(now)));
      var n := n.(table := NotePrecursors(Update(t, toOrigin), m.dst, toOrigin, now, c));
      if ttl < 2 then n else n.Send(Packet(Rrep(m), ttl - 1, To(toOrigin.nextHop)))
  }

  /** The next hops towards both ends of the route become each other's precursors. */
  function NotePrecursors(t: Table, dst: Addr, toOrigin: Entry, now: int, c: Config): Table {
    var t := Purge(t, now, c.deletePeriod);
    if dst !in t || t[dst].flag != VALID then t
    else
      var toDst := t[dst];
      var t1 := Purge(Update(t, toDst.InsertPrecursor(toOrigin.nextHop)), now, c.deletePeriod);
      var viaDst := Lookup(t1, toDst.nextHop).GetOr(DefaultEntry(now));
      var t2 := Update(t1, viaDst.InsertPrecursor(toOrigin.nextHop));
      var t3 := Purge(Update(t2, toOrigin.InsertPrecursor(toDst.nextHop)), now, c.deletePeriod);
      var viaOrigin := Lookup(t3, toOrigin.nextHop).GetOr(DefaultEntry(now));
      Update(t3, viaOrigin.InsertPrecursor(toDst.nextHop))
  }

  function RecvReplyAck(n: Node, neighbor: Addr, now: int, c: Config): Node {
    var t := Purge(n.table, now, c.deletePeriod);
    n.(table := if neighbor in t then Update(t, t[neighbor].(flag := VALID)) else t)
  }

  function ProcessHello(n: Node, m: RrepHeader, now: int, c: Config): Node {
    var t := Purge(n.table, now, c.deletePeriod);
    var t' := if m.dst !in t
              then AddRoute(t, NewEntry(m.dst, true, m.dstSeqNo, 1, m.dst, m.LifeTime(), true, now), now,
                            c.deletePeriod)
              else Update(t, t[m.dst].(expire := now + Max(c.helloLifetime, t[m.dst].LifeTime(now)),
                                       seqNo := m.dstSeqNo, validSeqNo := true, flag := VALID, bound := true,
                                       hops := 1, nextHop := m.dst));
    if c.enableHello then NbUpdate(n.(table := t'), m.dst, c.helloLifetime, now, c) else n.(table := t')
  }

  // ------------------------------------------------------------------------------- errors

  /** The destinations of a RERR that this node reaches through its sender. */
  function Affected(t: Table, m: RerrHeader, src: Addr): map<Addr, U32> {
    map d | d in m.dests && d in t && t[d].nextHop == src :: m.dests[d]
  }

  /** RecvError: what the sender can no longer reach, and this node reaches through it, goes down and is
      announced with the sequence numbers received. */
  function RecvError(n: Node, m: RerrHeader, src: Addr, now: int, c: Config): Node {
    var t := Purge(n.table, now, c.deletePeriod);
    var lost := Affected(t, m, src);
    n.(table := InvalidateRoutesWithDst(t, lost.Keys, now, c.deletePeriod),
       sent := n.sent + RerrMessage(t, m.(dests := lost), Precursors(t, lost.Keys)))
  }

  // ------------------------------------------------------------------------------- waiting packets

  /** The device of a route, as an interface number; -1 when there is none. */
  function DeviceOf(n: Node, route: Entry): int {
    if route.bound then n.iface else -1
  }

  predicate Mismatch(e: Q.QueueEntry, device: int) {
    e.oif != -1 && e.oif != device
  }

  /** SendPacketFromQueue: takes out the packets for `dst` one by one and forwards them; a packet tied to
      another interface is lost, and ends the loop. */
  function SendPacketFromQueue(n: Node, dst: Addr, route: Entry, now: int): (r: Node)
    decreases |n.queue.waiting|
  {
    var p := Q.Purge(n.queue, now);
    var i := Q.FirstFor(p.waiting, dst);
    if i == |p.waiting| then n.(queue := p)
    else
      var e := p.waiting[i];
      var n' := n.(queue := Q.Take(p, i));
      if Mismatch(e, DeviceOf(n, route)) then n'
      else SendPacketFromQueue(n'.(forwarded := n.forwarded + [e]), dst, route, now)
  }

  /** DeferredRouteOutput: a data packet without a route is queued, and starts a search unless one runs. */
  function DeferredRouteOutput(n: Node, e: Q.QueueEntry, now: int, c: Config): Node {
    var n' := n.(queue := Q.Enqueue(n.queue, e, now, c.maxQueueLen, c.maxQueueTime));
    if !Q.Accepts(n.queue, e, now) then n'
    else
      var t := Purge(n.table, now, c.deletePeriod);
      if e.dst !in t || t[e.dst].flag != IN_SEARCH then SendRequest(n'.(table := t), e.dst, now, c)
      else n'.(table := t)
  }

  /** RouteRequestTimerExpire; the timer that fired is no longer running. */
  function RouteRequestTimerExpire(n: Node, dst: Addr, now: int, c: Config): Node {
    var t := Purge(n.table, now, c.deletePeriod);
    var toDst := Lookup(t, dst).GetOr(DefaultEntry(now));
    var n := n.(table := t, timers := n.timers - {dst});
    if dst in t && toDst.flag == VALID then SendPacketFromQueue(n, dst, toDst, now)
    else if toDst.reqCount == c.rreqRetries then GiveUp(n, dst, now, c)
    else if toDst.flag == IN_SEARCH then SendRequest(n, dst, now, c)
    else GiveUp(n, dst, now, c)
  }

  function GiveUp(n: Node, dst: Addr, now: int, c: Config): Node {
    n.(table := DeleteRoute(n.table, dst, now, c.deletePeriod), timers := n.timers - {dst},
       queue := Q.DropPacketWithDst(n.queue, dst, now))
  }

  // ------------------------------------------------------------------------------- events

  datatype Event =
    | Receive(packet: Packet, sender: Addr)
    | Unrecognized(sender: Addr)
    | Output(entry: Q.QueueEntry)
    | RreqTimer(dst: Addr)
    | Deferred(dst: Addr)
    | RateTimer
    | NeighborTimer
    | LinkFailure(addrs: set<Addr>)
    | UseRoute(addr: Addr)
    | UseNeighbor(addr: Addr)
    | Hello

  /** ProcessTxError: the neighbours behind a failed MAC address are closed, then the list is purged. */
  function ProcessTxError(n: Node, addrs: set<Addr>, now: int, c: Config): Node {
    NbPurge(n.(nb := CloseAll(n.nb, addrs)), now, c)
  }

  function CloseAll(nb: seq<Neighbor>, addrs: set<Addr>): (r: seq<Neighbor>)
    ensures |r| == |nb|
  {
    if nb == [] then []
    else [if nb[0].addr in addrs then nb[0].(close := true) else nb[0]] + CloseAll(nb[1..], addrs)
  }

  /** RecvAodv. */
  function RecvAodv(n: Node, p: Packet, sender: Addr, now: int, c: Config): Node {
    var n := n.(table := UpdateRouteToNeighbor(n.table, sender, now, c));
    match p.msg
    case Rreq(m) => RecvRequest(n, m, p.ttl, sender, now, c)
    case Rrep(m) => RecvReply(n, m, p.ttl, sender, now, c)
    case Rerr(m) => RecvError(n, m, sender, now, c)
    case RrepAck => RecvReplyAck(n, sender, now, c)
  }

  /** RecvAodv, when the type byte is none of the four: the sender is refreshed and the packet dropped. */
  function RecvUnrecognized(n: Node, sender: Addr, now: int, c: Config): Node {
    n.(table := UpdateRouteToNeighbor(n.table, sender, now, c))
  }

  function SendHello(n: Node, c: Config): Node {
    n.Send(Packet(Rrep(NewRrep(0, n.me, n.seqNo, n.me, c.helloLifetime)), 1, Broadcast))
  }

  /** A timer event needs its timer; the rest can happen at any time. */
  predicate Enabled(n: Node, ev: Event) {
    match ev
    case RreqTimer(dst) => dst in n.timers
    case Deferred(dst) => dst in n.pending
    case _ => true
  }

  function Handle(n: Node, ev: Event, now: int, c: Config): Node {
    match ev
    case Receive(p, sender) => RecvAodv(n, p, sender, now, c)
    case Unrecognized(sender) => RecvUnrecognized(n, sender, now, c)
    case Output(e) => DeferredRouteOutput(n, e, now, c)
    case RreqTimer(dst) => RouteRequestTimerExpire(n, dst, now, c)
    case Deferred(dst) => SendRequest(n.(pending := n.pending - multiset{dst}), dst, now, c)
    case RateTimer => n.(rreqCount := 0)
    case NeighborTimer => NbPurge(n, now, c)
    case LinkFailure(addrs) => ProcessTxError(n, addrs, now, c)
    case UseRoute(addr) => n.(table := UpdateRouteLifeTime(n.table, addr, c.activeRouteTimeout, now, c))
    case UseNeighbor(addr) => NbUpdate(n, addr, c.activeRouteTimeout, now, c)
    case Hello => SendHello(n, c)
  }
}
