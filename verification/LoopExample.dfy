/** A run in which the code builds a routing loop. Invalidating a route leaves its sequence number alone,
    so a node that has lost its route to 4 can be answered by a node whose own route runs through it: 3
    finds 4 through 1 and 2; then 2 loses its link to 4, searches, and takes the answer of 3. */
module LoopExample {
  import opened Basics
  import opened Headers
  import opened RouteEntries
  import opened Nodes
  import opened RouteViews
  import opened NodeViews
  import opened Networks
  import opened NextHopGraphs
  import LinkBreaks
  import Q = PacketQueues
  import C = IdCaches

  /** The end of the first ring: but for the very first packet everything happens at this instant. */
  const T := 6 * SECOND / 25

  const DATA := Q.QueueEntry(0, 4, -1, 0)

  function Station(me: Addr): Node {
    NewNode(me, 1)
  }

  function Four(n1: Node, n2: Node, n3: Node, n4: Node): Net {
    map[1 := n1, 2 := n2, 3 := n3, 4 := n4]
  }

  const START: Net := Four(Station(1), Station(2), Station(3), Station(4))

  // ------------------------------------------------------------------------------- single nodes

  /** A node with quiet links that sees the routes `v`. */
  ghost predicate Sees(n: Node, me: Addr, v: View) {
    n.me == me && WellFormed(n.table) && QuietLinks(n, T) && ViewOf(n.table, T) == v
  }

  /** One that has not searched and holds no packets. */
  ghost predicate Idle(n: Node) {
    n.queue.waiting == [] && n.rreqCount == 0 && n.seqNo == 0 && n.requestId == 0
  }

  lemma Handled(n: Node, p: Packet, src: Addr)
    ensures Handle(n, Receive(p, src), T, DEFAULTS) == RecvAodv(n, p, src, T, DEFAULTS)
  {
    HandleReceive(n, Receive(p, src), T, DEFAULTS);
  }

  /** The request of a node for 4, with the ring `ttl`. */
  lemma Emits(n: Node, now: int, ttl: U16)
    requires n.rreqCount < 10
    requires var t := Purge(n.table, now, DEFAULTS.deletePeriod);
             ttl == if 4 in t then NextTtl(t[4], DEFAULTS) else DEFAULTS.ttlStart
    ensures var r := SendRequest(n, 4, now, DEFAULTS); var t := Purge(n.table, now, DEFAULTS.deletePeriod);
            r.sent == n.sent + [Packet(Rreq(RequestHeader(n, t, 4, DEFAULTS)), ttl % 0x100, Broadcast)]
  {
    hide NextTtl, RequestHeader, SearchTable, Purge, C.Remember;
  }

  lemma OutputHandled(n: Node, now: int)
    ensures Handle(n, Output(DATA), now, DEFAULTS) == DeferredRouteOutput(n, DATA, now, DEFAULTS)
  {
    hide DeferredRouteOutput;
  }

  /** A data packet for 4 starts a search. */
  lemma Searches(n: Node, now: int)
    requires n.queue.waiting == []
    requires var t := Purge(n.table, now, DEFAULTS.deletePeriod); 4 !in t || t[4].flag != IN_SEARCH
    ensures var q := Q.Enqueue(n.queue, DATA, now, DEFAULTS.maxQueueLen, DEFAULTS.maxQueueTime);
            Handle(n, Output(DATA), now, DEFAULTS)
            == SendRequest(n.(table := Purge(n.table, now, DEFAULTS.deletePeriod), queue := q), 4, now, DEFAULTS)
  {
    hide SendRequest, Q.Enqueue, Purge, Handle;
    OutputHandled(n, now);
    assert Q.Accepts(n.queue, DATA, now);
  }

  const RING_0 := Entry(4, false, 0, 1, 28 * SECOND / 5, UNSET, false, IN_SEARCH, [], 0, false, 0)

  function AskedOnce(): Node {
    Handle(Station(3), Output(DATA), 0, DEFAULTS)
  }

  lemma FirstRing()
    ensures var n := AskedOnce();
            && n.me == 3 && n.table == map[4 := RING_0] && 4 in n.timers && n.nb == [] && n.rreqCount == 1
            && n.seqNo == 1 && n.requestId == 1 && n.idCache == [C.UniqueId(3, 1, 28 * SECOND / 5)]
  {
    hide Q.Enqueue, Purge, Handle;
    assert Purge(map[], 0, DEFAULTS.deletePeriod) == map[] by { EmptyPurge(0); }
    Searches(Station(3), 0);
    RingPurge(0);
    assert C.Remember([], 3, 1, 0, DEFAULTS.pathDiscoveryTime) == [C.UniqueId(3, 1, 28 * SECOND / 5)];
  }

  lemma EmptyPurge(now: int)
    ensures Purge(map[], now, DEFAULTS.deletePeriod) == map[]
  {
  }

  lemma RingPurge(now: int)
    ensures Purge(map[4 := RING_0], now, DEFAULTS.deletePeriod) == map[4 := RING_0]
  {
  }

  const REQUEST_OF_3 := RreqHeader(40, 0, 0, 2, 4, 0, 3, 2)

  /** The routes of 3 while it searches. */
  function SeekingView(): View {
    map[4 := Route(false, 0, 3, UNSET, false, IN_SEARCH)]
  }

  function AskedTwice(): Node {
    Handle(AskedOnce(), RreqTimer(4), T, DEFAULTS)
  }

  lemma TimerHandled(n: Node)
    ensures Handle(n, RreqTimer(4), T, DEFAULTS) == RouteRequestTimerExpire(n, 4, T, DEFAULTS)
  {
    hide RouteRequestTimerExpire;
  }

  /** The ring of 1 hop finds nobody; the second reaches three hops. */
  lemma SecondRing()
    ensures Sees(AskedTwice(), 3, SeekingView()) && Packet(Rreq(REQUEST_OF_3), 3, Broadcast) in AskedTwice().sent
    ensures forall u :: u in AskedTwice().idCache ==> u.context == 3
  {
    hide Handle, Purge, SendRequest, AskedOnce;
    var n := AskedOnce();
    FirstRing();
    RingPurge(T);
    TimerHandled(n);
    var m := n.(timers := n.timers - {4});
    assert RouteRequestTimerExpire(n, 4, T, DEFAULTS) == SendRequest(m, 4, T, DEFAULTS);
    Emits(m, T, 3);
    assert RequestHeader(m, m.table, 4, DEFAULTS) == REQUEST_OF_3;
    SecondTable(m);
  }

  lemma SecondTable(m: Node)
    requires m.me == 3 && m.table == map[4 := RING_0] && m.nb == [] && m.rreqCount == 1 && m.requestId == 1
    requires m.idCache == [C.UniqueId(3, 1, 28 * SECOND / 5)]
    ensures var r := SendRequest(m, 4, T, DEFAULTS);
            Sees(r, 3, SeekingView()) && forall u :: u in r.idCache ==> u.context == 3
  {
    hide Purge, C.Remember, RequestHeader, ViewOf;
    RingPurge(T);
    SendRequestView(m, 4, T, DEFAULTS);
    var r := SendRequest(m, 4, T, DEFAULTS);
    assert r.nb == [];
    var ring := RING_0.(hops := 3, expire := T + 28 * SECOND / 5);
    assert SearchTable(m.table, 4, T, DEFAULTS) == map[4 := ring];
    OneEntryView(ring);
    assert Purge(map[4 := ring], T, DEFAULTS.deletePeriod) == map[4 := ring] by { OneEntryPurge(ring); }
    assert r.idCache == m.idCache + [C.UniqueId(3, 2, T + 28 * SECOND / 5)] by { Remembers(m.idCache, 2); }
  }

  lemma OneEntryPurge(e: Entry)
    requires e.flag == IN_SEARCH
    ensures Purge(map[4 := e], T, DEFAULTS.deletePeriod) == map[4 := e]
  {
  }

  lemma OneEntryView(e: Entry)
    requires e.flag == IN_SEARCH
    ensures ViewOf(map[4 := e], T) == map[4 := RouteOf(e, T)]
  {
  }

  lemma Remembers(cache: C.Cache, id: U32)
    requires cache == [C.UniqueId(3, 1, 28 * SECOND / 5)] && id == 2
    ensures C.Remember(cache, 3, id, T, 28 * SECOND / 5) == cache + [C.UniqueId(3, id, T + 28 * SECOND / 5)]
  {
    assert C.Purge(cache, T) == cache;
  }

  /** A RREQ not seen before from a node not heard before is taken. */
  lemma Takes(n: Node, m: RreqHeader, ttl: U8, src: Addr, v: View)
    requires Sees(n, n.me, v) && src !in v && src != UNSET && m.hopCount < 255
    requires forall u :: u in n.idCache ==> u.context != m.origin
    ensures var n1 := n.(table := UpdateRouteToNeighbor(n.table, src, T, DEFAULTS));
            var a := AcceptRequest(n1, m, src, T, DEFAULTS);
            && RecvAodv(n, Packet(Rreq(m), ttl, Broadcast), src, T, DEFAULTS)
               == AnswerOrRelay(a, m.(hopCount := m.hopCount + 1), ttl, src, T, DEFAULTS)
            && Sees(a, n.me, RequestedView(Refreshed(v, src), m, src, DEFAULTS)) && a.sent == n.sent
            && a == n.(table := a.table, nb := a.nb, idCache := a.idCache)
  {
    hide AcceptRequest, AnswerOrRelay, UpdateRouteToNeighbor, ViewOf;
    var n1 := n.(table := UpdateRouteToNeighbor(n.table, src, T, DEFAULTS));
    UpdateRouteToNeighborView(n.table, src, T, DEFAULTS);
    PurgeView(n1.table, T, DEFAULTS.deletePeriod);
    AcceptRequestView(n1, m, src, T, DEFAULTS);
    NotBlacklisted(n.table, src, v);
    assert !C.Duplicate(n.idCache, m.origin, m.requestID, T) by { NewOrigin(n.idCache, m.origin, m.requestID); }
  }

  lemma NewOrigin(cache: C.Cache, origin: Addr, id: U32)
    requires forall u :: u in cache ==> u.context != origin
    ensures !C.Duplicate(cache, origin, id, T)
  {
    InFilter(cache, C.Current(T));
    var p := C.Purge(cache, T);
    assert forall i :: 0 <= i < |p| ==> p[i] in cache;
  }

  lemma NotBlacklisted(t: Table, src: Addr, v: View)
    requires WellFormed(t) && ViewOf(t, T) == v && src !in v && src != UNSET
    ensures var t1 := UpdateRouteToNeighbor(t, src, T, DEFAULTS); src in t1 && !t1[src].blacklisted
  {
    PurgeView(t, T, DEFAULTS.deletePeriod);
    var p := Purge(t, T, DEFAULTS.deletePeriod);
    PurgeView(p, T, DEFAULTS.deletePeriod);
  }

  /** What the request leaves behind at a node that knew nothing. */
  function TakenView(m: RreqHeader, src: Addr): View {
    map[m.origin := Route(true, m.originSeqNo, Bump8(m.hopCount), src, true, VALID), src := OneHop(src, m.originSeqNo)]
  }

  lemma TakenIs(m: RreqHeader, src: Addr)
    requires src != UNSET && m.origin != UNSET && m.hopCount <= 2
    ensures RequestedView(Refreshed(map[], src), m, src, DEFAULTS) == TakenView(m, src)
  {
  }

  /** A node that knows nothing passes the request on. */
  lemma Relays(me: Addr, m: RreqHeader, ttl: U8, src: Addr)
    requires me != m.dst && src != m.dst && m.origin != m.dst && m.hopCount <= 2 && ttl >= 2
    requires m.origin != UNSET && src != UNSET && m.dst != UNSET
    ensures var r := Handle(Station(me), Receive(Packet(Rreq(m), ttl, Broadcast), src), T, DEFAULTS);
            && Sees(r, me, TakenView(m, src)) && Idle(r)
            && r.sent == [Packet(Rreq(m.(hopCount := m.hopCount + 1)), ttl - 1, Broadcast)]
  {
    hide Handle, RecvAodv, AcceptRequest, AnswerOrRelay, UpdateRouteToNeighbor, RequestedView, ViewOf, Purge;
    var n := Station(me);
    StationView(me);
    Handled(n, Packet(Rreq(m), ttl, Broadcast), src);
    Takes(n, m, ttl, src, map[]);
    TakenIs(m, src);
    var a := AcceptRequest(n.(table := UpdateRouteToNeighbor(n.table, src, T, DEFAULTS)), m, src, T, DEFAULTS);
    PurgeView(a.table, T, DEFAULTS.deletePeriod);
    var t := Purge(a.table, T, DEFAULTS.deletePeriod);
    SettledView(t, T);
    assert AnswerOrRelay(a, m.(hopCount := m.hopCount + 1), ttl, src, T, DEFAULTS)
        == Relay(a.(table := t), m.(hopCount := m.hopCount + 1), ttl) by { UnknownRelays(a, m, ttl, src); }
  }

  lemma StationView(me: Addr)
    ensures Sees(Station(me), me, map[])
  {
  }

  lemma UnknownRelays(a: Node, m: RreqHeader, ttl: U8, src: Addr)
    requires m.hopCount < 255 && m.dst != a.me && m.dst !in Purge(a.table, T, DEFAULTS.deletePeriod)
    ensures AnswerOrRelay(a, m.(hopCount := m.hopCount + 1), ttl, src, T, DEFAULTS)
         == Relay(a.(table := Purge(a.table, T, DEFAULTS.deletePeriod)), m.(hopCount := m.hopCount + 1), ttl)
  {
    hide Purge, Relay;
  }

  const REPLY_OF_4 := NewRrep(0, 4, 0, 3, DEFAULTS.myRouteTimeout)

  /** The request as 4 hears it. */
  const LAST_HOP := REQUEST_OF_3.(hopCount := 2)

  /** Node 4 answers. */
  lemma Answers()
    ensures var r := Handle(Station(4), Receive(Packet(Rreq(LAST_HOP), 1, Broadcast), 2), T, DEFAULTS);
            r.sent == [Packet(Rrep(REPLY_OF_4), 3, To(2))]
  {
    hide Handle, RecvAodv, AcceptRequest, AnswerOrRelay, UpdateRouteToNeighbor, RequestedView, ViewOf, NewRrep;
    var n, m := Station(4), LAST_HOP;
    StationView(4);
    Handled(n, Packet(Rreq(m), 1, Broadcast), 2);
    Takes(n, m, 1, 2, map[]);
    TakenIs(m, 2);
    var a := AcceptRequest(n.(table := UpdateRouteToNeighbor(n.table, 2, T, DEFAULTS)), m, 2, T, DEFAULTS);
    var m1 := m.(hopCount := 3);
    AnswerOrRelayView(a, m1, 1, 2, T, DEFAULTS);
    OwnNumber(a, m1);
  }

  /** The destination's number is not known, so the request does not make it advance. */
  lemma OwnNumber(a: Node, m: RreqHeader)
    requires a.me == 4 && a.seqNo == 0 && m.dst == 4 && m.flags == 40
    ensures AnswerOrRelay(a, m, 1, 2, T, DEFAULTS).seqNo == 0
  {
    hide Purge;
    assert m.UnknownSeqno();
  }

  /** A RREP passes: the routes change as rules say, and it goes on towards its origin. */
  lemma Passes(n: Node, v: View, m: RrepHeader, ttl: U8, src: Addr)
    requires Sees(n, n.me, v) && m.dst != m.origin && m.dst != UNSET && m.origin != UNSET
    ensures var r := Handle(n, Receive(Packet(Rrep(m), ttl, To(n.me)), src), T, DEFAULTS);
            var w := RepliedView(n, Refreshed(v, src), m, src);
            && Sees(r, n.me, w) && Forwarded(n, r, w, m, ttl, src)
            && (m.origin != n.me && Idle(n) ==> Idle(r)) && r.idCache == n.idCache
  {
    hide Handle, RecvAodv, RecvReply, UpdateRouteToNeighbor, RepliedView, ViewOf, Forwarded;
    Handled(n, Packet(Rrep(m), ttl, To(n.me)), src);
    UpdateRouteToNeighborView(n.table, src, T, DEFAULTS);
    var n1 := n.(table := UpdateRouteToNeighbor(n.table, src, T, DEFAULTS));
    RecvReplyView(n1, m, ttl, src, T, DEFAULTS);
    SameReply(n, n1, m, ttl, src);
  }

  lemma SameReply(n: Node, n1: Node, m: RrepHeader, ttl: U8, src: Addr)
    requires n1 == n.(table := n1.table)
    ensures RecvAodv(n, Packet(Rrep(m), ttl, To(n.me)), src, T, DEFAULTS)
         == RecvReply(n.(table := UpdateRouteToNeighbor(n.table, src, T, DEFAULTS)), m, ttl, src, T, DEFAULTS)
    ensures forall v: View :: RepliedView(n1, v, m, src) == RepliedView(n, v, m, src)
    ensures forall r: Node, w: View :: Forwarded(n1, r, w, m, ttl, src) == Forwarded(n, r, w, m, ttl, src)
  {
    hide RecvReply, UpdateRouteToNeighbor, Installed;
  }

  // ------------------------------------------------------------------------------- the loss of 4

  /** Using the route to 4 makes 4 a neighbour. */
  lemma Uses(n: Node, v: View)
    requires Sees(n, n.me, v) && Idle(n)
    ensures var r := Handle(n, UseNeighbor(4), T, DEFAULTS);
            Sees(r, n.me, v) && Idle(r) && r.sent == n.sent && exists b :: b in r.nb && b.addr == 4
  {
    hide NbPurge, ViewOf;
    NbUpdateView(n, 4, DEFAULTS.activeRouteTimeout, T, DEFAULTS);
    var r := NbUpdate(n, 4, DEFAULTS.activeRouteTimeout, T, DEFAULTS);
    var i := IndexOfNeighbor(n.nb, 4);
    if i < |n.nb| {
      assert r.nb[i].addr == 4;
    } else {
      var nb := n.nb + [Neighbor(4, T + DEFAULTS.activeRouteTimeout, false)];
      NbPurgeView(n.(nb := nb), T, DEFAULTS);
      assert r.nb[i] == nb[i];
    }
  }

  lemma {:induction false} Closed(nb: seq<Neighbor>, addrs: set<Addr>)
    ensures forall i :: 0 <= i < |nb| ==>
              CloseAll(nb, addrs)[i] == if nb[i].addr in addrs then nb[i].(close := true) else nb[i]
  {
    if nb != [] {
      Closed(nb[1..], addrs);
    }
  }

  /** A view in which everything through 4 is down. */
  function CutView(v: View): View {
    map k | k in v :: if v[k].flag == VALID && (k == 4 || v[k].nextHop == 4) then v[k].(flag := INVALID) else v[k]
  }

  /** The link to 4 breaks. */
  lemma Loses(n: Node, v: View)
    requires Sees(n, n.me, v) && Idle(n) && 4 in v && exists b :: b in n.nb && b.addr == 4
    ensures var r := Handle(n, LinkFailure({4}), T, DEFAULTS);
            r.me == n.me && WellFormed(r.table) && ViewOf(r.table, T) == CutView(v) && Idle(r)
  {
    hide NbPurge, ViewOf, LinkBreaks.LostHops, Purge, CutView, Idle, WellFormed, QuietLinks, SameCore, Fades,
      Settled, Kept, Handle;
    var n' := n.(nb := CloseAll(n.nb, {4}));
    Closed(n.nb, {4});
    PurgeView(n.table, T, DEFAULTS.deletePeriod);
    OnlyFour(n, Purge(n.table, T, DEFAULTS.deletePeriod), n'.nb);
    LinkBreaks.LinkBreakComplete(n', T, DEFAULTS);
    NbPurgeView(n', T, DEFAULTS);
    var r := NbPurge(n', T, DEFAULTS);
    CutTable(n.table, r.table, v);
    StillIdle(n, n', r);
    FailureHandled(n);
  }

  lemma StillIdle(n: Node, n': Node, r: Node)
    requires Idle(n) && n' == n.(nb := n'.nb) && SameCore(n', r)
    ensures Idle(r) && r.me == n.me
  {
  }

  lemma FailureHandled(n: Node)
    ensures Handle(n, LinkFailure({4}), T, DEFAULTS) == NbPurge(n.(nb := CloseAll(n.nb, {4})), T, DEFAULTS)
  {
    hide NbPurge;
  }

  lemma OnlyFour(n: Node, t: Table, nb: seq<Neighbor>)
    requires QuietLinks(n, T) && 4 in t && |nb| == |n.nb| && exists b :: b in n.nb && b.addr == 4
    requires forall i :: 0 <= i < |nb| ==> nb[i] == if n.nb[i].addr in {4} then n.nb[i].(close := true) else n.nb[i]
    ensures LinkBreaks.LostHops(t, nb, T) == {4} && exists b :: b in nb && Closing(b, T)
  {
    var i :| 0 <= i < |n.nb| && n.nb[i].addr == 4;
    assert Closing(nb[i], T) && nb[i] in nb;
    assert forall b :: b in nb && Closing(b, T) ==> b.addr == 4;
  }

  lemma CutTable(t: Table, r: Table, v: View)
    requires WellFormed(t) && ViewOf(t, T) == v && WellFormed(r)
    requires var p := Purge(t, T, DEFAULTS.deletePeriod);
             && r.Keys == p.Keys
             && forall k :: k in p ==>
                  r[k] == if p[k].flag == VALID && (k in {4} || p[k].nextHop in {4})
                          then p[k].(flag := INVALID, reqCount := 0, expire := T + DEFAULTS.deletePeriod) else p[k]
    ensures ViewOf(r, T) == CutView(v)
  {
    hide Purge;
    PurgeView(t, T, DEFAULTS.deletePeriod);
    var p := Purge(t, T, DEFAULTS.deletePeriod);
    SettledView(p, T);
  }

  /** 2 before and after the loss. */
  function LinkedView(): View {
    map[1 := OneHop(1, 2), 3 := Route(true, 2, 2, 1, true, VALID), 4 := Route(true, 0, 1, 4, true, VALID)]
  }

  lemma LinkedCut()
    ensures CutView(LinkedView())
         == map[1 := OneHop(1, 2), 3 := Route(true, 2, 2, 1, true, VALID), 4 := Route(true, 0, 1, 4, true, INVALID)]
  {
  }

  lemma LinkedHas4()
    ensures 4 in LinkedView()
  {
  }

  const REQUEST_OF_2 := RreqHeader(32, 0, 0, 1, 4, 0, 2, 1)

  /** Node 2 asks for 4; it still knows the number of the route it lost. */
  lemma AsksAgain(n: Node)
    requires n.me == 2 && WellFormed(n.table) && Idle(n) && ViewOf(n.table, T) == CutView(LinkedView())
    ensures var r := Handle(n, Output(DATA), T, DEFAULTS);
            && r.me == 2 && WellFormed(r.table) && Packet(Rreq(REQUEST_OF_2), 3, Broadcast) in r.sent
            && 4 in ViewOf(r.table, T) && ViewOf(r.table, T)[4].flag == IN_SEARCH && r.nb == n.nb
  {
    hide Handle, Purge, SendRequest, ViewOf, RequestHeader, Q.Enqueue, CutView;
    PurgeView(n.table, T, DEFAULTS.deletePeriod);
    var t := Purge(n.table, T, DEFAULTS.deletePeriod);
    PurgeView(t, T, DEFAULTS.deletePeriod);
    SettledView(t, T);
    LinkedCut();
    assert 4 in ViewOf(t, T);
    assert 4 in t && RouteOf(t[4], T) == Route(true, 0, 1, 4, true, INVALID);
    Searches(n, T);
    var q := Q.Enqueue(n.queue, DATA, T, DEFAULTS.maxQueueLen, DEFAULTS.maxQueueTime);
    var m := n.(table := t, queue := q);
    Emits(m, T, 3);
    assert RequestHeader(m, t, 4, DEFAULTS) == REQUEST_OF_2 by { HeaderOf2(m, t); }
    SendRequestView(m, 4, T, DEFAULTS);
  }

  lemma HeaderOf2(m: Node, t: Table)
    requires m.me == 2 && m.requestId == 0 && m.seqNo == 0 && 4 in t && t[4].validSeqNo && t[4].seqNo == 0
    ensures RequestHeader(m, t, 4, DEFAULTS) == REQUEST_OF_2
  {
  }

  /** The routes of 3 after the first discovery. */
  function FoundView(): View {
    map[1 := OneHop(1, 0), 4 := Route(true, 0, 3, 1, true, VALID)]
  }

  /** Node 3 believes it has a fresh enough route, and says so. */
  lemma Believes(n: Node) returns (q: Packet)
    requires Sees(n, 3, FoundView()) && forall u :: u in n.idCache ==> u.context == 3
    ensures var r := Handle(n, Receive(Packet(Rreq(REQUEST_OF_2), 3, Broadcast), 2), T, DEFAULTS);
            && WellFormed(r.table) && 4 in ViewOf(r.table, T) && ViewOf(r.table, T)[4] == FoundView()[4]
            && q in r.sent && q.target == To(2) && q.msg.Rrep? && q.msg.rrep.dst == 4 && q.msg.rrep.origin == 2
  {
    hide Handle, RecvAodv, AcceptRequest, AnswerOrRelay, UpdateRouteToNeighbor, ViewOf, Purge,
      SendReplyByIntermediateNode;
    var m := REQUEST_OF_2;
    Handled(n, Packet(Rreq(m), 3, Broadcast), 2);
    Takes(n, m, 3, 2, FoundView());
    var a := AcceptRequest(n.(table := UpdateRouteToNeighbor(n.table, 2, T, DEFAULTS)), m, 2, T, DEFAULTS);
    PurgeView(a.table, T, DEFAULTS.deletePeriod);
    var t := Purge(a.table, T, DEFAULTS.deletePeriod);
    SettledView(t, T);
    PurgeView(t, T, DEFAULTS.deletePeriod);
    var v := ViewOf(t, T);
    assert 4 in v && v[4] == FoundView()[4] && 2 in v;
    assert AnswerOrRelay(a, m.(hopCount := 1), 3, 2, T, DEFAULTS)
        == SendReplyByIntermediateNode(a.(table := t), t[4], t[2], true, T, DEFAULTS) by { TableAnswers(a, t); }
    IntermediateReplyView(a.(table := t), t[4], t[2], true, T, DEFAULTS);
    var r := SendReplyByIntermediateNode(a.(table := t), t[4], t[2], true, T, DEFAULTS);
    var p: Packet, rest: seq<Packet> :| r.sent == a.sent + [p] + rest && TableReply(v, p, 4, 2);
    q := p;
  }

  lemma TableAnswers(a: Node, t: Table)
    requires a.me == 3 && t == Purge(a.table, T, DEFAULTS.deletePeriod) && 2 in t && 4 in t
    requires t[4].nextHop == 1 && t[4].validSeqNo && t[4].seqNo == 0 && t[4].flag == VALID
    ensures AnswerOrRelay(a, REQUEST_OF_2.(hopCount := 1), 3, 2, T, DEFAULTS)
         == SendReplyByIntermediateNode(a.(table := t), t[4], t[2], true, T, DEFAULTS)
  {
    hide Purge, SendReplyByIntermediateNode;
    var m := REQUEST_OF_2;
    assert !m.UnknownSeqno() && !m.DestinationOnly() && m.GratuitousRrep();
  }

  /** A searching node takes whatever is offered. */
  lemma Fooled(n: Node, q: Packet, src: Addr)
    requires n.me == 2 && WellFormed(n.table) && 4 in ViewOf(n.table, T) && ViewOf(n.table, T)[4].flag == IN_SEARCH
    requires q.msg.Rrep? && q.msg.rrep.dst == 4 && q.msg.rrep.origin == 2 && src != 4 && src != UNSET
    ensures var r := Handle(n, Receive(q, src), T, DEFAULTS);
            4 in ViewOf(r.table, T) && ViewOf(r.table, T)[4].nextHop == src && ViewOf(r.table, T)[4].flag == VALID
  {
    hide Handle, UpdateRouteToNeighbor, RecvReply, ViewOf;
    Handled(n, q, src);
    UpdateRouteToNeighborView(n.table, src, T, DEFAULTS);
    var n1 := n.(table := UpdateRouteToNeighbor(n.table, src, T, DEFAULTS));
    RecvReplyView(n1, q.msg.rrep, q.ttl, src, T, DEFAULTS);
  }

  // ------------------------------------------------------------------------------- the run

  /** The steps so far lead to these four nodes. */
  ghost predicate Reached(acts: seq<Action>, s: Net) {
    CanRun(START, acts, DEFAULTS) && Final(START, acts, DEFAULTS) == s
  }

  /** One step more at the end of a run. */
  lemma {:induction false} Extend(s: Net, acts: seq<Action>, a: Action, c: Config)
    requires CanRun(s, acts, c) && CanStep(Final(s, acts, c), a)
    ensures a.node in Final(s, acts, c)
    ensures CanRun(s, acts + [a], c) && Final(s, acts + [a], c) == StepTo(Final(s, acts, c), a, c)
    decreases |acts|
  {
    hide Handle, CanStep;
    if acts == [] {
      Present(s, a);
      assert [] + [a] == [a] && [a][1..] == [];
      assert Final(StepTo(s, a, c), [], c) == StepTo(s, a, c);
    } else {
      Present(s, acts[0]);
      Extend(StepTo(s, acts[0], c), acts[1..], a, c);
      TailOfConcat(acts, [a]);
    }
  }

  lemma Present(s: Net, a: Action)
    requires CanStep(s, a)
    ensures a.node in s
  {
  }

  /** A step of `x` leads from `s` to `s'`. */
  lemma Move(before: seq<Action>, s: Net, x: Addr, ev: Event, now: int) returns (acts: seq<Action>)
    requires Reached(before, s) && CanStep(s, Action(x, ev, now))
    ensures Reached(acts, s[x := Handle(s[x], ev, now, DEFAULTS)])
  {
    hide CanStep, Handle;
    var a := Action(x, ev, now);
    Extend(START, before, a, DEFAULTS);
    acts := before + [a];
  }

  /** `x` hears what `y` has sent. */
  lemma Hear(before: seq<Action>, s: Net, x: Addr, p: Packet, y: Addr) returns (acts: seq<Action>)
    requires Reached(before, s) && x in s && y in s && x != y && p in s[y].sent && Proper(p.msg)
    requires p.target == Broadcast || p.target == To(x)
    ensures Reached(acts, s[x := Handle(s[x], Receive(p, y), T, DEFAULTS)])
  {
    hide Handle, Reached;
    acts := Move(before, s, x, Receive(p, y), T);
  }

  /** The network after the first discovery: 3 reaches 4 through 1 and 2. */
  lemma Discovered() returns (acts: seq<Action>, n1: Node, n2: Node, n3: Node, n4: Node)
    ensures Reached(acts, Four(n1, n2, n3, n4))
    ensures WellFormed(n1.table) && 4 in ViewOf(n1.table, T)
            && ViewOf(n1.table, T)[4] == Route(true, 0, 2, 2, true, VALID)
    ensures Sees(n2, 2, LinkedView()) && Idle(n2)
    ensures Sees(n3, 3, FoundView()) && forall u :: u in n3.idCache ==> u.context == 3
  {
    hide Handle, Reached, Sees, NewRrep;
    n1, n2, n3, n4 := Station(1), Station(2), Station(3), Station(4);
    acts := [];
    assert Reached(acts, START) by { NoSteps(); }
    FirstRing();
    acts := Move(acts, START, 3, Output(DATA), 0);
    n3 := AskedOnce();
    assert START[3 := n3] == Four(n1, n2, n3, n4);
    SecondRing();
    acts := Move(acts, Four(n1, n2, n3, n4), 3, RreqTimer(4), T);
    assert Four(n1, n2, n3, n4)[3 := AskedTwice()] == Four(n1, n2, AskedTwice(), n4);
    n3 := AskedTwice();
    acts, n1, n2, n4 := Asked(acts, n3);
    acts, n1, n2, n3 := Told(acts, n1, n2, n3, n4);
  }

  lemma NoSteps()
    ensures Reached([], START)
  {
  }

  const P1 := Packet(Rreq(REQUEST_OF_3.(hopCount := 1)), 2, Broadcast)
  const P2 := Packet(Rreq(LAST_HOP), 1, Broadcast)

  /** The request travels from 3 to 4, and 4 answers. */
  lemma Asked(before: seq<Action>, n3: Node) returns (acts: seq<Action>, n1: Node, n2: Node, n4: Node)
    requires Reached(before, Four(Station(1), Station(2), n3, Station(4)))
    requires Packet(Rreq(REQUEST_OF_3), 3, Broadcast) in n3.sent
    ensures Reached(acts, Four(n1, n2, n3, n4))
    ensures Sees(n1, 1, TakenView(REQUEST_OF_3, 3)) && Idle(n1)
    ensures Sees(n2, 2, TakenView(REQUEST_OF_3.(hopCount := 1), 1)) && Idle(n2)
    ensures n4.sent == [Packet(Rrep(REPLY_OF_4), 3, To(2))]
  {
    hide Handle, Reached, Sees, NewRrep;
    var p0 := Packet(Rreq(REQUEST_OF_3), 3, Broadcast);
    acts := Hear(before, Four(Station(1), Station(2), n3, Station(4)), 1, p0, 3);
    Relays(1, REQUEST_OF_3, 3, 3);
    n1 := Handle(Station(1), Receive(p0, 3), T, DEFAULTS);
    assert Four(Station(1), Station(2), n3, Station(4))[1 := n1] == Four(n1, Station(2), n3, Station(4));
    acts := Hear(acts, Four(n1, Station(2), n3, Station(4)), 2, P1, 1);
    Relays(2, P1.msg.rreq, 2, 1);
    n2 := Handle(Station(2), Receive(P1, 1), T, DEFAULTS);
    assert Four(n1, Station(2), n3, Station(4))[2 := n2] == Four(n1, n2, n3, Station(4));
    acts := Hear(acts, Four(n1, n2, n3, Station(4)), 4, P2, 2);
    Answers();
    n4 := Handle(Station(4), Receive(P2, 2), T, DEFAULTS);
    assert Four(n1, n2, n3, Station(4))[4 := n4] == Four(n1, n2, n3, n4);
  }

  /** The RREP of 4 with hop count `k`. */
  function Reply(k: U8): RrepHeader {
    REPLY_OF_4.(hopCount := k)
  }

  lemma NoAck(k: U8)
    ensures !Reply(k).AckRequired() && Reply(k).SetAckRequired(false) == Reply(k)
    ensures Reply(k).dst == 4 && Reply(k).dstSeqNo == 0 && Reply(k).origin == 3
  {
  }

  /** The answer travels back from 4 to 3. */
  lemma Told(before: seq<Action>, m1: Node, m2: Node, m3: Node, n4: Node)
    returns (acts: seq<Action>, n1: Node, n2: Node, n3: Node)
    requires Reached(before, Four(m1, m2, m3, n4))
    requires Sees(m1, 1, TakenView(REQUEST_OF_3, 3))
    requires Sees(m2, 2, TakenView(REQUEST_OF_3.(hopCount := 1), 1)) && Idle(m2)
    requires Sees(m3, 3, SeekingView()) && forall u :: u in m3.idCache ==> u.context == 3
    requires n4.sent == [Packet(Rrep(REPLY_OF_4), 3, To(2))]
    ensures Reached(acts, Four(n1, n2, n3, n4))
    ensures WellFormed(n1.table) && 4 in ViewOf(n1.table, T)
            && ViewOf(n1.table, T)[4] == Route(true, 0, 2, 2, true, VALID)
    ensures Sees(n2, 2, LinkedView()) && Idle(n2)
    ensures Sees(n3, 3, FoundView()) && forall u :: u in n3.idCache ==> u.context == 3
  {
    hide Handle, Reached, ViewOf, Idle, NewRrep, Proper, Sees, Reply, TakenView, WellFormed, SeekingView, LinkedView,
      FoundView;
    var q0, q1, q2 := Packet(Rrep(Reply(0)), 3, To(2)), Packet(Rrep(Reply(1)), 2, To(1)),
        Packet(Rrep(Reply(2)), 1, To(3));
    AllProper();
    acts := Hear(before, Four(m1, m2, m3, n4), 2, q0, 4);
    Told2(m2);
    n2 := Handle(m2, Receive(q0, 4), T, DEFAULTS);
    assert Four(m1, m2, m3, n4)[2 := n2] == Four(m1, n2, m3, n4);
    acts := Hear(acts, Four(m1, n2, m3, n4), 1, q1, 2);
    Told1(m1);
    n1 := Handle(m1, Receive(q1, 2), T, DEFAULTS);
    assert Four(m1, n2, m3, n4)[1 := n1] == Four(n1, n2, m3, n4);
    acts := Hear(acts, Four(n1, n2, m3, n4), 3, q2, 1);
    Told3(m3);
    n3 := Handle(m3, Receive(q2, 1), T, DEFAULTS);
    assert Four(n1, n2, m3, n4)[3 := n3] == Four(n1, n2, n3, n4);
  }

  lemma AllProper()
    ensures Reply(0) == REPLY_OF_4 && forall k: U8 :: Proper(Rrep(Reply(k)))
  {
  }

  lemma Told2(n: Node)
    requires Sees(n, 2, TakenView(REQUEST_OF_3.(hopCount := 1), 1)) && Idle(n)
    ensures var r := Handle(n, Receive(Packet(Rrep(Reply(0)), 3, To(2)), 4), T, DEFAULTS);
            Sees(r, 2, LinkedView()) && Idle(r) && Packet(Rrep(Reply(1)), 2, To(1)) in r.sent
  {
    hide Handle, ViewOf, Idle, NewRrep;
    NoAck(0);
    NoAck(1);
    Passes(n, TakenView(REQUEST_OF_3.(hopCount := 1), 1), Reply(0), 3, 4);
    assert RepliedView(n, Refreshed(TakenView(REQUEST_OF_3.(hopCount := 1), 1), 4), Reply(0), 4) == LinkedView();
  }

  lemma Told1(n: Node)
    requires Sees(n, 1, TakenView(REQUEST_OF_3, 3))
    ensures var r := Handle(n, Receive(Packet(Rrep(Reply(1)), 2, To(1)), 2), T, DEFAULTS);
            && WellFormed(r.table) && 4 in ViewOf(r.table, T)
               && ViewOf(r.table, T)[4] == Route(true, 0, 2, 2, true, VALID)
            && Packet(Rrep(Reply(2)), 1, To(3)) in r.sent
  {
    hide Handle, ViewOf, Idle, NewRrep;
    NoAck(1);
    NoAck(2);
    Passes(n, TakenView(REQUEST_OF_3, 3), Reply(1), 2, 2);
  }

  lemma Told3(n: Node)
    requires Sees(n, 3, SeekingView()) && forall u :: u in n.idCache ==> u.context == 3
    ensures var r := Handle(n, Receive(Packet(Rrep(Reply(2)), 1, To(3)), 1), T, DEFAULTS);
            Sees(r, 3, FoundView()) && forall u :: u in r.idCache ==> u.context == 3
  {
    hide Handle, ViewOf, Idle, NewRrep;
    NoAck(2);
    Passes(n, SeekingView(), Reply(2), 1, 1);
    assert RepliedView(n, Refreshed(SeekingView(), 1), Reply(2), 1) == FoundView();
  }

  /** One step of node 2. */
  lemma Move2(before: seq<Action>, n1: Node, n2: Node, n3: Node, n4: Node, ev: Event) returns (acts: seq<Action>)
    requires Reached(before, Four(n1, n2, n3, n4)) && Enabled(n2, ev) && !ev.Receive?
    ensures Reached(acts, Four(n1, Handle(n2, ev, T, DEFAULTS), n3, n4))
  {
    hide Handle, Reached;
    acts := Move(before, Four(n1, n2, n3, n4), 2, ev, T);
    assert Four(n1, n2, n3, n4)[2 := Handle(n2, ev, T, DEFAULTS)] == Four(n1, Handle(n2, ev, T, DEFAULTS), n3, n4);
  }

  /** 2 loses its link to 4 and asks again; what it sends about the loss never arrives. */
  lemma Relapses(before: seq<Action>, n1: Node, m2: Node, n3: Node, n4: Node) returns (acts: seq<Action>, n2: Node)
    requires Reached(before, Four(n1, m2, n3, n4)) && Sees(m2, 2, LinkedView()) && Idle(m2)
    ensures Reached(acts, Four(n1, n2, n3, n4)) && n2.me == 2 && WellFormed(n2.table)
    ensures Packet(Rreq(REQUEST_OF_2), 3, Broadcast) in n2.sent
    ensures 4 in ViewOf(n2.table, T) && ViewOf(n2.table, T)[4].flag == IN_SEARCH
  {
    hide Handle, Reached, ViewOf, QuietLinks, WellFormed, LinkedView, Idle, Four, CutView;
    LinkedHas4();
    acts := Move2(before, n1, m2, n3, n4, UseNeighbor(4));
    Uses(m2, LinkedView());
    n2 := Handle(m2, UseNeighbor(4), T, DEFAULTS);
    acts := Move2(acts, n1, n2, n3, n4, LinkFailure({4}));
    Loses(n2, LinkedView());
    n2 := Handle(n2, LinkFailure({4}), T, DEFAULTS);
    acts := Move2(acts, n1, n2, n3, n4, Output(DATA));
    AsksAgain(n2);
    n2 := Handle(n2, Output(DATA), T, DEFAULTS);
  }

  ghost predicate RoutesThrough(n: Node, via: Addr) {
    4 in n.table && n.table[4].flag != IN_SEARCH && n.table[4].nextHop == via
  }

  lemma Circle(s: Net)
    requires {1, 2, 3} <= s.Keys && RoutesThrough(s[1], 2) && RoutesThrough(s[2], 3) && RoutesThrough(s[3], 1)
    ensures Follow(NextHops(s, 4), 2, 3) == 2
  {
    var next := NextHops(s, 4);
    assert 1 in s && 2 in s && 3 in s;
    assert next[2] == 3 && next[3] == 1 && next[1] == 2;
    assert Follow(next, 2, 3) == Follow(next, 3, 2) == Follow(next, 1, 1) == Follow(next, 2, 0) == 2;
  }

  lemma SeenRoute(n: Node, via: Addr)
    requires 4 in ViewOf(n.table, T) && ViewOf(n.table, T)[4].flag == VALID && ViewOf(n.table, T)[4].nextHop == via
    ensures RoutesThrough(n, via)
  {
  }

  /** Loop freedom does fail in a run of the protocol: four nodes that have just been started, with the
      default attributes, come to a state in which following next hops towards 4 goes round in a circle. */
  lemma SearchClosesLoop() returns (acts: seq<Action>)
    ensures Initial(START) && CanRun(START, acts, DEFAULTS)
    ensures Follow(NextHops(Final(START, acts, DEFAULTS), 4), 2, 3) == 2
  {
    hide Handle, CanRun, Final, NextHops, Follow, ViewOf, Sees, RoutesThrough, Four, Idle;
    var n1, n2, n3, n4;
    acts, n1, n2, n3, n4 := Discovered();
    acts, n2 := Relapses(acts, n1, n2, n3, n4);
    SeenRoute(n1, 2);
    acts, n2, n3 := Closes(acts, n1, n2, n3, n4);
    CircleOfThree(n1, n2, n3, n4);
    StartsBlank();
  }

  lemma StartsBlank()
    ensures Initial(START)
  {
  }

  lemma CircleOfThree(n1: Node, n2: Node, n3: Node, n4: Node)
    requires RoutesThrough(n1, 2) && RoutesThrough(n2, 3) && RoutesThrough(n3, 1)
    ensures Follow(NextHops(Four(n1, n2, n3, n4), 4), 2, 3) == 2
  {
    hide RoutesThrough, NextHops, Follow;
    Circle(Four(n1, n2, n3, n4));
  }

  /** 3 answers 2, and 2 takes the answer. */
  lemma Closes(before: seq<Action>, n1: Node, m2: Node, m3: Node, n4: Node)
    returns (acts: seq<Action>, n2: Node, n3: Node)
    requires Reached(before, Four(n1, m2, m3, n4)) && m2.me == 2 && WellFormed(m2.table)
    requires Packet(Rreq(REQUEST_OF_2), 3, Broadcast) in m2.sent
    requires 4 in ViewOf(m2.table, T) && ViewOf(m2.table, T)[4].flag == IN_SEARCH
    requires Sees(m3, 3, FoundView()) && forall u :: u in m3.idCache ==> u.context == 3
    ensures Reached(acts, Four(n1, n2, n3, n4)) && RoutesThrough(n2, 3) && RoutesThrough(n3, 1)
  {
    hide Handle, Reached, ViewOf, Sees, RoutesThrough, WellFormed;
    var p := Packet(Rreq(REQUEST_OF_2), 3, Broadcast);
    acts := Hear(before, Four(n1, m2, m3, n4), 3, p, 2);
    var q := Believes(m3);
    n3 := Handle(m3, Receive(p, 2), T, DEFAULTS);
    assert Four(n1, m2, m3, n4)[3 := n3] == Four(n1, m2, n3, n4);
    acts := Hear(acts, Four(n1, m2, n3, n4), 2, q, 3);
    Fooled(m2, q, 3);
    n2 := Handle(m2, Receive(q, 3), T, DEFAULTS);
    assert Four(n1, m2, n3, n4)[2 := n2] == Four(n1, n2, n3, n4);
    SeenRoute(n2, 3);
    SeenRoute(n3, 1);
  }
}
