/** What each handler of a node does to the view of its table and to its log of sent packets. */
module NodeViews {
  import opened Basics
  import opened SequenceNumbers
  import opened Headers
  import opened RouteEntries
  import opened Nodes
  import opened RouteViews
  import Q = PacketQueues
  import C = IdCaches

  /** The same routes, some of which have gone from VALID to INVALID. */
  ghost predicate Fades(v: View, w: View) {
    && v.Keys == w.Keys
    && forall k :: k in v ==> w[k] == v[k] || (v[k].flag == VALID && w[k] == v[k].(flag := INVALID))
  }

  lemma FadesTransitive(u: View, v: View, w: View)
    requires Fades(u, v) && Fades(v, w)
    ensures Fades(u, w)
  {
  }

  /** The table is untouched, or has just been purged of what was due for deletion. */
  ghost predicate Kept(t: Table, r: Table, now: int) {
    r == t || (forall k :: k in r ==> !Gone(r[k], now))
  }

  /** The log grew by RERRs only. */
  ghost predicate OnlyErrors(before: seq<Packet>, after: seq<Packet>) {
    && before <= after
    && forall i :: |before| <= i < |after| ==> after[i].msg.Rerr?
  }

  /** Nothing but the table, the log and the neighbour list is different. */
  ghost predicate SameCore(n: Node, r: Node) {
    r == n.(table := r.table, sent := r.sent, nb := r.nb)
  }

  lemma InvalidateView(t: Table, dsts: set<Addr>, now: int, bad: int)
    requires WellFormed(t) && bad >= 0
    ensures Settled(InvalidateRoutesWithDst(t, dsts, now, bad), now)
    ensures Fades(ViewOf(t, now), ViewOf(InvalidateRoutesWithDst(t, dsts, now, bad), now))
  {
    PurgeView(t, now, bad);
    InvalidatedView(Purge(t, now, bad), dsts, now, bad);
  }

  lemma InvalidatedView(t: Table, dsts: set<Addr>, now: int, bad: int)
    requires Settled(t, now) && bad >= 0
    ensures Settled(Invalidated(t, dsts, now, bad), now)
    ensures Fades(ViewOf(t, now), ViewOf(Invalidated(t, dsts, now, bad), now))
  {
  }

  lemma RerrIsError(before: seq<Packet>, t: Table, h: RerrHeader, precursors: set<Addr>)
    ensures OnlyErrors(before, before + RerrMessage(t, h, precursors))
  {
  }

  lemma PurgeKept(t: Table, now: int, bad: int)
    requires WellFormed(t) && bad >= 0
    ensures WellFormed(Purge(t, now, bad)) && Kept(t, Purge(t, now, bad), now)
    ensures Fades(ViewOf(t, now), ViewOf(Purge(t, now, bad), now))
  {
    PurgeView(t, now, bad);
  }

  lemma InvalidateKept(t: Table, dsts: set<Addr>, now: int, bad: int)
    requires WellFormed(t) && bad >= 0
    ensures var p := Purge(t, now, bad); var r := InvalidateRoutesWithDst(p, dsts, now, bad);
            Settled(r, now) && Kept(t, r, now) && Fades(ViewOf(t, now), ViewOf(r, now))
  {
    hide InvalidateRoutesWithDst, Purge;
    PurgeView(t, now, bad);
    InvalidateView(Purge(t, now, bad), dsts, now, bad);
  }

  lemma LinkBreakView(n: Node, nextHop: Addr, now: int, c: Config)
    requires WellFormed(n.table) && c.Sane()
    ensures var r := LinkBreak(n, nextHop, now, c);
            && SameCore(n, r) && r.nb == n.nb && WellFormed(r.table) && OnlyErrors(n.sent, r.sent)
            && Kept(n.table, r.table, now) && Fades(ViewOf(n.table, now), ViewOf(r.table, now))
  {
    hide Purge, InvalidateRoutesWithDst, RerrMessage, Precursors, Kept, Fades, ViewOf, OnlyErrors, Through;
    var t := Purge(n.table, now, c.deletePeriod);
    PurgeKept(n.table, now, c.deletePeriod);
    if nextHop in t {
      var lost := Through(t, nextHop)[nextHop := t[nextHop].seqNo];
      InvalidateKept(n.table, lost.Keys, now, c.deletePeriod);
      RerrIsError(n.sent, t, EMPTY_RERR.(dests := lost), Precursors(t, lost.Keys));
    } else {
      NoErrors(n.sent);
    }
  }

  lemma NoErrors(sent: seq<Packet>)
    ensures OnlyErrors(sent, sent)
  {
  }

  lemma {:induction false} BreakLinksView(n: Node, nb: seq<Neighbor>, now: int, c: Config)
    requires WellFormed(n.table) && c.Sane()
    ensures var r := BreakLinks(n, nb, now, c);
            && SameCore(n, r) && r.nb == n.nb && WellFormed(r.table) && OnlyErrors(n.sent, r.sent)
            && Kept(n.table, r.table, now) && Fades(ViewOf(n.table, now), ViewOf(r.table, now))
    ensures (forall b :: b in nb ==> !Closing(b, now)) ==> BreakLinks(n, nb, now, c) == n
    decreases |nb|
  {
    if nb != [] {
      if Closing(nb[0], now) {
        var n1 := LinkBreak(n, nb[0].addr, now, c);
        LinkBreakView(n, nb[0].addr, now, c);
        BreakLinksView(n1, nb[1..], now, c);
        FadesTransitive(ViewOf(n.table, now), ViewOf(n1.table, now),
                        ViewOf(BreakLinks(n1, nb[1..], now, c).table, now));
      } else {
        BreakLinksView(n, nb[1..], now, c);
      }
    }
  }

  /** No link is about to close. */
  ghost predicate QuietLinks(n: Node, now: int) {
    forall b :: b in n.nb ==> !Closing(b, now)
  }

  lemma NbPurgeView(n: Node, now: int, c: Config)
    requires WellFormed(n.table) && c.Sane()
    ensures var r := NbPurge(n, now, c);
            && SameCore(n, r) && WellFormed(r.table) && OnlyErrors(n.sent, r.sent)
            && Kept(n.table, r.table, now) && Fades(ViewOf(n.table, now), ViewOf(r.table, now))
    ensures QuietLinks(n, now) ==> NbPurge(n, now, c) == n
  {
    BreakLinksView(n, n.nb, now, c);
    if QuietLinks(n, now) {
      FilterAll(n.nb, Nodes.Open(now));
    }
  }

  lemma NbUpdateView(n: Node, addr: Addr, lifetime: int, now: int, c: Config)
    requires WellFormed(n.table) && c.Sane()
    ensures var r := NbUpdate(n, addr, lifetime, now, c);
            && SameCore(n, r) && WellFormed(r.table) && OnlyErrors(n.sent, r.sent)
            && Kept(n.table, r.table, now) && Fades(ViewOf(n.table, now), ViewOf(r.table, now))
    ensures QuietLinks(n, now) && lifetime >= 0 ==>
              var r := NbUpdate(n, addr, lifetime, now, c); r == n.(nb := r.nb) && QuietLinks(r, now)
  {
    var i := IndexOfNeighbor(n.nb, addr);
    if i == |n.nb| {
      NbPurgeView(n.(nb := n.nb + [Neighbor(addr, now + lifetime, false)]), now, c);
    } else {
      assert n.nb[i] in n.nb;
    }
  }

  // ------------------------------------------------------------------------------- requests

  /** The routes a RREQ seen for the first time leaves behind, before any link is found broken. */
  function RequestedView(v: View, m: RreqHeader, src: Addr, c: Config): View {
    Put(Put(v, m.origin, Reversed(v, m.(hopCount := Bump8(m.hopCount)), src, c)), src, OneHop(src, m.originSeqNo))
  }

  lemma AcceptRequestView(n: Node, m: RreqHeader, src: Addr, now: int, c: Config)
    requires WellFormed(n.table) && c.Sane()
    ensures var r := AcceptRequest(n, m, src, now, c);
            && r == n.(table := r.table, sent := r.sent, nb := r.nb, idCache := r.idCache)
            && r.idCache == C.Remember(n.idCache, m.origin, m.requestID, now, c.pathDiscoveryTime)
            && WellFormed(r.table) && OnlyErrors(n.sent, r.sent)
            && (forall k :: k in r.table ==> !Gone(r.table[k], now))
            && Fades(RequestedView(ViewOf(n.table, now), m, src, c), ViewOf(r.table, now))
    ensures QuietLinks(n, now) ==>
              var r := AcceptRequest(n, m, src, now, c);
              r.sent == n.sent && QuietLinks(r, now)
              && ViewOf(r.table, now) == RequestedView(ViewOf(n.table, now), m, src, c)
  {
    var t := Purge(n.table, now, c.deletePeriod);
    PurgeView(n.table, now, c.deletePeriod);
    var m1 := m.(hopCount := Bump8(m.hopCount));
    ReverseRouteView(t, m1, src, now, c);
    var t1 := ReverseRoute(t, m1, src, now, c);
    NeighborRouteView(t1, m.originSeqNo, src, now, c);
    NbUpdateView(n.(table := NeighborRoute(t1, m.originSeqNo, src, now, c),
                    idCache := C.Remember(n.idCache, m.origin, m.requestID, now, c.pathDiscoveryTime)),
                 src, c.helloLifetime, now, c);
  }

  /** The destination's own RREP. */
  function OwnReply(r: Node, m: RreqHeader, toOrigin: Route, c: Config): Packet {
    Packet(Rrep(NewRrep(0, m.dst, r.seqNo, m.origin, c.myRouteTimeout)), toOrigin.hops % 0x100, To(toOrigin.nextHop))
  }

  /** A RREP taken from the table: its hop count and sequence number are those of the route to its
      destination; it goes out along the route to its origin, with that route's hops as its TTL. */
  ghost predicate TableReply(v: View, p: Packet, dst: Addr, origin: Addr) {
    && p.msg.Rrep? && p.msg.rrep.dst == dst && p.msg.rrep.origin == origin && dst in v && origin in v
    && p.msg.rrep.hopCount == v[dst].hops % 0x100 && p.msg.rrep.dstSeqNo == v[dst].seqNo
    && p.ttl == v[origin].hops % 0x100 && p.target == To(v[origin].nextHop)
  }

  /** What a RREQ with an incremented hop count makes a node send. */
  ghost predicate Answered(n: Node, r: Node, v: View, m: RreqHeader, ttl: U8, c: Config) {
    if m.dst == n.me then m.origin in v && r.sent == n.sent + [OwnReply(r, m, v[m.origin], c)]
    else
      || r.sent == n.sent
      || (ttl >= 2 && exists m': RreqHeader :: m' == m.(dstSeqNo := m'.dstSeqNo, flags := m'.flags)
                          && r.sent == n.sent + [Packet(Rreq(m'), ttl - 1, Broadcast)])
      || (m.dst in v && v[m.dst].validSeqNo && v[m.dst].flag == VALID && m.origin in v
          && exists p: Packet, rest: seq<Packet> :: r.sent == n.sent + [p] + rest && TableReply(v, p, m.dst, m.origin)
               && (rest == [] || (|rest| == 1 && TableReply(v, rest[0], m.origin, m.dst))))
  }

  /** The RREPs among what a RREQ makes a node send. */
  lemma AnsweredRreps(n: Node, r: Node, v: View, m: RreqHeader, ttl: U8, c: Config, p: Packet)
    requires Answered(n, r, v, m, ttl, c) && p in r.sent && p !in n.sent && p.msg.Rrep?
    ensures m.dst == n.me ==> m.origin in v && p == OwnReply(r, m, v[m.origin], c)
    ensures m.dst != n.me ==> m.dst in v && v[m.dst].validSeqNo
                              && (TableReply(v, p, m.dst, m.origin) || TableReply(v, p, m.origin, m.dst))
  {
    hide TableReply, OwnReply;
    assert n.sent <= r.sent;
    NewPacket(n.sent, r.sent, p);
  }

  /** A packet that was not in the log stands behind it. */
  lemma NewPacket(before: seq<Packet>, after: seq<Packet>, p: Packet)
    requires before <= after && p in after && p !in before
    ensures exists i :: |before| <= i < |after| && after[i] == p
  {
    assert forall j :: 0 <= j < |before| ==> after[j] in before;
  }

  lemma AnswerOrRelayView(n: Node, m: RreqHeader, ttl: U8, src: Addr, now: int, c: Config)
    requires WellFormed(n.table) && c.Sane() && now >= 0
    requires m.origin in ViewOf(n.table, now) && m.dst != UNSET
    ensures var r := AnswerOrRelay(n, m, ttl, src, now, c);
            && r == n.(table := r.table, sent := r.sent, seqNo := r.seqNo)
            && (m.dst != n.me ==> r.seqNo == n.seqNo) && (r.seqNo == n.seqNo || r.seqNo == Next(n.seqNo))
            && Settled(r.table, now) && ViewOf(r.table, now) == ViewOf(n.table, now)
            && Answered(n, r, ViewOf(n.table, now), m, ttl, c)
  {
    hide SendReplyByIntermediateNode, SeqDiff, TableReply, WithBit, Bit, NewRrep, Purge;
    var t := Purge(n.table, now, c.deletePeriod);
    PurgeView(n.table, now, c.deletePeriod);
    SettledView(t, now);
    var n1 := n.(table := t);
    var toOrigin := t[m.origin];
    if m.dst != n.me && m.dst in t {
      var toDst := t[m.dst];
      if toDst.nextHop != src && (m.UnknownSeqno() || SeqDiff(toDst.seqNo, m.dstSeqNo) >= 0) && toDst.validSeqNo {
        if !m.DestinationOnly() && toDst.flag == VALID {
          IntermediateReplyView(n1, toDst, toOrigin, m.GratuitousRrep(), now, c);
        }
      }
    }
  }

  lemma IntermediateReplyView(n: Node, toDst: Entry, toOrigin: Entry, gratuitous: bool, now: int, c: Config)
    requires Settled(n.table, now) && c.Sane()
    requires toDst.dst in n.table && n.table[toDst.dst] == toDst && toDst.dst != UNSET
    requires toOrigin.dst in n.table && n.table[toOrigin.dst] == toOrigin && toOrigin.dst != UNSET
    ensures var r := SendReplyByIntermediateNode(n, toDst, toOrigin, gratuitous, now, c);
            && r == n.(table := r.table, sent := r.sent)
            && Settled(r.table, now) && ViewOf(r.table, now) == ViewOf(n.table, now)
            && exists p: Packet, rest: seq<Packet> :: r.sent == n.sent + [p] + rest
                 && TableReply(ViewOf(n.table, now), p, toDst.dst, toOrigin.dst)
                 && (rest == [] || (|rest| == 1 && TableReply(ViewOf(n.table, now), rest[0], toOrigin.dst, toDst.dst)))
  {
    hide WithBit, Bit, Millis, Purge, Settled, ViewOf;
    SettledEntry(n.table, toDst.dst, now);
    SettledEntry(n.table, toOrigin.dst, now);
    var v := ViewOf(n.table, now);
    SettledView(n.table, now);
    PrecursorUpdate(n.table, toDst, toOrigin.nextHop, now);
    var t1 := Update(n.table, toDst.InsertPrecursor(toOrigin.nextHop));
    SameAt(n.table, t1, toOrigin.dst, now);
    PrecursorUpdate(t1, toOrigin, toDst.nextHop, now);
    var r := SendReplyByIntermediateNode(n, toDst, toOrigin, gratuitous, now, c);
    var p := r.sent[|n.sent|];
    var rest := r.sent[|n.sent| + 1..];
    assert r.sent == n.sent + [p] + rest;
    assert TableReply(v, p, toDst.dst, toOrigin.dst);
    assert gratuitous ==> |rest| == 1 && TableReply(v, rest[0], toOrigin.dst, toDst.dst);
  }

  // ------------------------------------------------------------------------------- replies

  /** The routes after a RREP that is not a HELLO. */
  function RepliedView(n: Node, v: View, m: RrepHeader, sender: Addr): View {
    if m.origin == n.me && m.dst in v && v[m.dst].flag == IN_SEARCH
    then Put(v, m.dst, OfferedRoute(m, sender))
    else Installed(v, m, sender)
  }

  /** The RREP as it is passed on. */
  function PassedOn(m: RrepHeader, ttl: U8, toOrigin: Route): Packet
    requires ttl >= 1
  {
    Packet(Rrep(m.(hopCount := Bump8(m.hopCount)).SetAckRequired(false)), ttl - 1, To(toOrigin.nextHop))
  }

  /** The log after a RREP: an acknowledgement if it asked for one, possibly the RREP one hop further. */
  ghost predicate Forwarded(n: Node, r: Node, w: View, m: RrepHeader, ttl: U8, sender: Addr) {
    r.sent == n.sent + Ack(m, sender)
              + (if m.origin != n.me && m.origin in w && w[m.origin].flag != IN_SEARCH && ttl >= 2
                 then [PassedOn(m, ttl, w[m.origin])] else [])
  }

  lemma {:induction false} SendPacketsCore(n: Node, dst: Addr, route: Entry, now: int)
    ensures var r := SendPacketFromQueue(n, dst, route, now);
            r == n.(queue := r.queue, forwarded := r.forwarded)
    decreases |n.queue.waiting|
  {
    var p := Q.Purge(n.queue, now);
    var i := Q.FirstFor(p.waiting, dst);
    if i < |p.waiting| && !Mismatch(p.waiting[i], DeviceOf(n, route)) {
      SendPacketsCore(n.(queue := Q.Take(p, i), forwarded := n.forwarded + [p.waiting[i]]), dst, route, now);
    }
  }

  function Ack(m: RrepHeader, sender: Addr): seq<Packet> {
    if m.AckRequired() then [Packet(RrepAck, 1, To(sender))] else []
  }

  lemma TakeReplyView(n: Node, m: RrepHeader, sender: Addr, now: int, c: Config)
    requires WellFormed(n.table) && c.Sane()
    ensures var r := TakeReply(n, m, sender, now, c);
            && r == n.(table := r.table, sent := n.sent + Ack(m, sender))
            && Settled(r.table, now) && m.dst in r.table
            && ViewOf(r.table, now) == Installed(ViewOf(n.table, now), m, sender)
  {
    hide InstallRoute;
    InstallRouteView(n.table, m, sender, now, c);
    PurgeView(InstallRoute(n.table, m, sender, now, c), now, c.deletePeriod);
  }

  lemma RecvReplyView(n: Node, m: RrepHeader, ttl: U8, sender: Addr, now: int, c: Config)
    requires WellFormed(n.table) && c.Sane() && now >= 0
    requires m.dst != m.origin && m.dst != UNSET && m.origin != UNSET
    ensures var r := RecvReply(n, m, ttl, sender, now, c);
            && r == n.(table := r.table, sent := r.sent, timers := r.timers, queue := r.queue, forwarded := r.forwarded)
            && (m.origin != n.me ==> r == n.(table := r.table, sent := r.sent))
            && Settled(r.table, now) && ViewOf(r.table, now) == RepliedView(n, ViewOf(n.table, now), m, sender)
            && Forwarded(n, r, ViewOf(r.table, now), m, ttl, sender)
  {
    hide FinishSearch, RelayReply, TakeReply;
    TakeReplyView(n, m, sender, now, c);
    var n1 := TakeReply(n, m, sender, now, c);
    if m.origin == n.me {
      PurgeView(n.table, now, c.deletePeriod);
      var t := Purge(n.table, now, c.deletePeriod);
      SettledView(t, now);
      FinishSearchView(n1, m, m.dst in t && t[m.dst].flag == IN_SEARCH, sender, now, c);
      assert n.sent + Ack(m, sender) + [] == n.sent + Ack(m, sender);
    } else {
      RelayReplyView(n1, m.(hopCount := Bump8(m.hopCount)).SetAckRequired(false), ttl, now, c);
    }
  }

  lemma FinishSearchView(n: Node, m: RrepHeader, searching: bool, sender: Addr, now: int, c: Config)
    requires Settled(n.table, now) && c.Sane() && m.dst in n.table && m.dst != UNSET
    ensures var r := FinishSearch(n, m, searching, sender, now, c);
            && r == n.(table := r.table, timers := r.timers, queue := r.queue, forwarded := r.forwarded)
            && Settled(r.table, now)
            && ViewOf(r.table, now) == if searching then ViewOf(n.table, now)[m.dst := OfferedRoute(m, sender)]
                                       else ViewOf(n.table, now)
  {
    var offered := Offered(m, sender, now);
    UpdateView(n.table, offered, now);
    var n1 := if searching then n.(table := Update(n.table, offered), timers := n.timers - {m.dst}) else n;
    PurgeView(n1.table, now, c.deletePeriod);
    var t := Purge(n1.table, now, c.deletePeriod);
    SendPacketsCore(n1.(table := t), m.dst, Lookup(t, m.dst).GetOr(DefaultEntry(now)), now);
  }

  lemma RelayReplyView(n: Node, m: RrepHeader, ttl: U8, now: int, c: Config)
    requires Settled(n.table, now) && c.Sane() && now >= 0 && m.origin != UNSET
    ensures var r := RelayReply(n, m, ttl, now, c); var v := ViewOf(n.table, now);
            && r == n.(table := r.table, sent := r.sent)
            && Settled(r.table, now) && ViewOf(r.table, now) == v
            && r.sent == n.sent + (if m.origin in v && v[m.origin].flag != IN_SEARCH && ttl >= 2
                                   then [Packet(Rrep(m), ttl - 1, To(v[m.origin].nextHop))] else [])
  {
    hide NotePrecursors;
    PurgeView(n.table, now, c.deletePeriod);
    SettledView(n.table, now);
    var t := n.table;
    if m.origin in t && t[m.origin].flag != IN_SEARCH {
      var e := t[m.origin];
      var toOrigin := e.(expire := now + Max(c.activeRouteTimeout, e.LifeTime(now)));
      SameRouteUpdate(t, toOrigin, now);
      SameAt(t, Update(t, toOrigin), m.origin, now);
      NotePrecursorsView(Update(t, toOrigin), m.dst, toOrigin, now, c);
    } else {
      assert n.sent + [] == n.sent;
    }
  }

  lemma RecvErrorView(n: Node, m: RerrHeader, src: Addr, now: int, c: Config)
    requires WellFormed(n.table) && c.Sane()
    ensures var r := RecvError(n, m, src, now, c);
            && SameCore(n, r) && Settled(r.table, now) && OnlyErrors(n.sent, r.sent)
            && Fades(ViewOf(n.table, now), ViewOf(r.table, now))
  {
    hide Purge, InvalidateRoutesWithDst, RerrMessage, Precursors, Kept, Fades, ViewOf, OnlyErrors, Affected;
    var t := Purge(n.table, now, c.deletePeriod);
    var lost := Affected(t, m, src);
    InvalidateKept(n.table, lost.Keys, now, c.deletePeriod);
    RerrIsError(n.sent, t, m.(dests := lost), Precursors(t, lost.Keys));
  }

  lemma RecvReplyAckView(n: Node, neighbor: Addr, now: int, c: Config)
    requires WellFormed(n.table) && c.Sane()
    ensures var r := RecvReplyAck(n, neighbor, now, c); var v := ViewOf(n.table, now);
            && r == n.(table := r.table) && WellFormed(r.table) && (forall k :: k in r.table ==> !Gone(r.table[k], now))
            && ViewOf(r.table, now).Keys == v.Keys
            && (forall k :: k in v && k != neighbor ==> ViewOf(r.table, now)[k] == v[k])
            && (neighbor in v ==>
                  ViewOf(r.table, now)[neighbor] == v[neighbor].(flag := ViewOf(r.table, now)[neighbor].flag)
                  && ViewOf(r.table, now)[neighbor].flag != IN_SEARCH)
  {
    var t := Purge(n.table, now, c.deletePeriod);
    PurgeView(n.table, now, c.deletePeriod);
    SettledView(t, now);
    if neighbor in t {
      UpdateView(t, t[neighbor].(flag := VALID), now);
    }
  }

  function HelloView(v: View, m: RrepHeader): View {
    Put(v, m.dst, Route(true, m.dstSeqNo, 1, m.dst, true, VALID))
  }

  /** What a HELLO leaves in the table. */
  function HelloTable(t: Table, m: RrepHeader, now: int, c: Config): Table {
    if m.dst !in t
    then AddRoute(t, NewEntry(m.dst, true, m.dstSeqNo, 1, m.dst, m.LifeTime(), true, now), now, c.deletePeriod)
    else Update(t, t[m.dst].(expire := now + Max(c.helloLifetime, t[m.dst].LifeTime(now)),
                             seqNo := m.dstSeqNo, validSeqNo := true, flag := VALID, bound := true,
                             hops := 1, nextHop := m.dst))
  }

  lemma HelloTableView(t: Table, m: RrepHeader, now: int, c: Config)
    requires Settled(t, now) && c.Sane()
    ensures Settled(HelloTable(t, m, now, c), now)
    ensures ViewOf(HelloTable(t, m, now, c), now) == HelloView(ViewOf(t, now), m)
  {
    if m.dst in t {
      UpdateView(t, t[m.dst].(expire := now + Max(c.helloLifetime, t[m.dst].LifeTime(now)), seqNo := m.dstSeqNo,
                              validSeqNo := true, flag := VALID, bound := true, hops := 1, nextHop := m.dst), now);
    } else {
      AddView(t, NewEntry(m.dst, true, m.dstSeqNo, 1, m.dst, m.LifeTime(), true, now), now, c.deletePeriod);
    }
  }

  lemma ProcessHelloView(n: Node, m: RrepHeader, now: int, c: Config)
    requires WellFormed(n.table) && c.Sane()
    ensures var r := ProcessHello(n, m, now, c);
            && SameCore(n, r) && WellFormed(r.table) && OnlyErrors(n.sent, r.sent)
            && (forall k :: k in r.table ==> !Gone(r.table[k], now))
            && Fades(HelloView(ViewOf(n.table, now), m), ViewOf(r.table, now))
  {
    hide NbUpdate, Purge, AddRoute, Update, ViewOf;
    var t := Purge(n.table, now, c.deletePeriod);
    PurgeView(n.table, now, c.deletePeriod);
    HelloTableView(t, m, now, c);
    NbUpdateView(n.(table := HelloTable(t, m, now, c)), m.dst, c.helloLifetime, now, c);
  }

  // ------------------------------------------------------------------------------- searches

  /** The route of a destination that is being searched for: everything but hops and flag stays. */
  function SearchedView(v: View, dst: Addr, c: Config, hops: U16): View {
    Put(v, dst, if dst in v then v[dst].(hops := hops, flag := IN_SEARCH)
                else Route(false, 0, hops, UNSET, false, IN_SEARCH))
  }

  lemma SearchTableView(t: Table, dst: Addr, now: int, c: Config)
    requires WellFormed(t) && c.Sane()
    ensures Settled(SearchTable(t, dst, now, c), now)
    ensures exists hops: U16 :: ViewOf(SearchTable(t, dst, now, c), now) == SearchedView(ViewOf(t, now), dst, c, hops)
  {
    hide NextTtl;
    PurgeView(t, now, c.deletePeriod);
    var p := Purge(t, now, c.deletePeriod);
    SettledView(p, now);
    if dst in p {
      UpdateView(p, Searching(p[dst], now, c), now);
      assert ViewOf(SearchTable(t, dst, now, c), now)
             == SearchedView(ViewOf(t, now), dst, c, Searching(p[dst], now, c).hops);
    } else {
      AddView(p, FreshSearch(dst, now, c), now, c.deletePeriod);
      assert ViewOf(SearchTable(t, dst, now, c), now) == SearchedView(ViewOf(t, now), dst, c, c.ttlStart);
    }
  }

  /** The RREQ a search sends. */
  ghost predicate OwnRequest(n: Node, r: Node, p: Packet) {
    && p.msg.Rreq? && p.target == Broadcast && p.msg.rreq.origin == n.me && p.msg.rreq.hopCount == 0
    && p.msg.rreq.requestID == Next(n.requestId) == r.requestId && p.msg.rreq.originSeqNo == Next(n.seqNo)
  }

  lemma SendRequestView(n: Node, dst: Addr, now: int, c: Config)
    requires WellFormed(n.table) && c.Sane()
    ensures var r := SendRequest(n, dst, now, c);
            if n.rreqCount == c.rreqRateLimit then r == n.(pending := r.pending)
            else
              && r == n.(rreqCount := r.rreqCount, table := r.table, seqNo := Next(n.seqNo), requestId := r.requestId,
                         idCache := r.idCache, sent := r.sent, timers := r.timers, aborted := r.aborted)
              && r.idCache == C.Remember(n.idCache, n.me, r.requestId, now, c.pathDiscoveryTime)
              && (exists p :: OwnRequest(n, r, p) && p.msg.rreq.dst == dst && r.sent == n.sent + [p])
              && Settled(r.table, now)
              && exists hops: U16 :: ViewOf(r.table, now) == SearchedView(ViewOf(n.table, now), dst, c, hops)
  {
    hide SearchTable, SearchedView, NextTtl;
    if n.rreqCount != c.rreqRateLimit {
      SearchTableView(n.table, dst, now, c);
      var e := EmitRequest(n, dst, now, c);
      PurgeView(e.table, now, c.deletePeriod);
      var p := e.sent[|n.sent|];
      assert e.sent == n.sent + [p] && OwnRequest(n, e, p);
    }
  }

  lemma UpdateRouteLifeTimeView(t: Table, addr: Addr, now: int, c: Config)
    requires WellFormed(t) && c.Sane()
    ensures var r := UpdateRouteLifeTime(t, addr, c.activeRouteTimeout, now, c);
            Settled(r, now) && ViewOf(r, now) == ViewOf(t, now)
  {
    hide Purge, ViewOf;
    PurgeView(t, now, c.deletePeriod);
    var p := Purge(t, now, c.deletePeriod);
    if addr in p && p[addr].flag == VALID {
      SameRouteUpdate(p, p[addr].(reqCount := 0, expire := now + Max(c.activeRouteTimeout, p[addr].LifeTime(now))),
                      now);
    }
  }

  lemma GiveUpView(n: Node, dst: Addr, now: int, c: Config)
    requires WellFormed(n.table) && c.Sane()
    ensures var r := GiveUp(n, dst, now, c);
            && r == n.(table := r.table, timers := r.timers, queue := r.queue) && Settled(r.table, now)
            && ViewOf(r.table, now) == ViewOf(n.table, now) - {dst}
  {
    PurgeView(n.table, now, c.deletePeriod);
  }

  lemma HandleReceive(n: Node, ev: Event, now: int, c: Config)
    requires ev.Receive?
    ensures Handle(n, ev, now, c) == RecvAodv(n, ev.packet, ev.sender, now, c)
  {
    hide RecvAodv;
  }

  lemma HelloReply(n: Node, m: RrepHeader, ttl: U8, sender: Addr, now: int, c: Config)
    requires m.dst == m.origin
    ensures RecvReply(n, m, ttl, sender, now, c) == ProcessHello(n, m, now, c)
  {
  }
}
