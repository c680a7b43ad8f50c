/** What requests do, exactly: when a node answers one from its table, passes it on or is silent, what it says,
    what a request leaves in the table, and what a search sends and remembers. */
module RequestEffects {
  import opened Basics
  import opened SequenceNumbers
  import opened Headers
  import opened RouteEntries
  import opened Nodes
  import opened RouteViews
  import HandlerEffects
  import C = IdCaches

  // ------------------------------------------------------------------------------- answers from the table

  /** A RREP that tells the far end of `towards` about the route `about`: its hops, number and remaining lifetime,
      sent along the other route with that route's hops as its TTL. */
  function ReplyAbout(about: Entry, towards: Entry, ack: bool, now: int): Packet {
    Packet(Rrep(RrepHeader(if ack then 0x40 else 0, 0, about.hops % 0x100, about.dst, about.seqNo, towards.dst,
                           Millis(about.expire - now))),
           towards.hops % 0x100, To(towards.nextHop))
  }

  /** The originator is told about the destination, with an acknowledgement asked for exactly when the
      destination is a neighbour; and the destination about the originator exactly when that was asked for. */
  lemma TableAnswer(n: Node, toDst: Entry, toOrigin: Entry, gratuitous: bool, now: int, c: Config)
    ensures var r := SendReplyByIntermediateNode(n, toDst, toOrigin, gratuitous, now, c);
            && r == n.(table := r.table, sent := r.sent)
            && r.sent == n.sent + [ReplyAbout(toDst, toOrigin, toDst.hops == 1, now)]
                         + (if gratuitous then [ReplyAbout(toOrigin, toDst, false, now)] else [])
  {
    hide Update, Millis;
    assert WithBit(0, ACK_REQUIRED, true) == 0x40 && WithBit(0, ACK_REQUIRED, false) == 0;
  }

  /** What each of the two insertions adds to the precursors of `k`. If both routes were one, the entry written
      last would have the second addition only. */
  function Newcomers(toDst: Entry, toOrigin: Entry, k: Addr): set<Addr> {
    if k == toOrigin.dst then {toDst.nextHop} else if k == toDst.dst then {toOrigin.nextHop} else {}
  }

  lemma InsertedAt(t: Table, e: Entry, id: Addr, k: Addr)
    requires WellFormed(t) && e.dst in t && t[e.dst].(precursors := e.precursors) == e && k in t
    ensures var r := Update(t, e.InsertPrecursor(id));
            && r.Keys == t.Keys && r[k] == (if k == e.dst then e else t[k]).(precursors := r[k].precursors)
            && Elements(r[k].precursors)
               == (if k == e.dst then Elements(e.precursors) + {id} else Elements(t[k].precursors))
            && WellFormed(r)
  {
    hide Elements;
    HandlerEffects.InsertElement(e, id);
  }

  /** Each of the two next hops becomes a precursor of the other route, and nothing else changes. */
  lemma TableAnswerNoted(n: Node, toDst: Entry, toOrigin: Entry, gratuitous: bool, now: int, c: Config, k: Addr)
    requires WellFormed(n.table) && toDst.dst in n.table && n.table[toDst.dst] == toDst
    requires toOrigin.dst in n.table && n.table[toOrigin.dst] == toOrigin && k in n.table
    ensures var t, r := n.table, SendReplyByIntermediateNode(n, toDst, toOrigin, gratuitous, now, c).table;
            && r.Keys == t.Keys && r[k] == t[k].(precursors := r[k].precursors)
            && Elements(r[k].precursors) == Elements(t[k].precursors) + Newcomers(toDst, toOrigin, k)
  {
    hide Elements, Update, WellFormed;
    TableAnswerTable(n, toDst, toOrigin, gratuitous, now, c);
    var t := n.table;
    var u := Update(t, toDst.InsertPrecursor(toOrigin.nextHop));
    InsertedAt(t, toDst, toOrigin.nextHop, k);
    InsertedAt(t, toDst, toOrigin.nextHop, toOrigin.dst);
    InsertedAt(u, toOrigin, toDst.nextHop, k);
    assert Elements(t[k].precursors) + {} == Elements(t[k].precursors);
  }

  lemma TableAnswerTable(n: Node, toDst: Entry, toOrigin: Entry, gratuitous: bool, now: int, c: Config)
    ensures SendReplyByIntermediateNode(n, toDst, toOrigin, gratuitous, now, c).table
         == Update(Update(n.table, toDst.InsertPrecursor(toOrigin.nextHop)), toOrigin.InsertPrecursor(toDst.nextHop))
  {
    hide Update, NewRrep, WithBit;
  }

  /** The route of the purged table `p` leads back to where the RREQ came from. */
  predicate LeadsBack(p: Table, m: RreqHeader, src: Addr) {
    m.dst in p && p[m.dst].nextHop == src
  }

  /** The number in the table is known, and no older than the one that the RREQ asks for. */
  predicate UpToDate(p: Table, m: RreqHeader) {
    m.dst in p && p[m.dst].validSeqNo && (m.UnknownSeqno() || SeqDiff(p[m.dst].seqNo, m.dstSeqNo) >= 0)
  }

  /** The table has an answer that may be given. */
  predicate MayAnswer(p: Table, m: RreqHeader, src: Addr) {
    UpToDate(p, m) && !LeadsBack(p, m, src) && p[m.dst].flag == VALID && !m.DestinationOnly()
  }

  /** The RREQ as it goes on: it asks for the number in the table where that is known and no older. */
  function GoesOn(p: Table, m: RreqHeader): RreqHeader {
    if UpToDate(p, m) then m.(dstSeqNo := p[m.dst].seqNo, flags := m.flags & 0xF7) else m
  }

  lemma AnswerGiven(n: Node, m: RreqHeader, ttl: U8, src: Addr, now: int, c: Config)
    requires m.dst != n.me && MayAnswer(Purge(n.table, now, c.deletePeriod), m, src)
    ensures var p := Purge(n.table, now, c.deletePeriod);
            AnswerOrRelay(n, m, ttl, src, now, c)
            == SendReplyByIntermediateNode(n.(table := p), p[m.dst], Lookup(p, m.origin).GetOr(DefaultEntry(now)),
                                           m.GratuitousRrep(), now, c)
  {
    hide Purge, SeqDiff, SendReplyByIntermediateNode, Bit, DefaultEntry, Relay, SendReply;
  }

  lemma NoAnswerGiven(n: Node, m: RreqHeader, ttl: U8, src: Addr, now: int, c: Config)
    requires m.dst != n.me && !MayAnswer(Purge(n.table, now, c.deletePeriod), m, src)
    ensures var p := Purge(n.table, now, c.deletePeriod);
            AnswerOrRelay(n, m, ttl, src, now, c)
            == if LeadsBack(p, m, src) then n.(table := p) else Relay(n.(table := p), GoesOn(p, m), ttl)
  {
    hide Purge, SeqDiff, SendReplyByIntermediateNode, Bit, WithBit, DefaultEntry, SendReply, Relay;
    var p := Purge(n.table, now, c.deletePeriod);
    if UpToDate(p, m) {
      Cleared(m, p);
    }
  }

  lemma Cleared(m: RreqHeader, p: Table)
    requires UpToDate(p, m)
    ensures GoesOn(p, m) == m.(dstSeqNo := p[m.dst].seqNo).SetUnknownSeqno(false)
  {
    hide SeqDiff;
    FlagsSet(m.(dstSeqNo := p[m.dst].seqNo), RrepHeader(0, 0, 0, 0, 0, 0, 0), false);
  }

  lemma Relayed(n: Node, m: RreqHeader, ttl: U8)
    ensures Relay(n, m, ttl) == n.(sent := n.sent + if ttl < 2 then [] else [Packet(Rreq(m), ttl - 1, Broadcast)])
  {
    assert n.sent + [] == n.sent;
  }

  /** The answer or the silence of a node that is not the destination, exactly: a RREP goes out if and only if
      the table has an answer that may be given, and then it is the one from the table. Otherwise a route that
      leads back keeps the node silent, and so does a TTL below two; in all other cases the RREQ goes on. */
  lemma AnswersIff(n: Node, m: RreqHeader, ttl: U8, src: Addr, now: int, c: Config)
    requires m.dst != n.me
    ensures var p, r := Purge(n.table, now, c.deletePeriod), AnswerOrRelay(n, m, ttl, src, now, c);
            && (NewReply(n, r) <==> MayAnswer(p, m, src))
            && (r.sent == n.sent <==> !MayAnswer(p, m, src) && (LeadsBack(p, m, src) || ttl < 2))
            && (MayAnswer(p, m, src) && m.origin in p ==>
                  r.sent == n.sent + [ReplyAbout(p[m.dst], p[m.origin], p[m.dst].hops == 1, now)]
                            + (if m.GratuitousRrep() then [ReplyAbout(p[m.origin], p[m.dst], false, now)] else []))
            && (!MayAnswer(p, m, src) ==>
                  r == n.(table := p, sent := r.sent)
                  && (r.sent == n.sent || r.sent == n.sent + [Packet(Rreq(GoesOn(p, m)), ttl - 1, Broadcast)]))
  {
    hide Purge, SeqDiff, SendReplyByIntermediateNode, AnswerOrRelay, Bit, DefaultEntry, GoesOn, Relay;
    var p := Purge(n.table, now, c.deletePeriod);
    if MayAnswer(p, m, src) {
      AnswerGiven(n, m, ttl, src, now, c);
      TableAnswer(n.(table := p), p[m.dst], Lookup(p, m.origin).GetOr(DefaultEntry(now)), m.GratuitousRrep(), now, c);
    } else {
      NoAnswerGiven(n, m, ttl, src, now, c);
      Relayed(n.(table := p), GoesOn(p, m), ttl);
      assert n.sent + [] == n.sent;
    }
  }

  /** The first packet that `r` has sent and `n` had not is a RREP. */
  predicate NewReply(n: Node, r: Node) {
    |r.sent| > |n.sent| && r.sent[|n.sent|].msg.Rrep?
  }

  /** The same over the routes that are visible at `now`, for a route to the destination. */
  lemma AnswersFromView(n: Node, m: RreqHeader, ttl: U8, src: Addr, now: int, c: Config)
    requires WellFormed(n.table) && c.Sane() && m.dst != n.me && m.dst != UNSET
    ensures var v := ViewOf(n.table, now);
            NewReply(n, AnswerOrRelay(n, m, ttl, src, now, c))
            <==> && m.dst in v && v[m.dst].nextHop != src && v[m.dst].flag == VALID && v[m.dst].validSeqNo
                 && !m.DestinationOnly() && (m.UnknownSeqno() || SeqDiff(v[m.dst].seqNo, m.dstSeqNo) >= 0)
  {
    hide Purge, SeqDiff, AnswerOrRelay, ViewOf, Bit;
    AnswersIff(n, m, ttl, src, now, c);
    PurgeView(n.table, now, c.deletePeriod);
    SettledView(Purge(n.table, now, c.deletePeriod), now);
  }

  /** The destination answers itself, from the route to the originator. */
  lemma DestinationAnswersItself(n: Node, m: RreqHeader, ttl: U8, src: Addr, now: int, c: Config)
    requires m.dst == n.me
    ensures var p := Purge(n.table, now, c.deletePeriod);
            AnswerOrRelay(n, m, ttl, src, now, c)
            == SendReply(n.(table := p), m, Lookup(p, m.origin).GetOr(DefaultEntry(now)), c)
  {
    hide Purge, SendReply;
  }

  // ------------------------------------------------------------------------------- what a RREQ leaves behind

  /** The route to the originator, exactly: the node that the RREQ came from is the next hop and the hop count is
      that of the RREQ; a known number that is no older stays; the deadline moves to the least one that section
      6.5 asks for, never back; flag, precursors and count stay as they were. */
  lemma ReverseEntry(t: Table, m: RreqHeader, src: Addr, now: int, c: Config)
    requires WellFormed(t) && c.Sane()
    ensures var p, r := Purge(t, now, c.deletePeriod), ReverseRoute(t, m, src, now, c);
            var least := now + 2 * c.netTraversalTime - 2 * m.hopCount * c.nodeTraversalTime;
            && r.Keys == p.Keys + {m.origin} && (forall k :: k in p && k != m.origin ==> r[k] == p[k])
            && (m.origin !in p ==>
                  r[m.origin] == Entry(m.origin, true, m.originSeqNo, m.hopCount, least, src, true, VALID, [], 0,
                                       false, now))
            && (m.origin in p ==>
                  var e := p[m.origin];
                  r[m.origin] == e.(validSeqNo := true, hops := m.hopCount, nextHop := src, bound := true,
                                    seqNo := if e.validSeqNo && SeqDiff(m.originSeqNo, e.seqNo) <= 0 then e.seqNo
                                             else m.originSeqNo,
                                    expire := Max(least, e.expire)))
  {
    hide SeqDiff, ReverseRoute, Purge;
    PurgeView(t, now, c.deletePeriod);
    PurgedOnce(t, now, c.deletePeriod);
    ReverseRouteIs(t, m, src, now, c);
  }

  /** The route to the node that the RREQ came from, exactly: one hop, VALID for the route timeout from now on,
      under the originator's number, which does not count. */
  lemma NeighborEntry(t: Table, originSeqNo: U32, src: Addr, now: int, c: Config)
    requires WellFormed(t) && c.Sane()
    ensures var p, r := Purge(t, now, c.deletePeriod), NeighborRoute(t, originSeqNo, src, now, c);
            && r.Keys == p.Keys + {src} && (forall k :: k in p && k != src ==> r[k] == p[k])
            && (src !in p ==>
                  r[src] == Entry(src, false, originSeqNo, 1, now + c.activeRouteTimeout, src, true, VALID, [], 0,
                                  false, now))
            && (src in p ==>
                  r[src] == p[src].(validSeqNo := false, seqNo := originSeqNo, hops := 1, nextHop := src,
                                    expire := now + c.activeRouteTimeout, bound := true, flag := VALID, reqCount := 0))
  {
    PurgedOnce(t, now, c.deletePeriod);
  }

  /** A RREQ from a blacklisted node is dropped, and so is one seen before, which changes the cache no further; any
      other is remembered for the path discovery time, leaves the two routes and a neighbour, and goes on with
      one hop more. */
  lemma RequestHandled(n: Node, m: RreqHeader, ttl: U8, src: Addr, now: int, c: Config)
    ensures var p, r := Purge(n.table, now, c.deletePeriod), RecvRequest(n, m, ttl, src, now, c);
            var m' := m.(hopCount := (m.hopCount + 1) % 0x100);
            if src in p && p[src].blacklisted then r == n.(table := p)
            else if C.Duplicate(n.idCache, m.origin, m.requestID, now)
            then r == n.(table := p, idCache := C.Purge(n.idCache, now))
            else
              var routes := NeighborRoute(ReverseRoute(p, m', src, now, c), m.originSeqNo, src, now, c);
              var cache := C.Remember(n.idCache, m.origin, m.requestID, now, c.pathDiscoveryTime);
              r == AnswerOrRelay(NbUpdate(n.(table := routes, idCache := cache), src, c.helloLifetime, now, c), m', ttl,
                                 src, now, c)
  {
    hide Purge, NeighborRoute, ReverseRoute, NbUpdate, AnswerOrRelay, C.Duplicate, C.Remember, C.Purge;
  }

  // ------------------------------------------------------------------------------- searches

  /** The next ring, in 16 bits: it starts at TtlStart, grows by TtlIncrement, and is the whole network once it
      is past the threshold; from a route that is no search it never exceeds the diameter. */
  function RingAfter(p: Table, dst: Addr, c: Config): (ttl: U16)
    ensures dst !in p ==> ttl == c.ttlStart
  {
    if dst !in p then c.ttlStart
    else
      var next: U16 := (p[dst].hops + c.ttlIncrement) % 0x1_0000;
      var whole: U16 := c.netDiameter % 0x1_0000;
      if p[dst].flag == IN_SEARCH then (if next <= c.ttlThreshold then next else whole)
      else if next <= whole then next else whole
  }

  /** The flags of a request: G and D as configured, U unless the table knows a number of the destination. */
  function RequestFlags(p: Table, dst: Addr, c: Config): bv8 {
    (if c.gratuitousReply then 0x20 else 0) | (if c.destinationOnly then 0x10 else 0)
    | (if dst in p && p[dst].validSeqNo then 0 else 0x08)
  }

  /** The RREQ that a search for `dst` sends, with `p` the purged table. */
  function Asking(n: Node, p: Table, dst: Addr, c: Config): Packet {
    Packet(Rreq(RreqHeader(RequestFlags(p, dst, c), 0, 0, Next(n.requestId), dst,
                           if dst in p && p[dst].validSeqNo then p[dst].seqNo else 0, n.me, Next(n.seqNo))),
           RingAfter(p, dst, c) % 0x100, Broadcast)
  }

  /** The entry that a search for `dst` leaves: what was known stays; the ring, the flag and the deadline are
      those of the search, and a request at the diameter is counted. */
  function Sought(p: Table, dst: Addr, now: int, c: Config): Entry {
    var ttl := RingAfter(p, dst, c);
    if dst in p
    then p[dst].(hops := ttl, flag := IN_SEARCH, expire := now + c.pathDiscoveryTime,
                 reqCount := if ttl == c.netDiameter then (p[dst].reqCount + 1) % 0x100 else p[dst].reqCount)
    else Entry(dst, false, 0, ttl, now + c.pathDiscoveryTime, UNSET, false, IN_SEARCH, [],
               if ttl == c.netDiameter then 1 else 0, false, now)
  }

  lemma RequestFlagsIs(n: Node, t: Table, dst: Addr, c: Config)
    ensures RequestHeader(n, t, dst, c)
         == RreqHeader(RequestFlags(t, dst, c), 0, 0, Next(n.requestId), dst,
                       if dst in t && t[dst].validSeqNo then t[dst].seqNo else 0, n.me, Next(n.seqNo))
  {
    hide Bit;
    assert WithBit(0, UNKNOWN_SEQNO, true) == 0x08 && WithBit(0, UNKNOWN_SEQNO, false) == 0;
    ThreeFlags(dst in t && t[dst].validSeqNo, c.gratuitousReply, c.destinationOnly);
  }

  lemma ThreeFlags(known: bool, g: bool, d: bool)
    ensures WithBit(WithBit(WithBit(0, UNKNOWN_SEQNO, !known), GRATUITOUS, g), DESTINATION_ONLY, d)
         == (if g then 0x20 else 0) | (if d then 0x10 else 0) | (if known then 0 else 0x08)
  {
  }

  /** The table after a request: the entry sought, and nothing else but the purge. */
  lemma SoughtTable(t: Table, dst: Addr, now: int, c: Config)
    requires WellFormed(t) && c.Sane()
    ensures var p := Purge(t, now, c.deletePeriod);
            SearchTable(t, dst, now, c) == p[dst := Sought(p, dst, now, c)]
            && Purge(SearchTable(t, dst, now, c), now, c.deletePeriod) == SearchTable(t, dst, now, c)
  {
    hide Purge;
    var p := Purge(t, now, c.deletePeriod);
    PurgeView(t, now, c.deletePeriod);
    PurgedOnce(t, now, c.deletePeriod);
    var r := SearchTable(t, dst, now, c);
    assert r == p[dst := Sought(p, dst, now, c)];
    assert Settled(r, now);
    PurgeView(r, now, c.deletePeriod);
  }

  /** A request, whole. At the rate limit it is put off and nothing else happens. Otherwise exactly one RREQ goes
      out under fresh numbers and is remembered, the entry sought is all that changes in the table, and the
      timer of the destination starts: it waits longer with each ring below the diameter, twice as long with
      each request at the diameter, and an entry at the diameter with nothing counted aborts the program. */
  lemma RequestSent(n: Node, dst: Addr, now: int, c: Config)
    requires WellFormed(n.table) && c.Sane()
    ensures var p, r := Purge(n.table, now, c.deletePeriod), SendRequest(n, dst, now, c);
            var e := Sought(p, dst, now, c);
            if n.rreqCount == c.rreqRateLimit then r == n.(pending := n.pending + multiset{dst})
            else
              && r == n.(rreqCount := (n.rreqCount + 1) % 0x1_0000, table := p[dst := e], seqNo := Next(n.seqNo),
                         requestId := Next(n.requestId), sent := n.sent + [Asking(n, p, dst, c)],
                         idCache := C.Remember(n.idCache, n.me, Next(n.requestId), now, c.pathDiscoveryTime),
                         timers := r.timers, aborted := r.aborted)
              && (e.hops < c.netDiameter ==>
                    r.timers == n.timers[dst := now + 2 * c.nodeTraversalTime * (e.hops + c.timeoutBuffer)])
              && (e.hops >= c.netDiameter && e.reqCount > 0 ==>
                    r.timers == n.timers[dst := now + c.netTraversalTime * Pow2(e.reqCount - 1)])
              && (e.hops >= c.netDiameter && e.reqCount == 0 ==> r.timers == n.timers - {dst})
              && (r.aborted <==> n.aborted || (e.hops >= c.netDiameter && e.reqCount == 0))
  {
    hide Purge, SearchTable, RequestHeader, NextTtl, RingAfter, RequestFlags, Pow2, C.Remember, ScheduleRreqRetry,
      Sought;
    if n.rreqCount != c.rreqRateLimit {
      var p := Purge(n.table, now, c.deletePeriod);
      SoughtTable(n.table, dst, now, c);
      RequestFlagsIs(n, p, dst, c);
      RingIs(p, dst, c);
      TimerStarts(EmitRequest(n, dst, now, c), dst, now, c);
      assert p[dst := Sought(p, dst, now, c)][dst] == Sought(p, dst, now, c);
    }
  }

  lemma RingIs(p: Table, dst: Addr, c: Config)
    ensures RingAfter(p, dst, c) == if dst in p then NextTtl(p[dst], c) else c.ttlStart
  {
  }

  lemma TimerStarts(n: Node, dst: Addr, now: int, c: Config)
    requires Purge(n.table, now, c.deletePeriod) == n.table && dst in n.table
    ensures var r, e := ScheduleRreqRetry(n, dst, now, c), n.table[dst];
            && r == n.(timers := r.timers, aborted := r.aborted)
            && (e.hops < c.netDiameter ==>
                  r.timers == n.timers[dst := now + 2 * c.nodeTraversalTime * (e.hops + c.timeoutBuffer)])
            && (e.hops >= c.netDiameter && e.reqCount > 0 ==>
                  r.timers == n.timers[dst := now + c.netTraversalTime * Pow2(e.reqCount - 1)])
            && (e.hops >= c.netDiameter && e.reqCount == 0 ==> r.timers == n.timers - {dst})
            && (r.aborted <==> n.aborted || (e.hops >= c.netDiameter && e.reqCount == 0))
  {
    hide Purge, Pow2;
  }
}
