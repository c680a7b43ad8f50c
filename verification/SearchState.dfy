/** The search state of one node, across table, timers, deferred requests and packet queue: nobody waits
    for a search that is not going on, and a search never reaches the state that aborts the program. */
module SearchStates {
  import opened Basics
  import opened Headers
  import opened SequenceNumbers
  import opened RouteEntries
  import opened Nodes
  import opened RouteViews
  import opened NodeViews
  import Networks
  import Q = PacketQueues
  import C = IdCaches

  // ------------------------------------------------------------------------------- tables

  /** No search has begun or changed its count, and no route without a device has appeared. */
  ghost predicate Calmer(t: Table, r: Table) {
    forall k :: k in r ==>
      if r[k].flag == IN_SEARCH then k in t && t[k].flag == IN_SEARCH && r[k].reqCount == t[k].reqCount
      else k == UNSET || r[k].bound || (k in t && t[k].flag != IN_SEARCH && !t[k].bound)
  }

  lemma CalmerTransitive(t: Table, u: Table, r: Table)
    requires Calmer(t, u) && Calmer(u, r)
    ensures Calmer(t, r)
  {
  }

  lemma PurgeCalmer(t: Table, now: int, bad: int)
    ensures Calmer(t, Purge(t, now, bad))
  {
  }

  /** Storing an entry that is bound, or is as much of a search or route as the one it replaces. */
  lemma UpdateCalmer(t: Table, e: Entry)
    requires (e.dst == UNSET && e.flag != IN_SEARCH)
             || (e.flag != IN_SEARCH && e.bound)
             || (e.dst in t && e.flag == t[e.dst].flag && e.bound == t[e.dst].bound
                 && (e.flag == IN_SEARCH ==> e.reqCount == t[e.dst].reqCount))
             || (e.dst in t && e.flag == t[e.dst].flag && e.bound
                 && (e.flag == IN_SEARCH ==> e.reqCount == t[e.dst].reqCount))
    ensures Calmer(t, Update(t, e))
  {
  }

  lemma AddCalmer(t: Table, e: Entry, now: int, bad: int)
    requires e.flag != IN_SEARCH && e.bound
    ensures Calmer(t, AddRoute(t, e, now, bad))
  {
    PurgeCalmer(t, now, bad);
  }

  lemma InvalidateCalmer(t: Table, dsts: set<Addr>, now: int, bad: int)
    ensures Calmer(t, InvalidateRoutesWithDst(t, dsts, now, bad))
  {
  }

  lemma RefreshCalmer(t: Table, sender: Addr, now: int, c: Config)
    ensures Calmer(t, UpdateRouteToNeighbor(t, sender, now, c))
    ensures var r := UpdateRouteToNeighbor(t, sender, now, c); sender in r && r[sender].bound
  {
    var p := Purge(t, now, c.deletePeriod);
    PurgeCalmer(t, now, c.deletePeriod);
    if sender !in p {
      var e := NewEntry(sender, false, 0, 1, sender, c.activeRouteTimeout, true, now);
      AddCalmer(p, e, now, c.deletePeriod);
    } else {
      var e := NewEntry(sender, false, 0, 1, sender, Max(c.activeRouteTimeout, p[sender].LifeTime(now)), true, now);
      UpdateCalmer(p, e);
    }
  }

  lemma LifeTimeCalmer(t: Table, addr: Addr, now: int, c: Config)
    requires WellFormed(t)
    ensures Calmer(t, UpdateRouteLifeTime(t, addr, c.activeRouteTimeout, now, c))
  {
    PurgeCalmer(t, now, c.deletePeriod);
  }

  lemma ReverseCalmer(t: Table, m: RreqHeader, src: Addr, now: int, c: Config)
    requires WellFormed(t)
    ensures Calmer(t, ReverseRoute(t, m, src, now, c))
  {
    hide Purge, ReverseRoute, Update, AddRoute, SeqDiff, Calmer;
    var p := Purge(t, now, c.deletePeriod);
    PurgeCalmer(t, now, c.deletePeriod);
    PurgeWellFormed(t, now, c.deletePeriod);
    ReverseRouteIs(t, m, src, now, c);
    if m.origin in p {
      UpdateCalmer(p, ReversedEntry(p[m.origin], m, src, now, c));
    } else {
      AddCalmer(p, NewEntry(m.origin, true, m.originSeqNo, m.hopCount, src,
                            2 * c.netTraversalTime - 2 * m.hopCount * c.nodeTraversalTime, true, now), now,
                                c.deletePeriod);
    }
    CalmerTransitive(t, p, ReverseRoute(t, m, src, now, c));
  }

  lemma NeighborCalmer(t: Table, originSeqNo: U32, src: Addr, now: int, c: Config)
    requires WellFormed(t)
    ensures Calmer(t, NeighborRoute(t, originSeqNo, src, now, c))
  {
    hide Purge, Calmer, Update, AddRoute;
    var p := Purge(t, now, c.deletePeriod);
    PurgeCalmer(t, now, c.deletePeriod);
    PurgeWellFormed(t, now, c.deletePeriod);
    if src !in p {
      var e := NewEntry(src, false, originSeqNo, 1, src, c.activeRouteTimeout, true, now);
      AddCalmer(p, e, now, c.deletePeriod);
      CalmerTransitive(t, p, AddRoute(p, e, now, c.deletePeriod));
    } else {
      var e := p[src].(expire := now + c.activeRouteTimeout, validSeqNo := false, seqNo := originSeqNo,
                       flag := VALID, bound := true, hops := 1, nextHop := src);
      UpdateCalmer(p, e);
      CalmerTransitive(t, p, Update(p, e));
    }
  }

  lemma InstallCalmer(t: Table, m: RrepHeader, sender: Addr, now: int, c: Config)
    ensures Calmer(t, InstallRoute(t, m, sender, now, c))
  {
    hide Purge, Calmer, Update, AddRoute, Accepts;
    var p, offered := Purge(t, now, c.deletePeriod), Offered(m, sender, now);
    PurgeCalmer(t, now, c.deletePeriod);
    AddCalmer(p, offered, now, c.deletePeriod);
    UpdateCalmer(p, offered);
    if m.dst !in p {
      CalmerTransitive(t, p, AddRoute(p, offered, now, c.deletePeriod));
    } else if Accepts(p[m.dst], m.dstSeqNo, Bump8(m.hopCount)) {
      CalmerTransitive(t, p, Update(p, offered));
    }
  }

  /** One more precursor for the entry of `k`, if there is one. */
  lemma PrecursorCalmer(t: Table, u: Table, k: Addr, id: Addr, now: int, bad: int)
    requires Calmer(t, u) && WellFormed(u)
    ensures var r := Update(u, Lookup(u, k).GetOr(DefaultEntry(now)).InsertPrecursor(id));
            && Calmer(t, r) && WellFormed(r) && Calmer(t, Purge(r, now, bad)) && WellFormed(Purge(r, now, bad))
  {
    hide Purge, Calmer;
    var e := Lookup(u, k).GetOr(DefaultEntry(now)).InsertPrecursor(id);
    var r := Update(u, e);
    LookedUpCalmer(u, k, id, now);
    PurgeCalmer(r, now, bad);
    PurgeWellFormed(r, now, bad);
    CalmerTransitive(t, u, r);
    CalmerTransitive(t, r, Purge(r, now, bad));
  }

  lemma LookedUpCalmer(u: Table, k: Addr, id: Addr, now: int)
    requires WellFormed(u)
    ensures var r := Update(u, Lookup(u, k).GetOr(DefaultEntry(now)).InsertPrecursor(id));
            Calmer(u, r) && WellFormed(r)
  {
    UpdateCalmer(u, Lookup(u, k).GetOr(DefaultEntry(now)).InsertPrecursor(id));
  }

  /** A route as `t` has it, put back into a later table. */
  lemma RestoreCalmer(t: Table, u: Table, e: Entry, id: Addr, now: int, bad: int)
    requires Calmer(t, u) && WellFormed(u)
    requires e.dst in t && t[e.dst].flag == e.flag && t[e.dst].bound == e.bound
             && (e.flag == IN_SEARCH ==> t[e.dst].reqCount == e.reqCount)
    ensures var r := Update(u, e.InsertPrecursor(id));
            && Calmer(t, r) && WellFormed(r) && Calmer(t, Purge(r, now, bad)) && WellFormed(Purge(r, now, bad))
  {
    var r := Update(u, e.InsertPrecursor(id));
    PurgeCalmer(r, now, bad);
    CalmerTransitive(t, r, Purge(r, now, bad));
  }

  lemma NotePrecursorsCalmer(t: Table, dst: Addr, toOrigin: Entry, now: int, c: Config)
    requires WellFormed(t) && toOrigin.dst in t && toOrigin.flag == t[toOrigin.dst].flag && toOrigin.flag != IN_SEARCH
    requires toOrigin.bound == t[toOrigin.dst].bound
    ensures Calmer(t, NotePrecursors(t, dst, toOrigin, now, c)) && WellFormed(NotePrecursors(t, dst, toOrigin, now, c))
  {
    hide Update, Calmer;
    var bad := c.deletePeriod;
    var p := Purge(t, now, bad);
    PurgeCalmer(t, now, bad);
    if dst in p && p[dst].flag == VALID {
      var via := p[dst].nextHop;
      PrecursorCalmer(t, p, dst, toOrigin.nextHop, now, bad);
      var t1 := Purge(Update(p, p[dst].InsertPrecursor(toOrigin.nextHop)), now, bad);
      PrecursorCalmer(t, t1, via, toOrigin.nextHop, now, bad);
      var t2 := Update(t1, Lookup(t1, via).GetOr(DefaultEntry(now)).InsertPrecursor(toOrigin.nextHop));
      RestoreCalmer(t, t2, toOrigin, via, now, bad);
      var t3 := Purge(Update(t2, toOrigin.InsertPrecursor(via)), now, bad);
      PrecursorCalmer(t, t3, toOrigin.nextHop, via, now, bad);
    }
  }

  // ------------------------------------------------------------------------------- the queue

  /** The packets for `dst` that have not expired, in queue order. */
  function Due(w: seq<Q.QueueEntry>, dst: Addr, now: int): seq<Q.QueueEntry> {
    Filter(Filter(w, Q.Fresh(now)), Q.IsFor(dst))
  }

  /** The first packet tied to another interface, or the length when there is none. */
  function FirstMismatch(w: seq<Q.QueueEntry>, device: int): (k: nat)
    ensures k <= |w| && (k < |w| ==> Mismatch(w[k], device))
    ensures forall i :: 0 <= i < k ==> !Mismatch(w[i], device)
  {
    if w == [] || Mismatch(w[0], device) then 0 else 1 + FirstMismatch(w[1..], device)
  }

  lemma TakenOut(w: seq<Q.QueueEntry>, i: nat, dst: Addr, d: Addr)
    requires i == Q.FirstFor(w, dst) < |w|
    ensures d == dst ==> Filter(w, Q.IsFor(d)) == [w[i]] + Filter(w[..i] + w[i + 1..], Q.IsFor(d))
    ensures d != dst ==> Filter(w, Q.IsFor(d)) == Filter(w[..i] + w[i + 1..], Q.IsFor(d))
  {
    FilterAround(w, i, Q.IsFor(d));
    if d == dst {
      FilterNone(w[..i], Q.IsFor(d));
      assert Filter(w[..i], Q.IsFor(d)) == [];
      assert Filter([w[i]], Q.IsFor(d)) == [w[i]];
    } else {
      assert Filter([w[i]], Q.IsFor(d)) == [];
    }
  }

  lemma NoneDue(w: seq<Q.QueueEntry>, dst: Addr)
    ensures Q.FirstFor(w, dst) == |w| <==> Filter(w, Q.IsFor(dst)) == []
  {
    InFilter(w, Q.IsFor(dst));
    if Q.FirstFor(w, dst) == |w| {
      FilterNone(w, Q.IsFor(dst));
    } else {
      assert w[Q.FirstFor(w, dst)] in Filter(w, Q.IsFor(dst));
    }
  }

  lemma RemainsIn<T>(p: seq<T>, i: nat)
    requires i < |p|
    ensures forall e :: e in p[..i] + p[i + 1..] ==> e in p
  {
  }

  lemma NothingStale(w: seq<Q.QueueEntry>, now: int)
    requires forall e :: e in w ==> e.expire >= now
    ensures Filter(w, Q.Fresh(now)) == w && Filter(w, Q.Stale(now)) == []
  {
    FilterAll(w, Q.Fresh(now));
    FilterNone(w, Q.Stale(now));
  }

  lemma FreshOnes(w: seq<Q.QueueEntry>, now: int)
    ensures forall e :: e in Filter(w, Q.Fresh(now)) ==> e in w && e.expire >= now
  {
    InFilter(w, Q.Fresh(now));
  }

  lemma StillFresh(w: seq<Q.QueueEntry>, i: nat, now: int)
    requires i < |Filter(w, Q.Fresh(now))|
    ensures var p := Filter(w, Q.Fresh(now)); forall e :: e in p[..i] + p[i + 1..] ==> e in w && e.expire >= now
  {
    hide Filter;
    FreshOnes(w, now);
    RemainsIn(Filter(w, Q.Fresh(now)), i);
  }

  /** The queue after its first packet for `dst` has been taken out of the unexpired ones. */
  lemma OneTaken(w: seq<Q.QueueEntry>, i: nat, dst: Addr, now: int)
    requires var p := Filter(w, Q.Fresh(now)); i == Q.FirstFor(p, dst) < |p|
    ensures var p := Filter(w, Q.Fresh(now)); var q := p[..i] + p[i + 1..];
            && Due(w, dst, now) == [p[i]] + Due(q, dst, now)
            && (forall d :: d != dst ==> Due(q, d, now) == Due(w, d, now))
            && Filter(q, Q.Stale(now)) == []
            && (forall e :: e in q ==> e in w)
  {
    var p := Filter(w, Q.Fresh(now));
    var q := p[..i] + p[i + 1..];
    StillFresh(w, i, now);
    NothingStale(q, now);
    forall d
      ensures Filter(p, Q.IsFor(d)) == (if d == dst then [p[i]] else []) + Filter(q, Q.IsFor(d))
    {
      TakenOut(p, i, dst, d);
    }
  }

  /** SendPacketFromQueue, exactly: the packets due for `dst` are forwarded in order up to the first one
      tied to another interface; that one is lost, and the rest of them go on waiting. */
  lemma {:induction false} SendsExactly(n: Node, dst: Addr, route: Entry, now: int)
    ensures var r := SendPacketFromQueue(n, dst, route, now);
            var w := Due(n.queue.waiting, dst, now);
            var k := FirstMismatch(w, DeviceOf(n, route));
            && r.forwarded == n.forwarded + w[..k]
            && Filter(r.queue.waiting, Q.IsFor(dst)) == (if k < |w| then w[k + 1..] else [])
    decreases |n.queue.waiting|
  {
    hide Filter, Due, FirstMismatch;
    var p := Q.Purge(n.queue, now);
    var i := Q.FirstFor(p.waiting, dst);
    var w, device := Due(n.queue.waiting, dst, now), DeviceOf(n, route);
    DueIs(n.queue.waiting, dst, now);
    NoneDue(p.waiting, dst);
    if i < |p.waiting| {
      var e, q := p.waiting[i], Q.Take(p, i);
      OneTaken(n.queue.waiting, i, dst, now);
      assert w[0] == e && w[1..] == Due(q.waiting, dst, now);
      MismatchStep(w, device);
      if !Mismatch(e, device) {
        SendsExactly(n.(queue := q, forwarded := n.forwarded + [e]), dst, route, now);
        SentPrefix(n.forwarded, w, FirstMismatch(w[1..], device));
      } else {
        StillFresh(n.queue.waiting, i, now);
        NothingStale(q.waiting, now);
        DueIs(q.waiting, dst, now);
      }
    } else {
      assert FirstMismatch(w, device) == 0;
    }
  }

  lemma MismatchStep(w: seq<Q.QueueEntry>, device: int)
    requires w != []
    ensures FirstMismatch(w, device) == if Mismatch(w[0], device) then 0 else 1 + FirstMismatch(w[1..], device)
  {
  }

  lemma DueIs(w: seq<Q.QueueEntry>, d: Addr, now: int)
    ensures Due(w, d, now) == Filter(Filter(w, Q.Fresh(now)), Q.IsFor(d))
  {
  }

  /** Packets for other destinations stay, and only expired packets are reported to their error callbacks. */
  lemma {:induction false} SendsNothingElse(n: Node, dst: Addr, route: Entry, now: int, d: Addr)
    ensures var r := SendPacketFromQueue(n, dst, route, now);
            && (d != dst ==> Filter(r.queue.waiting, Q.IsFor(d)) == Due(n.queue.waiting, d, now))
            && r.queue.dropped == n.queue.dropped + Filter(n.queue.waiting, Q.Stale(now))
            && (forall e :: e in r.queue.waiting ==> e in n.queue.waiting && e.expire >= now)
    decreases |n.queue.waiting|
  {
    hide Filter, Due;
    var p := Q.Purge(n.queue, now);
    var i := Q.FirstFor(p.waiting, dst);
    DueIs(n.queue.waiting, d, now);
    FreshOnes(n.queue.waiting, now);
    if i < |p.waiting| {
      var e, q := p.waiting[i], Q.Take(p, i);
      OneTaken(n.queue.waiting, i, dst, now);
      StillFresh(n.queue.waiting, i, now);
      NothingStale(q.waiting, now);
      DueIs(q.waiting, d, now);
      if !Mismatch(e, DeviceOf(n, route)) {
        SendsNothingElse(n.(queue := q, forwarded := n.forwarded + [e]), dst, route, now, d);
        assert p.dropped + [] == p.dropped;
      }
    }
  }

  lemma SentPrefix(f: seq<Q.QueueEntry>, w: seq<Q.QueueEntry>, k: nat)
    requires w != [] && k <= |w[1..]|
    ensures (f + [w[0]]) + w[1..][..k] == f + w[..k + 1]
  {
  }

  /** The queue is empty of `dst` afterwards exactly when no packet for it but the last is tied to another
      interface: a mismatch ends the loop, so the packets behind it are left without a search. */
  lemma DrainsIff(n: Node, dst: Addr, route: Entry, now: int)
    ensures var w := Due(n.queue.waiting, dst, now);
            Filter(SendPacketFromQueue(n, dst, route, now).queue.waiting, Q.IsFor(dst)) == []
            <==> (forall i :: 0 <= i < |w| - 1 ==> !Mismatch(w[i], DeviceOf(n, route)))
  {
    SendsExactly(n, dst, route, now);
  }

  // ------------------------------------------------------------------------------- events that leave searches alone

  /** The event neither began nor ended a search, nor touched the queue, the timers or the deferred calls. */
  ghost predicate Still(n: Node, r: Node) {
    && r.queue == n.queue && r.timers == n.timers && r.pending == n.pending && r.aborted == n.aborted
    && r.iface == n.iface && r.me == n.me && Calmer(n.table, r.table) && WellFormed(r.table)
  }

  lemma StillTransitive(n: Node, m: Node, r: Node)
    requires Still(n, m) && Still(m, r)
    ensures Still(n, r)
  {
    CalmerTransitive(n.table, m.table, r.table);
  }

  lemma LinkBreakStill(n: Node, nextHop: Addr, now: int, c: Config)
    requires WellFormed(n.table) && c.Sane()
    ensures Still(n, LinkBreak(n, nextHop, now, c))
  {
    hide Calmer;
    LinkBreakView(n, nextHop, now, c);
    var t := Purge(n.table, now, c.deletePeriod);
    PurgeCalmer(n.table, now, c.deletePeriod);
    if nextHop in t {
      var lost := Through(t, nextHop)[nextHop := t[nextHop].seqNo];
      InvalidateCalmer(t, lost.Keys, now, c.deletePeriod);
      CalmerTransitive(n.table, t, InvalidateRoutesWithDst(t, lost.Keys, now, c.deletePeriod));
    }
  }

  lemma {:induction false} BreakLinksStill(n: Node, nb: seq<Neighbor>, now: int, c: Config)
    requires WellFormed(n.table) && c.Sane()
    ensures Still(n, BreakLinks(n, nb, now, c))
    decreases |nb|
  {
    hide LinkBreak;
    if nb != [] {
      if Closing(nb[0], now) {
        LinkBreakStill(n, nb[0].addr, now, c);
        var n1 := LinkBreak(n, nb[0].addr, now, c);
        BreakLinksStill(n1, nb[1..], now, c);
        StillTransitive(n, n1, BreakLinks(n1, nb[1..], now, c));
      } else {
        BreakLinksStill(n, nb[1..], now, c);
      }
    }
  }

  lemma NbPurgeStill(n: Node, now: int, c: Config)
    requires WellFormed(n.table) && c.Sane()
    ensures Still(n, NbPurge(n, now, c))
  {
    hide BreakLinks;
    BreakLinksStill(n, n.nb, now, c);
  }

  lemma NbUpdateStill(n: Node, addr: Addr, lifetime: int, now: int, c: Config)
    requires WellFormed(n.table) && c.Sane()
    ensures Still(n, NbUpdate(n, addr, lifetime, now, c))
  {
    hide NbPurge;
    NbPurgeStill(n.(nb := n.nb + [Neighbor(addr, now + lifetime, false)]), now, c);
  }

  lemma AcceptStill(n: Node, m: RreqHeader, src: Addr, now: int, c: Config)
    requires WellFormed(n.table) && c.Sane()
    ensures Still(n, AcceptRequest(n, m, src, now, c))
  {
    hide NbUpdate, ReverseRoute, NeighborRoute, Calmer;
    var t := Purge(n.table, now, c.deletePeriod);
    PurgeCalmer(n.table, now, c.deletePeriod);
    PurgeView(n.table, now, c.deletePeriod);
    var m1 := m.(hopCount := Bump8(m.hopCount));
    ReverseCalmer(t, m1, src, now, c);
    ReverseRouteView(t, m1, src, now, c);
    var t1 := ReverseRoute(t, m1, src, now, c);
    NeighborCalmer(t1, m.originSeqNo, src, now, c);
    NeighborRouteView(t1, m.originSeqNo, src, now, c);
    var t2 := NeighborRoute(t1, m.originSeqNo, src, now, c);
    CalmerTransitive(n.table, t, t1);
    CalmerTransitive(n.table, t1, t2);
    var n2 := n.(table := t2, idCache := C.Remember(n.idCache, m.origin, m.requestID, now, c.pathDiscoveryTime));
    NbUpdateStill(n2, src, c.helloLifetime, now, c);
    CalmerTransitive(n.table, t2, AcceptRequest(n, m, src, now, c).table);
  }

  lemma IntermediateStill(n: Node, toDst: Entry, toOrigin: Entry, gratuitous: bool, now: int, c: Config)
    requires WellFormed(n.table)
    requires toDst.dst in n.table && n.table[toDst.dst] == toDst
    requires toOrigin.dst in n.table && n.table[toOrigin.dst] == toOrigin
    ensures Still(n, SendReplyByIntermediateNode(n, toDst, toOrigin, gratuitous, now, c))
  {
    hide Update, Calmer;
    assert Calmer(n.table, n.table) by { CalmerReflexive(n.table); }
    RestoreCalmer(n.table, n.table, toDst, toOrigin.nextHop, now, c.deletePeriod);
    RestoreCalmer(n.table, Update(n.table, toDst.InsertPrecursor(toOrigin.nextHop)), toOrigin, toDst.nextHop, now,
                  c.deletePeriod);
  }

  lemma CalmerReflexive(t: Table)
    ensures Calmer(t, t)
  {
  }

  lemma AnswerStill(n: Node, m: RreqHeader, ttl: U8, src: Addr, now: int, c: Config)
    requires WellFormed(n.table) && m.origin in Purge(n.table, now, c.deletePeriod)
    ensures Still(n, AnswerOrRelay(n, m, ttl, src, now, c))
  {
    hide SendReplyByIntermediateNode, Calmer, WithBit, Bit, SeqDiff;
    var t := Purge(n.table, now, c.deletePeriod);
    PurgeCalmer(n.table, now, c.deletePeriod);
    var n1 := n.(table := t);
    var r := AnswerOrRelay(n, m, ttl, src, now, c);
    if m.dst in t {
      IntermediateStill(n1, t[m.dst], t[m.origin], m.GratuitousRrep(), now, c);
      CalmerTransitive(n.table, t, SendReplyByIntermediateNode(n1, t[m.dst], t[m.origin], m.GratuitousRrep(), now,
                                                               c).table);
    }
  }

  lemma RequestStill(n: Node, m: RreqHeader, ttl: U8, src: Addr, now: int, c: Config)
    requires WellFormed(n.table) && c.Sane() && m.origin != UNSET
    ensures Still(n, RecvRequest(n, m, ttl, src, now, c))
  {
    hide AcceptRequest, AnswerOrRelay, Calmer;
    PurgeCalmer(n.table, now, c.deletePeriod);
    PurgeView(n.table, now, c.deletePeriod);
    AcceptStill(n, m, src, now, c);
    AcceptRequestView(n, m, src, now, c);
    var a := AcceptRequest(n, m, src, now, c);
    assert m.origin in RequestedView(ViewOf(n.table, now), m, src, c);
    PurgeView(a.table, now, c.deletePeriod);
    var m1 := m.(hopCount := Bump8(m.hopCount));
    AnswerStill(a, m1, ttl, src, now, c);
    StillTransitive(n, a, AnswerOrRelay(a, m1, ttl, src, now, c));
  }

  lemma TakeReplyStill(n: Node, m: RrepHeader, sender: Addr, now: int, c: Config)
    requires WellFormed(n.table) && c.Sane()
    ensures Still(n, TakeReply(n, m, sender, now, c))
  {
    hide InstallRoute, Calmer;
    InstallCalmer(n.table, m, sender, now, c);
    InstallRouteView(n.table, m, sender, now, c);
    var t := InstallRoute(n.table, m, sender, now, c);
    PurgeCalmer(t, now, c.deletePeriod);
    PurgeView(t, now, c.deletePeriod);
    CalmerTransitive(n.table, t, Purge(t, now, c.deletePeriod));
  }

  lemma RelayReplyStill(n: Node, m: RrepHeader, ttl: U8, now: int, c: Config)
    requires WellFormed(n.table) && c.Sane()
    ensures Still(n, RelayReply(n, m, ttl, now, c))
  {
    hide NotePrecursors, Calmer, Purge;
    var t := Purge(n.table, now, c.deletePeriod);
    PurgeCalmer(n.table, now, c.deletePeriod);
    PurgeView(n.table, now, c.deletePeriod);
    if m.origin in t && t[m.origin].flag != IN_SEARCH {
      var e := t[m.origin];
      var toOrigin := e.(expire := now + Max(c.activeRouteTimeout, e.LifeTime(now)));
      UpdateCalmer(t, toOrigin);
      CalmerTransitive(n.table, t, Update(t, toOrigin));
      NotePrecursorsCalmer(Update(t, toOrigin), m.dst, toOrigin, now, c);
      CalmerTransitive(n.table, Update(t, toOrigin), NotePrecursors(Update(t, toOrigin), m.dst, toOrigin, now, c));
    }
  }

  lemma ErrorStill(n: Node, m: RerrHeader, src: Addr, now: int, c: Config)
    requires WellFormed(n.table) && c.Sane()
    ensures Still(n, RecvError(n, m, src, now, c))
  {
    hide Calmer;
    var t := Purge(n.table, now, c.deletePeriod);
    var lost := Affected(t, m, src);
    PurgeCalmer(n.table, now, c.deletePeriod);
    InvalidateCalmer(t, lost.Keys, now, c.deletePeriod);
    CalmerTransitive(n.table, t, InvalidateRoutesWithDst(t, lost.Keys, now, c.deletePeriod));
    RecvErrorView(n, m, src, now, c);
  }

  lemma PurgeKeepsBound(t: Table, k: Addr, now: int, bad: int)
    requires k in Purge(t, now, bad)
    ensures Purge(t, now, bad)[k].bound == t[k].bound
  {
  }

  lemma AckStill(n: Node, neighbor: Addr, now: int, c: Config)
    requires WellFormed(n.table) && c.Sane() && neighbor in n.table && n.table[neighbor].bound
    ensures Still(n, RecvReplyAck(n, neighbor, now, c))
  {
    hide Purge, Calmer;
    var t := Purge(n.table, now, c.deletePeriod);
    RecvReplyAckView(n, neighbor, now, c);
    PurgeCalmer(n.table, now, c.deletePeriod);
    PurgeView(n.table, now, c.deletePeriod);
    if neighbor in t {
      PurgeKeepsBound(n.table, neighbor, now, c.deletePeriod);
      UpdateCalmer(t, t[neighbor].(flag := VALID));
      CalmerTransitive(n.table, t, Update(t, t[neighbor].(flag := VALID)));
    }
  }

  lemma HelloTableCalmer(t: Table, m: RrepHeader, now: int, c: Config)
    requires WellFormed(t)
    ensures Calmer(t, NodeViews.HelloTable(t, m, now, c)) && WellFormed(NodeViews.HelloTable(t, m, now, c))
  {
    hide Purge, Calmer;
    PurgeWellFormed(t, now, c.deletePeriod);
    if m.dst !in t {
      AddCalmer(t, NewEntry(m.dst, true, m.dstSeqNo, 1, m.dst, m.LifeTime(), true, now), now, c.deletePeriod);
    } else {
      UpdateCalmer(t, t[m.dst].(expire := now + Max(c.helloLifetime, t[m.dst].LifeTime(now)),
                                seqNo := m.dstSeqNo, validSeqNo := true, flag := VALID, bound := true,
                                hops := 1, nextHop := m.dst));
    }
  }

  lemma HelloStill(n: Node, m: RrepHeader, now: int, c: Config)
    requires WellFormed(n.table) && c.Sane()
    ensures Still(n, ProcessHello(n, m, now, c))
  {
    hide NbUpdate, Purge, Calmer, Update, AddRoute, WellFormed;
    var t := Purge(n.table, now, c.deletePeriod);
    var t' := NodeViews.HelloTable(t, m, now, c);
    PurgeCalmer(n.table, now, c.deletePeriod);
    PurgeWellFormed(n.table, now, c.deletePeriod);
    HelloTableCalmer(t, m, now, c);
    CalmerTransitive(n.table, t, t');
    NbUpdateStill(n.(table := t'), m.dst, c.helloLifetime, now, c);
    CalmerTransitive(n.table, t', ProcessHello(n, m, now, c).table);
  }

  /** A RREP that ends at this node. */
  predicate ForMe(n: Node, ev: Event) {
    ev.Receive? && ev.packet.msg.Rrep? && ev.packet.msg.rrep.origin == n.me && ev.packet.msg.rrep.dst != n.me
  }

  lemma ReceiveStill(n: Node, p: Packet, sender: Addr, now: int, c: Config)
    requires WellFormed(n.table) && c.Sane() && !ForMe(n, Receive(p, sender))
    requires p.msg.Rreq? ==> p.msg.rreq.origin != UNSET
    ensures Still(n, RecvAodv(n, p, sender, now, c))
  {
    hide RecvRequest, RecvError, RecvReplyAck, ProcessHello, TakeReply, RelayReply, UpdateRouteToNeighbor, Calmer;
    RefreshCalmer(n.table, sender, now, c);
    UpdateRouteToNeighborView(n.table, sender, now, c);
    var n1 := n.(table := UpdateRouteToNeighbor(n.table, sender, now, c));
    assert Still(n, n1);
    StillTransitiveAll(n, n1, RecvAodv(n, p, sender, now, c));
    match p.msg
    case Rreq(m) => RequestStill(n1, m, p.ttl, sender, now, c);
    case Rrep(m) =>
      if m.dst == m.origin {
        HelloStill(n1, m, now, c);
      } else {
        TakeReplyStill(n1, m, sender, now, c);
        var n2 := TakeReply(n1, m, sender, now, c);
        RelayReplyStill(n2, m.(hopCount := Bump8(m.hopCount)).SetAckRequired(false), p.ttl, now, c);
        StillTransitiveAll(n1, n2, RecvReply(n1, m, p.ttl, sender, now, c));
      }
    case Rerr(m) => ErrorStill(n1, m, sender, now, c);
    case RrepAck => AckStill(n1, sender, now, c);
  }

  lemma StillTransitiveAll(n: Node, m: Node, r: Node)
    requires Still(n, m)
    ensures Still(m, r) ==> Still(n, r)
  {
    if Still(m, r) {
      StillTransitive(n, m, r);
    }
  }

  // ------------------------------------------------------------------------------- nobody is stranded

  ghost predicate Waiting(n: Node, d: Addr) {
    exists e :: e in n.queue.waiting && e.dst == d
  }

  ghost predicate Seeking(n: Node, d: Addr) {
    d in n.table && n.table[d].flag == IN_SEARCH
  }

  /** Somebody will look after `d`: a timer runs, or a request is put off. */
  predicate Cared(n: Node, d: Addr) {
    d in n.timers || d in n.pending
  }

  /** A route that is not a search has a device, and packets are tied to the node's only device or to none. */
  ghost predicate OneDevice(n: Node) {
    && (forall k :: k in n.table && k != UNSET && n.table[k].flag != IN_SEARCH ==> n.table[k].bound)
    && (forall e :: e in n.queue.waiting ==> e.oif == -1 || e.oif == n.iface)
  }

  /** Every search and every waiting packet, except those for `but`, has a timer or a deferred request. */
  ghost predicate Tended(n: Node, but: Option<Addr>) {
    n.aborted || forall d: Addr :: d != UNSET && but != Some(d) && (Waiting(n, d) || Seeking(n, d)) ==> Cared(n, d)
  }

  ghost predicate SearchInv(n: Node) {
    WellFormed(n.table) && OneDevice(n) && Tended(n, None)
  }

  lemma StillTended(n: Node, r: Node, but: Option<Addr>)
    requires Still(n, r) && OneDevice(n) && Tended(n, but)
    ensures OneDevice(r) && Tended(r, but)
  {
    forall d: Addr | !r.aborted && d != UNSET && but != Some(d) && (Waiting(r, d) || Seeking(r, d))
      ensures Cared(r, d)
    {
      assert Waiting(n, d) || Seeking(n, d);
    }
  }

  lemma SearchTableCalmer(t: Table, dst: Addr, now: int, c: Config)
    requires WellFormed(t)
    ensures var u := SearchTable(t, dst, now, c);
            dst in u && u[dst].flag == IN_SEARCH && WellFormed(u) && Calmer(t, u - {dst})
  {
    hide Searching, Purge, Calmer, FreshSearch;
    var bad := c.deletePeriod;
    var p := Purge(t, now, bad);
    PurgeCalmer(t, now, bad);
    PurgeWellFormed(t, now, bad);
    if dst !in p {
      FreshEntry(dst, now, c);
      PurgeCalmer(p, now, bad);
      PurgeWellFormed(p, now, bad);
      CalmerTransitive(t, p, Purge(p, now, bad));
      assert SearchTable(t, dst, now, c) - {dst} == Purge(p, now, bad);
    } else {
      SearchingEntry(p[dst], now, c);
      assert SearchTable(t, dst, now, c) - {dst} == p - {dst};
      SubCalmer(t, p, dst);
    }
  }

  lemma PurgeWellFormed(t: Table, now: int, bad: int)
    requires WellFormed(t)
    ensures WellFormed(Purge(t, now, bad)) && Purge(t, now, bad).Keys <= t.Keys
  {
  }

  lemma FreshEntry(dst: Addr, now: int, c: Config)
    ensures FreshSearch(dst, now, c).flag == IN_SEARCH && FreshSearch(dst, now, c).dst == dst
  {
  }

  lemma SearchingEntry(e: Entry, now: int, c: Config)
    ensures Searching(e, now, c).flag == IN_SEARCH && Searching(e, now, c).dst == e.dst
  {
    hide NextTtl;
  }

  lemma SubCalmer(t: Table, p: Table, dst: Addr)
    requires Calmer(t, p)
    ensures Calmer(t, p - {dst})
  {
  }

  /** What SendRequest leaves alone. */
  lemma SearchCalmer(t: Table, dst: Addr, now: int, c: Config)
    requires WellFormed(t)
    ensures var r := Purge(SearchTable(t, dst, now, c), now, c.deletePeriod);
            dst in r && r[dst].flag == IN_SEARCH && WellFormed(r) && Calmer(t, r - {dst})
  {
    hide SearchTable;
    SearchTableCalmer(t, dst, now, c);
    var u := SearchTable(t, dst, now, c);
    PurgeCalmer(u - {dst}, now, c.deletePeriod);
    var r := Purge(u, now, c.deletePeriod);
    assert r - {dst} == Purge(u - {dst}, now, c.deletePeriod);
    CalmerTransitive(t, u - {dst}, r - {dst});
  }

  /** A request puts its destination under care, or aborts the program. */
  lemma SendRequestTends(n: Node, dst: Addr, now: int, c: Config)
    requires WellFormed(n.table) && c.Sane() && OneDevice(n) && Tended(n, Some(dst))
    ensures SearchInv(SendRequest(n, dst, now, c))
    ensures var r := SendRequest(n, dst, now, c); r.aborted || Cared(r, dst)
  {
    hide SearchTable, NextTtl, Calmer;
    SearchCalmer(n.table, dst, now, c);
    var r := SendRequest(n, dst, now, c);
    if n.rreqCount == c.rreqRateLimit {
      assert forall d: Addr :: Waiting(r, d) == Waiting(n, d);
    } else {
      assert r.table == Purge(SearchTable(n.table, dst, now, c), now, c.deletePeriod);
      SentTended(n, r, dst);
    }
  }

  lemma SentTended(n: Node, r: Node, dst: Addr)
    requires OneDevice(n) && Tended(n, Some(dst)) && r.queue == n.queue && r.pending == n.pending && r.iface == n.iface
    requires n.timers.Keys - {dst} <= r.timers.Keys && (r.aborted || dst in r.timers) && (n.aborted ==> r.aborted)
    requires dst in r.table && r.table[dst].flag == IN_SEARCH && Calmer(n.table, r.table - {dst})
    ensures OneDevice(r) && Tended(r, None)
  {
    assert forall k :: k in r.table && k != dst ==> k in r.table - {dst} && (r.table - {dst})[k] == r.table[k];
    forall d: Addr | !r.aborted && d != UNSET && (Waiting(r, d) || Seeking(r, d))
      ensures Cared(r, d)
    {
      if d != dst {
        assert Waiting(n, d) || Seeking(n, d);
      }
    }
  }

  /** The same node with a purged table. */
  lemma PurgedTended(n: Node, r: Node, now: int, bad: int, but: Option<Addr>)
    requires WellFormed(n.table) && OneDevice(n) && Tended(n, but)
    requires r == n.(table := Purge(n.table, now, bad))
    ensures WellFormed(r.table) && OneDevice(r) && Tended(r, but)
  {
    PurgeCalmer(n.table, now, bad);
    StillTended(n, r, but);
  }

  // ------------------------------------------------------------------------------- data packets

  lemma EnqueuedFrom(q: Q.Queue, e: Q.QueueEntry, now: int, maxLen: nat, timeout: int)
    ensures var r := Q.Enqueue(q, e, now, maxLen, timeout);
            && (forall x :: x in r.waiting ==> x in q.waiting || x == e.(expire := now + timeout))
            && (!Q.Accepts(q, e, now) ==> forall x :: x in r.waiting ==> x in q.waiting)
  {
    InFilter(q.waiting, Q.Fresh(now));
  }

  lemma OutputTends(n: Node, e: Q.QueueEntry, now: int, c: Config)
    requires SearchInv(n) && c.Sane() && (e.oif == -1 || e.oif == n.iface)
    ensures SearchInv(DeferredRouteOutput(n, e, now, c))
    ensures var r := DeferredRouteOutput(n, e, now, c);
            Q.Accepts(n.queue, e, now) && e.dst != UNSET ==> r.aborted || Cared(r, e.dst)
  {
    hide SendRequest, Q.Enqueue, Q.Accepts;
    var q := Q.Enqueue(n.queue, e, now, c.maxQueueLen, c.maxQueueTime);
    EnqueuedFrom(n.queue, e, now, c.maxQueueLen, c.maxQueueTime);
    var n1 := n.(queue := q);
    EnqueuedTended(n, n1, e.dst);
    var n2 := n1.(table := Purge(n.table, now, c.deletePeriod));
    PurgedTended(n1, n2, now, c.deletePeriod, Some(e.dst));
    if Q.Accepts(n.queue, e, now) {
      if e.dst in n2.table && n2.table[e.dst].flag == IN_SEARCH {
        assert e.dst != UNSET ==> Seeking(n, e.dst);
      } else {
        SendRequestTends(n2, e.dst, now, c);
      }
    }
  }

  lemma EnqueuedTended(n: Node, r: Node, dst: Addr)
    requires SearchInv(n) && r == n.(queue := r.queue)
    requires forall x :: x in r.queue.waiting ==>
               x in n.queue.waiting || (x.dst == dst && (x.oif == -1 || x.oif == n.iface))
    ensures OneDevice(r) && Tended(r, Some(dst))
    ensures (forall x :: x in r.queue.waiting ==> x in n.queue.waiting) ==> Tended(r, None)
  {
    forall d: Addr | !r.aborted && d != UNSET && (Waiting(r, d) || Seeking(r, d))
           && (d != dst || Waiting(n, d) || Seeking(n, d))
      ensures Cared(r, d)
    {
      assert Waiting(n, d) || Seeking(n, d);
    }
  }

  /** Sending the packets out through a bound route empties the queue of them. */
  lemma SendsAll(n: Node, dst: Addr, route: Entry, now: int)
    requires OneDevice(n) && route.bound
    ensures var r := SendPacketFromQueue(n, dst, route, now);
            && r == n.(queue := r.queue, forwarded := r.forwarded)
            && r.forwarded == n.forwarded + Due(n.queue.waiting, dst, now)
            && !Waiting(r, dst) && (forall e :: e in r.queue.waiting ==> e in n.queue.waiting)
  {
    SendPacketsCore(n, dst, route, now);
    SendsExactly(n, dst, route, now);
    SendsNothingElse(n, dst, route, now, dst);
    var w := Due(n.queue.waiting, dst, now);
    InFilter(n.queue.waiting, Q.Fresh(now));
    InFilter(Filter(n.queue.waiting, Q.Fresh(now)), Q.IsFor(dst));
    assert forall i :: 0 <= i < |w| ==> w[i] in w;
    assert w[..|w|] == w;
    InFilter(SendPacketFromQueue(n, dst, route, now).queue.waiting, Q.IsFor(dst));
  }

  /** After the packets for `dst` are gone, `dst` needs no care, unless it is being searched for. */
  lemma SentAllTended(n: Node, r: Node, dst: Addr)
    requires OneDevice(n) && Tended(n, Some(dst)) && r == n.(queue := r.queue, forwarded := r.forwarded)
    requires !Waiting(r, dst) && !Seeking(n, dst) && (forall e :: e in r.queue.waiting ==> e in n.queue.waiting)
    ensures OneDevice(r) && Tended(r, None)
  {
    forall d: Addr | !r.aborted && d != UNSET && (Waiting(r, d) || Seeking(r, d))
      ensures Cared(r, d)
    {
      assert Waiting(n, d) || Seeking(n, d);
    }
  }

  lemma GiveUpTends(n: Node, dst: Addr, now: int, c: Config)
    requires WellFormed(n.table) && OneDevice(n) && Tended(n, Some(dst))
    ensures SearchInv(GiveUp(n, dst, now, c))
    ensures var r := GiveUp(n, dst, now, c); !Waiting(r, dst) && !Seeking(r, dst) && dst !in r.timers
  {
    var r := GiveUp(n, dst, now, c);
    PurgeCalmer(n.table, now, c.deletePeriod);
    InFilter(n.queue.waiting, Q.Fresh(now));
    InFilter(Filter(n.queue.waiting, Q.Fresh(now)), Q.NotFor(dst));
    forall d: Addr | !r.aborted && d != UNSET && (Waiting(r, d) || Seeking(r, d))
      ensures Cared(r, d)
    {
      assert d != dst && (Waiting(n, d) || Seeking(n, d));
    }
  }

  // ------------------------------------------------------------------------------- timers and replies

  lemma TimerTends(n: Node, dst: Addr, now: int, c: Config)
    requires SearchInv(n) && c.Sane() && dst in n.timers
    ensures SearchInv(RouteRequestTimerExpire(n, dst, now, c))
  {
    hide SendRequest, GiveUp, SendPacketFromQueue;
    var n1 := n.(timers := n.timers - {dst});
    assert Tended(n1, Some(dst)) by {
      assert forall d: Addr :: Waiting(n1, d) == Waiting(n, d) && Seeking(n1, d) == Seeking(n, d);
    }
    var t := Purge(n.table, now, c.deletePeriod);
    var n2 := n1.(table := t);
    PurgedTended(n1, n2, now, c.deletePeriod, Some(dst));
    var toDst := Lookup(t, dst).GetOr(DefaultEntry(now));
    if dst in t && toDst.flag == VALID {
      if dst == UNSET {
        UnsetTended(n2, dst, toDst, now);
      } else {
        SendsAll(n2, dst, toDst, now);
        SentAllTended(n2, SendPacketFromQueue(n2, dst, toDst, now), dst);
      }
    } else if toDst.reqCount != c.rreqRetries && toDst.flag == IN_SEARCH {
      SendRequestTends(n2, dst, now, c);
    } else {
      GiveUpTends(n2, dst, now, c);
    }
  }

  /** The unset address needs no care. */
  lemma UnsetTended(n: Node, dst: Addr, route: Entry, now: int)
    requires OneDevice(n) && Tended(n, Some(UNSET)) && dst == UNSET
    ensures var r := SendPacketFromQueue(n, dst, route, now);
            OneDevice(r) && Tended(r, None) && r.table == n.table
  {
    hide SendPacketFromQueue;
    SendPacketsCore(n, dst, route, now);
    SendsNothingElse(n, dst, route, now, dst);
    var r := SendPacketFromQueue(n, dst, route, now);
    forall d: Addr | !r.aborted && d != UNSET && (Waiting(r, d) || Seeking(r, d))
      ensures Cared(r, d)
    {
      assert Waiting(n, d) || Seeking(n, d);
    }
  }

  /** The originator's RREP: its destination is reachable, and nothing waits for it any more. */
  lemma ReplyForMeTends(n: Node, p: Packet, sender: Addr, now: int, c: Config)
    requires SearchInv(n) && c.Sane() && ForMe(n, Receive(p, sender)) && Networks.Proper(p.msg)
    ensures SearchInv(RecvAodv(n, p, sender, now, c))
    ensures !Waiting(RecvAodv(n, p, sender, now, c), p.msg.rrep.dst)
    ensures !Seeking(RecvAodv(n, p, sender, now, c), p.msg.rrep.dst)
    ensures RecvAodv(n, p, sender, now, c).forwarded == n.forwarded + Due(n.queue.waiting, p.msg.rrep.dst, now)
  {
    hide UpdateRouteToNeighbor, TakeReply, FinishSearch;
    var m := p.msg.rrep;
    RefreshCalmer(n.table, sender, now, c);
    UpdateRouteToNeighborView(n.table, sender, now, c);
    var n1 := n.(table := UpdateRouteToNeighbor(n.table, sender, now, c));
    StillTended(n, n1, None);
    PurgeView(n1.table, now, c.deletePeriod);
    TakeReplyStill(n1, m, sender, now, c);
    TakeReplyView(n1, m, sender, now, c);
    var n2 := TakeReply(n1, m, sender, now, c);
    StillTended(n1, n2, None);
    var searching := m.dst in n1.table && n1.table[m.dst].flag == IN_SEARCH;
    FinishTends(n2, m, searching, sender, now, c);
    SameForwarded(n1, m, sender, now, c);
  }

  lemma SameForwarded(n: Node, m: RrepHeader, sender: Addr, now: int, c: Config)
    ensures TakeReply(n, m, sender, now, c).forwarded == n.forwarded
  {
    hide InstallRoute;
  }

  lemma FinishTends(n: Node, m: RrepHeader, searching: bool, sender: Addr, now: int, c: Config)
    requires WellFormed(n.table) && OneDevice(n) && Tended(n, None) && c.Sane() && m.dst != UNSET
    requires Settled(n.table, now) && m.dst in n.table && (!searching ==> !Seeking(n, m.dst))
    ensures var r := FinishSearch(n, m, searching, sender, now, c);
            && SearchInv(r) && !Waiting(r, m.dst) && !Seeking(r, m.dst)
            && r.forwarded == n.forwarded + Due(n.queue.waiting, m.dst, now)
  {
    hide SendPacketFromQueue;
    FinishSearchView(n, m, searching, sender, now, c);
    var offered := Offered(m, sender, now);
    UpdateView(n.table, offered, now);
    var n1 := if searching then n.(table := Update(n.table, offered), timers := n.timers - {m.dst}) else n;
    assert OneDevice(n1);
    assert Tended(n1, Some(m.dst)) by {
      forall d: Addr | !n1.aborted && d != UNSET && d != m.dst && (Waiting(n1, d) || Seeking(n1, d))
        ensures Cared(n1, d)
      {
        assert Waiting(n, d) || Seeking(n, d);
      }
    }
    PurgeView(n1.table, now, c.deletePeriod);
    var t := n1.table;
    assert Purge(n1.table, now, c.deletePeriod) == t;
    SendsAll(n1, m.dst, t[m.dst], now);
    SentAllTended(n1, SendPacketFromQueue(n1, m.dst, t[m.dst], now), m.dst);
  }

  // ------------------------------------------------------------------------------- every run

  /** The event can happen: its timer exists, its message is a proper one, and its packet is tied to the
      node's only device or to none. */
  ghost predicate Possible(n: Node, ev: Event) {
    && Enabled(n, ev)
    && (ev.Receive? ==> Networks.Proper(ev.packet.msg))
    && (ev.Output? ==> ev.entry.oif == -1 || ev.entry.oif == n.iface)
  }

  lemma LocalStill(n: Node, ev: Event, now: int, c: Config)
    requires WellFormed(n.table) && c.Sane()
    requires ev.Unrecognized? || ev.RateTimer? || ev.NeighborTimer? || ev.LinkFailure? || ev.UseRoute?
             || ev.UseNeighbor? || ev.Hello?
    ensures Still(n, Handle(n, ev, now, c))
  {
    hide NbPurge, NbUpdate, UpdateRouteLifeTime, UpdateRouteToNeighbor, Calmer;
    CalmerReflexive(n.table);
    match ev
    case Unrecognized(sender) =>
      RefreshCalmer(n.table, sender, now, c);
      UpdateRouteToNeighborView(n.table, sender, now, c);
    case RateTimer =>
    case NeighborTimer => NbPurgeStill(n, now, c);
    case LinkFailure(addrs) =>
      var n' := n.(nb := CloseAll(n.nb, addrs));
      NbPurgeStill(n', now, c);
    case UseRoute(addr) =>
      LifeTimeCalmer(n.table, addr, now, c);
      UpdateRouteLifeTimeView(n.table, addr, now, c);
    case UseNeighbor(addr) => NbUpdateStill(n, addr, c.activeRouteTimeout, now, c);
    case Hello =>
  }

  lemma SearchKept(n: Node, ev: Event, now: int, c: Config)
    requires SearchInv(n) && c.Sane() && Possible(n, ev)
    ensures SearchInv(Handle(n, ev, now, c)) && Handle(n, ev, now, c).iface == n.iface
  {
    hide RecvAodv, DeferredRouteOutput, RouteRequestTimerExpire, SendRequest, NbPurge, NbUpdate, UpdateRouteLifeTime,
      SearchInv, Still;
    assert WellFormed(n.table) && OneDevice(n) && Tended(n, None) by { InvParts(n); }
    match ev
    case Receive(p, sender) =>
      if ForMe(n, ev) {
        ReplyForMeTends(n, p, sender, now, c);
        IfaceStays(n, ev, now, c);
      } else {
        ReceiveStill(n, p, sender, now, c);
        StillInv(n, RecvAodv(n, p, sender, now, c));
      }
    case Output(e) =>
      OutputTends(n, e, now, c);
      IfaceStays(n, ev, now, c);
    case RreqTimer(dst) =>
      TimerTends(n, dst, now, c);
      IfaceStays(n, ev, now, c);
    case Deferred(dst) =>
      DeferredTends(n, dst, now, c);
      IfaceStays(n, ev, now, c);
    case _ =>
      LocalStill(n, ev, now, c);
      StillInv(n, Handle(n, ev, now, c));
  }

  lemma InvParts(n: Node)
    ensures SearchInv(n) <==> WellFormed(n.table) && OneDevice(n) && Tended(n, None)
  {
  }

  lemma StillInv(n: Node, r: Node)
    requires SearchInv(n) && Still(n, r)
    ensures SearchInv(r) && r.iface == n.iface
  {
    StillTended(n, r, None);
  }

  lemma DeferredTends(n: Node, dst: Addr, now: int, c: Config)
    requires SearchInv(n) && c.Sane()
    ensures SearchInv(SendRequest(n.(pending := n.pending - multiset{dst}), dst, now, c))
  {
    hide SendRequest;
    var n1 := n.(pending := n.pending - multiset{dst});
    assert Tended(n1, Some(dst)) by {
      assert forall d: Addr :: Waiting(n1, d) == Waiting(n, d) && Seeking(n1, d) == Seeking(n, d);
    }
    SendRequestTends(n1, dst, now, c);
  }

  lemma IfaceStays(n: Node, ev: Event, now: int, c: Config)
    requires WellFormed(n.table) && c.Sane() && (ev.Output? || ev.RreqTimer? || ev.Deferred? || ForMe(n, ev))
    ensures Handle(n, ev, now, c).iface == n.iface && Handle(n, ev, now, c).me == n.me
  {
    hide SendPacketFromQueue, TakeReply, UpdateRouteToNeighbor, SearchTable, NextTtl, Q.Enqueue, Q.Accepts, Purge, Pow2,
      RequestHeader, C.Remember, Q.DropPacketWithDst, RecvAodv;
    ReceiveIs(n, ev, now, c);
    var t := Purge(n.table, now, c.deletePeriod);
    match ev
    case Receive(p, sender) => ReplyIface(n, p, sender, now, c);
    case Output(e) =>
    case RreqTimer(dst) =>
      SendPacketsCore(n.(table := t, timers := n.timers - {dst}), dst, Lookup(t, dst).GetOr(DefaultEntry(now)), now);
    case Deferred(dst) =>
  }

  lemma ReceiveIs(n: Node, ev: Event, now: int, c: Config)
    ensures ev.Receive? ==> Handle(n, ev, now, c) == RecvAodv(n, ev.packet, ev.sender, now, c)
  {
    hide RecvAodv;
  }

  lemma ReplyIface(n: Node, p: Packet, sender: Addr, now: int, c: Config)
    requires WellFormed(n.table) && c.Sane() && ForMe(n, Receive(p, sender))
    ensures RecvAodv(n, p, sender, now, c).iface == n.iface && RecvAodv(n, p, sender, now, c).me == n.me
  {
    hide SendPacketFromQueue, InstallRoute, UpdateRouteToNeighbor;
    var m := p.msg.rrep;
    var n1 := n.(table := UpdateRouteToNeighbor(n.table, sender, now, c));
    var n2 := TakeReply(n1, m, sender, now, c);
    var searching := m.dst in Purge(n1.table, now, c.deletePeriod)
        && Purge(n1.table, now, c.deletePeriod)[m.dst].flag == IN_SEARCH;
    var n3 := if searching
              then n2.(table := Update(n2.table, Offered(m, sender, now)), timers := n2.timers - {m.dst})
              else n2;
    var t := Purge(n3.table, now, c.deletePeriod);
    SendPacketsCore(n3.(table := t), m.dst, Lookup(t, m.dst).GetOr(DefaultEntry(now)), now);
  }

  /** The node after a run of timed events. */
  function After(n: Node, evs: seq<(Event, int)>, c: Config): Node
    decreases |evs|
  {
    if evs == [] then n else After(Handle(n, evs[0].0, evs[0].1, c), evs[1..], c)
  }

  ghost predicate PossibleRun(n: Node, evs: seq<(Event, int)>, c: Config)
    decreases |evs|
  {
    evs == [] || (Possible(n, evs[0].0) && PossibleRun(Handle(n, evs[0].0, evs[0].1, c), evs[1..], c))
  }

  /** A node that has just started. */
  ghost predicate Started(n: Node) {
    n.table == map[] && n.queue.waiting == [] && n.timers == map[] && n.pending == multiset{} && !n.aborted
  }

  lemma {:induction false} SearchAlways(n: Node, evs: seq<(Event, int)>, c: Config)
    requires SearchInv(n) && c.Sane() && PossibleRun(n, evs, c)
    ensures SearchInv(After(n, evs, c))
    decreases |evs|
  {
    hide SearchInv, Possible, Handle;
    if evs != [] {
      SearchKept(n, evs[0].0, evs[0].1, c);
      SearchAlways(Handle(n, evs[0].0, evs[0].1, c), evs[1..], c);
    }
  }

  /** No packet is stranded: in every state a one-interface node can reach, unless the program has aborted,
      each destination that is searched for or waited for has a running timer or a deferred request. */
  lemma NoneStranded(n: Node, evs: seq<(Event, int)>, c: Config, d: Addr)
    requires Started(n) && c.Sane() && PossibleRun(n, evs, c) && d != UNSET
    ensures var r := After(n, evs, c); !r.aborted && (Waiting(r, d) || Seeking(r, d)) ==> Cared(r, d)
  {
    hide PossibleRun, After;
    SearchAlways(n, evs, c);
  }

  /** When a search timer fires, the search is re-armed, or every packet for its destination has been
      forwarded or reported to its error callback. */
  lemma TimerSettles(n: Node, dst: Addr, now: int, c: Config)
    requires SearchInv(n) && c.Sane() && dst in n.timers && dst != UNSET
    ensures var r := RouteRequestTimerExpire(n, dst, now, c);
            || r.aborted || Cared(r, dst)
            || (!Waiting(r, dst) && !Seeking(r, dst)
                && (r.forwarded == n.forwarded + Due(n.queue.waiting, dst, now)
                    || r.queue.dropped
                       == n.queue.dropped + Filter(n.queue.waiting, Q.Stale(now)) + Due(n.queue.waiting, dst, now)))
  {
    hide SendRequest, GiveUp, SendPacketFromQueue;
    var t := Purge(n.table, now, c.deletePeriod);
    var n1 := n.(timers := n.timers - {dst});
    assert Tended(n1, Some(dst)) by {
      assert forall d: Addr :: Waiting(n1, d) == Waiting(n, d) && Seeking(n1, d) == Seeking(n, d);
    }
    var n2 := n1.(table := t);
    PurgedTended(n1, n2, now, c.deletePeriod, Some(dst));
    var toDst := Lookup(t, dst).GetOr(DefaultEntry(now));
    if dst in t && toDst.flag == VALID {
      SendsAll(n2, dst, toDst, now);
    } else if toDst.reqCount != c.rreqRetries && toDst.flag == IN_SEARCH {
      SendRequestTends(n2, dst, now, c);
    } else {
      GiveUpTends(n2, dst, now, c);
      GaveUp(n2, dst, now, c);
    }
  }

  lemma GaveUp(n: Node, dst: Addr, now: int, c: Config)
    ensures GiveUp(n, dst, now, c).queue.dropped
         == n.queue.dropped + Filter(n.queue.waiting, Q.Stale(now)) + Due(n.queue.waiting, dst, now)
  {
  }
}
