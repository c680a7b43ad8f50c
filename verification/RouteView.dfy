/** What a routing table says about routes at a given instant, once the next purge has been allowed
    for: the flag an entry would have, without lifetimes and precursors. Every operation of the protocol
    acts on this view in a simple way, and purging does not act on it at all. An entry for the unset
    address (which a failed lookup followed by an update can touch) is not a route. */
module RouteViews {
  import opened Basics
  import opened SequenceNumbers
  import opened Headers
  import opened RouteEntries
  import opened Nodes

  datatype Route = Route(validSeqNo: bool, seqNo: U32, hops: U16, nextHop: Addr, bound: bool, flag: Flag)

  type View = map<Addr, Route>

  /** The next purge deletes the entry. */
  predicate Gone(e: Entry, now: int) {
    e.flag == INVALID && e.Expired(now)
  }

  function RouteOf(e: Entry, now: int): Route {
    Route(e.validSeqNo, e.seqNo, e.hops, e.nextHop, e.bound,
          if e.flag == VALID && e.Expired(now) then INVALID else e.flag)
  }

  function ViewOf(t: Table, now: int): View {
    map k | k in t && k != UNSET && !Gone(t[k], now) :: RouteOf(t[k], now)
  }

  function Put(v: View, k: Addr, r: Route): View {
    if k == UNSET then v else v[k := r]
  }

  /** A table that has just been purged. */
  ghost predicate Settled(t: Table, now: int) {
    WellFormed(t) && forall k :: k in t && t[k].flag != IN_SEARCH ==> !t[k].Expired(now)
  }

  lemma PurgeView(t: Table, now: int, bad: int)
    requires WellFormed(t) && bad >= 0
    ensures Settled(Purge(t, now, bad), now)
    ensures ViewOf(Purge(t, now, bad), now) == ViewOf(t, now)
    ensures Purge(t, now, bad).Keys - {UNSET} == ViewOf(t, now).Keys
    ensures Settled(t, now) ==> Purge(t, now, bad) == t
  {
  }

  /** In a settled table the view is the table. */
  lemma SettledView(t: Table, now: int)
    requires Settled(t, now)
    ensures ViewOf(t, now).Keys == t.Keys - {UNSET}
    ensures forall k :: k in t && k != UNSET ==>
              ViewOf(t, now)[k] == RouteOf(t[k], now) && ViewOf(t, now)[k].flag == t[k].flag
  {
  }

  lemma UpdateView(t: Table, e: Entry, now: int)
    requires Settled(t, now) && !Gone(e, now)
    ensures WellFormed(Update(t, e))
    ensures ViewOf(Update(t, e), now) == if e.dst in t then Put(ViewOf(t, now), e.dst, RouteOf(e, now))
            else ViewOf(t, now)
    ensures (e.flag == IN_SEARCH || !e.Expired(now)) ==> Settled(Update(t, e), now)
  {
  }

  lemma AddView(t: Table, e: Entry, now: int, bad: int)
    requires Settled(t, now) && !Gone(e, now) && bad >= 0
    ensures WellFormed(AddRoute(t, e, now, bad))
    ensures ViewOf(AddRoute(t, e, now, bad), now)
         == if e.dst in t then ViewOf(t, now) else Put(ViewOf(t, now), e.dst, RouteOf(e, now))
    ensures (e.flag == IN_SEARCH || !e.Expired(now)) ==> Settled(AddRoute(t, e, now, bad), now)
  {
    PurgeView(t, now, bad);
  }

  // ------------------------------------------------------------------------------- table operations

  function OneHop(dst: Addr, seqNo: U32): Route {
    Route(false, seqNo, 1, dst, true, VALID)
  }

  function Refreshed(v: View, sender: Addr): View {
    if sender in v && v[sender].validSeqNo && v[sender].hops == 1 && v[sender].bound then v
    else Put(v, sender, OneHop(sender, 0))
  }

  lemma UpdateRouteToNeighborView(t: Table, sender: Addr, now: int, c: Config)
    requires WellFormed(t) && c.Sane()
    ensures Settled(UpdateRouteToNeighbor(t, sender, now, c), now)
    ensures ViewOf(UpdateRouteToNeighbor(t, sender, now, c), now) == Refreshed(ViewOf(t, now), sender)
  {
    PurgeView(t, now, c.deletePeriod);
    var p := Purge(t, now, c.deletePeriod);
    SettledView(p, now);
    if sender !in p {
      AddView(p, NewEntry(sender, false, 0, 1, sender, c.activeRouteTimeout, true, now), now, c.deletePeriod);
    } else {
      UpdateView(p, NewEntry(sender, false, 0, 1, sender, Max(c.activeRouteTimeout, p[sender].LifeTime(now)), true,
                             now), now);
    }
  }

  lemma NeighborRouteView(t: Table, originSeqNo: U32, src: Addr, now: int, c: Config)
    requires WellFormed(t) && c.Sane()
    ensures Settled(NeighborRoute(t, originSeqNo, src, now, c), now)
    ensures ViewOf(NeighborRoute(t, originSeqNo, src, now, c), now)
            == Put(ViewOf(t, now), src, OneHop(src, originSeqNo))
  {
    PurgeView(t, now, c.deletePeriod);
    var p := Purge(t, now, c.deletePeriod);
    SettledView(p, now);
    if src !in p {
      var e := NewEntry(src, false, originSeqNo, 1, src, c.activeRouteTimeout, true, now);
      AddView(p, e, now, c.deletePeriod);
      assert NeighborRoute(t, originSeqNo, src, now, c) == AddRoute(p, e, now, c.deletePeriod);
    } else {
      var e := p[src].(expire := now + c.activeRouteTimeout, validSeqNo := false, seqNo := originSeqNo,
                       flag := VALID, bound := true, hops := 1, nextHop := src);
      UpdateView(p, e, now);
      assert NeighborRoute(t, originSeqNo, src, now, c) == Update(p, e);
    }
  }

  /** The route to the originator after a RREQ; its flag is that of the old one. */
  function Reversed(v: View, m: RreqHeader, src: Addr, c: Config): Route {
    var minimal := 2 * c.netTraversalTime - 2 * m.hopCount * c.nodeTraversalTime;
    var known := m.origin in v;
    var newer := !known || !v[m.origin].validSeqNo || SeqDiff(m.originSeqNo, v[m.origin].seqNo) > 0;
    Route(true, if newer then m.originSeqNo else v[m.origin].seqNo, m.hopCount, src, true,
          if known then v[m.origin].flag else if minimal >= 0 then VALID else INVALID)
  }

  /** The entry that replaces a known one. */
  function ReversedEntry(o: Entry, m: RreqHeader, src: Addr, now: int, c: Config): Entry {
    var minimal := 2 * c.netTraversalTime - 2 * m.hopCount * c.nodeTraversalTime;
    var newer := !o.validSeqNo || SeqDiff(m.originSeqNo, o.seqNo) > 0;
    o.(validSeqNo := true, seqNo := if newer then m.originSeqNo else o.seqNo, nextHop := src, bound := true,
       hops := m.hopCount, expire := now + Max(minimal, o.LifeTime(now)))
  }

  lemma ReverseRouteIs(t: Table, m: RreqHeader, src: Addr, now: int, c: Config)
    ensures var p := Purge(t, now, c.deletePeriod);
            ReverseRoute(t, m, src, now, c)
            == if m.origin in p then Update(p, ReversedEntry(p[m.origin], m, src, now, c))
               else AddRoute(p, NewEntry(m.origin, true, m.originSeqNo, m.hopCount, src,
                                         2 * c.netTraversalTime - 2 * m.hopCount * c.nodeTraversalTime, true, now),
                                             now, c.deletePeriod)
  {
    hide Purge, SeqDiff, Update, AddRoute;
  }

  lemma ReverseRouteView(t: Table, m: RreqHeader, src: Addr, now: int, c: Config)
    requires WellFormed(t) && c.Sane()
    ensures WellFormed(ReverseRoute(t, m, src, now, c))
    ensures ViewOf(ReverseRoute(t, m, src, now, c), now)
            == Put(ViewOf(t, now), m.origin, Reversed(ViewOf(t, now), m, src, c))
  {
    hide Purge, ReverseRoute, Update, AddRoute, SeqDiff, ViewOf;
    PurgeView(t, now, c.deletePeriod);
    ReverseRouteIs(t, m, src, now, c);
    var p := Purge(t, now, c.deletePeriod);
    SettledView(p, now);
    if m.origin in p {
      UpdateView(p, ReversedEntry(p[m.origin], m, src, now, c), now);
    } else {
      AddView(p, NewEntry(m.origin, true, m.originSeqNo, m.hopCount, src,
                          2 * c.netTraversalTime - 2 * m.hopCount * c.nodeTraversalTime, true, now), now,
                              c.deletePeriod);
    }
  }

  predicate AcceptsRoute(r: Route, seqNo: U32, hops: U8) {
    || !r.validSeqNo
    || SeqDiff(seqNo, r.seqNo) > 0
    || (seqNo == r.seqNo && r.flag != VALID)
    || (seqNo == r.seqNo && hops < r.hops)
  }

  function OfferedRoute(m: RrepHeader, sender: Addr): Route {
    Route(true, m.dstSeqNo, Bump8(m.hopCount), sender, true, VALID)
  }

  /** Whether a RREP changes the route to its destination. */
  predicate Installs(v: View, m: RrepHeader) {
    m.dst !in v || AcceptsRoute(v[m.dst], m.dstSeqNo, Bump8(m.hopCount))
  }

  function Installed(v: View, m: RrepHeader, sender: Addr): View {
    if Installs(v, m) then Put(v, m.dst, OfferedRoute(m, sender)) else v
  }

  lemma InstallRouteView(t: Table, m: RrepHeader, sender: Addr, now: int, c: Config)
    requires WellFormed(t) && c.Sane()
    ensures Settled(InstallRoute(t, m, sender, now, c), now)
    ensures ViewOf(InstallRoute(t, m, sender, now, c), now) == Installed(ViewOf(t, now), m, sender)
    ensures m.dst in InstallRoute(t, m, sender, now, c)
  {
    PurgeView(t, now, c.deletePeriod);
    var p := Purge(t, now, c.deletePeriod);
    SettledView(p, now);
    var offered := Offered(m, sender, now);
    if m.dst !in p {
      AddView(p, offered, now, c.deletePeriod);
    } else {
      UpdateView(p, offered, now);
    }
  }

  /** Updates that change only lifetimes (upwards), precursors or request counts leave no trace. */
  lemma SameRouteUpdate(t: Table, e: Entry, now: int)
    requires Settled(t, now)
    requires e.dst in t ==> (RouteOf(e, now) == RouteOf(t[e.dst], now) && (e.flag == t[e.dst].flag))
    requires e.dst !in t || e.flag == IN_SEARCH || !e.Expired(now)
    ensures Settled(Update(t, e), now)
    ensures ViewOf(Update(t, e), now) == ViewOf(t, now) && Update(t, e).Keys == t.Keys
  {
    assert e.dst in t ==> !Gone(e, now);
    if e.dst in t {
      UpdateView(t, e, now);
      assert e.dst != UNSET ==> ViewOf(t, now)[e.dst] == RouteOf(e, now);
    }
  }

  lemma PrecursorUpdate(t: Table, e: Entry, id: Addr, now: int)
    requires Settled(t, now) && (e.dst in t ==> RouteOf(e, now) == RouteOf(t[e.dst], now) && e.flag == t[e.dst].flag)
    requires e.dst !in t || e.flag == IN_SEARCH || !e.Expired(now)
    ensures Settled(Update(t, e.InsertPrecursor(id)), now)
    ensures ViewOf(Update(t, e.InsertPrecursor(id)), now) == ViewOf(t, now)
            && Update(t, e.InsertPrecursor(id)).Keys == t.Keys
  {
    SameRouteUpdate(t, e.InsertPrecursor(id), now);
  }

  lemma SettledEntry(t: Table, k: Addr, now: int)
    requires Settled(t, now) && k in t
    ensures t[k].dst == k && (t[k].flag == IN_SEARCH || !t[k].Expired(now))
    ensures k != UNSET ==> k in ViewOf(t, now) && ViewOf(t, now)[k] == RouteOf(t[k], now)
  {
  }

  /** Equal views of settled tables agree on each route and flag. */
  lemma SameAt(t: Table, u: Table, k: Addr, now: int)
    requires Settled(t, now) && Settled(u, now) && ViewOf(t, now) == ViewOf(u, now) && k in t && k != UNSET
    ensures k in u && RouteOf(u[k], now) == RouteOf(t[k], now) && u[k].flag == t[k].flag
  {
    SettledView(t, now);
    SettledView(u, now);
    assert k in ViewOf(t, now);
  }

  /** A lookup that may fail, followed by the insertion of a precursor. */
  lemma ViaUpdate(t: Table, via: Addr, id: Addr, now: int)
    requires Settled(t, now) && now >= 0
    ensures var e := Lookup(t, via).GetOr(DefaultEntry(now));
            && Settled(Update(t, e.InsertPrecursor(id)), now)
            && ViewOf(Update(t, e.InsertPrecursor(id)), now) == ViewOf(t, now)
            && Update(t, e.InsertPrecursor(id)).Keys == t.Keys
  {
    if via in t {
      PrecursorUpdate(t, t[via], id, now);
    } else {
      UpdateView(t, DefaultEntry(now).InsertPrecursor(id), now);
    }
  }

  lemma NotePrecursorsView(t: Table, dst: Addr, toOrigin: Entry, now: int, c: Config)
    requires Settled(t, now) && c.Sane() && now >= 0 && toOrigin.dst in t && toOrigin.dst != UNSET
    requires RouteOf(toOrigin, now) == RouteOf(t[toOrigin.dst], now) && toOrigin.flag == t[toOrigin.dst].flag
    requires toOrigin.flag == IN_SEARCH || !toOrigin.Expired(now)
    ensures Settled(NotePrecursors(t, dst, toOrigin, now, c), now)
    ensures ViewOf(NotePrecursors(t, dst, toOrigin, now, c), now) == ViewOf(t, now)
  {
    var bad := c.deletePeriod;
    PurgeView(t, now, bad);
    if dst in t && t[dst].flag == VALID {
      var toDst := t[dst];
      PrecursorUpdate(t, toDst, toOrigin.nextHop, now);
      var u1 := Update(t, toDst.InsertPrecursor(toOrigin.nextHop));
      PurgeView(u1, now, bad);
      ViaUpdate(u1, toDst.nextHop, toOrigin.nextHop, now);
      var t2 := Update(u1, Lookup(u1, toDst.nextHop).GetOr(DefaultEntry(now)).InsertPrecursor(toOrigin.nextHop));
      SameAt(t, t2, toOrigin.dst, now);
      PrecursorUpdate(t2, toOrigin, toDst.nextHop, now);
      var u3 := Update(t2, toOrigin.InsertPrecursor(toDst.nextHop));
      PurgeView(u3, now, bad);
      ViaUpdate(u3, toOrigin.nextHop, toDst.nextHop, now);
    }
  }
}
