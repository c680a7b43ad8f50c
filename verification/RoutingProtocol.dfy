/** The protocol as the object that the program updates in place: the routing table, the packet queue, the
    id cache, the neighbour list and its own counters. Each method does what the program does, step by
    step, and is proved against the node function of its name. */
module RoutingProtocols {
  import opened Basics
  import opened SequenceNumbers
  import opened Headers
  import opened RouteEntries
  import opened Nodes
  import NeighborLists
  import HandlerEffects
  import RoutingTables
  import RequestQueues
  import IdCacheObject
  import Q = PacketQueues
  import C = IdCaches

  lemma ElementsAppend(a: seq<Addr>, b: seq<Addr>)
    ensures Elements(a + b) == Elements(a) + Elements(b)
  {
  }

  lemma PrecursorsAdd(t: Table, dsts: set<Addr>, k: Addr)
    requires k in t
    ensures Precursors(t, dsts + {k}) == Precursors(t, dsts) + Elements(t[k].precursors)
  {
    var all := Precursors(t, dsts + {k});
    forall p | p in Elements(t[k].precursors)
      ensures p in all
    {
      assert k in dsts + {k} && k in t && p in t[k].precursors;
    }
    forall p | p in Precursors(t, dsts)
      ensures p in all
    {
      var d :| d in dsts && d in t && p in t[d].precursors;
      assert d in dsts + {k};
    }
  }

  lemma NoPrecursors(t: Table)
    ensures Precursors(t, {}) == {} && Elements([]) == {}
  {
  }

  // ------------------------------------------------------------------------------- broken links in turn

  /** One link after the other. */
  function BreakAll(n: Node, addrs: seq<Addr>, now: int, c: Config): Node
    decreases |addrs|
  {
    if addrs == [] then n else LinkBreak(BreakAll(n, addrs[..|addrs| - 1], now, c), addrs[|addrs| - 1], now, c)
  }

  lemma {:induction false} BreakAllFront(n: Node, a: Addr, addrs: seq<Addr>, now: int, c: Config)
    ensures BreakAll(n, [a] + addrs, now, c) == BreakAll(LinkBreak(n, a, now, c), addrs, now, c)
    decreases |addrs|
  {
    hide LinkBreak;
    var s := [a] + addrs;
    if addrs == [] {
      assert s[..0] == [];
    } else {
      var init := addrs[..|addrs| - 1];
      BreakAllFront(n, a, init, now, c);
      assert s[..|s| - 1] == [a] + init;
    }
  }

  /** The failures a purge reports, handled in order, are the links it breaks. */
  lemma {:induction false} BreakAllLinks(n: Node, nb: seq<Neighbor>, now: int, c: Config)
    ensures BreakAll(n, NeighborLists.ClosingAddrs(nb, now), now, c) == BreakLinks(n, nb, now, c)
    decreases |nb|
  {
    hide LinkBreak, Closing, BreakAll;
    if nb == [] {
      BreakAllNone(n, now, c);
    } else if Closing(nb[0], now) {
      BreakAllFront(n, nb[0].addr, NeighborLists.ClosingAddrs(nb[1..], now), now, c);
      BreakAllLinks(LinkBreak(n, nb[0].addr, now, c), nb[1..], now, c);
    } else {
      BreakAllLinks(n, nb[1..], now, c);
      assert [] + NeighborLists.ClosingAddrs(nb[1..], now) == NeighborLists.ClosingAddrs(nb[1..], now);
    }
  }

  lemma BreakAllNone(n: Node, now: int, c: Config)
    ensures BreakAll(n, [], now, c) == n
  {
  }

  /** Handling a link failure does not look at the neighbour list. */
  lemma {:induction false} BreakAllNb(n: Node, nb: seq<Neighbor>, addrs: seq<Addr>, now: int, c: Config)
    ensures BreakAll(n.(nb := nb), addrs, now, c) == BreakAll(n, addrs, now, c).(nb := nb)
    decreases |addrs|
  {
    hide RerrMessage, Precursors, InvalidateRoutesWithDst, RouteEntries.Purge;
    if addrs != [] {
      BreakAllNb(n, nb, addrs[..|addrs| - 1], now, c);
    }
  }

  class RoutingProtocol {
    const me: Addr
    const iface: nat
    const c: Config
    const table: RoutingTables.RoutingTable
    const queue: RequestQueues.RequestQueue
    const idCache: IdCacheObject.IdCache
    const nb: NeighborLists.Neighbors
    var timers: map<Addr, int>
    var pending: multiset<Addr>
    var rreqCount: U16
    var seqNo: U32
    var requestId: U32
    var sent: seq<Packet>
    var forwarded: seq<Q.QueueEntry>
    var aborted: bool

    /** The parts are set up with the attributes of the protocol. */
    ghost predicate Valid()
      reads this, table, queue, idCache
    {
      && c.Sane() && table.badLinkLifetime == c.deletePeriod
      && queue.maxLen == c.maxQueueLen && queue.queueTimeout == c.maxQueueTime
         && idCache.lifetime == c.pathDiscoveryTime
    }

    ghost function State(): Node
      reads this, table, queue, idCache, nb
    {
      Node(me, iface, table.entries, queue.State(), timers, pending, rreqCount, seqNo, requestId, idCache.idCache,
           nb.nb, sent, forwarded, aborted)
    }

    constructor (me: Addr, iface: nat, c: Config)
      requires c.Sane()
      ensures Valid() && this.c == c && fresh(table) && fresh(queue) && fresh(idCache) && fresh(nb)
      ensures State() == NewNode(me, iface)
      ensures table.entries == map[] && queue.queue == [] && idCache.idCache == [] && nb.nb == [] && timers == map[]
      ensures rreqCount == seqNo == requestId == 0 && pending == multiset{} && sent == [] && forwarded == [] && !aborted
    {
      this.me, this.iface, this.c := me, iface, c;
      table := new RoutingTables.RoutingTable(c.deletePeriod);
      queue := new RequestQueues.RequestQueue(c.maxQueueLen, c.maxQueueTime);
      idCache := new IdCacheObject.IdCache(c.pathDiscoveryTime);
      nb := new NeighborLists.Neighbors();
      timers, pending := map[], multiset{};
      rreqCount, seqNo, requestId := 0, 0, 0;
      sent, forwarded, aborted := [], [], false;
    }

    method SendTo(p: Packet)
      requires Valid()
      modifies this`sent
      ensures Valid() && State() == old(State()).Send(p)
    {
      sent := sent + [p];
    }

    // ----------------------------------------------------------------------------- neighbours and links

    method UpdateRouteToNeighbor(sender: Addr, now: int)
      requires Valid()
      modifies table
      ensures Valid()
      ensures State() == old(State()).(table := Nodes.UpdateRouteToNeighbor(old(table.entries), sender, now, c))
    {
      hide RouteEntries.Purge;
      PurgedOnce(table.entries, now, c.deletePeriod);
      var toNeighbor := table.LookupRoute(sender, now);
      if toNeighbor.None? {
        var added := table.AddRoute(NewEntry(sender, false, 0, 1, sender, c.activeRouteTimeout, true, now), now);
      } else {
        var e := toNeighbor.value;
        if !(e.validSeqNo && e.hops == 1 && e.bound) {
          var found := table.Update(NewEntry(sender, false, 0, 1, sender, Max(c.activeRouteTimeout, e.LifeTime(now)),
                                             true, now));
        }
      }
    }

    method UpdateRouteLifeTime(addr: Addr, lifetime: int, now: int) returns (updated: bool)
      requires Valid()
      modifies table
      ensures Valid()
      ensures State() == old(State()).(table := Nodes.UpdateRouteLifeTime(old(table.entries), addr, lifetime, now, c))
      ensures updated <==> ValidRoute(RouteEntries.Purge(old(table.entries), now, c.deletePeriod), addr)
      ensures updated && WellFormed(old(table.entries)) ==>
                addr in old(table.entries) && addr in table.entries
                && table.entries[addr].expire == Max(now + lifetime, old(table.entries)[addr].expire)
    {
      hide RouteEntries.Purge, RouteEntries.Update, WellFormed;
      if WellFormed(table.entries) {
        HandlerEffects.UsedRoute(table.entries, addr, lifetime, now, c);
      }
      var rt := table.LookupRoute(addr, now);
      updated := rt.Some? && rt.value.flag == VALID;
      if updated {
        var found := table.Update(rt.value.(reqCount := 0, expire := now + Max(lifetime, rt.value.LifeTime(now))));
      }
    }

    /** Adds the precursors of an entry to a list without repeating any. */
    method GetPrecursors(e: Entry, prec: seq<Addr>) returns (all: seq<Addr>)
      requires NoDuplicates(prec)
      ensures NoDuplicates(all) && Elements(all) == Elements(prec) + Elements(e.precursors)
    {
      all := prec;
      if e.precursors == [] {
        return;
      }
      for i := 0 to |e.precursors|
        invariant NoDuplicates(all) && Elements(all) == Elements(prec) + Elements(e.precursors[..i])
      {
        assert e.precursors[..i + 1] == e.precursors[..i] + [e.precursors[i]];
        ElementsAppend(e.precursors[..i], [e.precursors[i]]);
        ElementsAppend(all, [e.precursors[i]]);
        if e.precursors[i] !in all {
          all := all + [e.precursors[i]];
        }
      }
      assert e.precursors[..|e.precursors|] == e.precursors;
    }

    /** To the only precursor, or to everyone when there are several, if a VALID route leads to one. */
    method SendRerrMessage(h: RerrHeader, precursors: seq<Addr>, now: int)
      requires Valid() && h.DestCount() != 0 && NoDuplicates(precursors)
      modifies this`sent, table
      ensures var t := RouteEntries.Purge(old(table.entries), now, c.deletePeriod);
              Valid() && State() == old(State()).(table := if precursors == [] then old(table.entries) else t,
                                                  sent := old(sent) + RerrMessage(t, h, Elements(precursors)))
    {
      hide RouteEntries.Purge;
      if precursors == [] {
        return;
      }
      PurgedOnce(table.entries, now, c.deletePeriod);
      ghost var t := RouteEntries.Purge(table.entries, now, c.deletePeriod);
      if |precursors| == 1 {
        assert Elements(precursors) == {precursors[0]};
        var valid, toPrecursor := table.LookupValidRoute(precursors[0], now);
        if valid {
          SendTo(Packet(Rerr(h), 1, To(precursors[0])));
        }
        return;
      }
      var reached := false;
      for i := 0 to |precursors|
        invariant Valid() && sent == old(sent) && State() == old(State()).(table := table.entries)
        invariant table.entries == (if i == 0 then old(table.entries) else t)
        invariant reached <==> exists j :: 0 <= j < i && ValidRoute(t, precursors[j])
      {
        var valid, toPrecursor := table.LookupValidRoute(precursors[i], now);
        reached := reached || valid;
      }
      if reached {
        SendTo(Packet(Rerr(h), 1, Broadcast));
      }
      Several(precursors);
    }

    /** Adds destinations to a RERR and their precursors to a list. `tripped` says whether the assertion of
        AddUnDestination, which allows 255 destinations, would have failed. */
    method ListDestinations(h: RerrHeader, unreachable: map<Addr, U32>, prec: seq<Addr>, now: int)
      returns (rerr: RerrHeader, precursors: seq<Addr>, ghost tripped: bool)
      requires Valid() && NoDuplicates(prec) && unreachable.Keys <= table.entries.Keys
      requires RouteEntries.Purge(table.entries, now, c.deletePeriod) == table.entries
      modifies table`entries, table`multipath
      ensures table.entries == old(table.entries)
      ensures rerr == h.(dests := unreachable + h.dests)
      ensures NoDuplicates(precursors)
              && Elements(precursors) == Elements(prec) + Precursors(table.entries, unreachable.Keys)
      ensures |unreachable + h.dests| <= 255 ==> !tripped
    {
      hide RouteEntries.Purge, Precursors, Elements, NoDuplicates, Listed;
      rerr, precursors, tripped := h, prec, false;
      ghost var t, all, few := table.entries, unreachable.Keys, |unreachable + h.dests| <= 255;
      NoPrecursors(t);
      NothingListed(unreachable, h.dests);
      var todo := unreachable.Keys;
      assert all - todo == {};
      while todo != {}
        invariant table.entries == t && todo <= all && NoDuplicates(precursors)
        invariant rerr == h.(dests := Listed(unreachable, h.dests, all - todo))
        invariant Elements(precursors) == Elements(prec) + Precursors(t, all - todo)
        invariant few ==> !tripped
      {
        var k :| k in todo;
        ghost var done := all - todo;
        assert done + {k} == all - (todo - {k});
        PrecursorsAdd(t, done, k);
        ListedStep(unreachable, h.dests, done, k);
        if k !in rerr.dests && rerr.DestCount() >= 255 {
          tripped := true;
        }
        rerr := rerr.AddUnDestination(k, unreachable[k]);
        var toDst := table.LookupRoute(k, now);
        precursors := GetPrecursors(toDst.value, precursors);
        todo := todo - {k};
      }
      assert all - todo == all;
      AllListed(unreachable, h.dests);
    }

    /** A neighbour without a table entry is passed over; otherwise it and everything routed through it are
        announced and taken down. */
    method SendRerrWhenBreaksLinkToNextHop(nextHop: Addr, now: int)
      requires Valid()
      modifies this`sent, table
      ensures Valid() && State() == LinkBreak(old(State()), nextHop, now, c)
    {
      hide RouteEntries.Purge, RerrMessage, Precursors, Elements, InvalidateRoutesWithDst, Through, LinkBreak;
      PurgedOnce(table.entries, now, c.deletePeriod);
      ghost var n, t := State(), RouteEntries.Purge(table.entries, now, c.deletePeriod);
      LinkBreakIs(n, nextHop, now, c);
      var toNextHop := table.LookupRoute(nextHop, now);
      if toNextHop.None? {
        return;
      }
      var seqNo := toNextHop.value.seqNo;
      var precursors := GetPrecursors(toNextHop.value, []);
      var rerr := EMPTY_RERR.AddUnDestination(nextHop, seqNo);
      var unreachable := table.GetListOfDestinationWithNextHop(nextHop, now);
      ThroughKnown(t, nextHop);
      ghost var tripped: bool;
      rerr, precursors, tripped := ListDestinations(rerr, unreachable, precursors, now);
      AddedLast(unreachable, nextHop, seqNo);
      PrecursorsOfBoth(t, unreachable.Keys, nextHop);
      NothingToSay(t, rerr, Elements(precursors));
      if rerr.DestCount() != 0 {
        SendRerrMessage(rerr, precursors, now);
      }
      table.InvalidateRoutesWithDst(unreachable[nextHop := seqNo], now);
    }

    method HandleLinkFailures(failures: seq<Addr>, now: int)
      requires Valid()
      modifies this`sent, table
      ensures Valid() && State() == BreakAll(old(State()), failures, now, c)
    {
      hide LinkBreak;
      BreakAllNone(State(), now, c);
      for i := 0 to |failures|
        invariant Valid() && State() == BreakAll(old(State()), failures[..i], now, c)
      {
        assert failures[..i + 1][..i] == failures[..i];
        SendRerrWhenBreaksLinkToNextHop(failures[i], now);
      }
      assert failures[..|failures|] == failures;
    }

    /** Neighbors::Purge with the link-failure handler installed. */
    method PurgeNeighbors(now: int)
      requires Valid()
      modifies this`sent, table, nb
      ensures Valid() && State() == NbPurge(old(State()), now, c)
    {
      hide BreakAll, BreakLinks;
      ghost var n := State();
      var failures := nb.Purge(now);
      HandleLinkFailures(failures, now);
      BreakAllNb(n, nb.nb, failures, now, c);
      BreakAllLinks(n, n.nb, now, c);
    }

    /** Neighbors::Update. */
    method UpdateNeighbor(addr: Addr, lifetime: int, now: int)
      requires Valid()
      modifies this`sent, table, nb
      ensures Valid() && State() == NbUpdate(old(State()), addr, lifetime, now, c)
    {
      hide BreakAll, BreakLinks;
      ghost var n := State();
      var failures := nb.Update(addr, lifetime, now);
      HandleLinkFailures(failures, now);
      if IndexOfNeighbor(n.nb, addr) == |n.nb| {
        ghost var added := n.nb + [Neighbor(addr, now + lifetime, false)];
        BreakAllNb(n.(nb := added), nb.nb, failures, now, c);
        BreakAllLinks(n.(nb := added), added, now, c);
      } else {
        BreakAllNone(n.(nb := nb.nb), now, c);
      }
    }

    /** Neighbors::ProcessTxError. */
    method ProcessTxError(addrs: set<Addr>, now: int)
      requires Valid()
      modifies this`sent, table, nb
      ensures Valid() && State() == Nodes.ProcessTxError(old(State()), addrs, now, c)
    {
      hide BreakAll, BreakLinks;
      ghost var n := State().(nb := CloseAll(nb.nb, addrs));
      var failures := nb.ProcessTxError(addrs, now);
      HandleLinkFailures(failures, now);
      BreakAllNb(n, nb.nb, failures, now, c);
      BreakAllLinks(n, n.nb, now, c);
    }

    // ----------------------------------------------------------------------------- errors

    /** Empties the header, keeping what leads through its sender. */
    method DrainRerr(m: RerrHeader, dstWithNextHopSrc: map<Addr, U32>)
        returns (rerr: RerrHeader, unreachable: map<Addr, U32>)
      ensures rerr == m.(dests := map[])
      ensures unreachable == map k | k in m.dests && k in dstWithNextHopSrc :: m.dests[k]
    {
      rerr, unreachable := m, map[];
      while rerr.dests.Keys != {}
        invariant rerr == m.(dests := rerr.dests) && rerr.dests.Keys <= m.dests.Keys
        invariant forall k :: k in rerr.dests ==> rerr.dests[k] == m.dests[k]
        invariant unreachable == map k | k in m.dests && k in dstWithNextHopSrc && k !in rerr.dests :: m.dests[k]
        decreases rerr.dests.Keys
      {
        var k :| k in rerr.dests.Keys;
        var value := rerr.dests[k];
        ghost var before := rerr.dests.Keys;
        rerr := rerr.(dests := rerr.dests - {k});
        assert rerr.dests.Keys == before - {k};
        if k in dstWithNextHopSrc {
          unreachable := unreachable[k := value];
        }
      }
      assert rerr.dests == map[];
    }

    /** The header is drained, and refilled with what this node reaches through the sender. A RERR that came
        off the wire lists at most 255 destinations, so the assertion of AddUnDestination holds. */
    method RecvError(m: RerrHeader, src: Addr, now: int)
      requires Valid() && |m.dests| < 0x100
      modifies this`sent, table
      ensures Valid() && State() == Nodes.RecvError(old(State()), m, src, now, c)
    {
      hide RouteEntries.Purge, RerrMessage, Precursors, Elements, InvalidateRoutesWithDst;
      PurgedOnce(table.entries, now, c.deletePeriod);
      ghost var t := RouteEntries.Purge(table.entries, now, c.deletePeriod);
      var dstWithNextHopSrc := table.GetListOfDestinationWithNextHop(src, now);
      var rerr, unreachable := DrainRerr(m, dstWithNextHopSrc);
      assert unreachable == Affected(t, m, src);
      Fits(unreachable, m.dests);
      var precursors: seq<Addr>;
      ghost var tripped: bool;
      assert unreachable + map[] == unreachable;
      rerr, precursors, tripped := ListDestinations(rerr, unreachable, [], now);
      assert !tripped;
      NoPrecursors(t);
      assert {} + Precursors(t, unreachable.Keys) == Precursors(t, unreachable.Keys);
      NothingToSay(t, rerr, Elements(precursors));
      if rerr.DestCount() != 0 {
        SendRerrMessage(rerr, precursors, now);
      }
      table.InvalidateRoutesWithDst(unreachable, now);
    }

    // ----------------------------------------------------------------------------- requests

    /** The TTL of the ring after the one in `rt`, in uint16_t arithmetic. */
    method NextRing(rt: Entry) returns (ttl: U16)
      ensures ttl == NextTtl(rt, c)
    {
      if rt.flag != IN_SEARCH {
        ttl := Min((rt.hops + c.ttlIncrement) % 0x1_0000, c.netDiameter % 0x1_0000);
      } else {
        ttl := (rt.hops + c.ttlIncrement) % 0x1_0000;
        if ttl > c.ttlThreshold {
          ttl := c.netDiameter % 0x1_0000;
        }
      }
    }

    /** The table's part of SendRequest: the next ring, and the entry that was there. */
    method GrowRing(dst: Addr, now: int) returns (ttl: U16, known: Option<Entry>)
      requires Valid()
      modifies table
      ensures Valid() && State() == old(State()).(table := SearchTable(old(table.entries), dst, now, c))
      ensures var t := RouteEntries.Purge(old(table.entries), now, c.deletePeriod);
              known == Lookup(t, dst) && ttl == if dst in t then NextTtl(t[dst], c) else c.ttlStart
    {
      hide RouteEntries.Purge, RouteEntries.Update, RouteEntries.AddRoute, NextTtl;
      PurgedOnce(table.entries, now, c.deletePeriod);
      ttl := c.ttlStart;
      known := table.LookupRoute(dst, now);
      if known.Some? {
        var rt := known.value;
        ttl := NextRing(rt);
        if ttl == c.netDiameter {
          rt := rt.(reqCount := Bump8(rt.reqCount));
        }
        rt := rt.(hops := ttl, flag := IN_SEARCH, expire := now + c.pathDiscoveryTime);
        var found := table.Update(rt);
      } else {
        var newEntry := NewEntry(dst, false, 0, ttl, UNSET, c.pathDiscoveryTime, false, now);
        if ttl == c.netDiameter {
          newEntry := newEntry.(reqCount := 1);
        }
        newEntry := newEntry.(flag := IN_SEARCH);
        var added := table.AddRoute(newEntry, now);
      }
    }

    /** The header of a new RREQ, under the next sequence number and request id. `t` is the purged table in
        which `known` was looked up. */
    method NewRequest(dst: Addr, known: Option<Entry>, ghost t: Table) returns (rreq: RreqHeader)
      requires Valid() && known == Lookup(t, dst)
      modifies this`seqNo, this`requestId
      ensures rreq == RequestHeader(old(State()), t, dst, c)
      ensures Valid() && seqNo == Next(old(seqNo)) && requestId == Next(old(requestId))
    {
      hide WithBit, Bit;
      rreq := RreqHeader(0, 0, 0, 0, dst, 0, me, 0);
      if known.Some? && known.value.validSeqNo {
        rreq := rreq.(dstSeqNo := known.value.seqNo).SetUnknownSeqno(false);
      } else {
        rreq := rreq.SetUnknownSeqno(true);
      }
      rreq := rreq.SetGratuitousRrep(c.gratuitousReply).SetDestinationOnly(c.destinationOnly);
      seqNo := Next(seqNo);
      requestId := Next(requestId);
      rreq := rreq.(originSeqNo := seqNo, requestID := requestId);
    }

    method SendRequest(dst: Addr, now: int)
      requires Valid()
      modifies this, table, idCache
      ensures Valid() && State() == Nodes.SendRequest(old(State()), dst, now, c)
    {
      hide RouteEntries.Purge, SearchTable, NextTtl, Nodes.ScheduleRreqRetry, RequestHeader, C.Remember;
      if rreqCount == c.rreqRateLimit {
        pending := pending + multiset{dst};
        return;
      }
      ghost var n := State();
      ghost var t := RouteEntries.Purge(table.entries, now, c.deletePeriod);
      rreqCount := Bump16(rreqCount);
      var ttl, known := GrowRing(dst, now);
      SameHeader(n, State(), t, dst);
      var rreq := NewRequest(dst, known, t);
      var duplicate := idCache.IsDuplicate(me, requestId, now);
      SendTo(Packet(Rreq(rreq), ttl % 0x100, Broadcast));
      assert State() == EmitRequest(n, dst, now, c);
      ScheduleRreqRetry(dst, now);
    }

    /** The header depends on the address and the counters only. */
    lemma SameHeader(n: Node, r: Node, t: Table, dst: Addr)
      requires n.me == r.me && n.seqNo == r.seqNo && n.requestId == r.requestId
      ensures RequestHeader(n, t, dst, c) == RequestHeader(r, t, dst, c)
    {
    }

    method ScheduleRreqRetry(dst: Addr, now: int)
      requires Valid()
      modifies this`timers, this`aborted, table
      ensures Valid() && State() == Nodes.ScheduleRreqRetry(old(State()), dst, now, c)
    {
      hide RouteEntries.Purge, Pow2;
      var rt := table.LookupRoute(dst, now);
      var e := rt.GetOr(DefaultEntry(now));
      timers := timers - {dst};
      if e.hops < c.netDiameter {
        timers := timers[dst := now + 2 * c.nodeTraversalTime * (e.hops + c.timeoutBuffer)];
      } else if e.reqCount == 0 {
        aborted := true;
      } else {
        var backoffFactor := e.reqCount - 1;
        timers := timers[dst := now + c.netTraversalTime * Pow2(backoffFactor)];
      }
    }

    /** The reverse route to the originator of a RREQ. */
    method UpdateReverseRoute(m: RreqHeader, src: Addr, now: int)
      requires Valid()
      modifies table
      ensures Valid() && State() == old(State()).(table := ReverseRoute(old(table.entries), m, src, now, c))
    {
      hide RouteEntries.Purge, SeqDiff;
      PurgedOnce(table.entries, now, c.deletePeriod);
      var minimal := 2 * c.netTraversalTime - 2 * m.hopCount * c.nodeTraversalTime;
      var toOrigin := table.LookupRoute(m.origin, now);
      if toOrigin.None? {
        var added := table.AddRoute(NewEntry(m.origin, true, m.originSeqNo, m.hopCount, src, minimal, true, now), now);
      } else {
        var e := toOrigin.value;
        if e.validSeqNo {
          if SeqDiff(m.originSeqNo, e.seqNo) > 0 {
            e := e.(seqNo := m.originSeqNo);
          }
        } else {
          e := e.(seqNo := m.originSeqNo);
        }
        e := e.(validSeqNo := true, nextHop := src, bound := true, hops := m.hopCount);
        e := e.(expire := now + Max(minimal, e.LifeTime(now)));
        var found := table.Update(e);
      }
    }

    /** The one-hop route to the node a RREQ came from. */
    method UpdateNeighborRoute(originSeqNo: U32, src: Addr, now: int)
      requires Valid()
      modifies table
      ensures Valid() && State() == old(State()).(table := NeighborRoute(old(table.entries), originSeqNo, src, now, c))
    {
      hide RouteEntries.Purge;
      PurgedOnce(table.entries, now, c.deletePeriod);
      var toNeighbor := table.LookupRoute(src, now);
      if toNeighbor.None? {
        var added := table.AddRoute(NewEntry(src, false, originSeqNo, 1, src, c.activeRouteTimeout, true, now), now);
      } else {
        var e := toNeighbor.value.(expire := now + c.activeRouteTimeout, validSeqNo := false, seqNo := originSeqNo);
        var found := table.Update(e.(flag := VALID, bound := true, hops := 1, nextHop := src));
      }
    }

    method RecvRequest(m: RreqHeader, ttl: U8, src: Addr, now: int)
      requires Valid()
      modifies this, table, idCache, nb
      ensures Valid() && State() == Nodes.RecvRequest(old(State()), m, ttl, src, now, c)
    {
      hide RouteEntries.Purge, ReverseRoute, NeighborRoute, NbUpdate, Nodes.AnswerOrRelay, C.Remember, C.Purge,
        C.Duplicate;
      ghost var n := State();
      PurgedOnce(table.entries, now, c.deletePeriod);
      var toPrev := table.LookupRoute(src, now);
      if toPrev.Some? && toPrev.value.blacklisted {
        return;
      }
      RememberDuplicate(idCache.idCache, m.origin, m.requestID, now, c.pathDiscoveryTime);
      var duplicate := idCache.IsDuplicate(m.origin, m.requestID, now);
      if duplicate {
        return;
      }
      var hop := Bump8(m.hopCount);
      UpdateReverseRoute(m.(hopCount := hop), src, now);
      UpdateNeighborRoute(m.originSeqNo, src, now);
      UpdateNeighbor(src, c.helloLifetime, now);
      assert State() == AcceptRequest(n, m, src, now, c);
      AnswerOrRelay(m.(hopCount := hop), ttl, src, now);
    }

    /** The second half of RecvRequest: a reply where this node can give one, else the RREQ goes on. */
    method AnswerOrRelay(m: RreqHeader, ttl: U8, src: Addr, now: int)
      requires Valid()
      modifies this, table
      ensures Valid() && State() == Nodes.AnswerOrRelay(old(State()), m, ttl, src, now, c)
    {
      hide RouteEntries.Purge, SeqDiff, Bit, WithBit, Nodes.SendReply, Nodes.SendReplyByIntermediateNode;
      PurgedOnce(table.entries, now, c.deletePeriod);
      if m.dst == me {
        var toOrigin := table.LookupRoute(m.origin, now);
        SendReply(m, toOrigin.GetOr(DefaultEntry(now)));
        return;
      }
      var rreq := m;
      var toDst := table.LookupRoute(m.dst, now);
      if toDst.Some? {
        var e := toDst.value;
        if e.nextHop == src {
          return;
        }
        if (m.UnknownSeqno() || SeqDiff(e.seqNo, m.dstSeqNo) >= 0) && e.validSeqNo {
          if !m.DestinationOnly() && e.flag == VALID {
            var toOrigin := table.LookupRoute(m.origin, now);
            SendReplyByIntermediateNode(e, toOrigin.GetOr(DefaultEntry(now)), m.GratuitousRrep(), now);
            return;
          }
          rreq := rreq.(dstSeqNo := e.seqNo).SetUnknownSeqno(false);
        }
      }
      if ttl < 2 {
        return;
      }
      SendTo(Packet(Rreq(rreq), ttl - 1, Broadcast));
    }

    method SendReply(m: RreqHeader, toOrigin: Entry)
      requires Valid()
      modifies this`seqNo, this`sent
      ensures Valid() && State() == Nodes.SendReply(old(State()), m, toOrigin, c)
      ensures old(sent) < sent && |sent| == |old(sent)| + 1
      ensures var p := sent[|old(sent)|];
              && p.msg.Rrep? && p.msg.rrep.dst == m.dst && p.msg.rrep.origin == toOrigin.dst
              && p.msg.rrep.hopCount == 0 && p.msg.rrep.dstSeqNo == seqNo
              && p.target == To(toOrigin.nextHop) && p.ttl == toOrigin.hops % 0x100
      ensures 0 <= SeqDiff(seqNo, old(seqNo)) <= 1
      ensures !m.UnknownSeqno() ==>
                (SeqDiff(seqNo, m.dstSeqNo) >= 0 <==> -HALF < SeqDiff(m.dstSeqNo, old(seqNo)) <= 1)
    {
      hide NewRrep, Bit, SeqDiff;
      HandlerEffects.AnswerIsCurrent(State(), m, toOrigin, c);
      if !m.UnknownSeqno() && m.dstSeqNo == Next(seqNo) {
        seqNo := Next(seqNo);
      }
      SendTo(Packet(Rrep(NewRrep(0, m.dst, seqNo, toOrigin.dst, c.myRouteTimeout)), toOrigin.hops % 0x100,
                    To(toOrigin.nextHop)));
    }

    method SendReplyByIntermediateNode(toDst: Entry, toOrigin: Entry, gratuitous: bool, now: int)
      requires Valid()
      modifies this`sent, table
      ensures Valid()
      ensures State() == Nodes.SendReplyByIntermediateNode(old(State()), toDst, toOrigin, gratuitous, now, c)
    {
      hide NewRrep, WithBit, RouteEntries.Update;
      var rrep := NewRrep(toDst.hops % 0x100, toDst.dst, toDst.seqNo, toOrigin.dst, toDst.LifeTime(now));
      rrep := rrep.SetAckRequired(toDst.hops == 1);
      var found := table.Update(toDst.InsertPrecursor(toOrigin.nextHop));
      found := table.Update(toOrigin.InsertPrecursor(toDst.nextHop));
      SendTo(Packet(Rrep(rrep), toOrigin.hops % 0x100, To(toOrigin.nextHop)));
      if gratuitous {
        SendTo(Packet(Rrep(NewRrep(toOrigin.hops % 0x100, toOrigin.dst, toOrigin.seqNo, toDst.dst,
                                   toOrigin.LifeTime(now))),
                      toDst.hops % 0x100, To(toDst.nextHop)));
      }
    }

    // ----------------------------------------------------------------------------- replies

    /** Installs the offered route where the rules of section 6.7 allow it. */
    method InstallRoute(m: RrepHeader, toDst: Option<Entry>, sender: Addr, now: int)
      requires Valid() && toDst == Lookup(table.entries, m.dst)
      requires RouteEntries.Purge(table.entries, now, c.deletePeriod) == table.entries
      modifies table
      ensures Valid() && State() == old(State()).(table := Nodes.InstallRoute(old(table.entries), m, sender, now, c))
    {
      hide RouteEntries.Purge, SeqDiff;
      var newEntry := Offered(m, sender, now);
      if toDst.Some? {
        var e, hop := toDst.value, Bump8(m.hopCount);
        if || !e.validSeqNo
           || SeqDiff(m.dstSeqNo, e.seqNo) > 0
           || (m.dstSeqNo == e.seqNo && e.flag != VALID)
           || (m.dstSeqNo == e.seqNo && hop < e.hops)
        {
          var found := table.Update(newEntry);
        }
      } else {
        var added := table.AddRoute(newEntry, now);
      }
    }

    method SendReplyAck(neighbor: Addr, now: int)
      requires Valid()
      modifies this`sent, table
      ensures Valid() && State() == Nodes.SendReplyAck(old(State()), neighbor, now, c)
    {
      hide RouteEntries.Purge;
      var toNeighbor := table.LookupRoute(neighbor, now);
      SendTo(Packet(RrepAck, 1, To(neighbor)));
    }

    method RecvReply(m: RrepHeader, ttl: U8, sender: Addr, now: int)
      requires Valid()
      modifies this, table, queue, nb
      ensures Valid() && State() == Nodes.RecvReply(old(State()), m, ttl, sender, now, c)
    {
      hide RouteEntries.Purge, Nodes.InstallRoute, Nodes.SendReplyAck, Nodes.FinishSearch, Nodes.RelayReply,
        Nodes.ProcessHello, Bit, WithBit;
      if m.dst == m.origin {
        ProcessHello(m, now);
        return;
      }
      ghost var n := State();
      InstallAfterPurge(table.entries, m, sender, now, c);
      PurgedOnce(table.entries, now, c.deletePeriod);
      var toDst := table.LookupRoute(m.dst, now);
      InstallRoute(m, toDst, sender, now);
      if m.AckRequired() {
        SendReplyAck(sender, now);
      }
      assert State() == TakeReply(n, m, sender, now, c);
      if m.origin == me {
        FinishSearch(m, toDst.Some? && toDst.value.flag == IN_SEARCH, sender, now);
        return;
      }
      RelayReply(m.(hopCount := Bump8(m.hopCount)).SetAckRequired(false), ttl, now);
    }

    /** The originator's branch of RecvReply. */
    method FinishSearch(m: RrepHeader, searching: bool, sender: Addr, now: int)
      requires Valid()
      modifies this`timers, this`forwarded, table, queue
      ensures Valid() && State() == Nodes.FinishSearch(old(State()), m, searching, sender, now, c)
    {
      hide RouteEntries.Purge, RouteEntries.Update, Nodes.SendPacketFromQueue;
      if searching {
        var found := table.Update(Offered(m, sender, now));
        timers := timers - {m.dst};
      }
      var toDst := table.LookupRoute(m.dst, now);
      SendPacketFromQueue(m.dst, toDst.GetOr(DefaultEntry(now)), now);
    }

    /** Everyone else's: the RREP goes on towards its origin. */
    method RelayReply(m: RrepHeader, ttl: U8, now: int)
      requires Valid()
      modifies this`sent, table
      ensures Valid() && State() == Nodes.RelayReply(old(State()), m, ttl, now, c)
    {
      hide RouteEntries.Purge, RouteEntries.Update, Nodes.NotePrecursors;
      var toOrigin := table.LookupRoute(m.origin, now);
      if toOrigin.None? || toOrigin.value.flag == IN_SEARCH {
        return;
      }
      var e := toOrigin.value;
      e := e.(expire := now + Max(c.activeRouteTimeout, e.LifeTime(now)));
      var found := table.Update(e);
      NotePrecursors(m.dst, e, now);
      if ttl < 2 {
        return;
      }
      SendTo(Packet(Rrep(m), ttl - 1, To(e.nextHop)));
    }

    method NotePrecursors(dst: Addr, toOrigin: Entry, now: int)
      requires Valid()
      modifies table
      ensures Valid()
      ensures State() == old(State()).(table := Nodes.NotePrecursors(old(table.entries), dst, toOrigin, now, c))
    {
      hide RouteEntries.Purge, RouteEntries.Update;
      var valid, toDst := table.LookupValidRoute(dst, now);
      if !valid {
        return;
      }
      var e := toDst.value;
      var found := table.Update(e.InsertPrecursor(toOrigin.nextHop));
      var viaDst := table.LookupRoute(e.nextHop, now);
      found := table.Update(viaDst.GetOr(DefaultEntry(now)).InsertPrecursor(toOrigin.nextHop));
      found := table.Update(toOrigin.InsertPrecursor(e.nextHop));
      var viaOrigin := table.LookupRoute(toOrigin.nextHop, now);
      found := table.Update(viaOrigin.GetOr(DefaultEntry(now)).InsertPrecursor(e.nextHop));
    }

    method RecvReplyAck(neighbor: Addr, now: int)
      requires Valid()
      modifies table
      ensures Valid() && State() == Nodes.RecvReplyAck(old(State()), neighbor, now, c)
    {
      hide RouteEntries.Purge, RouteEntries.Update;
      var rt := table.LookupRoute(neighbor, now);
      if rt.Some? {
        var found := table.Update(rt.value.(flag := VALID));
      }
    }

    method ProcessHello(m: RrepHeader, now: int)
      requires Valid()
      modifies this`sent, table, nb
      ensures Valid() && State() == Nodes.ProcessHello(old(State()), m, now, c)
    {
      hide RouteEntries.Purge, NbUpdate;
      PurgedOnce(table.entries, now, c.deletePeriod);
      var toNeighbor := table.LookupRoute(m.dst, now);
      if toNeighbor.None? {
        var added := table.AddRoute(NewEntry(m.dst, true, m.dstSeqNo, 1, m.dst, m.LifeTime(), true, now), now);
      } else {
        var e := toNeighbor.value;
        e := e.(expire := now + Max(c.helloLifetime, e.LifeTime(now)), seqNo := m.dstSeqNo, validSeqNo := true);
        var found := table.Update(e.(flag := VALID, bound := true, hops := 1, nextHop := m.dst));
      }
      if c.enableHello {
        UpdateNeighbor(m.dst, c.helloLifetime, now);
      }
    }

    // ----------------------------------------------------------------------------- waiting packets

    /** Takes the first packet for `dst` out of the queue. */
    method NextPacket(dst: Addr, now: int) returns (entry: Option<Q.QueueEntry>)
      requires Valid()
      modifies queue
      ensures Valid() && State() == old(State()).(queue := Q.Dequeue(old(queue.State()), dst, now))
      ensures entry == Dequeued(old(queue.State()), dst, now)
      ensures |queue.queue| <= old(|queue.queue|) && (entry.Some? ==> |queue.queue| < old(|queue.queue|))
    {
      hide Q.Dequeue, Q.Purge, Q.FirstFor;
      DequeueShrinks(queue.State(), dst, now);
      entry := queue.Dequeue(dst, now);
    }

    /** Forwards the packets for `dst` one by one, up to one that is tied to another interface. */
    method SendPacketFromQueue(dst: Addr, route: Entry, now: int)
      requires Valid()
      modifies this`forwarded, queue
      ensures Valid() && State() == Nodes.SendPacketFromQueue(old(State()), dst, route, now)
    {
      hide Nodes.SendPacketFromQueue, Q.Dequeue, Dequeued;
      ghost var result := Nodes.SendPacketFromQueue(State(), dst, route, now);
      SendUnfolds(State(), dst, route, now);
      var entry := NextPacket(dst, now);
      while entry.Some?
        invariant Valid() && result == AfterDequeue(State(), entry, dst, route, now)
        decreases |queue.queue|, if entry.Some? then 1 else 0
      {
        var device := if route.bound then iface else -1;
        if entry.value.oif != -1 && entry.value.oif != device {
          return;
        }
        forwarded := forwarded + [entry.value];
        SendUnfolds(State(), dst, route, now);
        entry := NextPacket(dst, now);
      }
    }

    /** A data packet without a route waits in the queue, and starts a search unless one is on. */
    method DeferredRouteOutput(e: Q.QueueEntry, now: int)
      requires Valid()
      modifies this, table, queue, idCache
      ensures Valid() && State() == Nodes.DeferredRouteOutput(old(State()), e, now, c)
    {
      hide RouteEntries.Purge, Nodes.SendRequest, Q.Enqueue, Q.Accepts;
      var queued := queue.Enqueue(e, now);
      if queued {
        var rt := table.LookupRoute(e.dst, now);
        if rt.None? || rt.value.flag != IN_SEARCH {
          SendRequest(e.dst, now);
        }
      }
    }

    /** The timer of `dst` has fired. */
    method RouteRequestTimerExpire(dst: Addr, now: int)
      requires Valid()
      modifies this, table, queue, idCache
      ensures Valid() && State() == Nodes.RouteRequestTimerExpire(old(State()), dst, now, c)
    {
      hide RouteEntries.Purge, Nodes.SendRequest, Nodes.SendPacketFromQueue, Nodes.GiveUp;
      timers := timers - {dst};
      var valid, toDst := table.LookupValidRoute(dst, now);
      var e := toDst.GetOr(DefaultEntry(now));
      if valid {
        SendPacketFromQueue(dst, e, now);
        return;
      }
      if e.reqCount == c.rreqRetries {
        GiveUp(dst, now);
        return;
      }
      if e.flag == IN_SEARCH {
        SendRequest(dst, now);
      } else {
        GiveUp(dst, now);
      }
    }

    method GiveUp(dst: Addr, now: int)
      requires Valid()
      modifies this`timers, table, queue
      ensures Valid() && State() == Nodes.GiveUp(old(State()), dst, now, c)
    {
      hide RouteEntries.DeleteRoute, Q.DropPacketWithDst;
      timers := timers - {dst};
      var erased := table.DeleteRoute(dst, now);
      queue.DropPacketWithDst(dst, now);
    }

    // ----------------------------------------------------------------------------- dispatch

    /** A message from `sender`, with the TTL of its packet. */
    method RecvAodv(p: Packet, sender: Addr, now: int)
      requires Valid() && (p.msg.Rerr? ==> |p.msg.rerr.dests| < 0x100)
      modifies this, table, queue, idCache, nb
      ensures Valid() && State() == Nodes.RecvAodv(old(State()), p, sender, now, c)
    {
      hide Nodes.UpdateRouteToNeighbor, Nodes.RecvRequest, Nodes.RecvReply, Nodes.RecvError, Nodes.RecvReplyAck;
      UpdateRouteToNeighbor(sender, now);
      match p.msg
      case Rreq(m) => RecvRequest(m, p.ttl, sender, now);
      case Rrep(m) => RecvReply(m, p.ttl, sender, now);
      case Rerr(m) => RecvError(m, sender, now);
      case RrepAck => RecvReplyAck(sender, now);
    }

    method SendHello()
      requires Valid()
      modifies this`sent
      ensures Valid() && State() == Nodes.SendHello(old(State()), c)
    {
      SendTo(Packet(Rrep(NewRrep(0, me, seqNo, me, c.helloLifetime)), 1, Broadcast));
    }

    /** Once a second the requests are counted afresh. */
    method RreqRateLimitTimerExpire()
      requires Valid()
      modifies this`rreqCount
      ensures Valid() && State() == old(State()).(rreqCount := 0)
    {
      rreqCount := 0;
    }

    /** Whatever happens to the node: the object steps exactly as the nodes of the network theorems do. */
    method Step(ev: Event, now: int)
      requires Valid() && (ev.Receive? && ev.packet.msg.Rerr? ==> |ev.packet.msg.rerr.dests| < 0x100)
      modifies this, table, queue, idCache, nb
      ensures Valid() && State() == Handle(old(State()), ev, now, c)
    {
      hide Nodes.RecvAodv, Nodes.DeferredRouteOutput, Nodes.RouteRequestTimerExpire, Nodes.SendRequest, NbPurge,
        Nodes.ProcessTxError, Nodes.UpdateRouteLifeTime, Nodes.UpdateRouteToNeighbor, NbUpdate, Nodes.SendHello;
      match ev
      case Receive(p, sender) => RecvAodv(p, sender, now);
      case Output(e) => DeferredRouteOutput(e, now);
      case RreqTimer(dst) => RouteRequestTimerExpire(dst, now);
      case Deferred(dst) =>
        pending := pending - multiset{dst};
        SendRequest(dst, now);
      case Unrecognized(sender) => UpdateRouteToNeighbor(sender, now);
      case RateTimer => RreqRateLimitTimerExpire();
      case NeighborTimer => PurgeNeighbors(now);
      case LinkFailure(addrs) => ProcessTxError(addrs, now);
      case UseRoute(addr) => var updated := UpdateRouteLifeTime(addr, c.activeRouteTimeout, now);
      case UseNeighbor(addr) => UpdateNeighbor(addr, c.activeRouteTimeout, now);
      case Hello => SendHello();
    }
  }

  lemma InstallAfterPurge(t: Table, m: RrepHeader, sender: Addr, now: int, c: Config)
    requires c.Sane()
    ensures Nodes.InstallRoute(RouteEntries.Purge(t, now, c.deletePeriod), m, sender, now, c)
            == Nodes.InstallRoute(t, m, sender, now, c)
  {
    hide RouteEntries.Purge;
    PurgedOnce(t, now, c.deletePeriod);
  }

  function Dequeued(q: Q.Queue, dst: Addr, now: int): Option<Q.QueueEntry> {
    var w := Q.Purge(q, now).waiting;
    if Q.FirstFor(w, dst) < |w| then Some(w[Q.FirstFor(w, dst)]) else None
  }

  /** What SendPacketFromQueue does once Dequeue has returned `entry`. */
  function AfterDequeue(n: Node, entry: Option<Q.QueueEntry>, dst: Addr, route: Entry, now: int): Node {
    if entry.None? || Mismatch(entry.value, DeviceOf(n, route)) then n
    else Nodes.SendPacketFromQueue(n.(forwarded := n.forwarded + [entry.value]), dst, route, now)
  }

  /** One turn of the loop in SendPacketFromQueue. */
  lemma SendUnfolds(n: Node, dst: Addr, route: Entry, now: int)
    ensures Nodes.SendPacketFromQueue(n, dst, route, now)
         == AfterDequeue(n.(queue := Q.Dequeue(n.queue, dst, now)), Dequeued(n.queue, dst, now), dst, route, now)
  {
  }

  lemma DequeueShrinks(q: Q.Queue, dst: Addr, now: int)
    ensures |Q.Dequeue(q, dst, now).waiting| <= |q.waiting|
    ensures Dequeued(q, dst, now).Some? ==> |Q.Dequeue(q, dst, now).waiting| < |q.waiting|
  {
  }

  lemma RememberDuplicate(cache: C.Cache, addr: Addr, id: U32, now: int, lifetime: int)
    ensures C.Duplicate(cache, addr, id, now) ==> C.Remember(cache, addr, id, now, lifetime) == C.Purge(cache, now)
  {
  }

  /** LinkBreak in two steps. */
  lemma LinkBreakIs(n: Node, nextHop: Addr, now: int, c: Config)
    ensures var t := RouteEntries.Purge(n.table, now, c.deletePeriod);
            LinkBreak(n, nextHop, now, c)
            == if nextHop !in t then n.(table := t)
               else var lost := Through(t, nextHop)[nextHop := t[nextHop].seqNo];
                    n.(table := InvalidateRoutesWithDst(t, lost.Keys, now, c.deletePeriod),
                       sent := n.sent + RerrMessage(t, EMPTY_RERR.(dests := lost), Precursors(t, lost.Keys)))
  {
    hide RouteEntries.Purge, Through, InvalidateRoutesWithDst, RerrMessage, Precursors;
  }

  lemma ThroughKnown(t: Table, nextHop: Addr)
    ensures Through(t, nextHop).Keys <= t.Keys
  {
  }

  lemma AddedLast(unreachable: map<Addr, U32>, nextHop: Addr, seqNo: U32)
    ensures unreachable + EMPTY_RERR.dests[nextHop := seqNo] == unreachable[nextHop := seqNo]
    ensures unreachable.Keys + {nextHop} == unreachable[nextHop := seqNo].Keys
  {
  }

  lemma PrecursorsOfBoth(t: Table, dsts: set<Addr>, k: Addr)
    requires k in t
    ensures Elements(t[k].precursors) + Precursors(t, dsts) == Precursors(t, dsts + {k})
    ensures Elements([]) + Elements(t[k].precursors) == Elements(t[k].precursors)
  {
    PrecursorsAdd(t, dsts, k);
  }

  /** The destinations of a RERR that had `first` before those of `done` were added from `more`. */
  function Listed(more: map<Addr, U32>, first: map<Addr, U32>, done: set<Addr>): map<Addr, U32> {
    map k | k in more + first && (k in first || k in done) :: (more + first)[k]
  }

  lemma NothingListed(more: map<Addr, U32>, first: map<Addr, U32>)
    ensures Listed(more, first, {}) == first
  {
  }

  lemma AllListed(more: map<Addr, U32>, first: map<Addr, U32>)
    ensures Listed(more, first, more.Keys) == more + first
  {
  }

  lemma ListedStep(more: map<Addr, U32>, first: map<Addr, U32>, done: set<Addr>, k: Addr)
    requires k in more
    ensures var l := Listed(more, first, done);
            && Listed(more, first, done + {k}) == (if k in l then l else l[k := more[k]])
            && (k !in l && |more + first| <= 255 ==> |l| % 0x100 < 255)
  {
    ListedSize(more, first, done, k);
  }

  lemma ListedSize(more: map<Addr, U32>, first: map<Addr, U32>, done: set<Addr>, k: Addr)
    requires k in more
    ensures k !in Listed(more, first, done) && |more + first| <= 255 ==> |Listed(more, first, done)| % 0x100 < 255
  {
    var l := Listed(more, first, done);
    if k !in l && |more + first| <= 255 {
      OneFree(l, more + first, k);
      SmallCount(|l|);
    }
  }

  lemma SmallCount(n: nat)
    requires n < 255
    ensures n % 0x100 < 255
  {
  }

  lemma NothingToSay(t: Table, h: RerrHeader, precursors: set<Addr>)
    ensures h.DestCount() == 0 ==> RerrMessage(t, h, precursors) == []
  {
  }

  lemma Fits(a: map<Addr, U32>, b: map<Addr, U32>)
    requires a.Keys <= b.Keys
    ensures |a| <= |b|
  {
    assert b.Keys == a.Keys + (b.Keys - a.Keys);
    assert |a| == |a.Keys| && |b| == |b.Keys|;
  }

  lemma OneFree(a: map<Addr, U32>, b: map<Addr, U32>, k: Addr)
    requires a.Keys <= b.Keys && k in b && k !in a
    ensures |a| < |b|
  {
    assert b.Keys == a.Keys + (b.Keys - a.Keys) && k in b.Keys - a.Keys;
    assert |a| == |a.Keys| && |b| == |b.Keys|;
  }

  lemma Several(s: seq<Addr>)
    requires NoDuplicates(s) && |s| >= 2
    ensures forall p :: p in s ==> Elements(s) != {p}
  {
    assert s[0] in Elements(s) && s[1] in Elements(s);
  }
}
