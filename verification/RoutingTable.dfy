/** The routing table as the object the protocol updates in place. Each method is proved against the
    value-level operation of RouteEntries or MultipathRoutes. */
module RoutingTables {
  import opened Basics
  import opened RouteEntries
  import M = MultipathRoutes

  class RoutingTable {
    var entries: Table
    var multipath: M.MultipathTable
    var badLinkLifetime: int

    constructor (badLinkLifetime: int)
      ensures entries == map[] && multipath == map[] && this.badLinkLifetime == badLinkLifetime
    {
      entries, multipath := map[], map[];
      this.badLinkLifetime := badLinkLifetime;
    }

    /** What a purge leaves of the multipath table: it is purged only when there is an entry to walk over. */
    static function MultipathAfter(entries: Table, multipath: M.MultipathTable, now: int): M.MultipathTable {
      if entries == map[] then multipath else M.Purged(multipath, now)
    }

    /** Walks the map once, erasing or invalidating entries as it goes. The multipath table is purged
        only when there was an entry to walk over. */
    method Purge(now: int)
      modifies this`entries, this`multipath
      ensures entries == RouteEntries.Purge(old(entries), now, badLinkLifetime)
      ensures multipath == MultipathAfter(old(entries), old(multipath), now)
      ensures old(entries) == map[] ==> multipath == old(multipath)
      ensures old(entries) != map[] ==> multipath == M.Purged(old(multipath), now)
    {
      if entries == map[] {
        return;
      }
      var todo := entries.Keys;
      while todo != {}
        invariant todo <= entries.Keys <= old(entries).Keys
        invariant forall k :: k in todo ==> entries[k] == old(entries)[k]
        invariant forall k :: k in old(entries) && k !in todo ==>
                                (k in entries <==> Aged(old(entries)[k], now, badLinkLifetime).Some?)
        invariant forall k :: k in entries && k !in todo ==>
                                entries[k] == Aged(old(entries)[k], now, badLinkLifetime).value
        invariant multipath == old(multipath)
      {
        var k :| k in todo;
        if entries[k].LifeTime(now) < 0 {
          if entries[k].flag == INVALID {
            entries := entries - {k};
          } else if entries[k].flag == VALID {
            entries := entries[k := entries[k].Invalidate(now, badLinkLifetime)];
          }
        }
        todo := todo - {k};
      }
      PurgeMultipathRoutes(now);
    }

    method LookupRoute(id: Addr, now: int) returns (rt: Option<Entry>)
      modifies this`entries, this`multipath
      ensures multipath == MultipathAfter(old(entries), old(multipath), now)
      ensures entries == RouteEntries.Purge(old(entries), now, badLinkLifetime)
      ensures rt == Lookup(entries, id)
    {
      Purge(now);
      rt := if id in entries then Some(entries[id]) else None;
    }

    method LookupValidRoute(id: Addr, now: int) returns (valid: bool, rt: Option<Entry>)
      modifies this`entries, this`multipath
      ensures multipath == MultipathAfter(old(entries), old(multipath), now)
      ensures entries == RouteEntries.Purge(old(entries), now, badLinkLifetime)
      ensures rt == Lookup(entries, id)
      ensures valid <==> rt.Some? && rt.value.flag == VALID
      ensures valid <==> id in old(entries) && old(entries)[id].flag == VALID && !old(entries)[id].Expired(now)
    {
      rt := LookupRoute(id, now);
      valid := rt.Some? && rt.value.flag == VALID;
    }

    method DeleteRoute(dst: Addr, now: int) returns (erased: bool)
      modifies this`entries, this`multipath
      ensures multipath == MultipathAfter(old(entries), old(multipath), now)
      ensures entries == RouteEntries.DeleteRoute(old(entries), dst, now, badLinkLifetime)
      ensures erased <==> dst in RouteEntries.Purge(old(entries), now, badLinkLifetime)
    {
      Purge(now);
      erased := dst in entries;
      entries := entries - {dst};
    }

    method AddRoute(rt: Entry, now: int) returns (added: bool)
      modifies this`entries, this`multipath
      ensures multipath == MultipathAfter(old(entries), old(multipath), now)
      ensures entries == RouteEntries.AddRoute(old(entries), rt, now, badLinkLifetime)
      ensures added <==> rt.dst !in RouteEntries.Purge(old(entries), now, badLinkLifetime)
    {
      Purge(now);
      added := rt.dst !in entries;
      if added {
        entries := entries[rt.dst := if rt.flag != IN_SEARCH then rt.(reqCount := 0) else rt];
      }
    }

    method Update(rt: Entry) returns (found: bool)
      modifies this`entries
      ensures entries == RouteEntries.Update(old(entries), rt)
      ensures found <==> rt.dst in old(entries)
    {
      found := rt.dst in entries;
      if found {
        entries := entries[rt.dst := rt];
        if entries[rt.dst].flag != IN_SEARCH {
          entries := entries[rt.dst := entries[rt.dst].(reqCount := 0)];
        }
      }
    }

    method SetEntryState(id: Addr, state: Flag) returns (found: bool)
      modifies this`entries
      ensures entries == RouteEntries.SetEntryState(old(entries), id, state)
      ensures found <==> id in old(entries)
    {
      found := id in entries;
      if found {
        entries := entries[id := entries[id].(flag := state, reqCount := 0)];
      }
    }

    method MarkLinkAsUnidirectional(neighbor: Addr, blacklistTimeout: int) returns (found: bool)
      modifies this`entries
      ensures entries == MarkUnidirectional(old(entries), neighbor, blacklistTimeout)
      ensures found <==> neighbor in old(entries)
    {
      found := neighbor in entries;
      if found {
        entries := entries[neighbor := entries[neighbor].(blacklisted := true, blackListTimeout := blacklistTimeout,
                                                          reqCount := 0)];
      }
    }

    method GetListOfDestinationWithNextHop(nextHop: Addr, now: int) returns (unreachable: map<Addr, U32>)
      modifies this`entries, this`multipath
      ensures multipath == MultipathAfter(old(entries), old(multipath), now)
      ensures entries == RouteEntries.Purge(old(entries), now, badLinkLifetime)
      ensures unreachable == Through(entries, nextHop)
      ensures forall k :: k in unreachable <==> k in entries && entries[k].nextHop == nextHop
      ensures forall k :: k in unreachable ==> unreachable[k] == entries[k].seqNo
    {
      Purge(now);
      unreachable := map[];
      var todo := entries.Keys;
      while todo != {}
        invariant todo <= entries.Keys
        invariant multipath == MultipathAfter(old(entries), old(multipath), now)
        invariant unreachable == map k | k in entries && entries[k].nextHop == nextHop && k !in todo :: entries[k].seqNo
      {
        var k :| k in todo;
        if entries[k].nextHop == nextHop {
          unreachable := unreachable[k := entries[k].seqNo];
        }
        todo := todo - {k};
      }
    }

    method InvalidateRoutesWithDst(unreachable: map<Addr, U32>, now: int)
      modifies this`entries, this`multipath
      ensures multipath == MultipathAfter(old(entries), old(multipath), now)
      ensures entries == RouteEntries.InvalidateRoutesWithDst(old(entries), unreachable.Keys, now, badLinkLifetime)
    {
      Purge(now);
      ghost var purged := entries;
      var todo := entries.Keys;
      while todo != {}
        invariant todo <= entries.Keys == purged.Keys
        invariant multipath == MultipathAfter(old(entries), old(multipath), now)
        invariant forall k :: k in todo ==> entries[k] == purged[k]
        invariant forall k :: k in purged && k !in todo ==>
                    entries[k] == Invalidated(purged, unreachable.Keys, now, badLinkLifetime)[k]
      {
        var k :| k in todo;
        if k in unreachable && entries[k].flag == VALID {
          entries := entries[k := entries[k].Invalidate(now, badLinkLifetime)];
        }
        todo := todo - {k};
      }
    }

    /** Erases the entries that carry the interface. */
    method DeleteAllRoutesFromInterface(own: bool)
      modifies this`entries
      ensures entries == RouteEntries.DeleteAllRoutesFromInterface(old(entries), own)
    {
      if entries == map[] {
        return;
      }
      var todo := entries.Keys;
      while todo != {}
        invariant todo <= entries.Keys <= old(entries).Keys
        invariant forall k :: k in entries ==> entries[k] == old(entries)[k]
        invariant forall k :: k in old(entries) && k !in todo ==> (k in entries <==> old(entries)[k].bound != own)
      {
        var k :| k in todo;
        if entries[k].bound == own {
          entries := entries - {k};
        }
        todo := todo - {k};
      }
    }

    method Clear()
      modifies this`entries
      ensures entries == map[]
    {
      entries := map[];
    }

    // ------------------------------------------------------------------------------- multipath

    method AddMultipathRoute(dst: Addr, nextHop: Addr, hopCount: U32, lifetime: int, now: int)
      modifies this`multipath
      ensures multipath == M.Step(old(multipath), M.Add(dst, nextHop, hopCount, lifetime), now)
    {
      var paths := AddPath(if dst in multipath then multipath[dst] else [], nextHop, hopCount, lifetime, now);
      multipath := multipath[dst := paths];
    }

    method RemoveMultipathRoute(dst: Addr, nextHop: Addr, now: int) returns (known: bool)
      modifies this`multipath
      ensures multipath == M.Step(old(multipath), M.Remove(dst, nextHop), now)
      ensures known <==> dst in old(multipath)
    {
      known := dst in multipath;
      if known {
        var rest := Keep(multipath[dst], M.NotVia(nextHop));
        rest := Keep(rest, M.IsLive(now));
        if rest == [] {
          multipath := multipath - {dst};
        } else {
          multipath := multipath[dst := rest];
        }
      }
    }

    method GetAllMultipathRoutes(dst: Addr, now: int) returns (paths: M.Paths)
      modifies this`multipath
      ensures multipath == M.Step(old(multipath), M.GetAll(dst), now)
      ensures paths == M.Live(M.At(old(multipath), dst), now)
    {
      paths := [];
      if dst in multipath {
        paths := Keep(multipath[dst], M.IsLive(now));
        multipath := multipath[dst := paths];
      }
    }

    method HasMultipathRoute(dst: Addr, now: int) returns (has: bool)
      modifies this`multipath
      ensures multipath == M.Step(old(multipath), M.Has(dst), now)
      ensures has <==> exists p :: p in M.At(old(multipath), dst) && p.expiry > now
    {
      var paths := GetAllMultipathRoutes(dst, now);
      has := paths != [];
      InFilter(M.At(old(multipath), dst), M.IsLive(now));
      assert has ==> paths[0] in paths;
    }

    method GetBestMultipathRoute(dst: Addr, now: int) returns (best: Option<M.Path>)
      modifies this`multipath
      ensures multipath == M.Step(old(multipath), M.Best(dst), now)
      ensures best.None? <==> M.Live(M.At(old(multipath), dst), now) == []
      ensures best.Some? ==> exists i: nat :: M.FirstBest(M.Live(M.At(old(multipath), dst), now), i)
                                              && best.value == M.Live(M.At(old(multipath), dst), now)[i]
    {
      var paths := GetAllMultipathRoutes(dst, now);
      if paths == [] {
        return None;
      }
      var i := MinElement(paths);
      best := Some(paths[i]);
    }

    method PurgeMultipathRoutes(now: int)
      modifies this`multipath
      ensures multipath == M.Purged(old(multipath), now)
    {
      var todo := multipath.Keys;
      while todo != {}
        invariant todo <= multipath.Keys <= old(multipath).Keys
        invariant forall d :: d in todo ==> multipath[d] == old(multipath)[d]
        invariant forall d :: d in old(multipath) && d !in todo ==>
                                (d in multipath <==> M.Live(old(multipath)[d], now) != [])
        invariant forall d :: d in multipath && d !in todo ==> multipath[d] == M.Live(old(multipath)[d], now)
      {
        var d :| d in todo;
        var live := Keep(multipath[d], M.IsLive(now));
        if live == [] {
          multipath := multipath - {d};
        } else {
          multipath := multipath[d := live];
        }
        todo := todo - {d};
      }
    }

    /** Drops the expired paths, then updates the path through `nextHop` or appends a new one. */
    static method AddPath(paths: M.Paths, nextHop: Addr, hopCount: U32, lifetime: int, now: int)
      returns (r: M.Paths)
      ensures r == M.AddPath(paths, nextHop, hopCount, lifetime, now)
    {
      var live := Keep(paths, M.IsLive(now));
      var path := M.Path(nextHop, hopCount, now + lifetime);
      var i := 0;
      while i < |live|
        invariant 0 <= i <= |live|
        invariant forall j :: 0 <= j < i ==> live[j].nextHop != nextHop
      {
        if live[i].nextHop == nextHop {
          M.PutAt(live, path, i);
          return live[i := path];
        }
        i := i + 1;
      }
      M.PutAt(live, path, i);
      r := live + [path];
    }

    /** std::remove_if and erase. */
    static method Keep(paths: M.Paths, keep: M.Path -> bool) returns (r: M.Paths)
      ensures r == Filter(paths, keep)
    {
      r := [];
      for i := 0 to |paths|
        invariant r == Filter(paths[..i], keep)
      {
        assert paths[..i + 1] == paths[..i] + [paths[i]];
        FilterAppend(paths[..i], [paths[i]], keep);
        if keep(paths[i]) {
          r := r + [paths[i]];
        }
      }
      assert paths[..|paths|] == paths;
    }

    /** std::min_element by hop count. */
    static method MinElement(paths: M.Paths) returns (best: nat)
      requires paths != []
      ensures M.FirstBest(paths, best)
    {
      best := 0;
      for i := 1 to |paths|
        invariant best < i
        invariant forall j :: 0 <= j < i ==> paths[best].hopCount <= paths[j].hopCount
        invariant forall j :: 0 <= j < best ==> paths[best].hopCount < paths[j].hopCount
      {
        if paths[i].hopCount < paths[best].hopCount {
          best := i;
        }
      }
    }
  }
}
