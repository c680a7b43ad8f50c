/** The cache of request ids already seen, and the history it stands for. */
module IdCaches {
  import opened Basics

  /** An id is unique in the context of one address. */
  datatype UniqueId = UniqueId(context: Addr, id: U32, expire: int)

  type Cache = seq<UniqueId>

  function Current(now: int): UniqueId -> bool {
    (u: UniqueId) => u.expire >= now
  }

  function Purge(c: Cache, now: int): Cache {
    Filter(c, Current(now))
  }

  predicate Holds(c: Cache, addr: Addr, id: U32) {
    exists i :: 0 <= i < |c| && c[i].context == addr && c[i].id == id
  }

  /** The answer of IsDuplicate. */
  predicate Duplicate(c: Cache, addr: Addr, id: U32, now: int) {
    Holds(Purge(c, now), addr, id)
  }

  /** The cache IsDuplicate leaves behind. */
  function Remember(c: Cache, addr: Addr, id: U32, now: int, lifetime: int): Cache {
    var p := Purge(c, now);
    if Holds(p, addr, id) then p else p + [UniqueId(addr, id, now + lifetime)]
  }

  /** A purge keeps exactly the records whose time has not passed; a key that is remembered is there from then
      on with the lifetime of the call, unless it was there already, and nothing else is new. */
  lemma RemembersExactly(c: Cache, addr: Addr, id: U32, now: int, lifetime: int, u: UniqueId)
    ensures u in Purge(c, now) <==> u in c && u.expire >= now
    ensures u in Remember(c, addr, id, now, lifetime)
       <==> (u in c && u.expire >= now)
            || (!Duplicate(c, addr, id, now) && u == UniqueId(addr, id, now + lifetime))
  {
    InFilter(c, Current(now));
  }

  // ------------------------------------------------------------------------------- history

  /** One call of IsDuplicate, with the clock and the lifetime set at that moment. */
  datatype Call = Call(addr: Addr, id: U32, now: int, lifetime: int)

  function After(h: seq<Call>): Cache {
    if h == [] then []
    else
      var c := h[|h| - 1];
      Remember(After(h[..|h| - 1]), c.addr, c.id, c.now, c.lifetime)
  }

  /** What call number `i` of the history answered. */
  predicate Answer(h: seq<Call>, i: nat)
    requires i < |h|
  {
    Duplicate(After(h[..i]), h[i].addr, h[i].id, h[i].now)
  }

  predicate Monotone(h: seq<Call>) {
    forall i, j :: 0 <= i < j < |h| ==> h[i].now <= h[j].now
  }

  /** What a call that answers false puts into the cache. */
  function Record(c: Call): UniqueId {
    UniqueId(c.addr, c.id, c.now + c.lifetime)
  }

  /** Some call of the history answered false and left the record `u`. */
  ghost predicate Recorded(h: seq<Call>, u: UniqueId) {
    exists j: nat :: j < |h| && LeftBy(h, j, u)
  }

  lemma InRemember(c: Cache, call: Call, u: UniqueId)
    requires u.expire >= call.now
    ensures u in Remember(c, call.addr, call.id, call.now, call.lifetime)
       <==> u in c || (!Duplicate(c, call.addr, call.id, call.now) && u == Record(call))
  {
    InFilter(c, Current(call.now));
  }

  lemma PrefixAnswers(h: seq<Call>, n: nat, j: nat)
    requires j < n <= |h|
    ensures Answer(h[..n], j) == Answer(h, j)
  {
    assert h[..n][..j] == h[..j];
  }

  /** The `j`-th call answered false and left the record `u`. */
  ghost predicate LeftBy(h: seq<Call>, j: nat, u: UniqueId)
    requires j < |h|
  {
    !Answer(h, j) && Record(h[j]) == u
  }

  lemma LeftByPrefix(h: seq<Call>, n: nat, j: nat, u: UniqueId)
    requires j < n <= |h|
    ensures LeftBy(h[..n], j, u) == LeftBy(h, j, u)
  {
    PrefixAnswers(h, n, j);
  }

  lemma RecordedSnoc(h: seq<Call>, u: UniqueId)
    requires h != []
    ensures Recorded(h, u)
       <==> Recorded(h[..|h| - 1], u) || (!Answer(h, |h| - 1) && u == Record(h[|h| - 1]))
  {
    hide Answer, Record;
    var n := |h| - 1;
    assert LeftBy(h, n, u) <==> !Answer(h, n) && u == Record(h[n]);
    if Recorded(h[..n], u) {
      var j: nat :| j < |h[..n]| && LeftBy(h[..n], j, u);
      LeftByPrefix(h, n, j, u);
    }
    if Recorded(h, u) && !LeftBy(h, n, u) {
      var j: nat :| j < |h| && LeftBy(h, j, u);
      LeftByPrefix(h, n, j, u);
    }
  }

  /** As long as a record has not expired, it is in the cache exactly when some call left it there. */
  lemma {:induction false} CacheIsHistory(h: seq<Call>, u: UniqueId)
    requires Monotone(h) && (h != [] ==> h[|h| - 1].now <= u.expire)
    ensures u in After(h) <==> Recorded(h, u)
  {
    if h != [] {
      var init := h[..|h| - 1];
      assert forall i :: 0 <= i < |init| ==> init[i] == h[i];
      CacheIsHistory(init, u);
      RecordedSnoc(h, u);
      InRemember(After(init), h[|h| - 1], u);
    }
  }

  /** A key is held after a purge exactly when an unexpired record of it is in the cache. */
  lemma HoldsAfterPurge(c: Cache, addr: Addr, id: U32, now: int)
    ensures Duplicate(c, addr, id, now)
       <==> exists u :: u in c && u.context == addr && u.id == id && u.expire >= now
  {
    InFilter(c, Current(now));
    var p := Purge(c, now);
    if i :| 0 <= i < |p| && p[i].context == addr && p[i].id == id {
      assert p[i] in p;
    }
  }

  /** IsDuplicate answers true exactly when an earlier call for the same key answered false and the
      lifetime set at that call has not run out. */
  lemma DuplicateIffRecorded(h: seq<Call>, i: nat)
    requires Monotone(h) && i < |h|
    ensures Answer(h, i)
       <==> exists j: nat :: j < i && !Answer(h, j) && h[j].addr == h[i].addr && h[j].id == h[i].id
                             && h[j].now + h[j].lifetime >= h[i].now
  {
    var past, c := h[..i], h[i];
    assert forall k :: 0 <= k < |past| ==> past[k] == h[k];
    HoldsAfterPurge(After(past), c.addr, c.id, c.now);
    if u :| u in After(past) && u.context == c.addr && u.id == c.id && u.expire >= c.now {
      CacheIsHistory(past, u);
      var j: nat :| j < |past| && LeftBy(past, j, u);
      PrefixAnswers(h, i, j);
      assert !Answer(h, j) && h[j].addr == c.addr;
    }
    if j: nat :| j < i && !Answer(h, j) && h[j].addr == c.addr && h[j].id == c.id
                 && h[j].now + h[j].lifetime >= c.now {
      PrefixAnswers(h, i, j);
      assert LeftBy(past, j, Record(h[j]));
      CacheIsHistory(past, Record(h[j]));
    }
  }

  /** Two false answers for one key are further apart than the lifetime set at the first. */
  lemma FalseAnswersFarApart(h: seq<Call>, i: nat, j: nat)
    requires Monotone(h) && j < i < |h| && h[i].addr == h[j].addr && h[i].id == h[j].id
    requires !Answer(h, i) && !Answer(h, j)
    ensures h[i].now > h[j].now + h[j].lifetime
  {
    DuplicateIffRecorded(h, i);
  }

  ghost predicate UniqueKeys(c: Cache) {
    forall i, j :: 0 <= i < j < |c| ==> !(c[i].context == c[j].context && c[i].id == c[j].id)
  }

  lemma {:induction false} PurgeUnique(c: Cache, now: int)
    requires UniqueKeys(c)
    ensures UniqueKeys(Purge(c, now))
  {
    if c != [] {
      PurgeUnique(c[1..], now);
      InFilter(c[1..], Current(now));
      var rest := Purge(c[1..], now);
      assert forall j :: 0 <= j < |rest| ==> rest[j] in c[1..];
    }
  }

  lemma {:induction false} KeysUniqueAlways(h: seq<Call>)
    ensures UniqueKeys(After(h))
  {
    if h != [] {
      KeysUniqueAlways(h[..|h| - 1]);
      PurgeUnique(After(h[..|h| - 1]), h[|h| - 1].now);
    }
  }
}

/** The cache as the object the protocol updates in place, proved against IdCaches. */
module IdCacheObject {
  import opened Basics
  import C = IdCaches

  class IdCache {
    var idCache: C.Cache
    var lifetime: int

    constructor (lifetime: int)
      ensures idCache == [] && this.lifetime == lifetime
    {
      idCache, this.lifetime := [], lifetime;
    }

    method IsDuplicate(addr: Addr, id: U32, now: int) returns (duplicate: bool)
      modifies this`idCache
      ensures idCache == C.Remember(old(idCache), addr, id, now, lifetime)
      ensures duplicate == C.Duplicate(old(idCache), addr, id, now)
    {
      Purge(now);
      for i := 0 to |idCache|
        invariant idCache == C.Purge(old(idCache), now)
        invariant forall j :: 0 <= j < i ==> !(idCache[j].context == addr && idCache[j].id == id)
      {
        if idCache[i].context == addr && idCache[i].id == id {
          return true;
        }
      }
      idCache := idCache + [C.UniqueId(addr, id, lifetime + now)];
      duplicate := false;
    }

    method Purge(now: int)
      modifies this`idCache
      ensures idCache == C.Purge(old(idCache), now)
    {
      var kept: C.Cache := [];
      for i := 0 to |idCache|
        invariant idCache == old(idCache) && kept == C.Purge(idCache[..i], now)
      {
        assert idCache[..i + 1] == idCache[..i] + [idCache[i]];
        FilterAppend(idCache[..i], [idCache[i]], C.Current(now));
        if !(idCache[i].expire < now) {
          kept := kept + [idCache[i]];
        }
      }
      assert idCache[..|idCache|] == idCache;
      idCache := kept;
    }

    method GetSize(now: int) returns (size: nat)
      modifies this`idCache
      ensures idCache == C.Purge(old(idCache), now) && size == |idCache|
    {
      Purge(now);
      size := |idCache|;
    }
  }
}
