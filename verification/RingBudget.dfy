/** An unanswered search, request by request: its rings, its waiting times, when it gives up, and exactly
    when its parameters make it abort the program instead. */
module RingBudgets {
  import opened Basics
  import opened RouteEntries
  import opened Nodes
  import SearchStates
  import RingSearches
  import Q = PacketQueues

  // ------------------------------------------------------------------------------- rings

  /** The ring of one request: its TTL, and how many requests have used the network diameter so far. */
  datatype Ring = Ring(hops: U16, count: U8)

  function Counted(ttl: U16, count: U8, c: Config): Ring {
    Ring(ttl, if ttl == c.netDiameter then Bump8(count) else count)
  }

  /** The ring after `r`, in a search that nothing else touches. */
  function Grow(r: Ring, c: Config): Ring {
    var next: U16 := (r.hops + c.ttlIncrement) % 0x1_0000;
    Counted(if next > c.ttlThreshold then c.netDiameter % 0x1_0000 else next, r.count, c)
  }

  /** The ring of request number `i` of a search from no entry. */
  function RingAt(i: nat, c: Config): Ring {
    if i == 0 then Counted(c.ttlStart, 0, c) else Grow(RingAt(i - 1, c), c)
  }

  /** Where ScheduleRreqRetry aborts. */
  predicate Stuck(r: Ring, c: Config) {
    r.hops >= c.netDiameter && r.count == 0
  }

  /** How long a request waits for its answer. */
  function Wait(r: Ring, c: Config): int
    requires !Stuck(r, c)
  {
    if r.hops < c.netDiameter then 2 * c.nodeTraversalTime * (r.hops + c.timeoutBuffer)
    else c.netTraversalTime * Pow2(r.count - 1)
  }

  // ------------------------------------------------------------------------------- one request

  /** The node has just sent the request of ring `r` for `dst` at time `now`. */
  ghost predicate Asked(n: Node, dst: Addr, r: Ring, now: int, c: Config) {
    && dst in n.table && n.table[dst].dst == dst && n.table[dst].flag == IN_SEARCH
    && n.table[dst].hops == r.hops && n.table[dst].reqCount == r.count
    && n.sent != [] && n.sent[|n.sent| - 1].msg.Rreq? && n.sent[|n.sent| - 1].msg.rreq.dst == dst
    && n.sent[|n.sent| - 1].ttl == r.hops % 0x100
    && (if Stuck(r, c) then n.aborted && dst !in n.timers
        else dst in n.timers && n.timers[dst] == now + Wait(r, c))
  }

  /** The search is over: no entry, no timer, and nothing waits. */
  ghost predicate GivenUp(n: Node, dst: Addr) {
    dst !in n.table && dst !in n.timers && !SearchStates.Waiting(n, dst)
  }

  /** Nothing has touched the search for `dst` since. */
  ghost predicate SameSearch(m: Node, a: Node, dst: Addr) {
    && dst in a.table && dst in m.table && m.table[dst] == a.table[dst]
    && dst in a.timers && dst in m.timers && m.timers[dst] == a.timers[dst]
    && m.aborted == a.aborted
  }

  lemma ScheduleAsks(n: Node, dst: Addr, now: int, c: Config)
    requires dst in n.table && n.table[dst].dst == dst && n.table[dst].flag == IN_SEARCH
    requires n.sent != [] && n.sent[|n.sent| - 1].msg.Rreq? && n.sent[|n.sent| - 1].msg.rreq.dst == dst
    requires n.sent[|n.sent| - 1].ttl == n.table[dst].hops % 0x100
    ensures Asked(ScheduleRreqRetry(n, dst, now, c), dst, Ring(n.table[dst].hops, n.table[dst].reqCount), now, c)
    ensures ScheduleRreqRetry(n, dst, now, c).aborted
            == (n.aborted || Stuck(Ring(n.table[dst].hops, n.table[dst].reqCount), c))
  {
    var t := Purge(n.table, now, c.deletePeriod);
    assert dst in t && t[dst] == n.table[dst];
  }

  /** The first request of a search. */
  lemma FirstAsks(n: Node, dst: Addr, now: int, c: Config)
    requires n.rreqCount != c.rreqRateLimit && dst !in Purge(n.table, now, c.deletePeriod)
    ensures Asked(SendRequest(n, dst, now, c), dst, RingAt(0, c), now, c)
    ensures SendRequest(n, dst, now, c).aborted == (n.aborted || Stuck(RingAt(0, c), c))
  {
    hide ScheduleRreqRetry, RequestHeader, Asked;
    var e := EmitRequest(n, dst, now, c);
    assert e.table[dst] == FreshSearch(dst, now, c) by {
      var p := Purge(n.table, now, c.deletePeriod);
      assert dst !in Purge(p, now, c.deletePeriod);
    }
    RequestNames(n, Purge(n.table, now, c.deletePeriod), dst, c);
    ScheduleAsks(e, dst, now, c);
  }

  lemma RequestNames(n: Node, t: Table, dst: Addr, c: Config)
    ensures RequestHeader(n, t, dst, c).dst == dst
  {
  }

  /** The timer of a search that still has retries sends the next ring. */
  lemma NextAsks(n: Node, dst: Addr, r: Ring, now: int, c: Config)
    requires dst in n.table && n.table[dst].dst == dst && n.table[dst].flag == IN_SEARCH
    requires n.table[dst].hops == r.hops && n.table[dst].reqCount == r.count
    requires n.rreqCount != c.rreqRateLimit && r.count != c.rreqRetries
    ensures Asked(RouteRequestTimerExpire(n, dst, now, c), dst, Grow(r, c), now, c)
    ensures RouteRequestTimerExpire(n, dst, now, c).aborted == (n.aborted || Stuck(Grow(r, c), c))
  {
    hide ScheduleRreqRetry, RequestHeader, Asked, GiveUp, SendPacketFromQueue;
    var t := Purge(n.table, now, c.deletePeriod);
    assert dst in t && t[dst] == n.table[dst];
    var n1 := n.(table := t, timers := n.timers - {dst});
    var t1 := Purge(t, now, c.deletePeriod);
    assert dst in t1 && t1[dst] == n.table[dst];
    var e := EmitRequest(n1, dst, now, c);
    assert e.table[dst] == Searching(t[dst], now, c);
    assert Ring(e.table[dst].hops, e.table[dst].reqCount) == Grow(r, c);
    RequestNames(n1, t1, dst, c);
    ScheduleAsks(e, dst, now, c);
  }

  /** The timer of a search without retries left ends it. */
  lemma LastExpires(n: Node, dst: Addr, now: int, c: Config)
    requires dst in n.table && n.table[dst].flag == IN_SEARCH && n.table[dst].reqCount == c.rreqRetries
    ensures var r := RouteRequestTimerExpire(n, dst, now, c);
            GivenUp(r, dst) && r.sent == n.sent && r.aborted == n.aborted
  {
    var t := Purge(n.table, now, c.deletePeriod);
    assert dst in t && t[dst] == n.table[dst];
    InFilter(Filter(n.queue.waiting, Q.Fresh(now)), Q.NotFor(dst));
  }

  // ------------------------------------------------------------------------------- a whole search

  /** A search for `dst` that nobody answers: `after[0]` has sent the first request at time `start`; each
      timer fires on a node `before[i]` on which other things may have happened, but nothing to this
      search, and with room under the rate limit; and `after[i + 1]` is what the timer leaves. */
  ghost predicate Unanswered(after: seq<Node>, before: seq<Node>, n: Node, start: int, dst: Addr, c: Config) {
    && |after| == |before| + 1
    && !n.aborted && n.rreqCount != c.rreqRateLimit && dst !in Purge(n.table, start, c.deletePeriod)
    && after[0] == SendRequest(n, dst, start, c)
    && forall i :: 0 <= i < |before| ==>
         && SameSearch(before[i], after[i], dst) && before[i].rreqCount != c.rreqRateLimit
         && after[i + 1] == RouteRequestTimerExpire(before[i], dst, after[i].timers[dst], c)
  }

  /** When request number `i` goes out, or would have. */
  ghost function Time(after: seq<Node>, start: int, dst: Addr, i: nat): int
    requires i <= |after| && (i > 0 ==> dst in after[i - 1].timers)
  {
    if i == 0 then start else after[i - 1].timers[dst]
  }

  /** The search follows its rings for as long as none of them has used up the retries. */
  lemma {:induction false} FollowsRings(after: seq<Node>, before: seq<Node>, n: Node, start: int, dst: Addr,
                                        c: Config, i: nat)
    requires Unanswered(after, before, n, start, dst, c) && i < |after|
    requires forall j :: 0 <= j < i ==> RingAt(j, c).count != c.rreqRetries
    ensures i > 0 ==> dst in after[i - 1].timers
    ensures Asked(after[i], dst, RingAt(i, c), Time(after, start, dst, i), c)
    ensures after[i].aborted <==> Stuck(RingAt(i, c), c)
    ensures forall j :: 0 <= j < i ==> !Stuck(RingAt(j, c), c)
  {
    hide RouteRequestTimerExpire, SendRequest, Grow, Stuck;
    if i == 0 {
      FirstAsks(n, dst, start, c);
    } else {
      FollowsRings(after, before, n, start, dst, c, i - 1);
      var b := before[i - 1];
      assert SameSearch(b, after[i - 1], dst);
      NextAsks(b, dst, RingAt(i - 1, c), after[i - 1].timers[dst], c);
    }
  }

  // ------------------------------------------------------------------------------- the budget

  /** The rings have somewhere to grow: from a start within the threshold, in steps that are not zero. */
  predicate Rising(c: Config) {
    RingSearches.Sensible(c) && c.ttlIncrement >= 1 && c.ttlStart <= c.ttlThreshold
  }

  /** No 16-bit sum wraps round to a small ring: neither the one that leads to the diameter nor, when there is
      more than one attempt there, the one beyond it. */
  predicate NoFallback(c: Config)
    requires Rising(c)
  {
    && Size(Smaller(c), c) < 0x1_0000
    && (c.rreqRetries >= 2 ==> (c.netDiameter + c.ttlIncrement) % 0x1_0000 > c.ttlThreshold)
  }

  predicate Growing(c: Config) {
    Rising(c) && NoFallback(c)
  }

  /** How many of s, s + y, s + 2y, ... up to `t` are not `d`, when `t` is at most `d`. */
  function Steps(s: nat, t: nat, d: nat, y: nat): nat
    requires y >= 1 && s <= t
  {
    var last := (t - s) / y;
    if s + last * y == d then last else last + 1
  }

  /** The number of rings smaller than the network diameter. */
  function Smaller(c: Config): nat
    requires Rising(c)
  {
    Steps(c.ttlStart, c.ttlThreshold, c.netDiameter, c.ttlIncrement)
  }

  function Size(i: nat, c: Config): int {
    c.ttlStart + i * c.ttlIncrement
  }

  lemma Division(x: nat, y: nat)
    requires y >= 1
    ensures (x / y) * y <= x < (x / y + 1) * y
  {
  }

  lemma TimesGrow(i: nat, j: nat, y: nat)
    requires i <= j
    ensures i * y <= j * y && (i < j && y >= 1 ==> i * y < j * y)
  {
    assert j * y == i * y + (j - i) * y;
  }

  lemma SizesBound(s: nat, t: nat, d: nat, y: nat, i: nat)
    requires y >= 1 && s <= t <= d
    ensures i < Steps(s, t, d, y) ==> s + i * y <= t && s + i * y < d
    ensures i == Steps(s, t, d, y) ==> s + i * y == d || s + i * y > t
  {
    var last := (t - s) / y;
    Division(t - s, y);
    if i < last {
      TimesGrow(i, last, y);
    }
  }

  /** The sizes below `Smaller` stay under threshold and diameter; the next one hits the diameter or
      passes the threshold. */
  lemma Sizes(i: nat, c: Config)
    requires Rising(c)
    ensures i < Smaller(c) ==> Size(i, c) <= c.ttlThreshold && Size(i, c) < c.netDiameter
    ensures i == Smaller(c) ==> Size(i, c) == c.netDiameter || Size(i, c) > c.ttlThreshold
  {
    hide Steps;
    SizesBound(c.ttlStart, c.ttlThreshold, c.netDiameter, c.ttlIncrement, i);
  }

  /** Without overflow. */
  lemma GrowPlain(r: Ring, c: Config)
    requires r.hops + c.ttlIncrement < 0x1_0000 && c.netDiameter < 0x1_0000
    ensures Grow(r, c) == Counted(if r.hops + c.ttlIncrement > c.ttlThreshold then c.netDiameter
                                  else r.hops + c.ttlIncrement, r.count, c)
  {
  }

  /** The ring of request number `i`, in closed form. */
  function RingForm(i: nat, c: Config): Ring
    requires Rising(c) && i < Smaller(c) + c.rreqRetries
  {
    Sizes(i, c);
    if i < Smaller(c) then Ring(Size(i, c), 0) else Ring(c.netDiameter, i - Smaller(c) + 1)
  }

  lemma RingFormStarts(c: Config)
    requires Rising(c)
    ensures RingForm(0, c) == Counted(c.ttlStart, 0, c)
  {
    hide Smaller, RingSearches.Sensible;
    SensibleBounds(c);
    Sizes(0, c);
    SizeStart(c);
  }

  /** One step of the closed form, if no sum wraps there. */
  lemma RingFormGrows(i: nat, c: Config)
    requires Rising(c) && 0 < i < Smaller(c) + c.rreqRetries
    requires i == Smaller(c) ==> Size(i, c) < 0x1_0000
    requires i > Smaller(c) ==> (c.netDiameter + c.ttlIncrement) % 0x1_0000 > c.ttlThreshold
    ensures RingForm(i, c) == Grow(RingForm(i - 1, c), c)
  {
    hide Smaller, RingSearches.Sensible, Size;
    SensibleBounds(c);
    Sizes(i, c);
    Sizes(i - 1, c);
    SizeStep(i - 1, c);
  }

  /** A sum that wraps leaves the closed form: the ring falls back to a small one. */
  lemma FallsBack(i: nat, c: Config)
    requires Rising(c) && 0 < i < Smaller(c) + c.rreqRetries
    requires (i == Smaller(c) && Size(i, c) >= 0x1_0000)
             || (i == Smaller(c) + 1 && (c.netDiameter + c.ttlIncrement) % 0x1_0000 <= c.ttlThreshold)
    ensures RingForm(i, c) != Grow(RingForm(i - 1, c), c)
  {
    hide Smaller, RingSearches.Sensible, Size;
    SensibleBounds(c);
    Sizes(i - 1, c);
    SizeStep(i - 1, c);
    var hops := RingForm(i - 1, c).hops;
    assert (hops + c.ttlIncrement) % 0x1_0000 != hops;
    assert i == Smaller(c) ==> (hops + c.ttlIncrement) % 0x1_0000 < hops < c.netDiameter;
  }

  /** Every ring of an unanswered search. */
  lemma {:induction false} RingClosedForm(i: nat, c: Config)
    requires Growing(c) && i < Smaller(c) + c.rreqRetries
    ensures RingAt(i, c) == RingForm(i, c)
  {
    hide Smaller, Grow, RingForm, RingSearches.Sensible;
    if i > 0 {
      RingClosedForm(i - 1, c);
      RingFormGrows(i, c);
    } else {
      RingFormStarts(c);
    }
  }

  /** And the closed form is right only then. */
  lemma RingClosedFormIff(c: Config)
    requires Rising(c)
    ensures (forall i: nat :: i < Smaller(c) + c.rreqRetries ==> RingAt(i, c) == RingForm(i, c)) <==> NoFallback(c)
  {
    hide Smaller, Grow, RingForm, RingSearches.Sensible, Size;
    SensibleBounds(c);
    if NoFallback(c) {
      forall i: nat | i < Smaller(c) + c.rreqRetries
        ensures RingAt(i, c) == RingForm(i, c)
      {
        RingClosedForm(i, c);
      }
    } else {
      var i := if Size(Smaller(c), c) >= 0x1_0000 then Smaller(c) else Smaller(c) + 1;
      AtLeastOne(c);
      FallsBack(i, c);
      assert RingAt(i, c) == Grow(RingAt(i - 1, c), c);
      assert RingAt(i - 1, c) != RingForm(i - 1, c) || RingAt(i, c) != RingForm(i, c);
    }
  }

  /** A start at the diameter does not wrap. */
  lemma AtLeastOne(c: Config)
    requires Rising(c)
    ensures Size(Smaller(c), c) >= 0x1_0000 ==> Smaller(c) >= 1
  {
    SizeStart(c);
  }

  lemma SensibleBounds(c: Config)
    requires RingSearches.Sensible(c)
    ensures c.ttlStart <= c.netDiameter < 0x1_0000 && c.ttlThreshold <= c.netDiameter && 1 <= c.rreqRetries <= 31
  {
  }

  lemma SizeStart(c: Config)
    ensures Size(0, c) == c.ttlStart
  {
  }

  lemma SizeStep(i: nat, c: Config)
    ensures Size(i + 1, c) == Size(i, c) + c.ttlIncrement
  {
  }

  /** 0 + 1 + ... + (n - 1). */
  function Triangle(n: nat): nat {
    if n == 0 then 0 else Triangle(n - 1) + n - 1
  }

  /** When request number `i` goes out, counted from the first. */
  function Elapsed(i: nat, c: Config): int
    requires Growing(c)
  {
    var m := if i < Smaller(c) then i else Smaller(c);
    2 * c.nodeTraversalTime * (m * (c.ttlStart + c.timeoutBuffer) + c.ttlIncrement * Triangle(m))
      + (if i <= Smaller(c) then 0 else c.netTraversalTime * (Pow2(i - Smaller(c)) - 1))
  }

  lemma Distribute(t: int, m: nat, a: int, b: int, tri: int)
    ensures 2 * t * ((m + 1) * a + b * (tri + m)) == 2 * t * (m * a + b * tri) + 2 * t * (a + m * b)
  {
    assert (m + 1) * a + b * (tri + m) == (m * a + b * tri) + (a + m * b);
  }

  lemma Doubling(t: int, k: nat)
    ensures t * (Pow2(k + 1) - 1) == t * (Pow2(k) - 1) + t * Pow2(k)
  {
  }

  lemma ElapsedStep(i: nat, c: Config)
    requires Growing(c) && i < Smaller(c) + c.rreqRetries
    ensures !Stuck(RingAt(i, c), c) && Elapsed(i + 1, c) == Elapsed(i, c) + Wait(RingAt(i, c), c)
  {
    hide Smaller, RingAt;
    RingClosedForm(i, c);
    Sizes(i, c);
    if i < Smaller(c) {
      Distribute(c.nodeTraversalTime, i, c.ttlStart + c.timeoutBuffer, c.ttlIncrement, Triangle(i));
      assert Pow2(0) == 1;
    } else {
      Doubling(c.netTraversalTime, i - Smaller(c));
    }
  }

  /** Every request of an unanswered search, and its moment. */
  lemma {:induction false} OnSchedule(after: seq<Node>, before: seq<Node>, n: Node, start: int, dst: Addr, c: Config,
                                      i: nat)
    requires Unanswered(after, before, n, start, dst, c) && Growing(c)
    requires i < |after| && i < Smaller(c) + c.rreqRetries
    ensures Asked(after[i], dst, RingAt(i, c), start + Elapsed(i, c), c) && !after[i].aborted
    ensures dst in after[i].timers && after[i].timers[dst] == start + Elapsed(i + 1, c)
  {
    hide Unanswered, RingAt, Smaller, Elapsed, Asked, Stuck, Wait;
    forall j: nat | j < i
      ensures RingAt(j, c).count != c.rreqRetries
    {
      RingClosedForm(j, c);
    }
    FollowsRings(after, before, n, start, dst, c, i);
    ElapsedStep(i, c);
    if i > 0 {
      OnSchedule(after, before, n, start, dst, c, i - 1);
    } else {
      assert Elapsed(0, c) == 0 by { ElapsedStart(c); }
    }
    AskedTimer(after[i], dst, RingAt(i, c), start + Elapsed(i, c), c);
  }

  lemma ElapsedStart(c: Config)
    requires Growing(c)
    ensures Elapsed(0, c) == 0
  {
  }

  lemma AskedTimer(n: Node, dst: Addr, r: Ring, now: int, c: Config)
    requires Asked(n, dst, r, now, c) && !Stuck(r, c)
    ensures dst in n.timers && n.timers[dst] == now + Wait(r, c)
  {
  }

  /** The exact budget of an expanding-ring search that nobody answers: one request for each ring smaller
      than the diameter, then one for each retry at the diameter; every request has its own ring and moment;
      then the `==` test is hit, the search is given up, and it has never aborted. The waits at the
      diameter alone come to NetTraversalTime * (2^RreqRetries - 1). */
  lemma SearchBudget(after: seq<Node>, before: seq<Node>, n: Node, start: int, dst: Addr, c: Config)
    requires Unanswered(after, before, n, start, dst, c) && Growing(c)
    ensures var requests := Smaller(c) + c.rreqRetries;
            && requests <= (c.ttlThreshold - c.ttlStart) / c.ttlIncrement + 1 + c.rreqRetries
            && |after| <= requests + 1
            && (forall i :: 0 <= i < |after| && i < requests ==>
                  Asked(after[i], dst, RingAt(i, c), start + Elapsed(i, c), c) && !after[i].aborted)
            && (|after| == requests + 1 ==>
                  GivenUp(after[requests], dst) && after[requests].sent == before[requests - 1].sent
                  && !after[requests].aborted
                  && after[requests - 1].timers[dst] == start + Elapsed(requests, c))
    ensures Elapsed(Smaller(c) + c.rreqRetries, c) - Elapsed(Smaller(c), c)
            == c.netTraversalTime * (Pow2(c.rreqRetries) - 1)
  {
    hide RingAt, Elapsed, Asked, GivenUp, RouteRequestTimerExpire, SendRequest;
    var requests := Smaller(c) + c.rreqRetries;
    forall i | 0 <= i < |after| && i < requests
      ensures Asked(after[i], dst, RingAt(i, c), start + Elapsed(i, c), c) && !after[i].aborted
    {
      OnSchedule(after, before, n, start, dst, c, i);
    }
    if |after| > requests {
      GivesUp(after, before, n, start, dst, c);
    }
    FinalWaits(c);
  }

  lemma FinalWaits(c: Config)
    requires Growing(c)
    ensures Elapsed(Smaller(c) + c.rreqRetries, c) - Elapsed(Smaller(c), c)
            == c.netTraversalTime * (Pow2(c.rreqRetries) - 1)
  {
    hide Smaller, Pow2;
  }

  lemma GivesUp(after: seq<Node>, before: seq<Node>, n: Node, start: int, dst: Addr, c: Config)
    requires Unanswered(after, before, n, start, dst, c) && Growing(c) && |after| > Smaller(c) + c.rreqRetries
    ensures var requests := Smaller(c) + c.rreqRetries;
            && |after| == requests + 1 && GivenUp(after[requests], dst)
            && after[requests].sent == before[requests - 1].sent && !after[requests].aborted
            && dst in after[requests - 1].timers && after[requests - 1].timers[dst] == start + Elapsed(requests, c)
  {
    hide RingAt, Elapsed, RouteRequestTimerExpire, SendRequest, Smaller;
    var last := Smaller(c) + c.rreqRetries - 1;
    OnSchedule(after, before, n, start, dst, c, last);
    RingClosedForm(last, c);
    assert SameSearch(before[last], after[last], dst);
    LastExpires(before[last], dst, after[last].timers[dst], c);
    if |after| > last + 2 {
      GoesOn(after, before, n, start, dst, c, last + 1);
    }
  }

  lemma GoesOn(after: seq<Node>, before: seq<Node>, n: Node, start: int, dst: Addr, c: Config, i: nat)
    requires Unanswered(after, before, n, start, dst, c) && i < |before|
    ensures dst in after[i].table
  {
    hide RouteRequestTimerExpire, SendRequest;
    assert SameSearch(before[i], after[i], dst);
  }

  // ------------------------------------------------------------------------------- when a search aborts

  /** Parameters under which no sum of a TTL and an increment overflows, sensible or not. */
  predicate Plain(c: Config) {
    && c.ttlIncrement >= 1 && c.netDiameter < 0x1_0000 && 1 <= c.rreqRetries <= 31
    && c.ttlStart + c.ttlIncrement < 0x1_0000 && c.ttlThreshold + c.ttlIncrement < 0x1_0000
    && c.netDiameter + c.ttlIncrement < 0x1_0000
  }

  /** Request number `i` of an unanswered search is the one that aborts. */
  ghost predicate AbortsAt(i: nat, c: Config) {
    Stuck(RingAt(i, c), c) && forall j :: 0 <= j < i ==> !Stuck(RingAt(j, c), c) && RingAt(j, c).count != c.rreqRetries
  }

  /** The rings start beyond the diameter, or step over it while still within the threshold. */
  predicate StepsOver(c: Config)
    requires Plain(c)
  {
    || c.ttlStart > c.netDiameter
    || ((c.netDiameter - c.ttlStart) % c.ttlIncrement != 0
        && c.netDiameter - (c.netDiameter - c.ttlStart) % c.ttlIncrement + c.ttlIncrement <= c.ttlThreshold)
  }

  lemma Remainder(s: nat, d: nat, y: nat, i: nat)
    requires y >= 1 && s + i * y < d < s + (i + 1) * y
    ensures (d - s) % y == d - s - i * y && (d - s) % y != 0
  {
    var r := d - s - i * y;
    assert 0 < r < y && d - s == y * i + r;
    ModUnique(d - s, y, i, r);
  }

  lemma ModUnique(x: nat, y: nat, q: nat, r: nat)
    requires 0 <= r < y && x == y * q + r
    ensures x % y == r && x / y == q
  {
    var q', r' := x / y, x % y;
    assert x == y * q' + r';
    if q < q' {
      TimesGrow(q + 1, q', y);
    } else if q' < q {
      TimesGrow(q' + 1, q, y);
    }
  }

  /** Unless the rings step over the diameter, each is a small one without a count, or has a count. */
  lemma {:induction false} NeverStuck(i: nat, c: Config)
    requires Plain(c) && !StepsOver(c)
    requires forall j :: 0 <= j < i ==> RingAt(j, c).count != c.rreqRetries
    ensures var r := RingAt(i, c);
            && r.count <= c.rreqRetries && r.hops + c.ttlIncrement < 0x1_0000
            && (r.count >= 1 || (r.hops == Size(i, c) && Size(i, c) < c.netDiameter))
  {
    hide StepsOver, Size, Grow;
    SizeStart(c);
    if i == 0 {
      StartsWithin(c);
    } else {
      NeverStuck(i - 1, c);
      SizeStep(i - 1, c);
      GrowPlain(RingAt(i - 1, c), c);
      NotOver(i - 1, c);
    }
  }

  lemma StartsWithin(c: Config)
    requires Plain(c) && !StepsOver(c)
    ensures c.ttlStart <= c.netDiameter
  {
  }

  /** A step over the diameter leads past the threshold. */
  lemma NotOver(i: nat, c: Config)
    requires Plain(c) && !StepsOver(c)
    ensures Size(i, c) < c.netDiameter < Size(i + 1, c) ==> Size(i + 1, c) > c.ttlThreshold
  {
    if Size(i, c) < c.netDiameter < Size(i + 1, c) {
      Remainder(c.ttlStart, c.netDiameter, c.ttlIncrement, i);
      SizeStep(i, c);
    }
  }

  /** Up to the diameter the rings take every step. */
  lemma {:induction false} StepsUp(i: nat, c: Config)
    requires Plain(c) && c.ttlStart <= c.netDiameter
    requires i == 0 || (Size(i - 1, c) < c.netDiameter && Size(i, c) <= c.ttlThreshold)
    requires Size(i, c) != c.netDiameter
    ensures RingAt(i, c).hops == Size(i, c) && RingAt(i, c).count == 0
  {
    if i == 0 {
      SizeStart(c);
    } else {
      SizeStep(i - 1, c);
      if i > 1 {
        SizesGrow(i - 2, i - 1, c);
      }
      StepsUp(i - 1, c);
      GrowPlain(RingAt(i - 1, c), c);
    }
  }

  lemma SizesGrow(i: nat, j: nat, c: Config)
    requires i < j && c.ttlIncrement >= 1
    ensures Size(i, c) < Size(j, c)
  {
    TimesGrow(i, j, c.ttlIncrement);
  }

  lemma Around(s: nat, d: nat, y: nat, r: nat)
    requires y >= 1 && s <= d && r == (d - s) % y && r != 0
    ensures var k := (d - s) / y; k >= 0 && s + k * y == d - r && s + (k + 1) * y == d - r + y && r < y
  {
    var k := (d - s) / y;
    assert d - s == y * k + r;
    assert (k + 1) * y == k * y + y;
  }

  /** The two sizes on either side of the diameter. */
  lemma Straddles(c: Config) returns (k: nat)
    requires Plain(c) && StepsOver(c) && c.ttlStart <= c.netDiameter
    ensures Size(k, c) < c.netDiameter < Size(k + 1, c) <= c.ttlThreshold
  {
    Around(c.ttlStart, c.netDiameter, c.ttlIncrement, (c.netDiameter - c.ttlStart) % c.ttlIncrement);
    k := (c.netDiameter - c.ttlStart) / c.ttlIncrement;
  }

  lemma StepsOverAborts(c: Config) returns (i: nat)
    requires Plain(c) && StepsOver(c)
    ensures AbortsAt(i, c)
  {
    hide StepsOver, Size, Grow;
    SizeStart(c);
    if c.ttlStart > c.netDiameter {
      i := 0;
    } else {
      var k := Straddles(c);
      i := k + 1;
      StepsUp(i, c);
      forall j | 0 <= j < i
        ensures !Stuck(RingAt(j, c), c) && RingAt(j, c).count != c.rreqRetries
      {
        BeforeOver(j, k, c);
      }
    }
  }

  lemma BeforeOver(j: nat, k: nat, c: Config)
    requires Plain(c) && c.ttlStart <= c.netDiameter && j <= k
    requires Size(k, c) < c.netDiameter < Size(k + 1, c) <= c.ttlThreshold
    ensures RingAt(j, c).hops < c.netDiameter && RingAt(j, c).count == 0
  {
    if j < k {
      SizesGrow(j, k, c);
    }
    if j > 0 {
      SizesGrow(j - 1, k, c);
    }
    SizesGrow(j, k + 1, c);
    StepsUp(j, c);
  }

  /** The abort is reached by an unanswered search from no entry exactly when the rings start beyond the
      diameter or step over it: the test for the diameter is an equality. */
  lemma AbortsIff(c: Config)
    requires Plain(c)
    ensures (exists i: nat :: AbortsAt(i, c)) <==> StepsOver(c)
  {
    if StepsOver(c) {
      var i := StepsOverAborts(c);
    } else {
      forall i: nat | AbortsAt(i, c)
        ensures false
      {
        NeverStuck(i, c);
      }
    }
  }

  /** And that is when the node itself aborts. */
  lemma SearchAborts(after: seq<Node>, before: seq<Node>, n: Node, start: int, dst: Addr, c: Config, i: nat)
    requires Unanswered(after, before, n, start, dst, c) && i < |after|
    requires forall j :: 0 <= j < i ==> RingAt(j, c).count != c.rreqRetries
    ensures after[i].aborted <==> AbortsAt(i, c)
  {
    hide Unanswered, RingAt, Stuck;
    FollowsRings(after, before, n, start, dst, c, i);
  }
}
