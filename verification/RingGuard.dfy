/** The give-up test of a search is an equality, and so is the test that stands before the abort. Exactly
    when a node jumps over the first, and exactly when it runs into the second: for one request, for one
    event, and for whole runs. */
module RingGuards {
  import opened Basics
  import opened Headers
  import opened RouteEntries
  import opened Nodes
  import opened RouteViews
  import NodeViews
  import Networks
  import opened SearchStates
  import opened RingSearches
  import Q = PacketQueues
  import C = IdCaches

  /** A request for `dst` would go out now, at the largest ring, after `count` attempts at it. */
  predicate LargestAfter(n: Node, dst: Addr, now: int, c: Config, count: nat) {
    && n.rreqCount != c.rreqRateLimit
    && var t := Purge(n.table, now, c.deletePeriod);
       dst in t && t[dst].reqCount == count && NextTtl(t[dst], c) == c.netDiameter
  }

  /** No search has made more attempts at the largest ring than it has retries. */
  ghost predicate Within(n: Node, c: Config) {
    forall k :: Attempts(n.table, k) <= c.rreqRetries
  }

  // ------------------------------------------------------------------------------- one request

  /** What ScheduleRreqRetry finds in the table. */
  lemma SearchedEntry(t: Table, dst: Addr, now: int, c: Config)
    requires WellFormed(t)
    ensures var p := Purge(t, now, c.deletePeriod); var r := Purge(SearchTable(t, dst, now, c), now, c.deletePeriod);
            dst in r && r[dst] == if dst in p then Searching(p[dst], now, c) else FreshSearch(dst, now, c)
  {
    hide NextTtl;
    var p := Purge(t, now, c.deletePeriod);
    var u := SearchTable(t, dst, now, c);
    if dst in p {
      SearchingEntry(p[dst], now, c);
      assert u[dst] == Searching(p[dst], now, c);
    } else {
      FreshEntry(dst, now, c);
      assert dst !in Purge(p, now, c.deletePeriod);
      assert u[dst] == FreshSearch(dst, now, c);
    }
  }

  /** What one request does to the attempts and to the abort. */
  lemma Requested(n: Node, dst: Addr, now: int, c: Config)
    requires WellFormed(n.table) && n.rreqCount != c.rreqRateLimit
    ensures var r := SendRequest(n, dst, now, c); var p := Purge(n.table, now, c.deletePeriod);
            var e := if dst in p then Searching(p[dst], now, c) else FreshSearch(dst, now, c);
            && WellFormed(r.table) && dst in r.table && r.table[dst] == e
            && (r.aborted <==> n.aborted || (e.hops >= c.netDiameter && e.reqCount == 0))
            && forall k :: k != dst ==> Attempts(r.table, k) <= Attempts(n.table, k)
  {
    hide SearchTable, NextTtl, Calmer, FreshSearch, Searching;
    SearchedEntry(n.table, dst, now, c);
    SearchCalmer(n.table, dst, now, c);
    var r := SendRequest(n, dst, now, c);
    assert r.table == Purge(SearchTable(n.table, dst, now, c), now, c.deletePeriod);
    forall k | k != dst
      ensures Attempts(r.table, k) <= Attempts(n.table, k)
    {
      var rest := r.table - {dst};
      assert k in r.table ==> k in rest && rest[k] == r.table[k];
      CalmAttempts(n.table, rest, k);
    }
  }

  lemma CalmAttempts(t: Table, r: Table, k: Addr)
    requires Calmer(t, r) && WellFormed(r)
    ensures Attempts(r, k) <= Attempts(t, k)
  {
  }

  /** One request jumps over the test `== RreqRetries` exactly when it goes out at the largest ring from
      an entry whose count already stands at the retries. */
  lemma RequestOverruns(n: Node, dst: Addr, now: int, c: Config)
    requires WellFormed(n.table) && Sensible(c) && Attempts(n.table, dst) <= c.rreqRetries
    ensures Attempts(SendRequest(n, dst, now, c).table, dst) > c.rreqRetries
       <==> LargestAfter(n, dst, now, c, c.rreqRetries)
  {
    hide NextTtl, SendRequest, Purge, WellFormed;
    if n.rreqCount == c.rreqRateLimit {
      PutOffRequest(n, dst, now, c);
    } else {
      Requested(n, dst, now, c);
      if dst in Purge(n.table, now, c.deletePeriod) {
        PurgedAttempts(n.table, dst, now, c);
      }
    }
  }

  /** A request for `dst` would come out at the diameter from an entry whose 8-bit count wraps round to
      nothing, or beyond the diameter from one that counts nothing. */
  predicate AbortsBy(n: Node, dst: Addr, now: int, c: Config) {
    || LargestAfter(n, dst, now, c, 255)
    || (n.rreqCount != c.rreqRateLimit
        && var t := Purge(n.table, now, c.deletePeriod);
           if dst in t then NextTtl(t[dst], c) > c.netDiameter && t[dst].reqCount == 0
           else c.ttlStart > c.netDiameter)
  }

  /** One request aborts exactly then; under sensible parameters only a count that wraps can do it. */
  lemma RequestAborts(n: Node, dst: Addr, now: int, c: Config)
    requires WellFormed(n.table)
    ensures SendRequest(n, dst, now, c).aborted <==> n.aborted || AbortsBy(n, dst, now, c)
    ensures Sensible(c) ==> (AbortsBy(n, dst, now, c) <==> LargestAfter(n, dst, now, c, 255))
  {
    hide NextTtl;
    if n.rreqCount != c.rreqRateLimit {
      Requested(n, dst, now, c);
      var t := Purge(n.table, now, c.deletePeriod);
      if Sensible(c) && dst in t {
        RingBound(t[dst], c);
      }
    }
  }

  // ------------------------------------------------------------------------------- one event

  /** No search has gone further, and nothing has aborted. */
  ghost predicate NoFurther(n: Node, r: Node) {
    && WellFormed(r.table) && r.aborted == n.aborted
    && forall k :: Attempts(r.table, k) <= Attempts(n.table, k)
  }

  lemma StillNoFurther(n: Node, r: Node)
    requires Still(n, r)
    ensures NoFurther(n, r)
  {
    forall k
      ensures Attempts(r.table, k) <= Attempts(n.table, k)
    {
      CalmAttempts(n.table, r.table, k);
    }
  }

  lemma NoFurtherTransitive(n: Node, m: Node, r: Node)
    requires NoFurther(n, m) && NoFurther(m, r)
    ensures NoFurther(n, r)
  {
  }

  lemma PurgedNoFurther(n: Node, r: Node, now: int, bad: int)
    requires WellFormed(n.table) && r.table == Purge(n.table, now, bad) && r.aborted == n.aborted
    ensures NoFurther(n, r)
  {
  }

  /** The request looks at the table as the next purge leaves it, so one purge more makes no difference. */
  lemma PurgedFirstSame(n: Node, m: Node, dst: Addr, now: int, c: Config, count: nat)
    requires WellFormed(n.table) && c.Sane() && m.rreqCount == n.rreqCount
    requires m.table == n.table || m.table == Purge(n.table, now, c.deletePeriod)
    ensures LargestAfter(m, dst, now, c, count) <==> LargestAfter(n, dst, now, c, count)
  {
    hide NextTtl;
    PurgeIdempotent(n.table, now, c.deletePeriod);
  }

  lemma OutputEffect(n: Node, e: Q.QueueEntry, now: int, c: Config)
    requires WellFormed(n.table) && Sensible(c)
    ensures var r := DeferredRouteOutput(n, e, now, c);
            WellFormed(r.table) && r.aborted == n.aborted && (Within(n, c) ==> Within(r, c))
  {
    hide SendRequest, Q.Enqueue, Q.Accepts, NextTtl, LargestAfter;
    var q := Q.Enqueue(n.queue, e, now, c.maxQueueLen, c.maxQueueTime);
    var t := Purge(n.table, now, c.deletePeriod);
    var m := n.(queue := q, table := t);
    PurgedNoFurther(n, m, now, c.deletePeriod);
    if Q.Accepts(n.queue, e, now) && !(e.dst in t && t[e.dst].flag == IN_SEARCH) {
      NotOverdue(m, e.dst, now, c);
      AnyRequest(m, e.dst, now, c);
    }
  }

  /** A destination that is not being searched for has made no attempts. */
  lemma NotOverdue(m: Node, dst: Addr, now: int, c: Config)
    requires WellFormed(m.table) && Sensible(c) && !(dst in m.table && m.table[dst].flag == IN_SEARCH)
    ensures !LargestAfter(m, dst, now, c, c.rreqRetries) && !LargestAfter(m, dst, now, c, 255)
  {
    hide NextTtl;
    PurgeCalmer(m.table, now, c.deletePeriod);
    PurgeWellFormed(m.table, now, c.deletePeriod);
  }

  lemma AnyRequest(m: Node, dst: Addr, now: int, c: Config)
    requires WellFormed(m.table) && Sensible(c)
    ensures var r := SendRequest(m, dst, now, c);
            && WellFormed(r.table)
            && (r.aborted <==> m.aborted || LargestAfter(m, dst, now, c, 255))
            && (Within(m, c) ==> (Within(r, c) <==> !LargestAfter(m, dst, now, c, c.rreqRetries)))
  {
    hide SendRequest, LargestAfter;
    RequestAborts(m, dst, now, c);
    if m.rreqCount == c.rreqRateLimit {
      PutOffRequest(m, dst, now, c);
    } else {
      Requested(m, dst, now, c);
    }
    if Within(m, c) {
      assert Attempts(m.table, dst) <= c.rreqRetries;
      RequestOverruns(m, dst, now, c);
    }
  }

  lemma PutOffRequest(m: Node, dst: Addr, now: int, c: Config)
    requires m.rreqCount == c.rreqRateLimit
    ensures SendRequest(m, dst, now, c).table == m.table
  {
  }

  lemma TimerEffect(n: Node, dst: Addr, now: int, c: Config)
    requires WellFormed(n.table) && Sensible(c)
    ensures var r := RouteRequestTimerExpire(n, dst, now, c);
            && WellFormed(r.table) && (r.aborted <==> n.aborted || LargestAfter(n, dst, now, c, 255))
            && (Within(n, c) ==> Within(r, c))
  {
    hide SendRequest, GiveUp, SendPacketFromQueue, LargestAfter;
    var t := Purge(n.table, now, c.deletePeriod);
    var m := n.(table := t, timers := n.timers - {dst});
    var toDst := Lookup(t, dst).GetOr(DefaultEntry(now));
    PurgedNoFurther(n, m, now, c.deletePeriod);
    PurgedFirstSame(n, m, dst, now, c, 255);
    PurgeIdempotent(n.table, now, c.deletePeriod);
    Counted(m, dst, now, c);
    if dst in t && toDst.flag == VALID {
      NodeViews.SendPacketsCore(m, dst, toDst, now);
    } else if toDst.reqCount == c.rreqRetries || toDst.flag != IN_SEARCH {
      GivenUp(m, dst, now, c);
    } else {
      AnyRequest(m, dst, now, c);
    }
  }

  /** A count that is not zero is that of a search. */
  lemma Counted(m: Node, dst: Addr, now: int, c: Config)
    requires WellFormed(m.table) && Sensible(c)
    requires Purge(m.table, now, c.deletePeriod) == m.table
    ensures LargestAfter(m, dst, now, c, c.rreqRetries) ==> dst in m.table && m.table[dst].reqCount == c.rreqRetries
    ensures LargestAfter(m, dst, now, c, 255) ==>
              dst in m.table && m.table[dst].flag == IN_SEARCH && m.table[dst].reqCount != c.rreqRetries
  {
    hide NextTtl;
  }

  lemma GivenUp(m: Node, dst: Addr, now: int, c: Config)
    requires WellFormed(m.table)
    ensures NoFurther(m, GiveUp(m, dst, now, c))
  {
    hide Q.DropPacketWithDst;
  }

  lemma ReplyEffect(n: Node, p: Packet, sender: Addr, now: int, c: Config)
    requires WellFormed(n.table) && c.Sane() && ForMe(n, Receive(p, sender)) && Networks.Proper(p.msg)
    ensures NoFurther(n, RecvAodv(n, p, sender, now, c))
  {
    hide UpdateRouteToNeighbor, TakeReply, FinishSearch, Still, NoFurther;
    var m := p.msg.rrep;
    RefreshCalmer(n.table, sender, now, c);
    UpdateRouteToNeighborView(n.table, sender, now, c);
    var n1 := n.(table := UpdateRouteToNeighbor(n.table, sender, now, c));
    RefreshedStill(n, n1);
    StillNoFurther(n, n1);
    TakeReplyStill(n1, m, sender, now, c);
    NodeViews.TakeReplyView(n1, m, sender, now, c);
    var n2 := TakeReply(n1, m, sender, now, c);
    StillNoFurther(n1, n2);
    NoFurtherTransitive(n, n1, n2);
    var t := Purge(n1.table, now, c.deletePeriod);
    var searching := m.dst in t && t[m.dst].flag == IN_SEARCH;
    FinishEffect(n2, m, searching, sender, now, c);
    NoFurtherTransitive(n, n2, FinishSearch(n2, m, searching, sender, now, c));
  }

  lemma FinishEffect(n: Node, m: RrepHeader, searching: bool, sender: Addr, now: int, c: Config)
    requires WellFormed(n.table)
    ensures NoFurther(n, FinishSearch(n, m, searching, sender, now, c))
  {
    hide SendPacketFromQueue;
    var n1 := if searching
              then n.(table := Update(n.table, Offered(m, sender, now)), timers := n.timers - {m.dst})
              else n;
    var t := Purge(n1.table, now, c.deletePeriod);
    NodeViews.SendPacketsCore(n1.(table := t), m.dst, Lookup(t, m.dst).GetOr(DefaultEntry(now)), now);
  }

  /** The event lets a request that was put off go out with no retry left. */
  predicate Overruns(n: Node, ev: Event, now: int, c: Config) {
    ev.Deferred? && LargestAfter(n, ev.dst, now, c, c.rreqRetries)
  }

  /** The event sends the request with which the count wraps round. */
  predicate Wraps(n: Node, ev: Event, now: int, c: Config) {
    (ev.Deferred? || ev.RreqTimer?) && LargestAfter(n, ev.dst, now, c, 255)
  }

  /** For every event: a count passes the retries exactly when a deferred call sends a request with no retry
      left; and the node aborts exactly when a timer or a deferred call sends one whose count wraps round. */
  lemma OverrunsIff(n: Node, ev: Event, now: int, c: Config)
    requires WellFormed(n.table) && Sensible(c) && Possible(n, ev)
    ensures WellFormed(Handle(n, ev, now, c).table)
    ensures Within(n, c) ==> (Within(Handle(n, ev, now, c), c) <==> !Overruns(n, ev, now, c))
    ensures Handle(n, ev, now, c).aborted <==> n.aborted || Wraps(n, ev, now, c)
  {
    hide RecvAodv, DeferredRouteOutput, RouteRequestTimerExpire, SendRequest, NbPurge, NbUpdate, UpdateRouteLifeTime,
      Still, LargestAfter, Attempts;
    match ev
    case Receive(p, sender) =>
      if ForMe(n, ev) {
        ReplyEffect(n, p, sender, now, c);
      } else {
        ReceiveStill(n, p, sender, now, c);
        StillNoFurther(n, RecvAodv(n, p, sender, now, c));
      }
    case Output(e) => OutputEffect(n, e, now, c);
    case RreqTimer(dst) => TimerEffect(n, dst, now, c);
    case Deferred(dst) =>
      var m := n.(pending := n.pending - multiset{dst});
      AnyRequest(m, dst, now, c);
      PurgedFirstSame(n, m, dst, now, c, 255);
      PurgedFirstSame(n, m, dst, now, c, c.rreqRetries);
    case _ =>
      LocalStill(n, ev, now, c);
      StillNoFurther(n, Handle(n, ev, now, c));
  }

  // ------------------------------------------------------------------------------- whole runs

  /** Some event of the run overruns. */
  predicate OverrunIn(n: Node, evs: seq<(Event, int)>, c: Config)
    decreases |evs|
  {
    evs != [] && (Overruns(n, evs[0].0, evs[0].1, c) || OverrunIn(Handle(n, evs[0].0, evs[0].1, c), evs[1..], c))
  }

  /** Some event of the run wraps a count. */
  predicate WrapIn(n: Node, evs: seq<(Event, int)>, c: Config)
    decreases |evs|
  {
    evs != [] && (Wraps(n, evs[0].0, evs[0].1, c) || WrapIn(Handle(n, evs[0].0, evs[0].1, c), evs[1..], c))
  }

  /** The counts stay within the retries from the first state of the run to the last. */
  ghost predicate WithinAlways(n: Node, evs: seq<(Event, int)>, c: Config)
    decreases |evs|
  {
    Within(n, c) && (evs == [] || WithinAlways(Handle(n, evs[0].0, evs[0].1, c), evs[1..], c))
  }

  lemma {:induction false} OverrunAlways(n: Node, evs: seq<(Event, int)>, c: Config)
    requires WellFormed(n.table) && Sensible(c) && PossibleRun(n, evs, c) && Within(n, c)
    ensures WithinAlways(n, evs, c) <==> !OverrunIn(n, evs, c)
    decreases |evs|
  {
    hide Handle, Possible, Overruns, Within, Wraps;
    if evs != [] {
      var r := Handle(n, evs[0].0, evs[0].1, c);
      OverrunsIff(n, evs[0].0, evs[0].1, c);
      if Within(r, c) {
        OverrunAlways(r, evs[1..], c);
      } else {
        NotWithin(r, evs[1..], c);
      }
    }
  }

  /** The last state of a run is one of its states. */
  lemma {:induction false} WithinAtEnd(n: Node, evs: seq<(Event, int)>, c: Config)
    ensures WithinAlways(n, evs, c) ==> Within(After(n, evs, c), c)
    decreases |evs|
  {
    hide Handle, Within;
    if evs != [] {
      WithinAtEnd(Handle(n, evs[0].0, evs[0].1, c), evs[1..], c);
    }
  }

  lemma NotWithin(n: Node, evs: seq<(Event, int)>, c: Config)
    requires !Within(n, c)
    ensures !WithinAlways(n, evs, c)
  {
  }

  lemma {:induction false} WrapAlways(n: Node, evs: seq<(Event, int)>, c: Config)
    requires WellFormed(n.table) && Sensible(c) && PossibleRun(n, evs, c)
    ensures After(n, evs, c).aborted <==> n.aborted || WrapIn(n, evs, c)
    decreases |evs|
  {
    hide Handle, Possible, Overruns, Within, Wraps;
    if evs != [] {
      OverrunsIff(n, evs[0].0, evs[0].1, c);
      WrapAlways(Handle(n, evs[0].0, evs[0].1, c), evs[1..], c);
    }
  }

  /** In every run of a started node the counts stay within the retries exactly when no deferred call comes
      with no retry left. */
  lemma CountsWithinIff(n: Node, evs: seq<(Event, int)>, c: Config)
    requires Started(n) && Sensible(c) && PossibleRun(n, evs, c)
    ensures WithinAlways(n, evs, c) <==> !OverrunIn(n, evs, c)
  {
    hide OverrunIn, WithinAlways, PossibleRun;
    OverrunAlways(n, evs, c);
  }

  /** And it has aborted exactly when some count has wrapped round. */
  lemma RunAbortsIff(n: Node, evs: seq<(Event, int)>, c: Config)
    requires Started(n) && Sensible(c) && PossibleRun(n, evs, c)
    ensures After(n, evs, c).aborted <==> WrapIn(n, evs, c)
  {
    hide WrapIn, After, PossibleRun;
    WrapAlways(n, evs, c);
  }

  lemma {:induction false} WrapAfterOverrun(n: Node, evs: seq<(Event, int)>, c: Config)
    requires WellFormed(n.table) && Sensible(c) && PossibleRun(n, evs, c) && Within(n, c) && WrapIn(n, evs, c)
    ensures OverrunIn(n, evs, c)
    decreases |evs|
  {
    hide Handle, Possible, Attempts, NextTtl;
    var r := Handle(n, evs[0].0, evs[0].1, c);
    OverrunsIff(n, evs[0].0, evs[0].1, c);
    if Wraps(n, evs[0].0, evs[0].1, c) {
      PurgedAttempts(n.table, evs[0].0.dst, evs[0].1, c);
    } else if Within(r, c) {
      WrapAfterOverrun(r, evs[1..], c);
    }
  }

  lemma PurgedAttempts(t: Table, k: Addr, now: int, c: Config)
    requires WellFormed(t) && k in Purge(t, now, c.deletePeriod)
    ensures Purge(t, now, c.deletePeriod)[k].reqCount <= Attempts(t, k)
  {
  }

  /** The abort in ScheduleRreqRetry is unreachable in every run under sensible parameters in which no
      deferred call comes with no retry left. */
  lemma NoOverrunNoAbort(n: Node, evs: seq<(Event, int)>, c: Config)
    requires Started(n) && Sensible(c) && PossibleRun(n, evs, c) && !OverrunIn(n, evs, c)
    ensures !After(n, evs, c).aborted
  {
    hide OverrunIn, WrapIn, After, PossibleRun;
    WrapAlways(n, evs, c);
    if WrapIn(n, evs, c) {
      WrapAfterOverrun(n, evs, c);
    }
  }

  // ------------------------------------------------------------------------------- what patience gives

  lemma {:induction false} PatientPossible(n: Node, evs: seq<(Event, int)>, c: Config)
    requires PatientRun(n, evs, c)
    ensures PossibleRun(n, evs, c)
    decreases |evs|
  {
    hide Handle, Possible;
    if evs != [] {
      PatientPossible(Handle(n, evs[0].0, evs[0].1, c), evs[1..], c);
    }
  }

  lemma {:induction false} PatientWithin(n: Node, evs: seq<(Event, int)>, c: Config)
    requires RingInv(n, c) && Sensible(c) && PatientRun(n, evs, c)
    ensures !OverrunIn(n, evs, c)
    decreases |evs|
  {
    hide Handle, Patient, NextTtl;
    if evs != [] {
      RingKept(n, evs[0].0, evs[0].1, c);
      PatientWithin(Handle(n, evs[0].0, evs[0].1, c), evs[1..], c);
      if Overruns(n, evs[0].0, evs[0].1, c) {
        assert evs[0].0.dst in n.pending by { PatientEnabled(n, evs[0].0); }
        PurgedAttempts(n.table, evs[0].0.dst, evs[0].1, c);
      }
    }
  }

  lemma PatientEnabled(n: Node, ev: Event)
    requires Patient(n, ev) && ev.Deferred?
    ensures ev.dst in n.pending
  {
  }

  /** A node that never asks for a search of a destination while one for it is put off never overruns: so
      an overrun takes two deferred calls for one destination, or one beside a running timer. */
  lemma PatienceSuffices(n: Node, evs: seq<(Event, int)>, c: Config)
    requires Started(n) && Sensible(c) && PatientRun(n, evs, c)
    ensures PossibleRun(n, evs, c) && !OverrunIn(n, evs, c)
  {
    hide OverrunIn, PatientRun, PossibleRun;
    PatientPossible(n, evs, c);
    PatientWithin(n, evs, c);
  }
}
