/** The expanding-ring search: the state that aborts the program cannot be reached under sensible
    parameters, an unanswered search ends after an exact number of requests, and what goes wrong otherwise. */
module RingSearches {
  import opened Basics
  import opened Headers
  import opened RouteEntries
  import opened Nodes
  import opened RouteViews
  import NodeViews
  import Networks
  import opened SearchStates
  import Q = PacketQueues
  import C = IdCaches

  /** The rings grow up to a threshold inside the network diameter, and the shift of the waiting time
      stays within an int. */
  predicate Sensible(c: Config) {
    && c.Sane() && c.ttlStart <= c.netDiameter < 0x1_0000 && c.ttlThreshold <= c.netDiameter
    && 1 <= c.rreqRetries <= 31
  }

  // ------------------------------------------------------------------------------- no abort

  /** Requests already sent at the largest ring. */
  function Attempts(t: Table, k: Addr): U8 {
    if k in t then t[k].reqCount else 0
  }

  /** No search has used up more than its retries; a deferred request has one left, is the only one for
      its destination, and no timer runs beside it while the search is on. */
  ghost predicate RingInv(n: Node, c: Config) {
    && WellFormed(n.table) && !n.aborted
    && UNSET !in n.timers && UNSET !in n.pending
    && (forall k :: k != UNSET ==> Attempts(n.table, k) <= c.rreqRetries)
    && (forall k :: k in n.pending ==> n.pending[k] == 1 && Attempts(n.table, k) < c.rreqRetries
                                       && !(k in n.timers && Seeking(n, k)))
  }

  /** Tables in which no search has begun or gone on. */
  lemma CalmerAttempts(t: Table, r: Table, k: Addr)
    requires Calmer(t, r) && WellFormed(t) && WellFormed(r) && k != UNSET
    ensures Attempts(r, k) <= Attempts(t, k)
    ensures k in r && r[k].flag == IN_SEARCH ==> k in t && t[k].flag == IN_SEARCH
  {
  }

  /** Events that take searches away at most. */
  lemma Fewer(n: Node, r: Node, c: Config)
    requires RingInv(n, c) && Calmer(n.table, r.table) && WellFormed(r.table) && !r.aborted
    requires r.pending == n.pending && r.timers.Keys <= n.timers.Keys
    ensures RingInv(r, c)
  {
    forall k | k != UNSET
      ensures Attempts(r.table, k) <= Attempts(n.table, k)
      ensures Seeking(r, k) ==> Seeking(n, k)
    {
      CalmerAttempts(n.table, r.table, k);
    }
  }

  /** The next ring lies within the diameter. */
  lemma RingBound(rt: Entry, c: Config)
    requires Sensible(c)
    ensures NextTtl(rt, c) <= c.netDiameter
  {
  }

  /** What a search leaves in the table: a ring within the diameter, and at the diameter a count. */
  lemma RequestEntry(t: Table, dst: Addr, now: int, c: Config)
    requires WellFormed(t) && Sensible(c) && Attempts(Purge(t, now, c.deletePeriod), dst) < c.rreqRetries
    ensures var r := Purge(SearchTable(t, dst, now, c), now, c.deletePeriod);
            && dst in r && r[dst].flag == IN_SEARCH && r[dst].hops <= c.netDiameter
            && (r[dst].hops == c.netDiameter ==> r[dst].reqCount > 0)
            && r[dst].reqCount <= c.rreqRetries
  {
    hide NextTtl;
    var p := Purge(t, now, c.deletePeriod);
    var u := SearchTable(t, dst, now, c);
    if dst in p {
      RingBound(p[dst], c);
      assert u[dst] == Searching(p[dst], now, c);
    } else {
      assert dst !in Purge(p, now, c.deletePeriod);
      assert u[dst] == FreshSearch(dst, now, c);
    }
  }

  /** The abort is not reached: every request leaves a ring below the diameter or a positive count. */
  lemma RequestNeverAborts(n: Node, dst: Addr, now: int, c: Config)
    requires WellFormed(n.table) && Sensible(c) && !n.aborted && dst != UNSET
    requires UNSET !in n.timers && UNSET !in n.pending && dst !in n.pending && !(dst in n.timers && Seeking(n, dst))
    requires forall k :: k != UNSET ==> Attempts(n.table, k) <= c.rreqRetries
    requires Attempts(Purge(n.table, now, c.deletePeriod), dst) < c.rreqRetries
             && Attempts(n.table, dst) < c.rreqRetries
    requires forall k :: k in n.pending ==> n.pending[k] == 1 && Attempts(n.table, k) < c.rreqRetries
                                            && !(k in n.timers && Seeking(n, k))
    ensures RingInv(SendRequest(n, dst, now, c), c)
  {
    hide SearchTable, Calmer, NextTtl;
    var r := SendRequest(n, dst, now, c);
    if n.rreqCount != c.rreqRateLimit {
      SearchCalmer(n.table, dst, now, c);
      RequestEntry(n.table, dst, now, c);
      assert r.table == Purge(SearchTable(n.table, dst, now, c), now, c.deletePeriod);
      assert r.timers.Keys == n.timers.Keys + {dst} && !r.aborted && r.pending == n.pending;
      forall k | k != UNSET && k != dst
        ensures Attempts(r.table, k) <= Attempts(n.table, k)
        ensures Seeking(r, k) ==> Seeking(n, k)
      {
        var rest := r.table - {dst};
        assert k in r.table ==> k in rest && rest[k] == r.table[k];
        CalmerAttempts(n.table, rest, k);
      }
    }
  }

  lemma PurgedRing(n: Node, r: Node, now: int, bad: int, c: Config)
    requires RingInv(n, c) && r.table == Purge(n.table, now, bad)
    requires r.pending == n.pending && r.timers.Keys <= n.timers.Keys && r.aborted == n.aborted
    ensures RingInv(r, c)
    ensures forall k :: k != UNSET ==> Attempts(r.table, k) <= Attempts(n.table, k) && (Seeking(r, k) ==> Seeking(n, k))
  {
    PurgeCalmer(n.table, now, bad);
    PurgeWellFormed(n.table, now, bad);
    Fewer(n, r, c);
    forall k | k != UNSET
      ensures Attempts(r.table, k) <= Attempts(n.table, k) && (Seeking(r, k) ==> Seeking(n, k))
    {
      CalmerAttempts(n.table, r.table, k);
    }
  }

  lemma PurgeAgain(t: Table, k: Addr, now: int, bad: int)
    requires WellFormed(t)
    ensures Attempts(Purge(Purge(t, now, bad), now, bad), k) <= Attempts(Purge(t, now, bad), k)
  {
  }

  lemma OutputRing(n: Node, e: Q.QueueEntry, now: int, c: Config)
    requires RingInv(n, c) && Sensible(c) && e.dst != UNSET && e.dst !in n.pending
    ensures RingInv(DeferredRouteOutput(n, e, now, c), c)
  {
    hide SendRequest, Q.Enqueue, Q.Accepts;
    var q := Q.Enqueue(n.queue, e, now, c.maxQueueLen, c.maxQueueTime);
    assert RingInv(n.(queue := q), c) by { assert forall k :: Seeking(n.(queue := q), k) == Seeking(n, k); }
    var n2 := n.(queue := q, table := Purge(n.table, now, c.deletePeriod));
    PurgedRing(n, n2, now, c.deletePeriod, c);
    if Q.Accepts(n.queue, e, now) && !(e.dst in n2.table && n2.table[e.dst].flag == IN_SEARCH) {
      PurgeAgain(n.table, e.dst, now, c.deletePeriod);
      RequestNeverAborts(n2, e.dst, now, c);
    }
  }

  lemma TimerRing(n: Node, dst: Addr, now: int, c: Config)
    requires RingInv(n, c) && Sensible(c) && dst in n.timers
    ensures RingInv(RouteRequestTimerExpire(n, dst, now, c), c)
  {
    hide SendRequest, GiveUp, SendPacketFromQueue;
    var t := Purge(n.table, now, c.deletePeriod);
    var n2 := n.(table := t, timers := n.timers - {dst});
    PurgedRing(n, n2, now, c.deletePeriod, c);
    var toDst := Lookup(t, dst).GetOr(DefaultEntry(now));
    if dst in t && toDst.flag == VALID {
      NodeViews.SendPacketsCore(n2, dst, toDst, now);
      SameRing(n2, SendPacketFromQueue(n2, dst, toDst, now), c);
    } else if toDst.reqCount != c.rreqRetries && toDst.flag == IN_SEARCH {
      assert Seeking(n, dst);
      PurgeAgain(n.table, dst, now, c.deletePeriod);
      RequestNeverAborts(n2, dst, now, c);
    } else {
      GiveUpRing(n2, dst, now, c);
    }
  }

  lemma SameRing(n: Node, r: Node, c: Config)
    requires RingInv(n, c) && r == n.(queue := r.queue, forwarded := r.forwarded)
    ensures RingInv(r, c)
  {
    assert forall k :: Seeking(r, k) == Seeking(n, k);
  }

  lemma GiveUpRing(n: Node, dst: Addr, now: int, c: Config)
    requires RingInv(n, c)
    ensures RingInv(GiveUp(n, dst, now, c), c)
  {
    hide Q.DropPacketWithDst;
    PurgeCalmer(n.table, now, c.deletePeriod);
    PurgeWellFormed(n.table, now, c.deletePeriod);
    SubCalmer(n.table, Purge(n.table, now, c.deletePeriod), dst);
    Fewer(n, GiveUp(n, dst, now, c), c);
  }

  lemma DeferredRing(n: Node, dst: Addr, now: int, c: Config)
    requires RingInv(n, c) && Sensible(c) && dst in n.pending
    ensures RingInv(SendRequest(n.(pending := n.pending - multiset{dst}), dst, now, c), c)
  {
    hide SendRequest;
    var n1 := n.(pending := n.pending - multiset{dst});
    assert forall k :: Seeking(n1, k) == Seeking(n, k);
    PurgeCalmer(n.table, now, c.deletePeriod);
    PurgeWellFormed(n.table, now, c.deletePeriod);
    CalmerAttempts(n.table, Purge(n.table, now, c.deletePeriod), dst);
    RequestNeverAborts(n1, dst, now, c);
  }

  lemma ReplyRing(n: Node, p: Packet, sender: Addr, now: int, c: Config)
    requires RingInv(n, c) && c.Sane() && ForMe(n, Receive(p, sender)) && Networks.Proper(p.msg)
    ensures RingInv(RecvAodv(n, p, sender, now, c), c)
  {
    hide UpdateRouteToNeighbor, TakeReply, FinishSearch, Still, RingInv;
    var m := p.msg.rrep;
    assert WellFormed(n.table) by { RingWellFormed(n, c); }
    RefreshCalmer(n.table, sender, now, c);
    UpdateRouteToNeighborView(n.table, sender, now, c);
    var n1 := n.(table := UpdateRouteToNeighbor(n.table, sender, now, c));
    assert Still(n, n1) by { RefreshedStill(n, n1); }
    StillRing(n, n1, c);
    TakeReplyStill(n1, m, sender, now, c);
    NodeViews.TakeReplyView(n1, m, sender, now, c);
    var n2 := TakeReply(n1, m, sender, now, c);
    StillRing(n1, n2, c);
    var t := Purge(n1.table, now, c.deletePeriod);
    FinishRing(n2, m, m.dst in t && t[m.dst].flag == IN_SEARCH, sender, now, c);
  }

  lemma RefreshedStill(n: Node, r: Node)
    requires r == n.(table := r.table) && Calmer(n.table, r.table) && WellFormed(r.table)
    ensures Still(n, r)
  {
  }

  lemma RingWellFormed(n: Node, c: Config)
    requires RingInv(n, c)
    ensures WellFormed(n.table)
  {
  }

  lemma StillRing(n: Node, r: Node, c: Config)
    requires RingInv(n, c) && Still(n, r)
    ensures RingInv(r, c)
  {
    Fewer(n, r, c);
  }

  lemma FinishRing(n: Node, m: RrepHeader, searching: bool, sender: Addr, now: int, c: Config)
    requires RingInv(n, c) && c.Sane()
    ensures RingInv(FinishSearch(n, m, searching, sender, now, c), c)
  {
    hide SendPacketFromQueue, Calmer;
    var offered := Offered(m, sender, now);
    UpdateCalmer(n.table, offered);
    var n1 := if searching then n.(table := Update(n.table, offered), timers := n.timers - {m.dst}) else n;
    CalmerReflexive(n.table);
    Fewer(n, n1, c);
    var t := Purge(n1.table, now, c.deletePeriod);
    PurgedRing(n1, n1.(table := t), now, c.deletePeriod, c);
    var route := Lookup(t, m.dst).GetOr(DefaultEntry(now));
    NodeViews.SendPacketsCore(n1.(table := t), m.dst, route, now);
    SameRing(n1.(table := t), SendPacketFromQueue(n1.(table := t), m.dst, route, now), c);
  }

  /** A possible event that does not ask for a search of a destination while one for it is put off. */
  ghost predicate Patient(n: Node, ev: Event) {
    Possible(n, ev) && (ev.Output? ==> ev.entry.dst != UNSET && ev.entry.dst !in n.pending)
  }

  lemma RingKept(n: Node, ev: Event, now: int, c: Config)
    requires RingInv(n, c) && Sensible(c) && Patient(n, ev)
    ensures RingInv(Handle(n, ev, now, c), c)
  {
    hide RecvAodv, DeferredRouteOutput, RouteRequestTimerExpire, SendRequest, NbPurge, NbUpdate, UpdateRouteLifeTime,
      RingInv, Still;
    RingWellFormed(n, c);
    match ev
    case Receive(p, sender) =>
      if ForMe(n, ev) {
        ReplyRing(n, p, sender, now, c);
      } else {
        ReceiveStill(n, p, sender, now, c);
        StillRing(n, RecvAodv(n, p, sender, now, c), c);
      }
    case Output(e) => OutputRing(n, e, now, c);
    case RreqTimer(dst) => TimerRing(n, dst, now, c);
    case Deferred(dst) => DeferredRing(n, dst, now, c);
    case _ =>
      LocalStill(n, ev, now, c);
      StillRing(n, Handle(n, ev, now, c), c);
  }

  ghost predicate PatientRun(n: Node, evs: seq<(Event, int)>, c: Config)
    decreases |evs|
  {
    evs == [] || (Patient(n, evs[0].0) && PatientRun(Handle(n, evs[0].0, evs[0].1, c), evs[1..], c))
  }

  lemma {:induction false} RingAlways(n: Node, evs: seq<(Event, int)>, c: Config)
    requires RingInv(n, c) && Sensible(c) && PatientRun(n, evs, c)
    ensures RingInv(After(n, evs, c), c)
    decreases |evs|
  {
    hide RingInv, Patient, Handle;
    if evs != [] {
      RingKept(n, evs[0].0, evs[0].1, c);
      RingAlways(Handle(n, evs[0].0, evs[0].1, c), evs[1..], c);
    }
  }

  /** The abort in ScheduleRreqRetry is unreachable, in every run under sensible parameters in which no
      destination gets a second search while one is put off; and no count ever passes the retries. */
  lemma NeverAborts(n: Node, evs: seq<(Event, int)>, c: Config)
    requires Started(n) && Sensible(c) && PatientRun(n, evs, c)
    ensures !After(n, evs, c).aborted
    ensures forall k :: k != UNSET ==> Attempts(After(n, evs, c).table, k) <= c.rreqRetries
  {
    hide PatientRun, After;
    RingAlways(n, evs, c);
  }
}
