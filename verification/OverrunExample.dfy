/** A run in which the count of a search jumps over the give-up test. A node that has just been started, with
    the default attributes, uses up its ten requests shortly before the second is over; seven packets for a
    destination put seven more requests off; and when the limiter has started afresh, all seven go out. */
module OverrunExample {
  import opened Basics
  import opened RouteEntries
  import opened Nodes
  import opened SearchStates
  import RingSearches
  import opened RingGuards
  import Q = PacketQueues
  import C = IdCaches

  const FRESH := NewNode(1, 1)

  function Data(uid: nat, dst: Addr): Q.QueueEntry {
    Q.QueueEntry(uid, dst, -1, 0)
  }

  /** The packets come a tenth of a second before the limiter is reset, and the calls that were put off come
      100 microseconds after it: before any search timer. */
  const PACKETS := 9 * SECOND / 10
  const CALLS := SECOND + 100_000

  /** Ten packets for ten destinations, seven for 4, the limiter, and the seven calls. */
  function Trace(k: nat): (Event, int) {
    if k < 10 then (Output(Data(k, 10 + k)), PACKETS)
    else if k < 17 then (Output(Data(k, 4)), PACKETS)
    else if k == 17 then (RateTimer, SECOND)
    else (Deferred(4), CALLS)
  }

  function Prefix(k: nat): seq<(Event, int)> {
    if k == 0 then [] else Prefix(k - 1) + [Trace(k - 1)]
  }

  function StateAt(k: nat): Node {
    if k == 0 then FRESH else Handle(StateAt(k - 1), Trace(k - 1).0, Trace(k - 1).1, DEFAULTS)
  }

  const EVENTS := Prefix(25)

  // ------------------------------------------------------------------------------- ten requests

  /** `k` requests for 10, 11, ... have gone out. */
  ghost predicate Spent(n: Node, k: nat) {
    && WellFormed(n.table) && (forall d :: d in n.table ==> 10 <= d < 10 + k) && n.rreqCount == k
    && n.pending == multiset{} && (forall e :: e in n.queue.waiting ==> e.uid < k)
  }

  /** A packet that is not in the queue is accepted. */
  lemma Accepted(n: Node, uid: nat, dst: Addr, now: int)
    requires forall e :: e in n.queue.waiting ==> e.uid < uid
    ensures Q.Accepts(n.queue, Data(uid, dst), now)
    ensures forall e :: e in Q.Enqueue(n.queue, Data(uid, dst), now, DEFAULTS.maxQueueLen,
                                       DEFAULTS.maxQueueTime).waiting
              ==> e.uid < uid + 1
  {
    hide Q.Enqueue;
    EnqueuedFrom(n.queue, Data(uid, dst), now, DEFAULTS.maxQueueLen, DEFAULTS.maxQueueTime);
    InFilter(n.queue.waiting, Q.Fresh(now));
  }

  /** What a request leaves besides its entry. */
  lemma RequestSent(n: Node, dst: Addr, now: int)
    requires WellFormed(n.table) && n.rreqCount < 10
    ensures var r := SendRequest(n, dst, now, DEFAULTS);
            && r.rreqCount == n.rreqCount + 1 && r.pending == n.pending && r.queue == n.queue && WellFormed(r.table)
            && forall d :: d in r.table ==> d == dst || d in n.table
  {
    hide SearchTable, NextTtl, RequestHeader, C.Remember, Calmer;
    SearchCalmer(n.table, dst, now, DEFAULTS);
    var r := SendRequest(n, dst, now, DEFAULTS);
    assert r.table == Purge(SearchTable(n.table, dst, now, DEFAULTS), now, DEFAULTS.deletePeriod);
    SearchedKeys(n.table, dst, now);
  }

  lemma SearchedKeys(t: Table, dst: Addr, now: int)
    ensures Purge(SearchTable(t, dst, now, DEFAULTS), now, DEFAULTS.deletePeriod).Keys <= t.Keys + {dst}
  {
  }

  lemma OneSpent(n: Node, k: nat)
    requires Spent(n, k) && k < 10
    ensures Spent(Handle(n, Output(Data(k, 10 + k)), PACKETS, DEFAULTS), k + 1)
  {
    hide Q.Enqueue, Q.Accepts, SendRequest, Purge;
    Accepted(n, k, 10 + k, PACKETS);
    PurgeWellFormed(n.table, PACKETS, DEFAULTS.deletePeriod);
    PurgedKeys(n.table, PACKETS);
    var q := Q.Enqueue(n.queue, Data(k, 10 + k), PACKETS, DEFAULTS.maxQueueLen, DEFAULTS.maxQueueTime);
    RequestSent(n.(queue := q, table := Purge(n.table, PACKETS, DEFAULTS.deletePeriod)), 10 + k, PACKETS);
  }

  lemma PurgedKeys(t: Table, now: int)
    ensures Purge(t, now, DEFAULTS.deletePeriod).Keys <= t.Keys
  {
  }

  lemma {:induction false} TenSpent(k: nat)
    requires k <= 10
    ensures Spent(StateAt(k), k) && PossibleAt(k)
  {
    hide Handle, Spent;
    if k > 0 {
      TenSpent(k - 1);
      OneSpent(StateAt(k - 1), k - 1);
    } else {
      assert Spent(FRESH, 0) by { NothingSpent(); }
    }
  }

  lemma NothingSpent()
    ensures Spent(FRESH, 0)
  {
  }

  // ------------------------------------------------------------------------------- seven put off

  /** The limit is reached and `k` requests for 4 are put off. */
  ghost predicate Waits(n: Node, k: nat) {
    && WellFormed(n.table) && 4 !in n.table && n.rreqCount == 10
    && n.pending[4] == k && (forall e :: e in n.queue.waiting ==> e.uid < 10 + k)
  }

  lemma OneMoreWaits(n: Node, k: nat)
    requires Waits(n, k) && k < 7
    ensures Waits(Handle(n, Output(Data(10 + k, 4)), PACKETS, DEFAULTS), k + 1)
  {
    hide Q.Enqueue, Q.Accepts;
    Accepted(n, 10 + k, 4, PACKETS);
  }

  lemma {:induction false} SevenWait(k: nat)
    requires k <= 7
    ensures Waits(StateAt(10 + k), k) && (k < 7 ==> PossibleAt(10 + k))
  {
    hide Handle;
    if k > 0 {
      SevenWait(k - 1);
      OneMoreWaits(StateAt(10 + k - 1), k - 1);
    } else {
      TenSpent(10);
    }
  }

  // ------------------------------------------------------------------------------- seven go out

  /** The ring and the count of each of the seven. */
  function RingOf(k: nat): (int, int) {
    if k == 1 then (1, 0) else if k == 2 then (3, 0) else if k == 3 then (5, 0) else if k == 4 then (7, 0)
    else (35, k - 4)
  }

  /** `k` of the seven have gone out. */
  ghost predicate GoneOut(n: Node, k: nat) {
    && WellFormed(n.table) && n.rreqCount == k && n.pending[4] == 7 - k
    && (k == 0 ==> 4 !in n.table)
    && (k > 0 ==> 4 in n.table && n.table[4].flag == IN_SEARCH
                  && n.table[4].hops == RingOf(k).0 && n.table[4].reqCount == RingOf(k).1)
  }

  lemma OneGoesOut(n: Node, k: nat)
    requires GoneOut(n, k) && k < 7
    ensures GoneOut(Handle(n, Deferred(4), CALLS, DEFAULTS), k + 1)
  {
    hide SendRequest;
    var m := n.(pending := n.pending - multiset{4});
    RequestSent(m, 4, CALLS);
    Requested(m, 4, CALLS, DEFAULTS);
    KeptSearch(n.table, 4);
  }

  /** A purge leaves a search alone. */
  lemma KeptSearch(t: Table, k: Addr)
    requires k in t ==> t[k].flag == IN_SEARCH
    ensures var p := Purge(t, CALLS, DEFAULTS.deletePeriod); (k in p <==> k in t) && (k in t ==> p[k] == t[k])
  {
  }

  lemma {:induction false} SevenGoOut(k: nat)
    requires k <= 7
    ensures GoneOut(StateAt(18 + k), k) && PossibleAt(18 + k - 1) && (k < 7 ==> PossibleAt(18 + k))
  {
    hide Handle;
    if k > 0 {
      SevenGoOut(k - 1);
      OneGoesOut(StateAt(18 + k - 1), k - 1);
    } else {
      SevenWait(7);
      Reset(StateAt(17));
    }
  }

  lemma Reset(n: Node)
    ensures Handle(n, RateTimer, SECOND, DEFAULTS) == n.(rreqCount := 0)
  {
  }

  // ------------------------------------------------------------------------------- the run

  ghost predicate PossibleAt(k: nat) {
    Possible(StateAt(k), Trace(k).0)
  }

  lemma {:induction false} AllPossible(k: nat)
    requires k < 25
    ensures PossibleAt(k)
  {
    if k < 10 {
      TenSpent(k);
    } else if k < 17 {
      SevenWait(k - 10);
    } else {
      SevenGoOut(if k == 17 then 0 else k - 18);
    }
  }

  /** One event more at the end of a run. */
  lemma {:induction false} AtEnd(n: Node, evs: seq<(Event, int)>, e: (Event, int))
    ensures After(n, evs + [e], DEFAULTS) == Handle(After(n, evs, DEFAULTS), e.0, e.1, DEFAULTS)
    ensures PossibleRun(n, evs, DEFAULTS) && Possible(After(n, evs, DEFAULTS), e.0) ==>
              PossibleRun(n, evs + [e], DEFAULTS)
    decreases |evs|
  {
    hide Handle, Possible;
    if evs == [] {
      assert [] + [e] == [e] && [e][1..] == [];
      assert After(Handle(n, e.0, e.1, DEFAULTS), [], DEFAULTS) == Handle(n, e.0, e.1, DEFAULTS);
    } else {
      TailOfConcat(evs, [e]);
      AtEnd(Handle(n, evs[0].0, evs[0].1, DEFAULTS), evs[1..], e);
    }
  }

  lemma {:induction false} RunsTo(k: nat)
    requires k <= 25
    ensures After(FRESH, Prefix(k), DEFAULTS) == StateAt(k) && PossibleRun(FRESH, Prefix(k), DEFAULTS)
  {
    hide Handle, Possible;
    if k > 0 {
      RunsTo(k - 1);
      AllPossible(k - 1);
      AtEnd(FRESH, Prefix(k - 1), Trace(k - 1));
    }
  }

  /** The events come in the order of time. */
  lemma {:induction false} InOrder(k: nat)
    ensures |Prefix(k)| == k && forall i :: 0 <= i < k ==> Prefix(k)[i] == Trace(i)
  {
    if k > 0 {
      InOrder(k - 1);
    }
  }

  /** The seventh call goes out although the count has reached the retries: the count passes them, with the
      default attributes and each event at the time at which the program has it. (HELLOs, which change neither
      table nor counters, are not shown.) */
  lemma SevenPutOff()
    ensures RingSearches.Sensible(DEFAULTS) && Started(FRESH) && PossibleRun(FRESH, EVENTS, DEFAULTS)
    ensures forall i, j :: 0 <= i < j < |EVENTS| ==> EVENTS[i].1 <= EVENTS[j].1
    ensures OverrunIn(FRESH, EVENTS, DEFAULTS)
    ensures RingSearches.Attempts(After(FRESH, EVENTS, DEFAULTS).table, 4) == DEFAULTS.rreqRetries + 1
  {
    hide Handle, OverrunIn, WithinAlways, PossibleRun, After, StateAt, Prefix;
    RunsTo(25);
    InOrder(25);
    SevenGoOut(7);
    var r := After(FRESH, EVENTS, DEFAULTS);
    assert RingSearches.Attempts(r.table, 4) == 3 && !Within(r, DEFAULTS);
    WithinAtEnd(FRESH, EVENTS, DEFAULTS);
    CountsWithinIff(FRESH, EVENTS, DEFAULTS);
  }
}
