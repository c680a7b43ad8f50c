/** Packets left behind. SendPacketFromQueue stops at the first packet that is tied to another interface,
    when the search has already been stopped: exactly when that leaves packets waiting with nobody to look
    after them, and a run in which it does. */
module Strandings {
  import opened Basics
  import opened Headers
  import opened RouteEntries
  import opened Nodes
  import opened RouteViews
  import opened NodeViews
  import Networks
  import opened SearchStates
  import opened RingGuards
  import Floods
  import Q = PacketQueues
  import C = IdCaches

  /** Packets for `d` wait, and no timer and no deferred request will see to them. */
  ghost predicate Stranded(n: Node, d: Addr) {
    Waiting(n, d) && !Cared(n, d)
  }

  /** Some packet but the last is tied to another interface than `device`. */
  ghost predicate StopsShort(w: seq<Q.QueueEntry>, device: int) {
    exists i :: 0 <= i < |w| - 1 && Mismatch(w[i], device)
  }

  lemma WaitingIs(n: Node, d: Addr)
    ensures Waiting(n, d) <==> Filter(n.queue.waiting, Q.IsFor(d)) != []
  {
    InFilter(n.queue.waiting, Q.IsFor(d));
    var f := Filter(n.queue.waiting, Q.IsFor(d));
    if f != [] {
      assert f[0] in f;
    }
  }

  /** What SendPacketFromQueue leaves behind. */
  lemma LeavesSome(n: Node, dst: Addr, route: Entry, now: int)
    ensures var r := SendPacketFromQueue(n, dst, route, now);
            && r == n.(queue := r.queue, forwarded := r.forwarded)
            && (Waiting(r, dst) <==> StopsShort(Due(n.queue.waiting, dst, now), DeviceOf(n, route)))
  {
    hide SendPacketFromQueue, Waiting;
    SendPacketsCore(n, dst, route, now);
    DrainsIff(n, dst, route, now);
    WaitingIs(SendPacketFromQueue(n, dst, route, now), dst);
  }

  // ------------------------------------------------------------------------------- the timer

  /** The RREQ timer strands packets for its destination exactly when there is a VALID route by now, some
      packet but the last is tied to another interface, and no request has been put off. */
  lemma TimerStrandsIff(n: Node, dst: Addr, now: int, c: Config)
    requires WellFormed(n.table) && c.Sane() && dst in n.timers
    requires !n.aborted && !AbortsNext(n, RreqTimer(dst), now, c)
    ensures var t := Purge(n.table, now, c.deletePeriod);
            Stranded(RouteRequestTimerExpire(n, dst, now, c), dst)
            <==> ValidRoute(t, dst) && dst !in n.pending
                 && StopsShort(Due(n.queue.waiting, dst, now), DeviceOf(n, t[dst]))
  {
    hide SendRequest, GiveUp, SendPacketFromQueue, Waiting, StopsShort, Due, AbortsNext;
    NotAborted(n, RreqTimer(dst), now, c);
    var t := Purge(n.table, now, c.deletePeriod);
    var m := n.(table := t, timers := n.timers - {dst});
    var toDst := Lookup(t, dst).GetOr(DefaultEntry(now));
    if dst in t && toDst.flag == VALID {
      LeavesSome(m, dst, toDst, now);
    } else if toDst.reqCount != c.rreqRetries && toDst.flag == IN_SEARCH {
      RequestCares(m, dst, now, c);
    } else {
      GiveUpClears(m, dst, now, c);
    }
  }

  lemma RequestCares(m: Node, dst: Addr, now: int, c: Config)
    ensures var r := SendRequest(m, dst, now, c); r.aborted || Cared(r, dst)
  {
    hide EmitRequest;
  }

  lemma GiveUpClears(m: Node, dst: Addr, now: int, c: Config)
    ensures !Waiting(GiveUp(m, dst, now, c), dst)
  {
    var p := Q.Purge(m.queue, now);
    InFilter(p.waiting, Q.NotFor(dst));
  }

  // ------------------------------------------------------------------------------- the reply

  /** The reply finds a search to end: the entry as the sender's refreshed route leaves it. */
  ghost predicate EndsSearch(n: Node, m: RrepHeader, sender: Addr, now: int) {
    var v := Refreshed(ViewOf(n.table, now), sender);
    m.dst in v && v[m.dst].flag == IN_SEARCH
  }

  lemma FinishStrandsIff(n: Node, m: RrepHeader, searching: bool, sender: Addr, now: int, c: Config)
    requires Settled(n.table, now) && c.Sane() && m.dst in n.table && m.dst != UNSET
    ensures var r := FinishSearch(n, m, searching, sender, now, c);
            m.dst in r.table
            && (Stranded(r, m.dst)
                <==> m.dst !in n.pending && (searching || m.dst !in n.timers)
                     && StopsShort(Due(n.queue.waiting, m.dst, now), DeviceOf(r, r.table[m.dst])))
  {
    hide SendPacketFromQueue, Waiting, StopsShort, Due;
    FinishSearchView(n, m, searching, sender, now, c);
    var offered := Offered(m, sender, now);
    UpdateView(n.table, offered, now);
    var n1 := if searching then n.(table := Update(n.table, offered), timers := n.timers - {m.dst}) else n;
    PurgeView(n1.table, now, c.deletePeriod);
    LeavesSome(n1, m.dst, n1.table[m.dst], now);
  }

  /** A RREP that ends at its originator strands packets for its destination exactly when no request for it
      has been put off, no timer goes on running beside it, and some packet but the last is tied to
      another interface than that of the route now in the table. */
  lemma ReplyStrandsIff(n: Node, p: Packet, sender: Addr, now: int, c: Config)
    requires WellFormed(n.table) && c.Sane() && ForMe(n, Receive(p, sender)) && Networks.Proper(p.msg)
    ensures var m := p.msg.rrep; var r := RecvAodv(n, p, sender, now, c);
            m.dst in r.table
            && (Stranded(r, m.dst)
                <==> m.dst !in n.pending && (EndsSearch(n, m, sender, now) || m.dst !in n.timers)
                     && StopsShort(Due(n.queue.waiting, m.dst, now), DeviceOf(r, r.table[m.dst])))
  {
    hide UpdateRouteToNeighbor, TakeReply, FinishSearch, Stranded, StopsShort, Due, ViewOf, Refreshed;
    var m := p.msg.rrep;
    UpdateRouteToNeighborView(n.table, sender, now, c);
    var n1 := n.(table := UpdateRouteToNeighbor(n.table, sender, now, c));
    TakeReplyView(n1, m, sender, now, c);
    var n2 := TakeReply(n1, m, sender, now, c);
    var t := Purge(n1.table, now, c.deletePeriod);
    var searching := m.dst in t && t[m.dst].flag == IN_SEARCH;
    SearchSeen(n1.table, m.dst, now, c.deletePeriod);
    FinishStrandsIff(n2, m, searching, sender, now, c);
  }

  lemma SearchSeen(t: Table, k: Addr, now: int, bad: int)
    requires Settled(t, now) && k != UNSET && bad >= 0
    ensures Purge(t, now, bad) == t
    ensures k in t && t[k].flag == IN_SEARCH <==> k in ViewOf(t, now) && ViewOf(t, now)[k].flag == IN_SEARCH
  {
    PurgeView(t, now, bad);
    SettledView(t, now);
  }

  // ------------------------------------------------------------------------------- every event

  /** The request that the event sends, if it sends one, runs into the abort. */
  predicate AbortsNext(n: Node, ev: Event, now: int, c: Config) {
    match ev
    case Output(e) => Floods.Launches(n, ev, now, c) && AbortsBy(n, e.dst, now, c)
    case RreqTimer(k) => Floods.Launches(n, ev, now, c) && AbortsBy(n, k, now, c)
    case Deferred(k) => AbortsBy(n, k, now, c)
    case _ => false
  }

  /** The interface of the route to its destination that a RREP leaves. */
  ghost function DeviceAfter(n: Node, m: RrepHeader, sender: Addr, now: int): int {
    var v := Refreshed(ViewOf(n.table, now), sender);
    if EndsSearch(n, m, sender, now) || Installs(v, m) || v[m.dst].bound then n.iface else -1
  }

  lemma DeviceFound(n: Node, p: Packet, sender: Addr, now: int, c: Config)
    requires WellFormed(n.table) && c.Sane() && now >= 0 && ForMe(n, Receive(p, sender)) && Networks.Proper(p.msg)
    ensures var m := p.msg.rrep; var r := RecvAodv(n, p, sender, now, c);
            m.dst in r.table && DeviceOf(r, r.table[m.dst]) == DeviceAfter(n, m, sender, now)
  {
    hide UpdateRouteToNeighbor, RecvReply, ViewOf;
    var m := p.msg.rrep;
    UpdateRouteToNeighborView(n.table, sender, now, c);
    var n1 := n.(table := UpdateRouteToNeighbor(n.table, sender, now, c));
    RecvReplyView(n1, m, p.ttl, sender, now, c);
    var r := RecvReply(n1, m, p.ttl, sender, now, c);
    SettledView(r.table, now);
    assert m.dst in ViewOf(r.table, now);
    SettledEntry(r.table, m.dst, now);
  }

  /** The event leaves packets for `d` waiting with nobody to look after them: a packet joins a search that
      nobody drives, or a timer or a RREP forwards packets, stops short, and ends the care for `d`. */
  ghost predicate Strands(n: Node, ev: Event, now: int, c: Config, d: Addr) {
    var t, w := Purge(n.table, now, c.deletePeriod), Due(n.queue.waiting, d, now);
    match ev
    case Output(e) =>
      e.dst == d && Q.Accepts(n.queue, e, now) && d in t && t[d].flag == IN_SEARCH && !Cared(n, d)
    case RreqTimer(k) =>
      k == d && ValidRoute(t, d) && d !in n.pending && StopsShort(w, DeviceOf(n, t[d]))
    case Receive(p, sender) =>
      && ForMe(n, ev) && p.msg.rrep.dst == d && d !in n.pending
      && (EndsSearch(n, p.msg.rrep, sender, now) || d !in n.timers)
      && StopsShort(w, DeviceAfter(n, p.msg.rrep, sender, now))
    case _ => false
  }

  /** Nothing new waits for `d`, and whoever looked after it still does. */
  ghost predicate NoWorse(n: Node, r: Node, d: Addr) {
    (Waiting(r, d) ==> Waiting(n, d)) && (Cared(n, d) ==> Cared(r, d))
  }

  lemma OthersSent(n: Node, dst: Addr, route: Entry, now: int, d: Addr)
    ensures NoWorse(n, SendPacketFromQueue(n, dst, route, now), d)
  {
    SendPacketsCore(n, dst, route, now);
    SendsNothingElse(n, dst, route, now, d);
  }

  lemma OthersGivenUp(n: Node, dst: Addr, now: int, c: Config, d: Addr)
    requires d != dst
    ensures NoWorse(n, GiveUp(n, dst, now, c), d)
  {
    var p := Q.Purge(n.queue, now);
    InFilter(n.queue.waiting, Q.Fresh(now));
    InFilter(p.waiting, Q.NotFor(dst));
  }

  lemma OthersRequested(n: Node, dst: Addr, now: int, c: Config, d: Addr)
    ensures d != dst ==> NoWorse(n, SendRequest(n, dst, now, c), d)
    ensures SendRequest(n, dst, now, c).queue == n.queue
  {
    hide EmitRequest, SearchTable, C.Remember, RequestHeader;
    EmittedSame(n, dst, now, c);
  }

  lemma EmittedSame(n: Node, dst: Addr, now: int, c: Config)
    ensures var e := EmitRequest(n, dst, now, c);
            e.queue == n.queue && e.timers == n.timers && e.pending == n.pending && e.aborted == n.aborted
  {
  }

  lemma OutputStrandsIff(n: Node, e: Q.QueueEntry, now: int, c: Config, d: Addr)
    requires WellFormed(n.table) && c.Sane() && !n.aborted && !AbortsNext(n, Output(e), now, c) && !Stranded(n, d)
    ensures Stranded(DeferredRouteOutput(n, e, now, c), d) <==> Strands(n, Output(e), now, c, d)
  {
    hide SendRequest, Q.Enqueue, Q.Accepts, AbortsBy;
    var q := Q.Enqueue(n.queue, e, now, c.maxQueueLen, c.maxQueueTime);
    var t := Purge(n.table, now, c.deletePeriod);
    var m := n.(table := t, queue := q);
    EnqueuedFrom(n.queue, e, now, c.maxQueueLen, c.maxQueueTime);
    if Q.Accepts(n.queue, e, now) {
      Joined(n.queue, e, now, c);
      if !(e.dst in t && t[e.dst].flag == IN_SEARCH) {
        RequestCares(m, e.dst, now, c);
        PurgeWellFormed(n.table, now, c.deletePeriod);
        SentAborts(n, m, e.dst, now, c);
        OthersRequested(m, e.dst, now, c, d);
      }
    }
  }

  /** An accepted packet waits. */
  lemma Joined(q: Q.Queue, e: Q.QueueEntry, now: int, c: Config)
    requires Q.Accepts(q, e, now)
    ensures exists x :: x in Q.Enqueue(q, e, now, c.maxQueueLen, c.maxQueueTime).waiting && x.dst == e.dst
  {
    var w := Q.Enqueue(q, e, now, c.maxQueueLen, c.maxQueueTime).waiting;
    assert w[|w| - 1] == e.(expire := now + c.maxQueueTime);
  }

  /** A request that is sent aborts just when it was due to. */
  lemma SentAborts(n: Node, m: Node, dst: Addr, now: int, c: Config)
    requires WellFormed(n.table) && c.Sane() && m.rreqCount == n.rreqCount && m.aborted == n.aborted
    requires m.table == n.table || m.table == Purge(n.table, now, c.deletePeriod)
    ensures SendRequest(m, dst, now, c).aborted <==> n.aborted || AbortsBy(n, dst, now, c)
    ensures AbortsBy(n, dst, now, c) ==> n.rreqCount != c.rreqRateLimit
  {
    hide NextTtl, SendRequest;
    PurgeWellFormed(n.table, now, c.deletePeriod);
    PurgeIdempotent(n.table, now, c.deletePeriod);
    RequestAborts(m, dst, now, c);
  }

  lemma TimerEventStrandsIff(n: Node, k: Addr, now: int, c: Config, d: Addr)
    requires WellFormed(n.table) && c.Sane() && k in n.timers && !n.aborted
    requires !AbortsNext(n, RreqTimer(k), now, c) && !Stranded(n, d)
    ensures Stranded(RouteRequestTimerExpire(n, k, now, c), d) <==> Strands(n, RreqTimer(k), now, c, d)
  {
    hide SendRequest, GiveUp, SendPacketFromQueue, Waiting, StopsShort, Due, AbortsBy;
    var t := Purge(n.table, now, c.deletePeriod);
    var m := n.(table := t, timers := n.timers - {k});
    var toDst := Lookup(t, k).GetOr(DefaultEntry(now));
    PurgeWellFormed(n.table, now, c.deletePeriod);
    SentAborts(n, m, k, now, c);
    SendPacketsCore(m, k, toDst, now);
    if d == k {
      TimerStrandsIff(n, k, now, c);
    } else {
      SameWaiting(n, m, d);
      OthersSent(m, k, toDst, now, d);
      OthersGivenUp(m, k, now, c, d);
      OthersRequested(m, k, now, c, d);
    }
  }

  lemma SameWaiting(n: Node, m: Node, d: Addr)
    requires m.queue == n.queue
    ensures Waiting(m, d) <==> Waiting(n, d)
  {
  }

  lemma DeferredNeverStrands(n: Node, k: Addr, now: int, c: Config, d: Addr)
    requires WellFormed(n.table) && c.Sane() && k in n.pending && !n.aborted
    requires !AbortsNext(n, Deferred(k), now, c) && !Stranded(n, d)
    ensures !Stranded(SendRequest(n.(pending := n.pending - multiset{k}), k, now, c), d)
  {
    hide SendRequest, AbortsBy;
    var m := n.(pending := n.pending - multiset{k});
    SentAborts(n, m, k, now, c);
    RequestCares(m, k, now, c);
    OthersRequested(m, k, now, c, d);
  }

  lemma ReplyEventStrandsIff(n: Node, p: Packet, sender: Addr, now: int, c: Config, d: Addr)
    requires WellFormed(n.table) && c.Sane() && now >= 0 && ForMe(n, Receive(p, sender)) && Networks.Proper(p.msg)
    requires !Stranded(n, d)
    ensures Stranded(RecvAodv(n, p, sender, now, c), d) <==> Strands(n, Receive(p, sender), now, c, d)
  {
    hide RecvAodv, StopsShort, Due, DeviceAfter, EndsSearch;
    var m := p.msg.rrep;
    if m.dst == d {
      ReplyStrandsIff(n, p, sender, now, c);
      DeviceFound(n, p, sender, now, c);
    } else {
      OthersReplied(n, p, sender, now, c, d);
    }
  }

  lemma OthersReplied(n: Node, p: Packet, sender: Addr, now: int, c: Config, d: Addr)
    requires WellFormed(n.table) && c.Sane() && ForMe(n, Receive(p, sender)) && p.msg.rrep.dst != d
             && Networks.Proper(p.msg)
    ensures NoWorse(n, RecvAodv(n, p, sender, now, c), d)
  {
    hide UpdateRouteToNeighbor, InstallRoute, SendPacketFromQueue, Purge, Update;
    var m := p.msg.rrep;
    var n1 := n.(table := UpdateRouteToNeighbor(n.table, sender, now, c));
    var n2 := TakeReply(n1, m, sender, now, c);
    var t := Purge(n1.table, now, c.deletePeriod);
    var searching := m.dst in t && t[m.dst].flag == IN_SEARCH;
    OthersFinished(n2, m, searching, sender, now, c, d);
    SameWaiting(n, n2, d);
    assert RecvAodv(n, p, sender, now, c) == FinishSearch(n2, m, searching, sender, now, c);
  }

  lemma OthersFinished(n: Node, m: RrepHeader, searching: bool, sender: Addr, now: int, c: Config, d: Addr)
    requires m.dst != d
    ensures NoWorse(n, FinishSearch(n, m, searching, sender, now, c), d)
  {
    hide Purge, Update, SendPacketFromQueue;
    var n1 := if searching
              then n.(table := Update(n.table, Offered(m, sender, now)), timers := n.timers - {m.dst})
              else n;
    var t := Purge(n1.table, now, c.deletePeriod);
    OthersSent(n1.(table := t), m.dst, Lookup(t, m.dst).GetOr(DefaultEntry(now)), now, d);
    SameWaiting(n, n1.(table := t), d);
  }

  /** For every event that does not abort the program: packets for `d` become stranded exactly when the event
      is one of three, and meets its condition, in the state before it. */
  lemma StrandsIff(n: Node, ev: Event, now: int, c: Config, d: Addr)
    requires WellFormed(n.table) && c.Sane() && now >= 0 && Enabled(n, ev)
             && (ev.Receive? ==> Networks.Proper(ev.packet.msg))
    requires !n.aborted && !AbortsNext(n, ev, now, c) && !Stranded(n, d)
    ensures WellFormed(Handle(n, ev, now, c).table) && !Handle(n, ev, now, c).aborted
    ensures Stranded(Handle(n, ev, now, c), d) <==> Strands(n, ev, now, c, d)
  {
    hide RecvAodv, DeferredRouteOutput, RouteRequestTimerExpire, SendRequest, NbPurge, NbUpdate, UpdateRouteLifeTime,
      UpdateRouteToNeighbor, Still, Stranded, StopsShort, Due, AbortsNext, DeviceAfter, EndsSearch;
    NotAborted(n, ev, now, c);
    match ev
    case Receive(p, sender) =>
      if ForMe(n, ev) {
        ReplyEventStrandsIff(n, p, sender, now, c, d);
      } else {
        ReceiveStill(n, p, sender, now, c);
        StillSafe(n, RecvAodv(n, p, sender, now, c), d);
      }
    case Output(e) => OutputStrandsIff(n, e, now, c, d);
    case RreqTimer(k) => TimerEventStrandsIff(n, k, now, c, d);
    case Deferred(k) => DeferredNeverStrands(n, k, now, c, d);
    case _ =>
      LocalStill(n, ev, now, c);
      StillSafe(n, Handle(n, ev, now, c), d);
  }

  lemma StillSafe(n: Node, r: Node, d: Addr)
    requires Still(n, r) && !Stranded(n, d)
    ensures !Stranded(r, d)
  {
  }

  /** An event aborts just when the request it sends was due to. */
  lemma NotAborted(n: Node, ev: Event, now: int, c: Config)
    requires WellFormed(n.table) && c.Sane() && Enabled(n, ev) && (ev.Receive? ==> Networks.Proper(ev.packet.msg))
    ensures var r := Handle(n, ev, now, c);
            WellFormed(r.table) && (r.aborted <==> n.aborted || AbortsNext(n, ev, now, c))
  {
    hide RecvAodv, SendRequest, NbPurge, NbUpdate, UpdateRouteLifeTime, UpdateRouteToNeighbor, Still, AbortsBy, GiveUp,
      SendPacketFromQueue, Q.Enqueue, Q.Accepts;
    var t := Purge(n.table, now, c.deletePeriod);
    PurgeWellFormed(n.table, now, c.deletePeriod);
    match ev
    case Receive(p, sender) =>
      if ForMe(n, ev) {
        ReplyEffect(n, p, sender, now, c);
      } else {
        ReceiveStill(n, p, sender, now, c);
        StillNoFurther(n, RecvAodv(n, p, sender, now, c));
      }
    case Output(e) =>
      var m := n.(table := t, queue := Q.Enqueue(n.queue, e, now, c.maxQueueLen, c.maxQueueTime));
      SentAborts(n, m, e.dst, now, c);
      SentSound(m, e.dst, now, c);
    case RreqTimer(k) =>
      var m := n.(table := t, timers := n.timers - {k});
      var toDst := Lookup(t, k).GetOr(DefaultEntry(now));
      SentAborts(n, m, k, now, c);
      SentSound(m, k, now, c);
      SendPacketsCore(m, k, toDst, now);
      GivenUp(m, k, now, c);
    case Deferred(k) =>
      var m := n.(pending := n.pending - multiset{k});
      SentAborts(n, m, k, now, c);
      SentSound(m, k, now, c);
    case _ =>
      LocalStill(n, ev, now, c);
      StillNoFurther(n, Handle(n, ev, now, c));
  }

  lemma SentSound(m: Node, dst: Addr, now: int, c: Config)
    requires WellFormed(m.table)
    ensures WellFormed(SendRequest(m, dst, now, c).table)
    ensures m.rreqCount == c.rreqRateLimit ==> SendRequest(m, dst, now, c).aborted == m.aborted
  {
    hide SendRequest;
    if m.rreqCount == c.rreqRateLimit {
      PutOffRequest(m, dst, now, c);
      RequestAborts(m, dst, now, c);
    } else {
      Requested(m, dst, now, c);
    }
  }

  // ------------------------------------------------------------------------------- every run

  /** Every event of the run can happen, and none aborts the program. */
  ghost predicate SoundRun(n: Node, evs: seq<(Event, int)>, c: Config)
    decreases |evs|
  {
    evs == []
    || (var ev, now := evs[0].0, evs[0].1;
        Enabled(n, ev) && now >= 0 && (ev.Receive? ==> Networks.Proper(ev.packet.msg)) && !AbortsNext(n, ev, now, c)
        && SoundRun(Handle(n, ev, now, c), evs[1..], c))
  }

  /** Some event of the run strands packets for `d`. */
  ghost predicate StrandsIn(n: Node, evs: seq<(Event, int)>, c: Config, d: Addr)
    decreases |evs|
  {
    evs != [] && (Strands(n, evs[0].0, evs[0].1, c, d) || StrandsIn(Handle(n, evs[0].0, evs[0].1, c), evs[1..], c, d))
  }

  /** No packet for `d` is stranded in any state of the run. */
  ghost predicate NeverStranded(n: Node, evs: seq<(Event, int)>, c: Config, d: Addr)
    decreases |evs|
  {
    !Stranded(n, d) && (evs == [] || NeverStranded(Handle(n, evs[0].0, evs[0].1, c), evs[1..], c, d))
  }

  lemma {:induction false} StrandsAlways(n: Node, evs: seq<(Event, int)>, c: Config, d: Addr)
    requires WellFormed(n.table) && c.Sane() && !n.aborted && !Stranded(n, d) && SoundRun(n, evs, c)
    ensures NeverStranded(n, evs, c, d) <==> !StrandsIn(n, evs, c, d)
    decreases |evs|
  {
    hide Handle, Strands, Stranded, AbortsNext;
    if evs != [] {
      var r := Handle(n, evs[0].0, evs[0].1, c);
      StrandsIff(n, evs[0].0, evs[0].1, c, d);
      if !Stranded(r, d) {
        StrandsAlways(r, evs[1..], c, d);
      } else {
        AlreadyStranded(r, evs[1..], c, d);
      }
    }
  }

  lemma AlreadyStranded(n: Node, evs: seq<(Event, int)>, c: Config, d: Addr)
    requires Stranded(n, d)
    ensures !NeverStranded(n, evs, c, d)
  {
  }

  /** Over every run of a started node, whatever interfaces its packets are tied to: packets for `d` are never
      stranded if and only if no event meets its condition for `d`. */
  lemma NeverStrandedIff(n: Node, evs: seq<(Event, int)>, c: Config, d: Addr)
    requires Started(n) && c.Sane() && SoundRun(n, evs, c)
    ensures NeverStranded(n, evs, c, d) <==> !StrandsIn(n, evs, c, d)
  {
    hide SoundRun, StrandsIn, NeverStranded;
    StrandsAlways(n, evs, c, d);
  }

  // ------------------------------------------------------------------------------- a run that strands a packet

  /** A node that has just been started, on interface 1. */
  const FRESH := NewNode(1, 1)

  /** A packet for 4 tied to interface 2, and one tied to none. */
  const TIED := Q.QueueEntry(0, 4, 2, 0)
  const FREE := Q.QueueEntry(1, 4, -1, 0)

  /** The answer of node 4, as node 3 passes it on. */
  const ANSWER := Packet(Rrep(NewRrep(1, 4, 7, 1, DEFAULTS.myRouteTimeout)), 1, To(1))

  const EVENTS: seq<(Event, int)> := [(Output(TIED), 0), (Output(FREE), 0), (Receive(ANSWER, 3), 0)]

  function Searching1(): Node {
    Handle(FRESH, Output(TIED), 0, DEFAULTS)
  }

  /** The first packet starts a search. */
  lemma SearchBegins()
    ensures var n := Searching1();
            && n.me == 1 && n.iface == 1 && n.queue.waiting == [TIED.(expire := 30 * SECOND)] && n.pending == multiset{}
            && WellFormed(n.table) && 4 in n.table && n.table[4].flag == IN_SEARCH
  {
    hide SearchTable;
    var q := Q.Enqueue(Q.EMPTY, TIED, 0, 64, 30 * SECOND);
    assert q.waiting == [TIED.(expire := 30 * SECOND)];
    assert Purge(map[], 0, DEFAULTS.deletePeriod) == map[];
    SearchCalmer(map[], 4, 0, DEFAULTS);
  }

  /** The second one only waits. */
  lemma SecondWaits(n: Node)
    requires n.queue.waiting == [TIED.(expire := 30 * SECOND)] && WellFormed(n.table)
    requires 4 in n.table && n.table[4].flag == IN_SEARCH
    ensures var r := Handle(n, Output(FREE), 0, DEFAULTS);
            && r == n.(table := r.table, queue := r.queue) && WellFormed(r.table)
            && 4 in r.table && r.table[4].flag == IN_SEARCH
            && r.queue.waiting == [TIED.(expire := 30 * SECOND), FREE.(expire := 30 * SECOND)]
  {
    hide SendRequest;
    NothingStale(n.queue.waiting, 0);
    PurgeWellFormed(n.table, 0, DEFAULTS.deletePeriod);
  }

  /** Both are due, and the first is tied to another interface. */
  lemma BothDue(w: seq<Q.QueueEntry>)
    requires w == [TIED.(expire := 30 * SECOND), FREE.(expire := 30 * SECOND)]
    ensures Due(w, 4, 0) == w && StopsShort(Due(w, 4, 0), 1)
  {
    FilterAll(w, Q.Fresh(0));
    FilterAll(w, Q.IsFor(4));
    assert Mismatch(w[0], 1);
  }

  /** The answer gives node 1 a VALID route to 4 and stops its search; the packet behind the one that does
      not fit goes on waiting, and nobody will look after it. */
  lemma PacketStranded()
    ensures Started(FRESH) && FRESH.table == map[]
    ensures var r := After(FRESH, EVENTS, DEFAULTS); ValidRoute(r.table, 4) && Stranded(r, 4)
  {
    hide SendRequest, RecvAodv, Stranded, StopsShort, Due, DeferredRouteOutput;
    var n1 := Searching1();
    SearchBegins();
    var n2 := Handle(n1, Output(FREE), 0, DEFAULTS);
    SecondWaits(n1);
    var r := Handle(n2, Receive(ANSWER, 3), 0, DEFAULTS);
    HandleReceive(n2, Receive(ANSWER, 3), 0, DEFAULTS);
    BothDue(n2.queue.waiting);
    ReplyStrandsIff(n2, ANSWER, 3, 0, DEFAULTS);
    Answered4(n2);
    Unrolled(FRESH, n1, n2, r, EVENTS);
  }

  /** The route is the one offered, through the node's own interface. */
  lemma Answered4(n: Node)
    requires n.me == 1 && n.iface == 1 && WellFormed(n.table) && 4 in n.table && n.table[4].flag == IN_SEARCH
    ensures var r := RecvAodv(n, ANSWER, 3, 0, DEFAULTS);
            && ValidRoute(r.table, 4) && DeviceOf(r, r.table[4]) == 1 && EndsSearch(n, ANSWER.msg.rrep, 3, 0)
  {
    hide UpdateRouteToNeighbor, RecvReply;
    UpdateRouteToNeighborView(n.table, 3, 0, DEFAULTS);
    var n1 := n.(table := UpdateRouteToNeighbor(n.table, 3, 0, DEFAULTS));
    var m := ANSWER.msg.rrep;
    RecvReplyView(n1, m, 1, 3, 0, DEFAULTS);
    var r := RecvReply(n1, m, 1, 3, 0, DEFAULTS);
    SettledView(r.table, 0);
    assert 4 in ViewOf(n.table, 0);
    assert ViewOf(r.table, 0)[4] == OfferedRoute(m, 3);
  }

  lemma Unrolled(n: Node, n1: Node, n2: Node, r: Node, evs: seq<(Event, int)>)
    requires |evs| == 3 && n1 == Handle(n, evs[0].0, evs[0].1, DEFAULTS)
             && n2 == Handle(n1, evs[1].0, evs[1].1, DEFAULTS)
    requires r == Handle(n2, evs[2].0, evs[2].1, DEFAULTS)
    ensures After(n, evs, DEFAULTS) == r
  {
    hide Handle;
    assert evs[1..][1..] == [evs[2]] && [evs[2]][1..] == [];
    assert After(n2, [evs[2]], DEFAULTS) == r;
  }
}
