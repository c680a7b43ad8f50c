/** The neighbour list of a node over whole runs: no address is ever listed twice, so every link failure is
    handled exactly once. */
module NeighborRuns {
  import opened Basics
  import opened Headers
  import opened RouteEntries
  import opened Nodes
  import NodeViews
  import SearchStates
  import opened NeighborLists
  import Q = PacketQueues
  import C = IdCaches

  /** The list is kept free of repetitions. */
  ghost predicate StaysDistinct(n: Node, r: Node) {
    Distinct(n.nb) ==> Distinct(r.nb)
  }

  lemma {:induction false} BreakSameList(n: Node, nb: seq<Neighbor>, now: int, c: Config)
    ensures BreakLinks(n, nb, now, c).nb == n.nb
    decreases |nb|
  {
    hide RerrMessage, Precursors, InvalidateRoutesWithDst, Purge;
    if nb != [] {
      if Closing(nb[0], now) {
        BreakSameList(LinkBreak(n, nb[0].addr, now, c), nb[1..], now, c);
      } else {
        BreakSameList(n, nb[1..], now, c);
      }
    }
  }

  lemma PurgeDistinct(n: Node, now: int, c: Config)
    ensures StaysDistinct(n, NbPurge(n, now, c))
  {
    if Distinct(n.nb) {
      FilterDistinct(n.nb, Nodes.Open(now));
    }
  }

  lemma UpdateDistinct(n: Node, addr: Addr, lifetime: int, now: int, c: Config)
    ensures StaysDistinct(n, NbUpdate(n, addr, lifetime, now, c))
  {
    hide NbPurge;
    PurgeDistinct(n.(nb := n.nb + [Neighbor(addr, now + lifetime, false)]), now, c);
  }

  lemma CloseDistinct(n: Node, addrs: set<Addr>, now: int, c: Config)
    ensures StaysDistinct(n, ProcessTxError(n, addrs, now, c))
  {
    hide NbPurge;
    var closed := CloseAll(n.nb, addrs);
    forall i | 0 <= i < |closed|
      ensures closed[i].addr == n.nb[i].addr
    {
      CloseAllAddrs(n.nb, addrs, i);
    }
    PurgeDistinct(n.(nb := closed), now, c);
  }

  lemma RequestDistinct(n: Node, m: RreqHeader, ttl: U8, src: Addr, now: int, c: Config)
    ensures StaysDistinct(n, RecvRequest(n, m, ttl, src, now, c))
  {
    hide ReverseRoute, NeighborRoute, NbUpdate, Purge, C.Remember, C.Duplicate, C.Purge, Distinct, AnswerOrRelay;
    var t := Purge(n.table, now, c.deletePeriod);
    var t1 := ReverseRoute(t, m.(hopCount := Bump8(m.hopCount)), src, now, c);
    var n1 := n.(table := NeighborRoute(t1, m.originSeqNo, src, now, c),
                 idCache := C.Remember(n.idCache, m.origin, m.requestID, now, c.pathDiscoveryTime));
    UpdateDistinct(n1, src, c.helloLifetime, now, c);
    AnswerSameList(AcceptRequest(n, m, src, now, c), m.(hopCount := Bump8(m.hopCount)), ttl, src, now, c);
  }

  lemma AnswerSameList(n: Node, m: RreqHeader, ttl: U8, src: Addr, now: int, c: Config)
    ensures AnswerOrRelay(n, m, ttl, src, now, c).nb == n.nb
  {
    hide Purge, Update, Bit, WithBit, NewRrep;
  }

  lemma ReplyDistinct(n: Node, m: RrepHeader, ttl: U8, sender: Addr, now: int, c: Config)
    ensures StaysDistinct(n, RecvReply(n, m, ttl, sender, now, c))
  {
    hide InstallRoute, NotePrecursors, Purge, Update, AddRoute, NbUpdate, SendPacketFromQueue, Distinct, Bit, WithBit;
    if m.dst == m.origin {
      NodeViews.HelloReply(n, m, ttl, sender, now, c);
      HelloDistinct(n, m, now, c);
    } else {
      var n1 := TakeReply(n, m, sender, now, c);
      var t := Purge(n.table, now, c.deletePeriod);
      FinishSameList(n1, m, m.dst in t && t[m.dst].flag == IN_SEARCH, sender, now, c);
    }
  }

  lemma HelloDistinct(n: Node, m: RrepHeader, now: int, c: Config)
    ensures StaysDistinct(n, ProcessHello(n, m, now, c))
  {
    hide NbUpdate, Distinct, Purge, Update, AddRoute;
    var t := ProcessHello(n, m, now, c.(enableHello := false)).table;
    UpdateDistinct(n.(table := t), m.dst, c.helloLifetime, now, c);
  }

  lemma FinishSameList(n: Node, m: RrepHeader, searching: bool, sender: Addr, now: int, c: Config)
    ensures FinishSearch(n, m, searching, sender, now, c).nb == n.nb
  {
    hide Purge, Update, SendPacketFromQueue;
    var n1 := if searching
              then n.(table := Update(n.table, Offered(m, sender, now)), timers := n.timers - {m.dst})
              else n;
    var t := Purge(n1.table, now, c.deletePeriod);
    NodeViews.SendPacketsCore(n1.(table := t), m.dst, Lookup(t, m.dst).GetOr(DefaultEntry(now)), now);
  }

  lemma ReceiveDistinct(n: Node, p: Packet, sender: Addr, now: int, c: Config)
    ensures StaysDistinct(n, RecvAodv(n, p, sender, now, c))
  {
    hide UpdateRouteToNeighbor, RecvRequest, RecvReply, RerrMessage, Precursors, InvalidateRoutesWithDst, Purge, Update,
      Distinct;
    var n1 := n.(table := UpdateRouteToNeighbor(n.table, sender, now, c));
    match p.msg
    case Rreq(m) => RequestDistinct(n1, m, p.ttl, sender, now, c);
    case Rrep(m) => ReplyDistinct(n1, m, p.ttl, sender, now, c);
    case _ =>
  }

  lemma SearchSameList(n: Node, dst: Addr, now: int, c: Config)
    ensures SendRequest(n, dst, now, c).nb == n.nb
  {
    hide SearchTable, Purge, RequestHeader, NextTtl, C.Remember;
  }

  lemma TimerSameList(n: Node, dst: Addr, now: int, c: Config)
    ensures RouteRequestTimerExpire(n, dst, now, c).nb == n.nb
  {
    hide SendRequest, Purge, SendPacketFromQueue, Q.DropPacketWithDst;
    var t := Purge(n.table, now, c.deletePeriod);
    var m := n.(table := t, timers := n.timers - {dst});
    NodeViews.SendPacketsCore(m, dst, Lookup(t, dst).GetOr(DefaultEntry(now)), now);
    SearchSameList(m, dst, now, c);
  }

  lemma OutputSameList(n: Node, e: Q.QueueEntry, now: int, c: Config)
    ensures DeferredRouteOutput(n, e, now, c).nb == n.nb
  {
    hide SendRequest, Purge, Q.Enqueue, Q.Accepts;
    var q := Q.Enqueue(n.queue, e, now, c.maxQueueLen, c.maxQueueTime);
    SearchSameList(n.(table := Purge(n.table, now, c.deletePeriod), queue := q), e.dst, now, c);
  }

  /** No event lists an address a second time. */
  lemma DistinctKept(n: Node, ev: Event, now: int, c: Config)
    ensures StaysDistinct(n, Handle(n, ev, now, c))
  {
    hide RecvAodv, DeferredRouteOutput, RouteRequestTimerExpire, SendRequest, NbPurge, NbUpdate, ProcessTxError,
      UpdateRouteLifeTime, UpdateRouteToNeighbor, Distinct;
    match ev
    case Receive(p, sender) => ReceiveDistinct(n, p, sender, now, c);
    case Output(e) => OutputSameList(n, e, now, c);
    case RreqTimer(dst) => TimerSameList(n, dst, now, c);
    case Deferred(dst) => SearchSameList(n.(pending := n.pending - multiset{dst}), dst, now, c);
    case NeighborTimer => PurgeDistinct(n, now, c);
    case LinkFailure(addrs) => CloseDistinct(n, addrs, now, c);
    case UseNeighbor(addr) => UpdateDistinct(n, addr, c.activeRouteTimeout, now, c);
    case _ =>
  }

  lemma {:induction false} DistinctAlways(n: Node, evs: seq<(Event, int)>, c: Config)
    requires Distinct(n.nb)
    ensures Distinct(SearchStates.After(n, evs, c).nb)
    decreases |evs|
  {
    hide Handle, Distinct;
    if evs != [] {
      DistinctKept(n, evs[0].0, evs[0].1, c);
      DistinctAlways(Handle(n, evs[0].0, evs[0].1, c), evs[1..], c);
    }
  }

  /** After every run of a node that started without neighbours, a purge reports each closing neighbour
      exactly once, and nobody else. */
  lemma FailuresOnce(n: Node, evs: seq<(Event, int)>, c: Config, now: int, a: Addr)
    requires n.nb == []
    ensures var nb := SearchStates.After(n, evs, c).nb;
            multiset(ClosingAddrs(nb, now))[a] == if exists b :: b in nb && b.addr == a && Closing(b, now) then 1 else 0
  {
    hide SearchStates.After;
    DistinctAlways(n, evs, c);
    OneFailureEach(SearchStates.After(n, evs, c).nb, now, a);
  }
}
