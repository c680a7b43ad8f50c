/** What the remaining events do, exactly: neighbours heard, lost and closed, packets that wait for a route, the
    timer of a search, and the use of routes. */
module EventEffects {
  import opened Basics
  import opened Headers
  import opened RouteEntries
  import opened Nodes
  import NodeViews
  import HandlerEffects
  import LinkBreaks
  import NeighborLists
  import opened RouteViews
  import Q = PacketQueues

  // ------------------------------------------------------------------------------- neighbours

  /** A neighbour stays exactly as long as its time has not passed and it has not been closed. */
  lemma NeighborsLeft(n: Node, now: int, c: Config)
    ensures forall b :: b in NbPurge(n, now, c).nb <==> b in n.nb && b.expire >= now && !b.close
  {
    hide BreakLinks;
    InFilter(n.nb, Nodes.Open(now));
  }

  /** Hearing from a listed neighbour moves its deadline, never back, and does nothing else. */
  lemma NeighborKnown(n: Node, i: nat, lifetime: int, now: int, c: Config)
    requires i < |n.nb| && forall j :: 0 <= j < i ==> n.nb[j].addr != n.nb[i].addr
    ensures NbUpdate(n, n.nb[i].addr, lifetime, now, c)
         == n.(nb := n.nb[i := Neighbor(n.nb[i].addr, Max(now + lifetime, n.nb[i].expire), n.nb[i].close)])
  {
    NeighborLists.IndexFrom(n.nb, i, n.nb[i].addr);
  }

  /** A new neighbour is listed, and the links that were about to break anyway break. */
  lemma NeighborNew(n: Node, addr: Addr, lifetime: int, now: int, c: Config)
    requires lifetime >= 0 && forall b :: b in n.nb ==> b.addr != addr
    ensures var r, q := NbUpdate(n, addr, lifetime, now, c), NbPurge(n, now, c);
            r == q.(nb := q.nb + [Neighbor(addr, now + lifetime, false)])
  {
    hide LinkBreak;
    var new_ := Neighbor(addr, now + lifetime, false);
    NeighborLists.IndexFrom(n.nb, |n.nb|, addr);
    FilterAppend(n.nb, [new_], Nodes.Open(now));
    assert Filter([new_], Nodes.Open(now)) == [new_];
    BreakAppend(n.(nb := n.nb + [new_]), n.nb, new_, now, c);
    BreakIgnores(n, n.nb + [new_], n.nb, now, c);
  }

  lemma {:induction false} BreakAppend(n: Node, nb: seq<Neighbor>, b: Neighbor, now: int, c: Config)
    requires !Closing(b, now)
    ensures BreakLinks(n, nb + [b], now, c) == BreakLinks(n, nb, now, c)
    decreases |nb|
  {
    hide LinkBreak;
    if nb != [] {
      TailOfConcat(nb, [b]);
      BreakAppend(if Closing(nb[0], now) then LinkBreak(n, nb[0].addr, now, c) else n, nb[1..], b, now, c);
    } else {
      assert nb + [b] == [b] && [b][1..] == [];
    }
  }

  /** Breaking links does not look at the list in the node. */
  lemma {:induction false} BreakIgnores(n: Node, list: seq<Neighbor>, nb: seq<Neighbor>, now: int, c: Config)
    ensures BreakLinks(n.(nb := list), nb, now, c) == BreakLinks(n, nb, now, c).(nb := list)
    decreases |nb|
  {
    hide RerrMessage, Precursors, InvalidateRoutesWithDst, Purge, Through;
    if nb != [] {
      BreakIgnores(if Closing(nb[0], now) then LinkBreak(n, nb[0].addr, now, c) else n, list, nb[1..], now, c);
    }
  }

  /** A failed transmission closes exactly the neighbours behind the failed address; then the list is purged. */
  lemma {:induction false} ClosedExactly(nb: seq<Neighbor>, addrs: set<Addr>, i: nat)
    requires i < |nb|
    ensures CloseAll(nb, addrs)[i] == nb[i].(close := nb[i].close || nb[i].addr in addrs)
  {
    if i > 0 {
      ClosedExactly(nb[1..], addrs, i - 1);
    }
  }

  lemma FailureClosesAndPurges(n: Node, addrs: set<Addr>, now: int, c: Config, nb: seq<Neighbor>)
    requires |nb| == |n.nb|
    requires forall i :: 0 <= i < |nb| ==> nb[i] == n.nb[i].(close := n.nb[i].close || n.nb[i].addr in addrs)
    ensures ProcessTxError(n, addrs, now, c) == NbPurge(n.(nb := nb), now, c)
  {
    hide NbPurge;
    forall i | 0 <= i < |nb|
      ensures CloseAll(n.nb, addrs)[i] == nb[i]
    {
      ClosedExactly(n.nb, addrs, i);
    }
    assert CloseAll(n.nb, addrs) == nb;
  }

  // ------------------------------------------------------------------------------- waiting packets

  /** A packet is lost at a route exactly when it is tied to an interface and the route does not use that one. */
  lemma TiedElsewhere(n: Node, route: Entry, e: Q.QueueEntry)
    ensures Mismatch(e, DeviceOf(n, route)) <==> e.oif != -1 && !(route.bound && e.oif == n.iface)
  {
  }

  /** A data packet without a route: a packet that waits already changes nothing but what a purge of the queue
      does; any other waits, and asks for the destination unless a search for it is on. */
  lemma PacketWaits(n: Node, e: Q.QueueEntry, now: int, c: Config)
    ensures var p, r := Purge(n.table, now, c.deletePeriod), DeferredRouteOutput(n, e, now, c);
            var queue := Q.Enqueue(n.queue, e, now, c.maxQueueLen, c.maxQueueTime);
            && (!Q.Accepts(n.queue, e, now) ==> r == n.(queue := queue))
            && (Q.Accepts(n.queue, e, now) && e.dst in p && p[e.dst].flag == IN_SEARCH ==>
                  r == n.(queue := queue, table := p))
            && (Q.Accepts(n.queue, e, now) && !(e.dst in p && p[e.dst].flag == IN_SEARCH) ==>
                  r == SendRequest(n.(queue := queue, table := p), e.dst, now, c))
  {
    hide Purge, SendRequest, Q.Enqueue, Q.Accepts;
  }

  /** The timer of a search: a VALID route takes the waiting packets; a search that has not come to its last
      retry asks again; everything else is given up: the entry goes, the timer too, and every packet that waits
      for the destination is reported. */
  lemma TimerFired(n: Node, dst: Addr, now: int, c: Config)
    requires c.Sane()
    ensures var p, r := Purge(n.table, now, c.deletePeriod), RouteRequestTimerExpire(n, dst, now, c);
            var rest := n.(table := p, timers := n.timers - {dst});
            var forwards := dst in p && p[dst].flag == VALID;
            var retries := dst in p && p[dst].flag == IN_SEARCH && p[dst].reqCount != c.rreqRetries;
            && (forwards ==> r == SendPacketFromQueue(rest, dst, p[dst], now))
            && (retries ==> r == SendRequest(rest, dst, now, c))
            && (!forwards && !retries ==>
                  r == rest.(table := p - {dst}, queue := Q.DropPacketWithDst(n.queue, dst, now)))
  {
    hide Purge, SendRequest, SendPacketFromQueue, Q.DropPacketWithDst;
    PurgedOnce(n.table, now, c.deletePeriod);
    assert n.timers - {dst} - {dst} == n.timers - {dst};
  }

  /** A request that was put off leaves the list of those and is made; at the rate limit it is put off again. */
  lemma RequestComesBack(n: Node, dst: Addr, now: int, c: Config)
    requires dst in n.pending
    ensures n.rreqCount == c.rreqRateLimit ==> Handle(n, Deferred(dst), now, c) == n
    ensures n.rreqCount != c.rreqRateLimit ==> Handle(n, Deferred(dst), now, c).pending == n.pending - multiset{dst}
  {
    hide EmitRequest;
    assert n.pending - multiset{dst} + multiset{dst} == n.pending;
    assert EmitRequest(n.(pending := n.pending - multiset{dst}), dst, now, c).pending == n.pending - multiset{dst} by {
      EmitsAside(n.(pending := n.pending - multiset{dst}), dst, now, c);
    }
  }

  lemma EmitsAside(n: Node, dst: Addr, now: int, c: Config)
    ensures EmitRequest(n, dst, now, c).pending == n.pending
  {
  }

  // ------------------------------------------------------------------------------- the rest

  /** Every message refreshes the route to its sender first, also one of an unknown type, and is then handled by
      its type. */
  lemma SenderFirst(n: Node, p: Packet, sender: Addr, now: int, c: Config)
    ensures var n1 := n.(table := UpdateRouteToNeighbor(n.table, sender, now, c));
            && Handle(n, Unrecognized(sender), now, c) == n1
            && (p.msg == RrepAck ==> Handle(n, Receive(p, sender), now, c) == RecvReplyAck(n1, sender, now, c))
            && (forall m :: p.msg == Rreq(m) ==>
                  Handle(n, Receive(p, sender), now, c) == RecvRequest(n1, m, p.ttl, sender, now, c))
            && (forall m :: p.msg == Rrep(m) ==>
                  Handle(n, Receive(p, sender), now, c) == RecvReply(n1, m, p.ttl, sender, now, c))
            && (forall m :: p.msg == Rerr(m) ==>
                  Handle(n, Receive(p, sender), now, c) == RecvError(n1, m, sender, now, c))
  {
    hide UpdateRouteToNeighbor, RecvRequest, RecvReply, RecvError, RecvReplyAck;
  }

  /** Every other event has its handler, and once a second the limiter forgets what it has counted. */
  lemma OtherEvents(n: Node, e: Q.QueueEntry, dst: Addr, addrs: set<Addr>, now: int, c: Config)
    ensures Handle(n, RateTimer, now, c) == n.(rreqCount := 0)
    ensures Handle(n, NeighborTimer, now, c) == NbPurge(n, now, c)
    ensures Handle(n, LinkFailure(addrs), now, c) == ProcessTxError(n, addrs, now, c)
    ensures Handle(n, Output(e), now, c) == DeferredRouteOutput(n, e, now, c)
    ensures Handle(n, RreqTimer(dst), now, c) == RouteRequestTimerExpire(n, dst, now, c)
    ensures Handle(n, Hello, now, c) == SendHello(n, c)
  {
    hide NbPurge, ProcessTxError, DeferredRouteOutput, RouteRequestTimerExpire;
  }

  /** A route that data runs over is VALID at any later moment exactly until the route timeout has passed or the
      deadline it had before, whichever comes later. */
  lemma InUse(n: Node, addr: Addr, now: int, later: int, c: Config)
    requires WellFormed(n.table) && c.Sane() && ValidRoute(Purge(n.table, now, c.deletePeriod), addr)
    ensures addr in n.table
    ensures ValidRoute(Purge(Handle(n, UseRoute(addr), now, c).table, later, c.deletePeriod), addr)
       <==> later <= Max(now + c.activeRouteTimeout, n.table[addr].expire)
  {
    HandlerEffects.UsedRouteStays(n.table, addr, c.activeRouteTimeout, now, later, c);
  }

  /** And a listed neighbour that data comes from stays listed for as long. */
  lemma NeighborInUse(n: Node, i: nat, now: int, c: Config)
    requires i < |n.nb| && forall j :: 0 <= j < i ==> n.nb[j].addr != n.nb[i].addr
    ensures Handle(n, UseNeighbor(n.nb[i].addr), now, c)
         == n.(nb := n.nb[i := Neighbor(n.nb[i].addr, Max(now + c.activeRouteTimeout, n.nb[i].expire), n.nb[i].close)])
  {
    NeighborKnown(n, i, c.activeRouteTimeout, now, c);
  }
}
