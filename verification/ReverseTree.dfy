/** The reverse routes that floods of one originator build: next hops towards it form a tree, and a RREP
    that follows them gets home. */
module ReverseTrees {
  import opened Basics
  import opened Headers
  import opened RouteEntries
  import opened Nodes
  import opened RouteViews
  import opened NodeViews
  import opened Networks
  import opened NextHopGraphs
  import opened Floods
  import Q = PacketQueues
  import C = IdCaches

  // ------------------------------------------------------------------------------- one event at one node

  /** The event makes the node take a RREQ of `o` that it has not seen before. */
  ghost predicate Takes(n: Node, ev: Event, now: int, c: Config, o: Addr) {
    && ev.Receive? && ev.packet.msg.Rreq? && ev.packet.msg.rreq.origin == o
    && Unseen(n, ev.packet, ev.sender, now, c)
  }

  /** The event leaves the node's route towards `o` to the floods and to what is heard from `o` itself: the
      route is not deleted, not searched for, and not set by a RREP, other than a HELLO of `o`. */
  ghost predicate Calm(n: Node, ev: Event, now: int, o: Addr) {
    && (o in n.table ==> o in ViewOf(n.table, now))
    && match ev
       case Receive(p, sender) => p.msg.Rrep? && p.msg.rrep.dst == o ==> p.msg.rrep.origin == o && sender == o
       case Output(e) => e.dst != o
       case RreqTimer(k) => k != o
       case Deferred(k) => k != o
       case _ => true
  }

  /** The route is not a search, and has one hop only if it leads straight to `o`. */
  ghost predicate Steady(v: View, o: Addr) {
    o in v ==> v[o].flag != IN_SEARCH && (v[o].hops == 1 ==> v[o].nextHop == o)
  }

  /** From view `v` to view `w`: the route towards `o` becomes one straight to `o`, or the one back along
      the RREQ just taken, or stays. */
  ghost predicate Slot(v: View, w: View, ev: Event, taken: bool, o: Addr)
    requires taken ==> ev.Receive? && ev.packet.msg.Rreq?
  {
    && (o in v || taken ==> o in w)
    && (o in w ==> w[o].flag != IN_SEARCH
                   && ((w[o].nextHop == o && w[o].hops == 1)
                       || (if taken then w[o].nextHop == ev.sender != o
                           && w[o].hops == Bump8(ev.packet.msg.rreq.hopCount)
                           else o in v && w[o].nextHop == v[o].nextHop && w[o].hops == v[o].hops)))
  }

  /** The same about tables. */
  ghost predicate TreeEffect(t: Table, r: Table, ev: Event, taken: bool, o: Addr)
    requires taken ==> ev.Receive? && ev.packet.msg.Rreq?
  {
    && (o in t || taken ==> o in r)
    && (o in r ==> r[o].flag != IN_SEARCH
                   && ((r[o].nextHop == o && r[o].hops == 1)
                       || (if taken then r[o].nextHop == ev.sender != o
                           && r[o].hops == Bump8(ev.packet.msg.rreq.hopCount)
                           else o in t && r[o].nextHop == t[o].nextHop && r[o].hops == t[o].hops)))
  }

  lemma ToTable(t: Table, r: Table, w: View, now: int, ev: Event, taken: bool, o: Addr)
    requires taken ==> ev.Receive? && ev.packet.msg.Rreq?
    requires o != UNSET && (o in t ==> o in ViewOf(t, now)) && (forall k :: k in r ==> !Gone(r[k], now))
    requires Fades(w, ViewOf(r, now)) && Slot(ViewOf(t, now), w, ev, taken, o)
    ensures TreeEffect(t, r, ev, taken, o)
  {
    assert o in r ==> o in ViewOf(r, now);
  }

  lemma KeptTree(t: Table, r: Table, now: int, ev: Event, o: Addr)
    requires o != UNSET && (o in t ==> o in ViewOf(t, now)) && Steady(ViewOf(t, now), o)
    requires Kept(t, r, now) && Fades(ViewOf(t, now), ViewOf(r, now))
    ensures TreeEffect(t, r, ev, false, o)
  {
    if r != t {
      ToTable(t, r, ViewOf(t, now), now, ev, false, o);
    }
  }

  /** A RREP that travels towards `o`. */
  predicate Homeward(p: Packet, o: Addr) {
    p.msg.Rrep? && p.msg.rrep.origin == o && p.msg.rrep.dst != o
  }

  /** `q` is the RREP `p` one hop further. */
  predicate PassedFrom(q: Packet, p: Packet) {
    && q.msg.Rrep? && p.msg.Rrep? && p.ttl >= 2 && q.ttl == p.ttl - 1
    && q.msg.rrep.dst == p.msg.rrep.dst && q.msg.rrep.origin == p.msg.rrep.origin
    && q.msg.rrep.dstSeqNo == p.msg.rrep.dstSeqNo && q.msg.rrep.hopCount == Bump8(p.msg.rrep.hopCount)
  }

  /** What the node sends towards `o` goes along its route, with that route's hops as TTL or with one less
      than it came with. */
  ghost predicate RepliesSent(n: Node, r: Node, ev: Event, o: Addr) {
    forall p :: p in r.sent && Homeward(p, o) ==>
      || p in n.sent
      || (o in r.table && p.target == To(r.table[o].nextHop)
          && (p.ttl == r.table[o].hops % 0x100
              || (ev.Receive? && Homeward(ev.packet, o) && PassedFrom(p, ev.packet))))
  }

  lemma NothingSent(n: Node, r: Node, ev: Event, o: Addr)
    requires OnlyErrors(n.sent, r.sent)
    ensures RepliesSent(n, r, ev, o)
  {
    forall p | p in r.sent && Homeward(p, o)
      ensures p in n.sent
    {
      var i :| 0 <= i < |r.sent| && r.sent[i] == p;
      assert i < |n.sent|;
      assert n.sent[i] == p;
    }
  }

  lemma RefreshedSlot(v: View, sender: Addr, ev: Event, o: Addr)
    requires Steady(v, o)
    ensures Slot(v, Refreshed(v, sender), ev, false, o) && Steady(Refreshed(v, sender), o)
  {
  }

  lemma RequestTree(n: Node, p: Packet, src: Addr, now: int, c: Config, o: Addr)
    requires WellFormed(n.table) && c.Sane() && now >= 0 && o != UNSET && n.me != o
    requires Steady(ViewOf(n.table, now), o) && Calm(n, Receive(p, src), now, o)
    requires p.msg.Rreq? && Proper(p.msg)
    ensures var r := RecvAodv(n, p, src, now, c); var ev := Receive(p, src);
            TreeEffect(n.table, r.table, ev, Takes(n, ev, now, c, o), o) && RepliesSent(n, r, ev, o)
  {
    hide AcceptRequest, AnswerOrRelay, UpdateRouteToNeighbor, Slot, TreeEffect, RepliesSent;
    var m, ev, v := p.msg.rreq, Receive(p, src), ViewOf(n.table, now);
    UpdateRouteToNeighborView(n.table, src, now, c);
    RefreshedSlot(v, src, ev, o);
    var n1 := n.(table := UpdateRouteToNeighbor(n.table, src, now, c));
    PurgeView(n1.table, now, c.deletePeriod);
    if (src in n1.table && n1.table[src].blacklisted) || C.Duplicate(n.idCache, m.origin, m.requestID, now) {
      var r := RecvAodv(n, p, src, now, c);
      assert r.table == n1.table && r.sent == n.sent;
      ToTable(n.table, n1.table, ViewOf(n1.table, now), now, ev, false, o);
      NothingSent(n, r, ev, o);
    } else {
      AcceptRequestView(n1, m, src, now, c);
      var a := AcceptRequest(n1, m, src, now, c);
      var w := RequestedView(ViewOf(n1.table, now), m, src, c);
      assert m.origin in w;
      var m1 := m.(hopCount := Bump8(m.hopCount));
      AnswerOrRelayView(a, m1, p.ttl, src, now, c);
      var r := AnswerOrRelay(a, m1, p.ttl, src, now, c);
      FadesTransitive(w, ViewOf(a.table, now), ViewOf(r.table, now));
      RequestedSlot(v, ViewOf(n1.table, now), m, src, c, ev, o);
      ToTable(n.table, r.table, w, now, ev, m.origin == o, o);
      AnsweredReplies(n, a, r, ViewOf(a.table, now), m1, p.ttl, now, c, ev, o);
    }
  }

  lemma RequestedSlot(v: View, v1: View, m: RreqHeader, src: Addr, c: Config, ev: Event, o: Addr)
    requires Steady(v, o) && o != UNSET && m.origin != UNSET && Slot(v, v1, ev, false, o) && Steady(v1, o)
    requires ev.Receive? && ev.packet.msg == Rreq(m) && ev.sender == src
    ensures Slot(v, RequestedView(v1, m, src, c), ev, m.origin == o, o)
  {
  }

  lemma AnsweredReplies(n: Node, a: Node, r: Node, v: View, m: RreqHeader, ttl: U8, now: int, c: Config, ev: Event,
                        o: Addr)
    requires OnlyErrors(n.sent, a.sent) && a.me != o && o != UNSET && Answered(a, r, v, m, ttl, c)
    requires Settled(r.table, now) && ViewOf(r.table, now) == v
    ensures RepliesSent(n, r, ev, o)
  {
    SettledView(r.table, now);
    NothingSent(n, a, ev, o);
    forall p | p in r.sent && Homeward(p, o) && p !in a.sent
      ensures o in r.table && p.target == To(r.table[o].nextHop) && p.ttl == r.table[o].hops % 0x100
    {
      var i :| 0 <= i < |r.sent| && r.sent[i] == p;
      assert i >= |a.sent|;
      assert o in v ==> RouteOf(r.table[o], now) == v[o];
    }
    assert forall p :: p in a.sent && Homeward(p, o) ==> p in n.sent by {
      assert forall i :: |n.sent| <= i < |a.sent| ==> a.sent[i].msg.Rerr?;
    }
  }

  lemma ReplyTree(n: Node, p: Packet, sender: Addr, now: int, c: Config, o: Addr)
    requires WellFormed(n.table) && c.Sane() && now >= 0 && o != UNSET && n.me != o
    requires Steady(ViewOf(n.table, now), o) && Calm(n, Receive(p, sender), now, o)
    requires p.msg.Rrep? && Proper(p.msg)
    ensures var r := RecvAodv(n, p, sender, now, c); var ev := Receive(p, sender);
            TreeEffect(n.table, r.table, ev, false, o) && RepliesSent(n, r, ev, o)
  {
    hide RecvReply, UpdateRouteToNeighbor, ProcessHello, RepliesSent;
    var m, ev, v := p.msg.rrep, Receive(p, sender), ViewOf(n.table, now);
    UpdateRouteToNeighborView(n.table, sender, now, c);
    RefreshedSlot(v, sender, ev, o);
    var n1 := n.(table := UpdateRouteToNeighbor(n.table, sender, now, c));
    if m.dst == m.origin {
      ProcessHelloView(n1, m, now, c);
      HelloReply(n1, m, p.ttl, sender, now, c);
      var r := ProcessHello(n1, m, now, c);
      ToTable(n.table, r.table, HelloView(ViewOf(n1.table, now), m), now, ev, false, o);
      NothingSent(n, r, ev, o);
    } else {
      RecvReplyView(n1, m, p.ttl, sender, now, c);
      var r := RecvReply(n1, m, p.ttl, sender, now, c);
      ToTable(n.table, r.table, RepliedView(n1, ViewOf(n1.table, now), m, sender), now, ev, false, o);
      ForwardedReplies(n, n1, r, ViewOf(r.table, now), p, sender, now, o);
    }
  }

  lemma ForwardedReplies(n: Node, n1: Node, r: Node, w: View, p: Packet, sender: Addr, now: int, o: Addr)
    requires p.msg.Rrep? && n1.sent == n.sent && Forwarded(n1, r, w, p.msg.rrep, p.ttl, sender) && o != UNSET
    requires Settled(r.table, now) && w == ViewOf(r.table, now) && p.msg.rrep.dst != p.msg.rrep.origin
    ensures RepliesSent(n, r, Receive(p, sender), o)
  {
    SettledView(r.table, now);
  }

  lemma ErrorTree(n: Node, p: Packet, sender: Addr, now: int, c: Config, o: Addr)
    requires WellFormed(n.table) && c.Sane() && o != UNSET
    requires Steady(ViewOf(n.table, now), o) && Calm(n, Receive(p, sender), now, o)
    requires p.msg.Rerr? || p.msg.RrepAck?
    ensures var r := RecvAodv(n, p, sender, now, c); var ev := Receive(p, sender);
            TreeEffect(n.table, r.table, ev, false, o) && RepliesSent(n, r, ev, o)
  {
    hide RecvError, RecvReplyAck, UpdateRouteToNeighbor;
    var ev, v := Receive(p, sender), ViewOf(n.table, now);
    UpdateRouteToNeighborView(n.table, sender, now, c);
    RefreshedSlot(v, sender, ev, o);
    var n1 := n.(table := UpdateRouteToNeighbor(n.table, sender, now, c));
    if p.msg.Rerr? {
      RecvErrorView(n1, p.msg.rerr, sender, now, c);
      var r := RecvError(n1, p.msg.rerr, sender, now, c);
      ToTable(n.table, r.table, ViewOf(n1.table, now), now, ev, false, o);
      NothingSent(n, r, ev, o);
    } else {
      RecvReplyAckView(n1, sender, now, c);
      var r := RecvReplyAck(n1, sender, now, c);
      ToTable(n.table, r.table, ViewOf(r.table, now), now, ev, false, o);
    }
  }

  lemma SearchTree(n: Node, dst: Addr, now: int, c: Config, ev: Event, o: Addr)
    requires WellFormed(n.table) && c.Sane() && o != UNSET && dst != o
    requires Steady(ViewOf(n.table, now), o) && (o in n.table ==> o in ViewOf(n.table, now))
    ensures var r := SendRequest(n, dst, now, c);
            TreeEffect(n.table, r.table, ev, false, o) && RepliesSent(n, r, ev, o)
  {
    hide SendRequest, C.Remember, SearchTable;
    SendRequestView(n, dst, now, c);
    var r := SendRequest(n, dst, now, c);
    if n.rreqCount != c.rreqRateLimit {
      var hops: U16 :| ViewOf(r.table, now) == SearchedView(ViewOf(n.table, now), dst, c, hops);
      ToTable(n.table, r.table, ViewOf(r.table, now), now, ev, false, o);
    }
  }

  /** A purge composed with an effect is that effect. */
  lemma PurgeFirst(n: Node, n': Node, r: Node, now: int, bad: int, ev: Event, o: Addr)
    requires WellFormed(n.table) && bad >= 0 && o != UNSET && n'.table == Purge(n.table, now, bad) && n'.sent == n.sent
    requires o in n.table ==> o in ViewOf(n.table, now)
    requires TreeEffect(n'.table, r.table, ev, false, o) && RepliesSent(n', r, ev, o)
    ensures TreeEffect(n.table, r.table, ev, false, o) && RepliesSent(n, r, ev, o)
  {
    PurgeView(n.table, now, bad);
  }

  lemma PurgedNode(n: Node, n': Node, now: int, bad: int, o: Addr)
    requires WellFormed(n.table) && bad >= 0 && o != UNSET && n'.table == Purge(n.table, now, bad)
    requires Steady(ViewOf(n.table, now), o) && (o in n.table ==> o in ViewOf(n.table, now))
    ensures Settled(n'.table, now) && ViewOf(n'.table, now) == ViewOf(n.table, now)
    ensures Steady(ViewOf(n'.table, now), o) && (o in n'.table ==> o in ViewOf(n'.table, now))
  {
    PurgeView(n.table, now, bad);
  }

  /** A table whose entry for `o` did not change. */
  lemma SameTree(n: Node, r: Node, now: int, bad: int, ev: Event, o: Addr)
    requires WellFormed(n.table) && bad >= 0 && o != UNSET
    requires Steady(ViewOf(n.table, now), o) && (o in n.table ==> o in ViewOf(n.table, now))
    requires r.table == n.table || r.table == Purge(n.table, now, bad)
    requires r.sent == n.sent
    ensures TreeEffect(n.table, r.table, ev, false, o) && RepliesSent(n, r, ev, o)
  {
    PurgeView(n.table, now, bad);
  }

  lemma OutputTree(n: Node, e: Q.QueueEntry, now: int, c: Config, o: Addr)
    requires WellFormed(n.table) && c.Sane() && o != UNSET && e.dst != o
    requires Steady(ViewOf(n.table, now), o) && (o in n.table ==> o in ViewOf(n.table, now))
    ensures var r := DeferredRouteOutput(n, e, now, c);
            TreeEffect(n.table, r.table, Output(e), false, o) && RepliesSent(n, r, Output(e), o)
  {
    hide SendRequest, Q.Enqueue, RepliesSent, TreeEffect;
    var bad := c.deletePeriod;
    var n' := n.(table := Purge(n.table, now, bad), queue := Q.Enqueue(n.queue, e, now, c.maxQueueLen, c.maxQueueTime));
    PurgedNode(n, n', now, bad, o);
    SearchTree(n', e.dst, now, c, Output(e), o);
    PurgeFirst(n, n', SendRequest(n', e.dst, now, c), now, bad, Output(e), o);
    SameTree(n, n', now, bad, Output(e), o);
    SameTree(n, n'.(table := n.table), now, bad, Output(e), o);
  }

  lemma TimerTree(n: Node, dst: Addr, now: int, c: Config, o: Addr)
    requires WellFormed(n.table) && c.Sane() && o != UNSET && dst != o
    requires Steady(ViewOf(n.table, now), o) && (o in n.table ==> o in ViewOf(n.table, now))
    ensures var r := RouteRequestTimerExpire(n, dst, now, c);
            TreeEffect(n.table, r.table, RreqTimer(dst), false, o) && RepliesSent(n, r, RreqTimer(dst), o)
  {
    hide SendRequest, GiveUp, SendPacketFromQueue, RepliesSent, TreeEffect;
    var ev, bad := RreqTimer(dst), c.deletePeriod;
    var t := Purge(n.table, now, bad);
    var n' := n.(table := t, timers := n.timers - {dst});
    PurgedNode(n, n', now, bad, o);
    var toDst := Lookup(t, dst).GetOr(DefaultEntry(now));
    if dst in t && toDst.flag == VALID {
      SendPacketsCore(n', dst, toDst, now);
      SameTree(n, SendPacketFromQueue(n', dst, toDst, now), now, bad, ev, o);
    } else if toDst.reqCount != c.rreqRetries && toDst.flag == IN_SEARCH {
      SearchTree(n', dst, now, c, ev, o);
      PurgeFirst(n, n', SendRequest(n', dst, now, c), now, bad, ev, o);
    } else {
      GiveUpTree(n', dst, now, c, ev, o);
      PurgeFirst(n, n', GiveUp(n', dst, now, c), now, bad, ev, o);
    }
  }

  lemma GiveUpTree(n: Node, dst: Addr, now: int, c: Config, ev: Event, o: Addr)
    requires WellFormed(n.table) && c.Sane() && o != UNSET && dst != o
    requires Steady(ViewOf(n.table, now), o) && (o in n.table ==> o in ViewOf(n.table, now))
    ensures var r := GiveUp(n, dst, now, c);
            TreeEffect(n.table, r.table, ev, false, o) && RepliesSent(n, r, ev, o)
  {
    GiveUpView(n, dst, now, c);
    ToTable(n.table, GiveUp(n, dst, now, c).table, ViewOf(n.table, now) - {dst}, now, ev, false, o);
  }

  lemma UnrecognizedTree(n: Node, sender: Addr, now: int, c: Config, o: Addr)
    requires WellFormed(n.table) && c.Sane() && o != UNSET
    requires Steady(ViewOf(n.table, now), o) && (o in n.table ==> o in ViewOf(n.table, now))
    ensures var r := RecvUnrecognized(n, sender, now, c); var ev := Unrecognized(sender);
            TreeEffect(n.table, r.table, ev, false, o) && RepliesSent(n, r, ev, o)
  {
    hide UpdateRouteToNeighbor;
    UpdateRouteToNeighborView(n.table, sender, now, c);
    RefreshedSlot(ViewOf(n.table, now), sender, Unrecognized(sender), o);
    var t := UpdateRouteToNeighbor(n.table, sender, now, c);
    ToTable(n.table, t, ViewOf(t, now), now, Unrecognized(sender), false, o);
  }

  lemma LocalTree(n: Node, ev: Event, now: int, c: Config, o: Addr)
    requires WellFormed(n.table) && c.Sane() && o != UNSET && n.me != o && !ev.Receive?
    requires Steady(ViewOf(n.table, now), o) && Calm(n, ev, now, o)
    ensures var r := Handle(n, ev, now, c);
            TreeEffect(n.table, r.table, ev, false, o) && RepliesSent(n, r, ev, o)
  {
    hide DeferredRouteOutput, RouteRequestTimerExpire, SendRequest, NbPurge, NbUpdate, UpdateRouteLifeTime, RecvAodv,
      RecvUnrecognized, RepliesSent, TreeEffect;
    match ev
    case Output(e) => OutputTree(n, e, now, c, o);
    case RreqTimer(dst) => TimerTree(n, dst, now, c, o);
    case Deferred(dst) => DeferredTree(n, dst, now, c, o);
    case Unrecognized(sender) => UnrecognizedTree(n, sender, now, c, o);
    case RateTimer => SameTree(n, n.(rreqCount := 0), now, c.deletePeriod, ev, o);
    case NeighborTimer =>
      NbPurgeView(n, now, c);
      LinksTree(n, NbPurge(n, now, c), now, ev, o);
    case LinkFailure(addrs) =>
      var n' := n.(nb := CloseAll(n.nb, addrs));
      NbPurgeView(n', now, c);
      LinksTree(n, NbPurge(n', now, c), now, ev, o);
    case UseRoute(addr) =>
      UpdateRouteLifeTimeView(n.table, addr, now, c);
      UsedTree(n, UpdateRouteLifeTime(n.table, addr, c.activeRouteTimeout, now, c), now, ev, o);
    case UseNeighbor(addr) =>
      NbUpdateView(n, addr, c.activeRouteTimeout, now, c);
      LinksTree(n, NbUpdate(n, addr, c.activeRouteTimeout, now, c), now, ev, o);
    case Hello => HelloTree(n, now, c, o);
  }

  lemma DeferredTree(n: Node, dst: Addr, now: int, c: Config, o: Addr)
    requires WellFormed(n.table) && c.Sane() && o != UNSET && dst != o
    requires Steady(ViewOf(n.table, now), o) && (o in n.table ==> o in ViewOf(n.table, now))
    ensures var r := Handle(n, Deferred(dst), now, c);
            TreeEffect(n.table, r.table, Deferred(dst), false, o) && RepliesSent(n, r, Deferred(dst), o)
  {
    hide SendRequest;
    SearchTree(n.(pending := n.pending - multiset{dst}), dst, now, c, Deferred(dst), o);
  }

  lemma LinksTree(n: Node, r: Node, now: int, ev: Event, o: Addr)
    requires o != UNSET && Steady(ViewOf(n.table, now), o) && (o in n.table ==> o in ViewOf(n.table, now))
    requires Kept(n.table, r.table, now) && Fades(ViewOf(n.table, now), ViewOf(r.table, now))
             && OnlyErrors(n.sent, r.sent)
    ensures TreeEffect(n.table, r.table, ev, false, o) && RepliesSent(n, r, ev, o)
  {
    KeptTree(n.table, r.table, now, ev, o);
    NothingSent(n, r, ev, o);
  }

  lemma UsedTree(n: Node, t: Table, now: int, ev: Event, o: Addr)
    requires o != UNSET && Steady(ViewOf(n.table, now), o) && (o in n.table ==> o in ViewOf(n.table, now))
    requires Settled(t, now) && ViewOf(t, now) == ViewOf(n.table, now)
    ensures TreeEffect(n.table, t, ev, false, o) && RepliesSent(n, n.(table := t), ev, o)
  {
    ToTable(n.table, t, ViewOf(t, now), now, ev, false, o);
  }

  lemma HelloTree(n: Node, now: int, c: Config, o: Addr)
    requires o != UNSET && n.me != o && Steady(ViewOf(n.table, now), o) && (o in n.table ==> o in ViewOf(n.table, now))
    ensures var r := Handle(n, Hello, now, c);
            TreeEffect(n.table, r.table, Hello, false, o) && RepliesSent(n, r, Hello, o)
  {
    KeptTree(n.table, n.table, now, Hello, o);
  }

  /** Every calm event: the route towards `o` and what is sent along it. */
  lemma TreeStep(n: Node, ev: Event, now: int, c: Config, o: Addr)
    requires WellFormed(n.table) && c.Sane() && now >= 0 && o != UNSET && n.me != o
    requires Steady(ViewOf(n.table, now), o) && Calm(n, ev, now, o) && (ev.Receive? ==> Proper(ev.packet.msg))
    ensures var r := Handle(n, ev, now, c);
            TreeEffect(n.table, r.table, ev, Takes(n, ev, now, c, o), o) && RepliesSent(n, r, ev, o)
  {
    hide RecvAodv, Handle, TreeEffect, RepliesSent, Calm, Steady;
    if ev.Receive? {
      HandleReceive(n, ev, now, c);
      if ev.packet.msg.Rreq? {
        RequestTree(n, ev.packet, ev.sender, now, c, o);
      } else if ev.packet.msg.Rrep? {
        ReplyTree(n, ev.packet, ev.sender, now, c, o);
      } else {
        ErrorTree(n, ev.packet, ev.sender, now, c, o);
      }
    } else {
      LocalTree(n, ev, now, c, o);
    }
  }

  // ------------------------------------------------------------------------------- the network

  /** What a node took last of the floods of `o`: the id, its distance, and the node it came from. */
  datatype Seen = Seen(id: U32, hop: int, parent: Addr)

  type History = map<Addr, Seen>

  /** The history after a step. */
  ghost function Note(h: History, s: Net, a: Action, c: Config, o: Addr): History
    requires a.node in s
  {
    if a.node != o && Takes(s[a.node], a.event, a.now, c, o)
    then h[a.node := Seen(a.event.packet.msg.rreq.requestID, a.event.packet.msg.rreq.hopCount + 1, a.event.sender)]
    else h
  }

  /** The table knows a way to `o`: straight, or back along the RREQ taken last. */
  ghost predicate Entered(t: Table, h: History, x: Addr, o: Addr) {
    && (x in h ==> o in t)
    && (o in t ==> t[o].flag != IN_SEARCH
                   && ((t[o].nextHop == o && t[o].hops == 1)
                       || (x in h && t[o].nextHop == h[x].parent != o && t[o].hops == h[x].hop >= 2)))
  }

  /** The parent has taken a later flood, or the same one a hop closer. */
  ghost predicate Rooted(h: History, x: Addr, o: Addr)
    requires x in h
  {
    && h[x].hop >= 1
    && (h[x].parent != o ==>
          && h[x].parent in h && h[x].hop < 0x100
          && var up := h[h[x].parent];
             up.id > h[x].id || (up.id == h[x].id && up.hop + 1 == h[x].hop))
  }

  /** The sender of a relayed RREQ has taken a later flood, or this one at just this distance. */
  ghost predicate Ahead(h: History, y: Addr, p: Packet, o: Addr) {
    p.msg.Rreq? && p.msg.rreq.origin == o ==>
      var m := p.msg.rreq;
      y in h && p.ttl >= 1 && m.hopCount >= 1
      && (h[y].id > m.requestID || (h[y].id == m.requestID && h[y].hop == m.hopCount))
  }

  ghost predicate TreeInv(s: Net, h: History, o: Addr) {
    && Sound(s) && Conserved(s) && o in s
    && (forall x :: x in h ==> x in s && x != o && Rooted(h, x, o))
    && (forall x :: x in s && x != o ==> Entered(s[x].table, h, x, o))
    && (forall y, p :: y in s && y != o && p in s[y].sent ==> Ahead(h, y, p, o))
  }

  /** A step that is calm, and takes the floods of `o` in the order of their ids. At `o` itself anything
      may happen. */
  ghost predicate TreeGuard(s: Net, h: History, a: Action, c: Config, o: Addr)
    requires a.node in s
  {
    a.node != o ==>
      && Calm(s[a.node], a.event, a.now, o)
      && (Takes(s[a.node], a.event, a.now, c, o) && a.node in h ==> a.event.packet.msg.rreq.requestID > h[a.node].id)
  }

  lemma EnteredSteady(n: Node, h: History, now: int, o: Addr)
    requires Entered(n.table, h, n.me, o)
    ensures Steady(ViewOf(n.table, now), o)
  {
  }

  /** The RREQ a step takes. */
  lemma TakenPacket(s: Net, h: History, a: Action, c: Config, o: Addr)
    requires TreeInv(s, h, o) && CanStep(s, a) && a.node != o && Takes(s[a.node], a.event, a.now, c, o)
    ensures var m := a.event.packet.msg.rreq; var y := a.event.sender;
            y != o ==> Ahead(h, y, a.event.packet, o) && m.hopCount + a.event.packet.ttl < 0x100
                       && Bump8(m.hopCount) == m.hopCount + 1
  {
    hide Rooted, Entered, Takes;
    TakesRequest(s[a.node], a.event, a.now, c, o);
    assert Genuine(s, a.event.packet);
  }

  lemma HistoryKept(s: Net, h: History, a: Action, c: Config, o: Addr)
    requires TreeInv(s, h, o) && CanStep(s, a) && TreeGuard(s, h, a, c, o)
    ensures var h' := Note(h, s, a, c, o);
            && (forall x :: x in h' ==> x in s && x != o && Rooted(h', x, o))
            && (forall x :: x in h ==> x in h' && (h'[x] == h[x] || h'[x].id > h[x].id))
  {
    hide Takes, Calm;
    var h' := Note(h, s, a, c, o);
    if h' != h {
      TakesRequest(s[a.node], a.event, a.now, c, o);
      TakenPacket(s, h, a, c, o);
    }
    forall x | x in h'
      ensures x in s && x != o && Rooted(h', x, o)
    {
      if x != a.node || h' == h {
        assert Rooted(h, x, o);
      }
    }
  }

  lemma EntryKept(s: Net, h: History, a: Action, c: Config, o: Addr)
    requires TreeInv(s, h, o) && c.Sane() && CanStep(s, a) && TreeGuard(s, h, a, c, o) && a.node != o
    ensures Entered(Handle(s[a.node], a.event, a.now, c).table, Note(h, s, a, c, o), a.node, o)
  {
    hide Takes, Calm, Handle;
    var n := s[a.node];
    EnteredSteady(n, h, a.now, o);
    TreeStep(n, a.event, a.now, c, o);
    assert Entered(n.table, h, a.node, o);
    if Takes(n, a.event, a.now, c, o) {
      TakesRequest(n, a.event, a.now, c, o);
      TakenPacket(s, h, a, c, o);
    }
  }

  lemma TakesRequest(n: Node, ev: Event, now: int, c: Config, o: Addr)
    requires Takes(n, ev, now, c, o)
    ensures ev.Receive? && ev.packet.msg.Rreq? && ev.packet.msg.rreq.origin == o
  {
  }

  /** The copy that the acting node passes on of the RREQ it takes. */
  lemma RelayAhead(s: Net, h: History, a: Action, c: Config, o: Addr, p: Packet)
    requires Sound(s) && Conserved(s) && CanStep(s, a) && a.node != o && Takes(s[a.node], a.event, a.now, c, o)
    requires RelayOf(p, a.event.packet)
    ensures Ahead(Note(h, s, a, c, o), a.node, p, o)
  {
    hide Unseen;
    assert Genuine(s, a.event.packet);
  }

  /** What the acting node sends of the floods of `o`. */
  lemma SentAhead(s: Net, h: History, a: Action, c: Config, o: Addr, p: Packet)
    requires TreeInv(s, h, o) && c.Sane() && CanStep(s, a) && TreeGuard(s, h, a, c, o) && a.node != o
    requires p in Handle(s[a.node], a.event, a.now, c).sent
    ensures Ahead(Note(h, s, a, c, o), a.node, p, o)
  {
    hide Calm, Handle, Unseen, Note, RelayOf, Entered, Rooted, Conserved, TreeGuard;
    var n, r, h' := s[a.node], Handle(s[a.node], a.event, a.now, c), Note(h, s, a, c, o);
    FloodStep(n, a.event, a.now, c);
    if p in n.sent {
      HistoryKept(s, h, a, c, o);
      assert Ahead(h, a.node, p, o);
    } else if p.msg.Rreq? && p.msg.rreq.origin == o {
      var j :| 0 <= j < |r.sent| && r.sent[j] == p;
      assert j >= |n.sent|;
      assert RelayOf(p, a.event.packet);
      RelayTakes(n, a.event, a.now, c, o, p);
      RelayAhead(s, h, a, c, o, p);
    }
  }

  lemma RelayTakes(n: Node, ev: Event, now: int, c: Config, o: Addr, p: Packet)
    requires ev.Receive? && ev.packet.msg.Rreq? && Unseen(n, ev.packet, ev.sender, now, c)
    requires RelayOf(p, ev.packet) && p.msg.rreq.origin == o
    ensures Takes(n, ev, now, c, o)
  {
  }

  lemma TreeKept(s: Net, h: History, a: Action, c: Config, o: Addr)
    requires TreeInv(s, h, o) && c.Sane() && CanStep(s, a) && TreeGuard(s, h, a, c, o)
    ensures TreeInv(StepTo(s, a, c), Note(h, s, a, c, o), o)
  {
    hide Handle, Calm, Takes, Entered;
    var s', h' := StepTo(s, a, c), Note(h, s, a, c, o);
    ConservedStep(s, a, c);
    HistoryKept(s, h, a, c, o);
    forall x | x in s' && x != o
      ensures Entered(s'[x].table, h', x, o)
    {
      if x == a.node {
        EntryKept(s, h, a, c, o);
      } else {
        SameEntered(s[x].table, h, h', x, o);
      }
    }
    forall y, p | y in s' && y != o && p in s'[y].sent
      ensures Ahead(h', y, p, o)
    {
      if y == a.node {
        SentAhead(s, h, a, c, o, p);
      } else {
        assert Ahead(h, y, p, o);
      }
    }
  }

  lemma SameEntered(t: Table, h: History, h': History, x: Addr, o: Addr)
    requires Entered(t, h, x, o) && (x in h <==> x in h') && (x in h ==> h'[x] == h[x])
    ensures Entered(t, h', x, o)
  {
  }

  /** A run whose steps are all calm and in order. */
  ghost predicate TreeRun(s: Net, h: History, acts: seq<Action>, c: Config, o: Addr)
    decreases |acts|
  {
    acts == [] || (CanStep(s, acts[0]) && TreeGuard(s, h, acts[0], c, o)
                   && TreeRun(StepTo(s, acts[0], c), Note(h, s, acts[0], c, o), acts[1..], c, o))
  }

  ghost function FinalHistory(s: Net, h: History, acts: seq<Action>, c: Config, o: Addr): History
    decreases |acts|
  {
    if acts == [] || acts[0].node !in s then h
    else FinalHistory(StepTo(s, acts[0], c), Note(h, s, acts[0], c, o), acts[1..], c, o)
  }

  lemma {:induction false} TreeAlways(s: Net, h: History, acts: seq<Action>, c: Config, o: Addr)
    requires TreeInv(s, h, o) && c.Sane() && TreeRun(s, h, acts, c, o)
    ensures TreeInv(Final(s, acts, c), FinalHistory(s, h, acts, c, o), o)
    decreases |acts|
  {
    hide TreeInv, TreeGuard, Note;
    if acts != [] {
      TreeKept(s, h, acts[0], c, o);
      TreeAlways(StepTo(s, acts[0], c), Note(h, s, acts[0], c, o), acts[1..], c, o);
    }
  }

  ghost function FloodRanks(h: History): map<Addr, Rank> {
    map x | x in h :: Rank(h[x].id, h[x].hop)
  }

  /** Following reverse next hops never comes back and ends at the originator; and as long as `o` has sent
      one flood, each hop is towards a strictly smaller hop count in the tables themselves. */
  lemma InvMeansTree(s: Net, h: History, o: Addr)
    requires TreeInv(s, h, o)
    ensures var next := NextHops(s, o);
            && (forall x, k: nat :: x in next && k >= |next| ==> Follow(next, x, k) == o)
            && (forall x, k: nat :: x in next && k > 0 ==> Follow(next, x, k) != x)
    ensures (forall x, y :: x in h && y in h ==> h[x].id == h[y].id) ==>
              forall x :: x in NextHops(s, o) && s[x].table[o].nextHop != o ==>
                var y := s[x].table[o].nextHop;
                y in s && o in s[y].table && s[y].table[o].hops < s[x].table[o].hops
  {
    var next, rank := NextHops(s, o), FloodRanks(h);
    forall x | x in next && next[x] != o
      ensures next[x] in next && x in rank && next[x] in rank && Better(rank[next[x]], rank[x])
    {
      assert Entered(s[x].table, h, x, o) && Rooted(h, x, o);
      assert Entered(s[next[x]].table, h, next[x], o);
    }
    AcyclicToRoot(next, rank, o);
  }

  /** RREQ floods build a tree: from a quiet network without routes, after any deliveries in any order of
      any number of floods that each node sees in order, every node with a route to `o` reaches `o`. */
  lemma FloodsBuildTree(s: Net, acts: seq<Action>, c: Config, o: Addr)
    requires Initial(s) && o in s && c.Sane() && TreeRun(s, map[], acts, c, o)
    ensures var next := NextHops(Final(s, acts, c), o);
            && (forall x, k: nat :: x in next && k >= |next| ==> Follow(next, x, k) == o)
            && (forall x, k: nat :: x in next && k > 0 ==> Follow(next, x, k) != x)
  {
    TreeAlways(s, map[], acts, c, o);
    InvMeansTree(Final(s, acts, c), FinalHistory(s, map[], acts, c, o), o);
  }

  // ------------------------------------------------------------------------------- stored hop counts

  /** The distance in the history is within the TTL of the flood it comes from. */
  ghost predicate Bounded(s: Net, h: History, o: Addr) {
    forall x :: x in h ==> WithinTtl(s, o, h[x].id, h[x].hop)
  }

  lemma BoundedKept(s: Net, h: History, a: Action, c: Config, o: Addr)
    requires TreeInv(s, h, o) && Bounded(s, h, o) && c.Sane() && CanStep(s, a)
    ensures Bounded(StepTo(s, a, c), Note(h, s, a, c, o), o)
  {
    hide Handle, WithinTtl, Unseen, Entered, Rooted, Ahead;
    var n, s', h' := s[a.node], StepTo(s, a, c), Note(h, s, a, c, o);
    FloodStep(n, a.event, a.now, c);
    forall x | x in h'
      ensures WithinTtl(s', o, h'[x].id, h'[x].hop)
    {
      if x in h && h'[x] == h[x] {
        WithinKept(s, s', o, h[x].id, h[x].hop);
      } else {
        assert Genuine(s, a.event.packet);
        GenuineWithin(s, a.event.packet);
        WithinKept(s, s', o, h'[x].id, h'[x].hop);
      }
    }
  }

  lemma {:induction false} BoundedAlways(s: Net, h: History, acts: seq<Action>, c: Config, o: Addr)
    requires TreeInv(s, h, o) && Bounded(s, h, o) && c.Sane() && TreeRun(s, h, acts, c, o)
    ensures TreeInv(Final(s, acts, c), FinalHistory(s, h, acts, c, o), o)
    ensures Bounded(Final(s, acts, c), FinalHistory(s, h, acts, c, o), o)
    decreases |acts|
  {
    hide TreeInv, TreeGuard, Note, Bounded;
    if acts != [] {
      TreeKept(s, h, acts[0], c, o);
      BoundedKept(s, h, acts[0], c, o);
      BoundedAlways(StepTo(s, acts[0], c), Note(h, s, acts[0], c, o), acts[1..], c, o);
    }
  }

  /** In the tree no stored hop count exceeds a TTL that `o` has used: every node with a route to `o` has
      it straight, or as far away as one of the RREQs of `o` was allowed to travel. */
  lemma HopsWithinTtl(s: Net, acts: seq<Action>, c: Config, o: Addr, x: Addr)
    requires Initial(s) && o in s && c.Sane() && TreeRun(s, map[], acts, c, o)
    requires var f := Final(s, acts, c); x in f && x != o && o in f[x].table
    ensures var f := Final(s, acts, c); var e := f[x].table[o];
            (e.nextHop == o && e.hops == 1) || exists id: U32 :: WithinTtl(f, o, id, e.hops)
  {
    hide Final, FinalHistory, TreeRun, WithinTtl;
    BoundedAlways(s, map[], acts, c, o);
    var f, h := Final(s, acts, c), FinalHistory(s, map[], acts, c, o);
    assert Entered(f[x].table, h, x, o);
    if x in h {
      assert WithinTtl(f, o, h[x].id, h[x].hop);
    }
  }
}
