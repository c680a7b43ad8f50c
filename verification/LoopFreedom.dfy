/** Loop freedom of the routes to one destination (section 6.7 of RFC 3561): which events keep it. */
module LoopFreedom {
  import opened Basics
  import opened SequenceNumbers
  import opened Headers
  import opened RouteEntries
  import opened Nodes
  import opened RouteViews
  import opened NodeViews
  import opened Networks
  import opened NextHopGraphs
  import IdCaches
  import PacketQueues

  /** The entry carries a sequence number of the destination. */
  predicate Ranked(t: Table, d: Addr) {
    d in t && t[d].validSeqNo
  }

  /** Fresher sequence numbers are better; with the same one, fewer hops are. */
  function RankAt(t: Table, d: Addr, base: U32): Rank
    requires d in t
  {
    Rank(Age(base, t[d].seqNo), t[d].hops)
  }

  function OfferRank(m: RrepHeader, base: U32): Rank {
    Rank(Age(base, m.dstSeqNo), m.hopCount)
  }

  /** What an entry for `d` looks like by itself. */
  ghost predicate GoodSlot(t: Table, d: Addr, base: U32) {
    d in t ==>
      if t[d].validSeqNo then InWindow(base, t[d].seqNo) && t[d].flag != IN_SEARCH && t[d].hops < 0x100
      else t[d].nextHop == d || t[d].flag == IN_SEARCH
  }

  /** The route of the RREP is no older than `r`, and no longer when it is as old. */
  predicate NotWorse(r: Route, m: RrepHeader) {
    SeqDiff(m.dstSeqNo, r.seqNo) > 0 || (m.dstSeqNo == r.seqNo && m.hopCount + 1 <= r.hops)
  }

  /** What a message heard directly from `d` must be for the route `r` to `d` to stay as fresh as it was: a
      RREP or HELLO about `d` at least as good, or anything but a new request when `r` is one hop long. */
  predicate Benign(n: Node, p: Packet, now: int, d: Addr, r: Route) {
    if p.msg.Rrep? && p.msg.rrep.dst == d then NotWorse(r, p.msg.rrep)
    else r.hops == 1 && r.bound && (p.msg.Rreq? ==> Repeated(n, p.msg.rreq, now))
  }

  predicate Repeated(n: Node, m: RreqHeader, now: int) {
    IdCaches.Duplicate(n.idCache, m.origin, m.requestID, now)
  }

  /** The event leaves the freshness of this node's route to `d` alone, except through the RREP rules:
      the route is not deleted, not searched for again, not overwritten by a message heard directly from
      `d`, not revived by a longer RREP of the same age (rule (iii)), not touched by a new request of `d`,
      and not by a HELLO of `d` that comes from somebody else. */
  ghost predicate Undisturbed(n: Node, ev: Event, now: int, d: Addr) {
    var v := ViewOf(n.table, now);
    && (Ranked(n.table, d) ==> d in v)
    && match ev
       case Receive(p, sender) =>
         && (p.msg.Rreq? && p.msg.rreq.origin == d ==> Repeated(n, p.msg.rreq, now))
         && (sender == d && Ranked(n.table, d) ==> Benign(n, p, now, d, v[d]))
         && (p.msg.Rrep? && p.msg.rrep.dst == d ==>
               if p.msg.rrep.origin == d then sender == d
               else p.msg.rrep.hopCount < 255
                    && (Ranked(n.table, d) && v[d].flag != VALID && v[d].seqNo == p.msg.rrep.dstSeqNo ==>
                          p.msg.rrep.hopCount + 1 <= v[d].hops))
       case Unrecognized(sender) => sender == d && Ranked(n.table, d) ==> v[d].hops == 1 && v[d].bound
       case Output(e) => e.dst == d ==> !Ranked(n.table, d)
       case Deferred(k) => k == d ==> !Ranked(n.table, d)
       case RreqTimer(k) => k == d && Ranked(n.table, d) ==> v[d].flag == VALID
       case _ => true
  }

  /** The entry kept everything that matters for loops. */
  ghost predicate SameSlot(t: Table, r: Table, d: Addr) {
    d in r ==>
      && d in t && r[d].validSeqNo == t[d].validSeqNo && r[d].nextHop == t[d].nextHop
      && (t[d].validSeqNo ==> r[d].seqNo == t[d].seqNo && r[d].hops == t[d].hops && r[d].flag != IN_SEARCH)
      && (!t[d].validSeqNo ==> r[d].nextHop == d || r[d].flag == IN_SEARCH)
  }

  /** The entry is what the received RREP offered. */
  ghost predicate TookOffer(r: Table, ev: Event, d: Addr) {
    && ev.Receive? && ev.packet.msg.Rrep? && ev.packet.msg.rrep.dst == d && d in r
    && r[d].nextHop == ev.sender && r[d].seqNo == ev.packet.msg.rrep.dstSeqNo
    && r[d].hops == ev.packet.msg.rrep.hopCount + 1
  }

  /** How an undisturbed event changes the entry for `d`, and what it can send about `d`. */
  ghost predicate SlotEffect(t: Table, r: Table, ev: Event, d: Addr, base: U32) {
    && GoodSlot(r, d, base)
    && (SameSlot(t, r, d)
        || (d in r && !r[d].validSeqNo)
        || (d in r && r[d].validSeqNo && (r[d].nextHop == d || TookOffer(r, ev, d))))
    && (Ranked(t, d) ==> Ranked(r, d) && AtLeast(RankAt(r, d, base), RankAt(t, d, base)))
  }

  /** The node can vouch for what it says about `d`. */
  ghost predicate Vouched(r: Table, p: Packet, d: Addr, base: U32) {
    p.msg.Rrep? && p.msg.rrep.dst == d ==>
      && InWindow(base, p.msg.rrep.dstSeqNo)
      && Ranked(r, d) && AtLeast(RankAt(r, d, base), OfferRank(p.msg.rrep, base))
  }

  ghost predicate SentEffect(n: Node, r: Node, d: Addr, base: U32) {
    forall p :: p in r.sent ==> p in n.sent || Vouched(r.table, p, d, base)
  }

  function RouteRank(r: Route, base: U32): Rank {
    Rank(Age(base, r.seqNo), r.hops)
  }

  /** The view `w` shows, for `d`, an undisturbed successor of the table `t`. */
  ghost predicate GoodView(t: Table, v: View, w: View, ev: Event, d: Addr, base: U32) {
    && (d in w ==>
          || (d in v && w[d] == v[d])
          || (d in v && v[d].validSeqNo && w[d].flag != IN_SEARCH && w[d] == v[d].(flag := w[d].flag))
          || (!w[d].validSeqNo && (w[d].nextHop == d || w[d].flag == IN_SEARCH))
          || (w[d].validSeqNo && InWindow(base, w[d].seqNo) && w[d].hops < 0x100 && w[d].flag != IN_SEARCH
              && (w[d].nextHop == d
                  || (ev.Receive? && ev.packet.msg.Rrep? && ev.packet.msg.rrep.dst == d && w[d].nextHop == ev.sender
                      && w[d].seqNo == ev.packet.msg.rrep.dstSeqNo && w[d].hops == ev.packet.msg.rrep.hopCount + 1))))
    && (Ranked(t, d) ==> d in w && w[d].validSeqNo && AtLeast(RouteRank(w[d], base), RankAt(t, d, base)))
  }

  /** From an effect on the view to an effect on the entry. */
  lemma ViewToSlot(t: Table, r: Table, w: View, now: int, ev: Event, d: Addr, base: U32)
    requires WellFormed(t) && GoodSlot(t, d, base) && d != UNSET
    requires forall k :: k in r ==> !Gone(r[k], now)
    requires Fades(w, ViewOf(r, now)) && GoodView(t, ViewOf(t, now), w, ev, d, base)
    ensures SlotEffect(t, r, ev, d, base)
    ensures d in w ==> d in r && RankAt(r, d, base) == RouteRank(w[d], base) && r[d].validSeqNo == w[d].validSeqNo
  {
    if d in r {
      assert d in ViewOf(r, now);
    }
    if d in w {
      assert d in ViewOf(r, now);
    }
  }

  lemma KeptSlot(t: Table, r: Table, now: int, ev: Event, d: Addr, base: U32)
    requires WellFormed(t) && GoodSlot(t, d, base) && d != UNSET && (Ranked(t, d) ==> d in ViewOf(t, now))
    requires Kept(t, r, now) && Fades(ViewOf(t, now), ViewOf(r, now))
    ensures SlotEffect(t, r, ev, d, base)
  {
    if r != t {
      ViewToSlot(t, r, ViewOf(t, now), now, ev, d, base);
    }
  }

  lemma ErrorsVouched(n: Node, r: Node, d: Addr, base: U32)
    requires OnlyErrors(n.sent, r.sent)
    ensures SentEffect(n, r, d, base)
  {
    forall p | p in r.sent
      ensures p in n.sent || Vouched(r.table, p, d, base)
    {
      var i :| 0 <= i < |r.sent| && r.sent[i] == p;
      if i < |n.sent| {
        assert n.sent[i] == p;
      }
    }
  }

  // ------------------------------------------------------------------------------- received messages

  /** Refreshing the sender's route is itself undisturbed, or is about to be made good by the RREP. */
  lemma RefreshedAt(n: Node, p: Packet, sender: Addr, now: int, c: Config, d: Addr, base: U32)
    requires WellFormed(n.table) && c.Sane() && d != UNSET && GoodSlot(n.table, d, base)
    requires Undisturbed(n, Receive(p, sender), now, d)
    ensures var t := UpdateRouteToNeighbor(n.table, sender, now, c); var v := ViewOf(n.table, now);
            && Settled(t, now) && ViewOf(t, now) == Refreshed(v, sender)
            && (sender != d ==> (d in ViewOf(t, now) <==> d in v) && (d in v ==> ViewOf(t, now)[d] == v[d]))
            && (sender == d ==>
                  d in ViewOf(t, now)
                  && (ViewOf(t, now)[d] == OneHop(d, 0) || (d in v && ViewOf(t, now)[d] == v[d] && v[d].validSeqNo)))
  {
    UpdateRouteToNeighborView(n.table, sender, now, c);
  }

  lemma RequestEffect(n: Node, p: Packet, src: Addr, now: int, c: Config, d: Addr, base: U32)
    requires WellFormed(n.table) && c.Sane() && now >= 0 && d != UNSET && GoodSlot(n.table, d, base) && n.me != d
    requires p.msg.Rreq? && Proper(p.msg) && Undisturbed(n, Receive(p, src), now, d)
    ensures var r := RecvAodv(n, p, src, now, c);
            && WellFormed(r.table) && r.me == n.me
            && SlotEffect(n.table, r.table, Receive(p, src), d, base) && SentEffect(n, r, d, base)
  {
    hide AcceptRequest, AnswerOrRelay, UpdateRouteToNeighbor, SlotEffect, Answered, OnlyErrors,
      IdCaches.Duplicate, IdCaches.Remember;
    var m, ev, v := p.msg.rreq, Receive(p, src), ViewOf(n.table, now);
    RefreshedAt(n, p, src, now, c, d, base);
    var n1 := n.(table := UpdateRouteToNeighbor(n.table, src, now, c));
    PurgeView(n1.table, now, c.deletePeriod);
    var r := RecvRequest(n1, m, p.ttl, src, now, c);
    if (src in n1.table && n1.table[src].blacklisted) || IdCaches.Duplicate(n.idCache, m.origin, m.requestID, now) {
      assert r.table == n1.table && r.sent == n.sent;
      ViewToSlot(n.table, r.table, ViewOf(n1.table, now), now, ev, d, base);
      NothingSent(n, r, d, base);
    } else {
      AcceptRequestView(n1, m, src, now, c);
      var a := AcceptRequest(n1, m, src, now, c);
      var w := RequestedView(ViewOf(n1.table, now), m, src, c);
      assert m.origin in w;
      var m1 := m.(hopCount := Bump8(m.hopCount));
      AnswerOrRelayView(a, m1, p.ttl, src, now, c);
      FadesTransitive(w, ViewOf(a.table, now), ViewOf(r.table, now));
      ViewToSlot(n.table, r.table, w, now, ev, d, base);
      AnsweredVouched(n, a, r, ViewOf(a.table, now), m1, p.ttl, now, c, d, base);
    }
  }

  lemma NothingSent(n: Node, r: Node, d: Addr, base: U32)
    requires r.sent == n.sent
    ensures SentEffect(n, r, d, base)
  {
  }

  lemma AnsweredVouched(n: Node, a: Node, r: Node, v: View, m: RreqHeader, ttl: U8, now: int, c: Config, d: Addr,
                        base: U32)
    requires OnlyErrors(n.sent, a.sent) && a.me != d && Answered(a, r, v, m, ttl, c) && m.origin != d
    requires Settled(r.table, now) && v == ViewOf(r.table, now) && GoodSlot(r.table, d, base) && d != UNSET
    ensures SentEffect(n, r, d, base)
  {
    hide Answered, Vouched;
    SettledView(r.table, now);
    NewRreps(n, a, m, ttl, c, r, v);
    forall p | p in r.sent && p !in n.sent
      ensures Vouched(r.table, p, d, base)
    {
      if p.msg.Rrep? && p.msg.rrep.dst == d {
        AnsweredRreps(a, r, v, m, ttl, c, p);
        TableVouched(r.table, v, p, m, now, d, base);
      } else {
        NotAbout(r.table, p, d, base);
      }
    }
  }

  /** Only RERRs have gone out before the answer. */
  lemma NewRreps(n: Node, a: Node, m: RreqHeader, ttl: U8, c: Config, r: Node, v: View)
    requires OnlyErrors(n.sent, a.sent)
    ensures forall p :: p in a.sent && p !in n.sent ==> !p.msg.Rrep?
  {
    forall p | p in a.sent && p !in n.sent
      ensures !p.msg.Rrep?
    {
      NewPacket(n.sent, a.sent, p);
    }
  }

  lemma NotAbout(t: Table, p: Packet, d: Addr, base: U32)
    requires !(p.msg.Rrep? && p.msg.rrep.dst == d)
    ensures Vouched(t, p, d, base)
  {
  }

  lemma TableVouched(t: Table, v: View, p: Packet, m: RreqHeader, now: int, d: Addr, base: U32)
    requires Settled(t, now) && v == ViewOf(t, now) && GoodSlot(t, d, base) && d != UNSET && m.origin != d
    requires m.dst in v && v[m.dst].validSeqNo && p.msg.Rrep? && p.msg.rrep.dst == d
    requires TableReply(v, p, m.dst, m.origin) || TableReply(v, p, m.origin, m.dst)
    ensures Vouched(t, p, d, base)
  {
    SettledView(t, now);
    assert RouteOf(t[d], now) == v[d];
  }

  /** The numbers in a RREP about `d` are ones `d` has used, and its hop count does not wrap. */
  ghost predicate Current(p: Packet, d: Addr, base: U32) {
    p.msg.Rrep? && p.msg.rrep.dst == d ==> InWindow(base, p.msg.rrep.dstSeqNo)
  }

  lemma ReplyEffect(n: Node, p: Packet, sender: Addr, now: int, c: Config, d: Addr, base: U32)
    requires WellFormed(n.table) && c.Sane() && now >= 0 && d != UNSET && GoodSlot(n.table, d, base) && n.me != d
    requires p.msg.Rrep? && p.msg.rrep.dst != p.msg.rrep.origin
    requires Proper(p.msg) && Current(p, d, base) && Undisturbed(n, Receive(p, sender), now, d)
    ensures var r := RecvAodv(n, p, sender, now, c);
            && WellFormed(r.table) && r.me == n.me
            && SlotEffect(n.table, r.table, Receive(p, sender), d, base) && SentEffect(n, r, d, base)
  {
    hide RecvReply, UpdateRouteToNeighbor, SlotEffect, Forwarded;
    var m, ev, v := p.msg.rrep, Receive(p, sender), ViewOf(n.table, now);
    RefreshedAt(n, p, sender, now, c, d, base);
    var n1 := n.(table := UpdateRouteToNeighbor(n.table, sender, now, c));
    var v1 := ViewOf(n1.table, now);
    RecvReplyView(n1, m, p.ttl, sender, now, c);
    var r := RecvReply(n1, m, p.ttl, sender, now, c);
    var w := RepliedView(n1, v1, m, sender);
    if m.dst == d {
      ReplyRank(n.table, v, v1, w, n1, m, ev, sender, now, d, base);
    }
    ViewToSlot(n.table, r.table, w, now, ev, d, base);
    ForwardVouched(n1, r, w, m, p.ttl, sender, now, d, base);
  }

  /** A RREP about `d` leaves a route at least as good as itself and as the one before. */
  lemma ReplyRank(t: Table, v: View, v1: View, w: View, n: Node, m: RrepHeader, ev: Event, sender: Addr, now: int,
                  d: Addr, base: U32)
    requires WellFormed(t) && GoodSlot(t, d, base) && v == ViewOf(t, now) && d != UNSET && m.dst == d
    requires w == RepliedView(n, v1, m, sender) && InWindow(base, m.dstSeqNo) && m.hopCount < 255
    requires ev.Receive? && ev.sender == sender && ev.packet.msg == Rrep(m)
    requires Ranked(t, d) ==> d in v
    requires sender != d ==> ((d in v1 <==> d in v) && (d in v ==> v1[d] == v[d]))
    requires sender == d ==> d in v1 && (v1[d] == OneHop(d, 0) || (d in v && v1[d] == v[d] && v[d].validSeqNo))
    requires sender == d && Ranked(t, d) ==> NotWorse(v[d], m)
    requires Ranked(t, d) && v[d].flag != VALID && v[d].seqNo == m.dstSeqNo ==> m.hopCount + 1 <= v[d].hops
    ensures GoodView(t, v, w, ev, d, base)
    ensures d in w && w[d].validSeqNo && AtLeast(RouteRank(w[d], base), Rank(Age(base, m.dstSeqNo), m.hopCount + 1))
  {
    if d in v && v[d].validSeqNo {
      WindowOrder(base, m.dstSeqNo, v[d].seqNo);
    }
  }

  lemma ForwardVouched(n: Node, r: Node, w: View, m: RrepHeader, ttl: U8, sender: Addr, now: int, d: Addr, base: U32)
    requires Forwarded(n, r, w, m, ttl, sender) && Settled(r.table, now) && w == ViewOf(r.table, now) && d != UNSET
    requires m.dst == d ==> InWindow(base, m.dstSeqNo) && m.hopCount < 255 && d in w && w[d].validSeqNo
    requires m.dst == d ==> AtLeast(RouteRank(w[d], base), Rank(Age(base, m.dstSeqNo), m.hopCount + 1))
    ensures SentEffect(n, r, d, base)
  {
    SettledView(r.table, now);
  }

  lemma HelloEffect(n: Node, p: Packet, sender: Addr, now: int, c: Config, d: Addr, base: U32)
    requires WellFormed(n.table) && c.Sane() && d != UNSET && GoodSlot(n.table, d, base)
    requires p.msg.Rrep? && p.msg.rrep.dst == p.msg.rrep.origin
    requires Proper(p.msg) && Current(p, d, base) && Undisturbed(n, Receive(p, sender), now, d)
    ensures var r := RecvAodv(n, p, sender, now, c);
            && WellFormed(r.table) && r.me == n.me
            && SlotEffect(n.table, r.table, Receive(p, sender), d, base) && SentEffect(n, r, d, base)
  {
    hide ProcessHello, UpdateRouteToNeighbor;
    var m, ev := p.msg.rrep, Receive(p, sender);
    RefreshedAt(n, p, sender, now, c, d, base);
    var n1 := n.(table := UpdateRouteToNeighbor(n.table, sender, now, c));
    ProcessHelloView(n1, m, now, c);
    var r := ProcessHello(n1, m, now, c);
    var v := ViewOf(n.table, now);
    if m.dst == d && Ranked(n.table, d) {
      WindowOrder(base, m.dstSeqNo, v[d].seqNo);
    }
    ViewToSlot(n.table, r.table, HelloView(ViewOf(n1.table, now), m), now, ev, d, base);
    ErrorsVouched(n, r, d, base);
  }

  lemma ErrorEffect(n: Node, p: Packet, sender: Addr, now: int, c: Config, d: Addr, base: U32)
    requires WellFormed(n.table) && c.Sane() && d != UNSET && GoodSlot(n.table, d, base)
    requires (p.msg.Rerr? || p.msg.RrepAck?) && Undisturbed(n, Receive(p, sender), now, d)
    ensures var r := RecvAodv(n, p, sender, now, c);
            && WellFormed(r.table) && r.me == n.me
            && SlotEffect(n.table, r.table, Receive(p, sender), d, base) && SentEffect(n, r, d, base)
  {
    hide RecvError, RecvReplyAck, UpdateRouteToNeighbor;
    var ev := Receive(p, sender);
    RefreshedAt(n, p, sender, now, c, d, base);
    var n1 := n.(table := UpdateRouteToNeighbor(n.table, sender, now, c));
    var v1 := ViewOf(n1.table, now);
    if p.msg.Rerr? {
      RecvErrorView(n1, p.msg.rerr, sender, now, c);
      var r := RecvError(n1, p.msg.rerr, sender, now, c);
      ViewToSlot(n.table, r.table, v1, now, ev, d, base);
      ErrorsVouched(n, r, d, base);
    } else {
      RecvReplyAckView(n1, sender, now, c);
      var r := RecvReplyAck(n1, sender, now, c);
      ViewToSlot(n.table, r.table, ViewOf(r.table, now), now, ev, d, base);
    }
  }

  lemma ReceiveEffect(n: Node, p: Packet, sender: Addr, now: int, c: Config, d: Addr, base: U32)
    requires WellFormed(n.table) && c.Sane() && now >= 0 && d != UNSET && GoodSlot(n.table, d, base) && n.me != d
    requires Proper(p.msg) && Current(p, d, base) && Undisturbed(n, Receive(p, sender), now, d)
    ensures var r := RecvAodv(n, p, sender, now, c);
            && WellFormed(r.table) && r.me == n.me
            && SlotEffect(n.table, r.table, Receive(p, sender), d, base) && SentEffect(n, r, d, base)
  {
    hide RecvAodv;
    if p.msg.Rreq? {
      RequestEffect(n, p, sender, now, c, d, base);
    } else if p.msg.Rrep? {
      if p.msg.rrep.dst == p.msg.rrep.origin {
        HelloEffect(n, p, sender, now, c, d, base);
      } else {
        ReplyEffect(n, p, sender, now, c, d, base);
      }
    } else {
      ErrorEffect(n, p, sender, now, c, d, base);
    }
  }

  // ------------------------------------------------------------------------------- local events

  lemma SearchEffect(n: Node, dst: Addr, now: int, c: Config, ev: Event, d: Addr, base: U32)
    requires WellFormed(n.table) && c.Sane() && d != UNSET && GoodSlot(n.table, d, base)
    requires Ranked(n.table, d) ==> dst != d && d in ViewOf(n.table, now)
    ensures var r := SendRequest(n, dst, now, c);
            && WellFormed(r.table) && r.me == n.me
            && SlotEffect(n.table, r.table, ev, d, base) && SentEffect(n, r, d, base)
  {
    hide SendRequest;
    SendRequestView(n, dst, now, c);
    var r := SendRequest(n, dst, now, c);
    if n.rreqCount != c.rreqRateLimit {
      var hops: U16 :| ViewOf(r.table, now) == SearchedView(ViewOf(n.table, now), dst, c, hops);
      ViewToSlot(n.table, r.table, SearchedView(ViewOf(n.table, now), dst, c, hops), now, ev, d, base);
    } else {
      assert SlotEffect(n.table, n.table, ev, d, base);
    }
  }

  /** A purge composed with an effect is that effect. */
  lemma AfterPurge(t: Table, p: Table, r: Table, now: int, bad: int, ev: Event, d: Addr, base: U32)
    requires WellFormed(t) && bad >= 0 && p == Purge(t, now, bad) && d != UNSET && GoodSlot(t, d, base)
    requires Ranked(t, d) ==> d in ViewOf(t, now)
    requires GoodSlot(p, d, base) ==> SlotEffect(p, r, ev, d, base)
    ensures GoodSlot(p, d, base) && SlotEffect(t, r, ev, d, base)
    ensures WellFormed(p) && (Ranked(p, d) <==> Ranked(t, d)) && ViewOf(p, now) == ViewOf(t, now)
  {
    PurgeView(t, now, bad);
    if d in p {
      assert d in ViewOf(p, now);
    }
  }

  lemma OutputEffect(n: Node, e: PacketQueues.QueueEntry, now: int, c: Config, d: Addr, base: U32)
    requires WellFormed(n.table) && c.Sane() && d != UNSET && GoodSlot(n.table, d, base)
    requires Undisturbed(n, Output(e), now, d)
    ensures var r := DeferredRouteOutput(n, e, now, c);
            && WellFormed(r.table) && r.me == n.me
            && SlotEffect(n.table, r.table, Output(e), d, base) && SentEffect(n, r, d, base)
  {
    hide SendRequest;
    var t := Purge(n.table, now, c.deletePeriod);
    AfterPurge(n.table, t, t, now, c.deletePeriod, Output(e), d, base);
    var n' := n.(table := t, queue := PacketQueues.Enqueue(n.queue, e, now, c.maxQueueLen, c.maxQueueTime));
    SearchEffect(n', e.dst, now, c, Output(e), d, base);
    AfterPurge(n.table, t, SendRequest(n', e.dst, now, c).table, now, c.deletePeriod, Output(e), d, base);
  }

  lemma TimerEffect(n: Node, dst: Addr, now: int, c: Config, d: Addr, base: U32)
    requires WellFormed(n.table) && c.Sane() && d != UNSET && GoodSlot(n.table, d, base)
    requires Undisturbed(n, RreqTimer(dst), now, d)
    ensures var r := RouteRequestTimerExpire(n, dst, now, c);
            && WellFormed(r.table) && r.me == n.me
            && SlotEffect(n.table, r.table, RreqTimer(dst), d, base) && SentEffect(n, r, d, base)
  {
    hide SendRequest, GiveUp, SendPacketFromQueue;
    var ev := RreqTimer(dst);
    var t := Purge(n.table, now, c.deletePeriod);
    PurgeView(n.table, now, c.deletePeriod);
    SettledView(t, now);
    AfterPurge(n.table, t, t, now, c.deletePeriod, ev, d, base);
    var toDst := Lookup(t, dst).GetOr(DefaultEntry(now));
    var n' := n.(table := t, timers := n.timers - {dst});
    if dst in t && toDst.flag == VALID {
      SendPacketsCore(n', dst, toDst, now);
    } else if toDst.reqCount != c.rreqRetries && toDst.flag == IN_SEARCH {
      SearchEffect(n', dst, now, c, ev, d, base);
      AfterPurge(n.table, t, SendRequest(n', dst, now, c).table, now, c.deletePeriod, ev, d, base);
    } else {
      GiveUpView(n', dst, now, c);
      ViewToSlot(n.table, GiveUp(n', dst, now, c).table, ViewOf(n.table, now) - {dst}, now, ev, d, base);
    }
  }

  lemma UnrecognizedEffect(n: Node, sender: Addr, now: int, c: Config, d: Addr, base: U32)
    requires WellFormed(n.table) && c.Sane() && d != UNSET && GoodSlot(n.table, d, base)
    requires Undisturbed(n, Unrecognized(sender), now, d)
    ensures var r := RecvUnrecognized(n, sender, now, c);
            && WellFormed(r.table) && r.me == n.me
            && SlotEffect(n.table, r.table, Unrecognized(sender), d, base) && SentEffect(n, r, d, base)
  {
    hide UpdateRouteToNeighbor;
    UpdateRouteToNeighborView(n.table, sender, now, c);
    var t := UpdateRouteToNeighbor(n.table, sender, now, c);
    ViewToSlot(n.table, t, ViewOf(t, now), now, Unrecognized(sender), d, base);
  }

  lemma LocalEffect(n: Node, ev: Event, now: int, c: Config, d: Addr, base: U32)
    requires WellFormed(n.table) && c.Sane() && d != UNSET && GoodSlot(n.table, d, base) && n.me != d
    requires !ev.Receive? && Undisturbed(n, ev, now, d)
    ensures var r := Handle(n, ev, now, c);
            && WellFormed(r.table) && r.me == n.me
            && SlotEffect(n.table, r.table, ev, d, base) && SentEffect(n, r, d, base)
  {
    hide SendRequest, DeferredRouteOutput, RouteRequestTimerExpire, NbPurge, NbUpdate, UpdateRouteLifeTime, RecvAodv,
      UpdateRouteToNeighbor;
    match ev
    case Output(e) => OutputEffect(n, e, now, c, d, base);
    case RreqTimer(dst) => TimerEffect(n, dst, now, c, d, base);
    case Deferred(dst) => SearchEffect(n.(pending := n.pending - multiset{dst}), dst, now, c, ev, d, base);
    case Unrecognized(sender) => UnrecognizedEffect(n, sender, now, c, d, base);
    case RateTimer => assert SlotEffect(n.table, n.table, ev, d, base);
    case NeighborTimer =>
      NbPurgeView(n, now, c);
      KeptSlot(n.table, NbPurge(n, now, c).table, now, ev, d, base);
      ErrorsVouched(n, NbPurge(n, now, c), d, base);
    case LinkFailure(addrs) =>
      var n' := n.(nb := CloseAll(n.nb, addrs));
      NbPurgeView(n', now, c);
      KeptSlot(n.table, NbPurge(n', now, c).table, now, ev, d, base);
      ErrorsVouched(n, NbPurge(n', now, c), d, base);
    case UseRoute(addr) =>
      UpdateRouteLifeTimeView(n.table, addr, now, c);
      ViewToSlot(n.table, UpdateRouteLifeTime(n.table, addr, c.activeRouteTimeout, now, c), ViewOf(n.table, now),
                 now, ev, d, base);
    case UseNeighbor(addr) =>
      NbUpdateView(n, addr, c.activeRouteTimeout, now, c);
      KeptSlot(n.table, NbUpdate(n, addr, c.activeRouteTimeout, now, c).table, now, ev, d, base);
      ErrorsVouched(n, NbUpdate(n, addr, c.activeRouteTimeout, now, c), d, base);
    case Hello =>
      assert SlotEffect(n.table, n.table, ev, d, base);
  }

  // ------------------------------------------------------------------------------- the destination itself

  /** Whatever the destination sends about itself carries a number it has used. */
  ghost predicate OwnSent(n: Node, r: Node, d: Addr, base: U32) {
    forall p :: p in r.sent ==> p in n.sent || Current(p, d, base)
  }

  lemma ErrorsCurrent(n: Node, r: Node, d: Addr, base: U32)
    requires OnlyErrors(n.sent, r.sent)
    ensures OwnSent(n, r, d, base)
  {
    assert forall j :: 0 <= j < |n.sent| ==> r.sent[j] in n.sent;
  }

  lemma OwnRequestEffect(n: Node, p: Packet, src: Addr, now: int, c: Config, d: Addr, base: U32)
    requires WellFormed(n.table) && c.Sane() && now >= 0 && d != UNSET && n.me == d
    requires p.msg.Rreq? && Proper(p.msg) && (p.msg.rreq.origin == d ==> Repeated(n, p.msg.rreq, now))
    requires InWindow(base, RecvAodv(n, p, src, now, c).seqNo)
    ensures var r := RecvAodv(n, p, src, now, c);
            WellFormed(r.table) && r.me == n.me && OwnSent(n, r, d, base)
  {
    hide AcceptRequest, AnswerOrRelay, UpdateRouteToNeighbor;
    UpdateRouteToNeighborView(n.table, src, now, c);
    var m := p.msg.rreq;
    var n1 := n.(table := UpdateRouteToNeighbor(n.table, src, now, c));
    PurgeView(n1.table, now, c.deletePeriod);
    var r := RecvRequest(n1, m, p.ttl, src, now, c);
    if !((src in n1.table && n1.table[src].blacklisted) || IdCaches.Duplicate(n.idCache, m.origin, m.requestID, now)) {
      AcceptRequestView(n1, m, src, now, c);
      var a := AcceptRequest(n1, m, src, now, c);
      assert m.origin in RequestedView(ViewOf(n1.table, now), m, src, c);
      var m1 := m.(hopCount := Bump8(m.hopCount));
      AnswerOrRelayView(a, m1, p.ttl, src, now, c);
      AnsweredCurrent(n, a, r, ViewOf(a.table, now), m1, p.ttl, c, d, base);
    }
  }

  lemma AnsweredCurrent(n: Node, a: Node, r: Node, v: View, m: RreqHeader, ttl: U8, c: Config, d: Addr, base: U32)
    requires OnlyErrors(n.sent, a.sent) && a.me == d && Answered(a, r, v, m, ttl, c) && m.origin != d
    requires InWindow(base, r.seqNo)
    ensures OwnSent(n, r, d, base)
  {
    assert forall j :: 0 <= j < |n.sent| ==> a.sent[j] in n.sent;
    forall p | p in r.sent && !(p in n.sent) && p.msg.Rrep? && p.msg.rrep.dst == d
      ensures Current(p, d, base)
    {
      var i :| 0 <= i < |r.sent| && r.sent[i] == p;
      assert i >= |a.sent|;
    }
  }

  /** Every RREP received is passed on with the number it came with. */
  lemma OwnReplyEffect(n: Node, m: RrepHeader, ttl: U8, sender: Addr, now: int, c: Config, d: Addr, base: U32)
    requires WellFormed(n.table) && c.Sane() && now >= 0 && Proper(Rrep(m))
             && (m.dst == d ==> InWindow(base, m.dstSeqNo))
    ensures var r := RecvReply(n, m, ttl, sender, now, c);
            WellFormed(r.table) && r.me == n.me && OwnSent(n, r, d, base)
  {
    hide RecvReply, ProcessHello, RepliedView, ViewOf, InWindow;
    if m.dst == m.origin {
      HelloReply(n, m, ttl, sender, now, c);
      ProcessHelloView(n, m, now, c);
      ErrorsCurrent(n, ProcessHello(n, m, now, c), d, base);
    } else {
      RecvReplyView(n, m, ttl, sender, now, c);
    }
  }

  lemma OwnErrorEffect(n: Node, p: Packet, sender: Addr, now: int, c: Config, d: Addr, base: U32)
    requires WellFormed(n.table) && c.Sane() && (p.msg.Rerr? || p.msg.RrepAck?)
    ensures var r := RecvAodv(n, p, sender, now, c);
            WellFormed(r.table) && r.me == n.me && OwnSent(n, r, d, base)
  {
    hide RecvError, RecvReplyAck, UpdateRouteToNeighbor, ViewOf, Current;
    UpdateRouteToNeighborView(n.table, sender, now, c);
    var n1 := n.(table := UpdateRouteToNeighbor(n.table, sender, now, c));
    if p.msg.Rerr? {
      RecvErrorView(n1, p.msg.rerr, sender, now, c);
      ErrorsCurrent(n, RecvError(n1, p.msg.rerr, sender, now, c), d, base);
    } else {
      RecvReplyAckView(n1, sender, now, c);
    }
  }

  lemma OwnReceiveEffect(n: Node, p: Packet, sender: Addr, now: int, c: Config, d: Addr, base: U32)
    requires WellFormed(n.table) && c.Sane() && now >= 0 && d != UNSET && n.me == d
    requires Proper(p.msg) && Current(p, d, base)
    requires p.msg.Rreq? && p.msg.rreq.origin == d ==> Repeated(n, p.msg.rreq, now)
    requires InWindow(base, RecvAodv(n, p, sender, now, c).seqNo)
    ensures var r := RecvAodv(n, p, sender, now, c);
            WellFormed(r.table) && r.me == n.me && OwnSent(n, r, d, base)
  {
    hide RecvAodv, RecvReply, UpdateRouteToNeighbor, Repeated, InWindow, ViewOf;
    UpdateRouteToNeighborView(n.table, sender, now, c);
    match p.msg
    case Rreq(m) => OwnRequestEffect(n, p, sender, now, c, d, base);
    case Rrep(m) =>
      OwnReplyEffect(n.(table := UpdateRouteToNeighbor(n.table, sender, now, c)), m, p.ttl, sender, now, c, d, base);
      ReplyReceived(n, p, sender, now, c);
    case _ => OwnErrorEffect(n, p, sender, now, c, d, base);
  }

  lemma ReplyReceived(n: Node, p: Packet, sender: Addr, now: int, c: Config)
    requires p.msg.Rrep?
    ensures RecvAodv(n, p, sender, now, c)
         == RecvReply(n.(table := UpdateRouteToNeighbor(n.table, sender, now, c)), p.msg.rrep, p.ttl, sender, now, c)
  {
    hide RecvReply, UpdateRouteToNeighbor;
  }

  lemma OwnSearchEffect(n: Node, ev: Event, now: int, c: Config, d: Addr, base: U32)
    requires WellFormed(n.table) && c.Sane() && (ev.Output? || ev.RreqTimer? || ev.Deferred?)
    ensures var r := Handle(n, ev, now, c);
            WellFormed(r.table) && r.me == n.me && OwnSent(n, r, d, base)
  {
    hide SendRequest, GiveUp, SendPacketFromQueue, PacketQueues.Enqueue;
    PurgeView(n.table, now, c.deletePeriod);
    var t := Purge(n.table, now, c.deletePeriod);
    match ev
    case Output(e) =>
      SendRequestView(n.(table := t, queue := PacketQueues.Enqueue(n.queue, e, now, c.maxQueueLen, c.maxQueueTime)),
                      e.dst, now, c);
    case RreqTimer(dst) =>
      var n' := n.(table := t, timers := n.timers - {dst});
      SendRequestView(n', dst, now, c);
      GiveUpView(n', dst, now, c);
      SendPacketsCore(n', dst, Lookup(t, dst).GetOr(DefaultEntry(now)), now);
    case Deferred(dst) => SendRequestView(n.(pending := n.pending - multiset{dst}), dst, now, c);
  }

  lemma OwnEffect(n: Node, ev: Event, now: int, c: Config, d: Addr, base: U32)
    requires WellFormed(n.table) && c.Sane() && now >= 0 && d != UNSET && n.me == d
    requires ev.Receive? ==> Proper(ev.packet.msg) && Current(ev.packet, d, base)
                             && (ev.packet.msg.Rreq? && ev.packet.msg.rreq.origin == d
                                 ==> Repeated(n, ev.packet.msg.rreq, now))
    requires InWindow(base, n.seqNo) && InWindow(base, Handle(n, ev, now, c).seqNo)
    ensures var r := Handle(n, ev, now, c);
            WellFormed(r.table) && r.me == n.me && OwnSent(n, r, d, base)
  {
    hide SendRequest, RecvAodv, NbPurge, NbUpdate, UpdateRouteLifeTime, DeferredRouteOutput, RouteRequestTimerExpire;
    match ev
    case Receive(p, sender) => OwnReceiveEffect(n, p, sender, now, c, d, base);
    case Output(e) => OwnSearchEffect(n, ev, now, c, d, base);
    case RreqTimer(dst) => OwnSearchEffect(n, ev, now, c, d, base);
    case Deferred(dst) => OwnSearchEffect(n, ev, now, c, d, base);
    case Unrecognized(sender) => UpdateRouteToNeighborView(n.table, sender, now, c);
    case RateTimer =>
    case NeighborTimer =>
      NbPurgeView(n, now, c);
      ErrorsCurrent(n, NbPurge(n, now, c), d, base);
    case LinkFailure(addrs) =>
      NbPurgeView(n.(nb := CloseAll(n.nb, addrs)), now, c);
      ErrorsCurrent(n, NbPurge(n.(nb := CloseAll(n.nb, addrs)), now, c), d, base);
    case UseRoute(addr) => UpdateRouteLifeTimeView(n.table, addr, now, c);
    case UseNeighbor(addr) =>
      NbUpdateView(n, addr, c.activeRouteTimeout, now, c);
      ErrorsCurrent(n, NbUpdate(n, addr, c.activeRouteTimeout, now, c), d, base);
    case Hello =>
  }

  // ------------------------------------------------------------------------------- the network

  /** The next hop is `d`, or ranks strictly better. */
  ghost predicate Pointing(s: Net, x: Addr, d: Addr, base: U32)
    requires x in s
  {
    var t := s[x].table;
    Ranked(t, d) && t[d].nextHop != d ==>
      var y := t[d].nextHop;
      y in s && Ranked(s[y].table, d) && Better(RankAt(s[y].table, d, base), RankAt(t, d, base))
  }

  /** The sender of a RREP about `d` is `d`, or ranks at least as good as the RREP. */
  ghost predicate Carried(s: Net, y: Addr, p: Packet, d: Addr, base: U32)
    requires y in s
  {
    p.msg.Rrep? && p.msg.rrep.dst == d ==>
      && InWindow(base, p.msg.rrep.dstSeqNo)
      && (y == d || (Ranked(s[y].table, d) && AtLeast(RankAt(s[y].table, d, base), OfferRank(p.msg.rrep, base))))
  }

  ghost predicate LoopInv(s: Net, d: Addr, base: U32) {
    && Sound(s) && d in s && InWindow(base, s[d].seqNo)
    && (forall x :: x in s && x != d ==> GoodSlot(s[x].table, d, base) && Pointing(s, x, d, base))
    && (forall y, p :: y in s && p in s[y].sent ==> Carried(s, y, p, d, base))
  }

  /** A step that leaves the freshness of routes to `d` alone. At `d` itself the only demand is that it
      does not take a request of its own that it has forgotten. */
  ghost predicate Harmless(s: Net, a: Action, d: Addr)
    requires a.node in s
  {
    if a.node == d
    then a.event.Receive? && a.event.packet.msg.Rreq? && a.event.packet.msg.rreq.origin == d ==>
           Repeated(s[d], a.event.packet.msg.rreq, a.now)
    else Undisturbed(s[a.node], a.event, a.now, d)
  }

  /** Every node's rank for `d` only improves, and what it says about `d` it can vouch for. */
  lemma StepEffect(s: Net, a: Action, c: Config, d: Addr, base: U32)
    requires LoopInv(s, d, base) && c.Sane() && CanStep(s, a) && Harmless(s, a, d)
    requires a.node == d ==> InWindow(base, Handle(s[d], a.event, a.now, c).seqNo)
    ensures var n, r := s[a.node], Handle(s[a.node], a.event, a.now, c);
            && WellFormed(r.table) && r.me == n.me
            && (a.node != d ==> SlotEffect(n.table, r.table, a.event, d, base) && SentEffect(n, r, d, base))
            && (a.node == d ==> OwnSent(n, r, d, base))
  {
    hide Handle, Undisturbed, RecvAodv;
    var n := s[a.node];
    if a.event.Receive? {
      assert Carried(s, a.event.sender, a.event.packet, d, base);
    }
    if a.node == d {
      OwnEffect(n, a.event, a.now, c, d, base);
    } else if a.event.Receive? {
      ReceiveEffect(n, a.event.packet, a.event.sender, a.now, c, d, base);
      HandleReceive(n, a.event, a.now, c);
    } else {
      LocalEffect(n, a.event, a.now, c, d, base);
    }
  }

  /** One harmless step keeps the invariant; `r` is the node after the step. */
  lemma InvKept(s: Net, x: Addr, r: Node, ev: Event, d: Addr, base: U32)
    requires LoopInv(s, d, base) && x in s && WellFormed(r.table) && r.me == x
    requires ev.Receive? ==> ev.sender in s && ev.packet in s[ev.sender].sent
    requires x == d ==> OwnSent(s[x], r, d, base) && InWindow(base, r.seqNo)
    requires x != d ==> SlotEffect(s[x].table, r.table, ev, d, base) && SentEffect(s[x], r, d, base)
    ensures LoopInv(s[x := r], d, base)
  {
    var s' := s[x := r];
    forall z | z in s && z != d && Ranked(s[z].table, d)
      ensures Ranked(s'[z].table, d) && AtLeast(RankAt(s'[z].table, d, base), RankAt(s[z].table, d, base))
    {
    }
    forall z | z in s' && z != d
      ensures GoodSlot(s'[z].table, d, base) && Pointing(s', z, d, base)
    {
      assert Pointing(s, z, d, base);
      if z == x && ev.Receive? {
        assert Carried(s, ev.sender, ev.packet, d, base);
      }
    }
    forall y, p | y in s' && p in s'[y].sent
      ensures Carried(s', y, p, d, base)
    {
      if y != x || p in s[x].sent {
        assert Carried(s, y, p, d, base);
      }
    }
  }

  ghost function Ranks(s: Net, d: Addr, base: U32): map<Addr, Rank> {
    map x | x in s && x != d && Ranked(s[x].table, d) :: RankAt(s[x].table, d, base)
  }

  /** Under the invariant, following next hops from any node with a route reaches `d` within as many hops
      as there are routes, and never comes back. */
  lemma InvMeansLoopFree(s: Net, d: Addr, base: U32)
    requires LoopInv(s, d, base)
    ensures forall x, k: nat :: x in NextHops(s, d) && k >= |NextHops(s, d)| ==> Follow(NextHops(s, d), x, k) == d
    ensures forall x, k: nat :: x in NextHops(s, d) && k > 0 ==> Follow(NextHops(s, d), x, k) != x
  {
    var next, rank := NextHops(s, d), Ranks(s, d, base);
    forall x | x in next && next[x] != d
      ensures next[x] in next && x in rank && next[x] in rank && Better(rank[next[x]], rank[x])
    {
      assert GoodSlot(s[x].table, d, base) && Pointing(s, x, d, base);
      assert GoodSlot(s[next[x]].table, d, base);
    }
    AcyclicToRoot(next, rank, d);
  }

  /** A run of harmless steps. */
  ghost predicate HarmlessRun(s: Net, acts: seq<Action>, c: Config, d: Addr)
    decreases |acts|
  {
    acts == [] || (CanStep(s, acts[0]) && Harmless(s, acts[0], d)
                   && HarmlessRun(StepTo(s, acts[0], c), acts[1..], c, d))
  }

  // ------------------------------------------------------------------------------- the destination's number

  /** No event takes the node's own sequence number further than one step. */
  ghost predicate OneAhead(n: Node, r: Node) {
    r.seqNo == n.seqNo || r.seqNo == Next(n.seqNo)
  }

  lemma ReceiveNumber(n: Node, p: Packet, sender: Addr, now: int, c: Config)
    requires WellFormed(n.table) && c.Sane() && now >= 0 && Proper(p.msg)
    ensures OneAhead(n, RecvAodv(n, p, sender, now, c))
  {
    hide RecvRequest, RecvError, RecvReplyAck, ProcessHello, UpdateRouteToNeighbor, Next;
    UpdateRouteToNeighborView(n.table, sender, now, c);
    var n1 := n.(table := UpdateRouteToNeighbor(n.table, sender, now, c));
    match p.msg
    case Rreq(m) => RequestNumber(n1, m, p.ttl, sender, now, c);
    case Rrep(m) =>
      if m.dst == m.origin {
        ProcessHelloView(n1, m, now, c);
      } else {
        RecvReplyView(n1, m, p.ttl, sender, now, c);
      }
    case Rerr(m) => RecvErrorView(n1, m, sender, now, c);
    case RrepAck => RecvReplyAckView(n1, sender, now, c);
  }

  lemma RequestNumber(n: Node, m: RreqHeader, ttl: U8, src: Addr, now: int, c: Config)
    requires WellFormed(n.table) && c.Sane() && now >= 0 && m.origin != UNSET && m.dst != UNSET
    ensures OneAhead(n, RecvRequest(n, m, ttl, src, now, c))
  {
    hide AcceptRequest, AnswerOrRelay, Next;
    var t := Purge(n.table, now, c.deletePeriod);
    if !((src in t && t[src].blacklisted) || Repeated(n, m, now)) {
      AcceptRequestView(n, m, src, now, c);
      var a := AcceptRequest(n, m, src, now, c);
      assert m.origin in RequestedView(ViewOf(n.table, now), m, src, c);
      AnswerOrRelayView(a, m.(hopCount := Bump8(m.hopCount)), ttl, src, now, c);
    }
  }

  lemma SearchNumber(n: Node, ev: Event, now: int, c: Config)
    requires WellFormed(n.table) && c.Sane() && (ev.Output? || ev.RreqTimer? || ev.Deferred?)
    ensures OneAhead(n, Handle(n, ev, now, c))
  {
    hide SendRequest, GiveUp, SendPacketFromQueue, PacketQueues.Enqueue, Next;
    PurgeView(n.table, now, c.deletePeriod);
    var t := Purge(n.table, now, c.deletePeriod);
    match ev
    case Output(e) =>
      SendRequestView(n.(table := t, queue := PacketQueues.Enqueue(n.queue, e, now, c.maxQueueLen, c.maxQueueTime)),
                      e.dst, now, c);
    case RreqTimer(dst) =>
      var n' := n.(table := t, timers := n.timers - {dst});
      SendRequestView(n', dst, now, c);
      GiveUpView(n', dst, now, c);
      SendPacketsCore(n', dst, Lookup(t, dst).GetOr(DefaultEntry(now)), now);
    case Deferred(dst) => SendRequestView(n.(pending := n.pending - multiset{dst}), dst, now, c);
  }

  lemma NumberStep(n: Node, ev: Event, now: int, c: Config)
    requires WellFormed(n.table) && c.Sane() && now >= 0 && (ev.Receive? ==> Proper(ev.packet.msg))
    ensures OneAhead(n, Handle(n, ev, now, c))
  {
    hide SendRequest, RecvAodv, NbPurge, NbUpdate, DeferredRouteOutput, RouteRequestTimerExpire, Next;
    match ev
    case Receive(p, sender) => ReceiveNumber(n, p, sender, now, c);
    case Output(_) => SearchNumber(n, ev, now, c);
    case RreqTimer(_) => SearchNumber(n, ev, now, c);
    case Deferred(_) => SearchNumber(n, ev, now, c);
    case NeighborTimer => NbPurgeView(n, now, c);
    case LinkFailure(addrs) => NbPurgeView(n.(nb := CloseAll(n.nb, addrs)), now, c);
    case UseNeighbor(addr) => NbUpdateView(n, addr, c.activeRouteTimeout, now, c);
    case _ =>
  }

  /** `k` increments lead from `base` to the number of `d`, and so at most `k + 1` after the step. */
  lemma NumberAfter(s: Net, a: Action, c: Config, d: Addr, base: U32, k: nat) returns (k': nat)
    requires Sound(s) && c.Sane() && CanStep(s, a) && d in s && s[d].seqNo == Advance(base, k) && k + 1 < HALF
    ensures k <= k' <= k + 1 && StepTo(s, a, c)[d].seqNo == Advance(base, k')
            && InWindow(base, StepTo(s, a, c)[d].seqNo)
  {
    hide Handle, Next;
    if a.node == d {
      NumberStep(s[d], a.event, a.now, c);
    }
    k' := if StepTo(s, a, c)[d].seqNo == s[d].seqNo then k else k + 1;
    CounterAge(base, k');
  }

  lemma {:induction false} InvAlways(s: Net, acts: seq<Action>, c: Config, d: Addr, base: U32, k: nat)
    requires LoopInv(s, d, base) && c.Sane() && HarmlessRun(s, acts, c, d)
    requires s[d].seqNo == Advance(base, k) && k + |acts| < HALF
    ensures LoopInv(Final(s, acts, c), d, base)
    decreases |acts|
  {
    hide Handle, Undisturbed, Advance;
    if acts != [] {
      var a := acts[0];
      var k' := NumberAfter(s, a, c, d, base, k);
      StepEffect(s, a, c, d, base);
      InvKept(s, a.node, Handle(s[a.node], a.event, a.now, c), a.event, d, base);
      InvAlways(StepTo(s, a, c), acts[1..], c, d, base, k');
    }
  }

  /** Loop freedom: from a network without routes, after any number below 2^31 of harmless steps in any
      order, with messages lost, repeated, delayed and reordered at will, following next hops towards `d`
      from any node that has a route never comes back and ends at `d`. */
  lemma LoopFreeAlways(s: Net, acts: seq<Action>, c: Config, d: Addr)
    requires Initial(s) && d in s && c.Sane() && HarmlessRun(s, acts, c, d) && |acts| < HALF
    ensures var next := NextHops(Final(s, acts, c), d);
            && (forall x, k: nat :: x in next && k >= |next| ==> Follow(next, x, k) == d)
            && (forall x, k: nat :: x in next && k > 0 ==> Follow(next, x, k) != x)
  {
    hide HarmlessRun, Final;
    var base := s[d].seqNo;
    StartsInWindow(base);
    InvAlways(s, acts, c, d, base, 0);
    InvMeansLoopFree(Final(s, acts, c), d, base);
  }

  lemma StartsInWindow(base: U32)
    ensures InWindow(base, base) && Advance(base, 0) == base
  {
  }
}
