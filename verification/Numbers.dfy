/** Where sequence numbers come from. In every run, whatever is lost, forgotten or searched for again, a node
    knows a destination only by numbers the destination has itself issued: so nobody ever asks for a number
    that it has not reached yet. */
module IssuedNumbers {
  import opened Basics
  import opened SequenceNumbers
  import opened Headers
  import opened RouteEntries
  import opened Nodes
  import opened RouteViews
  import opened NodeViews
  import opened Networks
  import LoopFreedom
  import Q = PacketQueues
  import C = IdCaches

  /** One of the first `k + 1` numbers of a counter that started at `base`. */
  predicate Issued(v: U32, base: U32, k: nat) {
    Age(base, v) <= k
  }

  /** The table knows `d` by an issued number or by none. */
  ghost predicate KnowsIssued(t: Table, d: Addr, base: U32, k: nat) {
    d in t && t[d].validSeqNo ==> Issued(t[d].seqNo, base, k)
  }

  /** The numbers of `d` in a RREP about it, in a RREQ of it, and in a RREQ for it are issued. */
  predicate CarriesIssued(p: Packet, d: Addr, base: U32, k: nat) {
    match p.msg
    case Rreq(m) =>
      && (m.origin == d ==> Issued(m.originSeqNo, base, k))
      && (m.dst == d && !m.UnknownSeqno() ==> Issued(m.dstSeqNo, base, k))
    case Rrep(m) => m.dst == d ==> Issued(m.dstSeqNo, base, k)
    case _ => true
  }

  ghost predicate SendsIssued(n: Node, r: Node, d: Addr, base: U32, k: nat) {
    forall p :: p in r.sent ==> p in n.sent || CarriesIssued(p, d, base, k)
  }

  /** What an event leaves in order. */
  ghost predicate StaysIssued(n: Node, r: Node, d: Addr, base: U32, k: nat) {
    WellFormed(r.table) && r.me == n.me && KnowsIssued(r.table, d, base, k) && SendsIssued(n, r, d, base, k)
  }

  // ------------------------------------------------------------------------------- tables and logs

  ghost predicate SeesIssued(v: View, d: Addr, base: U32, k: nat) {
    d in v && v[d].validSeqNo ==> Issued(v[d].seqNo, base, k)
  }

  lemma ToView(t: Table, now: int, d: Addr, base: U32, k: nat)
    requires KnowsIssued(t, d, base, k)
    ensures SeesIssued(ViewOf(t, now), d, base, k)
  {
  }

  lemma FromView(r: Table, w: View, now: int, d: Addr, base: U32, k: nat)
    requires d != UNSET && (forall j :: j in r ==> !Gone(r[j], now)) && Fades(w, ViewOf(r, now))
    requires SeesIssued(w, d, base, k)
    ensures KnowsIssued(r, d, base, k)
  {
    assert d in r ==> d in ViewOf(r, now);
  }

  lemma KeptIssued(t: Table, r: Table, now: int, d: Addr, base: U32, k: nat)
    requires d != UNSET && Kept(t, r, now) && Fades(ViewOf(t, now), ViewOf(r, now)) && KnowsIssued(t, d, base, k)
    ensures KnowsIssued(r, d, base, k)
  {
    if r != t {
      ToView(t, now, d, base, k);
      FromView(r, ViewOf(t, now), now, d, base, k);
    }
  }

  lemma ErrorsIssued(n: Node, r: Node, d: Addr, base: U32, k: nat)
    requires OnlyErrors(n.sent, r.sent)
    ensures SendsIssued(n, r, d, base, k)
  {
    assert forall i :: 0 <= i < |n.sent| ==> r.sent[i] in n.sent;
  }

  // ------------------------------------------------------------------------------- requests

  /** The route of `m.origin` after a RREQ carries a number it brought or one that was there. */
  lemma RequestedIssued(v: View, m: RreqHeader, src: Addr, c: Config, d: Addr, base: U32, k: nat)
    requires SeesIssued(v, d, base, k) && (m.origin == d ==> Issued(m.originSeqNo, base, k)) && d != UNSET
    ensures var w := RequestedView(v, m, src, c);
            && SeesIssued(w, d, base, k)
            && (m.origin == d ==> d in w && Issued(w[d].seqNo, base, k))
  {
    hide SeqDiff;
  }

  /** The RREQ as it is passed on asks for the number it asked for, or for one the table knows. */
  lemma RelayedIssued(n: Node, m: RreqHeader, ttl: U8, src: Addr, now: int, c: Config, d: Addr, base: U32, k: nat)
    requires WellFormed(n.table) && c.Sane() && KnowsIssued(n.table, d, base, k)
    requires m.origin == d ==> Issued(m.originSeqNo, base, k)
    requires m.dst == d && !m.UnknownSeqno() ==> Issued(m.dstSeqNo, base, k)
    ensures var r := AnswerOrRelay(n, m, ttl, src, now, c);
            forall i :: |n.sent| <= i < |r.sent| && r.sent[i].msg.Rreq? ==> CarriesIssued(r.sent[i], d, base, k)
  {
    hide SeqDiff, Bit, WithBit, NewRrep, Update;
  }

  lemma RequestIssued(n: Node, p: Packet, src: Addr, now: int, c: Config, d: Addr, base: U32, k: nat)
    requires WellFormed(n.table) && c.Sane() && now >= 0 && d != UNSET && KnowsIssued(n.table, d, base, k)
    requires p.msg.Rreq? && Proper(p.msg) && CarriesIssued(p, d, base, k)
    requires n.me == d ==> Issued(RecvAodv(n, p, src, now, c).seqNo, base, k)
    ensures StaysIssued(n, RecvAodv(n, p, src, now, c), d, base, k)
  {
    hide AcceptRequest, AnswerOrRelay, UpdateRouteToNeighbor, C.Duplicate, C.Remember, Issued, Fades, RequestedView;
    var m := p.msg.rreq;
    UpdateRouteToNeighborView(n.table, src, now, c);
    var n1 := n.(table := UpdateRouteToNeighbor(n.table, src, now, c));
    PurgeView(n1.table, now, c.deletePeriod);
    RefreshedIssued(n, src, now, c, d, base, k);
    if !((src in n1.table && n1.table[src].blacklisted) || C.Duplicate(n.idCache, m.origin, m.requestID, now)) {
      TakenIssued(n1, m, p.ttl, src, now, c, d, base, k);
    }
  }

  lemma RefreshedIssued(n: Node, src: Addr, now: int, c: Config, d: Addr, base: U32, k: nat)
    requires WellFormed(n.table) && c.Sane() && d != UNSET && KnowsIssued(n.table, d, base, k)
    ensures var t := UpdateRouteToNeighbor(n.table, src, now, c); Settled(t, now) && KnowsIssued(t, d, base, k)
  {
    hide UpdateRouteToNeighbor, Issued;
    UpdateRouteToNeighborView(n.table, src, now, c);
    ToView(n.table, now, d, base, k);
    var t := UpdateRouteToNeighbor(n.table, src, now, c);
    FromView(t, ViewOf(t, now), now, d, base, k);
  }

  lemma TakenIssued(n: Node, m: RreqHeader, ttl: U8, src: Addr, now: int, c: Config, d: Addr, base: U32, k: nat)
    requires WellFormed(n.table) && c.Sane() && now >= 0 && d != UNSET && KnowsIssued(n.table, d, base, k)
    requires Proper(Rreq(m)) && (m.origin == d ==> Issued(m.originSeqNo, base, k))
    requires m.dst == d && !m.UnknownSeqno() ==> Issued(m.dstSeqNo, base, k)
    requires var r := AnswerOrRelay(AcceptRequest(n, m, src, now, c), m.(hopCount := Bump8(m.hopCount)), ttl, src,
                                    now, c);
             n.me == d ==> Issued(r.seqNo, base, k)
    ensures var r := AnswerOrRelay(AcceptRequest(n, m, src, now, c), m.(hopCount := Bump8(m.hopCount)), ttl, src,
                                   now, c);
            StaysIssued(n, r, d, base, k)
  {
    hide AcceptRequest, AnswerOrRelay, C.Remember, Issued, RequestedView, SeesIssued, Answered;
    var v, m1 := ViewOf(n.table, now), m.(hopCount := Bump8(m.hopCount));
    AcceptRequestView(n, m, src, now, c);
    var a := AcceptRequest(n, m, src, now, c);
    var w := RequestedView(v, m, src, c);
    OriginSeen(v, m, src, c);
    ToView(n.table, now, d, base, k);
    RequestedIssued(v, m, src, c, d, base, k);
    FromView(a.table, w, now, d, base, k);
    AnswerOrRelayView(a, m1, ttl, src, now, c);
    var r := AnswerOrRelay(a, m1, ttl, src, now, c);
    ToView(a.table, now, d, base, k);
    FromView(r.table, ViewOf(r.table, now), now, d, base, k);
    RelayedIssued(a, m1, ttl, src, now, c, d, base, k);
    AnsweredIssued(n, a, r, ViewOf(a.table, now), m1, ttl, c, d, base, k);
  }

  lemma OriginSeen(v: View, m: RreqHeader, src: Addr, c: Config)
    requires m.origin != UNSET
    ensures m.origin in RequestedView(v, m, src, c)
  {
  }

  lemma AnsweredIssued(n: Node, a: Node, r: Node, v: View, m: RreqHeader, ttl: U8, c: Config, d: Addr, base: U32,
                       k: nat)
    requires OnlyErrors(n.sent, a.sent) && a.me == n.me && Answered(a, r, v, m, ttl, c)
    requires SeesIssued(v, d, base, k) && (m.origin == d ==> d in v && Issued(v[d].seqNo, base, k))
    requires n.me == d ==> Issued(r.seqNo, base, k)
    requires forall i :: |a.sent| <= i < |r.sent| && r.sent[i].msg.Rreq? ==> CarriesIssued(r.sent[i], d, base, k)
    ensures SendsIssued(n, r, d, base, k)
  {
    hide Issued, Answered;
    AnswerGrows(a, r, v, m, ttl, c);
    forall p | p in r.sent && p !in n.sent
      ensures CarriesIssued(p, d, base, k)
    {
      if p in a.sent {
        NewPacket(n.sent, a.sent, p);
      } else {
        NewPacket(a.sent, r.sent, p);
        if p.msg.Rrep? {
          AnsweredRreps(a, r, v, m, ttl, c, p);
        }
      }
    }
  }

  lemma AnswerGrows(a: Node, r: Node, v: View, m: RreqHeader, ttl: U8, c: Config)
    requires Answered(a, r, v, m, ttl, c)
    ensures a.sent <= r.sent && forall i :: |a.sent| <= i < |r.sent| ==> r.sent[i].msg.Rreq? || r.sent[i].msg.Rrep?
  {
  }

  // ------------------------------------------------------------------------------- other messages

  lemma ReplyIssued(n: Node, p: Packet, sender: Addr, now: int, c: Config, d: Addr, base: U32, k: nat)
    requires WellFormed(n.table) && c.Sane() && now >= 0 && d != UNSET && KnowsIssued(n.table, d, base, k)
    requires p.msg.Rrep? && Proper(p.msg) && CarriesIssued(p, d, base, k)
    ensures StaysIssued(n, RecvAodv(n, p, sender, now, c), d, base, k)
  {
    hide RecvReply, ProcessHello, UpdateRouteToNeighbor, Issued;
    var m := p.msg.rrep;
    RefreshedIssued(n, sender, now, c, d, base, k);
    var n1 := n.(table := UpdateRouteToNeighbor(n.table, sender, now, c));
    ToView(n1.table, now, d, base, k);
    if m.dst == m.origin {
      HelloReply(n1, m, p.ttl, sender, now, c);
      ProcessHelloView(n1, m, now, c);
      var r := ProcessHello(n1, m, now, c);
      FromView(r.table, HelloView(ViewOf(n1.table, now), m), now, d, base, k);
      ErrorsIssued(n1, r, d, base, k);
    } else {
      RecvReplyView(n1, m, p.ttl, sender, now, c);
      var r := RecvReply(n1, m, p.ttl, sender, now, c);
      FromView(r.table, ViewOf(r.table, now), now, d, base, k);
    }
  }

  lemma ErrorIssued(n: Node, p: Packet, sender: Addr, now: int, c: Config, d: Addr, base: U32, k: nat)
    requires WellFormed(n.table) && c.Sane() && d != UNSET && KnowsIssued(n.table, d, base, k)
    requires p.msg.Rerr? || p.msg.RrepAck?
    ensures StaysIssued(n, RecvAodv(n, p, sender, now, c), d, base, k)
  {
    hide RecvError, RecvReplyAck, UpdateRouteToNeighbor, Issued;
    RefreshedIssued(n, sender, now, c, d, base, k);
    var n1 := n.(table := UpdateRouteToNeighbor(n.table, sender, now, c));
    ToView(n1.table, now, d, base, k);
    if p.msg.Rerr? {
      RecvErrorView(n1, p.msg.rerr, sender, now, c);
      var r := RecvError(n1, p.msg.rerr, sender, now, c);
      FromView(r.table, ViewOf(n1.table, now), now, d, base, k);
      ErrorsIssued(n1, r, d, base, k);
    } else {
      RecvReplyAckView(n1, sender, now, c);
      var r := RecvReplyAck(n1, sender, now, c);
      FromView(r.table, ViewOf(r.table, now), now, d, base, k);
    }
  }

  // ------------------------------------------------------------------------------- searches

  /** A RREQ asks for a number only if the table knows one. */
  lemma HeaderIssued(n: Node, t: Table, dst: Addr, c: Config, d: Addr, base: U32, k: nat)
    requires KnowsIssued(t, d, base, k) && (n.me == d ==> Issued(Next(n.seqNo), base, k))
    ensures CarriesIssued(Packet(Rreq(RequestHeader(n, t, dst, c)), 0, Broadcast), d, base, k)
  {
    hide Issued, WithBit, Bit;
    var known := dst in t && t[dst].validSeqNo;
    FlagBits(0, UNKNOWN_SEQNO, !known, UNKNOWN_SEQNO);
    var f := WithBit(0, UNKNOWN_SEQNO, !known);
    FlagBits(f, GRATUITOUS, c.gratuitousReply, UNKNOWN_SEQNO);
    FlagBits(WithBit(f, GRATUITOUS, c.gratuitousReply), DESTINATION_ONLY, c.destinationOnly, UNKNOWN_SEQNO);
  }

  lemma SearchIssued(n: Node, dst: Addr, now: int, c: Config, d: Addr, base: U32, k: nat)
    requires WellFormed(n.table) && c.Sane() && d != UNSET && KnowsIssued(n.table, d, base, k)
    requires n.me == d ==> Issued(SendRequest(n, dst, now, c).seqNo, base, k)
    ensures StaysIssued(n, SendRequest(n, dst, now, c), d, base, k)
  {
    hide Issued, SearchTable, RequestHeader, NextTtl, C.Remember, SearchedView, Next, CarriesIssued;
    SendRequestView(n, dst, now, c);
    var r := SendRequest(n, dst, now, c);
    if n.rreqCount != c.rreqRateLimit {
      var hops: U16 :| ViewOf(r.table, now) == SearchedView(ViewOf(n.table, now), dst, c, hops);
      ToView(n.table, now, d, base, k);
      SearchedIssued(ViewOf(n.table, now), dst, c, hops, d, base, k);
      FromView(r.table, ViewOf(r.table, now), now, d, base, k);
      var t := Purge(n.table, now, c.deletePeriod);
      PurgeView(n.table, now, c.deletePeriod);
      FromView(t, ViewOf(t, now), now, d, base, k);
      HeaderIssued(n, t, dst, c, d, base, k);
      SameHeader(n, dst, now, c, r, d, base, k);
    }
  }

  lemma SearchedIssued(v: View, dst: Addr, c: Config, hops: U16, d: Addr, base: U32, k: nat)
    requires SeesIssued(v, d, base, k)
    ensures SeesIssued(SearchedView(v, dst, c, hops), d, base, k)
  {
  }

  lemma SameHeader(n: Node, dst: Addr, now: int, c: Config, r: Node, d: Addr, base: U32, k: nat)
    requires n.rreqCount != c.rreqRateLimit && r == SendRequest(n, dst, now, c)
    requires CarriesIssued(Packet(Rreq(RequestHeader(n, Purge(n.table, now, c.deletePeriod), dst, c)), 0, Broadcast),
                           d, base, k)
    ensures SendsIssued(n, r, d, base, k)
  {
    hide Issued, SearchTable, RequestHeader, NextTtl, C.Remember;
  }

  lemma SearchEventIssued(n: Node, ev: Event, now: int, c: Config, d: Addr, base: U32, k: nat)
    requires WellFormed(n.table) && c.Sane() && d != UNSET && KnowsIssued(n.table, d, base, k)
    requires ev.Output? || ev.RreqTimer? || ev.Deferred?
    requires n.me == d ==> Issued(Handle(n, ev, now, c).seqNo, base, k)
    ensures StaysIssued(n, Handle(n, ev, now, c), d, base, k)
  {
    hide SendRequest, GiveUp, SendPacketFromQueue, Q.Enqueue, Q.Accepts, Issued, CarriesIssued;
    var t := Purge(n.table, now, c.deletePeriod);
    PurgeView(n.table, now, c.deletePeriod);
    ToView(n.table, now, d, base, k);
    FromView(t, ViewOf(t, now), now, d, base, k);
    var r := Handle(n, ev, now, c);
    match ev
    case Output(e) =>
      var m := n.(table := t, queue := Q.Enqueue(n.queue, e, now, c.maxQueueLen, c.maxQueueTime));
      if r == SendRequest(m, e.dst, now, c) {
        SearchIssued(m, e.dst, now, c, d, base, k);
      }
    case RreqTimer(dst) =>
      var m := n.(table := t, timers := n.timers - {dst});
      var toDst := Lookup(t, dst).GetOr(DefaultEntry(now));
      SendPacketsCore(m, dst, toDst, now);
      GiveUpView(m, dst, now, c);
      GivenUpIssued(m, dst, now, c, d, base, k);
      if r == SendRequest(m, dst, now, c) {
        SearchIssued(m, dst, now, c, d, base, k);
      }
    case Deferred(dst) => SearchIssued(n.(pending := n.pending - multiset{dst}), dst, now, c, d, base, k);
  }

  lemma GivenUpIssued(n: Node, dst: Addr, now: int, c: Config, d: Addr, base: U32, k: nat)
    requires WellFormed(n.table) && c.Sane() && d != UNSET && KnowsIssued(n.table, d, base, k)
    ensures KnowsIssued(GiveUp(n, dst, now, c).table, d, base, k)
  {
    hide Issued, Q.DropPacketWithDst;
  }

  // ------------------------------------------------------------------------------- every event

  lemma LocalIssued(n: Node, ev: Event, now: int, c: Config, d: Addr, base: U32, k: nat)
    requires WellFormed(n.table) && c.Sane() && d != UNSET && KnowsIssued(n.table, d, base, k) && !ev.Receive?
    requires n.me == d ==> Issued(n.seqNo, base, k) && Issued(Handle(n, ev, now, c).seqNo, base, k)
    ensures StaysIssued(n, Handle(n, ev, now, c), d, base, k)
  {
    hide DeferredRouteOutput, RouteRequestTimerExpire, SendRequest, NbPurge, NbUpdate, UpdateRouteLifeTime, RecvAodv,
      UpdateRouteToNeighbor, Issued;
    match ev
    case Output(_) => SearchEventIssued(n, ev, now, c, d, base, k);
    case RreqTimer(_) => SearchEventIssued(n, ev, now, c, d, base, k);
    case Deferred(_) => SearchEventIssued(n, ev, now, c, d, base, k);
    case Unrecognized(sender) => RefreshedIssued(n, sender, now, c, d, base, k);
    case NeighborTimer =>
      NbPurgeView(n, now, c);
      LinksIssued(n, NbPurge(n, now, c), now, d, base, k);
    case LinkFailure(addrs) =>
      var m := n.(nb := CloseAll(n.nb, addrs));
      NbPurgeView(m, now, c);
      LinksIssued(n, NbPurge(m, now, c), now, d, base, k);
    case UseRoute(addr) =>
      UpdateRouteLifeTimeView(n.table, addr, now, c);
      ToView(n.table, now, d, base, k);
      var t := UpdateRouteLifeTime(n.table, addr, c.activeRouteTimeout, now, c);
      FromView(t, ViewOf(t, now), now, d, base, k);
    case UseNeighbor(addr) =>
      NbUpdateView(n, addr, c.activeRouteTimeout, now, c);
      LinksIssued(n, NbUpdate(n, addr, c.activeRouteTimeout, now, c), now, d, base, k);
    case _ =>
  }

  lemma LinksIssued(n: Node, r: Node, now: int, d: Addr, base: U32, k: nat)
    requires d != UNSET && KnowsIssued(n.table, d, base, k) && WellFormed(r.table) && r.me == n.me
    requires Kept(n.table, r.table, now) && Fades(ViewOf(n.table, now), ViewOf(r.table, now))
             && OnlyErrors(n.sent, r.sent)
    ensures StaysIssued(n, r, d, base, k)
  {
    KeptIssued(n.table, r.table, now, d, base, k);
    ErrorsIssued(n, r, d, base, k);
  }

  lemma EventIssued(n: Node, ev: Event, now: int, c: Config, d: Addr, base: U32, k: nat)
    requires WellFormed(n.table) && c.Sane() && now >= 0 && d != UNSET && KnowsIssued(n.table, d, base, k)
    requires ev.Receive? ==> Proper(ev.packet.msg) && CarriesIssued(ev.packet, d, base, k)
    requires n.me == d ==> Issued(n.seqNo, base, k) && Issued(Handle(n, ev, now, c).seqNo, base, k)
    ensures StaysIssued(n, Handle(n, ev, now, c), d, base, k)
  {
    hide Handle, RecvAodv, Issued, CarriesIssued, StaysIssued, KnowsIssued;
    if ev.Receive? {
      HandleReceive(n, ev, now, c);
      match ev.packet.msg
      case Rreq(_) => RequestIssued(n, ev.packet, ev.sender, now, c, d, base, k);
      case Rrep(_) => ReplyIssued(n, ev.packet, ev.sender, now, c, d, base, k);
      case _ => ErrorIssued(n, ev.packet, ev.sender, now, c, d, base, k);
    } else {
      LocalIssued(n, ev, now, c, d, base, k);
    }
  }

  // ------------------------------------------------------------------------------- every run

  /** `d` has issued `k + 1` numbers, and only those are about. */
  ghost predicate NumbersInv(s: Net, d: Addr, base: U32, k: nat) {
    && Sound(s) && d in s && s[d].seqNo == Advance(base, k)
    && (forall x :: x in s ==> KnowsIssued(s[x].table, d, base, k))
    && (forall y, p :: y in s && p in s[y].sent ==> CarriesIssued(p, d, base, k))
  }

  lemma MoreIssued(t: Table, p: Packet, d: Addr, base: U32, k: nat, k': nat)
    requires k <= k'
    ensures KnowsIssued(t, d, base, k) ==> KnowsIssued(t, d, base, k')
    ensures CarriesIssued(p, d, base, k) ==> CarriesIssued(p, d, base, k')
  {
    hide Age;
  }

  lemma NumbersKept(s: Net, a: Action, c: Config, d: Addr, base: U32, k: nat) returns (k': nat)
    requires NumbersInv(s, d, base, k) && c.Sane() && CanStep(s, a) && k + 1 < HALF
    ensures k <= k' <= k + 1 && NumbersInv(StepTo(s, a, c), d, base, k')
  {
    hide Handle, Advance, KnowsIssued, CarriesIssued, Age;
    k' := LoopFreedom.NumberAfter(s, a, c, d, base, k);
    CounterAge(base, k);
    CounterAge(base, k');
    var n, s' := s[a.node], StepTo(s, a, c);
    MoreIssued(n.table, if a.event.Receive? then a.event.packet else Packet(RrepAck, 0, Broadcast), d, base, k, k');
    EventIssued(n, a.event, a.now, c, d, base, k');
    forall x | x in s'
      ensures KnowsIssued(s'[x].table, d, base, k')
    {
      MoreIssued(s[x].table, Packet(RrepAck, 0, Broadcast), d, base, k, k');
    }
    forall y, p | y in s' && p in s'[y].sent
      ensures CarriesIssued(p, d, base, k')
    {
      MoreIssued(map[], p, d, base, k, k');
    }
  }

  lemma {:induction false} NumbersAlways(s: Net, acts: seq<Action>, c: Config, d: Addr, base: U32, k: nat)
    returns (k': nat)
    requires NumbersInv(s, d, base, k) && c.Sane() && CanRun(s, acts, c) && k + |acts| < HALF
    ensures k' <= k + |acts| && NumbersInv(Final(s, acts, c), d, base, k')
    decreases |acts|
  {
    hide NumbersInv, Handle;
    if acts == [] {
      k' := k;
    } else {
      Present(s, acts[0]);
      var k1 := NumbersKept(s, acts[0], c, d, base, k);
      k' := NumbersAlways(StepTo(s, acts[0], c), acts[1..], c, d, base, k1);
    }
  }

  lemma Present(s: Net, a: Action)
    requires CanStep(s, a)
    ensures a.node in s
  {
  }

  /** In every run of fewer than 2^31 steps, every number of `d` in a table, in a RREP about `d`, in a RREQ of
      `d` and in a RREQ for `d` is one that `d` has issued by then. */
  lemma OnlyIssuedNumbers(s: Net, acts: seq<Action>, c: Config, d: Addr) returns (k: nat)
    requires Initial(s) && d in s && c.Sane() && CanRun(s, acts, c) && |acts| < HALF
    ensures k <= |acts| && NumbersInv(Final(s, acts, c), d, s[d].seqNo, k)
  {
    hide CanRun, Final;
    k := NumbersAlways(s, acts, c, d, s[d].seqNo, 0);
  }

  /** So nobody asks for a number that the destination has not reached: its answer keeps its own number, and is
      never older than asked for. */
  lemma NeverAskedAhead(s: Net, acts: seq<Action>, c: Config, d: Addr, y: Addr, p: Packet, toOrigin: Entry)
    requires Initial(s) && d in s && c.Sane() && CanRun(s, acts, c) && |acts| < HALF
    requires var f := Final(s, acts, c); y in f && p in f[y].sent && p.msg.Rreq? && p.msg.rreq.dst == d
    ensures var f := Final(s, acts, c); var m := p.msg.rreq;
            && d in f && (!m.UnknownSeqno() ==> SeqDiff(m.dstSeqNo, f[d].seqNo) <= 0)
            && var r := SendReply(f[d], m, toOrigin, c);
               r.seqNo == f[d].seqNo && (!m.UnknownSeqno() ==> SeqDiff(r.seqNo, m.dstSeqNo) >= 0)
  {
    hide CanRun, Final, SeqDiff, Age;
    var k := OnlyIssuedNumbers(s, acts, c, d);
    var f, m, base := Final(s, acts, c), p.msg.rreq, s[d].seqNo;
    assert CarriesIssued(p, d, base, k);
    CounterAge(base, k);
    if !m.UnknownSeqno() {
      WindowOrder(base, m.dstSeqNo, f[d].seqNo);
      WindowOrder(base, f[d].seqNo, m.dstSeqNo);
      NextAhead(base, f[d].seqNo);
    }
  }
}
