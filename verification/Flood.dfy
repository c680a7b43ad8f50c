/** What becomes of a RREQ: its hop count and TTL add up to the TTL it started with, and a node that has it in
    its cache does not pass it on again. */
module Floods {
  import opened Basics
  import opened SequenceNumbers
  import opened Headers
  import opened RouteEntries
  import opened Nodes
  import opened RouteViews
  import opened NodeViews
  import opened Networks
  import Q = PacketQueues
  import C = IdCaches

  // ------------------------------------------------------------------------------- one event at one node

  /** The packet is a copy of the RREQ number `id` of `origin`. */
  predicate IsCopy(p: Packet, origin: Addr, id: U32) {
    p.msg.Rreq? && p.msg.rreq.origin == origin && p.msg.rreq.requestID == id
  }

  ghost predicate NoNewRequests(n: Node, r: Node) {
    n.sent <= r.sent && forall i :: |n.sent| <= i < |r.sent| ==> !r.sent[i].msg.Rreq?
  }

  /** Packet number `i` is the only RREQ that the event added to the log. */
  ghost predicate OneNewRequest(n: Node, r: Node, i: int) {
    && n.sent <= r.sent && |n.sent| <= i < |r.sent| && r.sent[i].msg.Rreq?
    && forall j :: |n.sent| <= j < |r.sent| && j != i ==> !r.sent[j].msg.Rreq?
  }

  /** `q` is `p` one hop further; only the destination's sequence number and the flags may differ. */
  ghost predicate RelayOf(q: Packet, p: Packet) {
    && q.msg.Rreq? && p.msg.Rreq? && p.ttl >= 2 && q.ttl == p.ttl - 1
    && q.msg.rreq == p.msg.rreq.(hopCount := Bump8(p.msg.rreq.hopCount), dstSeqNo := q.msg.rreq.dstSeqNo,
                                 flags := q.msg.rreq.flags)
  }

  /** No RREQ goes out and nothing new is remembered. */
  ghost predicate Silent(n: Node, r: Node, now: int) {
    && NoNewRequests(n, r) && r.requestId == n.requestId
    && (r.idCache == n.idCache || r.idCache == C.Purge(n.idCache, now))
  }

  /** The node starts a flood of its own, under a new id that it remembers itself. */
  ghost predicate Launched(n: Node, r: Node, now: int, c: Config) {
    && r.idCache == C.Remember(n.idCache, n.me, r.requestId, now, c.pathDiscoveryTime)
    && exists i :: OneNewRequest(n, r, i) && OwnRequest(n, r, r.sent[i])
  }

  /** The node has not seen the RREQ, and has not blacklisted the node it came from. */
  ghost predicate Unseen(n: Node, p: Packet, src: Addr, now: int, c: Config)
    requires p.msg.Rreq?
  {
    && !C.Duplicate(n.idCache, p.msg.rreq.origin, p.msg.rreq.requestID, now)
    && var t := Purge(UpdateRouteToNeighbor(n.table, src, now, c), now, c.deletePeriod);
       !(src in t && t[src].blacklisted)
  }

  /** The node takes a RREQ it has not seen, remembers it, and passes it on at most once. */
  ghost predicate Took(n: Node, r: Node, ev: Event, now: int, c: Config) {
    && ev.Receive? && ev.packet.msg.Rreq? && r.requestId == n.requestId
    && var m := ev.packet.msg.rreq;
    && Unseen(n, ev.packet, ev.sender, now, c)
    && r.idCache == C.Remember(n.idCache, m.origin, m.requestID, now, c.pathDiscoveryTime)
    && (NoNewRequests(n, r) || exists i :: OneNewRequest(n, r, i) && RelayOf(r.sent[i], ev.packet))
  }

  /** What one event means for the floods. */
  ghost predicate FloodEffect(n: Node, r: Node, ev: Event, now: int, c: Config) {
    if ev.Receive? then
      if ev.packet.msg.Rreq? && Unseen(n, ev.packet, ev.sender, now, c)
      then Took(n, r, ev, now, c)
      else Silent(n, r, now)
    else Silent(n, r, now) || Launched(n, r, now, c)
  }

  lemma RequestFlood(n: Node, p: Packet, src: Addr, now: int, c: Config)
    requires WellFormed(n.table) && c.Sane() && now >= 0 && p.msg.Rreq? && Proper(p.msg)
    ensures var r := RecvAodv(n, p, src, now, c);
            && WellFormed(r.table) && r.me == n.me
            && FloodEffect(n, r, Receive(p, src), now, c)
  {
    hide AcceptRequest, AnswerOrRelay, UpdateRouteToNeighbor;
    var m := p.msg.rreq;
    UpdateRouteToNeighborView(n.table, src, now, c);
    var n1 := n.(table := UpdateRouteToNeighbor(n.table, src, now, c));
    PurgeView(n1.table, now, c.deletePeriod);
    if !((src in n1.table && n1.table[src].blacklisted) || C.Duplicate(n.idCache, m.origin, m.requestID, now)) {
      AcceptRequestView(n1, m, src, now, c);
      var a := AcceptRequest(n1, m, src, now, c);
      assert m.origin in RequestedView(ViewOf(n1.table, now), m, src, c);
      var m1 := m.(hopCount := Bump8(m.hopCount));
      AnswerOrRelayView(a, m1, p.ttl, src, now, c);
      var r := AnswerOrRelay(a, m1, p.ttl, src, now, c);
      AnsweredFlood(n, a, r, ViewOf(a.table, now), p, now, c);
    }
  }

  lemma AnsweredFlood(n: Node, a: Node, r: Node, v: View, p: Packet, now: int, c: Config)
    requires OnlyErrors(n.sent, a.sent) && p.msg.Rreq? && p.msg.rreq.origin != UNSET
    requires Answered(a, r, v, p.msg.rreq.(hopCount := Bump8(p.msg.rreq.hopCount)), p.ttl, c)
    ensures NoNewRequests(n, r) || exists i :: OneNewRequest(n, r, i) && RelayOf(r.sent[i], p)
  {
    assert a.sent <= r.sent;
    assert forall i :: |n.sent| <= i < |a.sent| ==> r.sent[i] == a.sent[i];
    if i :| |a.sent| <= i < |r.sent| && r.sent[i].msg.Rreq? {
      assert |r.sent| == |a.sent| + 1;
      assert OneNewRequest(n, r, i) && RelayOf(r.sent[i], p);
    }
  }

  lemma ReplyFlood(n: Node, p: Packet, sender: Addr, now: int, c: Config)
    requires WellFormed(n.table) && c.Sane() && now >= 0 && !p.msg.Rreq? && Proper(p.msg)
    ensures var r := RecvAodv(n, p, sender, now, c);
            WellFormed(r.table) && r.me == n.me && Silent(n, r, now)
  {
    hide RecvReply, RecvError, RecvReplyAck, ProcessHello, UpdateRouteToNeighbor;
    UpdateRouteToNeighborView(n.table, sender, now, c);
    var n1 := n.(table := UpdateRouteToNeighbor(n.table, sender, now, c));
    match p.msg
    case Rrep(m) =>
      if m.dst == m.origin {
        ProcessHelloView(n1, m, now, c);
        HelloReply(n1, m, p.ttl, sender, now, c);
      } else {
        RecvReplyView(n1, m, p.ttl, sender, now, c);
      }
    case Rerr(m) => RecvErrorView(n1, m, sender, now, c);
    case RrepAck => RecvReplyAckView(n1, sender, now, c);
  }

  lemma SearchFlood(n: Node, dst: Addr, now: int, c: Config)
    requires WellFormed(n.table) && c.Sane()
    ensures var r := SendRequest(n, dst, now, c);
            WellFormed(r.table) && r.me == n.me && (Silent(n, r, now) || Launched(n, r, now, c))
  {
    hide SendRequest;
    SendRequestView(n, dst, now, c);
    var r := SendRequest(n, dst, now, c);
    if n.rreqCount != c.rreqRateLimit {
      var p :| OwnRequest(n, r, p) && p.msg.rreq.dst == dst && r.sent == n.sent + [p];
      assert OneNewRequest(n, r, |n.sent|);
    }
  }

  lemma SearchEventFlood(n: Node, ev: Event, now: int, c: Config)
    requires WellFormed(n.table) && c.Sane() && (ev.Output? || ev.RreqTimer? || ev.Deferred?)
    ensures var r := Handle(n, ev, now, c);
            WellFormed(r.table) && r.me == n.me && (Silent(n, r, now) || Launched(n, r, now, c))
  {
    hide SendRequest, GiveUp, SendPacketFromQueue, Q.Enqueue, Silent, Launched;
    var t := Purge(n.table, now, c.deletePeriod);
    PurgeView(n.table, now, c.deletePeriod);
    match ev
    case Output(e) =>
      var n' := n.(table := t, queue := Q.Enqueue(n.queue, e, now, c.maxQueueLen, c.maxQueueTime));
      SearchFlood(n', e.dst, now, c);
      SameFlood(n, n', SendRequest(n', e.dst, now, c), now, c);
      QuietFlood(n, DeferredRouteOutput(n, e, now, c), now);
    case RreqTimer(dst) =>
      var n' := n.(table := t, timers := n.timers - {dst});
      SearchFlood(n', dst, now, c);
      SameFlood(n, n', SendRequest(n', dst, now, c), now, c);
      GiveUpView(n', dst, now, c);
      SendPacketsCore(n', dst, Lookup(t, dst).GetOr(DefaultEntry(now)), now);
      QuietFlood(n, RouteRequestTimerExpire(n, dst, now, c), now);
    case Deferred(dst) =>
      var n' := n.(pending := n.pending - multiset{dst});
      SearchFlood(n', dst, now, c);
      SameFlood(n, n', SendRequest(n', dst, now, c), now, c);
  }

  /** Only the log, the request id, the cache and the address matter. */
  lemma SameFlood(n: Node, n': Node, r: Node, now: int, c: Config)
    requires n'.sent == n.sent && n'.requestId == n.requestId && n'.idCache == n.idCache && n'.me == n.me
    requires n'.seqNo == n.seqNo
    ensures Silent(n', r, now) ==> Silent(n, r, now)
    ensures Launched(n', r, now, c) ==> Launched(n, r, now, c)
  {
    if Launched(n', r, now, c) {
      var i :| OneNewRequest(n', r, i) && OwnRequest(n', r, r.sent[i]);
      assert OneNewRequest(n, r, i);
    }
  }

  lemma QuietFlood(n: Node, r: Node, now: int)
    ensures r.sent == n.sent && r.requestId == n.requestId && r.idCache == n.idCache ==> Silent(n, r, now)
  {
  }

  lemma LocalFlood(n: Node, ev: Event, now: int, c: Config)
    requires WellFormed(n.table) && c.Sane() && !ev.Receive?
    ensures var r := Handle(n, ev, now, c);
            WellFormed(r.table) && r.me == n.me && (Silent(n, r, now) || Launched(n, r, now, c))
  {
    hide DeferredRouteOutput, RouteRequestTimerExpire, SendRequest, NbPurge, NbUpdate, UpdateRouteLifeTime, RecvAodv,
      UpdateRouteToNeighbor;
    match ev
    case Output(e) => SearchEventFlood(n, ev, now, c);
    case RreqTimer(dst) => SearchEventFlood(n, ev, now, c);
    case Deferred(dst) => SearchEventFlood(n, ev, now, c);
    case Unrecognized(sender) => UpdateRouteToNeighborView(n.table, sender, now, c);
    case RateTimer =>
    case NeighborTimer =>
      NbPurgeView(n, now, c);
    case LinkFailure(addrs) =>
      NbPurgeView(n.(nb := CloseAll(n.nb, addrs)), now, c);
    case UseRoute(addr) => UpdateRouteLifeTimeView(n.table, addr, now, c);
    case UseNeighbor(addr) => NbUpdateView(n, addr, c.activeRouteTimeout, now, c);
    case Hello =>
  }

  /** Every event is silent, starts a flood, or takes part in one. */
  lemma FloodStep(n: Node, ev: Event, now: int, c: Config)
    requires WellFormed(n.table) && c.Sane() && now >= 0 && (ev.Receive? ==> Proper(ev.packet.msg))
    ensures var r := Handle(n, ev, now, c);
            && WellFormed(r.table) && r.me == n.me
            && FloodEffect(n, r, ev, now, c)
  {
    hide RecvAodv, Handle;
    if ev.Receive? {
      HandleReceive(n, ev, now, c);
      if ev.packet.msg.Rreq? {
        RequestFlood(n, ev.packet, ev.sender, now, c);
      } else {
        ReplyFlood(n, ev.packet, ev.sender, now, c);
      }
    } else {
      LocalFlood(n, ev, now, c);
    }
  }

  /** The event makes the node send a RREQ of its own. */
  predicate Launches(n: Node, ev: Event, now: int, c: Config) {
    && n.rreqCount != c.rreqRateLimit
    && var t := Purge(n.table, now, c.deletePeriod);
       match ev
       case Output(e) => Q.Accepts(n.queue, e, now) && !(e.dst in t && t[e.dst].flag == IN_SEARCH)
       case RreqTimer(dst) => dst in t && t[dst].flag == IN_SEARCH && t[dst].reqCount != c.rreqRetries
       case Deferred(_) => true
       case _ => false
  }

  /** The node's request id advances exactly with such an event. */
  lemma LaunchesIff(n: Node, ev: Event, now: int, c: Config)
    requires WellFormed(n.table) && c.Sane() && !ev.Receive?
    ensures var r := Handle(n, ev, now, c);
            r.requestId == if Launches(n, ev, now, c) then Next(n.requestId) else n.requestId
  {
    hide SendRequest, GiveUp, SendPacketFromQueue, Q.Enqueue, Q.Accepts, NbPurge, NbUpdate, Next,
      RecvAodv;
    PurgeView(n.table, now, c.deletePeriod);
    var t := Purge(n.table, now, c.deletePeriod);
    match ev
    case Output(e) =>
      var q := Q.Enqueue(n.queue, e, now, c.maxQueueLen, c.maxQueueTime);
      SendRequestView(n.(table := t, queue := q), e.dst, now, c);
    case RreqTimer(dst) =>
      var n' := n.(table := t, timers := n.timers - {dst});
      SendRequestView(n', dst, now, c);
      GiveUpView(n', dst, now, c);
      SendPacketsCore(n', dst, Lookup(t, dst).GetOr(DefaultEntry(now)), now);
    case Deferred(dst) => SendRequestView(n.(pending := n.pending - multiset{dst}), dst, now, c);
    case NeighborTimer => NbPurgeView(n, now, c);
    case LinkFailure(addrs) => NbPurgeView(n.(nb := CloseAll(n.nb, addrs)), now, c);
    case UseNeighbor(addr) => NbUpdateView(n, addr, c.activeRouteTimeout, now, c);
    case _ =>
  }

  lemma NextDiffers(k: U32)
    ensures Next(k) != k
  {
  }

  // ------------------------------------------------------------------------------- conservation

  /** The RREQ started at its originator with a TTL of `p`'s hop count plus its TTL, and has not used it up
      on the way. */
  ghost predicate Genuine(s: Net, p: Packet) {
    p.msg.Rreq? ==>
      var m := p.msg.rreq;
      && (m.hopCount >= 1 ==> p.ttl >= 1)
      && m.origin in s
      && exists q :: q in s[m.origin].sent && IsCopy(q, m.origin, m.requestID)
                     && q.msg.rreq.hopCount == 0 && q.ttl == m.hopCount + p.ttl
  }

  ghost predicate Conserved(s: Net) {
    forall y, p :: y in s && p in s[y].sent ==> Genuine(s, p)
  }

  lemma GenuineKept(s: Net, s': Net, p: Packet)
    requires Genuine(s, p)
    requires forall x :: x in s ==> x in s' && s[x].sent <= s'[x].sent
    ensures Genuine(s', p)
  {
    if p.msg.Rreq? {
      var m := p.msg.rreq;
      var q :| q in s[m.origin].sent && IsCopy(q, m.origin, m.requestID) && q.msg.rreq.hopCount == 0
               && q.ttl == m.hopCount + p.ttl;
      assert q in s'[m.origin].sent;
    }
  }

  lemma RelayGenuine(s: Net, p: Packet, q: Packet)
    requires Genuine(s, p) && RelayOf(q, p)
    ensures Genuine(s, q) && q.msg.rreq.hopCount == p.msg.rreq.hopCount + 1
  {
    var m := p.msg.rreq;
    var o :| o in s[m.origin].sent && IsCopy(o, m.origin, m.requestID) && o.msg.rreq.hopCount == 0
             && o.ttl == m.hopCount + p.ttl;
    assert q.msg.rreq.hopCount + q.ttl == o.ttl;
  }

  /** A step adds at most one RREQ to the log of the node that took it. */
  lemma ConservedStep(s: Net, a: Action, c: Config)
    requires Sound(s) && Conserved(s) && c.Sane() && CanStep(s, a)
    ensures Sound(StepTo(s, a, c)) && Conserved(StepTo(s, a, c))
  {
    hide Handle, Genuine;
    var x := a.node;
    var n, r, s' := s[x], Handle(s[x], a.event, a.now, c), StepTo(s, a, c);
    FloodStep(n, a.event, a.now, c);
    assert n.sent <= r.sent;
    forall y, p | y in s' && p in s'[y].sent
      ensures Genuine(s', p)
    {
      if p in s[y].sent {
        GenuineKept(s, s', p);
      } else {
        NewPacketGenuine(s, a, c, p);
      }
    }
  }

  lemma NewPacketGenuine(s: Net, a: Action, c: Config, p: Packet)
    requires Sound(s) && Conserved(s) && c.Sane() && CanStep(s, a)
    requires p in Handle(s[a.node], a.event, a.now, c).sent && p !in s[a.node].sent
    ensures Genuine(StepTo(s, a, c), p)
  {
    hide Handle;
    var n, r, s' := s[a.node], Handle(s[a.node], a.event, a.now, c), StepTo(s, a, c);
    FloodStep(n, a.event, a.now, c);
    var j :| 0 <= j < |r.sent| && r.sent[j] == p;
    assert j >= |n.sent|;
    if p.msg.Rreq? {
      if Launched(n, r, a.now, c) {
        assert p in s'[a.node].sent && IsCopy(p, a.node, p.msg.rreq.requestID);
      } else {
        assert Genuine(s, a.event.packet);
        RelayGenuine(s, a.event.packet, p);
        GenuineKept(s, s', p);
      }
    }
  }

  lemma {:induction false} ConservedAlways(s: Net, acts: seq<Action>, c: Config)
    requires Sound(s) && Conserved(s) && c.Sane() && CanRun(s, acts, c)
    ensures Sound(Final(s, acts, c)) && Conserved(Final(s, acts, c))
    decreases |acts|
  {
    hide Conserved, Sound;
    if acts != [] {
      ConservedStep(s, acts[0], c);
      ConservedAlways(StepTo(s, acts[0], c), acts[1..], c);
    }
  }

  /** Flood conservation: after any run at all from a quiet network, whatever was lost, repeated or
      reordered, the hop count and the TTL of every RREQ on the air add up to the TTL with which its
      originator sent it; so the hop count never wraps when it is incremented. */
  lemma FloodConservation(s: Net, acts: seq<Action>, c: Config, y: Addr, p: Packet)
    requires Initial(s) && c.Sane() && CanRun(s, acts, c)
    requires var f := Final(s, acts, c); y in f && p in f[y].sent && p.msg.Rreq?
    ensures var f := Final(s, acts, c); var m := p.msg.rreq;
            && Genuine(f, p)
            && Bump8(m.hopCount) == m.hopCount + 1 <= Max(1, m.hopCount + p.ttl)
  {
    hide Handle, CanRun, Final, StepTo;
    ConservedAlways(s, acts, c);
    var f := Final(s, acts, c);
    assert Genuine(f, p);
  }

  /** Taking a RREQ leaves a route to its originator: straight when it came from there, and otherwise with
      the hop count of the RREQ, incremented. */
  lemma TakenHops(n: Node, p: Packet, src: Addr, now: int, c: Config)
    requires WellFormed(n.table) && c.Sane() && now >= 0 && p.msg.Rreq? && Proper(p.msg) && Unseen(n, p, src, now, c)
    ensures var r := RecvAodv(n, p, src, now, c); var m := p.msg.rreq;
            m.origin in r.table && r.table[m.origin].hops == if src == m.origin then 1 else Bump8(m.hopCount)
  {
    hide AcceptRequest, AnswerOrRelay, UpdateRouteToNeighbor, Answered, OnlyErrors, Reversed;
    var m := p.msg.rreq;
    UpdateRouteToNeighborView(n.table, src, now, c);
    var n1 := n.(table := UpdateRouteToNeighbor(n.table, src, now, c));
    PurgeView(n1.table, now, c.deletePeriod);
    AcceptRequestView(n1, m, src, now, c);
    var a := AcceptRequest(n1, m, src, now, c);
    var w := RequestedView(ViewOf(n1.table, now), m, src, c);
    var m1 := m.(hopCount := Bump8(m.hopCount));
    ReversedHops(ViewOf(n1.table, now), m1, src, c);
    assert m.origin in w && w[m.origin].hops == if src == m.origin then 1 else m1.hopCount;
    AnswerOrRelayView(a, m1, p.ttl, src, now, c);
  }

  lemma ReversedHops(v: View, m: RreqHeader, src: Addr, c: Config)
    ensures Reversed(v, m, src, c).hops == m.hopCount
  {
  }

  /** `o` has sent its RREQ number `id` with a TTL of at least `hops`; a RREQ gets one hop far whatever its
      TTL. */
  ghost predicate WithinTtl(s: Net, o: Addr, id: U32, hops: int) {
    o in s && exists q :: q in s[o].sent && IsCopy(q, o, id) && q.msg.rreq.hopCount == 0 && hops <= Max(1, q.ttl)
  }

  /** One hop more than a RREQ on the air has come is within the TTL it started with. */
  lemma GenuineWithin(s: Net, p: Packet)
    requires p.msg.Rreq? && Genuine(s, p)
    ensures WithinTtl(s, p.msg.rreq.origin, p.msg.rreq.requestID, p.msg.rreq.hopCount + 1)
    ensures Bump8(p.msg.rreq.hopCount) == p.msg.rreq.hopCount + 1
  {
    var m := p.msg.rreq;
    var q :| q in s[m.origin].sent && IsCopy(q, m.origin, m.requestID) && q.msg.rreq.hopCount == 0
             && q.ttl == m.hopCount + p.ttl;
    assert m.hopCount + 1 <= Max(1, q.ttl);
  }

  lemma WithinKept(s: Net, s': Net, o: Addr, id: U32, hops: int)
    requires WithinTtl(s, o, id, hops) && o in s' && s[o].sent <= s'[o].sent
    ensures WithinTtl(s', o, id, hops)
  {
    var q :| q in s[o].sent && IsCopy(q, o, id) && q.msg.rreq.hopCount == 0 && hops <= Max(1, q.ttl);
    assert q in s'[o].sent;
  }

  /** The hop count that a node stores when it takes a RREQ never exceeds the TTL with which the originator
      sent it, after any run at all. */
  lemma StoredHops(s: Net, acts: seq<Action>, a: Action, c: Config)
    requires Initial(s) && c.Sane() && CanRun(s, acts, c)
    requires var f := Final(s, acts, c);
             && CanStep(f, a) && a.event.Receive? && a.event.packet.msg.Rreq?
             && Unseen(f[a.node], a.event.packet, a.event.sender, a.now, c)
    ensures var f := Final(s, acts, c); var m := a.event.packet.msg.rreq;
            var r := StepTo(f, a, c)[a.node];
            m.origin in r.table && WithinTtl(f, m.origin, m.requestID, r.table[m.origin].hops)
  {
    hide Handle, CanRun, Final, Unseen, Genuine, WithinTtl;
    ConservedAlways(s, acts, c);
    var f := Final(s, acts, c);
    var p := a.event.packet;
    assert Genuine(f, p);
    GenuineWithin(f, p);
    HandleReceive(f[a.node], a.event, a.now, c);
    TakenHops(f[a.node], p, a.event.sender, a.now, c);
    WithinLess(f, p.msg.rreq.origin, p.msg.rreq.requestID, p.msg.rreq.hopCount + 1, 1);
  }

  lemma WithinLess(s: Net, o: Addr, id: U32, hops: int, fewer: int)
    requires WithinTtl(s, o, id, hops) && fewer <= hops
    ensures WithinTtl(s, o, id, fewer)
  {
  }

  // ------------------------------------------------------------------------------- at most once

  /** Every copy of the RREQ number `id` of `origin` that the node has sent is in its cache, and there is one
      at most. */
  ghost predicate Tracked(n: Node, origin: Addr, id: U32) {
    && (forall i :: 0 <= i < |n.sent| && IsCopy(n.sent[i], origin, id) ==> C.Holds(n.idCache, origin, id))
    && (forall i, j :: 0 <= i < j < |n.sent| ==> !(IsCopy(n.sent[i], origin, id) && IsCopy(n.sent[j], origin, id)))
  }

  ghost predicate OnceInv(s: Net, origin: Addr, id: U32) {
    Sound(s) && Conserved(s) && origin in s && forall x :: x in s ==> Tracked(s[x], origin, id)
  }

  /** The node's record of this one RREQ, if it has any, has not run out. */
  ghost predicate RecordLives(cache: C.Cache, now: int, origin: Addr, id: U32) {
    forall u :: u in cache && u.context == origin && u.id == id ==> u.expire >= now
  }

  /** What one event must leave alone for the flood (origin, id): the record of it outlives the event, and
      the originator does not come round to the same id again while it holds it. */
  ghost predicate FloodLives(n: Node, now: int, origin: Addr, id: U32) {
    && RecordLives(n.idCache, now, origin, id)
    && (n.me == origin && C.Holds(n.idCache, origin, id) ==> Next(n.requestId) != id)
  }

  /** A purge keeps a key whose record lives. */
  lemma LiveKeyStays(cache: C.Cache, now: int, origin: Addr, id: U32)
    requires RecordLives(cache, now, origin, id)
    ensures C.Holds(C.Purge(cache, now), origin, id) == C.Holds(cache, origin, id)
  {
    InFilter(cache, C.Current(now));
    var p := C.Purge(cache, now);
    if C.Holds(cache, origin, id) {
      var i :| 0 <= i < |cache| && cache[i].context == origin && cache[i].id == id;
      assert cache[i] in p;
    }
    if C.Holds(p, origin, id) {
      var i :| 0 <= i < |p| && p[i].context == origin && p[i].id == id;
      assert p[i] in cache;
    }
  }

  /** Remembering a key adds that key and loses no live one. */
  lemma LiveKeyRemembered(cache: C.Cache, addr: Addr, k: U32, now: int, lifetime: int, origin: Addr, id: U32)
    requires RecordLives(cache, now, origin, id)
    ensures var d := C.Remember(cache, addr, k, now, lifetime);
            && C.Holds(d, addr, k)
            && (C.Holds(d, origin, id) <==> C.Holds(cache, origin, id) || (addr == origin && k == id))
    ensures addr == origin && k == id ==> C.Duplicate(cache, addr, k, now) == C.Holds(cache, origin, id)
  {
    LiveKeyStays(cache, now, origin, id);
    var p, d := C.Purge(cache, now), C.Remember(cache, addr, k, now, lifetime);
    if d != p {
      AppendedHolds(p, C.UniqueId(addr, k, now + lifetime), origin, id);
      AppendedHolds(p, C.UniqueId(addr, k, now + lifetime), addr, k);
    }
  }

  lemma AppendedHolds(p: C.Cache, u: C.UniqueId, addr: Addr, k: U32)
    ensures C.Holds(p + [u], addr, k) <==> C.Holds(p, addr, k) || (u.context == addr && u.id == k)
  {
    var d := p + [u];
    assert d[|p|] == u;
    if C.Holds(p, addr, k) {
      var i :| 0 <= i < |p| && p[i].context == addr && p[i].id == k;
      assert d[i] == p[i];
    }
  }

  /** The originator holds the id of a RREQ of which a copy is on the air. */
  lemma OriginHolds(s: Net, y: Addr, p: Packet, origin: Addr, id: U32)
    requires OnceInv(s, origin, id) && y in s && p in s[y].sent && IsCopy(p, origin, id)
    ensures C.Holds(s[origin].idCache, origin, id)
  {
    assert Genuine(s, p);
    var q :| q in s[origin].sent && IsCopy(q, origin, id);
    var i :| 0 <= i < |s[origin].sent| && s[origin].sent[i] == q;
    assert Tracked(s[origin], origin, id);
  }

  /** While its record of the flood lives, the originator does not take part in it again: it sends nothing,
      and only refreshes its route to the node the copy came from. */
  lemma OriginNeverReprocesses(s: Net, a: Action, c: Config, origin: Addr, id: U32)
    requires OnceInv(s, origin, id) && c.Sane() && CanStep(s, a) && a.node == origin
    requires RecordLives(s[origin].idCache, a.now, origin, id)
    requires a.event.Receive? && IsCopy(a.event.packet, origin, id)
    ensures Silent(s[origin], Handle(s[origin], a.event, a.now, c), a.now)
    ensures ViewOf(Handle(s[origin], a.event, a.now, c).table, a.now)
         == Refreshed(ViewOf(s[origin].table, a.now), a.event.sender)
  {
    hide RecvAodv, UpdateRouteToNeighbor;
    var n, p, now := s[origin], a.event.packet, a.now;
    OriginHolds(s, a.event.sender, p, origin, id);
    LiveKeyStays(n.idCache, now, origin, id);
    HandleReceive(n, a.event, now, c);
    RequestFlood(n, p, a.event.sender, now, c);
    DuplicateRequest(n, p, a.event.sender, now, c);
  }

  /** A duplicate RREQ only refreshes the route to the node it came from. */
  lemma DuplicateRequest(n: Node, p: Packet, src: Addr, now: int, c: Config)
    requires WellFormed(n.table) && c.Sane() && p.msg.Rreq?
    requires C.Duplicate(n.idCache, p.msg.rreq.origin, p.msg.rreq.requestID, now)
    ensures var r := RecvAodv(n, p, src, now, c);
            && r == n.(table := r.table, idCache := r.idCache) && Settled(r.table, now)
            && ViewOf(r.table, now) == Refreshed(ViewOf(n.table, now), src)
  {
    hide UpdateRouteToNeighbor;
    UpdateRouteToNeighborView(n.table, src, now, c);
    PurgeView(UpdateRouteToNeighbor(n.table, src, now, c), now, c.deletePeriod);
  }

  lemma TrackedGrows(n: Node, r: Node, origin: Addr, id: U32)
    requires Tracked(n, origin, id) && NoNewRequests(n, r)
    requires C.Holds(n.idCache, origin, id) ==> C.Holds(r.idCache, origin, id)
    ensures Tracked(r, origin, id)
  {
    assert forall i :: 0 <= i < |n.sent| ==> r.sent[i] == n.sent[i];
  }

  /** One more RREQ: another one, or this one when it was not in the cache and now is. */
  lemma TrackedOneMore(n: Node, r: Node, i: int, origin: Addr, id: U32)
    requires Tracked(n, origin, id) && OneNewRequest(n, r, i)
    requires C.Holds(n.idCache, origin, id) ==> C.Holds(r.idCache, origin, id)
    requires IsCopy(r.sent[i], origin, id) ==> !C.Holds(n.idCache, origin, id) && C.Holds(r.idCache, origin, id)
    ensures Tracked(r, origin, id)
  {
    assert forall j :: 0 <= j < |n.sent| ==> r.sent[j] == n.sent[j];
  }

  lemma TrackedStep(s: Net, a: Action, c: Config, origin: Addr, id: U32)
    requires OnceInv(s, origin, id) && c.Sane() && CanStep(s, a) && FloodLives(s[a.node], a.now, origin, id)
    ensures Tracked(Handle(s[a.node], a.event, a.now, c), origin, id)
  {
    hide Handle, Tracked, C.Remember, C.Holds, C.Duplicate, C.Purge, RecordLives;
    var x, now := a.node, a.now;
    var n, r := s[x], Handle(s[x], a.event, a.now, c);
    FloodStep(n, a.event, now, c);
    LiveKeyStays(n.idCache, now, origin, id);
    if Silent(n, r, now) {
      TrackedGrows(n, r, origin, id);
    } else if Launched(n, r, now, c) {
      LiveKeyRemembered(n.idCache, x, r.requestId, now, c.pathDiscoveryTime, origin, id);
      var i :| OneNewRequest(n, r, i) && OwnRequest(n, r, r.sent[i]);
      TrackedOneMore(n, r, i, origin, id);
    } else {
      var m := a.event.packet.msg.rreq;
      LiveKeyRemembered(n.idCache, m.origin, m.requestID, now, c.pathDiscoveryTime, origin, id);
      if NoNewRequests(n, r) {
        TrackedGrows(n, r, origin, id);
      } else {
        var i :| OneNewRequest(n, r, i) && RelayOf(r.sent[i], a.event.packet);
        TrackedOneMore(n, r, i, origin, id);
      }
    }
  }

  lemma OnceStep(s: Net, a: Action, c: Config, origin: Addr, id: U32)
    requires OnceInv(s, origin, id) && c.Sane() && CanStep(s, a) && FloodLives(s[a.node], a.now, origin, id)
    ensures OnceInv(StepTo(s, a, c), origin, id)
  {
    hide Handle, Tracked, FloodLives;
    ConservedStep(s, a, c);
    TrackedStep(s, a, c, origin, id);
  }

  /** A run in which the record of this one flood lives at every node that acts. */
  ghost predicate LiveRun(s: Net, acts: seq<Action>, c: Config, origin: Addr, id: U32)
    decreases |acts|
  {
    acts == [] || (CanStep(s, acts[0]) && FloodLives(s[acts[0].node], acts[0].now, origin, id)
                   && LiveRun(StepTo(s, acts[0], c), acts[1..], c, origin, id))
  }

  lemma {:induction false} OnceAlways(s: Net, acts: seq<Action>, c: Config, origin: Addr, id: U32)
    requires OnceInv(s, origin, id) && c.Sane() && LiveRun(s, acts, c, origin, id)
    ensures OnceInv(Final(s, acts, c), origin, id)
    decreases |acts|
  {
    hide OnceInv, FloodLives;
    if acts != [] {
      OnceStep(s, acts[0], c, origin, id);
      OnceAlways(StepTo(s, acts[0], c), acts[1..], c, origin, id);
    }
  }

  lemma OnceStart(s: Net, origin: Addr, id: U32)
    requires Initial(s) && origin in s
    ensures OnceInv(s, origin, id)
  {
  }
}
