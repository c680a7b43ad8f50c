/** One route discovery in a network that knows nothing yet: `o` asks for `d`, and whatever the air does
    with the messages, the routes to `d` that the RREP leaves behind form a chain of exactly the length
    stored in them. */
module Discoveries {
  import opened Basics
  import SequenceNumbers
  import opened Headers
  import opened RouteEntries
  import opened Nodes
  import opened RouteViews
  import NodeViews
  import opened Networks
  import opened Floods
  import opened ReverseTrees
  import ReplyHomes
  import opened ForwardRoutes
  import Q = PacketQueues
  import C = IdCaches

  /** None of the node's routes and neighbours has run out. */
  ghost predicate Lasting(n: Node, now: int) {
    && NodeViews.QuietLinks(n, now)
    && forall k :: k in n.table && n.table[k].flag != IN_SEARCH ==> !n.table[k].Expired(now)
  }

  /** Nor has its record of the one RREQ. */
  ghost predicate Awake(n: Node, now: int, o: Addr, id: U32) {
    Lasting(n, now) && RecordLives(n.idCache, now, o, id)
  }

  /** Whatever the nodes other than `o` have sent or taken of the floods of `o` is the RREQ number `id`. */
  ghost predicate OneTree(s: Net, h: History, o: Addr, id: U32) {
    && TreeInv(s, h, o)
    && (forall x :: x in h ==> h[x].id == id)
    && (forall y, p :: y in s && y != o && p in s[y].sent && p.msg.Rreq? && p.msg.rreq.origin == o ==>
          p.msg.rreq.requestID == id)
  }

  /** How far `d` lies behind `y`, as the flood measured it. */
  function Behind(h: History, d: Addr, y: Addr): int
    requires d in h && y in h
  {
    h[d].hop - h[y].hop
  }

  /** The only messages of a discovery: the RREQ, and the RREP of `d` on its way up the tree. */
  ghost predicate Relevant(s: Net, h: History, y: Addr, p: Packet, o: Addr, d: Addr)
    requires y in s && d in s
  {
    match p.msg
    case Rreq(m) => m.origin == o && m.dst == d && y != d && (y == o ==> m.hopCount == 0)
    case Rrep(m) =>
      && m.origin == o && m.dst == d && y != o && y in h && d in h && (y != d ==> Known(s[y].table, d))
      && m.dstSeqNo == s[d].seqNo && m.hopCount == Behind(h, d, y) && !m.AckRequired()
      && p.target.To? && (p.target.addr == h[y].parent || (y != d && p.target.addr == o))
      && (p.target.addr != o ==> p.target.addr in h && p.ttl >= h[p.target.addr].hop + 1)
    case _ => false
  }

  /** A route to `d` is VALID, current, and one hop longer than that of its next hop, which lies one level
      further down the tree. */
  ghost predicate OnChain(s: Net, h: History, x: Addr, o: Addr, d: Addr)
    requires x in s && d in s
  {
    Known(s[x].table, d) ==>
      var e := s[x].table[d];
      var y := e.nextHop;
      && e.flag == VALID && e.bound && e.seqNo == s[d].seqNo
      && d in h && y in h && y in s && (y != d ==> Known(s[y].table, d))
      && e.hops == Behind(h, d, y) + 1 && Behind(h, d, y) >= 0
      && (x != o ==> x in h && h[y].parent == x)
  }

  ghost predicate DiscoveryInv(s: Net, h: History, o: Addr, d: Addr, id: U32) {
    && OneTree(s, h, o, id) && OnceInv(s, o, id) && d in s && d != o && s[o].requestId == id
    && (forall x :: x in h ==> C.Holds(s[x].idCache, o, id) && (h[x].parent == o ==> h[x].hop == 1))
    && (forall y, p :: y in s && p in s[y].sent ==> Relevant(s, h, y, p, o, d))
    && (forall x :: x in s && x != d ==> OnChain(s, h, x, o, d))
  }

  // ------------------------------------------------------------------------------- events at one node

  /** The node's route to `d` is as before. */
  ghost predicate SameRoute(t: Table, r: Table, d: Addr) {
    && (Known(r, d) <==> Known(t, d))
    && (Known(t, d) ==> r[d].nextHop == t[d].nextHop && r[d].hops == t[d].hops && r[d].seqNo == t[d].seqNo
                        && r[d].bound == t[d].bound && (t[d].flag == VALID ==> r[d].flag == VALID))
  }

  lemma SameView(n: Node, r: Table, now: int, d: Addr)
    requires Lasting(n, now) && d != UNSET && (forall k :: k in r ==> !Gone(r[k], now))
    requires var v, w := ViewOf(n.table, now), ViewOf(r, now); (d in v <==> d in w) && (d in v ==> w[d] == v[d])
    ensures SameRoute(n.table, r, d)
  {
    assert d in r ==> d in ViewOf(r, now);
    assert d in n.table ==> d in ViewOf(n.table, now);
  }

  /** The RREP of `d` itself. */
  ghost predicate FirstReply(q: Packet, p: Packet, seqNo: U32, src: Addr, o: Addr, d: Addr)
    requires p.msg.Rreq?
  {
    && q.msg.Rrep? && q.msg.rrep.dst == d && q.msg.rrep.origin == o && q.msg.rrep.dstSeqNo == seqNo
    && q.msg.rrep.hopCount == 0 && !q.msg.rrep.AckRequired() && q.target == To(src)
    && (src != o ==> q.ttl == Bump8(p.msg.rreq.hopCount))
  }

  lemma FreshReply(d: Addr, seqNo: U32, o: Addr, lifetime: int)
    ensures !NewRrep(0, d, seqNo, o, lifetime).AckRequired()
  {
  }

  /** Taking the RREQ: the route to `d` stays; `d` answers, anyone else passes the RREQ on or is silent. */
  lemma RequestTaken(n: Node, p: Packet, src: Addr, now: int, c: Config, o: Addr, d: Addr)
    requires WellFormed(n.table) && c.Sane() && now >= 0 && Lasting(n, now) && n.me != o && o != UNSET && d != UNSET
    requires p.msg.Rreq? && p.msg.rreq.origin == o && p.msg.rreq.dst == d && o != d && d != src
             && Unseen(n, p, src, now, c)
    requires n.me != d ==> !Known(n.table, d)
    ensures var r := RecvAodv(n, p, src, now, c);
            && SameRoute(n.table, r.table, d) && (n.me != d ==> r.seqNo == n.seqNo)
            && forall q :: q in r.sent ==> q in n.sent || (n.me != d && RelayOf(q, p))
                                           || (n.me == d && FirstReply(q, p, r.seqNo, src, o, d))
  {
    hide AcceptRequest, AnswerOrRelay, UpdateRouteToNeighbor, Lasting, NodeViews.Answered, FirstReply, RelayOf,
      SameRoute;
    var m := p.msg.rreq;
    UpdateRouteToNeighborView(n.table, src, now, c);
    var n1 := n.(table := UpdateRouteToNeighbor(n.table, src, now, c));
    PurgeView(n1.table, now, c.deletePeriod);
    NodeViews.AcceptRequestView(n1, m, src, now, c);
    LastingLinks(n, now);
    var a := AcceptRequest(n1, m, src, now, c);
    var w := NodeViews.RequestedView(ViewOf(n1.table, now), m, src, c);
    assert m.origin in w && w[o].nextHop == src;
    var m1 := m.(hopCount := Bump8(m.hopCount));
    NodeViews.AnswerOrRelayView(a, m1, p.ttl, src, now, c);
    var r := AnswerOrRelay(a, m1, p.ttl, src, now, c);
    SameView(n, r.table, now, d);
    if n.me != d && d in w {
      NotKnown(n, now, d);
    }
    TakenSends(n, a, r, w, p, src, c, o, d);
  }

  /** What goes out when the RREQ is taken. */
  lemma TakenSends(n: Node, a: Node, r: Node, v: View, p: Packet, src: Addr, c: Config, o: Addr, d: Addr)
    requires p.msg.Rreq? && p.msg.rreq.origin == o && p.msg.rreq.dst == d && a.sent == n.sent && a.me == n.me
    requires NodeViews.Answered(a, r, v, p.msg.rreq.(hopCount := Bump8(p.msg.rreq.hopCount)), p.ttl, c)
    requires o in v && v[o].nextHop == src && (src != o ==> v[o].hops == Bump8(p.msg.rreq.hopCount))
    requires n.me != d ==> !(d in v && v[d].validSeqNo)
    ensures forall q :: q in r.sent ==> q in n.sent || (n.me != d && RelayOf(q, p))
                                        || (n.me == d && FirstReply(q, p, r.seqNo, src, o, d))
  {
    FreshReply(d, r.seqNo, o, c.myRouteTimeout);
  }

  lemma LastingLinks(n: Node, now: int)
    requires Lasting(n, now)
    ensures NodeViews.QuietLinks(n, now)
  {
  }

  lemma NotKnown(n: Node, now: int, d: Addr)
    requires !Known(n.table, d)
    ensures d in ViewOf(n.table, now) ==> !ViewOf(n.table, now)[d].validSeqNo
  {
  }

  /** A RREQ seen before changes nothing about `d`. */
  lemma RequestIgnored(n: Node, p: Packet, src: Addr, now: int, c: Config, o: Addr, d: Addr)
    requires WellFormed(n.table) && c.Sane() && Lasting(n, now) && d != UNSET
    requires p.msg.Rreq? && src != d && !Unseen(n, p, src, now, c)
    ensures var r := RecvAodv(n, p, src, now, c);
            SameRoute(n.table, r.table, d) && r.sent == n.sent && r.seqNo == n.seqNo
  {
    hide UpdateRouteToNeighbor, Lasting;
    UpdateRouteToNeighborView(n.table, src, now, c);
    var t1 := UpdateRouteToNeighbor(n.table, src, now, c);
    PurgeView(t1, now, c.deletePeriod);
    SameView(n, t1, now, d);
  }

  /** The route to `d` after its RREP: the one offered, unless one as good was there. */
  ghost predicate Replied(t: Table, r: Table, m: RrepHeader, src: Addr) {
    && Known(r, m.dst) && r[m.dst].flag == VALID && r[m.dst].bound && r[m.dst].seqNo == m.dstSeqNo
    && (if Known(t, m.dst) && t[m.dst].hops <= m.hopCount + 1
        then r[m.dst].nextHop == t[m.dst].nextHop && r[m.dst].hops == t[m.dst].hops
        else r[m.dst].nextHop == src && r[m.dst].hops == m.hopCount + 1)
  }

  /** `q` is the RREP `p` one hop further, towards `o`, with no acknowledgement asked for. */
  ghost predicate PassedAlong(q: Packet, p: Packet, t: Table, o: Addr) {
    PassedFrom(q, p) && !q.msg.rrep.AckRequired() && o in t && q.target == To(t[o].nextHop)
  }

  lemma OnePassed(n: Node, n1: Node, r: Node, p: Packet, src: Addr, now: int, o: Addr)
    requires p.msg.Rrep? && p.msg.rrep.origin == o && !p.msg.rrep.AckRequired() && n1.sent == n.sent && n1.me == n.me
    requires Settled(r.table, now) && NodeViews.Forwarded(n1, r, ViewOf(r.table, now), p.msg.rrep, p.ttl, src)
             && o != UNSET
    ensures forall q :: q in r.sent && q !in n.sent ==> n.me != o && PassedAlong(q, p, r.table, o)
  {
    hide WithBit, Bit;
    SettledView(r.table, now);
    FlagBits(p.msg.rrep.flags, ACK_REQUIRED, false, ACK_REQUIRED);
  }

  lemma RepliedTable(n: Node, n1: Node, t: Table, m: RrepHeader, src: Addr, now: int)
    requires Lasting(n, now) && m.dst != UNSET && m.hopCount < 255 && Settled(t, now)
    requires ViewOf(t, now) == NodeViews.RepliedView(n1, Refreshed(ViewOf(n.table, now), src), m, src)
    requires Known(n.table, m.dst) ==>
               n.table[m.dst].flag == VALID && n.table[m.dst].bound && n.table[m.dst].seqNo == m.dstSeqNo
    requires Known(n.table, m.dst) && src == m.dst ==> n.table[m.dst].hops == 1
    ensures Replied(n.table, t, m, src)
  {
    SettledView(t, now);
    var w := ViewOf(t, now);
    assert m.dst in n.table ==> m.dst in ViewOf(n.table, now);
    assert m.dst in w;
  }

  lemma ReplyTaken(n: Node, p: Packet, src: Addr, now: int, c: Config, o: Addr, d: Addr)
    requires WellFormed(n.table) && c.Sane() && now >= 0 && Lasting(n, now) && o != UNSET && d != UNSET && n.me != d
    requires p.msg.Rrep? && p.msg.rrep.origin == o && p.msg.rrep.dst == d != o && !p.msg.rrep.AckRequired()
    requires p.msg.rrep.hopCount < 255
    requires Known(n.table, d) ==>
               n.table[d].flag == VALID && n.table[d].bound && n.table[d].seqNo == p.msg.rrep.dstSeqNo
    requires Known(n.table, d) && src == d ==> n.table[d].hops == 1
    ensures var r := RecvAodv(n, p, src, now, c);
            && Replied(n.table, r.table, p.msg.rrep, src) && r.seqNo == n.seqNo
            && forall q :: q in r.sent && q !in n.sent ==> n.me != o && PassedAlong(q, p, r.table, o)
  {
    hide RecvReply, UpdateRouteToNeighbor, PassedAlong, NodeViews.Forwarded, Replied, NodeViews.RepliedView, ViewOf,
      Refreshed, Lasting, Known;
    var m, v := p.msg.rrep, ViewOf(n.table, now);
    UpdateRouteToNeighborView(n.table, src, now, c);
    var n1 := n.(table := UpdateRouteToNeighbor(n.table, src, now, c));
    NodeViews.RecvReplyView(n1, m, p.ttl, src, now, c);
    var r := RecvReply(n1, m, p.ttl, src, now, c);
    RepliedTable(n, n1, r.table, m, src, now);
    OnePassed(n, n1, r, p, src, now, o);
  }

  // ------------------------------------------------------------------------------- the network

  /** Any message is delivered anywhere in reach, while nothing the receiver knows has run out; RREQs of earlier
      rings are lost. */
  ghost predicate Delivery(s: Net, a: Action, o: Addr, id: U32) {
    && CanStep(s, a) && a.event.Receive? && Awake(s[a.node], a.now, o, id)
    && (a.event.packet.msg.Rreq? ==> a.event.packet.msg.rreq.requestID == id)
  }

  /** Nobody takes the RREQ twice: the history only grows. */
  lemma OneTreeGrows(s: Net, h: History, a: Action, c: Config, o: Addr, id: U32)
    requires OneTree(s, h, o, id) && CanStep(s, a) && TreeGuard(s, h, a, c, o)
    requires a.event.Receive? && a.event.packet.msg.Rreq? ==> a.event.packet.msg.rreq.requestID == id
    ensures var h' := Note(h, s, a, c, o);
            && (forall x :: x in h' ==> h'[x].id == id)
            && (forall x :: x in h ==> x in h' && h'[x] == h[x])
  {
    hide Calm, Unseen;
  }

  lemma OneTreeKept(s: Net, h: History, a: Action, c: Config, o: Addr, id: U32)
    requires OneTree(s, h, o, id) && c.Sane() && CanStep(s, a) && TreeGuard(s, h, a, c, o)
    requires a.event.Receive? && a.event.packet.msg.Rreq? ==> a.event.packet.msg.rreq.requestID == id
    ensures OneTree(StepTo(s, a, c), Note(h, s, a, c, o), o, id)
  {
    hide Handle, Unseen, TreeInv, TreeGuard, Note, Launches, SequenceNumbers.Next;
    var n, r := s[a.node], Handle(s[a.node], a.event, a.now, c);
    TreeKept(s, h, a, c, o);
    OneTreeGrows(s, h, a, c, o, id);
    ReplyHomes.SoundTree(s, h, o, a.node);
    FloodStep(n, a.event, a.now, c);
    forall p | p in r.sent && p.msg.Rreq? && p.msg.rreq.origin == o && a.node != o
      ensures p.msg.rreq.requestID == id
    {
      if p !in n.sent {
        NodeViews.NewPacket(n.sent, r.sent, p);
        if a.event.Receive? {
          assert RelayOf(p, a.event.packet);
        }
      }
    }
  }

  /** A delivery in a discovery satisfies every hypothesis of the tree theorems. */
  lemma DeliveryIsCalm(s: Net, h: History, a: Action, c: Config, o: Addr, d: Addr, id: U32)
    requires DiscoveryInv(s, h, o, d, id) && c.Sane() && Delivery(s, a, o, id)
    ensures TreeGuard(s, h, a, c, o) && ReplyHomes.HomeGuard(s, h, a, c, o, id)
    ensures Takes(s[a.node], a.event, a.now, c, o) ==> a.node !in h && a.node != o
  {
    hide Handle, TreeInv, Conserved;
    var n, p, x := s[a.node], a.event.packet, a.node;
    assert Relevant(s, h, a.event.sender, p, o, d);
    if Takes(n, a.event, a.now, c, o) {
      LiveKeyStays(n.idCache, a.now, o, id);
      if x == o {
        OriginHolds(s, a.event.sender, p, o, id);
      }
    }
  }

  /** What a delivery does at its node, seen from the network. */
  ghost predicate NodeEffect(s: Net, h: History, h': History, x: Addr, r: Node, o: Addr, d: Addr)
    requires x in s && d in s
  {
    && (Known(s[x].table, d) ==> Known(r.table, d))
    && (x == d ==> r.seqNo == s[d].seqNo || d !in h)
    && (x != d ==> OnChain(s[x := r], h', x, o, d))
    && forall q :: q in r.sent && q !in s[x].sent ==> Relevant(s[x := r], h', x, q, o, d)
  }

  lemma RequestDelivered(s: Net, h: History, a: Action, c: Config, o: Addr, d: Addr, id: U32)
    requires DiscoveryInv(s, h, o, d, id) && c.Sane() && Delivery(s, a, o, id) && a.event.packet.msg.Rreq?
    ensures NodeEffect(s, h, Note(h, s, a, c, o), a.node, Handle(s[a.node], a.event, a.now, c), o, d)
  {
    hide Handle, TreeInv, Conserved, Unseen, Lasting, RecordLives, RecvAodv;
    var x, p, src := a.node, a.event.packet, a.event.sender;
    var n, r, h' := s[x], Handle(s[x], a.event, a.now, c), Note(h, s, a, c, o);
    assert Relevant(s, h, src, p, o, d);
    NodeViews.HandleReceive(n, a.event, a.now, c);
    DeliveryIsCalm(s, h, a, c, o, d, id);
    OneTreeGrows(s, h, a, c, o, id);
    SoundNode(s, h, o, d, id, x);
    assert x != d ==> OnChain(s, h, x, o, d);
    if Takes(n, a.event, a.now, c, o) {
      RequestTaken(n, p, src, a.now, c, o, d);
      SenderCloser(s, h, a, c, o, d, id);
    } else {
      RequestIgnored(n, p, src, a.now, c, o, d);
    }
  }

  /** The sender of a RREQ is one hop closer than whoever takes it. */
  lemma SenderCloser(s: Net, h: History, a: Action, c: Config, o: Addr, d: Addr, id: U32)
    requires DiscoveryInv(s, h, o, d, id) && Delivery(s, a, o, id) && a.node != o
             && Takes(s[a.node], a.event, a.now, c, o)
    ensures var y, m := a.event.sender, a.event.packet.msg.rreq;
            y != o ==> y in h && Bump8(m.hopCount) == h[y].hop + 1
  {
    hide Unseen, OnceInv, Conserved, Relevant, OnChain, Entered;
    TakenPacket(s, h, a, c, o);
  }

  lemma SoundNode(s: Net, h: History, o: Addr, d: Addr, id: U32, x: Addr)
    requires DiscoveryInv(s, h, o, d, id) && x in s
    ensures s[x].me == x && x != UNSET && WellFormed(s[x].table) && o != UNSET && d != UNSET
  {
    assert TreeInv(s, h, o);
  }

  /** Where a RREP can arrive. */
  lemma ReplyPlace(s: Net, h: History, a: Action, o: Addr, d: Addr, id: U32)
    requires DiscoveryInv(s, h, o, d, id) && Delivery(s, a, o, id) && a.event.packet.msg.Rrep?
    ensures var x, y, m := a.node, a.event.sender, a.event.packet.msg.rrep;
            && x != d && m.hopCount < 255
            && (x != o ==> x in h && h[y].parent == x && h[y].hop == h[x].hop + 1)
            && (Known(s[x].table, d) ==> s[x].table[d].seqNo == m.dstSeqNo && (y == d ==> s[x].table[d].hops == 1))
  {
    hide Conserved;
    var x, y := a.node, a.event.sender;
    assert Relevant(s, h, y, a.event.packet, o, d);
    assert Rooted(h, y, o) && Rooted(h, d, o);
    if Known(s[x].table, d) && x != d {
      assert OnChain(s, h, x, o, d);
      assert Rooted(h, s[x].table[d].nextHop, o);
    }
  }

  /** The route a RREP leaves lies on the chain. */
  lemma ChainExtends(s: Net, h: History, x: Addr, r: Node, y: Addr, p: Packet, o: Addr, d: Addr)
    requires x in s && y in s && d in s && x != d && x != y && p.msg.Rrep?
    requires Relevant(s, h, y, p, o, d) && OnChain(s, h, x, o, d) && Replied(s[x].table, r.table, p.msg.rrep, y)
    requires Known(s[x].table, d) ==> s[x].table[d].seqNo == p.msg.rrep.dstSeqNo
    requires x != o ==> x in h && h[y].parent == x
    requires Known(s[x].table, d) ==> s[x].table[d].nextHop != x
    ensures OnChain(s[x := r], h, x, o, d)
  {
  }

  lemma PassedRelevant(s: Net, h: History, x: Addr, r: Node, y: Addr, p: Packet, q: Packet, o: Addr, d: Addr)
    requires x in s && y in s && d in s && x != d && x != o && x != y && x in h && p.msg.Rrep?
    requires Relevant(s, h, y, p, o, d) && Known(r.table, d) && h[y].parent == x && h[y].hop == h[x].hop + 1
    requires p.msg.rrep.hopCount < 255 && PassedAlong(q, p, r.table, o) && Entered(r.table, h, x, o)
    requires Rooted(h, x, o) && p.target == To(x) && (forall z :: z in h ==> h[z].id == h[x].id)
    ensures Relevant(s[x := r], h, x, q, o, d)
  {
  }

  /** The next hop of a route on the chain is another node. */
  lemma NotItself(s: Net, h: History, x: Addr, o: Addr, d: Addr, id: U32)
    requires DiscoveryInv(s, h, o, d, id) && x in s && x != d && Known(s[x].table, d)
    ensures s[x].table[d].nextHop != x
  {
    assert OnChain(s, h, x, o, d);
    if x != o {
      assert Rooted(h, s[x].table[d].nextHop, o);
    }
  }

  lemma ReplyDelivered(s: Net, h: History, a: Action, c: Config, o: Addr, d: Addr, id: U32)
    requires DiscoveryInv(s, h, o, d, id) && c.Sane() && Delivery(s, a, o, id) && a.event.packet.msg.Rrep?
    ensures Note(h, s, a, c, o) == h
    ensures NodeEffect(s, h, h, a.node, Handle(s[a.node], a.event, a.now, c), o, d)
    ensures a.node != d
    ensures Replied(s[a.node].table, Handle(s[a.node], a.event, a.now, c).table, a.event.packet.msg.rrep,
                    a.event.sender)
    ensures a.event.packet.msg.rrep.dst == d
  {
    hide Handle, OneTree, OnceInv, Lasting, RecordLives, RecvAodv, Takes, PassedAlong, Entered, ReplyHomes.HomeGuard;
    var x, p, y := a.node, a.event.packet, a.event.sender;
    var n, r := s[x], Handle(s[x], a.event, a.now, c);
    assert Relevant(s, h, y, p, o, d);
    NodeViews.HandleReceive(n, a.event, a.now, c);
    ReplyPlace(s, h, a, o, d, id);
    SoundNode(s, h, o, d, id, x);
    NotTaken(n, a.event, a.now, c, o);
    assert OnChain(s, h, x, o, d);
    ReplyTaken(n, p, y, a.now, c, o, d);
    if Known(n.table, d) {
      NotItself(s, h, x, o, d, id);
    }
    ChainExtends(s, h, x, r, y, p, o, d);
    if x != o {
      CalmEntry(s, h, a, c, o, d, id);
      RootedHere(s, h, o, d, id, x);
      forall q | q in r.sent && q !in n.sent
        ensures Relevant(s[x := r], h, x, q, o, d)
      {
        PassedRelevant(s, h, x, r, y, p, q, o, d);
      }
    }
  }

  lemma RootedHere(s: Net, h: History, o: Addr, d: Addr, id: U32, x: Addr)
    requires DiscoveryInv(s, h, o, d, id) && x in h
    ensures Rooted(h, x, o) && forall z :: z in h ==> h[z].id == h[x].id
  {
  }

  lemma CalmEntry(s: Net, h: History, a: Action, c: Config, o: Addr, d: Addr, id: U32)
    requires DiscoveryInv(s, h, o, d, id) && c.Sane() && Delivery(s, a, o, id) && a.node != o
    ensures Entered(Handle(s[a.node], a.event, a.now, c).table, Note(h, s, a, c, o), a.node, o)
  {
    hide Handle, Awake, Entered, OnceInv;
    DeliveryIsCalm(s, h, a, c, o, d, id);
    EntryKept(s, h, a, c, o);
  }

  lemma NotTaken(n: Node, ev: Event, now: int, c: Config, o: Addr)
    requires ev.Receive? && !ev.packet.msg.Rreq?
    ensures !Takes(n, ev, now, c, o)
  {
  }

  lemma RelevantKept(s: Net, h: History, h': History, x: Addr, r: Node, y: Addr, p: Packet, o: Addr, d: Addr)
    requires x in s && y in s && d in s && Relevant(s, h, y, p, o, d) && NodeEffect(s, h, h', x, r, o, d)
    requires forall z :: z in h ==> z in h' && h'[z] == h[z]
    ensures Relevant(s[x := r], h', y, p, o, d)
  {
  }

  lemma OnChainKept(s: Net, h: History, h': History, x: Addr, r: Node, z: Addr, o: Addr, d: Addr)
    requires x in s && z in s && d in s && z != x && z != d
    requires OnChain(s, h, z, o, d) && NodeEffect(s, h, h', x, r, o, d)
    requires forall y :: y in h ==> y in h' && h'[y] == h[y]
    ensures OnChain(s[x := r], h', z, o, d)
  {
  }

  lemma Delivered(s: Net, h: History, a: Action, c: Config, o: Addr, d: Addr, id: U32)
    requires DiscoveryInv(s, h, o, d, id) && c.Sane() && Delivery(s, a, o, id)
    ensures NodeEffect(s, h, Note(h, s, a, c, o), a.node, Handle(s[a.node], a.event, a.now, c), o, d)
  {
    hide DiscoveryInv, Handle, NodeEffect, Note;
    if a.event.packet.msg.Rreq? {
      RequestDelivered(s, h, a, c, o, d, id);
    } else {
      OnlyRelevant(s, h, a, o, d, id);
      ReplyDelivered(s, h, a, c, o, d, id);
    }
  }

  lemma OnlyRelevant(s: Net, h: History, a: Action, o: Addr, d: Addr, id: U32)
    requires DiscoveryInv(s, h, o, d, id) && Delivery(s, a, o, id)
    ensures a.event.packet.msg.Rreq? || a.event.packet.msg.Rrep?
  {
    assert Relevant(s, h, a.event.sender, a.event.packet, o, d);
  }

  /** Who has taken the RREQ remembers it. */
  lemma HeldKept(s: Net, h: History, a: Action, c: Config, o: Addr, d: Addr, id: U32)
    requires DiscoveryInv(s, h, o, d, id) && c.Sane() && Delivery(s, a, o, id)
    ensures var h', s' := Note(h, s, a, c, o), StepTo(s, a, c);
            && s'[o].requestId == id
            && forall x :: x in h' ==>
                 x in s' && C.Holds(s'[x].idCache, o, id) && (h'[x].parent == o ==> h'[x].hop == 1)
  {
    hide Handle, Unseen, Conserved, Entered, Rooted, Ahead, OnceInv, OnChain, C.Holds, C.Remember, C.Duplicate,
      C.Purge, RecordLives;
    var n, p := s[a.node], a.event.packet;
    SoundNode(s, h, o, d, id, a.node);
    FloodStep(n, a.event, a.now, c);
    assert Relevant(s, h, a.event.sender, p, o, d);
    LiveKeyStays(n.idCache, a.now, o, id);
    if p.msg.Rreq? {
      LiveKeyRemembered(n.idCache, o, id, a.now, c.pathDiscoveryTime, o, id);
    }
  }

  /** The originator's counter stands at the id of this flood, so the next one is another. */
  lemma NoSecondLaunch(s: Net, h: History, a: Action, o: Addr, d: Addr, id: U32)
    requires DiscoveryInv(s, h, o, d, id) && Delivery(s, a, o, id)
    ensures FloodLives(s[a.node], a.now, o, id)
  {
    hide Conserved, Tracked, Relevant, OnChain, Lasting, RecordLives, Entered;
    SoundNode(s, h, o, d, id, a.node);
  }

  lemma DiscoveryKept(s: Net, h: History, a: Action, c: Config, o: Addr, d: Addr, id: U32)
    requires DiscoveryInv(s, h, o, d, id) && c.Sane() && Delivery(s, a, o, id)
    ensures DiscoveryInv(StepTo(s, a, c), Note(h, s, a, c, o), o, d, id)
  {
    hide Handle, OneTree, OnceInv, ReplyHomes.HomeGuard, Note, Relevant, OnChain, C.Holds, Lasting, RecordLives,
      Authentic;
    var s', h', x := StepTo(s, a, c), Note(h, s, a, c, o), a.node;
    DeliveryIsCalm(s, h, a, c, o, d, id);
    OneTreeKept(s, h, a, c, o, id);
    NoSecondLaunch(s, h, a, o, d, id);
    OnceStep(s, a, c, o, id);
    HeldKept(s, h, a, c, o, d, id);
    OneTreeGrows(s, h, a, c, o, id);
    Delivered(s, h, a, c, o, d, id);
    forall y, p | y in s' && p in s'[y].sent
      ensures Relevant(s', h', y, p, o, d)
    {
      if p in s[y].sent {
        RelevantKept(s, h, h', x, s'[x], y, p, o, d);
      }
    }
    forall z | z in s' && z != d
      ensures OnChain(s', h', z, o, d)
    {
      if z != x {
        OnChainKept(s, h, h', x, s'[x], z, o, d);
      }
    }
  }

  // ------------------------------------------------------------------------------- whole discoveries

  ghost predicate DeliveryRun(s: Net, acts: seq<Action>, c: Config, o: Addr, id: U32)
    decreases |acts|
  {
    acts == [] || (Delivery(s, acts[0], o, id) && DeliveryRun(StepTo(s, acts[0], c), acts[1..], c, o, id))
  }

  lemma {:induction false} DiscoveryAlways(s: Net, h: History, acts: seq<Action>, c: Config, o: Addr, d: Addr, id: U32)
    requires DiscoveryInv(s, h, o, d, id) && c.Sane() && DeliveryRun(s, acts, c, o, id)
    ensures DiscoveryInv(Final(s, acts, c), FinalHistory(s, h, acts, c, o), o, d, id)
    decreases |acts|
  {
    hide DiscoveryInv, Awake, Note, Handle;
    if acts != [] {
      DiscoveryKept(s, h, acts[0], c, o, d, id);
      DiscoveryAlways(StepTo(s, acts[0], c), Note(h, s, acts[0], c, o), acts[1..], c, o, d, id);
    }
  }

  lemma {:induction false} InvMeansChain(s: Net, h: History, o: Addr, d: Addr, id: U32, x: Addr)
    requires DiscoveryInv(s, h, o, d, id) && x in s && x != d && Known(s[x].table, d)
    ensures Chain(s, x, d, s[x].table[d].hops)
    decreases s[x].table[d].hops
  {
    assert OnChain(s, h, x, o, d);
    var y := s[x].table[d].nextHop;
    if y != d {
      assert y != o by { assert TreeInv(s, h, o); }
      assert OnChain(s, h, y, o, d);
      assert Rooted(h, s[y].table[d].nextHop, o);
      InvMeansChain(s, h, o, d, id, y);
    }
  }

  /** A network that knows nothing and in which nothing has been sent. */
  ghost predicate Blank(s: Net) {
    Initial(s) && forall x :: x in s ==> s[x].idCache == []
  }

  /** The first search of a blank node. */
  lemma FirstSearch(n: Node, e: Q.QueueEntry, now: int, c: Config)
    requires n.table == map[] && n.sent == [] && c.Sane() && e.dst != UNSET
    ensures var r := DeferredRouteOutput(n, e, now, c);
            && !Known(r.table, e.dst)
            && forall p :: p in r.sent ==> p.msg.Rreq? && p.msg.rreq.origin == n.me && p.msg.rreq.dst == e.dst
                                           && p.msg.rreq.hopCount == 0 && p.msg.rreq.requestID == r.requestId
  {
    hide SendRequest, Q.Enqueue;
    var t := Purge(n.table, now, c.deletePeriod);
    assert t == map[];
    var n' := n.(table := t, queue := Q.Enqueue(n.queue, e, now, c.maxQueueLen, c.maxQueueTime));
    NodeViews.SendRequestView(n', e.dst, now, c);
    var r := SendRequest(n', e.dst, now, c);
    if n.rreqCount != c.rreqRateLimit {
      SettledView(r.table, now);
      assert ViewOf(t, now) == map[];
      assert e.dst in r.table ==> !ViewOf(r.table, now)[e.dst].validSeqNo;
    }
  }

  /** The originator's first packet for `d` starts a discovery. */
  lemma DiscoveryStarts(s: Net, o: Addr, e: Q.QueueEntry, now: int, c: Config)
    requires Blank(s) && o in s && e.dst in s && e.dst != o && c.Sane() && now >= 0
    ensures var a := Action(o, Output(e), now); var s' := StepTo(s, a, c);
            CanStep(s, a) && DiscoveryInv(s', map[], o, e.dst, s'[o].requestId)
  {
    hide DeferredRouteOutput, OnceInv, OneTree;
    var a := Action(o, Output(e), now);
    var s' := StepTo(s, a, c);
    FirstSearch(s[o], e, now, c);
    OnceStart(s, o, s'[o].requestId);
    OnceStep(s, a, c, o, s'[o].requestId);
    OneTreeStart(s, o, s'[o].requestId);
    OneTreeKept(s, map[], a, c, o, s'[o].requestId);
    assert forall x :: x in s && x != o ==> s'[x] == s[x];
  }

  lemma OneTreeStart(s: Net, o: Addr, id: U32)
    requires Blank(s) && o in s
    ensures OneTree(s, map[], o, id)
  {
  }

  /** A discovery builds exact routes: whenever and wherever the RREP of `d` has been, the routes it left
      are VALID, lead to `d`, and take exactly the number of hops stored in them. */
  lemma DiscoveryIsExact(s: Net, o: Addr, e: Q.QueueEntry, now: int, acts: seq<Action>, c: Config, x: Addr)
    requires Blank(s) && o in s && e.dst in s && e.dst != o && c.Sane() && now >= 0
    requires var s' := StepTo(s, Action(o, Output(e), now), c);
             && DeliveryRun(s', acts, c, o, s'[o].requestId) && x in Final(s', acts, c) && x != e.dst
             && Known(Final(s', acts, c)[x].table, e.dst)
    ensures var f := Final(StepTo(s, Action(o, Output(e), now), c), acts, c);
            Chain(f, x, e.dst, f[x].table[e.dst].hops)
  {
    hide Handle, DiscoveryInv, Blank, Final, Chain;
    var s' := StepTo(s, Action(o, Output(e), now), c);
    DiscoveryStarts(s, o, e, now, c);
    DiscoveryAlways(s', map[], acts, c, o, e.dst, s'[o].requestId);
    InvMeansChain(Final(s', acts, c), FinalHistory(s', map[], acts, c, o), o, e.dst, s'[o].requestId, x);
  }

  // ------------------------------------------------------------------------------- success

  /** The originator, and the nodes at most as far up as `z`, know nothing that has run out. */
  ghost predicate AwakeUpTo(s: Net, h: History, z: Addr, o: Addr, id: U32, now: int) {
    && o in s && Awake(s[o], now, o, id)
    && (z in h ==> forall x :: x in h && h[x].hop <= h[z].hop ==> x in s && Awake(s[x], now, o, id))
  }

  /** One more delivery on the way up. */
  lemma DeliverUp(s: Net, h: History, o: Addr, d: Addr, id: U32, y: Addr, p: Packet, now: int, c: Config)
    returns (q: Packet)
    requires DiscoveryInv(s, h, o, d, id) && c.Sane() && now >= 0
    requires y in s && p in s[y].sent && p.msg.Rrep? && p.target.To? && p.target.addr != o
    requires AwakeUpTo(s, h, p.target.addr, o, id, now)
    ensures p.target.addr in h && p.target.addr in s
    ensures var z := p.target.addr; var a := Action(z, Receive(p, y), now); var s' := StepTo(s, a, c);
            && Delivery(s, a, o, id) && DiscoveryInv(s', h, o, d, id)
            && q in s'[z].sent && q.msg.Rrep? && q.target.To? && AwakeUpTo(s', h, q.target.addr, o, id, now)
            && h[z].hop >= 1 && (q.target.addr != o ==> q.target.addr in h && h[q.target.addr].hop < h[z].hop)
            && p.msg.rrep.hopCount < 255 && q.msg.rrep.hopCount == p.msg.rrep.hopCount + 1
            && o in s' && s'[o] == s[o]
            && (Straight(s, h, o, now) ==> Straight(s', h, o, now) && q.target == To(h[z].parent))
  {
    hide DiscoveryInv, TreeInv, TreeGuard, Handle, Awake, Note, CanStep, PassedFrom, Proper, AwakeUpTo, Straight,
      Homeward, ViewOf;
    ReplyFacts(s, h, o, d, id, y, p);
    var z := p.target.addr;
    var a := Action(z, Receive(p, y), now);
    AddresseeKnows(s, h, o, d, id, y, p, now);
    q := ReplyHomes.OneHopUp(s, h, o, y, p, now, c);
    AwakeHere(s, h, z, o, id, now);
    ReplyFits(s, h, a, o, d, id);
    DiscoveryKept(s, h, a, c, o, d, id);
    HopsDown(s, h, o, d, id, z, q.target.addr);
    ReplyPassed(q, p);
    AwakeAbove(s, h, z, q.target.addr, StepTo(s, a, c), o, id, now);
    if Straight(s, h, o, now) {
      StraightUp(s, h, o, z, now, StepTo(s, a, c)[z]);
    }
  }

  /** Every node of the tree still uses the route along which it took the RREQ. */
  ghost predicate Straight(s: Net, h: History, o: Addr, now: int) {
    forall x :: x in h ==>
      x in s && o in ViewOf(s[x].table, now) && ViewOf(s[x].table, now)[o].nextHop == h[x].parent
      && (h[x].parent == o ==> h[x].hop == 1)
  }

  lemma StraightUp(s: Net, h: History, o: Addr, z: Addr, now: int, r: Node)
    requires z in h && z in s && Straight(s, h, o, now)
    requires o in ViewOf(r.table, now) && ViewOf(r.table, now)[o].nextHop == ViewOf(s[z].table, now)[o].nextHop
    ensures Straight(s[z := r], h, o, now) && ViewOf(s[z].table, now)[o].nextHop == h[z].parent
  {
    hide ViewOf;
  }

  /** In one flood upwards is closer. */
  lemma HopsDown(s: Net, h: History, o: Addr, d: Addr, id: U32, z: Addr, next: Addr)
    requires DiscoveryInv(s, h, o, d, id) && z in h && (next == o || ReplyHomes.Upward(h, z, next))
    ensures h[z].hop >= 1 && o !in h && (next != o ==> next in h && h[next].hop < h[z].hop)
  {
    hide OnceInv, Conserved, Relevant, OnChain, Entered, Ahead;
    assert Rooted(h, z, o);
  }

  /** How far the addressee is from the originator, at most. */
  function Level(h: History, p: Packet, o: Addr): int {
    if p.target.To? && p.target.addr != o && p.target.addr in h then h[p.target.addr].hop else 0
  }

  /** A node of the tree of which nothing has run out still has its route to `o`; and the RREP has TTL enough. */
  lemma AddresseeKnows(s: Net, h: History, o: Addr, d: Addr, id: U32, y: Addr, p: Packet, now: int)
    requires DiscoveryInv(s, h, o, d, id) && y in s && p in s[y].sent && p.msg.Rrep?
    requires p.target.To? && p.target.addr != o && AwakeUpTo(s, h, p.target.addr, o, id, now)
    ensures var z := p.target.addr; z in h && z in s && z != y && p.ttl >= 2 && o in ViewOf(s[z].table, now)
  {
    hide Conserved, OnceInv, OnChain, Ahead;
    var z := p.target.addr;
    assert Relevant(s, h, y, p, o, d);
    assert Rooted(h, z, o) && Rooted(h, y, o);
    assert Entered(s[z].table, h, z, o) && Awake(s[z], now, o, id);
  }

  lemma ReplyPassed(q: Packet, p: Packet)
    requires PassedFrom(q, p)
    ensures q.msg.Rrep? && p.msg.Rrep? && q.msg.rrep.hopCount == Bump8(p.msg.rrep.hopCount)
  {
  }

  lemma ReplyFits(s: Net, h: History, a: Action, o: Addr, d: Addr, id: U32)
    requires DiscoveryInv(s, h, o, d, id) && Delivery(s, a, o, id) && a.event.packet.msg.Rrep?
    ensures a.event.packet.msg.rrep.hopCount < 255 && o in s
  {
    ReplyPlace(s, h, a, o, d, id);
  }

  lemma ReplyFacts(s: Net, h: History, o: Addr, d: Addr, id: U32, y: Addr, p: Packet)
    requires DiscoveryInv(s, h, o, d, id) && y in s && p in s[y].sent && p.msg.Rrep?
    ensures TreeInv(s, h, o) && Homeward(p, o) && Proper(p.msg) && y != o
  {
    assert Relevant(s, h, y, p, o, d);
    SoundNode(s, h, o, d, id, d);
    SoundNode(s, h, o, d, id, y);
  }

  lemma AwakeHere(s: Net, h: History, z: Addr, o: Addr, id: U32, now: int)
    requires AwakeUpTo(s, h, z, o, id, now) && z in h
    ensures z in s && Awake(s[z], now, o, id)
  {
  }

  lemma AwakeAbove(s: Net, h: History, z: Addr, z': Addr, s': Net, o: Addr, id: U32, now: int)
    requires AwakeUpTo(s, h, z, o, id, now) && z in h && z != o
    requires s'.Keys == s.Keys && (forall x :: x in s && x != z ==> s'[x] == s[x])
    requires z' != o ==> z' in h && h[z'].hop < h[z].hop
    requires o !in h
    ensures AwakeUpTo(s', h, z', o, id, now)
  {
    hide Awake;
  }

  /** The route from a RREP at the originator that knew none: as long as the deliveries it took. */
  ghost predicate Arrived(s: Net, f: Net, h: History, o: Addr, d: Addr, p: Packet, deliveries: nat, now: int)
    requires p.msg.Rrep? && o in s
  {
    && o in f && Known(f[o].table, d) && Chain(f, o, d, f[o].table[d].hops)
    && (!Known(s[o].table, d) ==> f[o].table[d].hops == p.msg.rrep.hopCount + deliveries)
    && deliveries <= 1 + Max(0, Level(h, p, o))
    && (Straight(s, h, o, now) ==> deliveries == 1 + Level(h, p, o))
  }

  /** A discovery succeeds: once a RREP of the discovery is on the air, delivering it hop by hop takes it to
      the originator, who then has a VALID route, of exactly the stored length, all the way to `d`. */
  lemma {:induction false} DiscoverySucceeds(s: Net, h: History, o: Addr, d: Addr, id: U32, y: Addr, p: Packet,
                                             now: int, c: Config) returns (acts: seq<Action>)
    requires DiscoveryInv(s, h, o, d, id) && c.Sane() && now >= 0
    requires y in s && p in s[y].sent && p.msg.Rrep? && o in s
    requires p.target.To? && AwakeUpTo(s, h, p.target.addr, o, id, now)
    ensures DeliveryRun(s, acts, c, o, id) && Arrived(s, Final(s, acts, c), h, o, d, p, |acts|, now)
    decreases if p.target.addr != o && p.target.addr in h then Max(0, h[p.target.addr].hop) + 1 else 0
  {
    hide DiscoveryInv, Handle, Chain, Awake, CanStep, Straight, Known;
    var z := p.target.addr;
    var a := Action(z, Receive(p, y), now);
    if z == o {
      LastDelivery(s, h, o, d, id, y, p, now, c);
      acts := [a];
      assert acts[1..] == [];
      assert Final(s, acts, c) == StepTo(s, a, c);
    } else {
      var q := DeliverUp(s, h, o, d, id, y, p, now, c);
      OriginHasNone(s, h, o, d, id);
      if Straight(s, h, o, now) {
        OneLevelUp(s, h, o, d, id, z, q, now);
      }
      var rest := DiscoverySucceeds(StepTo(s, a, c), h, o, d, id, z, q, now, c);
      acts := [a] + rest;
      assert acts[1..] == rest;
    }
  }

  lemma OriginHasNone(s: Net, h: History, o: Addr, d: Addr, id: U32)
    requires DiscoveryInv(s, h, o, d, id)
    ensures o !in h
  {
    SoundNode(s, h, o, d, id, o);
  }

  lemma OneLevelUp(s: Net, h: History, o: Addr, d: Addr, id: U32, z: Addr, q: Packet, now: int)
    requires DiscoveryInv(s, h, o, d, id) && Straight(s, h, o, now) && z in h && q.target == To(h[z].parent)
    ensures Level(h, q, o) == h[z].hop - 1 >= 0
  {
    hide OnceInv, Conserved, Relevant, OnChain, Entered, Ahead;
    assert Rooted(h, z, o);
    if h[z].parent != o {
      assert Rooted(h, h[z].parent, o);
    }
  }

  /** The RREP reaches the originator. */
  lemma LastDelivery(s: Net, h: History, o: Addr, d: Addr, id: U32, y: Addr, p: Packet, now: int, c: Config)
    requires DiscoveryInv(s, h, o, d, id) && c.Sane() && now >= 0 && o in s && Awake(s[o], now, o, id)
    requires y in s && p in s[y].sent && p.msg.Rrep? && p.target == To(o)
    ensures var a := Action(o, Receive(p, y), now); var s' := StepTo(s, a, c);
            && Delivery(s, a, o, id) && Known(s'[o].table, d) && Chain(s', o, d, s'[o].table[d].hops)
            && (!Known(s[o].table, d) ==> s'[o].table[d].hops == p.msg.rrep.hopCount + 1)
  {
    hide DiscoveryInv, Handle, Note, Lasting, RecordLives, NodeEffect, Chain;
    ReplyFacts(s, h, o, d, id, y, p);
    SoundOrigin(s, h, o, d, id);
    InNet(s, h, o, d, id);
    var a := Action(o, Receive(p, y), now);
    ReplyDelivered(s, h, a, c, o, d, id);
    DiscoveryKept(s, h, a, c, o, d, id);
    InvMeansChain(StepTo(s, a, c), Note(h, s, a, c, o), o, d, id, o);
  }

  // ------------------------------------------------------------------------------- from the first packet

  /** The destination answers the first copy of the RREQ that reaches it, towards the node it came from. */
  lemma DestinationReplies(n: Node, p: Packet, src: Addr, now: int, c: Config, o: Addr, d: Addr) returns (q: Packet)
    requires WellFormed(n.table) && c.Sane() && now >= 0 && NodeViews.QuietLinks(n, now) && n.me == d && o != UNSET
             && d != UNSET
    requires p.msg.Rreq? && p.msg.rreq.origin == o && p.msg.rreq.dst == d && o != d && Unseen(n, p, src, now, c)
    ensures var r := RecvAodv(n, p, src, now, c);
            && q in r.sent && q.msg.Rrep? && q.target == To(src) && q.msg.rrep.hopCount == 0
            && q.msg.rrep.dst == d && q.msg.rrep.origin == o && q.msg.rrep.dstSeqNo == r.seqNo
            && o in ViewOf(r.table, now) && ViewOf(r.table, now)[o].nextHop == src
  {
    hide AcceptRequest, AnswerOrRelay, UpdateRouteToNeighbor, ViewOf;
    var m := p.msg.rreq;
    UpdateRouteToNeighborView(n.table, src, now, c);
    var n1 := n.(table := UpdateRouteToNeighbor(n.table, src, now, c));
    PurgeView(n1.table, now, c.deletePeriod);
    NodeViews.AcceptRequestView(n1, m, src, now, c);
    var a := AcceptRequest(n1, m, src, now, c);
    var w := NodeViews.RequestedView(ViewOf(n1.table, now), m, src, c);
    assert o in w && w[o].nextHop == src;
    var m1 := m.(hopCount := Bump8(m.hopCount));
    NodeViews.AnswerOrRelayView(a, m1, p.ttl, src, now, c);
    var r := AnswerOrRelay(a, m1, p.ttl, src, now, c);
    q := NodeViews.OwnReply(r, m1, w[o], c);
    assert q in r.sent;
  }

  /** The RREQ reaches the destination, and its answer sets off. */
  lemma DestinationAnswers(s: Net, h: History, o: Addr, d: Addr, id: U32, y: Addr, p: Packet, now: int, c: Config)
    returns (q: Packet)
    requires DiscoveryInv(s, h, o, d, id) && c.Sane() && now >= 0
    requires y in s && p in s[y].sent && p.msg.Rreq? && p.target == Broadcast && Awake(s[d], now, o, id)
    requires p.msg.rreq.requestID == id
    requires Unseen(s[d], p, y, now, c)
    ensures var a := Action(d, Receive(p, y), now); var s' := StepTo(s, a, c); var h' := Note(h, s, a, c, o);
            && Delivery(s, a, o, id) && DiscoveryInv(s', h', o, d, id)
            && q in s'[d].sent && q.msg.Rrep? && q.target == To(y) && q.msg.rrep.hopCount == 0
            && h' == h[d := Seen(p.msg.rreq.requestID, p.msg.rreq.hopCount + 1, y)]
            && (Straight(s, h, o, now) ==> Straight(s', h', o, now)) && s'[o] == s[o]
  {
    hide OneTree, OnceInv, Handle, Unseen, ViewOf, RecvAodv, NodeEffect, OnChain, Awake;
    assert Relevant(s, h, y, p, o, d);
    AwakeLasts(s[d], now, o, id);
    SoundNode(s, h, o, d, id, d);
    SoundNode(s, h, o, d, id, y);
    SoundOrigin(s, h, o, d, id);
    var a := Action(d, Receive(p, y), now);
    q := DestinationReplies(s[d], p, y, now, c, o, d);
    NodeViews.HandleReceive(s[d], a.event, now, c);
    DiscoveryKept(s, h, a, c, o, d, id);
  }

  lemma AwakeLasts(n: Node, now: int, o: Addr, id: U32)
    requires Awake(n, now, o, id)
    ensures Lasting(n, now) && NodeViews.QuietLinks(n, now)
  {
  }

  lemma SoundOrigin(s: Net, h: History, o: Addr, d: Addr, id: U32)
    requires DiscoveryInv(s, h, o, d, id)
    ensures o in s && o != UNSET && d != UNSET && o != d
  {
    SoundNode(s, h, o, d, id, d);
  }

  /** From a RREQ on the air to a route at the originator. */
  lemma DiscoveryCompletes(s: Net, h: History, o: Addr, d: Addr, id: U32, y: Addr, p: Packet, now: int, c: Config)
    returns (acts: seq<Action>)
    requires DiscoveryInv(s, h, o, d, id) && c.Sane() && now >= 0 && (forall x :: x in s ==> Awake(s[x], now, o, id))
    requires y in s && p in s[y].sent && p.msg.Rreq? && p.target == Broadcast && Unseen(s[d], p, y, now, c)
    requires p.msg.rreq.requestID == id
    ensures DeliveryRun(s, acts, c, o, id)
    ensures var f := Final(s, acts, c);
            && o in s && o in f && Known(f[o].table, d) && Chain(f, o, d, f[o].table[d].hops)
            && (Straight(s, h, o, now) && !Known(s[o].table, d) ==> f[o].table[d].hops == p.msg.rreq.hopCount + 1)
  {
    hide DiscoveryInv, Handle, Chain, Awake, CanStep, Unseen, Note, AwakeUpTo, Straight, Known;
    SoundOrigin(s, h, o, d, id);
    InNet(s, h, o, d, id);
    var q := DestinationAnswers(s, h, o, d, id, y, p, now, c);
    var a := Action(d, Receive(p, y), now);
    var s', h' := StepTo(s, a, c), Note(h, s, a, c, o);
    OthersAwake(s, s', h', o, d, id, y, now);
    var rest := DiscoverySucceeds(s', h', o, d, id, d, q, now, c);
    if Straight(s', h', o, now) {
      OneLevelUp(s', h', o, d, id, d, q, now);
    }
    acts := [a] + rest;
    assert acts[1..] == rest;
  }

  lemma InNet(s: Net, h: History, o: Addr, d: Addr, id: U32)
    requires DiscoveryInv(s, h, o, d, id)
    ensures d in s && o != d
  {
  }

  lemma OneBelow(s: Net, h: History, o: Addr, d: Addr, id: U32, x: Addr)
    requires DiscoveryInv(s, h, o, d, id) && x in h
    ensures o !in h && (h[x].parent != o ==> h[x].parent in h && h[h[x].parent].hop + 1 == h[x].hop)
    ensures forall z :: z in h ==> z in s
  {
    hide OnceInv, Conserved, Relevant, OnChain, Entered, Ahead;
    assert Rooted(h, x, o);
  }

  /** The nodes above the destination have not been touched. */
  lemma OthersAwake(s: Net, s': Net, h': History, o: Addr, d: Addr, id: U32, y: Addr, now: int)
    requires DiscoveryInv(s', h', o, d, id) && s'.Keys == s.Keys && (forall x :: x in s && x != d ==> s'[x] == s[x])
    requires (forall x :: x in s ==> Awake(s[x], now, o, id)) && d in h' && h'[d].parent == y && o in s && o != d
    ensures AwakeUpTo(s', h', y, o, id, now)
  {
    hide Awake, DiscoveryInv;
    OneBelow(s', h', o, d, id, d);
  }

  // ------------------------------------------------------------------------------- along any path

  /** A node that knows nothing but its address. */
  ghost predicate Empty(n: Node) {
    n.table == map[] && n.idCache == [] && n.nb == []
  }

  /** The attributes give the routes of a RREQ that has come `hops` hops time to live. */
  ghost predicate Patient(c: Config, hops: nat) {
    c.Sane() && c.pathDiscoveryTime >= 0 && forall k :: 0 <= k <= hops ==> c.netTraversalTime >= k * c.nodeTraversalTime
  }

  /** An empty node passes a RREQ on, and what it has learnt will last. */
  lemma EmptyRelays(n: Node, p: Packet, src: Addr, now: int, c: Config, o: Addr, d: Addr) returns (q: Packet)
    requires Empty(n) && now >= 0 && p.msg.Rreq? && p.msg.rreq.origin == o && p.msg.rreq.dst == d && p.ttl >= 2
    requires p.msg.rreq.hopCount < 255 && Patient(c, p.msg.rreq.hopCount + 1)
    requires n.me != d && src != d && o != d && n.me != o && o != UNSET && src != UNSET && d != UNSET
    ensures var r := RecvAodv(n, p, src, now, c);
            && q in r.sent && q.target == Broadcast && RelayOf(q, p)
            && Awake(r, now, o, p.msg.rreq.requestID)
            && o in ViewOf(r.table, now) && ViewOf(r.table, now)[o].nextHop == src
  {
    hide AcceptRequest, AnswerOrRelay, UpdateRouteToNeighbor, C.Remember;
    var m, m1 := p.msg.rreq, p.msg.rreq.(hopCount := p.msg.rreq.hopCount + 1);
    var n1 := n.(table := UpdateRouteToNeighbor(n.table, src, now, c));
    EmptyAccepts(n, p, src, now, c, o);
    var a := AcceptRequest(n1, m, src, now, c);
    assert AnswerOrRelay(a, m1, p.ttl, src, now, c) == Relay(a, m1, p.ttl) by {
      NotKnownRelays(a, m1, p.ttl, src, now, c);
    }
    var r := RecvAodv(n, p, src, now, c);
    assert r == Relay(a, m1, p.ttl) by { EmptyTakes(n, n1, p, src, now, c); }
    q := Packet(Rreq(m1), p.ttl - 1, Broadcast);
  }

  /** A destination not in the table: the RREQ goes on. */
  lemma NotKnownRelays(a: Node, m: RreqHeader, ttl: U8, src: Addr, now: int, c: Config)
    requires m.dst != a.me && m.dst !in a.table && Purge(a.table, now, c.deletePeriod) == a.table
    ensures AnswerOrRelay(a, m, ttl, src, now, c) == Relay(a, m, ttl)
  {
    hide Purge, Relay;
  }

  lemma EmptyTakes(n: Node, n1: Node, p: Packet, src: Addr, now: int, c: Config)
    requires Empty(n) && p.msg.Rreq? && p.msg.rreq.hopCount < 255
             && n1 == n.(table := UpdateRouteToNeighbor(n.table, src, now, c))
    ensures var m := p.msg.rreq;
            RecvAodv(n, p, src, now, c)
            == AnswerOrRelay(AcceptRequest(n1, m, src, now, c), m.(hopCount := m.hopCount + 1), p.ttl, src, now, c)
  {
    hide AcceptRequest, AnswerOrRelay;
    assert Purge(n.table, now, c.deletePeriod) == map[];
  }

  /** What an empty node knows once it has taken a RREQ. */
  lemma EmptyAccepts(n: Node, p: Packet, src: Addr, now: int, c: Config, o: Addr)
    requires Empty(n) && now >= 0 && p.msg.Rreq? && p.msg.rreq.origin == o && p.msg.rreq.hopCount < 255
    requires Patient(c, p.msg.rreq.hopCount + 1) && o != UNSET && src != UNSET
    ensures var n1 := n.(table := UpdateRouteToNeighbor(n.table, src, now, c));
            var a := AcceptRequest(n1, p.msg.rreq, src, now, c);
            && a.me == n.me && a.sent == n.sent && a.table.Keys == {o, src} && a.table[o].nextHop == src
            && Purge(a.table, now, c.deletePeriod) == a.table && Awake(a, now, o, p.msg.rreq.requestID)
            && o in ViewOf(a.table, now) && ViewOf(a.table, now)[o].nextHop == src
  {
    hide UpdateRouteToNeighbor, ReverseRoute, NeighborRoute, NbUpdate, SequenceNumbers.SeqDiff;
    var m := p.msg.rreq.(hopCount := p.msg.rreq.hopCount + 1);
    EmptyRefresh(src, now, c);
    var t0 := UpdateRouteToNeighbor(n.table, src, now, c);
    FreshStays(t0, now, c.deletePeriod);
    EmptyReverse(t0, m, src, now, c);
    var t1 := ReverseRoute(t0, m, src, now, c);
    EmptyNeighbor(t1, m, src, now, c);
    var t2 := NeighborRoute(t1, m.originSeqNo, src, now, c);
    var cache := C.Remember(n.idCache, o, m.requestID, now, c.pathDiscoveryTime);
    assert cache == [C.UniqueId(o, m.requestID, now + c.pathDiscoveryTime)];
    var met := n.(table := t2, idCache := cache);
    EmptyMeets(met, src, now, c);
    FreshStays(t2, now, c.deletePeriod);
    assert AcceptRequest(n.(table := t0), p.msg.rreq, src, now, c) == NbUpdate(met, src, c.helloLifetime, now, c);
  }

  /** Every entry is a route that lasts. */
  ghost predicate Fresh(t: Table, now: int) {
    forall k :: k in t ==> t[k].dst == k && t[k].flag == VALID && t[k].expire >= now && t[k].reqCount == 0
  }

  lemma FreshStays(t: Table, now: int, bad: int)
    requires Fresh(t, now)
    ensures Purge(t, now, bad) == t
  {
  }

  lemma EmptyRefresh(src: Addr, now: int, c: Config)
    requires c.Sane()
    ensures var t := UpdateRouteToNeighbor(map[], src, now, c);
            t.Keys == {src} && Fresh(t, now) && t[src].hops == 1 && !t[src].blacklisted
  {
    assert Purge(map[], now, c.deletePeriod) == map[];
  }

  lemma EmptyReverse(t: Table, m: RreqHeader, src: Addr, now: int, c: Config)
    requires t.Keys == {src} && Fresh(t, now) && Patient(c, m.hopCount)
    ensures var r := ReverseRoute(t, m, src, now, c);
            r.Keys == {m.origin, src} && Fresh(r, now) && r[m.origin].nextHop == src
  {
    hide SequenceNumbers.SeqDiff;
    FreshStays(t, now, c.deletePeriod);
    assert c.netTraversalTime >= m.hopCount * c.nodeTraversalTime;
    assert 2 * c.netTraversalTime - 2 * m.hopCount * c.nodeTraversalTime >= 0 by {
      assert 2 * m.hopCount * c.nodeTraversalTime == 2 * (m.hopCount * c.nodeTraversalTime);
    }
  }

  lemma EmptyNeighbor(t: Table, m: RreqHeader, src: Addr, now: int, c: Config)
    requires t.Keys == {m.origin, src} && Fresh(t, now) && c.Sane() && t[m.origin].nextHop == src
    ensures var r := NeighborRoute(t, m.originSeqNo, src, now, c);
            r.Keys == {m.origin, src} && Fresh(r, now) && r[m.origin].nextHop == src
  {
    FreshStays(t, now, c.deletePeriod);
  }

  lemma EmptyMeets(n: Node, src: Addr, now: int, c: Config)
    requires n.nb == [] && c.Sane()
    ensures var r := NbUpdate(n, src, c.helloLifetime, now, c); r == n.(nb := r.nb) && NodeViews.QuietLinks(r, now)
  {
    var added := [Neighbor(src, now + c.helloLifetime, false)];
    assert [] + added == added && added[1..] == [];
    assert Filter(added, Nodes.Open(now)) == added;
    assert BreakLinks(n.(nb := added), added, now, c) == n.(nb := added);
  }

  /** The RREQ goes along the path and the RREP comes back. */
  lemma {:induction false} CompletesAlong(s: Net, h: History, o: Addr, d: Addr, id: U32, y: Addr, p: Packet,
                                          path: seq<Addr>, now: int, c: Config) returns (acts: seq<Action>)
    requires DiscoveryInv(s, h, o, d, id) && now >= 0 && o in s && !Known(s[o].table, d)
    requires (forall x :: x in s ==> Awake(s[x], now, o, id)) && Straight(s, h, o, now)
    requires y in s && p in s[y].sent && p.msg.Rreq? && p.target == Broadcast && p.msg.rreq.requestID == id
    requires p.ttl > |path| && p.msg.rreq.hopCount + |path| < 255 && Patient(c, p.msg.rreq.hopCount + |path| + 1)
    requires NoDuplicates(path) && (forall x :: x in path ==> x in s && x != o && x != d && x != y && Empty(s[x]))
    requires Empty(s[d])
    ensures DeliveryRun(s, acts, c, o, id)
    ensures var f := Final(s, acts, c);
            && o in f && Known(f[o].table, d) && Chain(f, o, d, f[o].table[d].hops)
            && f[o].table[d].hops == p.msg.rreq.hopCount + 1 + |path|
    decreases |path|
  {
    hide DiscoveryInv, Handle, Chain, Awake, CanStep, Unseen, Note, Straight, Known, Patient, RelayOf;
    assert c.Sane() by { PatientIsSane(c, p.msg.rreq.hopCount + |path| + 1); }
    if path == [] {
      InNet(s, h, o, d, id);
      EmptyUnseen(s[d], p, y, now, c);
      acts := DiscoveryCompletes(s, h, o, d, id, y, p, now, c);
    } else {
      var x := path[0];
      var a := Action(x, Receive(p, y), now);
      assert x in path;
      assert Patient(c, p.msg.rreq.hopCount + 1) by {
        LessPatient(c, p.msg.rreq.hopCount + |path| + 1, p.msg.rreq.hopCount + 1);
      }
      var q := RelayStep(s, h, o, d, id, y, p, x, now, c);
      var s', h' := StepTo(s, a, c), Note(h, s, a, c, o);
      assert forall z :: z in path[1..] ==> z in path && z != x;
      var rest := CompletesAlong(s', h', o, d, id, x, q, path[1..], now, c);
      acts := [a] + rest;
      assert acts[1..] == rest;
    }
  }

  lemma PatientIsSane(c: Config, hops: nat)
    requires Patient(c, hops)
    ensures c.Sane() && c.pathDiscoveryTime >= 0
  {
  }

  lemma LessPatient(c: Config, hops: nat, fewer: nat)
    requires Patient(c, hops) && fewer <= hops
    ensures Patient(c, fewer)
  {
  }

  lemma EmptyUnseen(n: Node, p: Packet, src: Addr, now: int, c: Config)
    requires Empty(n) && p.msg.Rreq?
    ensures Unseen(n, p, src, now, c)
  {
    assert Purge(n.table, now, c.deletePeriod) == map[];
  }

  /** One relay takes the RREQ and passes it on. */
  lemma RelayStep(s: Net, h: History, o: Addr, d: Addr, id: U32, y: Addr, p: Packet, x: Addr, now: int, c: Config)
    returns (q: Packet)
    requires DiscoveryInv(s, h, o, d, id) && c.Sane() && now >= 0 && o in s
    requires (forall z :: z in s ==> Awake(s[z], now, o, id)) && Straight(s, h, o, now)
    requires y in s && p in s[y].sent && p.msg.Rreq? && p.target == Broadcast && p.msg.rreq.requestID == id
    requires p.ttl >= 2 && p.msg.rreq.hopCount < 255 && Patient(c, p.msg.rreq.hopCount + 1)
    requires x in s && x != o && x != d && x != y && Empty(s[x])
    ensures var a := Action(x, Receive(p, y), now); var s' := StepTo(s, a, c); var h' := Note(h, s, a, c, o);
            && Delivery(s, a, o, id) && DiscoveryInv(s', h', o, d, id)
            && (forall z :: z in s' ==> Awake(s'[z], now, o, id)) && Straight(s', h', o, now)
            && q in s'[x].sent && q.msg.Rreq? && q.target == Broadcast && q.msg.rreq.requestID == id
            && q.ttl == p.ttl - 1 && q.msg.rreq.hopCount == p.msg.rreq.hopCount + 1
  {
    hide OneTree, OnceInv, Handle, Unseen, ViewOf, RecvAodv, NodeEffect, Lasting, RecordLives;
    assert Relevant(s, h, y, p, o, d);
    SoundNode(s, h, o, d, id, x);
    SoundNode(s, h, o, d, id, y);
    SoundOrigin(s, h, o, d, id);
    var a := Action(x, Receive(p, y), now);
    q := EmptyRelays(s[x], p, y, now, c, o, d);
    EmptyUnseen(s[x], p, y, now, c);
    NodeViews.HandleReceive(s[x], a.event, now, c);
    DiscoveryKept(s, h, a, c, o, d, id);
  }
}
