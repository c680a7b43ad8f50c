/** What the smaller handlers achieve: a used route stays up, the destination's answer is no older than
    asked for, both ends of a relayed route learn who relies on them, an acknowledgement brings a route
    back, and a HELLO becomes a route at whoever hears it. */
module HandlerEffects {
  import opened Basics
  import opened SequenceNumbers
  import opened Headers
  import opened RouteEntries
  import opened Nodes
  import opened RouteViews
  import NodeViews
  import LinkBreaks

  // ------------------------------------------------------------------------------- route lifetimes

  /** Using a VALID route never shortens its life and changes nothing else. */
  lemma UsedRoute(t: Table, addr: Addr, lifetime: int, now: int, c: Config)
    requires WellFormed(t) && c.Sane()
    ensures var p, r := Purge(t, now, c.deletePeriod), UpdateRouteLifeTime(t, addr, lifetime, now, c);
            && r.Keys == p.Keys && (forall k :: k in p && (k != addr || !ValidRoute(p, addr)) ==> r[k] == p[k])
            && (ValidRoute(p, addr) ==>
                  addr in t && r[addr] == t[addr].(expire := Max(now + lifetime, t[addr].expire)))
  {
  }

  /** So at any later moment the route is still VALID exactly until the later of the two deadlines. */
  lemma UsedRouteStays(t: Table, addr: Addr, lifetime: int, now: int, later: int, c: Config)
    requires WellFormed(t) && c.Sane() && ValidRoute(Purge(t, now, c.deletePeriod), addr)
    ensures addr in t
    ensures ValidRoute(Purge(UpdateRouteLifeTime(t, addr, lifetime, now, c), later, c.deletePeriod), addr)
       <==> later <= Max(now + lifetime, t[addr].expire)
  {
    UsedRoute(t, addr, lifetime, now, c);
  }

  /** The route to a neighbour that has been heard: there is one afterwards, a one-hop route with a known number
      is left as it is, and everything else gives way to a new one-hop route. */
  lemma NeighborHeard(t: Table, sender: Addr, now: int, c: Config)
    requires c.Sane()
    ensures var p, r := Purge(t, now, c.deletePeriod), UpdateRouteToNeighbor(t, sender, now, c);
            && r.Keys == p.Keys + {sender} && (forall k :: k in p && k != sender ==> r[k] == p[k])
            && (Straight(p, sender) ==> r[sender] == p[sender])
            && (!Straight(p, sender) ==>
                  r[sender] == Entry(sender, false, 0, 1,
                                     if sender in p then Max(now + c.activeRouteTimeout, p[sender].expire)
                                     else now + c.activeRouteTimeout,
                                     sender, true, VALID, [], 0, false, now))
  {
    PurgeIdempotent(t, now, c.deletePeriod);
  }

  /** A one-hop entry with a known number. */
  predicate Straight(t: Table, k: Addr) {
    k in t && t[k].validSeqNo && t[k].hops == 1 && t[k].bound
  }

  /** So the route to a neighbour that has been heard is VALID at any later moment exactly until the route
      timeout has passed or the deadline it had before, whichever comes later; a one-hop route with a known
      number keeps the deadline and the flag it had. */
  lemma HeardStays(t: Table, sender: Addr, now: int, later: int, c: Config)
    requires c.Sane()
    ensures var p, r := Purge(t, now, c.deletePeriod), UpdateRouteToNeighbor(t, sender, now, c);
            ValidRoute(Purge(r, later, c.deletePeriod), sender)
            <==> if Straight(p, sender) then p[sender].flag == VALID && later <= p[sender].expire
                 else later <= now + c.activeRouteTimeout || (sender in p && later <= p[sender].expire)
  {
    hide UpdateRouteToNeighbor;
    NeighborHeard(t, sender, now, c);
  }

  // ------------------------------------------------------------------------------- the destination's answer

  /** The answer carries the destination's number after the call, which has advanced by at most one; it is
      no older than the number asked for exactly when that is at most one ahead of the destination's own. */
  lemma AnswerIsCurrent(n: Node, m: RreqHeader, toOrigin: Entry, c: Config)
    ensures var r := SendReply(n, m, toOrigin, c);
            && |r.sent| == |n.sent| + 1 && n.sent < r.sent
            && var p := r.sent[|n.sent|];
               && p.msg.Rrep? && p.msg.rrep.dst == m.dst && p.msg.rrep.origin == toOrigin.dst
               && p.msg.rrep.hopCount == 0 && p.msg.rrep.dstSeqNo == r.seqNo && !p.msg.rrep.AckRequired()
               && p.target == To(toOrigin.nextHop) && p.ttl == toOrigin.hops % 0x100
               && p.msg.rrep.lifeTime == Millis(c.myRouteTimeout)
               && p.msg.rrep.flags == 0 && p.msg.rrep.prefixSize == 0
    ensures var r := SendReply(n, m, toOrigin, c);
            && r == n.(seqNo := r.seqNo, sent := r.sent)
            && r.seqNo == (if !m.UnknownSeqno() && SeqDiff(m.dstSeqNo, n.seqNo) == 1 then m.dstSeqNo else n.seqNo)
            && 0 <= SeqDiff(r.seqNo, n.seqNo) <= 1
            && (!m.UnknownSeqno() ==>
                  (SeqDiff(r.seqNo, m.dstSeqNo) >= 0 <==> -HALF < SeqDiff(m.dstSeqNo, n.seqNo) <= 1))
            && (m.UnknownSeqno() ==> r.seqNo == n.seqNo)
  {
    NextAhead(n.seqNo, n.seqNo);
    SeqDiffFlips(n.seqNo, m.dstSeqNo);
    var r := SendReply(n, m, toOrigin, c);
    assert r.sent[|n.sent|].msg.rrep.flags == 0;
  }

  lemma SeqDiffFlips(a: U32, b: U32)
    ensures SeqDiff(a, b) > -HALF ==> SeqDiff(b, a) == -SeqDiff(a, b)
    ensures SeqDiff(a, b) == -HALF ==> SeqDiff(b, a) == -HALF
    ensures SeqDiff(b, a) == 1 ==> b == Next(a)
    ensures SeqDiff(a, a) == 0
  {
    Unwrapped(a, b);
    Unwrapped(b, a);
  }

  // ------------------------------------------------------------------------------- precursors

  /** Who relies on the entry of `k` once a RREP for `dst` has passed on its way to `toOrigin`: the next hop
      towards the origin relies on the route to `dst` and on its next hop, and the next hop towards `dst` on
      the route to the origin and on its next hop. Where the route to `dst` leads through the origin itself,
      that entry is written back without the first of the two. */
  function Relying(t: Table, dst: Addr, toOrigin: Entry, k: Addr): set<Addr>
    requires dst in t && k in t
  {
    Elements(t[k].precursors)
    + (if k == dst || (k == t[dst].nextHop && k != toOrigin.dst) then {toOrigin.nextHop} else {})
    + (if k == toOrigin.dst || k == toOrigin.nextHop then {t[dst].nextHop} else {})
  }

  /** One precursor more for the entry of `at`, and nothing else. */
  ghost predicate Added(t: Table, r: Table, at: Addr, id: Addr) {
    && r.Keys == t.Keys
    && forall k :: k in t && k != UNSET ==>
         && r[k] == t[k].(precursors := r[k].precursors)
         && Elements(r[k].precursors) == Elements(t[k].precursors) + (if k == at then {id} else {})
  }

  lemma InsertElement(e: Entry, id: Addr)
    ensures Elements(e.InsertPrecursor(id).precursors) == Elements(e.precursors) + {id}
  {
  }

  /** A precursor is never listed twice, and the ones that were listed stay where they were. */
  lemma PrecursorOnce(e: Entry, id: Addr)
    requires NoDuplicates(e.precursors)
    ensures var r := e.InsertPrecursor(id);
            && r == e.(precursors := r.precursors) && NoDuplicates(r.precursors) && e.precursors <= r.precursors
            && (id in e.precursors ==> r == e) && id in r.precursors
  {
  }

  /** One precursor more for the entry of `at`, if there is one. */
  function With(t: Table, at: Addr, id: Addr, now: int): Table {
    Update(t, Lookup(t, at).GetOr(DefaultEntry(now)).InsertPrecursor(id))
  }

  lemma AddedAt(t: Table, at: Addr, id: Addr, now: int, bad: int)
    requires Settled(t, now) && now >= 0 && bad >= 0
    ensures Added(t, With(t, at, id, now), at, id) && With(t, at, id, now).Keys == t.Keys
    ensures Settled(With(t, at, id, now), now) && Purge(With(t, at, id, now), now, bad) == With(t, at, id, now)
  {
    if at in t {
      InsertElement(t[at], id);
    }
    ViaUpdate(t, at, id, now);
    PurgeView(With(t, at, id, now), now, bad);
  }

  lemma PurgedSettled(t: Table, now: int, bad: int)
    requires Settled(t, now) && bad >= 0
    ensures Purge(t, now, bad) == t
  {
    PurgeView(t, now, bad);
  }

  /** An entry of `t`, but for its precursors, written over what `u` has for it. */
  lemma PutBack(t: Table, u: Table, e: Entry, now: int)
    requires Settled(t, now) && Settled(u, now) && u.Keys == t.Keys
    requires e.dst in t && e == t[e.dst].(precursors := e.precursors)
    ensures var r := Update(u, e);
            && Settled(r, now) && r.Keys == t.Keys && r[e.dst] == e
               && (forall k :: k in t && k != e.dst ==> r[k] == u[k])
  {
  }

  /** The local copy of the origin's entry is written back over what the second insertion did to it. */
  lemma WrittenBack(t: Table, u: Table, toOrigin: Entry, id: Addr, now: int, bad: int)
    requires Settled(t, now) && Settled(u, now) && u.Keys == t.Keys && bad >= 0
    requires toOrigin.dst in t && toOrigin == t[toOrigin.dst]
    ensures var r := Update(u, toOrigin.InsertPrecursor(id));
            && Settled(r, now) && Purge(r, now, bad) == r && r.Keys == t.Keys
            && (forall k :: k in t && k != toOrigin.dst ==> r[k] == u[k])
            && r[toOrigin.dst] == toOrigin.(precursors := r[toOrigin.dst].precursors)
            && Elements(r[toOrigin.dst].precursors) == Elements(toOrigin.precursors) + {id}
  {
    hide Update, Purge, Settled, Elements;
    InsertElement(toOrigin, id);
    PutBack(t, u, toOrigin.InsertPrecursor(id), now);
    PurgedSettled(Update(u, toOrigin.InsertPrecursor(id)), now, bad);
  }

  /** Three insertions and one writing back, taken together, at one entry. */
  lemma AllInsertions(t: Table, t1: Table, t2: Table, t3: Table, r: Table, dst: Addr, toOrigin: Entry, k: Addr)
    requires dst in t && k in t && k != UNSET && toOrigin.dst in t && toOrigin == t[toOrigin.dst] && toOrigin.dst != dst
    requires Added(t, t1, dst, toOrigin.nextHop) && Added(t1, t2, t[dst].nextHop, toOrigin.nextHop)
    requires t3.Keys == t.Keys && (forall j :: j in t && j != toOrigin.dst ==> t3[j] == t2[j])
    requires t3[toOrigin.dst] == toOrigin.(precursors := t3[toOrigin.dst].precursors)
    requires Elements(t3[toOrigin.dst].precursors) == Elements(toOrigin.precursors) + {t[dst].nextHop}
    requires Added(t3, r, toOrigin.nextHop, t[dst].nextHop)
    ensures r.Keys == t.Keys && r[k] == t[k].(precursors := r[k].precursors)
    ensures Elements(r[k].precursors) == Relying(t, dst, toOrigin, k)
  {
    hide Elements;
    if k != toOrigin.dst {
      assert Elements(t2[k].precursors) == Elements(t[k].precursors)
             + (if k == dst then {toOrigin.nextHop} else {}) + (if k == t[dst].nextHop then {toOrigin.nextHop} else {});
    }
  }

  /** The insertions as NotePrecursors makes them, with purges that find nothing to do. */
  lemma NotedInTurn(t: Table, t1: Table, t2: Table, t3: Table, dst: Addr, toOrigin: Entry, now: int, c: Config)
    requires ValidRoute(t, dst) && Purge(t, now, c.deletePeriod) == t
    requires t1 == With(t, dst, toOrigin.nextHop, now) && Purge(t1, now, c.deletePeriod) == t1
    requires t2 == With(t1, t[dst].nextHop, toOrigin.nextHop, now)
    requires t3 == Update(t2, toOrigin.InsertPrecursor(t[dst].nextHop)) && Purge(t3, now, c.deletePeriod) == t3
    ensures NotePrecursors(t, dst, toOrigin, now, c) == With(t3, toOrigin.nextHop, t[dst].nextHop, now)
  {
    hide Update, Purge;
  }

  /** The four insertions of RecvReply, whole: which precursors every entry has afterwards. Routes, lifetimes
      and flags are as before. */
  lemma PrecursorsNoted(t: Table, dst: Addr, toOrigin: Entry, now: int, c: Config)
    requires Settled(t, now) && c.Sane() && now >= 0 && ValidRoute(t, dst) && toOrigin.dst != dst
    requires toOrigin.dst in t && toOrigin == t[toOrigin.dst] && toOrigin.dst != UNSET
    ensures var r := NotePrecursors(t, dst, toOrigin, now, c);
            r.Keys == t.Keys
            && forall k :: k in t && k != UNSET ==>
                 r[k] == t[k].(precursors := r[k].precursors)
                     && Elements(r[k].precursors) == Relying(t, dst, toOrigin, k)
  {
    hide Update, Purge, Settled, Elements, Added, Relying, With, NotePrecursors;
    var bad, via := c.deletePeriod, t[dst].nextHop;
    PurgedSettled(t, now, bad);
    AddedAt(t, dst, toOrigin.nextHop, now, bad);
    var t1 := With(t, dst, toOrigin.nextHop, now);
    AddedAt(t1, via, toOrigin.nextHop, now, bad);
    var t2 := With(t1, via, toOrigin.nextHop, now);
    WrittenBack(t, t2, toOrigin, via, now, bad);
    var t3 := Update(t2, toOrigin.InsertPrecursor(via));
    AddedAt(t3, toOrigin.nextHop, via, now, bad);
    NotedInTurn(t, t1, t2, t3, dst, toOrigin, now, c);
    var r := With(t3, toOrigin.nextHop, via, now);
    forall k | k in t && k != UNSET
      ensures r[k] == t[k].(precursors := r[k].precursors) && Elements(r[k].precursors) == Relying(t, dst, toOrigin, k)
    {
      AllInsertions(t, t1, t2, t3, r, dst, toOrigin, k);
    }
  }

  // ------------------------------------------------------------------------------- acknowledgements

  /** An acknowledgement makes the entry of its sender VALID, whatever it was, and touches nothing else; the
      next lookup finds the route exactly when it has not run out. */
  lemma AckRestores(n: Node, neighbor: Addr, now: int, c: Config)
    requires WellFormed(n.table) && c.Sane()
    ensures var p, r := Purge(n.table, now, c.deletePeriod), RecvReplyAck(n, neighbor, now, c);
            && r == n.(table := r.table) && r.table.Keys == p.Keys
            && (forall k :: k in p && k != neighbor ==> r.table[k] == p[k])
            && (neighbor in p ==> r.table[neighbor] == p[neighbor].(flag := VALID, reqCount := 0))
            && (ValidRoute(Purge(r.table, now, c.deletePeriod), neighbor)
                <==> neighbor in p && !p[neighbor].Expired(now))
  {
  }

  // ------------------------------------------------------------------------------- HELLO

  /** The HELLO of `n`. */
  function HelloOf(n: Node, c: Config): Packet {
    Packet(Rrep(NewRrep(0, n.me, n.seqNo, n.me, c.helloLifetime)), 1, Broadcast)
  }

  /** Whoever hears the HELLO of `n` has a VALID one-hop route to `n` with the number of `n`, and counts it
      among its neighbours for the lifetime of a HELLO. */
  lemma HelloHeard(n: Node, x: Node, now: int, c: Config)
    requires WellFormed(x.table) && c.Sane() && n.me != UNSET
    ensures SendHello(n, c).sent == n.sent + [HelloOf(n, c)]
    ensures var r := RecvAodv(x, HelloOf(n, c), n.me, now, c); var v := ViewOf(r.table, now);
            && n.me in v && v[n.me] == Route(true, n.seqNo, 1, n.me, true, VALID)
            && (c.enableHello ==> exists b :: b in r.nb && b.addr == n.me && b.expire >= now + c.helloLifetime)
  {
    hide UpdateRouteToNeighbor, ProcessHello, NewRrep;
    var p := HelloOf(n, c);
    HelloFields(n, c);
    UpdateRouteToNeighborView(x.table, n.me, now, c);
    var x1 := x.(table := UpdateRouteToNeighbor(x.table, n.me, now, c));
    var m := p.msg.rrep;
    NodeViews.HelloReply(x1, m, 1, n.me, now, c);
    HelloTaken(x1, m, now, c);
  }

  lemma HelloFields(n: Node, c: Config)
    ensures var m := HelloOf(n, c).msg.rrep; m.dst == m.origin == n.me && m.dstSeqNo == n.seqNo
    ensures SendHello(n, c).sent == n.sent + [HelloOf(n, c)]
  {
  }

  lemma HelloTaken(n: Node, m: RrepHeader, now: int, c: Config)
    requires WellFormed(n.table) && c.Sane() && m.dst != UNSET
    ensures var r := ProcessHello(n, m, now, c); var v := ViewOf(r.table, now);
            && m.dst in v && v[m.dst] == Route(true, m.dstSeqNo, 1, m.dst, true, VALID)
            && (c.enableHello ==> exists b :: b in r.nb && b.addr == m.dst && b.expire >= now + c.helloLifetime)
  {
    hide NbUpdate, ViewOf, WellFormed, AddRoute, Update, Purge;
    var t := ProcessHello(n, m, now, c.(enableHello := false)).table;
    HelloEntry(n, m, now, c.(enableHello := false));
    Met(n.(table := t), m.dst, c.helloLifetime, now, c);
  }

  /** The entry before the neighbour list is looked at. */
  lemma HelloEntry(n: Node, m: RrepHeader, now: int, c: Config)
    requires WellFormed(n.table) && c.Sane() && m.dst != UNSET && !c.enableHello
    ensures var r := ProcessHello(n, m, now, c); var v := ViewOf(r.table, now);
            WellFormed(r.table) && m.dst in v && v[m.dst] == Route(true, m.dstSeqNo, 1, m.dst, true, VALID)
  {
    hide Purge, AddRoute, Update, ViewOf;
    PurgeView(n.table, now, c.deletePeriod);
    NodeViews.HelloTableView(Purge(n.table, now, c.deletePeriod), m, now, c);
  }

  /** A neighbour that has just been heard is listed, and however many other links the purge of the list finds
      broken, its own straight route is not among those that go down. */
  lemma Met(n: Node, addr: Addr, lifetime: int, now: int, c: Config)
    requires WellFormed(n.table) && c.Sane() && lifetime >= 0 && addr in ViewOf(n.table, now)
    requires ViewOf(n.table, now)[addr].flag == VALID && ViewOf(n.table, now)[addr].nextHop == addr
    ensures var r := NbUpdate(n, addr, lifetime, now, c);
            && (exists b :: b in r.nb && b.addr == addr && b.expire >= now + lifetime)
            && addr in ViewOf(r.table, now) && ViewOf(r.table, now)[addr] == ViewOf(n.table, now)[addr]
  {
    hide NbPurge, ViewOf;
    var i := IndexOfNeighbor(n.nb, addr);
    var r := NbUpdate(n, addr, lifetime, now, c);
    if i < |n.nb| {
      assert r.nb[i] in r.nb;
    } else {
      var added := Neighbor(addr, now + lifetime, false);
      var m := n.(nb := n.nb + [added]);
      Purged(m, now, c);
      InFilter(m.nb, Nodes.Open(now));
      assert m.nb[|n.nb|] == added && added in r.nb;
      assert forall b :: b in m.nb && b.addr == addr ==> b == added by {
        assert forall j :: 0 <= j < |n.nb| ==> m.nb[j] == n.nb[j];
      }
      NotLost(m, addr, now, c);
    }
  }

  lemma Purged(n: Node, now: int, c: Config)
    ensures NbPurge(n, now, c).nb == Filter(n.nb, Nodes.Open(now))
  {
  }

  /** A purge of the neighbour list leaves alone a straight route to a neighbour that is not closing. */
  lemma NotLost(n: Node, addr: Addr, now: int, c: Config)
    requires WellFormed(n.table) && c.Sane() && addr in ViewOf(n.table, now)
    requires ViewOf(n.table, now)[addr].flag == VALID && ViewOf(n.table, now)[addr].nextHop == addr
    requires forall b :: b in n.nb && b.addr == addr ==> !Closing(b, now)
    ensures var r := NbPurge(n, now, c);
            addr in ViewOf(r.table, now) && ViewOf(r.table, now)[addr] == ViewOf(n.table, now)[addr]
  {
    hide NbPurge, Purge;
    if NodeViews.QuietLinks(n, now) {
      NodeViews.NbPurgeView(n, now, c);
    } else {
      LinkBreaks.LinkBreakComplete(n, now, c);
      PurgeView(n.table, now, c.deletePeriod);
      SettledEntry(Purge(n.table, now, c.deletePeriod), addr, now);
    }
  }
}
