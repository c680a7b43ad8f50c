/** The forward route that a RREP leaves behind on its way home: wherever the nodes on the way know nothing
    better, VALID entries lead from the originator to the destination in exactly the stored number of hops. */
module ForwardRoutes {
  import opened Basics
  import opened Headers
  import opened RouteEntries
  import opened Nodes
  import opened RouteViews
  import NodeViews
  import opened Networks
  import opened ReverseTrees
  import opened ReplyHomes

  /** The table has a route to `d` under a sequence number of `d`. */
  predicate Known(t: Table, d: Addr) {
    d in t && t[d].validSeqNo
  }

  /** From `x`, exactly `n` hops along VALID routes lead to `d`, and every node on the way knows how many
      are left. */
  ghost predicate Chain(s: Net, x: Addr, d: Addr, n: nat)
    decreases n
  {
    if n == 0 then x == d
    else
      && x != d && x in s && Known(s[x].table, d)
      && s[x].table[d].flag == VALID && s[x].table[d].hops == n
      && Chain(s, s[x].table[d].nextHop, d, n - 1)
  }

  /** A chain that keeps clear of some nodes. */
  ghost predicate Apart(s: Net, avoid: set<Addr>, x: Addr, d: Addr, n: nat)
    decreases n
  {
    && x !in avoid
    && (if n == 0 then x == d
        else
          && x != d && x in s && Known(s[x].table, d)
          && s[x].table[d].flag == VALID && s[x].table[d].hops == n
          && Apart(s, avoid, s[x].table[d].nextHop, d, n - 1))
  }

  lemma {:induction false} ApartIsChain(s: Net, avoid: set<Addr>, x: Addr, d: Addr, n: nat)
    requires Apart(s, avoid, x, d, n)
    ensures Chain(s, x, d, n) && d !in avoid
    decreases n
  {
    if n > 0 {
      ApartIsChain(s, avoid, s[x].table[d].nextHop, d, n - 1);
    }
  }

  /** What happens to a node that the chain avoids does not touch it. */
  lemma {:induction false} ApartUntouched(s: Net, avoid: set<Addr>, x: Addr, d: Addr, n: nat, z: Addr, r: Node,
                                          fewer: set<Addr>)
    requires Apart(s, avoid, x, d, n) && z in avoid && fewer <= avoid
    ensures Apart(s[z := r], fewer, x, d, n)
    decreases n
  {
    if n > 0 {
      ApartUntouched(s, avoid, s[x].table[d].nextHop, d, n - 1, z, r, fewer);
    }
  }

  // ------------------------------------------------------------------------------- one delivery

  /** The routes hold nothing that keeps a RREP with this number and length out: rules (i) to (iv). */
  ghost predicate NoBetter(v: View, d: Addr, seqNo: U32, hops: int) {
    d in v ==> 0 <= hops < 0x100 && AcceptsRoute(v[d], seqNo, hops)
  }

  /** The entry is the route that the RREP offers. */
  ghost predicate Adopted(t: Table, m: RrepHeader, sender: Addr) {
    && Known(t, m.dst) && t[m.dst].flag == VALID && t[m.dst].seqNo == m.dstSeqNo
    && t[m.dst].hops == m.hopCount + 1 && t[m.dst].nextHop == sender
  }

  /** A node without a better route, or the originator in search of one, takes the RREP's. */
  lemma TakesOffer(n: Node, p: Packet, sender: Addr, now: int, c: Config)
    requires WellFormed(n.table) && c.Sane() && now >= 0 && p.msg.Rrep? && Proper(p.msg)
    requires p.msg.rrep.dst != p.msg.rrep.origin && p.msg.rrep.hopCount < 255
    requires var m, v := p.msg.rrep, ViewOf(n.table, now);
             NoBetter(v, m.dst, m.dstSeqNo, m.hopCount + 1)
             || (n.me == m.origin && m.dst in v && v[m.dst].flag == IN_SEARCH)
    ensures Adopted(Handle(n, Receive(p, sender), now, c).table, p.msg.rrep, sender)
  {
    hide RecvReply, UpdateRouteToNeighbor, ViewOf;
    var m, v := p.msg.rrep, ViewOf(n.table, now);
    UpdateRouteToNeighborView(n.table, sender, now, c);
    var n1 := n.(table := UpdateRouteToNeighbor(n.table, sender, now, c));
    NodeViews.RecvReplyView(n1, m, p.ttl, sender, now, c);
    var r := RecvReply(n1, m, p.ttl, sender, now, c);
    SettledView(r.table, now);
    assert ViewOf(r.table, now)[m.dst] == OfferedRoute(m, sender);
  }

  // ------------------------------------------------------------------------------- all the way home

  /** On the way home from `z` nobody has a route to `d` that keeps out one with this number and, at `z`, this
      length, growing by a hop at each node; the originator may also be searching. */
  ghost predicate WayOpen(s: Net, h: History, o: Addr, z: Addr, d: Addr, seqNo: U32, hops: nat, now: int)
    requires WayHome(s, h, o, z, now)
    decreases FloodsAbove(h, o, z), HopsAbove(h, o, z)
  {
    && hops < 0x100 && z in s
    && var v := ViewOf(s[z].table, now);
       if z == o then (d in v && v[d].flag == IN_SEARCH) || NoBetter(v, d, seqNo, hops)
       else NoBetter(v, d, seqNo, hops) && WayOpen(s, h, o, NextHome(s, h, o, z, now), d, seqNo, hops + 1, now)
  }

  /** What happens to a node off the way leaves it as open as it was. */
  lemma {:induction false} StillOpen(s: Net, h: History, o: Addr, z: Addr, now: int, x: Addr, r: Node, d: Addr,
                                     seqNo: U32, hops: nat)
    requires WayHome(s, h, o, z, now) && x in s && x !in WayNodes(s, h, o, z, now)
    requires WayOpen(s, h, o, z, d, seqNo, hops, now)
    ensures WayHome(s[x := r], h, o, z, now) && WayOpen(s[x := r], h, o, z, d, seqNo, hops, now)
    decreases FloodsAbove(h, o, z), HopsAbove(h, o, z)
  {
    hide ViewOf, NoBetter;
    WayUntouched(s, h, o, z, now, x, r);
    if z != o {
      StillOpen(s, h, o, NextHome(s, h, o, z, now), now, x, r, d, seqNo, hops + 1);
    }
  }

  /** The RREP `p` that `y` has sent carries the length of a chain that keeps clear of its way home; that way is
      open to the route it offers; and its TTL outlasts the way. */
  ghost predicate Welcome(s: Net, h: History, o: Addr, y: Addr, p: Packet, now: int)
    requires p.msg.Rrep?
  {
    var m := p.msg.rrep;
    && Lasts(s, h, o, y, p, now)
    && WayOpen(s, h, o, p.target.addr, m.dst, m.dstSeqNo, m.hopCount + 1, now)
    && Apart(s, WayNodes(s, h, o, p.target.addr, now), y, m.dst, m.hopCount)
  }

  /** The last delivery. */
  lemma ReachesOrigin(s: Net, h: History, o: Addr, y: Addr, p: Packet, now: int, c: Config)
    requires TreeInv(s, h, o) && c.Sane() && now >= 0
    requires y in s && p in s[y].sent && Homeward(p, o) && Proper(p.msg) && p.target == To(o)
    requires Welcome(s, h, o, y, p, now)
    ensures var a := Action(o, Receive(p, y), now); var s' := StepTo(s, a, c); var m := p.msg.rrep;
            && CanStep(s, a) && TreeGuard(s, h, a, c, o) && Note(h, s, a, c, o) == h
            && Adopted(s'[o].table, m, y) && Chain(s', o, m.dst, m.hopCount + 1)
  {
    hide Handle, ViewOf, TreeInv, Note, TreeGuard;
    var a, m := Action(o, Receive(p, y), now), p.msg.rrep;
    SoundTree(s, h, o, o);
    CanDeliver(s, h, o, y, p, now, c);
    var r := Handle(s[o], a.event, now, c);
    TakesOffer(s[o], p, y, now, c);
    ApartUntouched(s, {o}, y, m.dst, m.hopCount, o, r, {o});
    ApartIsChain(s[o := r], {o}, y, m.dst, m.hopCount);
  }

  /** What the first node of the way finds, and the way behind it. */
  lemma FirstOfWay(s: Net, h: History, o: Addr, y: Addr, p: Packet, now: int)
    requires p.msg.Rrep? && Welcome(s, h, o, y, p, now) && p.target.addr != o
    ensures var z, m := p.target.addr, p.msg.rrep; var next := ViewOf(s[z].table, now)[o].nextHop;
            && Onward(s, h, o, z, now) && m.hopCount < 255 && p.ttl >= 2
            && NoBetter(ViewOf(s[z].table, now), m.dst, m.dstSeqNo, m.hopCount + 1)
            && WayHome(s, h, o, next, now) && WayOpen(s, h, o, next, m.dst, m.dstSeqNo, m.hopCount + 2, now)
  {
    hide ViewOf, NoBetter, Apart;
  }

  /** One more delivery: the addressee takes the route and passes the RREP on. */
  lemma RouteGrows(s: Net, h: History, o: Addr, y: Addr, p: Packet, now: int, c: Config) returns (q: Packet)
    requires TreeInv(s, h, o) && c.Sane() && now >= 0
    requires y in s && p in s[y].sent && Homeward(p, o) && Proper(p.msg) && p.target != To(o)
    requires Welcome(s, h, o, y, p, now)
    ensures p.target.To? && p.target.addr in s && p.target.addr in h
    ensures var z := p.target.addr; var a := Action(z, Receive(p, y), now); var s' := StepTo(s, a, c);
            && CanStep(s, a) && TreeGuard(s, h, a, c, o) && Note(h, s, a, c, o) == h && TreeInv(s', h, o)
            && q in s'[z].sent && Homeward(q, o) && PassedFrom(q, p) && Proper(q.msg) && Welcome(s', h, o, z, q, now)
            && q.msg.rrep.hopCount == p.msg.rrep.hopCount + 1
            && WayLength(s', h, o, q.target.addr, now) == WayLength(s, h, o, z, now) - 1
            && (q.target.addr == o || Upward(h, z, q.target.addr))
  {
    hide Handle, TreeGuard, Note, CanStep, TreeInv, ViewOf, Proper, NoBetter, Apart, WayHome, WayOpen, WayNodes,
      WayLength;
    var m, z := p.msg.rrep, p.target.addr;
    FirstOfWay(s, h, o, y, p, now);
    q := OneHopUp(s, h, o, y, p, now, c);
    var a := Action(z, Receive(p, y), now);
    SoundTree(s, h, o, z);
    TakesOffer(s[z], p, y, now, c);
    var r, next := Handle(s[z], a.event, now, c), q.target.addr;
    WayGoesOn(s, h, o, z, now, r);
    StartOfWay(s, h, o, z, now);
    StillOpen(s, h, o, next, now, z, r, m.dst, m.dstSeqNo, m.hopCount + 2);
    ApartUntouched(s, WayNodes(s, h, o, z, now), y, m.dst, m.hopCount, z, r, WayNodes(s, h, o, next, now));
    ApartIsChain(s, WayNodes(s, h, o, z, now), y, m.dst, m.hopCount);
    OneLonger(s[z := r], WayNodes(s, h, o, next, now), z, y, m.dst, m.hopCount);
  }

  lemma StartOfWay(s: Net, h: History, o: Addr, z: Addr, now: int)
    requires WayHome(s, h, o, z, now)
    ensures z in WayNodes(s, h, o, z, now)
  {
    WayUpward(s, h, o, z, now);
  }

  lemma OneLonger(s: Net, avoid: set<Addr>, z: Addr, y: Addr, d: Addr, n: nat)
    requires Apart(s, avoid, y, d, n) && z !in avoid && z != d && z in s && Known(s[z].table, d)
    requires s[z].table[d].flag == VALID && s[z].table[d].hops == n + 1 && s[z].table[d].nextHop == y
    ensures Apart(s, avoid, z, d, n + 1)
  {
  }

  /** A RREP leaves its route behind: from any state of the tree, after any number of floods, and whatever else
      the network knows, if the nodes on its way home have not forgotten it and have no better route to the
      destination, then delivering the RREP hop by hop gives the originator a VALID route of exactly the
      stored length, under the RREP's number. */
  lemma {:induction false} LeavesRoute(s: Net, h: History, o: Addr, y: Addr, p: Packet, now: int, c: Config)
    returns (acts: seq<Action>)
    requires TreeInv(s, h, o) && c.Sane() && now >= 0
    requires y in s && p in s[y].sent && Homeward(p, o) && Proper(p.msg) && Welcome(s, h, o, y, p, now)
    ensures TreeRun(s, h, acts, c, o) && |acts| == 1 + WayLength(s, h, o, p.target.addr, now)
    ensures var f := Final(s, acts, c); var d := p.msg.rrep.dst;
            && o in f && Known(f[o].table, d) && f[o].table[d].seqNo == p.msg.rrep.dstSeqNo
            && f[o].table[d].hops == p.msg.rrep.hopCount + |acts| && Chain(f, o, d, f[o].table[d].hops)
    decreases if p.target.To? then FloodsAbove(h, o, p.target.addr) else 0,
              if p.target.To? then HopsAbove(h, o, p.target.addr) else 0
  {
    hide TreeInv, TreeGuard, CanStep, Handle, Note, Chain, Homeward, Proper, Apart, WayHome, WayOpen, WayNodes;
    var z := p.target.addr;
    var a := Action(z, Receive(p, y), now);
    IsReply(p, o);
    if z == o {
      SoundTree(s, h, o, y);
      ReachesOrigin(s, h, o, y, p, now, c);
      acts := [a];
      assert acts[1..] == [];
      assert Final(s, acts, c) == StepTo(s, a, c);
    } else {
      var q := RouteGrows(s, h, o, y, p, now, c);
      var rest := LeavesRoute(StepTo(s, a, c), h, o, z, q, now, c);
      acts := [a] + rest;
      assert acts[1..] == rest;
    }
  }

  lemma IsReply(p: Packet, o: Addr)
    requires Homeward(p, o)
    ensures p.msg.Rrep?
  {
  }

  /** In particular the destination's own answer to the latest of any number of floods. */
  lemma OwnReplyLeavesRoute(s: Net, before: seq<Action>, acts: seq<Action>, o: Addr, id: U32, p: Packet, now: int,
                            c: Config) returns (more: seq<Action>)
    requires c.Sane() && now >= 0 && Phases(s, before, acts, c, o, id)
    requires p.msg.Rrep? && Proper(p.msg) && p.msg.rrep.hopCount == 0
    requires (p.msg.rrep.dst, p) in EndAnswers(s, before, acts, c, o, id)
    requires var f, h := EndNet(s, before, acts, c), EndHistory(s, before, acts, c, o);
             p.target.To? && WayHome(f, h, o, p.target.addr, now)
             && WayOpen(f, h, o, p.target.addr, p.msg.rrep.dst, p.msg.rrep.dstSeqNo, 1, now)
    ensures var f, h := EndNet(s, before, acts, c), EndHistory(s, before, acts, c, o);
            |more| == 1 + WayLength(f, h, o, p.target.addr, now) && TreeRun(f, h, more, c, o)
    ensures var f := Final(EndNet(s, before, acts, c), more, c); var d := p.msg.rrep.dst;
            o in f && Known(f[o].table, d) && f[o].table[d].hops == |more| && Chain(f, o, d, |more|)
  {
    hide Handle, Phases, EndNet, EndHistory, EndAnswers, TreeRun, Final, Chain, WayHome, WayOpen, WayNodes, WayLength;
    EndInv(s, before, acts, c, o, id);
    var f, h := EndNet(s, before, acts, c), EndHistory(s, before, acts, c, o);
    AnswersLast(f, h, EndAnswers(s, before, acts, c, o, id), o, id, p.msg.rrep.dst, p, now);
    StartsApart(f, h, EndAnswers(s, before, acts, c, o, id), o, id, p, now);
    more := LeavesRoute(f, h, o, p.msg.rrep.dst, p, now, c);
  }

  /** The destination is not on the way of its own RREP. */
  lemma StartsApart(s: Net, h: History, good: Replies, o: Addr, id: U32, p: Packet, now: int)
    requires HomeInv(s, h, good, o, id) && p.msg.Rrep? && (p.msg.rrep.dst, p) in good
    requires p.target.To? && WayHome(s, h, o, p.target.addr, now)
    ensures Homeward(p, o) && p.msg.rrep.dst in s && p in s[p.msg.rrep.dst].sent
    ensures Apart(s, WayNodes(s, h, o, p.target.addr, now), p.msg.rrep.dst, p.msg.rrep.dst, 0)
  {
    hide ViewOf, WayHome, WayNodes, TreeInv, NoneLater;
    var y, z := p.msg.rrep.dst, p.target.addr;
    assert Climbing(h, y, p, o, id);
    SoundTree(s, h, o, y);
    if z != o {
      PositiveHop(s, h, o, z);
    }
    NotOnWay(s, h, o, y, z, now);
  }
}
