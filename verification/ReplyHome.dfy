/** A RREP sent along the reverse tree moves towards the originator with every delivery, and arrives when its
    TTL outlasts the way home; and the RREPs that answer the latest flood always have enough of it. */
module ReplyHomes {
  import opened Basics
  import opened RouteEntries
  import opened Nodes
  import opened RouteViews
  import opened Networks
  import opened ReverseTrees
  import SequenceNumbers
  import NodeViews
  import Floods

  // ------------------------------------------------------------------------------- the way home

  /** `y` has taken a later flood of the originator than `x`, or the same one closer to it. */
  ghost predicate Upward(h: History, x: Addr, y: Addr) {
    && x in h && y in h
    && (h[y].id > h[x].id || (h[y].id == h[x].id && 0 <= h[y].hop < h[x].hop))
  }

  /** The node is in the tree and has not forgotten its route to `o`, which leads there or upwards. */
  ghost predicate Onward(s: Net, h: History, o: Addr, z: Addr, now: int) {
    && z in h && z in s && o in ViewOf(s[z].table, now)
    && var next := ViewOf(s[z].table, now)[o].nextHop;
       next == o || Upward(h, z, next)
  }

  /** Where the node's route to `o` leads. */
  ghost function NextHome(s: Net, h: History, o: Addr, z: Addr, now: int): Addr
    requires Onward(s, h, o, z, now)
  {
    ViewOf(s[z].table, now)[o].nextHop
  }

  /** In the tree it is enough that the route is still there. */
  lemma OnwardInTree(s: Net, h: History, o: Addr, z: Addr, now: int)
    requires TreeInv(s, h, o) && z in h && z in s && o in ViewOf(s[z].table, now)
    ensures Onward(s, h, o, z, now)
  {
    assert Entered(s[z].table, h, z, o) && Rooted(h, z, o);
    if h[z].parent != o {
      assert Rooted(h, h[z].parent, o);
    }
  }

  /** How many floods, and how many hops of its own one, `z` may have above it. */
  function FloodsAbove(h: History, o: Addr, z: Addr): nat {
    if z != o && z in h then 0x1_0000_0000 - h[z].id else 0
  }

  function HopsAbove(h: History, o: Addr, z: Addr): nat {
    if z != o && z in h then Max(0, h[z].hop) + 1 else 0
  }

  /** From `z` on, no node on the way home has forgotten it. */
  ghost predicate WayHome(s: Net, h: History, o: Addr, z: Addr, now: int)
    decreases FloodsAbove(h, o, z), HopsAbove(h, o, z)
  {
    z == o || (Onward(s, h, o, z, now) && WayHome(s, h, o, NextHome(s, h, o, z, now), now))
  }

  /** The nodes of that way, and how many of them come before `o`. */
  ghost function WayNodes(s: Net, h: History, o: Addr, z: Addr, now: int): set<Addr>
    requires WayHome(s, h, o, z, now)
    decreases FloodsAbove(h, o, z), HopsAbove(h, o, z)
  {
    if z == o then {o} else {z} + WayNodes(s, h, o, NextHome(s, h, o, z, now), now)
  }

  ghost function WayLength(s: Net, h: History, o: Addr, z: Addr, now: int): nat
    requires WayHome(s, h, o, z, now)
    decreases FloodsAbove(h, o, z), HopsAbove(h, o, z)
  {
    if z == o then 0 else 1 + WayLength(s, h, o, NextHome(s, h, o, z, now), now)
  }

  /** The way leads upwards. */
  lemma {:induction false} WayUpward(s: Net, h: History, o: Addr, z: Addr, now: int)
    requires WayHome(s, h, o, z, now)
    ensures forall w :: w in WayNodes(s, h, o, z, now) ==> w == o || w == z || Upward(h, z, w)
    ensures z in WayNodes(s, h, o, z, now)
    decreases FloodsAbove(h, o, z), HopsAbove(h, o, z)
  {
    hide ViewOf;
    if z != o {
      WayUpward(s, h, o, NextHome(s, h, o, z, now), now);
    }
  }

  /** So it does not come back. */
  lemma NotOnWay(s: Net, h: History, o: Addr, z: Addr, next: Addr, now: int)
    requires WayHome(s, h, o, next, now) && z != o && (next == o || Upward(h, z, next))
    ensures z !in WayNodes(s, h, o, next, now)
  {
    WayUpward(s, h, o, next, now);
  }

  /** What happens to a node off the way leaves the way as it was. */
  lemma {:induction false} WayUntouched(s: Net, h: History, o: Addr, z: Addr, now: int, x: Addr, r: Node)
    requires WayHome(s, h, o, z, now) && x in s && x !in WayNodes(s, h, o, z, now)
    ensures WayHome(s[x := r], h, o, z, now)
    ensures WayNodes(s[x := r], h, o, z, now) == WayNodes(s, h, o, z, now)
    ensures WayLength(s[x := r], h, o, z, now) == WayLength(s, h, o, z, now)
    decreases FloodsAbove(h, o, z), HopsAbove(h, o, z)
  {
    hide ViewOf;
    if z != o {
      WayUntouched(s, h, o, NextHome(s, h, o, z, now), now, x, r);
    }
  }

  // ------------------------------------------------------------------------------- delivery

  /** A node with a way to `o` passes the RREP on. */
  lemma PassesOn(n: Node, p: Packet, sender: Addr, now: int, c: Config, o: Addr) returns (q: Packet)
    requires WellFormed(n.table) && c.Sane() && now >= 0 && n.me != o && o != UNSET
    requires Homeward(p, o) && Proper(p.msg) && p.ttl >= 2
    requires o in ViewOf(n.table, now) && Steady(ViewOf(n.table, now), o)
    ensures var r := Handle(n, Receive(p, sender), now, c);
            && q in r.sent && Homeward(q, o) && PassedFrom(q, p) && Proper(q.msg)
            && o in ViewOf(r.table, now) && q.target == To(ViewOf(r.table, now)[o].nextHop)
    ensures sender != o ==>
              ViewOf(Handle(n, Receive(p, sender), now, c).table, now)[o].nextHop == ViewOf(n.table, now)[o].nextHop
  {
    hide RecvReply, UpdateRouteToNeighbor;
    var m := p.msg.rrep;
    UpdateRouteToNeighborView(n.table, sender, now, c);
    var n1 := n.(table := UpdateRouteToNeighbor(n.table, sender, now, c));
    NodeViews.RecvReplyView(n1, m, p.ttl, sender, now, c);
    var r := RecvReply(n1, m, p.ttl, sender, now, c);
    var w := NodeViews.RepliedView(n1, ViewOf(n1.table, now), m, sender);
    assert o in w && w[o].flag != IN_SEARCH;
    q := NodeViews.PassedOn(m, p.ttl, w[o]);
    assert q in r.sent;
  }

  /** The news of `p` has been sent to `o`. */
  ghost predicate Arriving(f: Net, p: Packet, o: Addr)
    requires p.msg.Rrep?
  {
    exists x, q :: x in f && q in f[x].sent && Homeward(q, o) && q.target == To(o)
      && q.msg.rrep.dst == p.msg.rrep.dst && q.msg.rrep.dstSeqNo == p.msg.rrep.dstSeqNo
  }

  /** The RREP can travel the way home from its addressee, and its TTL outlasts it. */
  ghost predicate Lasts(s: Net, h: History, o: Addr, y: Addr, p: Packet, now: int) {
    && p.target.To? && p.target.addr != y && y != o && WayHome(s, h, o, p.target.addr, now)
    && (p.target.addr != o ==> p.ttl > WayLength(s, h, o, p.target.addr, now))
  }

  lemma SoundTree(s: Net, h: History, o: Addr, z: Addr)
    requires TreeInv(s, h, o) && z in s
    ensures s[z].me == z && z != UNSET && WellFormed(s[z].table) && o != UNSET && o in s && o !in h
  {
  }

  /** The addressee can take the RREP, calmly. */
  lemma CanDeliver(s: Net, h: History, o: Addr, y: Addr, p: Packet, now: int, c: Config)
    requires TreeInv(s, h, o) && now >= 0 && y in s && p in s[y].sent && Homeward(p, o) && Proper(p.msg)
    requires p.target.To? && p.target.addr != y
    requires p.target.addr != o ==> p.target.addr in s && o in ViewOf(s[p.target.addr].table, now)
    ensures var z := p.target.addr; var a := Action(z, Receive(p, y), now);
            CanStep(s, a) && TreeGuard(s, h, a, c, o) && Note(h, s, a, c, o) == h
    ensures var z := p.target.addr; z != o ==> Steady(ViewOf(s[z].table, now), o)
  {
    hide Handle, Floods.Conserved;
    var z := p.target.addr;
    if z != o {
      assert Entered(s[z].table, h, z, o);
      EnteredSteady(s[z], h, now, o);
    }
  }

  /** One delivery passes the RREP on along the addressee's own route. */
  lemma OneHopUp(s: Net, h: History, o: Addr, y: Addr, p: Packet, now: int, c: Config) returns (q: Packet)
    requires TreeInv(s, h, o) && c.Sane() && now >= 0
    requires y in s && y != o && p in s[y].sent && Homeward(p, o) && Proper(p.msg) && p.ttl >= 2
    requires p.target.To? && p.target.addr != o && p.target.addr != y
    requires p.target.addr in h && p.target.addr in s && o in ViewOf(s[p.target.addr].table, now)
    ensures var z := p.target.addr; var a := Action(z, Receive(p, y), now); var s' := StepTo(s, a, c);
            && CanStep(s, a) && TreeGuard(s, h, a, c, o) && Note(h, s, a, c, o) == h && TreeInv(s', h, o)
            && q in s'[z].sent && Homeward(q, o) && PassedFrom(q, p) && Proper(q.msg)
            && q.target == To(ViewOf(s[z].table, now)[o].nextHop)
            && o in ViewOf(s'[z].table, now)
               && ViewOf(s'[z].table, now)[o].nextHop == ViewOf(s[z].table, now)[o].nextHop
    ensures Onward(s, h, o, p.target.addr, now)
  {
    hide Handle, TreeGuard, Note, CanStep, TreeInv, ViewOf, Steady, PassedFrom, Proper, Homeward;
    CanDeliver(s, h, o, y, p, now, c);
    var z := p.target.addr;
    SoundTree(s, h, o, z);
    OnwardInTree(s, h, o, z, now);
    q := PassesOn(s[z], p, y, now, c, o);
    TreeKept(s, h, Action(z, Receive(p, y), now), c, o);
  }

  /** The next addressee has a way home that is one hop shorter. */
  lemma WayGoesOn(s: Net, h: History, o: Addr, z: Addr, now: int, r: Node)
    requires WayHome(s, h, o, z, now) && z != o && z in s
    ensures var next := ViewOf(s[z].table, now)[o].nextHop; var s' := s[z := r];
            && Onward(s, h, o, z, now) && next != z && WayHome(s, h, o, next, now) && WayHome(s', h, o, next, now)
            && WayNodes(s', h, o, next, now) == WayNodes(s, h, o, next, now) == WayNodes(s, h, o, z, now) - {z}
            && WayLength(s', h, o, next, now) == WayLength(s, h, o, z, now) - 1
            && (next == o || Upward(h, z, next))
  {
    hide ViewOf;
    var next := NextHome(s, h, o, z, now);
    NotOnWay(s, h, o, z, next, now);
    WayUntouched(s, h, o, next, now, z, r);
  }

  /** A RREP gets home: from any state of the tree, after any number of floods, if no node on its way has
      forgotten it and its TTL outlasts the way, then delivering the RREP and what it causes, hop by hop, brings
      its news to the originator, in exactly as many deliveries as the way has nodes. */
  lemma {:induction false} GetsHome(s: Net, h: History, o: Addr, y: Addr, p: Packet, now: int, c: Config)
    returns (acts: seq<Action>)
    requires TreeInv(s, h, o) && c.Sane() && now >= 0
    requires y in s && p in s[y].sent && Homeward(p, o) && Proper(p.msg) && Lasts(s, h, o, y, p, now)
    ensures TreeRun(s, h, acts, c, o) && Arriving(Final(s, acts, c), p, o)
    ensures |acts| == WayLength(s, h, o, p.target.addr, now)
    decreases if p.target.To? then FloodsAbove(h, o, p.target.addr) else 0,
              if p.target.To? then HopsAbove(h, o, p.target.addr) else 0
  {
    hide TreeInv, TreeGuard, CanStep, Handle, Note, ViewOf, WayNodes;
    var z := p.target.addr;
    if z == o {
      acts := [];
    } else {
      var q := OneHopUp(s, h, o, y, p, now, c);
      var a := Action(z, Receive(p, y), now);
      WayGoesOn(s, h, o, z, now, StepTo(s, a, c)[z]);
      var rest := GetsHome(StepTo(s, a, c), h, o, z, q, now, c);
      acts := [a] + rest;
      assert acts[1..] == rest;
    }
  }

  // ------------------------------------------------------------------------------- the latest flood

  /** No RREQ of `o` on the air has a later id. */
  ghost predicate NoneLater(s: Net, o: Addr, id: U32) {
    forall y, p :: y in s && p in s[y].sent && p.msg.Rreq? && p.msg.rreq.origin == o ==> p.msg.rreq.requestID <= id
  }

  /** Both ends have taken the flood `id`; the addressee is strictly closer, and the TTL is more than its
      distance. */
  ghost predicate Climbing(h: History, y: Addr, p: Packet, o: Addr, id: U32) {
    && p.target.To? && y in h && h[y].id == id
    && var z := p.target.addr;
       z != o ==> z in h && h[z].id == id && h[z].hop < h[y].hop && p.ttl >= h[z].hop + 1
  }

  /** RREPs towards `o`, with the nodes that have sent them. */
  type Replies = set<(Addr, Packet)>

  /** The RREPs that belong to the flood `id`, after a step: a node that has taken it answers with the hops of
      its route as TTL, or passes on one of them. */
  ghost function Answers(good: Replies, s: Net, h: History, a: Action, c: Config, o: Addr, id: U32): Replies
    requires a.node in s
  {
    var n, r, h' := s[a.node], Handle(s[a.node], a.event, a.now, c), Note(h, s, a, c, o);
    good + set p | p in r.sent && p !in n.sent && Homeward(p, o) && a.node in h' && h'[a.node].id == id
                   && o in r.table
                   && (p.ttl == r.table[o].hops % 0x100
                       || (a.event.Receive? && (a.event.sender, a.event.packet) in good
                           && PassedFrom(p, a.event.packet)))
                :: (a.node, p)
  }

  /** The tree of any number of floods, `id` the latest of them, and the RREPs that belong to it on their way
      up. */
  ghost predicate HomeInv(s: Net, h: History, good: Replies, o: Addr, id: U32) {
    && TreeInv(s, h, o) && NoneLater(s, o, id)
    && (forall x :: x in h ==> h[x].id <= id)
    && (forall g :: g in good ==> g.0 in s && g.1 in s[g.0].sent && Homeward(g.1, o) && Climbing(h, g.0, g.1, o, id))
  }

  /** A calm step in order; the originator starts no later flood. */
  ghost predicate HomeGuard(s: Net, h: History, a: Action, c: Config, o: Addr, id: U32)
    requires a.node in s
  {
    && TreeGuard(s, h, a, c, o)
    && (a.node == o && Floods.Launches(s[o], a.event, a.now, c) ==> SequenceNumbers.Next(s[o].requestId) <= id)
  }

  lemma NoneLaterKept(s: Net, a: Action, c: Config, o: Addr, id: U32)
    requires Sound(s) && NoneLater(s, o, id) && c.Sane() && CanStep(s, a)
    requires a.node == o && Floods.Launches(s[o], a.event, a.now, c) ==> SequenceNumbers.Next(s[o].requestId) <= id
    ensures NoneLater(StepTo(s, a, c), o, id)
  {
    hide Handle, Floods.Unseen, Floods.Launches, SequenceNumbers.Next;
    var n, r := s[a.node], Handle(s[a.node], a.event, a.now, c);
    Floods.FloodStep(n, a.event, a.now, c);
    forall p | p in r.sent && p.msg.Rreq? && p.msg.rreq.origin == o
      ensures p.msg.rreq.requestID <= id
    {
      if p !in n.sent {
        NodeViews.NewPacket(n.sent, r.sent, p);
        if a.event.Receive? {
          assert Floods.RelayOf(p, a.event.packet);
        } else {
          assert NodeViews.OwnRequest(n, r, p);
          Floods.NextDiffers(n.requestId);
          Floods.LaunchesIff(n, a.event, a.now, c);
        }
      }
    }
  }

  /** Who has taken the latest flood takes no other. */
  lemma LatestStays(s: Net, h: History, a: Action, c: Config, o: Addr, id: U32)
    requires TreeInv(s, h, o) && NoneLater(s, o, id) && CanStep(s, a) && TreeGuard(s, h, a, c, o)
    requires forall x :: x in h ==> h[x].id <= id
    ensures var h' := Note(h, s, a, c, o);
            && (forall x :: x in h' ==> h'[x].id <= id)
            && (forall x :: x in h && h[x].id == id ==> x in h' && h'[x] == h[x])
  {
    hide Calm, Floods.Unseen;
  }

  /** What belongs to the flood climbs. */
  lemma AnswerClimbs(s: Net, h: History, good: Replies, a: Action, c: Config, o: Addr, id: U32, p: Packet)
    requires HomeInv(s, h, good, o, id) && c.Sane() && CanStep(s, a) && HomeGuard(s, h, a, c, o, id)
    requires (a.node, p) in Answers(good, s, h, a, c, o, id) && (a.node, p) !in good
    ensures Climbing(Note(h, s, a, c, o), a.node, p, o, id)
  {
    hide Handle, Takes, Calm, TreeEffect, Homeward, Steady, Floods.Conserved, Floods.Launches;
    var x := a.node;
    var n, r, h' := s[x], Handle(s[x], a.event, a.now, c), Note(h, s, a, c, o);
    HistoryKept(s, h, a, c, o);
    LatestStays(s, h, a, c, o, id);
    assert x != o;
    assert Entered(n.table, h, x, o);
    EnteredSteady(n, h, a.now, o);
    TreeStep(n, a.event, a.now, c, o);
    EntryKept(s, h, a, c, o);
    assert Rooted(h', x, o);
    if p.ttl == r.table[o].hops % 0x100 {
      AnsweredUp(h', r.table, x, p, o, id);
    } else {
      assert Climbing(h, a.event.sender, a.event.packet, o, id);
      assert h'[x] == h[x];
    }
  }

  /** A node's own answer has its distance as TTL. */
  lemma AnsweredUp(h: History, t: Table, x: Addr, p: Packet, o: Addr, id: U32)
    requires x in h && x != o && h[x].id == id && Rooted(h, x, o) && (forall y :: y in h ==> h[y].id <= id)
    requires o in t && Entered(t, h, x, o) && p.target == To(t[o].nextHop) && p.ttl == t[o].hops % 0x100
    ensures Climbing(h, x, p, o, id)
  {
  }

  lemma HomeKept(s: Net, h: History, good: Replies, a: Action, c: Config, o: Addr, id: U32)
    requires HomeInv(s, h, good, o, id) && c.Sane() && CanStep(s, a) && HomeGuard(s, h, a, c, o, id)
    ensures HomeInv(StepTo(s, a, c), Note(h, s, a, c, o), Answers(good, s, h, a, c, o, id), o, id)
  {
    hide Handle, TreeInv, Note, Climbing, NoneLater, Homeward, Takes, Floods.Launches;
    var s', h', good' := StepTo(s, a, c), Note(h, s, a, c, o), Answers(good, s, h, a, c, o, id);
    SoundTree(s, h, o, a.node);
    SoundNet(s, h, o);
    TreeKept(s, h, a, c, o);
    NoneLaterKept(s, a, c, o, id);
    LatestStays(s, h, a, c, o, id);
    Floods.FloodStep(s[a.node], a.event, a.now, c);
    LogGrows(s[a.node], a.event, a.now, c);
    forall g | g in good'
      ensures g.0 in s' && g.1 in s'[g.0].sent && Homeward(g.1, o) && Climbing(h', g.0, g.1, o, id)
    {
      if g in good {
        StillClimbing(h, h', g.0, g.1, o, id);
      } else {
        AnswerClimbs(s, h, good, a, c, o, id, g.1);
      }
    }
  }

  lemma SoundNet(s: Net, h: History, o: Addr)
    requires TreeInv(s, h, o)
    ensures Sound(s)
  {
  }

  lemma LogGrows(n: Node, ev: Event, now: int, c: Config)
    requires Floods.FloodEffect(n, Handle(n, ev, now, c), ev, now, c)
    ensures forall p :: p in n.sent ==> p in Handle(n, ev, now, c).sent
  {
    hide Handle;
    var r := Handle(n, ev, now, c);
    assert n.sent <= r.sent;
  }

  lemma StillClimbing(h: History, h': History, y: Addr, p: Packet, o: Addr, id: U32)
    requires Climbing(h, y, p, o, id) && forall x :: x in h && h[x].id == id ==> x in h' && h'[x] == h[x]
    ensures Climbing(h', y, p, o, id)
  {
  }

  ghost predicate HomeRun(s: Net, h: History, acts: seq<Action>, c: Config, o: Addr, id: U32)
    decreases |acts|
  {
    acts == [] || (CanStep(s, acts[0]) && HomeGuard(s, h, acts[0], c, o, id)
                   && HomeRun(StepTo(s, acts[0], c), Note(h, s, acts[0], c, o), acts[1..], c, o, id))
  }

  ghost function FinalAnswers(good: Replies, s: Net, h: History, acts: seq<Action>, c: Config, o: Addr,
                              id: U32): Replies
    decreases |acts|
  {
    if acts == [] || acts[0].node !in s then good
    else FinalAnswers(Answers(good, s, h, acts[0], c, o, id), StepTo(s, acts[0], c), Note(h, s, acts[0], c, o),
                      acts[1..], c, o, id)
  }

  lemma {:induction false} HomeAlways(s: Net, h: History, good: Replies, acts: seq<Action>, c: Config, o: Addr, id: U32)
    requires HomeInv(s, h, good, o, id) && c.Sane() && HomeRun(s, h, acts, c, o, id)
    ensures HomeInv(Final(s, acts, c), FinalHistory(s, h, acts, c, o), FinalAnswers(good, s, h, acts, c, o, id), o, id)
    decreases |acts|
  {
    hide HomeInv, HomeGuard, Note, Answers;
    if acts != [] {
      HomeKept(s, h, good, acts[0], c, o, id);
      HomeAlways(StepTo(s, acts[0], c), Note(h, s, acts[0], c, o), Answers(good, s, h, acts[0], c, o, id), acts[1..],
                 c, o, id);
    }
  }

  /** The run before the latest flood, and the run from then on. */
  ghost predicate Phases(s: Net, before: seq<Action>, acts: seq<Action>, c: Config, o: Addr, id: U32) {
    && Initial(s) && o in s && TreeRun(s, map[], before, c, o)
    && var f, h := Final(s, before, c), FinalHistory(s, map[], before, c, o);
       NoneLater(f, o, id) && HomeRun(f, h, acts, c, o, id)
  }

  /** The network, the history and the RREPs of the latest flood at the end. */
  ghost function EndNet(s: Net, before: seq<Action>, acts: seq<Action>, c: Config): Net {
    Final(Final(s, before, c), acts, c)
  }

  ghost function EndHistory(s: Net, before: seq<Action>, acts: seq<Action>, c: Config, o: Addr): History {
    FinalHistory(Final(s, before, c), FinalHistory(s, map[], before, c, o), acts, c, o)
  }

  ghost function EndAnswers(s: Net, before: seq<Action>, acts: seq<Action>, c: Config, o: Addr, id: U32): Replies {
    FinalAnswers({}, Final(s, before, c), FinalHistory(s, map[], before, c, o), acts, c, o, id)
  }

  lemma EndInv(s: Net, before: seq<Action>, acts: seq<Action>, c: Config, o: Addr, id: U32)
    requires c.Sane() && Phases(s, before, acts, c, o, id)
    ensures HomeInv(EndNet(s, before, acts, c), EndHistory(s, before, acts, c, o),
                    EndAnswers(s, before, acts, c, o, id),
                    o, id)
  {
    hide TreeRun, HomeRun, Final, FinalHistory, FinalAnswers, TreeInv;
    TreeStarts(s, o);
    BoundedAlways(s, map[], before, c, o);
    TakenWasSent(Final(s, before, c), FinalHistory(s, map[], before, c, o), o, id);
    HomeAlways(Final(s, before, c), FinalHistory(s, map[], before, c, o), {}, acts, c, o, id);
  }

  lemma TreeStarts(s: Net, o: Addr)
    requires Initial(s) && o in s
    ensures TreeInv(s, map[], o) && Bounded(s, map[], o)
  {
  }

  /** Nobody has taken a flood that `o` has not sent. */
  lemma TakenWasSent(s: Net, h: History, o: Addr, id: U32)
    requires Bounded(s, h, o) && NoneLater(s, o, id)
    ensures forall x :: x in h ==> h[x].id <= id
  {
    forall x | x in h
      ensures h[x].id <= id
    {
      assert Floods.WithinTtl(s, o, h[x].id, h[x].hop);
    }
  }

  /** A RREP that answers the latest flood is never dropped for its TTL on its way home: after any number of
      floods, as long as `o` starts no later one, every such RREP on the air is addressed to `o`, or arrives
      with a TTL of at least two at a node that is closer to `o` and knows a way on. */
  lemma NeverDropped(s: Net, before: seq<Action>, acts: seq<Action>, c: Config, o: Addr, id: U32, y: Addr, p: Packet)
    requires c.Sane() && Phases(s, before, acts, c, o, id) && (y, p) in EndAnswers(s, before, acts, c, o, id)
    ensures p.target.To?
    ensures p.target.addr != o ==>
              var f, z := EndNet(s, before, acts, c), p.target.addr;
              p.ttl >= 2 && z in f && z != y && o in f[z].table && f[z].table[o].flag != IN_SEARCH
  {
    hide Phases, Handle, EndNet, EndHistory, EndAnswers, Floods.Conserved;
    EndInv(s, before, acts, c, o, id);
    var f, h := EndNet(s, before, acts, c), EndHistory(s, before, acts, c, o);
    assert Climbing(h, y, p, o, id);
    if p.target.addr != o {
      assert Rooted(h, p.target.addr, o) && Entered(f[p.target.addr].table, h, p.target.addr, o);
    }
  }

  /** In the latest flood the way home is no longer than the distance. */
  lemma {:induction false} LatestWay(s: Net, h: History, good: Replies, o: Addr, id: U32, z: Addr, now: int)
    requires HomeInv(s, h, good, o, id) && WayHome(s, h, o, z, now) && (z != o ==> z in h && h[z].id == id)
    ensures z != o ==> WayLength(s, h, o, z, now) <= h[z].hop
    ensures z == o ==> WayLength(s, h, o, z, now) == 0
    decreases FloodsAbove(h, o, z), HopsAbove(h, o, z)
  {
    hide ViewOf, TreeInv, Climbing, NoneLater;
    if z != o {
      var next := NextHome(s, h, o, z, now);
      if next != o {
        LatestWay(s, h, good, o, id, next, now);
      } else {
        PositiveHop(s, h, o, z);
      }
    }
  }

  lemma PositiveHop(s: Net, h: History, o: Addr, z: Addr)
    requires TreeInv(s, h, o) && z in h
    ensures h[z].hop >= 1
  {
    assert Rooted(h, z, o);
  }

  /** So its RREPs get home whenever no node on the way has forgotten it. */
  lemma AnswersLast(s: Net, h: History, good: Replies, o: Addr, id: U32, y: Addr, p: Packet, now: int)
    requires HomeInv(s, h, good, o, id) && (y, p) in good && (p.target.To? ==> WayHome(s, h, o, p.target.addr, now))
    ensures Lasts(s, h, o, y, p, now)
  {
    hide ViewOf, TreeInv, NoneLater;
    assert Climbing(h, y, p, o, id);
    SoundTree(s, h, o, y);
    LatestWay(s, h, good, o, id, p.target.addr, now);
  }

  // ------------------------------------------------------------------------------- which flood is the latest

  /** As long as its id does not wrap, the last flood of `o` is the latest. */
  lemma {:induction false} LastIsLatest(s: Net, acts: seq<Action>, c: Config, o: Addr)
    requires Sound(s) && o in s && NoneLater(s, o, s[o].requestId) && c.Sane() && CanRun(s, acts, c)
    requires s[o].requestId + |acts| < 0x1_0000_0000
    ensures o in Final(s, acts, c) && NoneLater(Final(s, acts, c), o, Final(s, acts, c)[o].requestId)
    decreases |acts|
  {
    hide Handle, NoneLater;
    if acts != [] {
      LaterStep(s, acts[0], c, o);
      LastIsLatest(StepTo(s, acts[0], c), acts[1..], c, o);
    }
  }

  lemma LaterStep(s: Net, a: Action, c: Config, o: Addr)
    requires Sound(s) && o in s && NoneLater(s, o, s[o].requestId) && c.Sane() && CanStep(s, a)
    requires s[o].requestId + 1 < 0x1_0000_0000
    ensures var s' := StepTo(s, a, c);
            && Sound(s') && s[o].requestId <= s'[o].requestId <= s[o].requestId + 1
            && NoneLater(s', o, s'[o].requestId)
  {
    hide Handle, Floods.Unseen, Floods.Launches;
    var n, s' := s[a.node], StepTo(s, a, c);
    Floods.FloodStep(n, a.event, a.now, c);
    if a.event.Receive? {
      ReceiveLaunchesNone(n, a.event, a.now, c);
    } else {
      Floods.LaunchesIff(n, a.event, a.now, c);
    }
    NoneLaterKept(s, a, c, o, s'[o].requestId);
  }

  lemma ReceiveLaunchesNone(n: Node, ev: Event, now: int, c: Config)
    requires ev.Receive?
    ensures !Floods.Launches(n, ev, now, c)
  {
  }
}
