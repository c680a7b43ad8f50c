/** Discovery by expanding rings in a network that knows nothing: the smaller rings go unanswered, their timers
    fire, and a later ring finds the destination; along any path that fits it. */
module RingDiscoveries {
  import opened Basics
  import opened SequenceNumbers
  import opened RouteEntries
  import opened Nodes
  import opened Networks
  import opened Discoveries
  import RouteViews
  import NodeViews
  import Floods
  import ReverseTrees
  import ForwardRoutes
  import RingBudgets
  import RingGuards
  import Q = PacketQueues
  import C = IdCaches

  // ------------------------------------------------------------------------------- the originator

  /** One of the first `i + 1` requests for `d` of the node, whose ids come after `base`. */
  predicate OwnRing(p: Packet, me: Addr, d: Addr, base: U32, i: nat) {
    && p.msg.Rreq? && p.target == Broadcast && p.msg.rreq.origin == me && p.msg.rreq.dst == d
    && p.msg.rreq.hopCount == 0 && Age(base, p.msg.rreq.requestID) <= i + 1
  }

  /** The node has sent the rings up to number `i` for `d`, the last at time `now`, and knows nothing else. */
  ghost predicate Rung(n: Node, d: Addr, base: U32, i: nat, now: int, c: Config) {
    && WellFormed(n.table) && n.table.Keys == {d} && !n.table[d].validSeqNo && n.nb == []
    && RingBudgets.Asked(n, d, RingBudgets.RingAt(i, c), now, c) && n.requestId == Advance(base, i + 1)
    && (forall p :: p in n.sent ==> OwnRing(p, n.me, d, base, i))
    && n.sent[|n.sent| - 1].msg.rreq.requestID == n.requestId
    && (forall u :: u in n.idCache ==> Age(base, u.id) <= i + 1 && (u.id == n.requestId ==> u.expire >= now))
  }

  /** Request number `i`, from a node on which nothing but the earlier ones has happened. */
  lemma OneRing(n: Node, d: Addr, base: U32, i: nat, now: int, c: Config)
    requires WellFormed(n.table) && c.Sane() && c.pathDiscoveryTime >= 0 && n.table.Keys <= {d} && d != UNSET
    requires d in n.table ==> !n.table[d].validSeqNo
    requires n.nb == [] && n.rreqCount != c.rreqRateLimit && n.requestId == Advance(base, i) && i + 1 < HALF
    requires forall p :: p in n.sent ==> i > 0 && OwnRing(p, n.me, d, base, i - 1)
    requires forall u :: u in n.idCache ==> Age(base, u.id) <= i
    requires RingBudgets.Asked(SendRequest(n, d, now, c), d, RingBudgets.RingAt(i, c), now, c)
    ensures Rung(SendRequest(n, d, now, c), d, base, i, now, c)
  {
    hide SendRequest, RingBudgets.RingAt, RingBudgets.Stuck, RingBudgets.Wait, Age, C.Remember;
    var r := SendRequest(n, d, now, c);
    NodeViews.SendRequestView(n, d, now, c);
    RingGuards.Requested(n, d, now, c);
    OnlyThat(n, d, now, c);
    CounterAge(base, i);
    CounterAge(base, i + 1);
    forall u | u in r.idCache
      ensures Age(base, u.id) <= i + 1 && (u.id == r.requestId ==> u.expire >= now)
    {
      Remembered(n.idCache, n.me, r.requestId, now, c.pathDiscoveryTime, u);
    }
    var p :| NodeViews.OwnRequest(n, r, p) && p.msg.rreq.dst == d && r.sent == n.sent + [p];
    assert forall q :: q in r.sent ==> q in n.sent || q == p;
  }

  lemma Remembered(cache: C.Cache, me: Addr, id: U32, now: int, lifetime: int, u: C.UniqueId)
    requires u in C.Remember(cache, me, id, now, lifetime) && lifetime >= 0
    ensures (u in cache && u.expire >= now) || u == C.UniqueId(me, id, now + lifetime)
  {
    InFilter(cache, C.Current(now));
  }

  /** A request adds no entry but that of its destination, and no number to that. */
  lemma OnlyThat(n: Node, d: Addr, now: int, c: Config)
    requires WellFormed(n.table) && n.table.Keys <= {d} && n.rreqCount != c.rreqRateLimit
    requires d in n.table ==> !n.table[d].validSeqNo
    ensures var r := SendRequest(n, d, now, c); r.table.Keys <= {d} && (d in r.table ==> !r.table[d].validSeqNo)
  {
    hide NextTtl, C.Remember, RequestHeader;
  }

  /** The first data packet for `d` at a node that knows nothing. */
  lemma FirstRing(n: Node, e: Q.QueueEntry, now: int, c: Config)
    requires n.table == map[] && n.sent == [] && n.idCache == [] && n.nb == [] && n.queue.waiting == []
    requires n.rreqCount != c.rreqRateLimit && c.Sane() && c.pathDiscoveryTime >= 0 && e.dst != UNSET
    ensures var r := Handle(n, Output(e), now, c);
            && Rung(r, e.dst, n.requestId, 0, now, c) && r.rreqCount == Bump16(n.rreqCount) && r.me == n.me
            && (r.aborted <==> n.aborted || RingBudgets.Stuck(RingBudgets.RingAt(0, c), c))
  {
    hide SendRequest, Q.Enqueue, Rung, RingBudgets.Asked;
    var t := Purge(n.table, now, c.deletePeriod);
    assert t == map[];
    assert Q.Accepts(n.queue, e, now);
    var m := n.(table := t, queue := Q.Enqueue(n.queue, e, now, c.maxQueueLen, c.maxQueueTime));
    assert Purge(m.table, now, c.deletePeriod) == map[];
    RingBudgets.FirstAsks(m, e.dst, now, c);
    OneRing(m, e.dst, n.requestId, 0, now, c);
    CountedOnce(m, e.dst, now, c);
  }

  lemma CountedOnce(n: Node, d: Addr, now: int, c: Config)
    requires n.rreqCount != c.rreqRateLimit
    ensures SendRequest(n, d, now, c).rreqCount == Bump16(n.rreqCount) && SendRequest(n, d, now, c).me == n.me
  {
    hide SearchTable, RequestHeader, C.Remember, Purge;
  }

  /** The timer of ring `i` fires. */
  lemma NextRing(n: Node, d: Addr, base: U32, i: nat, since: int, now: int, c: Config)
    requires Rung(n, d, base, i, since, c) && c.Sane() && c.pathDiscoveryTime >= 0 && d != UNSET && i + 2 < HALF
    requires n.rreqCount != c.rreqRateLimit && RingBudgets.RingAt(i, c).count != c.rreqRetries
    ensures var r := Handle(n, RreqTimer(d), now, c);
            && Rung(r, d, base, i + 1, now, c) && r.rreqCount == Bump16(n.rreqCount) && r.me == n.me
            && (r.aborted <==> n.aborted || RingBudgets.Stuck(RingBudgets.RingAt(i + 1, c), c))
  {
    hide SendRequest, GiveUp, SendPacketFromQueue, RingBudgets.Grow, RingBudgets.Stuck, RingBudgets.Wait, Age;
    assert RingBudgets.RingAt(i + 1, c) == RingBudgets.Grow(RingBudgets.RingAt(i, c), c);
    RingBudgets.NextAsks(n, d, RingBudgets.RingAt(i, c), now, c);
    SearchKept(n.table, d, now, c);
    var m := n.(timers := n.timers - {d});
    assert Handle(n, RreqTimer(d), now, c) == SendRequest(m, d, now, c);
    OneRing(m, d, base, i + 1, now, c);
    CountedOnce(m, d, now, c);
  }

  lemma SearchKept(t: Table, d: Addr, now: int, c: Config)
    requires t.Keys == {d} && t[d].flag == IN_SEARCH
    ensures Purge(t, now, c.deletePeriod) == t
  {
  }

  // ------------------------------------------------------------------------------- the network

  /** The parameters let request number `k` go out: no ring before it has used up the retries, and none aborts. */
  ghost predicate Reachable(k: nat, c: Config) {
    forall j :: 0 <= j <= k ==>
      !RingBudgets.Stuck(RingBudgets.RingAt(j, c), c) && (j < k ==> RingBudgets.RingAt(j, c).count != c.rreqRetries)
  }

  /** Nothing has happened but the first `i + 1` requests of `o`. */
  ghost predicate OnlyRings(s: Net, f: Net, o: Addr, d: Addr, i: nat, now: int, c: Config)
    requires o in s
  {
    && f.Keys == s.Keys && (forall x :: x in s && x != o ==> f[x] == s[x])
    && Rung(f[o], d, s[o].requestId, i, now, c) && f[o].me == o && f[o].rreqCount == s[o].rreqCount + i + 1
    && !f[o].aborted && ReverseTrees.TreeInv(f, map[], o) && now >= 0
  }

  /** The flood of a later ring has not begun. */
  lemma NotYet(n: Node, d: Addr, base: U32, i: nat, since: int, now: int, id: U32, c: Config)
    requires Rung(n, d, base, i, since, c) && Age(base, id) > i + 1
    ensures Floods.RecordLives(n.idCache, now, n.me, id) && !C.Holds(n.idCache, n.me, id)
  {
    hide RingBudgets.Asked, Age;
  }

  /** What a blank network needs for `k + 1` requests of `o`. */
  ghost predicate Ready(s: Net, o: Addr, e: Q.QueueEntry, start: int, k: nat, c: Config) {
    && Blank(s) && o in s && e.dst in s && e.dst != o && start >= 0
    && s[o].nb == [] && s[o].queue.waiting == [] && !s[o].aborted && s[o].rreqCount + k < c.rreqRateLimit
    && c.Sane() && c.pathDiscoveryTime >= 0 && c.nodeTraversalTime >= 0 && c.netTraversalTime >= 0
    && Reachable(k, c)
  }

  lemma FirstOut(s: Net, o: Addr, e: Q.QueueEntry, start: int, k: nat, c: Config)
    requires Ready(s, o, e, start, k, c)
    ensures var a := Action(o, Output(e), start);
            && CanStep(s, a) && OnlyRings(s, StepTo(s, a, c), o, e.dst, 0, start, c)
            && Floods.OnceInv(StepTo(s, a, c), o, Advance(s[o].requestId, k + 1))
  {
    hide Handle, Floods.OnceInv, ReverseTrees.TreeInv, Rung, Age, Reachable, RingBudgets.RingAt, Floods.FloodLives,
      Blank, RingBudgets.Stuck, Advance;
    var a, id := Action(o, Output(e), start), Advance(s[o].requestId, k + 1);
    SoundBlank(s, o, e.dst);
    StillReachable(0, k, c);
    FirstRing(s[o], e, start, c);
    BlankIsInitial(s);
    Floods.OnceStart(s, o, id);
    NothingHeld(s[o], start, o, id);
    Floods.OnceStep(s, a, c, o, id);
    TreeStarts(s, o);
    ReverseTrees.TreeKept(s, map[], a, c, o);
  }

  lemma BlankIsInitial(s: Net)
    requires Blank(s)
    ensures Initial(s)
  {
  }

  /** The timer of ring `i` fires when it expires. */
  lemma NextOut(s: Net, f: Net, o: Addr, e: Q.QueueEntry, start: int, i: nat, k: nat, since: int, c: Config)
    returns (now: int)
    requires Ready(s, o, e, start, k, c) && i < k && OnlyRings(s, f, o, e.dst, i, since, c)
    requires Floods.OnceInv(f, o, Advance(s[o].requestId, k + 1))
    ensures o in f && e.dst in f[o].timers && now == f[o].timers[e.dst]
    ensures var a := Action(o, RreqTimer(e.dst), now);
            && CanStep(f, a) && OnlyRings(s, StepTo(f, a, c), o, e.dst, i + 1, now, c)
            && Floods.OnceInv(StepTo(f, a, c), o, Advance(s[o].requestId, k + 1))
  {
    hide Handle, Floods.OnceInv, ReverseTrees.TreeInv, Rung, Age, Reachable, RingBudgets.RingAt, Floods.FloodLives,
      Blank, RingBudgets.Stuck, Advance;
    var d, base, id := e.dst, s[o].requestId, Advance(s[o].requestId, k + 1);
    SoundBlank(s, o, d);
    StillReachable(i, k, c);
    StillReachable(i + 1, k, c);
    now := ExpiresLater(f[o], d, base, i, since, c);
    var a := Action(o, RreqTimer(d), now);
    NextRing(f[o], d, base, i, since, now, c);
    LaterAge(f[o], d, base, i, since, now, k, id, c);
    Floods.OnceStep(f, a, c, o, id);
    ReverseTrees.TreeKept(f, map[], a, c, o);
  }

  /** The first `i` timers, each at its expiry. */
  lemma {:induction false} RingsGoOut(s: Net, o: Addr, e: Q.QueueEntry, start: int, i: nat, k: nat, c: Config)
    returns (acts: seq<Action>, now: int)
    requires Ready(s, o, e, start, k, c) && i <= k
    ensures o in s && |acts| == i + 1 && CanRun(s, acts, c) && OnTime(s, acts, o, e, start, c)
    ensures OnlyRings(s, Final(s, acts, c), o, e.dst, i, now, c)
    ensures Floods.OnceInv(Final(s, acts, c), o, Advance(s[o].requestId, k + 1))
  {
    hide Handle, Floods.OnceInv, OnlyRings, Ready, CanStep;
    OriginReady(s, o, e, start, k, c);
    if i == 0 {
      now := start;
      acts := [Action(o, Output(e), start)];
      FirstOut(s, o, e, start, k, c);
      assert acts[1..] == [] && Final(s, acts, c) == Final(StepTo(s, acts[0], c), [], c);
    } else {
      var before, since := RingsGoOut(s, o, e, start, i - 1, k, c);
      now := NextOut(s, Final(s, before, c), o, e, start, i - 1, k, since, c);
      var a := Action(o, RreqTimer(e.dst), now);
      Extend(s, before, a, c);
      acts := before + [a];
      StillOnTime(s, before, a, o, e, start, c);
    }
  }

  lemma OriginReady(s: Net, o: Addr, e: Q.QueueEntry, start: int, k: nat, c: Config)
    requires Ready(s, o, e, start, k, c)
    ensures o in s
  {
  }

  /** The first action is the data packet; each of the others is the timer of the search, at its expiry. */
  ghost predicate OnTime(s: Net, acts: seq<Action>, o: Addr, e: Q.QueueEntry, start: int, c: Config) {
    forall j :: 0 <= j < |acts| ==>
      if j == 0 then acts[j] == Action(o, Output(e), start)
      else var f := Final(s, acts[..j], c);
           o in f && e.dst in f[o].timers && acts[j] == Action(o, RreqTimer(e.dst), f[o].timers[e.dst])
  }

  lemma StillOnTime(s: Net, before: seq<Action>, a: Action, o: Addr, e: Q.QueueEntry, start: int, c: Config)
    requires OnTime(s, before, o, e, start, c) && before != []
    requires var f := Final(s, before, c);
             o in f && e.dst in f[o].timers && a == Action(o, RreqTimer(e.dst), f[o].timers[e.dst])
    ensures OnTime(s, before + [a], o, e, start, c)
  {
    hide Final;
    var acts := before + [a];
    forall j | 0 <= j < |acts|
      ensures acts[..j] == before[..if j < |before| then j else |before|]
    {
    }
    assert before[..|before|] == before;
  }

  lemma SoundBlank(s: Net, o: Addr, d: Addr)
    requires Blank(s) && o in s && d in s
    ensures o != UNSET && d != UNSET && s[o].me == o && s[o].table == map[] && s[o].sent == [] && s[o].idCache == []
    ensures Sound(s)
  {
  }

  lemma TreeStarts(s: Net, o: Addr)
    requires Blank(s) && o in s
    ensures ReverseTrees.TreeInv(s, map[], o)
  {
  }

  lemma NothingHeld(n: Node, now: int, o: Addr, id: U32)
    requires n.idCache == []
    ensures Floods.FloodLives(n, now, o, id)
  {
  }

  /** Before its ring goes out, the id is not in use. */
  lemma LaterAge(n: Node, d: Addr, base: U32, i: nat, since: int, now: int, k: nat, id: U32, c: Config)
    requires Rung(n, d, base, i, since, c) && i < k && k + 1 < HALF && id == Advance(base, k + 1)
    ensures Floods.FloodLives(n, now, n.me, id)
  {
    CounterAge(base, k + 1);
    NotYet(n, d, base, i, since, now, id, c);
  }

  lemma StillReachable(j: nat, k: nat, c: Config)
    requires Reachable(k, c) && j <= k
    ensures !RingBudgets.Stuck(RingBudgets.RingAt(j, c), c)
    ensures j < k ==> RingBudgets.RingAt(j, c).count != c.rreqRetries
  {
  }

  lemma ExpiresLater(n: Node, d: Addr, base: U32, i: nat, since: int, c: Config) returns (now: int)
    requires Rung(n, d, base, i, since, c) && !RingBudgets.Stuck(RingBudgets.RingAt(i, c), c)
    requires c.nodeTraversalTime >= 0 && c.netTraversalTime >= 0 && since >= 0
    ensures d in n.timers && now == n.timers[d] && now >= since
  {
    hide RingBudgets.RingAt, Pow2;
    now := n.timers[d];
    var r := RingBudgets.RingAt(i, c);
    if r.hops < c.netDiameter {
      NoLess(2 * c.nodeTraversalTime, r.hops + c.timeoutBuffer);
    } else {
      NoLess(c.netTraversalTime, Pow2(r.count - 1));
    }
  }

  lemma NoLess(a: int, b: int)
    requires a >= 0 && b >= 0
    ensures a * b >= 0
  {
  }

  /** One step more at the end of a run. */
  lemma {:induction false} Extend(s: Net, acts: seq<Action>, a: Action, c: Config)
    requires CanRun(s, acts, c) && CanStep(Final(s, acts, c), a)
    ensures CanRun(s, acts + [a], c) && Final(s, acts + [a], c) == StepTo(Final(s, acts, c), a, c)
    decreases |acts|
  {
    hide Handle;
    if acts == [] {
      assert [] + [a] == [a] && [a][1..] == [];
      assert Final(StepTo(s, a, c), [], c) == StepTo(s, a, c);
    } else {
      Extend(StepTo(s, acts[0], c), acts[1..], a, c);
      TailOfConcat(acts, [a]);
    }
  }

  /** After its rings, the originator's latest flood is a discovery that can begin. */
  lemma RingStarts(s: Net, f: Net, o: Addr, d: Addr, k: nat, now: int, c: Config)
    requires Blank(s) && o in s && d in s && d != o && OnlyRings(s, f, o, d, k, now, c)
    requires Floods.OnceInv(f, o, Advance(s[o].requestId, k + 1))
    ensures DiscoveryInv(f, map[], o, d, f[o].requestId) && !ForwardRoutes.Known(f[o].table, d)
    ensures Awake(f[o], now, o, f[o].requestId)
  {
    hide ReverseTrees.TreeInv, Floods.OnceInv, Age;
    CounterAge(s[o].requestId, k + 1);
  }

  /** In the latest ring of a blank network, too, every route that the RREP leaves anywhere leads to the
      destination in exactly the stored number of hops, in every order of deliveries. */
  lemma RingIsExact(s: Net, f: Net, o: Addr, d: Addr, k: nat, now: int, acts: seq<Action>, c: Config, x: Addr)
    requires Blank(s) && o in s && d in s && d != o && OnlyRings(s, f, o, d, k, now, c) && c.Sane()
    requires Floods.OnceInv(f, o, Advance(s[o].requestId, k + 1)) && DeliveryRun(f, acts, c, o, f[o].requestId)
    requires x in Final(f, acts, c) && x != d && ForwardRoutes.Known(Final(f, acts, c)[x].table, d)
    ensures ForwardRoutes.Chain(Final(f, acts, c), x, d, Final(f, acts, c)[x].table[d].hops)
  {
    hide DiscoveryInv, DeliveryRun, Final, ForwardRoutes.Chain, OnlyRings, Floods.OnceInv;
    RingStarts(s, f, o, d, k, now, c);
    Present(s, f, o, d, k, now, c);
    DiscoveryAlways(f, map[], acts, c, o, d, f[o].requestId);
    InvMeansChain(Final(f, acts, c), ReverseTrees.FinalHistory(f, map[], acts, c, o), o, d, f[o].requestId, x);
  }

  lemma Present(s: Net, f: Net, o: Addr, d: Addr, k: nat, now: int, c: Config)
    requires o in s && OnlyRings(s, f, o, d, k, now, c)
    ensures o in f
  {
  }

  /** Every blank network completes a discovery along any path of distinct relays that ring number `k` allows:
      the first data packet and the timers of the rings before it, each at its expiry, send `k + 1` requests;
      the last of them travels along the path, and the RREP back along it leaves `o` with a VALID route of its
      exact length. */
  lemma BlankDiscovery(s: Net, o: Addr, e: Q.QueueEntry, path: seq<Addr>, start: int, k: nat, c: Config)
    returns (rings: seq<Action>, acts: seq<Action>)
    requires Ready(s, o, e, start, k, c) && (forall x :: x in s ==> s[x].nb == [])
    requires NoDuplicates(path) && (forall x :: x in path ==> x in s && x != o && x != e.dst)
    requires |path| < RingBudgets.RingAt(k, c).hops % 0x100 && Patient(c, |path| + 1)
    ensures |rings| == k + 1 && CanRun(s, rings, c) && OnTime(s, rings, o, e, start, c)
    ensures var f := Final(s, rings, c); var end := Final(f, acts, c);
            && o in f && DeliveryRun(f, acts, c, o, f[o].requestId)
            && o in end && ForwardRoutes.Known(end[o].table, e.dst)
            && ForwardRoutes.Chain(end, o, e.dst, end[o].table[e.dst].hops)
            && end[o].table[e.dst].hops == |path| + 1
  {
    hide Handle, DiscoveryInv, ForwardRoutes.Chain, DeliveryRun, Final, ForwardRoutes.Known, Patient, Lasting,
      RingBudgets.RingAt, Rung, Reachable, Floods.OnceInv, OnTime, CanRun, Blank, Advance;
    var now;
    rings, now := RingsGoOut(s, o, e, start, k, k, c);
    var f := Final(s, rings, c);
    var id := f[o].requestId;
    RingStarts(s, f, o, e.dst, k, now, c);
    var p := LastRequest(f[o], o, e.dst, s[o].requestId, k, now, c);
    forall x | x in f
      ensures Awake(f[x], now, o, id) && (x != o ==> Empty(f[x]))
    {
      if x != o {
        EmptyLasts(s, x, now, o, id);
      }
    }
    StraightAtFirst(f, o, now);
    acts := CompletesAlong(f, map[], o, e.dst, id, o, p, path, now, c);
  }

  /** With the default attributes the fifth ring reaches any destination within 35 hops. */
  lemma DefaultRings()
    ensures Reachable(4, DEFAULTS) && RingBudgets.RingAt(4, DEFAULTS).hops == 35 && Patient(DEFAULTS, 35)
  {
    var c := DEFAULTS;
    assert RingBudgets.RingAt(0, c) == RingBudgets.Ring(1, 0);
    assert RingBudgets.RingAt(1, c) == RingBudgets.Ring(3, 0);
    assert RingBudgets.RingAt(2, c) == RingBudgets.Ring(5, 0);
    assert RingBudgets.RingAt(3, c) == RingBudgets.Ring(7, 0);
    assert RingBudgets.RingAt(4, c) == RingBudgets.Ring(35, 1);
    forall j | 0 <= j <= 4
      ensures !RingBudgets.Stuck(RingBudgets.RingAt(j, c), c) && RingBudgets.RingAt(j, c).count != c.rreqRetries
    {
      if j == 0 || j == 1 || j == 2 || j == 3 {
        assert RingBudgets.RingAt(j, c).hops < 35;
      }
    }
  }

  lemma StraightAtFirst(s: Net, o: Addr, now: int)
    ensures Straight(s, map[], o, now)
  {
  }

  lemma EmptyLasts(s: Net, x: Addr, now: int, o: Addr, id: U32)
    requires Blank(s) && x in s && s[x].nb == []
    ensures Empty(s[x]) && Awake(s[x], now, o, id)
  {
  }

  /** The last request on the air. */
  lemma LastRequest(n: Node, o: Addr, d: Addr, base: U32, k: nat, now: int, c: Config) returns (p: Packet)
    requires Rung(n, d, base, k, now, c) && n.me == o
    ensures p in n.sent && p.msg.Rreq? && p.target == Broadcast && p.msg.rreq.requestID == n.requestId
    ensures p.msg.rreq.hopCount == 0 && p.ttl == RingBudgets.RingAt(k, c).hops % 0x100
  {
    hide RingBudgets.RingAt, Age;
    p := n.sent[|n.sent| - 1];
    assert OwnRing(p, n.me, d, base, k);
  }
}
