/** The multipath table: per destination a vector of paths, purged only when somebody looks at it,
    and the eager table it stands for, which loses every path the moment it expires. */
module MultipathRoutes {
  import opened Basics

  /** One alternative path; link-quality metrics play no part in any decision and are left out. */
  datatype Path = Path(nextHop: Addr, hopCount: U32, expiry: int)

  type Paths = seq<Path>
  type MultipathTable = map<Addr, Paths>

  function IsLive(now: int): Path -> bool {
    (p: Path) => p.expiry > now
  }

  function NotVia(nextHop: Addr): Path -> bool {
    (p: Path) => p.nextHop != nextHop
  }

  /** The paths that have not reached their expiry time. */
  function Live(ps: Paths, now: int): Paths {
    Filter(ps, IsLive(now))
  }

  /** Replaces the path through `nextHop` where it stands, or adds one at the end. */
  function Put(ps: Paths, path: Path): (r: Paths) {
    if ps == [] then [path]
    else if ps[0].nextHop == path.nextHop then [path] + ps[1..]
    else [ps[0]] + Put(ps[1..], path)
  }

  /** A path through a next hop not seen before goes to the end; otherwise it replaces the first
      path through that next hop. */
  lemma {:induction false} PutAt(ps: Paths, path: Path, i: nat)
    requires i <= |ps| && (forall j :: 0 <= j < i ==> ps[j].nextHop != path.nextHop)
    requires i < |ps| ==> ps[i].nextHop == path.nextHop
    ensures Put(ps, path) == if i < |ps| then ps[i := path] else ps + [path]
  {
    if i > 0 {
      PutAt(ps[1..], path, i - 1);
    }
  }

  function AddPath(ps: Paths, nextHop: Addr, hopCount: U32, lifetime: int, now: int): Paths {
    Put(Live(ps, now), Path(nextHop, hopCount, now + lifetime))
  }

  function RemovePath(ps: Paths, nextHop: Addr): Paths {
    Filter(ps, NotVia(nextHop))
  }

  /** `i` is the first index whose path has the fewest hops. */
  ghost predicate FirstBest(ps: Paths, i: nat) {
    && i < |ps|
    && (forall j :: 0 <= j < |ps| ==> ps[i].hopCount <= ps[j].hopCount)
    && (forall j :: 0 <= j < i ==> ps[i].hopCount < ps[j].hopCount)
  }

  function At(m: MultipathTable, dst: Addr): Paths {
    if dst in m then m[dst] else []
  }

  // ------------------------------------------------------------------------------- operations

  datatype Op =
    | Add(dst: Addr, nextHop: Addr, hopCount: U32, lifetime: int)
    | Remove(dst: Addr, nextHop: Addr)
    | PurgeAll
    | GetAll(dst: Addr)
    | Has(dst: Addr)
    | Best(dst: Addr)

  /** The lazy table: what each operation leaves in the vector of each destination. */
  function Step(m: MultipathTable, op: Op, now: int): MultipathTable {
    match op
    case Add(d, nh, hc, lt) => m[d := AddPath(At(m, d), nh, hc, lt, now)]
    case Remove(d, nh) =>
      if d !in m then m
      else
        var rest := Live(RemovePath(m[d], nh), now);
        if rest == [] then m - {d} else m[d := rest]
    case PurgeAll => Purged(m, now)
    case GetAll(d) => Touched(m, d, now)
    case Has(d) => Touched(m, d, now)
    case Best(d) => Touched(m, d, now)
  }

  function Purged(m: MultipathTable, now: int): MultipathTable {
    map d | d in m && Live(m[d], now) != [] :: Live(m[d], now)
  }

  function Touched(m: MultipathTable, dst: Addr, now: int): MultipathTable {
    if dst in m then m[dst := Live(m[dst], now)] else m
  }

  /** The eager table: at every operation all destinations lose what has expired by then. */
  function EagerStep(m: MultipathTable, op: Op, now: int): MultipathTable {
    var live := Purged(m, now);
    match op
    case Add(d, nh, hc, lt) => Purged(live[d := Put(At(live, d), Path(nh, hc, now + lt))], now)
    case Remove(d, nh) => Purged(live[d := RemovePath(At(live, d), nh)], now)
    case _ => live
  }

  function Run(ops: seq<(Op, int)>): MultipathTable {
    if ops == [] then map[]
    else
      var last := ops[|ops| - 1];
      Step(Run(ops[..|ops| - 1]), last.0, last.1)
  }

  function EagerRun(ops: seq<(Op, int)>): MultipathTable {
    if ops == [] then map[]
    else
      var last := ops[|ops| - 1];
      EagerStep(EagerRun(ops[..|ops| - 1]), last.0, last.1)
  }

  predicate Monotone(ops: seq<(Op, int)>) {
    forall i, j :: 0 <= i < j < |ops| ==> ops[i].1 <= ops[j].1
  }

  // ------------------------------------------------------------------------------- refinement

  lemma LiveAgain(ps: Paths, earlier: int, now: int)
    requires earlier <= now
    ensures Live(Live(ps, earlier), now) == Live(ps, now)
  {
    FilterFilter(ps, IsLive(earlier), IsLive(now), IsLive(now));
  }

  lemma LiveRemove(ps: Paths, nextHop: Addr, now: int)
    ensures Live(RemovePath(ps, nextHop), now) == RemovePath(Live(ps, now), nextHop)
  {
    var both := (p: Path) => p.expiry > now && p.nextHop != nextHop;
    FilterFilter(ps, NotVia(nextHop), IsLive(now), both);
    FilterFilter(ps, IsLive(now), NotVia(nextHop), both);
  }

  lemma PurgedAt(m: MultipathTable, dst: Addr, now: int)
    ensures At(Purged(m, now), dst) == Live(At(m, dst), now)
  {
  }

  /** For every sequence of operations under a clock that does not run backwards, and at every later
      instant, the lazy table purged then is the eager table purged then: expired paths that linger in
      the vectors can never be seen. */
  lemma {:induction false} LazyRefinesEager(ops: seq<(Op, int)>, now: int)
    requires Monotone(ops)
    requires forall i :: 0 <= i < |ops| ==> ops[i].1 <= now
    ensures Purged(Run(ops), now) == Purged(EagerRun(ops), now)
  {
    if ops != [] {
      var init, last := ops[..|ops| - 1], ops[|ops| - 1];
      assert forall i :: 0 <= i < |init| ==> init[i] == ops[i];
      LazyRefinesEager(init, last.1);
      forall d
        ensures Live(At(Run(ops), d), now) == Live(At(EagerRun(ops), d), now)
      {
        StepRefines(Run(init), EagerRun(init), last.0, last.1, d, now);
      }
      SamePurged(Run(ops), EagerRun(ops), now);
    }
  }

  lemma SamePurged(m: MultipathTable, e: MultipathTable, now: int)
    requires forall d :: Live(At(m, d), now) == Live(At(e, d), now)
    ensures Purged(m, now) == Purged(e, now)
  {
    forall d
      ensures d in Purged(m, now) <==> d in Purged(e, now)
      ensures d in Purged(m, now) ==> Purged(m, now)[d] == Purged(e, now)[d]
    {
      assert Live(At(m, d), now) == Live(At(e, d), now);
      assert Live([], now) == [];
    }
  }

  lemma StepRefines(m: MultipathTable, e: MultipathTable, op: Op, at: int, d: Addr, now: int)
    requires at <= now && Purged(m, at) == Purged(e, at)
    ensures Live(At(Step(m, op, at), d), now) == Live(At(EagerStep(e, op, at), d), now)
  {
    SameLive(m, e, d, at, now);
    match op
    case Add(dst, nh, hc, lt) =>
      AddRefines(m, e, dst, nh, hc, lt, d, at, now);
    case Remove(dst, nh) =>
      EagerAt(e, dst, RemovePath(At(Purged(e, at), dst), nh), d, at, now);
      if d == dst {
        RemoveRefines(m, e, nh, d, at, now);
      }
    case PurgeAll => SameLive(m, m, d, at, now);
    case GetAll(dst) => LookRefines(m, e, dst, d, at, now);
    case Has(dst) => LookRefines(m, e, dst, d, at, now);
    case Best(dst) => LookRefines(m, e, dst, d, at, now);
  }

  lemma SameLive(m: MultipathTable, e: MultipathTable, d: Addr, at: int, now: int)
    requires at <= now && Purged(m, at) == Purged(e, at)
    ensures Live(At(m, d), at) == Live(At(e, d), at) == At(Purged(e, at), d)
    ensures Live(At(Purged(e, at), d), now) == Live(At(m, d), now) == Live(At(e, d), now)
  {
    PurgedAt(m, d, at);
    PurgedAt(e, d, at);
    LiveAgain(At(m, d), at, now);
    LiveAgain(At(e, d), at, now);
  }

  lemma LookRefines(m: MultipathTable, e: MultipathTable, dst: Addr, d: Addr, at: int, now: int)
    requires at <= now && Purged(m, at) == Purged(e, at)
    ensures Live(At(Touched(m, dst, at), d), now) == Live(At(Purged(e, at), d), now)
  {
    SameLive(m, e, d, at, now);
  }

  lemma AddRefines(m: MultipathTable, e: MultipathTable, dst: Addr, nh: Addr, hc: U32, lt: int, d: Addr,
                   at: int, now: int)
    requires at <= now && Purged(m, at) == Purged(e, at)
    ensures Live(At(Step(m, Add(dst, nh, hc, lt), at), d), now) ==
            Live(At(EagerStep(e, Add(dst, nh, hc, lt), at), d), now)
  {
    SameLive(m, e, d, at, now);
    SameLive(m, e, dst, at, now);
    EagerAt(e, dst, AddPath(At(m, dst), nh, hc, lt, at), d, at, now);
  }

  /** Eagerly replacing one destination's paths and purging shows, later, the live ones of them there
      and the old live ones elsewhere. */
  lemma EagerAt(e: MultipathTable, dst: Addr, ps: Paths, d: Addr, at: int, now: int)
    requires at <= now
    ensures Live(At(Purged(Purged(e, at)[dst := ps], at), d), now) ==
            if d == dst then Live(ps, now) else Live(At(e, d), now)
  {
    var m := Purged(e, at)[dst := ps];
    PurgedAt(m, d, at);
    LiveAgain(At(m, d), at, now);
    PurgedAt(e, d, at);
    LiveAgain(At(e, d), at, now);
  }

  lemma RemoveRefines(m: MultipathTable, e: MultipathTable, nh: Addr, d: Addr, at: int, now: int)
    requires at <= now && Live(At(m, d), at) == Live(At(e, d), at) == At(Purged(e, at), d)
    ensures Live(At(Step(m, Remove(d, nh), at), d), now) == Live(RemovePath(At(Purged(e, at), d), nh), now)
  {
    var rest := Live(RemovePath(At(m, d), nh), at);
    LiveRemove(At(m, d), nh, at);
    assert rest == RemovePath(At(Purged(e, at), d), nh);
    LiveAgain(RemovePath(At(m, d), nh), at, now);
    if d in m {
      LiveAgain(rest, at, now);
    }
  }

  // ------------------------------------------------------------------------------- unique next hops

  ghost predicate UniqueNextHops(ps: Paths) {
    forall i, j :: 0 <= i < j < |ps| ==> ps[i].nextHop != ps[j].nextHop
  }

  lemma {:induction false} FilterUnique(ps: Paths, keep: Path -> bool)
    requires UniqueNextHops(ps)
    ensures UniqueNextHops(Filter(ps, keep))
  {
    if ps != [] {
      FilterUnique(ps[1..], keep);
      InFilter(ps[1..], keep);
      var rest := Filter(ps[1..], keep);
      forall j | 0 <= j < |rest|
        ensures rest[j].nextHop != ps[0].nextHop
      {
        assert rest[j] in ps[1..];
      }
    }
  }

  lemma {:induction false} PutUnique(ps: Paths, path: Path)
    requires UniqueNextHops(ps)
    ensures UniqueNextHops(Put(ps, path))
    ensures forall p :: p in Put(ps, path) <==> p == path || (p in ps && p.nextHop != path.nextHop)
  {
    if ps != [] {
      PutUnique(ps[1..], path);
      if ps[0].nextHop != path.nextHop {
        var rest := Put(ps[1..], path);
        forall j | 0 <= j < |rest|
          ensures rest[j].nextHop != ps[0].nextHop
        {
          assert rest[j] in rest;
        }
      }
      assert forall p :: p in ps <==> p == ps[0] || p in ps[1..];
    }
  }

  /** Whatever the operations and the clock, no destination ever has two paths through one next hop. */
  lemma {:induction false} NextHopsUniqueAlways(ops: seq<(Op, int)>, d: Addr)
    ensures UniqueNextHops(At(Run(ops), d))
  {
    if ops != [] {
      var m, last := Run(ops[..|ops| - 1]), ops[|ops| - 1];
      NextHopsUniqueAlways(ops[..|ops| - 1], d);
      var ps := At(m, d);
      FilterUnique(ps, IsLive(last.1));
      match last.0
      case Add(_, nh, hc, lt) => PutUnique(Live(ps, last.1), Path(nh, hc, last.1 + lt));
      case Remove(_, nh) =>
        FilterUnique(ps, NotVia(nh));
        FilterUnique(RemovePath(ps, nh), IsLive(last.1));
      case _ =>
    }
  }

  // ------------------------------------------------------------------------------- path by path

  /** The operation looks at the paths of `d`, and so drops the expired ones. */
  predicate LooksAt(op: Op, d: Addr) {
    op == PurgeAll || (op.Add? && op.dst == d) || (op.Remove? && op.dst == d) || (op.GetAll? && op.dst == d)
    || (op.Has? && op.dst == d) || (op.Best? && op.dst == d)
  }

  /** Which paths to `d` there are after any operation on any reachable table: those there were, but for the one
      through a next hop that is removed or given a new path, and the new path; the expired ones go when
      somebody looks, and only then. */
  lemma PathsAfter(ops: seq<(Op, int)>, op: Op, now: int, d: Addr, p: Path)
    ensures var ps, r := At(Run(ops), d), At(Step(Run(ops), op, now), d);
            && (!LooksAt(op, d) ==> r == ps)
            && (LooksAt(op, d) ==>
                  var fresh_ := op.Add? && p == Path(op.nextHop, op.hopCount, now + op.lifetime);
                  p in r <==> fresh_ || (p in ps && p.expiry > now
                                         && ((op.Add? || op.Remove?) ==> p.nextHop != op.nextHop)))
  {
    var m := Run(ops);
    var ps := At(m, d);
    NextHopsUniqueAlways(ops, d);
    InFilter(ps, IsLive(now));
    FilterUnique(ps, IsLive(now));
    match op
    case Add(dst, nh, hc, lt) => PutUnique(Live(ps, now), Path(nh, hc, now + lt));
    case Remove(dst, nh) =>
      InFilter(ps, NotVia(nh));
      InFilter(RemovePath(ps, nh), IsLive(now));
    case _ =>
  }

  /** A destination whose last path is removed, or purged, is forgotten. */
  lemma ForgottenWhenEmpty(m: MultipathTable, d: Addr, nextHop: Addr, now: int)
    ensures d in Step(m, Remove(d, nextHop), now)
       <==> d in m && exists p :: p in m[d] && p.nextHop != nextHop && p.expiry > now
    ensures d in Step(m, PurgeAll, now) <==> d in m && exists p :: p in m[d] && p.expiry > now
  {
    if d in m {
      InFilter(m[d], IsLive(now));
      InFilter(m[d], NotVia(nextHop));
      InFilter(RemovePath(m[d], nextHop), IsLive(now));
      SomeElement(Live(m[d], now));
      SomeElement(Live(RemovePath(m[d], nextHop), now));
    }
  }

  lemma SomeElement(ps: Paths)
    ensures ps != [] <==> exists p :: p in ps
  {
    if ps != [] {
      assert ps[0] in ps;
    }
  }
}
