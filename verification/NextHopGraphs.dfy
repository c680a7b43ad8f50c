/** Following next hops in a finite network: a rank that strictly improves along every hop rules out
    cycles and leads to the root within as many hops as there are nodes. */
module NextHopGraphs {
  import opened Basics

  /** A rank improves with a larger first component, or with the same one and a smaller second. */
  datatype Rank = Rank(major: int, minor: int)

  predicate Better(a: Rank, b: Rank) {
    a.major > b.major || (a.major == b.major && a.minor < b.minor)
  }

  predicate AtLeast(a: Rank, b: Rank) {
    a == b || Better(a, b)
  }

  /** The node reached after `k` hops; a node without a next hop is where the walk stops. */
  function Follow(next: map<Addr, Addr>, x: Addr, k: nat): Addr
    decreases k
  {
    if k == 0 || x !in next then x else Follow(next, next[x], k - 1)
  }

  /** Every next hop is the root or a node of strictly better rank with a next hop of its own. */
  ghost predicate Improving(next: map<Addr, Addr>, rank: map<Addr, Rank>, root: Addr) {
    && root !in next
    && forall x :: x in next && next[x] != root ==>
         next[x] in next && x in rank && next[x] in rank && Better(rank[next[x]], rank[x])
  }

  /** The ranked nodes that are strictly better than `x`. */
  function Above(next: map<Addr, Addr>, rank: map<Addr, Rank>, x: Addr): set<Addr> {
    set y | y in next && y in rank && x in rank && Better(rank[y], rank[x])
  }

  lemma {:induction false} ReachesWithin(next: map<Addr, Addr>, rank: map<Addr, Rank>, root: Addr, x: Addr, k: nat)
    requires Improving(next, rank, root) && x in next && k > |Above(next, rank, x)|
    ensures Follow(next, x, k) == root
    decreases |Above(next, rank, x)|
  {
    var y := next[x];
    if y == root {
      assert Follow(next, root, k - 1) == root;
    } else {
      var ax, ay := Above(next, rank, x), Above(next, rank, y);
      assert ay <= ax && y in ax && y !in ay;
      SmallerSubset(ay, ax);
      ReachesWithin(next, rank, root, y, k - 1);
    }
  }

  lemma SmallerSubset(a: set<Addr>, b: set<Addr>)
    requires a < b
    ensures |a| < |b|
  {
    var extra := b - a;
    assert b == a + extra;
    assert extra != {};
  }

  /** From every node with a route, the root is reached within |next| hops, and stays reached; so no
      walk ever comes back to where it was. */
  lemma AcyclicToRoot(next: map<Addr, Addr>, rank: map<Addr, Rank>, root: Addr)
    requires Improving(next, rank, root)
    ensures forall x, k: nat :: x in next && k >= |next| ==> Follow(next, x, k) == root
    ensures forall x, k: nat :: x in next && k > 0 ==> Follow(next, x, k) != x
  {
    forall x, k: nat | x in next && k >= |next|
      ensures Follow(next, x, k) == root
    {
      ReachesWithinAll(next, rank, root, x, k);
    }
    forall x, k: nat | x in next && k > 0
      ensures Follow(next, x, k) != x
    {
      Scale(|next|, k);
      ReachesWithinAll(next, rank, root, x, |next| * k);
      if Follow(next, x, k) == x {
        AroundTheCycle(next, x, k, |next|);
      }
    }
  }

  lemma Scale(n: nat, k: nat)
    requires k > 0
    ensures n * k >= n
  {
  }

  lemma ReachesWithinAll(next: map<Addr, Addr>, rank: map<Addr, Rank>, root: Addr, x: Addr, k: nat)
    requires Improving(next, rank, root) && x in next && k >= |next|
    ensures Follow(next, x, k) == root != x
  {
    var above := Above(next, rank, x);
    assert above <= next.Keys && x !in above;
    SmallerSubset(above, next.Keys);
    ReachesWithin(next, rank, root, x, k);
  }

  lemma {:induction false} FollowPlus(next: map<Addr, Addr>, x: Addr, j: nat, k: nat)
    ensures Follow(next, x, j + k) == Follow(next, Follow(next, x, j), k)
    decreases j
  {
    if j > 0 && x in next {
      FollowPlus(next, next[x], j - 1, k);
    }
  }

  lemma {:induction false} AroundTheCycle(next: map<Addr, Addr>, x: Addr, k: nat, n: nat)
    requires Follow(next, x, k) == x
    ensures Follow(next, x, n * k) == x
  {
    if n > 0 {
      AroundTheCycle(next, x, k, n - 1);
      FollowPlus(next, x, k, (n - 1) * k);
      assert n * k == k + (n - 1) * k;
    }
  }
}
