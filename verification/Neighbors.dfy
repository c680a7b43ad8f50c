/** The list of neighbours as the object that the protocol updates in place. The link-failure callback of
    the original is here the list of failures that a purge returns; the protocol handles them in order. */
module NeighborLists {
  import opened Basics
  import opened Nodes

  /** The addresses of the closing neighbours, in list order. */
  function ClosingAddrs(nb: seq<Neighbor>, now: int): seq<Addr> {
    if nb == [] then []
    else (if Closing(nb[0], now) then [nb[0].addr] else []) + ClosingAddrs(nb[1..], now)
  }

  lemma {:induction false} ClosingAppend(a: seq<Neighbor>, b: seq<Neighbor>, now: int)
    ensures ClosingAddrs(a + b, now) == ClosingAddrs(a, now) + ClosingAddrs(b, now)
  {
    if a == [] {
      assert a + b == b;
    } else {
      ClosingAppend(a[1..], b, now);
      TailOfConcat(a, b);
    }
  }

  lemma IndexFrom(nb: seq<Neighbor>, i: nat, addr: Addr)
    requires i <= |nb| && (forall j :: 0 <= j < i ==> nb[j].addr != addr) && (i < |nb| ==> nb[i].addr == addr)
    ensures IndexOfNeighbor(nb, addr) == i
  {
  }

  /** No address is listed twice. */
  ghost predicate Distinct(nb: seq<Neighbor>) {
    forall i, j :: 0 <= i < j < |nb| ==> nb[i].addr != nb[j].addr
  }

  lemma {:induction false} FilterDistinct(nb: seq<Neighbor>, keep: Neighbor -> bool)
    requires Distinct(nb)
    ensures Distinct(Filter(nb, keep))
  {
    if nb != [] {
      FilterDistinct(nb[1..], keep);
      InFilter(nb[1..], keep);
      var rest := Filter(nb[1..], keep);
      forall j | 0 <= j < |rest|
        ensures rest[j].addr != nb[0].addr
      {
        assert rest[j] in nb[1..];
      }
    }
  }

  lemma {:induction false} CloseAllAddrs(nb: seq<Neighbor>, addrs: set<Addr>, i: nat)
    requires i < |nb|
    ensures CloseAll(nb, addrs)[i].addr == nb[i].addr
  {
    if i > 0 {
      CloseAllAddrs(nb[1..], addrs, i - 1);
    }
  }

  class Neighbors {
    var nb: seq<Neighbor>

    constructor ()
      ensures nb == []
    {
      nb := [];
    }

    /** Returns the link failures: one for each neighbour it removes, in order. */
    method Purge(now: int) returns (failures: seq<Addr>)
      modifies this
      ensures failures == ClosingAddrs(old(nb), now)
      ensures nb == Filter(old(nb), Nodes.Open(now))
      ensures Distinct(old(nb)) ==> Distinct(nb)
    {
      failures := [];
      var kept := [];
      for i := 0 to |nb|
        invariant nb == old(nb)
        invariant failures == ClosingAddrs(nb[..i], now) && kept == Filter(nb[..i], Nodes.Open(now))
      {
        assert nb[..i + 1] == nb[..i] + [nb[i]];
        ClosingAppend(nb[..i], [nb[i]], now);
        FilterAppend(nb[..i], [nb[i]], Nodes.Open(now));
        if nb[i].expire < now || nb[i].close {
          failures := failures + [nb[i].addr];
        } else {
          kept := kept + [nb[i]];
        }
      }
      assert nb[..|nb|] == nb;
      if Distinct(nb) {
        FilterDistinct(nb, Nodes.Open(now));
      }
      nb := kept;
    }

    /** A known neighbour lives longer; otherwise a new one is added and the list purged. */
    method Update(addr: Addr, lifetime: int, now: int) returns (failures: seq<Addr>)
      modifies this
      ensures var i := IndexOfNeighbor(old(nb), addr);
              var added := old(nb) + [Neighbor(addr, now + lifetime, false)];
              if i < |old(nb)|
              then failures == [] && nb == old(nb)[i := old(nb)[i].(expire := Max(now + lifetime, old(nb)[i].expire))]
              else failures == ClosingAddrs(added, now) && nb == Filter(added, Nodes.Open(now))
      ensures Distinct(old(nb)) ==> Distinct(nb)
    {
      for i := 0 to |nb|
        invariant nb == old(nb)
        invariant forall j :: 0 <= j < i ==> nb[j].addr != addr
      {
        if nb[i].addr == addr {
          IndexFrom(nb, i, addr);
          nb := nb[i := nb[i].(expire := Max(lifetime + now, nb[i].expire))];
          return [];
        }
      }
      IndexFrom(nb, |nb|, addr);
      nb := nb + [Neighbor(addr, lifetime + now, false)];
      failures := Purge(now);
    }

    method IsNeighbor(addr: Addr, now: int) returns (known: bool, failures: seq<Addr>)
      modifies this
      ensures failures == ClosingAddrs(old(nb), now)
      ensures nb == Filter(old(nb), Nodes.Open(now))
      ensures known <==> exists b :: b in old(nb) && b.addr == addr && !Closing(b, now)
    {
      failures := Purge(now);
      InFilter(old(nb), Nodes.Open(now));
      for i := 0 to |nb|
        invariant nb == Filter(old(nb), Nodes.Open(now))
        invariant forall j :: 0 <= j < i ==> nb[j].addr != addr
      {
        if nb[i].addr == addr {
          assert nb[i] in nb;
          return true, failures;
        }
      }
      known := false;
      assert forall b :: b in old(nb) && !Closing(b, now) ==> b in nb;
    }

    /** The neighbours behind the failed hardware address are closed; `addrs` are their addresses. */
    method ProcessTxError(addrs: set<Addr>, now: int) returns (failures: seq<Addr>)
      modifies this
      ensures var closed := CloseAll(old(nb), addrs);
              failures == ClosingAddrs(closed, now) && nb == Filter(closed, Nodes.Open(now))
      ensures Distinct(old(nb)) ==> Distinct(nb)
    {
      for i := 0 to |nb|
        invariant |nb| == |old(nb)| && nb == CloseAll(old(nb)[..i], addrs) + old(nb)[i..]
      {
        assert old(nb)[..i + 1] == old(nb)[..i] + [old(nb)[i]];
        CloseAppend(old(nb)[..i], [old(nb)[i]], addrs);
        if nb[i].addr in addrs {
          nb := nb[i := nb[i].(close := true)];
        }
      }
      assert old(nb)[..|old(nb)|] == old(nb) && old(nb)[|old(nb)|..] == [];
      assert nb == CloseAll(old(nb), addrs);
      forall i | 0 <= i < |nb|
        ensures nb[i].addr == old(nb)[i].addr
      {
        CloseAllAddrs(old(nb), addrs, i);
      }
      failures := Purge(now);
    }
  }

  lemma {:induction false} CloseAppend(a: seq<Neighbor>, b: seq<Neighbor>, addrs: set<Addr>)
    ensures CloseAll(a + b, addrs) == CloseAll(a, addrs) + CloseAll(b, addrs)
  {
    if a == [] {
      assert a + b == b;
    } else {
      CloseAppend(a[1..], b, addrs);
      TailOfConcat(a, b);
    }
  }

  /** Every neighbour that a purge removes is reported once, and no other. */
  lemma {:induction false} OneFailureEach(nb: seq<Neighbor>, now: int, a: Addr)
    requires Distinct(nb)
    ensures multiset(ClosingAddrs(nb, now))[a] == if exists b :: b in nb && b.addr == a && Closing(b, now) then 1 else 0
  {
    if nb != [] {
      OneFailureEach(nb[1..], now, a);
      assert forall b :: b in nb <==> b == nb[0] || b in nb[1..];
      if nb[0].addr == a {
        forall b | b in nb[1..]
          ensures b.addr != a
        {
          var k :| 0 <= k < |nb[1..]| && nb[1..][k] == b;
          assert nb[k + 1] == b;
        }
      }
    }
  }
}
