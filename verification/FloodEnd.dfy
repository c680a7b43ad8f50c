/** How a flood ends: if no copy of a RREQ comes back to a node that has broadcast it and forgotten it since,
    every node broadcasts it at most once, however long the network goes on. */
module FloodEnds {
  import opened Basics
  import opened SequenceNumbers
  import opened RouteEntries
  import opened Nodes
  import NodeViews
  import opened Networks
  import opened Floods
  import C = IdCaches

  /** All broadcasts of the RREQ number `id` of `origin` so far: who, and where in its log. */
  function Broadcasts(s: Net, origin: Addr, id: U32): set<(Addr, int)> {
    set y, i | y in s && 0 <= i < |s[y].sent| && IsCopy(s[y].sent[i], origin, id) :: (y, i)
  }

  /** Pairs with distinct first components drawn from `keys`. */
  lemma {:induction false} NoMoreThanKeys(pairs: set<(Addr, int)>, keys: set<Addr>)
    requires forall b :: b in pairs ==> b.0 in keys
    requires forall b, d :: b in pairs && d in pairs && b.0 == d.0 ==> b == d
    ensures |pairs| <= |keys|
    decreases |pairs|
  {
    if pairs != {} {
      var b :| b in pairs;
      NoMoreThanKeys(pairs - {b}, keys - {b.0});
    }
  }

  // ------------------------------------------------------------------------------- the arrivals that matter

  /** The node has broadcast the RREQ number `id` of `origin`. */
  ghost predicate HasSent(n: Node, origin: Addr, id: U32) {
    exists i :: 0 <= i < |n.sent| && IsCopy(n.sent[i], origin, id)
  }

  ghost predicate SentOnce(n: Node, origin: Addr, id: U32) {
    forall i, j :: 0 <= i < j < |n.sent| ==> !(IsCopy(n.sent[i], origin, id) && IsCopy(n.sent[j], origin, id))
  }

  /** A copy that reaches a node which has broadcast the RREQ finds its record, and the originator does not
      use the id again. No other event matters. */
  ghost predicate Recognised(n: Node, ev: Event, now: int, c: Config, origin: Addr, id: U32) {
    HasSent(n, origin, id) ==>
      && (ev.Receive? && IsCopy(ev.packet, origin, id) ==> C.Duplicate(n.idCache, origin, id, now))
      && (n.me == origin && Launches(n, ev, now, c) ==> Next(n.requestId) != id)
  }

  /** A node that has broadcast the RREQ does not add another copy to its log. */
  lemma NoSecondCopy(n: Node, ev: Event, now: int, c: Config, origin: Addr, id: U32)
    requires WellFormed(n.table) && c.Sane() && now >= 0 && (ev.Receive? ==> Proper(ev.packet.msg))
    requires Recognised(n, ev, now, c, origin, id) && FloodEffect(n, Handle(n, ev, now, c), ev, now, c)
    ensures var r := Handle(n, ev, now, c);
            HasSent(n, origin, id) ==> forall i :: |n.sent| <= i < |r.sent| ==> !IsCopy(r.sent[i], origin, id)
  {
    hide Handle, HasSent, Launches, Next, C.Remember, C.Purge;
    if !ev.Receive? {
      NextDiffers(n.requestId);
      LaunchesIff(n, ev, now, c);
    }
  }

  /** The log grows, by one RREQ at most. */
  lemma OneAdded(n: Node, r: Node, ev: Event, now: int, c: Config)
    requires FloodEffect(n, r, ev, now, c)
    ensures n.sent <= r.sent
    ensures forall i, j :: |n.sent| <= i < j < |r.sent| ==> !(r.sent[i].msg.Rreq? && r.sent[j].msg.Rreq?)
  {
    hide Unseen, NodeViews.OwnRequest, RelayOf, C.Remember, C.Purge;
  }

  lemma StaysOnce(n: Node, ev: Event, now: int, c: Config, origin: Addr, id: U32)
    requires WellFormed(n.table) && c.Sane() && now >= 0 && (ev.Receive? ==> Proper(ev.packet.msg))
    requires Recognised(n, ev, now, c, origin, id) && SentOnce(n, origin, id)
    ensures SentOnce(Handle(n, ev, now, c), origin, id)
  {
    hide Handle, Recognised, FloodEffect;
    var r := Handle(n, ev, now, c);
    FloodStep(n, ev, now, c);
    OneAdded(n, r, ev, now, c);
    NoSecondCopy(n, ev, now, c, origin, id);
    assert forall i :: 0 <= i < |n.sent| ==> r.sent[i] == n.sent[i];
  }

  ghost predicate RecognisedRun(s: Net, acts: seq<Action>, c: Config, origin: Addr, id: U32)
    decreases |acts|
  {
    acts == []
    || (CanStep(s, acts[0]) && Recognised(s[acts[0].node], acts[0].event, acts[0].now, c, origin, id)
        && RecognisedRun(StepTo(s, acts[0], c), acts[1..], c, origin, id))
  }

  ghost predicate AllOnce(s: Net, origin: Addr, id: U32) {
    Sound(s) && forall x :: x in s ==> SentOnce(s[x], origin, id)
  }

  lemma AllOnceStep(s: Net, a: Action, c: Config, origin: Addr, id: U32)
    requires AllOnce(s, origin, id) && c.Sane() && CanStep(s, a)
    requires Recognised(s[a.node], a.event, a.now, c, origin, id)
    ensures AllOnce(StepTo(s, a, c), origin, id)
  {
    hide Handle, SentOnce, Recognised;
    FloodStep(s[a.node], a.event, a.now, c);
    StaysOnce(s[a.node], a.event, a.now, c, origin, id);
  }

  lemma {:induction false} OnceInRun(s: Net, acts: seq<Action>, c: Config, origin: Addr, id: U32)
    requires AllOnce(s, origin, id) && c.Sane() && RecognisedRun(s, acts, c, origin, id)
    ensures AllOnce(Final(s, acts, c), origin, id)
    decreases |acts|
  {
    hide AllOnce, Recognised;
    if acts != [] {
      AllOnceStep(s, acts[0], c, origin, id);
      OnceInRun(StepTo(s, acts[0], c), acts[1..], c, origin, id);
    }
  }

  /** Flood termination, over runs of any length: if every copy of the RREQ that reaches a node which has
      broadcast it is recognised there, each node broadcasts it at most once, and the flood on N nodes costs
      at most N broadcasts. */
  lemma FloodTerminates(s: Net, acts: seq<Action>, c: Config, origin: Addr, id: U32)
    requires Initial(s) && c.Sane() && RecognisedRun(s, acts, c, origin, id)
    ensures |Broadcasts(Final(s, acts, c), origin, id)| <= |Final(s, acts, c)|
    ensures var all := Broadcasts(Final(s, acts, c), origin, id);
            forall b, d :: b in all && d in all && b.0 == d.0 ==> b == d
  {
    hide Handle, RecognisedRun, Final, IsCopy;
    OnceInRun(s, acts, c, origin, id);
    var f := Final(s, acts, c);
    var all := Broadcasts(f, origin, id);
    forall b, d | b in all && d in all && b.0 == d.0
      ensures b == d
    {
      assert SentOnce(f[b.0], origin, id);
    }
    NoMoreThanKeys(all, f.Keys);
  }

  // ------------------------------------------------------------------------------- by the clock

  /** When each node took the RREQ last. */
  type Taken = map<Addr, int>

  /** The node takes a copy it does not know, or launches the RREQ. */
  ghost predicate TakesUp(n: Node, ev: Event, now: int, c: Config, origin: Addr, id: U32) {
    || (ev.Receive? && IsCopy(ev.packet, origin, id) && Unseen(n, ev.packet, ev.sender, now, c))
    || (n.me == origin && Launches(n, ev, now, c) && Next(n.requestId) == id)
  }

  ghost function Clocked(took: Taken, s: Net, a: Action, c: Config, origin: Addr, id: U32): Taken
    requires a.node in s
  {
    if TakesUp(s[a.node], a.event, a.now, c, origin, id) then took[a.node := a.now] else took
  }

  /** The clock does not go back; no copy reaches a node that has broadcast the RREQ later than
      PathDiscoveryTime after it took it; and the originator does not use the id again, nor while its cache
      still has it. */
  ghost predicate Timely(s: Net, took: Taken, a: Action, clock: int, c: Config, origin: Addr, id: U32)
    requires a.node in s
  {
    var n := s[a.node];
    && clock <= a.now
    && (HasSent(n, origin, id) && a.event.Receive? && IsCopy(a.event.packet, origin, id) ==>
          a.node in took && a.now <= took[a.node] + c.pathDiscoveryTime)
    && (n.me == origin && Launches(n, a.event, a.now, c) && Next(n.requestId) == id ==>
          !HasSent(n, origin, id) && !C.Duplicate(n.idCache, origin, id, a.now))
  }

  ghost predicate TimelyRun(s: Net, took: Taken, acts: seq<Action>, clock: int, c: Config, origin: Addr, id: U32)
    decreases |acts|
  {
    acts == []
    || (CanStep(s, acts[0]) && Timely(s, took, acts[0], clock, c, origin, id)
        && TimelyRun(StepTo(s, acts[0], c), Clocked(took, s, acts[0], c, origin, id), acts[1..], acts[0].now, c,
                     origin, id))
  }

  /** The record of a RREQ taken at `since` is still there, unless its lifetime has passed by now. */
  ghost predicate Records(cache: C.Cache, since: int, clock: int, c: Config, origin: Addr, id: U32) {
    clock <= since + c.pathDiscoveryTime ==>
      exists u :: u in cache && u.context == origin && u.id == id && u.expire >= since + c.pathDiscoveryTime
  }

  ghost predicate TimeInv(s: Net, took: Taken, clock: int, c: Config, origin: Addr, id: U32) {
    && Sound(s)
    && (forall x :: x in s && HasSent(s[x], origin, id) ==> x in took)
    && (forall x :: x in s && x in took ==> Records(s[x].idCache, took[x], clock, c, origin, id))
  }

  lemma RecordKept(cache: C.Cache, since: int, clock: int, now: int, c: Config, origin: Addr, id: U32)
    requires Records(cache, since, clock, c, origin, id) && clock <= now
    ensures Records(C.Purge(cache, now), since, now, c, origin, id)
    ensures Records(cache, since, now, c, origin, id)
    ensures forall addr: Addr, k: U32, life: int ::
              Records(C.Remember(cache, addr, k, now, life), since, now, c, origin, id)
    ensures now <= since + c.pathDiscoveryTime ==> C.Duplicate(cache, origin, id, now)
  {
    InFilter(cache, C.Current(now));
    if now <= since + c.pathDiscoveryTime {
      var u :| u in cache && u.context == origin && u.id == id && u.expire >= since + c.pathDiscoveryTime;
      var p := C.Purge(cache, now);
      assert u in p;
      var i :| 0 <= i < |p| && p[i] == u;
      forall addr: Addr, k: U32, life: int
        ensures u in C.Remember(cache, addr, k, now, life)
      {
        StillIn(p, C.UniqueId(addr, k, now + life), u);
      }
    }
  }

  lemma StillIn(p: C.Cache, added: C.UniqueId, u: C.UniqueId)
    requires u in p
    ensures u in p + [added]
  {
  }

  lemma RecordMade(cache: C.Cache, now: int, c: Config, origin: Addr, id: U32)
    requires !C.Duplicate(cache, origin, id, now)
    ensures Records(C.Remember(cache, origin, id, now, c.pathDiscoveryTime), now, now, c, origin, id)
  {
    var u := C.UniqueId(origin, id, now + c.pathDiscoveryTime);
    var d := C.Remember(cache, origin, id, now, c.pathDiscoveryTime);
    assert d[|d| - 1] == u;
  }

  /** Timely arrivals are recognised. */
  lemma TimelyIsRecognised(s: Net, took: Taken, a: Action, clock: int, c: Config, origin: Addr, id: U32)
    requires TimeInv(s, took, clock, c, origin, id) && CanStep(s, a) && Timely(s, took, a, clock, c, origin, id)
    ensures Recognised(s[a.node], a.event, a.now, c, origin, id)
  {
    hide HasSent, Launches, Records, C.Duplicate, IsCopy;
    if a.node in took {
      RecordKept(s[a.node].idCache, took[a.node], clock, a.now, c, origin, id);
    }
  }

  /** What the acting node remembers afterwards. */
  lemma TimeKeptHere(s: Net, took: Taken, a: Action, clock: int, c: Config, origin: Addr, id: U32)
    requires TimeInv(s, took, clock, c, origin, id) && c.Sane() && CanStep(s, a)
    requires Timely(s, took, a, clock, c, origin, id)
    ensures var r, took' := Handle(s[a.node], a.event, a.now, c), Clocked(took, s, a, c, origin, id);
            && WellFormed(r.table) && r.me == a.node && (HasSent(r, origin, id) ==> a.node in took')
            && (a.node in took' ==> Records(r.idCache, took'[a.node], a.now, c, origin, id))
  {
    hide Handle, HasSent, Launches, Records, Next, Unseen, C.Remember, C.Purge, C.Duplicate;
    var n, r, now := s[a.node], Handle(s[a.node], a.event, a.now, c), a.now;
    FloodStep(n, a.event, now, c);
    if !a.event.Receive? {
      LaunchesIff(n, a.event, now, c);
      NextDiffers(n.requestId);
    }
    if TakesUp(n, a.event, now, c, origin, id) {
      TakenUp(n, a.event, now, c, origin, id);
      RecordMade(n.idCache, now, c, origin, id);
    } else {
      NoNewCopy(n, a.event, now, c, origin, id);
      if a.node in took {
        RecordKept(n.idCache, took[a.node], clock, now, c, origin, id);
      }
    }
  }

  /** Nobody else sends a copy. */
  lemma NoNewCopy(n: Node, ev: Event, now: int, c: Config, origin: Addr, id: U32)
    requires WellFormed(n.table) && c.Sane() && now >= 0 && (ev.Receive? ==> Proper(ev.packet.msg))
    requires FloodEffect(n, Handle(n, ev, now, c), ev, now, c) && !TakesUp(n, ev, now, c, origin, id)
    ensures HasSent(Handle(n, ev, now, c), origin, id) ==> HasSent(n, origin, id)
  {
    hide Handle, Next, Launches, Unseen, C.Remember, C.Purge, C.Duplicate;
    var r := Handle(n, ev, now, c);
    if !ev.Receive? {
      LaunchesIff(n, ev, now, c);
      NextDiffers(n.requestId);
    }
    assert forall i :: |n.sent| <= i < |r.sent| ==> !IsCopy(r.sent[i], origin, id);
    assert forall i :: 0 <= i < |n.sent| ==> r.sent[i] == n.sent[i];
  }

  /** Whoever takes the RREQ up does not have it in its cache, and then has. */
  lemma TakenUp(n: Node, ev: Event, now: int, c: Config, origin: Addr, id: U32)
    requires WellFormed(n.table) && c.Sane() && now >= 0 && (ev.Receive? ==> Proper(ev.packet.msg))
    requires FloodEffect(n, Handle(n, ev, now, c), ev, now, c) && TakesUp(n, ev, now, c, origin, id)
    requires n.me == origin && Launches(n, ev, now, c) && Next(n.requestId) == id ==>
               !C.Duplicate(n.idCache, origin, id, now)
    ensures !C.Duplicate(n.idCache, origin, id, now)
    ensures Handle(n, ev, now, c).idCache == C.Remember(n.idCache, origin, id, now, c.pathDiscoveryTime)
  {
    hide Handle, Next, C.Remember, C.Purge, C.Duplicate;
    if !ev.Receive? {
      LaunchesIff(n, ev, now, c);
      NextDiffers(n.requestId);
    }
  }

  lemma TimeKept(s: Net, took: Taken, a: Action, clock: int, c: Config, origin: Addr, id: U32)
    requires TimeInv(s, took, clock, c, origin, id) && c.Sane() && CanStep(s, a)
    requires Timely(s, took, a, clock, c, origin, id)
    ensures TimeInv(StepTo(s, a, c), Clocked(took, s, a, c, origin, id), a.now, c, origin, id)
  {
    hide Handle, TakesUp, HasSent, Records;
    TimeKeptHere(s, took, a, clock, c, origin, id);
    var s', took' := StepTo(s, a, c), Clocked(took, s, a, c, origin, id);
    forall x | x in s' && x in took'
      ensures Records(s'[x].idCache, took'[x], a.now, c, origin, id)
    {
      if x != a.node {
        RecordKept(s[x].idCache, took[x], clock, a.now, c, origin, id);
      }
    }
  }

  lemma {:induction false} TimelyRunIsRecognised(s: Net, took: Taken, acts: seq<Action>, clock: int, c: Config,
                                                 origin: Addr, id: U32)
    requires TimeInv(s, took, clock, c, origin, id) && c.Sane() && TimelyRun(s, took, acts, clock, c, origin, id)
    ensures RecognisedRun(s, acts, c, origin, id)
    decreases |acts|
  {
    hide TimeInv, Timely, Recognised, Clocked;
    if acts != [] {
      var a := acts[0];
      TimelyIsRecognised(s, took, a, clock, c, origin, id);
      TimeKept(s, took, a, clock, c, origin, id);
      TimelyRunIsRecognised(StepTo(s, a, c), Clocked(took, s, a, c, origin, id), acts[1..], a.now, c, origin, id);
    }
  }

  /** By the clock: if no copy of the RREQ reaches a node that has broadcast it later than PathDiscoveryTime
      after the node took it, the flood on N nodes costs at most N broadcasts, in runs of any length. */
  lemma TimelyFloodTerminates(s: Net, acts: seq<Action>, clock: int, c: Config, origin: Addr, id: U32)
    requires Initial(s) && c.Sane() && TimelyRun(s, map[], acts, clock, c, origin, id)
    ensures RecognisedRun(s, acts, c, origin, id)
    ensures |Broadcasts(Final(s, acts, c), origin, id)| <= |Final(s, acts, c)|
  {
    hide TimelyRun, RecognisedRun, Final, Broadcasts;
    TimelyRunIsRecognised(s, map[], acts, clock, c, origin, id);
    FloodTerminates(s, acts, c, origin, id);
  }

  // ------------------------------------------------------------------------------- while the records live

  /** And while the records live, every copy is recognised. */
  lemma LiveIsRecognised(s: Net, a: Action, c: Config, origin: Addr, id: U32)
    requires OnceInv(s, origin, id) && CanStep(s, a) && FloodLives(s[a.node], a.now, origin, id)
    ensures Recognised(s[a.node], a.event, a.now, c, origin, id)
  {
    assert Tracked(s[a.node], origin, id);
    LiveKeyStays(s[a.node].idCache, a.now, origin, id);
  }

  lemma {:induction false} LiveRunIsRecognised(s: Net, acts: seq<Action>, c: Config, origin: Addr, id: U32)
    requires OnceInv(s, origin, id) && c.Sane() && LiveRun(s, acts, c, origin, id)
    ensures RecognisedRun(s, acts, c, origin, id)
    decreases |acts|
  {
    hide OnceInv, FloodLives, Recognised;
    if acts != [] {
      LiveIsRecognised(s, acts[0], c, origin, id);
      OnceStep(s, acts[0], c, origin, id);
      LiveRunIsRecognised(StepTo(s, acts[0], c), acts[1..], c, origin, id);
    }
  }
}
