/** Routing table entries and the table as a value: what each operation of the routing table does
    to the map from destination to entry. Times are absolute; `now` is the time of the call. */
module RouteEntries {
  import opened Basics

  datatype Flag = VALID | INVALID | IN_SEARCH

  /** One routing table entry. `bound` says that it carries an output device (on a node with one
      interface there is only one), `expire` is the absolute time behind the relative lifetime. */
  datatype Entry = Entry(
    dst: Addr, validSeqNo: bool, seqNo: U32, hops: U16, expire: int, nextHop: Addr, bound: bool,
    flag: Flag, precursors: seq<Addr>, reqCount: U8, blacklisted: bool, blackListTimeout: int)
  {
    predicate Expired(now: int) {
      expire < now
    }

    function LifeTime(now: int): int {
      expire - now
    }

    /** Marks the entry as down; a second call changes nothing. */
    function Invalidate(now: int, badLinkLifetime: int): Entry {
      if flag == INVALID then this
      else this.(flag := INVALID, reqCount := 0, expire := now + badLinkLifetime)
    }

    function InsertPrecursor(id: Addr): Entry {
      if id in precursors then this else this.(precursors := precursors + [id])
    }

    /** What the table stores when it is given this entry: a request count survives only a search. */
    function Stored(): Entry {
      if flag == IN_SEARCH then this else this.(reqCount := 0)
    }
  }

  function NewEntry(dst: Addr, validSeqNo: bool, seqNo: U32, hops: U16, nextHop: Addr, lifetime: int,
                    bound: bool, now: int): Entry {
    Entry(dst, validSeqNo, seqNo, hops, now + lifetime, nextHop, bound, VALID, [], 0, false, now)
  }

  /** A default-constructed entry, what a caller holds after a failed lookup. */
  function DefaultEntry(now: int): Entry {
    NewEntry(UNSET, false, 0, 0, UNSET, now, false, now)
  }

  type Table = map<Addr, Entry>

  /** One entry under Purge: an expired VALID entry goes down, an expired INVALID one goes away, an
      entry IN_SEARCH is left alone. */
  function Aged(e: Entry, now: int, bad: int): Option<Entry> {
    if !e.Expired(now) then Some(e)
    else match e.flag
      case INVALID => None
      case VALID => Some(e.Invalidate(now, bad))
      case IN_SEARCH => Some(e)
  }

  function Purge(t: Table, now: int, bad: int): Table {
    map k | k in t && Aged(t[k], now, bad).Some? :: Aged(t[k], now, bad).value
  }

  function Lookup(t: Table, id: Addr): Option<Entry> {
    if id in t then Some(t[id]) else None
  }

  function AddRoute(t: Table, rt: Entry, now: int, bad: int): Table {
    var t := Purge(t, now, bad);
    if rt.dst in t then t else t[rt.dst := rt.Stored()]
  }

  function Update(t: Table, rt: Entry): Table {
    if rt.dst in t then t[rt.dst := rt.Stored()] else t
  }

  function DeleteRoute(t: Table, dst: Addr, now: int, bad: int): Table {
    Purge(t, now, bad) - {dst}
  }

  function SetEntryState(t: Table, id: Addr, state: Flag): Table {
    if id in t then t[id := t[id].(flag := state, reqCount := 0)] else t
  }

  function MarkUnidirectional(t: Table, id: Addr, timeout: int): Table {
    if id in t then t[id := t[id].(blacklisted := true, blackListTimeout := timeout, reqCount := 0)] else t
  }

  /** A node with one interface: its entries carry that interface (`own`) or none at all. */
  function DeleteAllRoutesFromInterface(t: Table, own: bool): Table {
    map k | k in t && t[k].bound != own :: t[k]
  }

  /** Destinations routed through `nextHop`, whatever their flag, with their sequence numbers. */
  function Through(t: Table, nextHop: Addr): map<Addr, U32> {
    map k | k in t && t[k].nextHop == nextHop :: t[k].seqNo
  }

  function Invalidated(t: Table, dsts: set<Addr>, now: int, bad: int): Table {
    map k | k in t :: if k in dsts && t[k].flag == VALID then t[k].Invalidate(now, bad) else t[k]
  }

  function InvalidateRoutesWithDst(t: Table, dsts: set<Addr>, now: int, bad: int): Table {
    Invalidated(Purge(t, now, bad), dsts, now, bad)
  }

  // ---------------------------------------------------------------- the state machine of an entry

  /** The public operations of the routing table. */
  datatype Op =
    | DoPurge
    | DoLookup(id: Addr)
    | DoAdd(rt: Entry)
    | DoUpdate(rt: Entry)
    | DoDelete(dst: Addr)
    | DoSetState(id: Addr, state: Flag)
    | DoMarkUnidirectional(id: Addr, timeout: int)
    | DoInvalidate(dsts: set<Addr>)
    | DoListThrough(nextHop: Addr)
    | DoDeleteFromInterface(own: bool)
    | DoClear
  {
    /** The operation is given an entry, a flag or a deletion for destination `k`, or deletes wholesale. */
    predicate Names(k: Addr) {
      match this
      case DoAdd(rt) => rt.dst == k
      case DoUpdate(rt) => rt.dst == k
      case DoDelete(dst) => dst == k
      case DoSetState(id, _) => id == k
      case DoMarkUnidirectional(id, _) => id == k
      case DoDeleteFromInterface(_) => true
      case DoClear => true
      case _ => false
    }

    /** The operation begins with a purge. */
    predicate Purges() {
      !DoUpdate? && !DoSetState? && !DoMarkUnidirectional? && !DoDeleteFromInterface? && !DoClear?
    }
  }

  function Apply(t: Table, op: Op, now: int, bad: int): Table {
    match op
    case DoPurge => Purge(t, now, bad)
    case DoLookup(_) => Purge(t, now, bad)
    case DoAdd(rt) => AddRoute(t, rt, now, bad)
    case DoUpdate(rt) => Update(t, rt)
    case DoDelete(dst) => DeleteRoute(t, dst, now, bad)
    case DoSetState(id, state) => SetEntryState(t, id, state)
    case DoMarkUnidirectional(id, timeout) => MarkUnidirectional(t, id, timeout)
    case DoInvalidate(dsts) => InvalidateRoutesWithDst(t, dsts, now, bad)
    case DoListThrough(_) => Purge(t, now, bad)
    case DoDeleteFromInterface(own) => DeleteAllRoutesFromInterface(t, own)
    case DoClear => map[]
  }

  /** The table after a sequence of timed operations. */
  function Run(t: Table, ops: seq<(Op, int)>, bad: int): Table {
    if ops == [] then t
    else
      var last := ops[|ops| - 1];
      Apply(Run(t, ops[..|ops| - 1], bad), last.0, last.1, bad)
  }

  predicate Monotone(start: int, ops: seq<(Op, int)>) {
    && (forall i :: 0 <= i < |ops| ==> start <= ops[i].1)
    && (forall i, j :: 0 <= i < j < |ops| ==> ops[i].1 <= ops[j].1)
  }

  /** Keys are the stored destinations and only a search has a non-zero request count. */
  ghost predicate WellFormed(t: Table) {
    forall k :: k in t ==> t[k].dst == k && (t[k].reqCount != 0 ==> t[k].flag == IN_SEARCH)
  }

  lemma {:induction false} WellFormedAlways(ops: seq<(Op, int)>, bad: int)
    ensures WellFormed(Run(map[], ops, bad))
  {
    if ops != [] {
      var last := ops[|ops| - 1];
      var t := Run(map[], ops[..|ops| - 1], bad);
      WellFormedAlways(ops[..|ops| - 1], bad);
      WellFormedStep(t, last.0, last.1, bad);
    }
  }

  lemma WellFormedStep(t: Table, op: Op, now: int, bad: int)
    requires WellFormed(t)
    ensures WellFormed(Apply(t, op, now, bad))
  {
    assert WellFormed(Purge(t, now, bad));
  }

  /** What LookupValidRoute hands out at `now` has not expired at `now`. */
  lemma ValidIsFresh(t: Table, id: Addr, now: int, bad: int)
    requires id in Purge(t, now, bad) && Purge(t, now, bad)[id].flag == VALID
    ensures id in t && t[id].flag == VALID && !t[id].Expired(now) && Purge(t, now, bad)[id] == t[id]
  {
  }

  /** Purging twice at one instant is purging once, exactly when an entry that the first purge takes
      down is given a deletion time that has not passed. */
  lemma PurgeIdempotent(t: Table, now: int, bad: int)
    ensures Purge(Purge(t, now, bad), now, bad) == Purge(t, now, bad)
       <==> bad >= 0 || (forall k :: k in t && t[k].flag == VALID ==> !t[k].Expired(now))
  {
    var once := Purge(t, now, bad);
    var twice := Purge(once, now, bad);
    if k :| bad < 0 && k in t && t[k].flag == VALID && t[k].Expired(now) {
      assert k in once && k !in twice;
    } else {
      assert forall k :: k in once ==> k in twice && once[k] == twice[k];
      assert once == twice;
    }
  }

  lemma PurgedOnce(t: Table, now: int, bad: int)
    requires bad >= 0
    ensures Purge(Purge(t, now, bad), now, bad) == Purge(t, now, bad)
  {
    PurgeIdempotent(t, now, bad);
  }

  /** No purge takes away a VALID entry or touches a search. */
  lemma PurgeIsTwoStage(t: Table, k: Addr, now: int, bad: int)
    requires k in t && t[k].flag != INVALID
    ensures k in Purge(t, now, bad)
    ensures t[k].flag == IN_SEARCH ==> Purge(t, now, bad)[k] == t[k]
    ensures t[k].flag == VALID && t[k].Expired(now) ==>
              Purge(t, now, bad)[k].flag == INVALID && Purge(t, now, bad)[k].expire == now + bad
  {
  }

  /** Two-stage ageing over any run: an entry that went down at time `down` is still there, unchanged,
      through every later operation that does not name it, until the first purge strictly after
      `down + bad`; and that purge deletes it. */
  lemma {:induction false} DownEntryLifespan(t: Table, k: Addr, down: int, ops: seq<(Op, int)>, bad: int)
    requires bad >= 0 && Monotone(down, ops)
    requires k in t && t[k].flag == INVALID && t[k].expire == down + bad
    requires forall i :: 0 <= i < |ops| ==> !ops[i].0.Names(k)
    ensures k in Run(t, ops, bad) <==>
            (forall i :: 0 <= i < |ops| && ops[i].0.Purges() ==> ops[i].1 <= down + bad)
    ensures k in Run(t, ops, bad) ==> Run(t, ops, bad)[k] == t[k]
  {
    if ops != [] {
      var init, last := ops[..|ops| - 1], ops[|ops| - 1];
      DownEntryLifespan(t, k, down, init, bad);
      var s := Run(t, init, bad);
      assert ops == init + [last];
      assert k in Apply(s, last.0, last.1, bad) <==>
             k in s && (last.0.Purges() ==> last.1 <= down + bad);
      if i :| 0 <= i < |init| && init[i].0.Purges() && init[i].1 > down + bad {
        assert ops[i] == init[i];
      }
      assert forall i :: 0 <= i < |init| ==> ops[i] == init[i];
    }
  }
}
