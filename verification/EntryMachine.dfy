/** The life of a single routing table entry. The table is nothing more than such lives side by side: what
    becomes of one destination depends on its own entry and on nothing else in the table. */
module EntryMachines {
  import opened Basics
  import opened RouteEntries

  /** What a purge at `now` makes of what there is about one destination. */
  function Aging(o: Option<Entry>, now: int, bad: int): Option<Entry> {
    if o.None? || o.value.expire >= now || o.value.flag == IN_SEARCH then o
    else if o.value.flag == INVALID then None
    else Some(o.value.(flag := INVALID, reqCount := 0, expire := now + bad))
  }

  /** The entry as a table keeps it: only a search counts its requests. */
  function Kept(rt: Entry): Option<Entry> {
    Some(rt.(reqCount := if rt.flag == IN_SEARCH then rt.reqCount else 0))
  }

  /** What one operation makes of what there is about destination `k`. */
  function Moved(o: Option<Entry>, k: Addr, op: Op, now: int, bad: int): Option<Entry> {
    var aged := Aging(o, now, bad);
    match op
    case DoPurge => aged
    case DoLookup(_) => aged
    case DoListThrough(_) => aged
    case DoAdd(rt) => if rt.dst == k && aged.None? then Kept(rt) else aged
    case DoUpdate(rt) => if rt.dst == k && o.Some? then Kept(rt) else o
    case DoDelete(dst) => if dst == k then None else aged
    case DoSetState(id, state) => if id == k && o.Some? then Some(o.value.(flag := state, reqCount := 0)) else o
    case DoMarkUnidirectional(id, timeout) =>
      if id == k && o.Some?
      then Some(o.value.(blacklisted := true, blackListTimeout := timeout, reqCount := 0)) else o
    case DoInvalidate(dsts) =>
      if k in dsts && aged.Some? && aged.value.flag == VALID
      then Some(aged.value.(flag := INVALID, reqCount := 0, expire := now + bad)) else aged
    case DoDeleteFromInterface(own) => if o.Some? && o.value.bound == own then None else o
    case DoClear => None
  }

  /** A life: all operations in turn. */
  function Life(o: Option<Entry>, k: Addr, ops: seq<(Op, int)>, bad: int): Option<Entry> {
    if ops == [] then o
    else
      var last := ops[|ops| - 1];
      Moved(Life(o, k, ops[..|ops| - 1], bad), k, last.0, last.1, bad)
  }

  lemma MovedAlone(t: Table, k: Addr, op: Op, now: int, bad: int)
    ensures Lookup(Apply(t, op, now, bad), k) == Moved(Lookup(t, k), k, op, now, bad)
  {
  }

  /** After any sequence of operations every destination is where its own life has brought it. */
  lemma {:induction false} EntriesIndependent(t: Table, k: Addr, ops: seq<(Op, int)>, bad: int)
    ensures Lookup(Run(t, ops, bad), k) == Life(Lookup(t, k), k, ops, bad)
  {
    if ops != [] {
      var init, last := ops[..|ops| - 1], ops[|ops| - 1];
      EntriesIndependent(t, k, init, bad);
      MovedAlone(Run(t, init, bad), k, last.0, last.1, bad);
    }
  }

  /** So two tables that agree on a destination agree on it for ever. */
  lemma OthersDoNotMatter(t: Table, u: Table, k: Addr, ops: seq<(Op, int)>, bad: int)
    requires Lookup(t, k) == Lookup(u, k)
    ensures Lookup(Run(t, ops, bad), k) == Lookup(Run(u, ops, bad), k)
  {
    EntriesIndependent(t, k, ops, bad);
    EntriesIndependent(u, k, ops, bad);
  }
}
