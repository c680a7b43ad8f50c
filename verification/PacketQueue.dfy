/** The buffer of packets that wait for a route, with a ledger of what became of each of them. */
module PacketQueues {
  import opened Basics

  /** A queued packet: its unique id, destination, the output interface it is tied to (-1 when it is
      not) and its absolute expiry time. */
  datatype QueueEntry = QueueEntry(uid: nat, dst: Addr, oif: int, expire: int)

  /** The queue and its history: packets accepted by Enqueue, returned by Dequeue, and handed to their
      error callback, each in the order in which it happened. */
  datatype Queue = Queue(waiting: seq<QueueEntry>, accepted: seq<QueueEntry>,
                         returned: seq<QueueEntry>, dropped: seq<QueueEntry>)

  const EMPTY := Queue([], [], [], [])

  function Fresh(now: int): QueueEntry -> bool {
    (e: QueueEntry) => e.expire >= now
  }

  function Stale(now: int): QueueEntry -> bool {
    (e: QueueEntry) => e.expire < now
  }

  function IsFor(dst: Addr): QueueEntry -> bool {
    (e: QueueEntry) => e.dst == dst
  }

  function NotFor(dst: Addr): QueueEntry -> bool {
    (e: QueueEntry) => e.dst != dst
  }

  function Purge(q: Queue, now: int): Queue {
    q.(waiting := Filter(q.waiting, Fresh(now)), dropped := q.dropped + Filter(q.waiting, Stale(now)))
  }

  predicate Known(waiting: seq<QueueEntry>, uid: nat, dst: Addr) {
    exists i :: 0 <= i < |waiting| && waiting[i].uid == uid && waiting[i].dst == dst
  }

  /** Index of the first packet for `dst`, or the length when there is none. */
  function FirstFor(waiting: seq<QueueEntry>, dst: Addr): (i: nat)
    ensures i <= |waiting|
    ensures i < |waiting| ==> waiting[i].dst == dst
    ensures forall j :: 0 <= j < i ==> waiting[j].dst != dst
  {
    if waiting == [] || waiting[0].dst == dst then 0 else 1 + FirstFor(waiting[1..], dst)
  }

  function Enqueue(q: Queue, e: QueueEntry, now: int, maxLen: nat, timeout: int): Queue {
    var p := Purge(q, now);
    if Known(p.waiting, e.uid, e.dst) then p
    else Admit(MakeRoom(p, maxLen), e.(expire := now + timeout))
  }

  /** A full queue loses its front packet to the error callback. */
  function MakeRoom(p: Queue, maxLen: nat): Queue {
    if |p.waiting| == maxLen && p.waiting != []
    then p.(waiting := p.waiting[1..], dropped := p.dropped + [p.waiting[0]])
    else p
  }

  function Admit(p: Queue, stamped: QueueEntry): Queue {
    p.(waiting := p.waiting + [stamped], accepted := p.accepted + [stamped])
  }

  predicate Accepts(q: Queue, e: QueueEntry, now: int) {
    !Known(Purge(q, now).waiting, e.uid, e.dst)
  }

  function Dequeue(q: Queue, dst: Addr, now: int): Queue {
    var p := Purge(q, now);
    var i := FirstFor(p.waiting, dst);
    if i == |p.waiting| then p else Take(p, i)
  }

  function Take(p: Queue, i: nat): Queue
    requires i < |p.waiting|
  {
    p.(waiting := p.waiting[..i] + p.waiting[i + 1..], returned := p.returned + [p.waiting[i]])
  }

  function DropPacketWithDst(q: Queue, dst: Addr, now: int): Queue {
    var p := Purge(q, now);
    p.(waiting := Filter(p.waiting, NotFor(dst)), dropped := p.dropped + Filter(p.waiting, IsFor(dst)))
  }

  datatype Op = DoEnqueue(e: QueueEntry) | DoDequeue(dst: Addr) | DoDrop(dst: Addr) | DoGetSize

  function Apply(q: Queue, op: Op, now: int, maxLen: nat, timeout: int): Queue {
    match op
    case DoEnqueue(e) => Enqueue(q, e, now, maxLen, timeout)
    case DoDequeue(dst) => Dequeue(q, dst, now)
    case DoDrop(dst) => DropPacketWithDst(q, dst, now)
    case DoGetSize => Purge(q, now)
  }

  function Run(ops: seq<(Op, int)>, maxLen: nat, timeout: int): Queue {
    if ops == [] then EMPTY
    else
      var last := ops[|ops| - 1];
      Apply(Run(ops[..|ops| - 1], maxLen, timeout), last.0, last.1, maxLen, timeout)
  }

  // ------------------------------------------------------------------------------- packet by packet

  /** A purge keeps exactly the packets whose time has not passed and reports exactly the others. */
  lemma PurgedByTime(q: Queue, now: int)
    ensures var r := Purge(q, now);
            && r == q.(waiting := r.waiting, dropped := r.dropped) && q.dropped <= r.dropped
            && (forall e :: e in r.waiting <==> e in q.waiting && e.expire >= now)
            && (forall e :: e in r.dropped[|q.dropped|..] <==> e in q.waiting && e.expire < now)
  {
    InFilter(q.waiting, Fresh(now));
    InFilter(q.waiting, Stale(now));
  }

  /** A packet is refused exactly when one with its id and destination waits and has not run out. Otherwise it is
      appended with the time at which it will run out, and the front of a full queue is reported instead. */
  lemma EnqueuedOnce(q: Queue, e: QueueEntry, now: int, maxLen: nat, timeout: int)
    ensures Accepts(q, e, now)
       <==> forall w :: w in q.waiting && w.expire >= now ==> w.uid != e.uid || w.dst != e.dst
    ensures var p, r := Purge(q, now), Enqueue(q, e, now, maxLen, timeout);
            var evicts := |p.waiting| == maxLen && p.waiting != [];
            var stamped := QueueEntry(e.uid, e.dst, e.oif, now + timeout);
            && (!Accepts(q, e, now) ==> r == p)
            && (Accepts(q, e, now) ==>
                  && r.waiting == p.waiting[if evicts then 1 else 0..] + [stamped]
                  && r.accepted == q.accepted + [stamped] && r.returned == q.returned
                  && r.dropped == p.dropped + if evicts then [p.waiting[0]] else [])
  {
    var w := Purge(q, now).waiting;
    InFilter(q.waiting, Fresh(now));
    if Known(w, e.uid, e.dst) {
      var i :| 0 <= i < |w| && w[i].uid == e.uid && w[i].dst == e.dst;
      assert w[i] in q.waiting;
    } else {
      assert forall x :: x in w ==> x.uid != e.uid || x.dst != e.dst;
    }
  }

  /** What a dequeue hands out: the packet that has waited longest for `dst` among those that have not run out;
      it alone leaves the queue. */
  lemma DequeuedFirst(q: Queue, dst: Addr, now: int)
    ensures var p, r := Purge(q, now), Dequeue(q, dst, now);
            || (r == p && forall e :: e in q.waiting && e.expire >= now ==> e.dst != dst)
            || exists i: nat :: i < |p.waiting| && p.waiting[i].dst == dst
                 && (forall j :: 0 <= j < i ==> p.waiting[j].dst != dst)
                 && r == p.(waiting := p.waiting[..i] + p.waiting[i + 1..], returned := p.returned + [p.waiting[i]])
  {
    InFilter(q.waiting, Fresh(now));
    var p := Purge(q, now);
    var i := FirstFor(p.waiting, dst);
    if i < |p.waiting| {
      assert p.waiting[i].dst == dst;
    }
  }

  /** Giving up a destination reports every packet for it, and every packet that has run out, and keeps the rest. */
  lemma DroppedAll(q: Queue, dst: Addr, now: int)
    ensures var r := DropPacketWithDst(q, dst, now);
            && r == q.(waiting := r.waiting, dropped := r.dropped) && q.dropped <= r.dropped
            && (forall e :: e in r.waiting <==> e in q.waiting && e.expire >= now && e.dst != dst)
            && (forall e :: e in r.dropped[|q.dropped|..] <==> e in q.waiting && (e.expire < now || e.dst == dst))
  {
    PurgedByTime(q, now);
    var p, r := Purge(q, now), DropPacketWithDst(q, dst, now);
    InFilter(p.waiting, NotFor(dst));
    InFilter(p.waiting, IsFor(dst));
    var late, mine := p.dropped[|q.dropped|..], Filter(p.waiting, IsFor(dst));
    assert r.dropped[|q.dropped|..] == late + mine;
    assert forall e :: e in late + mine <==> e in late || e in mine;
  }

  // ------------------------------------------------------------------------------- conservation

  /** Every accepted packet is waiting, returned, or reported to its error callback; never two of them. */
  ghost predicate Balanced(q: Queue) {
    multiset(q.accepted) == multiset(q.waiting) + multiset(q.returned) + multiset(q.dropped)
  }

  ghost predicate UniquePackets(w: seq<QueueEntry>) {
    forall i, j :: 0 <= i < j < |w| ==> !(w[i].uid == w[j].uid && w[i].dst == w[j].dst)
  }

  ghost predicate SortedByExpiry(w: seq<QueueEntry>) {
    forall i, j :: 0 <= i < j < |w| ==> w[i].expire <= w[j].expire
  }

  lemma PurgeBalanced(q: Queue, now: int)
    requires Balanced(q)
    ensures Balanced(Purge(q, now))
  {
    FilterSplit(q.waiting, Fresh(now), Stale(now));
  }

  /** The packet at index `i` moves from the queue to one of the other two fates. */
  lemma MoveBalanced(q: Queue, i: nat)
    requires Balanced(q) && i < |q.waiting|
    ensures Balanced(q.(waiting := q.waiting[..i] + q.waiting[i + 1..], dropped := q.dropped + [q.waiting[i]]))
    ensures Balanced(Take(q, i))
  {
    RemoveAtMultiset(q.waiting, i);
  }

  lemma MakeRoomBalanced(p: Queue, maxLen: nat)
    requires Balanced(p)
    ensures Balanced(MakeRoom(p, maxLen))
  {
    if |p.waiting| == maxLen && p.waiting != [] {
      MoveBalanced(p, 0);
      assert p.waiting[..0] + p.waiting[1..] == p.waiting[1..];
    }
  }

  lemma AdmitBalanced(p: Queue, e: QueueEntry)
    requires Balanced(p)
    ensures Balanced(Admit(p, e))
  {
  }

  lemma EnqueueBalanced(q: Queue, e: QueueEntry, now: int, maxLen: nat, timeout: int)
    requires Balanced(q)
    ensures Balanced(Enqueue(q, e, now, maxLen, timeout))
  {
    PurgeBalanced(q, now);
    var p := Purge(q, now);
    MakeRoomBalanced(p, maxLen);
    AdmitBalanced(MakeRoom(p, maxLen), e.(expire := now + timeout));
  }

  lemma DequeueBalanced(q: Queue, dst: Addr, now: int)
    requires Balanced(q)
    ensures Balanced(Dequeue(q, dst, now))
  {
    PurgeBalanced(q, now);
    var p := Purge(q, now);
    if FirstFor(p.waiting, dst) < |p.waiting| {
      MoveBalanced(p, FirstFor(p.waiting, dst));
    }
  }

  lemma DropBalanced(q: Queue, dst: Addr, now: int)
    requires Balanced(q)
    ensures Balanced(DropPacketWithDst(q, dst, now))
  {
    PurgeBalanced(q, now);
    FilterSplit(Purge(q, now).waiting, NotFor(dst), IsFor(dst));
  }

  lemma ApplyBalanced(q: Queue, op: Op, now: int, maxLen: nat, timeout: int)
    requires Balanced(q)
    ensures Balanced(Apply(q, op, now, maxLen, timeout))
  {
    match op
    case DoEnqueue(e) => EnqueueBalanced(q, e, now, maxLen, timeout);
    case DoDequeue(dst) => DequeueBalanced(q, dst, now);
    case DoDrop(dst) => DropBalanced(q, dst, now);
    case DoGetSize => PurgeBalanced(q, now);
  }

  lemma {:induction false} LedgerBalances(ops: seq<(Op, int)>, maxLen: nat, timeout: int)
    ensures Balanced(Run(ops, maxLen, timeout))
  {
    if ops != [] {
      var last := ops[|ops| - 1];
      LedgerBalances(ops[..|ops| - 1], maxLen, timeout);
      ApplyBalanced(Run(ops[..|ops| - 1], maxLen, timeout), last.0, last.1, maxLen, timeout);
    }
  }

  // ------------------------------------------------------------------------------- order

  lemma {:induction false} FilterKeepsOrder(w: seq<QueueEntry>, keep: QueueEntry -> bool)
    ensures UniquePackets(w) ==> UniquePackets(Filter(w, keep))
    ensures SortedByExpiry(w) ==> SortedByExpiry(Filter(w, keep))
  {
    if w != [] {
      FilterKeepsOrder(w[1..], keep);
      InFilter(w[1..], keep);
      var rest := Filter(w[1..], keep);
      assert forall j :: 0 <= j < |rest| ==> rest[j] in w[1..];
    }
  }

  /** The waiting packets are bounded, unique, sorted by expiry and stamped no later than `last`. */
  ghost predicate Orderly(w: seq<QueueEntry>, maxLen: nat, horizon: int) {
    && |w| <= maxLen
    && UniquePackets(w)
    && SortedByExpiry(w)
    && forall e :: e in w ==> e.expire <= horizon
  }

  lemma FilterOrderly(w: seq<QueueEntry>, keep: QueueEntry -> bool, maxLen: nat, horizon: int)
    requires Orderly(w, maxLen, horizon)
    ensures Orderly(Filter(w, keep), maxLen, horizon)
  {
    FilterKeepsOrder(w, keep);
    InFilter(w, keep);
  }

  lemma RemoveAtOrderly(w: seq<QueueEntry>, i: nat, maxLen: nat, horizon: int)
    requires Orderly(w, maxLen, horizon) && i < |w|
    ensures Orderly(w[..i] + w[i + 1..], maxLen, horizon) && |w[..i] + w[i + 1..]| < maxLen
  {
    var r := w[..i] + w[i + 1..];
    assert forall j :: 0 <= j < |r| ==> r[j] == w[if j < i then j else j + 1];
  }

  lemma StampOrderly(w: seq<QueueEntry>, e: QueueEntry, maxLen: nat, earlier: int, horizon: int)
    requires Orderly(w, maxLen, earlier) && |w| < maxLen && earlier <= horizon
    requires !Known(w, e.uid, e.dst) && e.expire == horizon
    ensures Orderly(w + [e], maxLen, horizon)
  {
    var r := w + [e];
    forall i, j | 0 <= i < j < |r|
      ensures !(r[i].uid == r[j].uid && r[i].dst == r[j].dst) && r[i].expire <= r[j].expire
    {
      assert w[i] in w;
    }
  }

  lemma MakeRoomOrderly(p: Queue, maxLen: nat, horizon: int)
    requires maxLen >= 1 && Orderly(p.waiting, maxLen, horizon)
    ensures Orderly(MakeRoom(p, maxLen).waiting, maxLen, horizon) && |MakeRoom(p, maxLen).waiting| < maxLen
    ensures forall e :: e in MakeRoom(p, maxLen).waiting ==> e in p.waiting
  {
    if |p.waiting| == maxLen {
      RemoveAtOrderly(p.waiting, 0, maxLen, horizon);
      assert p.waiting[..0] + p.waiting[1..] == p.waiting[1..];
    }
  }

  lemma EnqueueOrderly(q: Queue, e: QueueEntry, earlier: int, now: int, maxLen: nat, timeout: int)
    requires maxLen >= 1 && earlier <= now && Orderly(q.waiting, maxLen, earlier + timeout)
    ensures Orderly(Enqueue(q, e, now, maxLen, timeout).waiting, maxLen, now + timeout)
  {
    FilterOrderly(q.waiting, Fresh(now), maxLen, earlier + timeout);
    var p := Purge(q, now);
    if !Known(p.waiting, e.uid, e.dst) {
      MakeRoomOrderly(p, maxLen, earlier + timeout);
      var room := MakeRoom(p, maxLen).waiting;
      assert forall i :: 0 <= i < |room| ==> room[i] in p.waiting;
      StampOrderly(room, e.(expire := now + timeout), maxLen, earlier + timeout, now + timeout);
    }
  }

  lemma ApplyOrderly(q: Queue, op: Op, earlier: int, now: int, maxLen: nat, timeout: int)
    requires maxLen >= 1 && earlier <= now && Orderly(q.waiting, maxLen, earlier + timeout)
    ensures Orderly(Apply(q, op, now, maxLen, timeout).waiting, maxLen, now + timeout)
  {
    FilterOrderly(q.waiting, Fresh(now), maxLen, earlier + timeout);
    var w := Purge(q, now).waiting;
    match op
    case DoEnqueue(e) => EnqueueOrderly(q, e, earlier, now, maxLen, timeout);
    case DoDequeue(dst) =>
      if FirstFor(w, dst) < |w| {
        RemoveAtOrderly(w, FirstFor(w, dst), maxLen, earlier + timeout);
      }
    case DoDrop(dst) => FilterOrderly(w, NotFor(dst), maxLen, earlier + timeout);
    case DoGetSize =>
  }

  predicate Monotone(ops: seq<(Op, int)>) {
    forall i, j :: 0 <= i < j < |ops| ==> ops[i].1 <= ops[j].1
  }

  /** Over any run with a limit of at least one packet and a clock that does not run backwards. The
      front of the queue, the packet that an overflow evicts, therefore has the earliest expiry. */
  lemma {:induction false} QueueStaysOrderly(ops: seq<(Op, int)>, maxLen: nat, timeout: int)
    requires maxLen >= 1 && Monotone(ops)
    ensures Run(ops, maxLen, timeout).waiting != [] ==> ops != []
    ensures ops != [] ==> Orderly(Run(ops, maxLen, timeout).waiting, maxLen, ops[|ops| - 1].1 + timeout)
  {
    if ops != [] {
      var init, last := ops[..|ops| - 1], ops[|ops| - 1];
      assert forall i :: 0 <= i < |init| ==> init[i] == ops[i];
      QueueStaysOrderly(init, maxLen, timeout);
      var earlier := if init == [] then last.1 else init[|init| - 1].1;
      ApplyOrderly(Run(init, maxLen, timeout), last.0, earlier, last.1, maxLen, timeout);
    }
  }

  // ------------------------------------------------------------------------------- first in, first out

  /** `a` can be obtained from `b` by leaving elements out. */
  ghost predicate Subsequence<T>(a: seq<T>, b: seq<T>)
    decreases |b|
  {
    || a == []
    || (b != [] && ((a[|a| - 1] == b[|b| - 1] && Subsequence(a[..|a| - 1], b[..|b| - 1]))
                    || Subsequence(a, b[..|b| - 1])))
  }

  lemma SubsequenceExtend<T>(a: seq<T>, b: seq<T>, x: T)
    requires Subsequence(a, b)
    ensures Subsequence(a, b + [x])
  {
    assert (b + [x])[..|b|] == b;
  }

  lemma {:induction false} SubsequenceTransitive<T>(a: seq<T>, b: seq<T>, c: seq<T>)
    requires Subsequence(a, b) && Subsequence(b, c)
    ensures Subsequence(a, c)
    decreases |c|
  {
    if a != [] {
      var b1, c1 := b[..|b| - 1], c[..|c| - 1];
      if Subsequence(b, c1) {
        SubsequenceTransitive(a, b, c1);
      } else if Subsequence(a, b1) {
        SubsequenceTransitive(a, b1, c1);
      } else {
        SubsequenceTransitive(a[..|a| - 1], b1, c1);
      }
    }
  }

  lemma {:induction false} SubsequenceReflexive<T>(a: seq<T>)
    ensures Subsequence(a, a)
  {
    if a != [] {
      SubsequenceReflexive(a[..|a| - 1]);
    }
  }

  /** Putting the same tail behind both sides. */
  lemma {:induction false} SubsequenceAppend<T>(a: seq<T>, b: seq<T>, tail: seq<T>)
    requires Subsequence(a, b)
    ensures Subsequence(a + tail, b + tail)
  {
    if tail == [] {
      assert a + tail == a && b + tail == b;
    } else {
      var t1, x := tail[..|tail| - 1], tail[|tail| - 1];
      SubsequenceAppend(a, b, t1);
      assert (a + tail)[..|a + tail| - 1] == a + t1;
      assert (b + tail)[..|b + tail| - 1] == b + t1;
    }
  }

  /** The head of a sequence moves to the end of what stands before it. */
  lemma MoveHead<T>(head: seq<T>, s: seq<T>)
    requires s != []
    ensures head + s == (head + [s[0]]) + s[1..]
  {
  }

  lemma MoveKept<T(!new)>(head: seq<T>, s: seq<T>, keep: T -> bool)
    requires s != []
    ensures head + Filter(s, keep) == (if keep(s[0]) then head + [s[0]] else head) + Filter(s[1..], keep)
  {
    if keep(s[0]) {
      ConcatAssociates(head, [s[0]], Filter(s[1..], keep));
    }
  }

  lemma {:induction false} FilterIsSubsequence<T(!new)>(head: seq<T>, s: seq<T>, keep: T -> bool)
    ensures Subsequence(head + Filter(s, keep), head + s)
    decreases |s|
  {
    hide Subsequence, Filter;
    if s == [] {
      FilterNone(s, keep);
      SubsequenceReflexive(head + s);
    } else {
      MoveHead(head, s);
      MoveKept(head, s, keep);
      if keep(s[0]) {
        FilterIsSubsequence(head + [s[0]], s[1..], keep);
      } else {
        FilterIsSubsequence(head, s[1..], keep);
        SubsequenceOneMore(head, s[0], s[1..]);
        SubsequenceTransitive(head + Filter(s, keep), head + s[1..], head + s);
      }
    }
  }

  lemma SubsequenceOneMore<T>(head: seq<T>, x: T, tail: seq<T>)
    ensures Subsequence(head + tail, (head + [x]) + tail)
  {
    SubsequenceReflexive(head);
    SubsequenceExtend(head, head, x);
    SubsequenceAppend(head, head + [x], tail);
  }

  /** What was returned for `dst`, then what still waits for it. */
  function ServiceOrder(q: Queue, dst: Addr): seq<QueueEntry> {
    Filter(q.returned, IsFor(dst)) + Filter(q.waiting, IsFor(dst))
  }

  /** Packets for one destination leave in the order in which they were accepted: those returned come
      first, those waiting next, in the order they were accepted, with only the dropped ones missing. */
  lemma {:induction false} FirstInFirstOut(ops: seq<(Op, int)>, maxLen: nat, timeout: int, dst: Addr)
    ensures var q := Run(ops, maxLen, timeout);
            Subsequence(ServiceOrder(q, dst), Filter(q.accepted, IsFor(dst)))
  {
    if ops != [] {
      var init, last := ops[..|ops| - 1], ops[|ops| - 1];
      FirstInFirstOut(init, maxLen, timeout, dst);
      ApplyFifo(Run(init, maxLen, timeout), last.0, last.1, maxLen, timeout, dst);
    }
  }

  lemma FilterCommutes(s: seq<QueueEntry>, p: QueueEntry -> bool, dst: Addr)
    ensures Filter(Filter(s, p), IsFor(dst)) == Filter(Filter(s, IsFor(dst)), p)
  {
    var both := (e: QueueEntry) => p(e) && e.dst == dst;
    FilterFilter(s, p, IsFor(dst), both);
    FilterFilter(s, IsFor(dst), p, both);
  }

  /** Removing waiting packets keeps the service order. */
  lemma RemoveFifo(q: Queue, p: QueueEntry -> bool, dst: Addr)
    requires Subsequence(ServiceOrder(q, dst), Filter(q.accepted, IsFor(dst)))
    ensures Subsequence(ServiceOrder(q.(waiting := Filter(q.waiting, p)), dst), Filter(q.accepted, IsFor(dst)))
  {
    FilterCommutes(q.waiting, p, dst);
    var head := Filter(q.returned, IsFor(dst));
    FilterIsSubsequence(head, Filter(q.waiting, IsFor(dst)), p);
    SubsequenceTransitive(head + Filter(Filter(q.waiting, IsFor(dst)), p), ServiceOrder(q, dst),
                          Filter(q.accepted, IsFor(dst)));
  }

  lemma EvictFifo(q: Queue, dst: Addr)
    requires q.waiting != []
    requires Subsequence(ServiceOrder(q, dst), Filter(q.accepted, IsFor(dst)))
    ensures Subsequence(ServiceOrder(q.(waiting := q.waiting[1..]), dst), Filter(q.accepted, IsFor(dst)))
  {
    var head, tail := Filter(q.returned, IsFor(dst)), Filter(q.waiting[1..], IsFor(dst));
    if q.waiting[0].dst == dst {
      SubsequenceOneMore(head, q.waiting[0], tail);
      ConcatAssociates(head, [q.waiting[0]], tail);
      SubsequenceTransitive(head + tail, ServiceOrder(q, dst), Filter(q.accepted, IsFor(dst)));
    }
  }

  lemma StampFifo(q: Queue, e: QueueEntry, dst: Addr)
    requires Subsequence(ServiceOrder(q, dst), Filter(q.accepted, IsFor(dst)))
    ensures Subsequence(ServiceOrder(q.(waiting := q.waiting + [e]), dst), Filter(q.accepted + [e], IsFor(dst)))
  {
    var mine := Filter([e], IsFor(dst));
    var head, tail := Filter(q.returned, IsFor(dst)), Filter(q.waiting, IsFor(dst));
    SubsequenceAppend(head + tail, Filter(q.accepted, IsFor(dst)), mine);
    assert (head + tail) + mine == head + (tail + mine);
    FilterAppend(q.waiting, [e], IsFor(dst));
    FilterAppend(q.accepted, [e], IsFor(dst));
  }

  /** Dequeue moves the first packet for its destination from the waiting part of the service order
      to the returned part; for every other destination nothing moves. */
  lemma DequeueFifo(returned: seq<QueueEntry>, w: seq<QueueEntry>, i: nat, target: Addr, dst: Addr)
    requires i == FirstFor(w, target) < |w|
    ensures Filter(returned + [w[i]], IsFor(dst)) + Filter(w[..i] + w[i + 1..], IsFor(dst)) ==
            Filter(returned, IsFor(dst)) + Filter(w, IsFor(dst))
  {
    hide Filter;
    var fr, fa, fx, fb := Filter(returned, IsFor(dst)), Filter(w[..i], IsFor(dst)), Filter([w[i]], IsFor(dst)),
        Filter(w[i + 1..], IsFor(dst));
    FilterAround(w, i, IsFor(dst));
    FilterAppend(returned, [w[i]], IsFor(dst));
    if dst == target {
      FilterNone(w[..i], IsFor(dst));
    } else {
      FilterNone([w[i]], IsFor(dst));
    }
    SwapEmpty(fr, fx, fa, fb);
  }

  lemma SwapEmpty<T>(r: seq<T>, x: seq<T>, a: seq<T>, b: seq<T>)
    requires a == [] || x == []
    ensures (r + x) + (a + b) == r + (a + (x + b))
  {
  }

  ghost predicate Fifo(q: Queue, dst: Addr) {
    Subsequence(ServiceOrder(q, dst), Filter(q.accepted, IsFor(dst)))
  }

  lemma PurgeFifo(q: Queue, now: int, dst: Addr)
    requires Fifo(q, dst)
    ensures Fifo(Purge(q, now), dst)
  {
    RemoveFifo(q, Fresh(now), dst);
  }

  lemma EnqueueFifo(q: Queue, e: QueueEntry, now: int, maxLen: nat, timeout: int, dst: Addr)
    requires Fifo(q, dst)
    ensures Fifo(Enqueue(q, e, now, maxLen, timeout), dst)
  {
    PurgeFifo(q, now, dst);
    var p := Purge(q, now);
    if !Known(p.waiting, e.uid, e.dst) {
      if |p.waiting| == maxLen && p.waiting != [] {
        EvictFifo(p, dst);
      }
      StampFifo(MakeRoom(p, maxLen), e.(expire := now + timeout), dst);
    }
  }

  lemma ApplyFifo(q: Queue, op: Op, now: int, maxLen: nat, timeout: int, dst: Addr)
    requires Fifo(q, dst)
    ensures Fifo(Apply(q, op, now, maxLen, timeout), dst)
  {
    PurgeFifo(q, now, dst);
    var p := Purge(q, now);
    match op
    case DoEnqueue(e) => EnqueueFifo(q, e, now, maxLen, timeout, dst);
    case DoDequeue(target) =>
      if FirstFor(p.waiting, target) < |p.waiting| {
        DequeueFifo(p.returned, p.waiting, FirstFor(p.waiting, target), target, dst);
      }
    case DoDrop(target) => RemoveFifo(p, NotFor(target), dst);
    case DoGetSize =>
  }
}
