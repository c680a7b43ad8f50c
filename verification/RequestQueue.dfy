/** The request queue as the object the protocol updates in place, proved against PacketQueues. */
module RequestQueues {
  import opened Basics
  import opened PacketQueues

  class RequestQueue {
    var queue: seq<QueueEntry>
    const maxLen: nat
    const queueTimeout: int
    ghost var accepted: seq<QueueEntry>
    ghost var returned: seq<QueueEntry>
    ghost var dropped: seq<QueueEntry>

    ghost function State(): Queue
      reads this
    {
      Queue(queue, accepted, returned, dropped)
    }

    constructor (maxLen: nat, queueTimeout: int)
      ensures State() == EMPTY && this.maxLen == maxLen && this.queueTimeout == queueTimeout
    {
      this.maxLen, this.queueTimeout := maxLen, queueTimeout;
      queue, accepted, returned, dropped := [], [], [], [];
    }

    method GetSize(now: int) returns (size: nat)
      modifies this
      ensures State() == Purge(old(State()), now) && size == |queue|
    {
      PurgeExpired(now);
      size := |queue|;
    }

    method Enqueue(entry: QueueEntry, now: int) returns (queued: bool)
      requires maxLen >= 1
      modifies this
      ensures State() == PacketQueues.Enqueue(old(State()), entry, now, maxLen, queueTimeout)
      ensures queued == Accepts(old(State()), entry, now)
    {
      PurgeExpired(now);
      for i := 0 to |queue|
        invariant State() == Purge(old(State()), now)
        invariant forall j :: 0 <= j < i ==> !(queue[j].uid == entry.uid && queue[j].dst == entry.dst)
      {
        if queue[i].uid == entry.uid && queue[i].dst == entry.dst {
          return false;
        }
      }
      var stamped := entry.(expire := now + queueTimeout);
      if |queue| == maxLen {
        Drop(queue[0]);
        queue := queue[1..];
      }
      queue := queue + [stamped];
      accepted := accepted + [stamped];
      queued := true;
    }

    method Dequeue(dst: Addr, now: int) returns (entry: Option<QueueEntry>)
      modifies this
      ensures State() == PacketQueues.Dequeue(old(State()), dst, now)
      ensures entry == var w := Purge(old(State()), now).waiting;
                       if FirstFor(w, dst) < |w| then Some(w[FirstFor(w, dst)]) else None
    {
      PurgeExpired(now);
      for i := 0 to |queue|
        invariant State() == Purge(old(State()), now)
        invariant forall j :: 0 <= j < i ==> queue[j].dst != dst
      {
        if queue[i].dst == dst {
          entry := Some(queue[i]);
          returned := returned + [queue[i]];
          queue := queue[..i] + queue[i + 1..];
          return;
        }
      }
      entry := None;
    }

    /** First every packet for `dst` is reported, then all of them are removed. */
    method DropPacketWithDst(dst: Addr, now: int)
      modifies this
      ensures State() == PacketQueues.DropPacketWithDst(old(State()), dst, now)
    {
      PurgeExpired(now);
      DropAll(IsFor(dst));
      queue := RemoveIf(queue, NotFor(dst));
    }

    method Find(dst: Addr) returns (found: bool)
      ensures found <==> exists e :: e in queue && e.dst == dst
    {
      for i := 0 to |queue|
        invariant forall j :: 0 <= j < i ==> queue[j].dst != dst
      {
        if queue[i].dst == dst {
          return true;
        }
      }
      found := false;
    }

    method PurgeExpired(now: int)
      modifies this
      ensures State() == Purge(old(State()), now)
    {
      DropAll(Stale(now));
      queue := RemoveIf(queue, Fresh(now));
    }

    /** The first of the two passes over the vector: one error callback for each packet that matches. */
    method DropAll(match_: QueueEntry -> bool)
      modifies this`dropped
      ensures dropped == old(dropped) + Filter(queue, match_)
    {
      for i := 0 to |queue|
        invariant dropped == old(dropped) + Filter(queue[..i], match_)
      {
        assert queue[..i + 1] == queue[..i] + [queue[i]];
        FilterAppend(queue[..i], [queue[i]], match_);
        if match_(queue[i]) {
          Drop(queue[i]);
        }
      }
      assert queue[..|queue|] == queue;
    }

    /** The error callback of one packet. */
    method Drop(entry: QueueEntry)
      modifies this`dropped
      ensures dropped == old(dropped) + [entry]
    {
      dropped := dropped + [entry];
    }

    /** std::remove_if and erase; `keep` is the negation of its test. */
    static method RemoveIf(q: seq<QueueEntry>, keep: QueueEntry -> bool) returns (r: seq<QueueEntry>)
      ensures r == Filter(q, keep)
    {
      r := [];
      for i := 0 to |q|
        invariant r == Filter(q[..i], keep)
      {
        assert q[..i + 1] == q[..i] + [q[i]];
        FilterAppend(q[..i], [q[i]], keep);
        if keep(q[i]) {
          r := r + [q[i]];
        }
      }
      assert q[..|q|] == q;
    }
  }
}
