/** The four AODV messages as header values, and their flag bits. */
module Headers {
  import opened Basics

  const NANOS_PER_MILLI := 1_000_000

  predicate Bit(flags: bv8, w: bv8) {
    flags & w != 0
  }

  /** `m_flags |= w` or `m_flags &= ~w`. */
  function WithBit(flags: bv8, w: bv8, on: bool): bv8 {
    if on then flags | w else flags & !w
  }

  /** Setting a flag sets that flag and leaves the others alone. */
  lemma FlagBits(flags: bv8, w: bv8, on: bool, v: bv8)
    requires w != 0
    ensures Bit(WithBit(flags, w, on), w) == on
    ensures v & w == 0 ==> Bit(WithBit(flags, w, on), v) == Bit(flags, v)
  {
    assert v & w == 0 ==> WithBit(flags, w, on) & v == flags & v;
  }

  const GRATUITOUS: bv8 := 32
  const DESTINATION_ONLY: bv8 := 16
  const UNKNOWN_SEQNO: bv8 := 8
  const ACK_REQUIRED: bv8 := 64

  datatype RreqHeader = RreqHeader(flags: bv8, reserved: U8, hopCount: U8, requestID: U32, dst: Addr,
                                   dstSeqNo: U32, origin: Addr, originSeqNo: U32)
  {
    predicate GratuitousRrep() { Bit(flags, GRATUITOUS) }
    predicate DestinationOnly() { Bit(flags, DESTINATION_ONLY) }
    predicate UnknownSeqno() { Bit(flags, UNKNOWN_SEQNO) }

    function SetGratuitousRrep(f: bool): RreqHeader { this.(flags := WithBit(flags, GRATUITOUS, f)) }
    function SetDestinationOnly(f: bool): RreqHeader { this.(flags := WithBit(flags, DESTINATION_ONLY, f)) }
    function SetUnknownSeqno(f: bool): RreqHeader { this.(flags := WithBit(flags, UNKNOWN_SEQNO, f)) }
  }

  datatype RrepHeader = RrepHeader(flags: bv8, prefixSize: U8, hopCount: U8, dst: Addr, dstSeqNo: U32,
                                   origin: Addr, lifeTime: U32)
  {
    predicate AckRequired() { Bit(flags, ACK_REQUIRED) }
    function SetAckRequired(f: bool): RrepHeader { this.(flags := WithBit(flags, ACK_REQUIRED, f)) }

    /** The lifetime field, in milliseconds on the wire, as a duration in nanoseconds. */
    function LifeTime(): (t: int)
      ensures t >= 0
    {
      lifeTime * NANOS_PER_MILLI
    }
  }

  /** A duration as the 32-bit number of milliseconds a header carries (truncating towards zero). */
  function Millis(t: int): U32 {
    (if t >= 0 then t / NANOS_PER_MILLI else -(-t / NANOS_PER_MILLI)) % 0x1_0000_0000
  }

  function NewRrep(hopCount: U8, dst: Addr, dstSeqNo: U32, origin: Addr, lifetime: int): RrepHeader {
    RrepHeader(0, 0, hopCount, dst, dstSeqNo, origin, Millis(lifetime))
  }

  datatype RerrHeader = RerrHeader(flag: bv8, reserved: U8, dests: map<Addr, U32>) {
    /** The count the header reports: a uint8_t. */
    function DestCount(): U8 {
      |dests| % 0x100
    }

    /** A destination already present keeps its first sequence number. */
    function AddUnDestination(dst: Addr, seqNo: U32): RerrHeader {
      if dst in dests then this else this.(dests := dests[dst := seqNo])
    }
  }

  lemma SingleBit(x: bv8)
    ensures Bit(x, 0x20) <==> x & 0x20 == 0x20
    ensures Bit(x, 0x10) <==> x & 0x10 == 0x10
    ensures Bit(x, 0x08) <==> x & 0x08 == 0x08
    ensures Bit(x, 0x40) <==> x & 0x40 == 0x40
  {
  }

  /** The flag bits stand where section 5 of RFC 3561 has them: after the J and R bits of a RREQ come G, D and
      U, and A is the second bit of a RREP. */
  lemma FlagPositions(m: RreqHeader, p: RrepHeader)
    ensures m.GratuitousRrep() <==> m.flags & 0x20 == 0x20
    ensures m.DestinationOnly() <==> m.flags & 0x10 == 0x10
    ensures m.UnknownSeqno() <==> m.flags & 0x08 == 0x08
    ensures p.AckRequired() <==> p.flags & 0x40 == 0x40
  {
    SingleBit(m.flags);
    SingleBit(p.flags);
  }

  /** Setting one of them changes that bit of the byte and nothing else. */
  lemma FlagsSet(m: RreqHeader, p: RrepHeader, on: bool)
    ensures m.SetGratuitousRrep(on) == m.(flags := if on then m.flags | 0x20 else m.flags & 0xDF)
    ensures m.SetDestinationOnly(on) == m.(flags := if on then m.flags | 0x10 else m.flags & 0xEF)
    ensures m.SetUnknownSeqno(on) == m.(flags := if on then m.flags | 0x08 else m.flags & 0xF7)
    ensures p.SetAckRequired(on) == p.(flags := if on then p.flags | 0x40 else p.flags & 0xBF)
  {
  }

  /** A lifetime that fits the 32-bit field comes back from it short of less than a millisecond, and a
      duration of whole milliseconds comes back as it was. */
  lemma LifeTimeRoundTrip(hopCount: U8, dst: Addr, seqNo: U32, origin: Addr, lifetime: int)
    requires 0 <= lifetime < 0x1_0000_0000 * 1_000_000
    ensures var m := NewRrep(hopCount, dst, seqNo, origin, lifetime);
            && lifetime - 1_000_000 < m.LifeTime() <= lifetime
            && (lifetime % 1_000_000 == 0 ==> m.LifeTime() == lifetime)
            && m.lifeTime == lifetime / 1_000_000
            && m.hopCount == hopCount && m.dst == dst && m.dstSeqNo == seqNo && m.origin == origin
            && m.flags == 0 && m.prefixSize == 0
  {
  }

  /** A destination is listed from then on; one that was listed keeps its number, and so do all others. */
  lemma AddedDestination(h: RerrHeader, dst: Addr, seqNo: U32)
    ensures var r := h.AddUnDestination(dst, seqNo);
            && r.flag == h.flag && r.reserved == h.reserved && r.dests.Keys == h.dests.Keys + {dst}
            && (forall k :: k in h.dests ==> r.dests[k] == h.dests[k])
            && (dst !in h.dests ==> r.dests[dst] == seqNo)
  {
  }

  const EMPTY_RERR := RerrHeader(0, 0, map[])

  datatype Message =
    | Rreq(rreq: RreqHeader)
    | Rrep(rrep: RrepHeader)
    | Rerr(rerr: RerrHeader)
    | RrepAck
}
