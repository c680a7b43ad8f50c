/** Serialisation of the AODV messages (sections 5.1 to 5.4 of RFC 3561) and its inverse. */
module WireFormat {
  import opened Basics
  import opened Headers

  type Bytes = seq<U8>

  /** Network byte order. */
  function Be32(x: U32): (b: Bytes)
    ensures |b| == 4
  {
    [x / 0x100_0000, x / 0x1_0000 % 0x100, x / 0x100 % 0x100, x % 0x100]
  }

  function FromBe32(b: Bytes): U32
    requires |b| == 4
  {
    b[0] as int * 0x100_0000 + b[1] as int * 0x1_0000 + b[2] as int * 0x100 + b[3]
  }

  /** Two steps of division by 256 are one by their product. */
  lemma Shifts(x: nat)
    ensures x / 0x1_0000 == x / 0x100 / 0x100
    ensures x / 0x100_0000 == x / 0x100 / 0x100 / 0x100
  {
  }

  lemma Digit(q: nat, r: nat)
    requires r < 0x100
    ensures (0x100 * q + r) / 0x100 == q && (0x100 * q + r) % 0x100 == r
  {
  }

  lemma Be32Decodes(x: U32)
    ensures FromBe32(Be32(x)) == x
  {
    Shifts(x);
    var q1 := x / 0x100;
    var q2 := q1 / 0x100;
    assert x == 0x100 * q1 + x % 0x100 && q1 == 0x100 * q2 + q1 % 0x100 && q2 == 0x100 * (q2 / 0x100) + q2 % 0x100;
  }

  lemma Be32Encodes(b: Bytes)
    requires |b| == 4
    ensures Be32(FromBe32(b)) == b
  {
    var b0: nat, b1: nat, b2: nat, b3: nat := b[0], b[1], b[2], b[3];
    var q2 := 0x100 * b0 + b1;
    var q1 := 0x100 * q2 + b2;
    var x := 0x100 * q1 + b3;
    Digit(b0, b1);
    Digit(q2, b2);
    Digit(q1, b3);
    Shifts(x);
    assert FromBe32(b) == x;
    assert Be32(x) == [b0, b1, b2, b3];
  }

  lemma Be32RoundTrip(x: U32, b: Bytes)
    requires |b| == 4
    ensures FromBe32(Be32(x)) == x
    ensures Be32(FromBe32(b)) == b
  {
    hide Be32, FromBe32;
    Be32Decodes(x);
    Be32Encodes(b);
  }

  function TypeByte(m: Message): U8 {
    match m
    case Rreq(_) => 1
    case Rrep(_) => 2
    case Rerr(_) => 3
    case RrepAck => 4
  }

  function RreqBytes(h: RreqHeader): (b: Bytes)
    ensures |b| == 23
  {
    [h.flags as int, h.reserved, h.hopCount] + Be32(h.requestID) + Be32(h.dst) + Be32(h.dstSeqNo)
    + Be32(h.origin) + Be32(h.originSeqNo)
  }

  function RrepBytes(h: RrepHeader): (b: Bytes)
    ensures |b| == 19
  {
    [h.flags as int, h.prefixSize, h.hopCount] + Be32(h.dst) + Be32(h.dstSeqNo) + Be32(h.origin) + Be32(h.lifeTime)
  }

  // ------------------------------------------------------------------------------- RERR

  /** The first key a std::map iterates over. */
  ghost function MinKey(s: set<Addr>): (m: Addr)
    requires s != {}
    ensures m in s && forall x :: x in s ==> m <= x
    decreases |s|
  {
    var a :| a in s;
    var rest := s - {a};
    assert forall x :: x in s ==> x == a || x in rest;
    if rest == {} then a
    else
      var m := MinKey(rest);
      if a <= m then a else m
  }

  /** The destination records in the order in which a std::map is iterated. */
  ghost function SortedPairs(m: map<Addr, U32>): (r: seq<(Addr, U32)>)
    ensures |r| == |m|
    decreases |m|
  {
    if m == map[] then []
    else
      var k := MinKey(m.Keys);
      assert (m - {k}).Keys == m.Keys - {k};
      assert |m - {k}| == |m| - 1;
      [(k, m[k])] + SortedPairs(m - {k})
  }

  function PairBytes(p: (Addr, U32)): (b: Bytes)
    ensures |b| == 8
  {
    Be32(p.0) + Be32(p.1)
  }

  function PairsBytes(ps: seq<(Addr, U32)>): (b: Bytes)
    ensures |b| == 8 * |ps|
  {
    if ps == [] then [] else PairBytes(ps[0]) + PairsBytes(ps[1..])
  }

  ghost function RerrBytes(h: RerrHeader): (b: Bytes)
    ensures |b| == 3 + 8 * |h.dests|
  {
    [h.flag as int, h.reserved, h.DestCount()] + PairsBytes(SortedPairs(h.dests))
  }

  /** Reads `n` destination records. */
  function ReadPairs(b: Bytes, n: nat): (ps: seq<(Addr, U32)>)
    requires |b| >= 8 * n
    ensures |ps| == n
  {
    if n == 0 then []
    else [(FromBe32(b[..4]), FromBe32(b[4..8]))] + ReadPairs(b[8..], n - 1)
  }

  /** std::map::insert for each pair in turn: the first record of an address wins. */
  function InsertAll(m: map<Addr, U32>, ps: seq<(Addr, U32)>): map<Addr, U32>
    decreases |ps|
  {
    if ps == [] then m
    else InsertAll(if ps[0].0 in m then m else m[ps[0].0 := ps[0].1], ps[1..])
  }

  /** How many records a RERR announces: its third byte. */
  function Announced(b: Bytes): (n: nat)
    requires |b| >= 3
    ensures n < 0x100
  {
    b[2]
  }

  predicate LongEnough(b: Bytes) {
    |b| >= 3 && |b| >= 3 + 8 * Announced(b)
  }

  /** What Deserialize makes of a buffer that is long enough for the count it announces. */
  function ParseRerr(b: Bytes): RerrHeader
    requires LongEnough(b)
  {
    RerrHeader(b[0] as bv8, b[1], InsertAll(map[], ReadPairs(b[3..], Announced(b))))
  }

  lemma {:induction false} ReadWritten(ps: seq<(Addr, U32)>, n: nat)
    requires n <= |ps|
    ensures ReadPairs(PairsBytes(ps), n) == ps[..n]
  {
    if n > 0 {
      var b := PairsBytes(ps);
      assert b[..4] == Be32(ps[0].0) && b[4..8] == Be32(ps[0].1) && b[8..] == PairsBytes(ps[1..]);
      Be32RoundTrip(ps[0].0, b[..4]);
      Be32RoundTrip(ps[0].1, b[4..8]);
      ReadWritten(ps[1..], n - 1);
    }
  }

  /** The keys of the first `n` records. */
  function Keys(ps: seq<(Addr, U32)>): set<Addr> {
    set i | 0 <= i < |ps| :: ps[i].0
  }

  lemma KeysCons(ps: seq<(Addr, U32)>)
    requires ps != []
    ensures Keys(ps) == {ps[0].0} + Keys(ps[1..])
  {
    forall k | k in Keys(ps)
      ensures k in {ps[0].0} + Keys(ps[1..])
    {
      var i :| 0 <= i < |ps| && ps[i].0 == k;
      if i > 0 {
        assert ps[1..][i - 1] == ps[i];
      }
    }
    assert forall i :: 0 <= i < |ps| - 1 ==> ps[1..][i] == ps[i + 1];
  }

  lemma {:induction false} InsertedKeys(m: map<Addr, U32>, ps: seq<(Addr, U32)>)
    ensures InsertAll(m, ps).Keys == m.Keys + Keys(ps)
    decreases |ps|
  {
    if ps != [] {
      InsertedKeys(if ps[0].0 in m then m else m[ps[0].0 := ps[0].1], ps[1..]);
      KeysCons(ps);
    }
  }

  lemma {:induction false} SortedPairsKeys(m: map<Addr, U32>)
    ensures Keys(SortedPairs(m)) == m.Keys
    decreases |m|
  {
    if m != map[] {
      var k := MinKey(m.Keys);
      assert (m - {k}).Keys == m.Keys - {k};
      SortedPairsKeys(m - {k});
      KeysCons(SortedPairs(m));
      assert SortedPairs(m)[1..] == SortedPairs(m - {k});
    }
  }

  lemma SortedPairsStep(m: map<Addr, U32>)
    requires m != map[]
    ensures var k := MinKey(m.Keys);
            && (m - {k}).Keys == m.Keys - {k} && |m - {k}| == |m| - 1
            && SortedPairs(m) == [(k, m[k])] + SortedPairs(m - {k})
            && SortedPairs(m)[0] == (k, m[k]) && SortedPairs(m)[1..] == SortedPairs(m - {k})
            && PairsBytes(SortedPairs(m)) == PairBytes((k, m[k])) + PairsBytes(SortedPairs(m - {k}))
  {
    var k := MinKey(m.Keys);
    assert (m - {k}).Keys == m.Keys - {k};
    assert SortedPairs(m)[1..] == SortedPairs(m - {k});
  }

  lemma MoveKey(done: map<Addr, U32>, m: map<Addr, U32>, k: Addr)
    requires k in m && k !in done
    ensures done[k := m[k]] + (m - {k}) == done + m
  {
  }

  /** Inserting the records in iteration order rebuilds the map. */
  lemma {:induction false} Rebuild(done: map<Addr, U32>, m: map<Addr, U32>)
    requires done.Keys !! m.Keys
    ensures InsertAll(done, SortedPairs(m)) == done + m
    decreases |m|
  {
    if m == map[] {
      assert done + m == done;
    } else {
      var k := MinKey(m.Keys);
      SortedPairsStep(m);
      Rebuild(done[k := m[k]], m - {k});
      MoveKey(done, m, k);
    }
  }

  lemma {:induction false} InsertedAtMost(m: map<Addr, U32>, ps: seq<(Addr, U32)>)
    ensures |InsertAll(m, ps)| <= |m| + |ps|
    decreases |ps|
  {
    if ps != [] {
      InsertedAtMost(if ps[0].0 in m then m else m[ps[0].0 := ps[0].1], ps[1..]);
    }
  }

  /** A RERR survives the wire exactly when it names at most 255 destinations, the most its one-byte
      count can announce. */
  lemma RerrRoundTrip(h: RerrHeader)
    ensures LongEnough(RerrBytes(h))
    ensures ParseRerr(RerrBytes(h)) == h <==> |h.dests| <= 255
  {
    var ps := SortedPairs(h.dests);
    HeaderParsed(h, ps, h.DestCount());
    InsertedAtMost(map[], ps[..h.DestCount()]);
    if |h.dests| <= 255 {
      CountFits(h, ps);
    }
  }

  lemma CountFits(h: RerrHeader, ps: seq<(Addr, U32)>)
    requires ps == SortedPairs(h.dests) && |h.dests| <= 255
    ensures InsertAll(map[], ps[..h.DestCount()]) == h.dests
  {
    assert ps[..h.DestCount()] == ps;
    RebuildAll(h.dests);
  }

  lemma RebuildAll(m: map<Addr, U32>)
    ensures InsertAll(map[], SortedPairs(m)) == m
  {
    Rebuild(map[], m);
    assert map[] + m == m;
  }

  lemma HeaderParsed(h: RerrHeader, ps: seq<(Addr, U32)>, n: nat)
    requires ps == SortedPairs(h.dests) && n == h.DestCount()
    ensures LongEnough(RerrBytes(h))
    ensures ParseRerr(RerrBytes(h)) == RerrHeader(h.flag, h.reserved, InsertAll(map[], ps[..n]))
  {
    var b := RerrBytes(h);
    assert b[2] == h.DestCount() && b[3..] == PairsBytes(ps);
    ReadWritten(ps, n);
  }

  /** No address is named twice. */
  predicate Distinct(ps: seq<(Addr, U32)>) {
    forall i, j :: 0 <= i < j < |ps| ==> ps[i].0 != ps[j].0
  }

  /** The size check at the end of Deserialize (it compares the distance read with the size of the
      rebuilt header) passes exactly when the records on the wire name distinct addresses. */
  lemma RerrSizeCheck(b: Bytes)
    requires LongEnough(b)
    ensures Announced(b) == ParseRerr(b).DestCount()
       <==> Distinct(ReadPairs(b[3..], Announced(b)))
  {
    var ps := ReadPairs(b[3..], Announced(b));
    InsertedSize(map[], ps);
    InsertedAtMost(map[], ps);
    assert |InsertAll(map[], ps)| == ParseRerr(b).DestCount();
  }

  lemma {:induction false} InsertedSize(m: map<Addr, U32>, ps: seq<(Addr, U32)>)
    ensures |InsertAll(m, ps)| == |m| + |ps|
       <==> Distinct(ps)
            && (forall i :: 0 <= i < |ps| ==> ps[i].0 !in m)
    decreases |ps|
  {
    if ps != [] {
      var tail := ps[1..];
      assert forall i :: 0 <= i < |tail| ==> tail[i] == ps[i + 1];
      assert forall i :: 1 <= i < |ps| ==> ps[i] == tail[i - 1];
      if ps[0].0 in m {
        InsertedAtMost(m, tail);
      } else {
        InsertedSize(m[ps[0].0 := ps[0].1], tail);
      }
    }
  }

  // ------------------------------------------------------------------------------- fixed-size messages

  lemma RreqBytesInjective(a: RreqHeader, b: RreqHeader)
    requires RreqBytes(a) == RreqBytes(b)
    ensures a == b
  {
    var x, y := RreqBytes(a), RreqBytes(b);
    assert x[0] == a.flags as int && x[1] == a.reserved && x[2] == a.hopCount;
    assert y[0] == b.flags as int && y[1] == b.reserved && y[2] == b.hopCount;
    Same32(a.requestID, b.requestID, x[3..7], y[3..7]);
    Same32(a.dst, b.dst, x[7..11], y[7..11]);
    Same32(a.dstSeqNo, b.dstSeqNo, x[11..15], y[11..15]);
    Same32(a.origin, b.origin, x[15..19], y[15..19]);
    Same32(a.originSeqNo, b.originSeqNo, x[19..23], y[19..23]);
  }

  lemma RrepBytesInjective(a: RrepHeader, b: RrepHeader)
    requires RrepBytes(a) == RrepBytes(b)
    ensures a == b
  {
    var x, y := RrepBytes(a), RrepBytes(b);
    assert x[0] == a.flags as int && x[1] == a.prefixSize && x[2] == a.hopCount;
    assert y[0] == b.flags as int && y[1] == b.prefixSize && y[2] == b.hopCount;
    Same32(a.dst, b.dst, x[3..7], y[3..7]);
    Same32(a.dstSeqNo, b.dstSeqNo, x[7..11], y[7..11]);
    Same32(a.origin, b.origin, x[11..15], y[11..15]);
    Same32(a.lifeTime, b.lifeTime, x[15..19], y[15..19]);
  }

  // ------------------------------------------------------------------------------- byte by byte

  /** The most significant byte comes first. */
  lemma NetworkOrder(x: U32, b: Bytes)
    requires |b| == 4
    ensures FromBe32(b) as int == b[0] as int * 0x100_0000 + b[1] as int * 0x1_0000 + b[2] as int * 0x100 + b[3] as int
    ensures Be32(x)[3] == x % 0x100 && Be32(x)[2] == x / 0x100 % 0x100
            && Be32(x)[1] == x / 0x1_0000 % 0x100 && Be32(x)[0] == x / 0x100_0000
  {
  }

  /** Where the fields of a RREQ stand: the layout of section 5.1 of RFC 3561, without its type byte. */
  lemma RreqLayout(h: RreqHeader)
    ensures var b := RreqBytes(h);
            && b[0] == h.flags as int && b[1] == h.reserved && b[2] == h.hopCount
            && FromBe32(b[3..7]) == h.requestID && FromBe32(b[7..11]) == h.dst && FromBe32(b[11..15]) == h.dstSeqNo
            && FromBe32(b[15..19]) == h.origin && FromBe32(b[19..23]) == h.originSeqNo
  {
    hide Be32, FromBe32;
    var b := RreqBytes(h);
    Be32RoundTrip(h.requestID, b[3..7]);
    Be32RoundTrip(h.dst, b[7..11]);
    Be32RoundTrip(h.dstSeqNo, b[11..15]);
    Be32RoundTrip(h.origin, b[15..19]);
    Be32RoundTrip(h.originSeqNo, b[19..23]);
    assert b[3..7] == Be32(h.requestID) && b[7..11] == Be32(h.dst) && b[11..15] == Be32(h.dstSeqNo)
           && b[15..19] == Be32(h.origin) && b[19..23] == Be32(h.originSeqNo);
  }

  /** The same for a RREP: section 5.2. */
  lemma RrepLayout(h: RrepHeader)
    ensures var b := RrepBytes(h);
            && b[0] == h.flags as int && b[1] == h.prefixSize && b[2] == h.hopCount
            && FromBe32(b[3..7]) == h.dst && FromBe32(b[7..11]) == h.dstSeqNo
            && FromBe32(b[11..15]) == h.origin && FromBe32(b[15..19]) == h.lifeTime
  {
    hide Be32, FromBe32;
    var b := RrepBytes(h);
    Be32RoundTrip(h.dst, b[3..7]);
    Be32RoundTrip(h.dstSeqNo, b[7..11]);
    Be32RoundTrip(h.origin, b[11..15]);
    Be32RoundTrip(h.lifeTime, b[15..19]);
    assert b[3..7] == Be32(h.dst) && b[7..11] == Be32(h.dstSeqNo) && b[11..15] == Be32(h.origin)
           && b[15..19] == Be32(h.lifeTime);
  }

  /** Record `i` of a RERR. */
  lemma {:induction false} RecordAt(ps: seq<(Addr, U32)>, i: nat)
    requires i < |ps|
    ensures var b := PairsBytes(ps)[8 * i..8 * i + 8]; b[..4] == Be32(ps[i].0) && b[4..] == Be32(ps[i].1)
  {
    hide Be32;
    var b := PairsBytes(ps);
    if i == 0 {
      assert b[..8] == PairBytes(ps[0]);
    } else {
      RecordAt(ps[1..], i - 1);
      var rest := PairsBytes(ps[1..]);
      assert b[8..] == rest;
      assert b[8 * i..8 * i + 8] == rest[8 * (i - 1)..8 * (i - 1) + 8];
    }
  }

  /** The records name the destinations of the map in strictly ascending order, each with its number. */
  lemma {:induction false} RecordsSorted(m: map<Addr, U32>, i: nat, j: nat)
    requires i < j < |m|
    ensures var ps := SortedPairs(m);
            ps[i].0 < ps[j].0 && ps[i].0 in m && ps[i].1 == m[ps[i].0] && ps[j].0 in m && ps[j].1 == m[ps[j].0]
    decreases |m|
  {
    SortedPairsStep(m);
    var k := MinKey(m.Keys);
    var rest := m - {k};
    RecordFrom(rest, j - 1);
    if i > 0 {
      RecordsSorted(rest, i - 1, j - 1);
    }
  }

  lemma {:induction false} RecordFrom(m: map<Addr, U32>, i: nat)
    requires i < |m|
    ensures SortedPairs(m)[i].0 in m && SortedPairs(m)[i].1 == m[SortedPairs(m)[i].0]
    decreases |m|
  {
    SortedPairsStep(m);
    if i > 0 {
      RecordFrom(m - {MinKey(m.Keys)}, i - 1);
    }
  }

  /** The layout of section 5.3: flag, reserved byte, the count in one byte, and the records in ascending order of
      address, an address and its number in eight bytes. */
  lemma RerrLayout(h: RerrHeader, i: nat)
    requires i < |h.dests|
    ensures var b := RerrBytes(h);
            && b[0] == h.flag as int && b[1] == h.reserved && b[2] == |h.dests| % 0x100
            && |b| == 3 + 8 * |h.dests|
            && var k: Addr := FromBe32(b[3 + 8 * i..7 + 8 * i]);
               && k in h.dests && FromBe32(b[7 + 8 * i..11 + 8 * i]) == h.dests[k]
               && (i > 0 ==> FromBe32(b[3 + 8 * (i - 1)..7 + 8 * (i - 1)]) < k)
  {
    hide Be32, FromBe32, SortedPairs;
    RecordRead(h, i);
    RecordFrom(h.dests, i);
    if i > 0 {
      RecordRead(h, i - 1);
      RecordsSorted(h.dests, i - 1, i);
    }
  }

  lemma RecordRead(h: RerrHeader, i: nat)
    requires i < |h.dests|
    ensures var b := RerrBytes(h);
            && FromBe32(b[3 + 8 * i..7 + 8 * i]) == SortedPairs(h.dests)[i].0
            && FromBe32(b[7 + 8 * i..11 + 8 * i]) == SortedPairs(h.dests)[i].1
  {
    hide Be32, FromBe32, SortedPairs;
    var b, ps := RerrBytes(h), SortedPairs(h.dests);
    var all := PairsBytes(ps);
    RecordAt(ps, i);
    assert b[3..] == all;
    var r := all[8 * i..8 * i + 8];
    assert b[3 + 8 * i..7 + 8 * i] == r[..4] && b[7 + 8 * i..11 + 8 * i] == r[4..];
    Be32RoundTrip(ps[i].0, r[..4]);
    Be32RoundTrip(ps[i].1, r[4..]);
  }

  lemma SliceOfTail(b: Bytes, s: nat, i: nat, j: nat)
    requires i <= j && s + j <= |b|
    ensures b[s..][i..j] == b[s + i..s + j]
  {
  }

  lemma {:induction false} RecordReadAt(b: Bytes, n: nat, i: nat)
    requires |b| >= 8 * n && i < n
    ensures ReadPairs(b, n)[i] == (FromBe32(b[8 * i..8 * i + 4]), FromBe32(b[8 * i + 4..8 * i + 8]))
  {
    hide FromBe32;
    if i > 0 {
      RecordReadAt(b[8..], n - 1, i - 1);
      SliceOfTail(b, 8, 8 * (i - 1), 8 * (i - 1) + 4);
      SliceOfTail(b, 8, 8 * (i - 1) + 4, 8 * (i - 1) + 8);
    }
  }

  /** What is in the map already keeps its number, and of several records of one address the first counts. */
  lemma {:induction false} FirstRecordWins(m: map<Addr, U32>, ps: seq<(Addr, U32)>, i: nat)
    requires i < |ps| && ps[i].0 !in m && forall j :: 0 <= j < i ==> ps[j].0 != ps[i].0
    ensures ps[i].0 in InsertAll(m, ps) && InsertAll(m, ps)[ps[i].0] == ps[i].1
    decreases |ps|
  {
    var m1 := if ps[0].0 in m then m else m[ps[0].0 := ps[0].1];
    if i > 0 {
      FirstRecordWins(m1, ps[1..], i - 1);
    } else {
      OldRecordStays(m1, ps[1..], ps[0].0);
    }
  }

  lemma {:induction false} OldRecordStays(m: map<Addr, U32>, ps: seq<(Addr, U32)>, k: Addr)
    requires k in m
    ensures k in InsertAll(m, ps) && InsertAll(m, ps)[k] == m[k]
    decreases |ps|
  {
    if ps != [] {
      OldRecordStays(if ps[0].0 in m then m else m[ps[0].0 := ps[0].1], ps[1..], k);
    }
  }

  /** What is read from a RERR: flag and reserved byte, the addresses of the records that its third byte
      announces, and for each the number of the first record that names it. */
  lemma RerrRead(b: Bytes, i: nat)
    requires LongEnough(b) && i < b[2]
    requires forall j :: 0 <= j < i ==> ReadPairs(b[3..], b[2])[j].0 != FromBe32(b[3 + 8 * i..7 + 8 * i])
    ensures var h := ParseRerr(b);
            && h.flag as int == b[0] && h.reserved == b[1]
            && h.dests.Keys == Keys(ReadPairs(b[3..], b[2]))
            && var k: Addr := FromBe32(b[3 + 8 * i..7 + 8 * i]);
               k in h.dests && h.dests[k] == FromBe32(b[7 + 8 * i..11 + 8 * i])
  {
    hide FromBe32;
    var ps := ReadPairs(b[3..], b[2]);
    RecordReadAt(b[3..], b[2], i);
    SliceOfTail(b, 3, 8 * i, 8 * i + 4);
    SliceOfTail(b, 3, 8 * i + 4, 8 * i + 8);
    FirstRecordWins(map[], ps, i);
    InsertedKeys(map[], ps);
    FlagByte(b[0]);
  }

  lemma NextBits(b: bv8)
    requires b != 255
    ensures (b + 1) as int == b as int + 1
  {
  }

  /** Every byte is the value of some bits. */
  lemma {:induction false} BitsOf(x: U8) returns (b: bv8)
    ensures b as int == x
  {
    b := 0;
    if x > 0 {
      b := BitsOf(x - 1);
      NextBits(b);
      b := b + 1;
    }
  }

  lemma BitsBack(b: bv8)
    ensures (b as int) as bv8 == b
  {
  }

  /** A byte of flags. */
  lemma FlagByte(x: U8)
    ensures (x as bv8) as int == x
  {
    var b := BitsOf(x);
    BitsBack(b);
  }

  /** The type bytes of section 5, and what stands behind them. */
  lemma TypeBytes(m: Message)
    ensures var b := MessageBytes(m);
            && (m.Rreq? ==> b[0] == 1 && b[1..] == RreqBytes(m.rreq))
            && (m.Rrep? ==> b[0] == 2 && b[1..] == RrepBytes(m.rrep))
            && (m.Rerr? ==> b[0] == 3 && b[1..] == RerrBytes(m.rerr))
            && (m.RrepAck? ==> b == [4, 0])
  {
    hide RreqBytes, RrepBytes, RerrBytes;
  }

  // ------------------------------------------------------------------------------- whole messages

  /** The acknowledgement header: its one byte is reserved. */
  function AckBytes(reserved: U8): (b: Bytes)
    ensures |b| == 1
  {
    [reserved]
  }

  /** A message with its type byte in front; a node sends its acknowledgements with the reserved byte 0. */
  ghost function MessageBytes(m: Message): (b: Bytes)
    ensures |b| >= 2
  {
    [TypeByte(m)]
    + match m
      case Rreq(h) => RreqBytes(h)
      case Rrep(h) => RrepBytes(h)
      case Rerr(h) => RerrBytes(h)
      case RrepAck => AckBytes(0)
  }

  /** The list of a RERR fits the header's one-byte count. */
  predicate Fits(m: Message) {
    m.Rerr? ==> |m.rerr.dests| <= 255
  }

  /** The wire is unambiguous: whatever follows them, two messages that begin the same bytes are the same. */
  lemma Unambiguous(a: Message, b: Message, x: Bytes, y: Bytes)
    requires Fits(a) && Fits(b) && MessageBytes(a) + x == MessageBytes(b) + y
    ensures a == b && x == y
  {
    hide RreqBytes, RrepBytes, RerrBytes, ParseRerr;
    var s := MessageBytes(a) + x;
    assert s[0] == TypeByte(a) == TypeByte(b);
    match a
    case Rreq(h) =>
      assert RreqBytes(h) == s[1..24] == RreqBytes(b.rreq) && x == s[24..] == y;
      RreqBytesInjective(h, b.rreq);
    case Rrep(h) =>
      assert RrepBytes(h) == s[1..20] == RrepBytes(b.rrep) && x == s[20..] == y;
      RrepBytesInjective(h, b.rrep);
    case Rerr(h) => SameErrors(h, b.rerr, s, x, y);
    case RrepAck => assert x == s[2..] == y;
  }

  lemma CountByte(h: RerrHeader)
    requires |h.dests| <= 255
    ensures RerrBytes(h)[2] == |h.dests|
  {
  }

  lemma SameErrors(h: RerrHeader, g: RerrHeader, s: Bytes, x: Bytes, y: Bytes)
    requires |h.dests| <= 255 && |g.dests| <= 255
    requires s == [3] + RerrBytes(h) + x && s == [3] + RerrBytes(g) + y
    ensures h == g && x == y
  {
    hide RerrBytes, ParseRerr;
    CountByte(h);
    CountByte(g);
    assert s[3] == RerrBytes(h)[2] == RerrBytes(g)[2];
    var n := 4 + 8 * |h.dests|;
    assert RerrBytes(h) == s[1..n] && x == s[n..];
    assert RerrBytes(g) == s[1..n] && y == s[n..];
    RerrRoundTrip(h);
    RerrRoundTrip(g);
  }

  lemma Same32(x: U32, y: U32, bx: Bytes, by_: Bytes)
    requires bx == Be32(x) && by_ == Be32(y) && bx == by_
    ensures x == y
  {
    Be32RoundTrip(x, bx);
    Be32RoundTrip(y, by_);
  }

  /** A stretch of bytes is a shorter stretch and the bytes after it. */
  lemma Chunk(b: Bytes, s: nat, i: nat, j: nat)
    requires s <= i <= j <= |b|
    ensures b[s..j] == b[s..i] + b[i..j]
  {
  }

  lemma RreqFromFields(h: RreqHeader, b: Bytes, s: nat)
    requires s + 23 <= |b|
    requires b[s..s + 3] == [h.flags as int, h.reserved, h.hopCount]
    requires b[s + 3..s + 7] == Be32(h.requestID) && b[s + 7..s + 11] == Be32(h.dst)
    requires b[s + 11..s + 15] == Be32(h.dstSeqNo) && b[s + 15..s + 19] == Be32(h.origin)
    requires b[s + 19..s + 23] == Be32(h.originSeqNo)
    ensures RreqBytes(h) == b[s..s + 23]
  {
    Chunk(b, s, s + 3, s + 7);
    Chunk(b, s, s + 7, s + 11);
    Chunk(b, s, s + 11, s + 15);
    Chunk(b, s, s + 15, s + 19);
    Chunk(b, s, s + 19, s + 23);
  }

  lemma RrepFromFields(h: RrepHeader, b: Bytes, s: nat)
    requires s + 19 <= |b|
    requires b[s..s + 3] == [h.flags as int, h.prefixSize, h.hopCount]
    requires b[s + 3..s + 7] == Be32(h.dst) && b[s + 7..s + 11] == Be32(h.dstSeqNo)
    requires b[s + 11..s + 15] == Be32(h.origin) && b[s + 15..s + 19] == Be32(h.lifeTime)
    ensures RrepBytes(h) == b[s..s + 19]
  {
    Chunk(b, s, s + 3, s + 7);
    Chunk(b, s, s + 7, s + 11);
    Chunk(b, s, s + 11, s + 15);
    Chunk(b, s, s + 15, s + 19);
  }
}

/** The buffer iterators that headers write to and read from, one value at a time. */
module WireObjects {
  import opened Basics
  import opened Headers
  import opened WireFormat

  class Buffer {
    var data: Bytes
    var pos: nat

    ghost predicate Valid()
      reads this
    {
      pos <= |data|
    }

    constructor (data: Bytes)
      ensures this.data == data && pos == 0 && Valid()
    {
      this.data, pos := data, 0;
    }

    method WriteU8(b: U8)
      modifies this`data
      ensures data == old(data) + [b]
    {
      data := data + [b];
    }

    method WriteHtonU32(x: U32)
      modifies this`data
      ensures data == old(data) + Be32(x)
    {
      WriteU8(x / 0x100_0000);
      WriteU8(x / 0x1_0000 % 0x100);
      WriteU8(x / 0x100 % 0x100);
      WriteU8(x % 0x100);
    }

    method ReadU8() returns (b: U8)
      requires Valid() && pos < |data|
      modifies this`pos
      ensures Valid() && pos == old(pos) + 1 && b == data[old(pos)]
    {
      b := data[pos];
      pos := pos + 1;
    }

    method ReadNtohU32() returns (x: U32)
      requires Valid() && pos + 4 <= |data|
      modifies this`pos
      ensures Valid() && pos == old(pos) + 4 && x == FromBe32(data[old(pos)..pos])
      ensures Be32(x) == data[old(pos)..pos]
    {
      var b0 := ReadU8();
      var b1 := ReadU8();
      var b2 := ReadU8();
      var b3 := ReadU8();
      x := b0 as int * 0x100_0000 + b1 as int * 0x1_0000 + b2 as int * 0x100 + b3;
      Be32RoundTrip(x, data[old(pos)..pos]);
    }
  }

  /** The flags of a header and the two bytes behind them. */
  method ReadThree(i: Buffer) returns (x: bv8, y: U8, z: U8)
    requires i.Valid() && i.pos + 3 <= |i.data|
    modifies i`pos
    ensures i.Valid() && i.pos == old(i.pos) + 3 && i.data[old(i.pos)..i.pos] == [x as int, y, z]
  {
    var flags := i.ReadU8();
    FlagByte(flags);
    x := flags as bv8;
    y := i.ReadU8();
    z := i.ReadU8();
  }

  /** The type byte; an unknown type leaves no message type behind. */
  method DeserializeType(i: Buffer) returns (typ: Option<U8>)
    requires i.Valid() && i.pos < |i.data|
    modifies i`pos
    ensures i.Valid() && i.pos == old(i.pos) + 1
    ensures forall m: Message :: i.data[old(i.pos)] == TypeByte(m) ==> typ == Some(TypeByte(m))
    ensures typ.None? <==> forall m: Message :: i.data[old(i.pos)] != TypeByte(m)
  {
    var t := i.ReadU8();
    if t == 1 || t == 2 || t == 3 || t == 4 {
      typ := Some(t);
      assert TypeByte(Rreq(RreqHeader(0, 0, 0, 0, 0, 0, 0, 0))) == 1;
      assert TypeByte(Rrep(RrepHeader(0, 0, 0, 0, 0, 0, 0))) == 2;
      assert TypeByte(Rerr(EMPTY_RERR)) == 3;
      assert TypeByte(RrepAck) == 4;
    } else {
      typ := None;
    }
  }

  method SerializeRreq(h: RreqHeader, i: Buffer)
    modifies i`data
    ensures i.data == old(i.data) + RreqBytes(h)
  {
    i.WriteU8(h.flags as int);
    i.WriteU8(h.reserved);
    i.WriteU8(h.hopCount);
    i.WriteHtonU32(h.requestID);
    i.WriteHtonU32(h.dst);
    i.WriteHtonU32(h.dstSeqNo);
    i.WriteHtonU32(h.origin);
    i.WriteHtonU32(h.originSeqNo);
  }

  /** Reads 23 bytes and returns the one header that serialises to them. */
  method DeserializeRreq(i: Buffer) returns (h: RreqHeader)
    requires i.Valid() && i.pos + 23 <= |i.data|
    modifies i`pos
    ensures i.Valid() && i.pos == old(i.pos) + 23
    ensures RreqBytes(h) == i.data[old(i.pos)..i.pos]
    ensures forall g: RreqHeader :: RreqBytes(g) == i.data[old(i.pos)..i.pos] ==> g == h
  {
    hide Be32, FromBe32, RreqBytes;
    ghost var b, s := i.data, i.pos;
    var flags, reserved, hopCount := ReadThree(i);
    var requestID := i.ReadNtohU32();
    var dst := i.ReadNtohU32();
    var dstSeqNo := i.ReadNtohU32();
    var origin := i.ReadNtohU32();
    var originSeqNo := i.ReadNtohU32();
    h := RreqHeader(flags, reserved, hopCount, requestID, dst, dstSeqNo, origin, originSeqNo);
    RreqFromFields(h, b, s);
    forall g: RreqHeader | RreqBytes(g) == b[s..i.pos]
      ensures g == h
    {
      RreqBytesInjective(g, h);
    }
  }

  method SerializeRrep(h: RrepHeader, i: Buffer)
    modifies i`data
    ensures i.data == old(i.data) + RrepBytes(h)
  {
    i.WriteU8(h.flags as int);
    i.WriteU8(h.prefixSize);
    i.WriteU8(h.hopCount);
    i.WriteHtonU32(h.dst);
    i.WriteHtonU32(h.dstSeqNo);
    i.WriteHtonU32(h.origin);
    i.WriteHtonU32(h.lifeTime);
  }

  method DeserializeRrep(i: Buffer) returns (h: RrepHeader)
    requires i.Valid() && i.pos + 19 <= |i.data|
    modifies i`pos
    ensures i.Valid() && i.pos == old(i.pos) + 19
    ensures RrepBytes(h) == i.data[old(i.pos)..i.pos]
    ensures forall g: RrepHeader :: RrepBytes(g) == i.data[old(i.pos)..i.pos] ==> g == h
  {
    hide Be32, FromBe32, RrepBytes;
    ghost var b, s := i.data, i.pos;
    var flags, prefixSize, hopCount := ReadThree(i);
    var dst := i.ReadNtohU32();
    var dstSeqNo := i.ReadNtohU32();
    var origin := i.ReadNtohU32();
    var lifeTime := i.ReadNtohU32();
    h := RrepHeader(flags, prefixSize, hopCount, dst, dstSeqNo, origin, lifeTime);
    RrepFromFields(h, b, s);
    forall g: RrepHeader | RrepBytes(g) == b[s..i.pos]
      ensures g == h
    {
      RrepBytesInjective(g, h);
    }
  }

  method SerializeRrepAck(reserved: U8, i: Buffer)
    modifies i`data
    ensures i.data == old(i.data) + AckBytes(reserved)
  {
    i.WriteU8(reserved);
  }

  /** Reads one byte and returns the one reserved value that serialises to it. */
  method DeserializeRrepAck(i: Buffer) returns (reserved: U8)
    requires i.Valid() && i.pos < |i.data|
    modifies i`pos
    ensures i.Valid() && i.pos == old(i.pos) + 1
    ensures forall g: U8 :: AckBytes(g) == i.data[old(i.pos)..i.pos] <==> g == reserved
  {
    reserved := i.ReadU8();
  }

  method SerializeRerr(h: RerrHeader, i: Buffer)
    modifies i`data
    ensures i.data == old(i.data) + RerrBytes(h)
  {
    i.WriteU8(h.flag as int);
    i.WriteU8(h.reserved);
    i.WriteU8(h.DestCount());
    WriteRecords(h.dests, i);
    ConcatAssociates(old(i.data), [h.flag as int, h.reserved, h.DestCount()], PairsBytes(SortedPairs(h.dests)));
  }

  /** Writes the records of a map in ascending order of address. */
  method WriteRecords(dests: map<Addr, U32>, i: Buffer)
    modifies i`data
    ensures i.data == old(i.data) + PairsBytes(SortedPairs(dests))
  {
    var rest := dests;
    ghost var all := old(i.data) + PairsBytes(SortedPairs(dests));
    while rest != map[]
      invariant i.data + PairsBytes(SortedPairs(rest)) == all
      decreases |rest|
    {
      SortedPairsStep(rest);
      var k := First(rest);
      ghost var before, tail := i.data, SortedPairs(rest - {k});
      WritePair(k, rest[k], i);
      ConcatAssociates(before, PairBytes((k, rest[k])), PairsBytes(tail));
      rest := rest - {k};
    }
  }

  /** begin() of a std::map. */
  method First(m: map<Addr, U32>) returns (k: Addr)
    requires m != map[]
    ensures k in m && k == MinKey(m.Keys)
  {
    var first :| first in m.Keys;
    var todo := m.Keys - {first};
    k := first;
    while todo != {}
      invariant k in m && todo <= m.Keys
      invariant forall x :: x in m && x !in todo ==> k <= x
    {
      var x :| x in todo;
      if x < k {
        k := x;
      }
      todo := todo - {x};
    }
  }

  method WritePair(dst: Addr, seqNo: U32, i: Buffer)
    modifies i`data
    ensures i.data == old(i.data) + PairBytes((dst, seqNo))
  {
    i.WriteHtonU32(dst);
    i.WriteHtonU32(seqNo);
  }

  method DeserializeRerr(i: Buffer) returns (h: RerrHeader)
    requires i.Valid() && LongEnough(i.data[i.pos..])
    modifies i`pos
    ensures i.Valid() && i.pos == old(i.pos) + 3 + 8 * Announced(i.data[old(i.pos)..])
    ensures h == ParseRerr(i.data[old(i.pos)..])
  {
    ghost var s := i.pos;
    var flag, reserved, dest := ReadThree(i);
    assert i.data[s] == i.data[s..s + 3][0] && i.data[s + 1] == i.data[s..s + 3][1]
           && i.data[s + 2] == i.data[s..s + 3][2];
    assert i.data[s..][3..] == i.data[s + 3..];
    var dests := ReadRecords(i, dest);
    h := RerrHeader(flag, reserved, dests);
  }

  /** Reads `n` records, inserting each into the map unless its address is already there. */
  method ReadRecords(i: Buffer, n: nat) returns (dests: map<Addr, U32>)
    requires i.Valid() && i.pos + 8 * n <= |i.data|
    modifies i`pos
    ensures i.Valid() && i.pos == old(i.pos) + 8 * n
    ensures dests == InsertAll(map[], ReadPairs(i.data[old(i.pos)..], n))
  {
    ghost var s, all := i.pos, InsertAll(map[], ReadPairs(i.data[i.pos..], n));
    dests := map[];
    for k := 0 to n
      invariant i.Valid() && i.pos == s + 8 * k
      invariant InsertAll(dests, ReadPairs(i.data[i.pos..], n - k)) == all
    {
      ghost var p := i.pos;
      var address := i.ReadNtohU32();
      var seqNo := i.ReadNtohU32();
      assert i.data[p..][8..] == i.data[p + 8..];
      assert i.data[p..][..4] == i.data[p..p + 4] && i.data[p..][4..8] == i.data[p + 4..p + 8];
      ReadOne(i.data[p..], n - k, dests, address, seqNo);
      if address !in dests {
        dests := dests[address := seqNo];
      }
    }
  }

  lemma ReadOne(rest: Bytes, n: nat, dests: map<Addr, U32>, address: Addr, seqNo: U32)
    requires n > 0 && |rest| >= 8 * n && address == FromBe32(rest[..4]) && seqNo == FromBe32(rest[4..8])
    ensures InsertAll(dests, ReadPairs(rest, n)) ==
            InsertAll(if address in dests then dests else dests[address := seqNo], ReadPairs(rest[8..], n - 1))
  {
    assert ReadPairs(rest, n)[1..] == ReadPairs(rest[8..], n - 1);
  }
}
