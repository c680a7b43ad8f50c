/** Destination sequence numbers and their circular order (section 6.1 of RFC 3561). */
module SequenceNumbers {
  import opened Basics

  const MODULUS := 0x1_0000_0000
  const HALF := 0x8000_0000

  /** int32_t(a) - int32_t(b), with the 32-bit wrap-around of the machine. */
  function SeqDiff(a: U32, b: U32): (d: int)
    ensures -HALF <= d < HALF
    ensures (d - (a - b)) % MODULUS == 0
  {
    var d := (a - b) % MODULUS;
    if d < HALF then d else d - MODULUS
  }

  /** m_seqNo++ on a uint32_t. */
  function Next(a: U32): U32 {
    (a + 1) % MODULUS
  }

  /** How far `s` is ahead of `base`, counting upwards and wrapping. */
  function Age(base: U32, s: U32): (a: nat)
    ensures a < MODULUS
  {
    (s - base) % MODULUS
  }

  /** `s` lies in the half of the circle that starts at `base`. */
  predicate InWindow(base: U32, s: U32) {
    Age(base, s) < HALF
  }

  /** Inside one window the signed difference is the difference of the unwrapped numbers, so the
      test `> 0` is a strict total order there. */
  lemma WindowOrder(base: U32, a: U32, b: U32)
    requires InWindow(base, a) && InWindow(base, b)
    ensures SeqDiff(a, b) == Age(base, a) - Age(base, b)
    ensures a == b <==> Age(base, a) == Age(base, b)
    ensures SeqDiff(a, b) > 0 || a == b || SeqDiff(b, a) > 0
    ensures !(SeqDiff(a, b) > 0 && SeqDiff(b, a) > 0)
  {
    SameDiff(base, a, b);
    SameDiff(base, b, a);
  }

  /** The difference of two ages is the signed difference, when it is short. */
  lemma SameDiff(base: U32, a: U32, b: U32)
    requires InWindow(base, a) && InWindow(base, b)
    ensures SeqDiff(a, b) == Age(base, a) - Age(base, b)
    ensures Age(base, a) == Age(base, b) ==> a == b
  {
    var d := Age(base, a) - Age(base, b);
    Unwrapped(base, a);
    Unwrapped(base, b);
  }

  /** An age is the plain difference, or that plus one turn of the circle. */
  lemma Unwrapped(base: U32, a: U32)
    ensures Age(base, a) == if a >= base then a - base else a - base + MODULUS
  {
  }

  /** Outside a window the test is not transitive: three numbers a third of the circle apart. */
  lemma NoGlobalOrder()
    ensures exists a: U32, b: U32, c: U32 ::
              SeqDiff(a, b) > 0 && SeqDiff(b, c) > 0 && SeqDiff(c, a) > 0
  {
    var a: U32, b: U32, c: U32 := 0xAAAA_AAAA, 0x5555_5555, 0;
    assert SeqDiff(a, b) > 0 && SeqDiff(b, c) > 0 && SeqDiff(c, a) > 0;
  }

  /** Transitivity is exactly what a window buys. */
  lemma WindowTransitive(base: U32, a: U32, b: U32, c: U32)
    requires InWindow(base, a) && InWindow(base, b) && InWindow(base, c)
    requires SeqDiff(a, b) > 0 && SeqDiff(b, c) > 0
    ensures SeqDiff(a, c) > 0
  {
    WindowOrder(base, a, b);
    WindowOrder(base, b, c);
    WindowOrder(base, a, c);
  }

  /** Incrementing moves one step up the circle, also across the rollover from 2^32 - 1 to 0. */
  lemma NextAhead(base: U32, s: U32)
    ensures SeqDiff(Next(s), s) == 1
    ensures InWindow(base, s) && InWindow(base, Next(s)) ==> Age(base, Next(s)) == Age(base, s) + 1
  {
    Unwrapped(base, s);
    Unwrapped(base, Next(s));
  }

  /** `n` increments of an unbounded counter started at `first`, kept in 32 bits. */
  function Advance(first: U32, n: nat): U32 {
    if n == 0 then first else Next(Advance(first, n - 1))
  }

  /** The counter of a node that increments fewer than 2^31 times orders its values as it issued them. */
  lemma {:induction false} CounterOrder(first: U32, m: nat, n: nat)
    requires m < HALF && n < HALF
    ensures Age(first, Advance(first, n)) == n && Age(first, Advance(first, m)) == m
    ensures SeqDiff(Advance(first, n), Advance(first, m)) == n - m
  {
    CounterAge(first, m);
    CounterAge(first, n);
    WindowOrder(first, Advance(first, n), Advance(first, m));
  }

  lemma {:induction false} CounterAge(first: U32, n: nat)
    requires n < HALF
    ensures Age(first, Advance(first, n)) == n
  {
    if n > 0 {
      CounterAge(first, n - 1);
      AgeStep(first, Advance(first, n - 1));
    }
  }

  lemma AgeStep(base: U32, s: U32)
    requires Age(base, s) < HALF
    ensures Age(base, Next(s)) == Age(base, s) + 1
  {
    Unwrapped(base, s);
    Unwrapped(base, Next(s));
  }
}
