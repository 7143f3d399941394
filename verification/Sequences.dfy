/** 16-bit sequence numbers and the wrap-around comparison of Packet.h. */
module Sequences {
  import opened Words

  const MAX: int := 0xFFFF

  /** Packet.h lines 56-61 for T = uint16_t: both operands are promoted to int,
      the limit is the float product max * 0.5, which is exact. */
  function SequenceGreaterThan(s1: uint16, s2: uint16): bool {
    var a, b := s1 as int, s2 as int;
    || (a > b && (a - b) as real <= MAX as real * 0.5)
    || (a < b && (b - a) as real > MAX as real * 0.5)
  }

  /** The low 16 bits of an unbounded counter. */
  function Wrap(n: nat): uint16 {
    (n % 0x1_0000) as uint16
  }

  /** ++sequence on a uint16_t. */
  function Next(s: uint16): uint16 {
    if s == 0xFFFF then 0 else s + 1
  }

  lemma NextIsSuccessor(n: nat)
    ensures Next(Wrap(n)) == Wrap(n + 1)
  {
  }

  /** A strict tournament: irreflexive, and of two different numbers exactly one
      is greater. */
  lemma Tournament(s1: uint16, s2: uint16)
    ensures !SequenceGreaterThan(s1, s1)
    ensures s1 != s2 ==> SequenceGreaterThan(s1, s2) == !SequenceGreaterThan(s2, s1)
  {
  }

  /** Section 3.2 of RFC 1982 with SERIAL_BITS = 16; it leaves numbers at
      distance 2^15 unordered. */
  predicate Rfc1982Greater(s1: uint16, s2: uint16) {
    var a, b := s1 as int, s2 as int;
    (a < b && b - a > 0x8000) || (a > b && a - b < 0x8000)
  }

  predicate Rfc1982Defined(s1: uint16, s2: uint16) {
    s1 as int - s2 as int != 0x8000 && s2 as int - s1 as int != 0x8000
  }

  /** Agreement with RFC 1982 wherever it is defined; the remaining ties go to
      the smaller number. */
  lemma AgreesWithRfc1982(s1: uint16, s2: uint16)
    ensures if Rfc1982Defined(s1, s2) then SequenceGreaterThan(s1, s2) == Rfc1982Greater(s1, s2)
            else SequenceGreaterThan(s1, s2) == (s1 < s2)
  {
  }

  /** On unbounded counters at most 32767 apart it is the true order. */
  lemma TrueOrder(m: nat, n: nat)
    requires -0x7FFF <= m - n <= 0x7FFF
    ensures SequenceGreaterThan(Wrap(m), Wrap(n)) <==> m > n
  {
    var qm, qn := m / 0x1_0000, n / 0x1_0000;
    assert qm == qn || qm == qn + 1 || qn == qm + 1;
  }

  /** Counters at most k apart are always compared in their true order. */
  ghost predicate OrderedWithin(k: nat) {
    forall m: nat, n: nat :: m - n <= k && n - m <= k ==> (SequenceGreaterThan(Wrap(m), Wrap(n)) <==> m > n)
  }

  /** 32767 is the largest such distance. */
  lemma LargestWindow(k: nat)
    ensures OrderedWithin(k) <==> k <= 0x7FFF
  {
    if k <= 0x7FFF {
      forall m: nat, n: nat | m - n <= k && n - m <= k
        ensures SequenceGreaterThan(Wrap(m), Wrap(n)) <==> m > n
      {
        TrueOrder(m, n);
      }
    } else {
      assert !SequenceGreaterThan(Wrap(0x8000), Wrap(0));
    }
  }
}
