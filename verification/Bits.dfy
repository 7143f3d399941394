/** Bit-level vocabulary of the CRC engines: bit reversal, low-bit masks and
    the bits of a byte string, least significant bit of each byte first. */
module Bits {

  type byte = bv8

  /** The low eight bits of p, reversed. */
  function Reverse8(p: bv32): bv32 {
    ((p & 0x01) << 7) | ((p & 0x02) << 5) | ((p & 0x04) << 3) | ((p & 0x08) << 1)
    | ((p & 0x10) >> 1) | ((p & 0x20) >> 3) | ((p & 0x40) >> 5) | ((p & 0x80) >> 7)
  }

  /** All 32 bits of p, reversed (swap neighbours, pairs, nibbles, bytes, halves). */
  function Reverse32(p: bv32): bv32 {
    var a := ((p >> 1) & 0x5555_5555) | ((p & 0x5555_5555) << 1);
    var b := ((a >> 2) & 0x3333_3333) | ((a & 0x3333_3333) << 2);
    var c := ((b >> 4) & 0x0F0F_0F0F) | ((b & 0x0F0F_0F0F) << 4);
    var d := ((c >> 8) & 0x00FF_00FF) | ((c & 0x00FF_00FF) << 8);
    (d >> 16) | (d << 16)
  }

  /** x << k as k single shifts, so that k == 32 is defined too. */
  function ShiftLeft(x: bv32, k: nat): bv32
    decreases k
  {
    if k == 0 then x else ShiftLeft(x << 1, k - 1)
  }

  /** k ones in the low positions. */
  function LowMask(k: nat): bv32 {
    if k == 0 then 0 else (LowMask(k - 1) << 1) | 1
  }

  /** Every bit of x is a bit of mask. */
  predicate Within(x: bv32, mask: bv32) {
    x & mask == x
  }

  /** wide is m with one more position at the bottom. */
  predicate Widens(wide: bv32, m: bv32) {
    wide == (m << 1) | 1
  }

  /** x < 2^k, said with bits. */
  predicate Fits(x: bv32, k: nat) {
    Within(x, LowMask(k))
  }

  /** Addition of words as vectors of bits. Named, so that the lemmas about
      whole runs reason with its laws and not with 32 bits at a time. */
  function Plus(a: bv32, b: bv32): bv32 {
    a ^ b
  }

  function LowBit(x: bv32): bool {
    x & 1 != 0
  }

  function LowByte(x: bv32): bv32 {
    x & 0xFF
  }

  function DropByte(x: bv32): bv32 {
    x >> 8
  }

  function DropLow(x: bv32): bv32 {
    x >> 1
  }

  /** x moved up one position with bit put below it. */
  function Prepend(bit: bool, x: bv32): bv32 {
    (x << 1) | (if bit then 1 else 0)
  }

  /** The low n bits of x, bit 0 first. */
  function BitList(x: bv32, n: nat): (bits: seq<bool>)
    ensures |bits| == n
    decreases n
  {
    if n == 0 then [] else [LowBit(x)] + BitList(DropLow(x), n - 1)
  }

  /** The bits of a byte string in transmission order. */
  function BitsOf(bytes: seq<byte>): (bits: seq<bool>)
    ensures |bits| == 8 * |bytes|
  {
    if |bytes| == 0 then [] else BitList(bytes[0] as bv32, 8) + BitsOf(bytes[1..])
  }

  function Zeros(n: nat): (bits: seq<bool>)
    ensures |bits| == n
  {
    seq(n, _ => false)
  }

  function Xor(a: seq<byte>, b: seq<byte>): (c: seq<byte>)
    requires |a| == |b|
    ensures |c| == |a|
  {
    seq(|a|, i requires 0 <= i < |a| => a[i] ^ b[i])
  }

  // ---- What the two reversals mean, bit by bit ----

  lemma Reverse32Bit(p: bv32, i: bv6)
    requires i < 32
    ensures (Reverse32(p) >> i) & 1 == (p >> (31 - i)) & 1
  {
  }

  lemma Reverse8Bit(p: bv32, i: bv6)
    requires i < 8
    ensures (Reverse8(p) >> i) & 1 == (p >> (7 - i)) & 1
    ensures Reverse8(p) < 256
  {
  }

  lemma ReverseTwice(p: bv32)
    ensures Reverse32(Reverse32(p)) == p
    ensures Reverse8(Reverse8(p)) == p & 0xFF
  {
  }

  // ---- Masks. Word-level steps are lemmas of their own: the solver then meets
  // ---- shifts only on plain variables. ----

  lemma MaskUnroll(k: nat)
    requires k > 0
    ensures Widens(LowMask(k), LowMask(k - 1))
  {
  }

  lemma WithinTail(x: bv32, wide: bv32, m: bv32)
    requires Within(x, wide) && Widens(wide, m)
    ensures Within(DropLow(x), m)
  {
  }

  lemma WithinWiden(a: bv32, b: bv32, wideA: bv32, wideB: bv32)
    requires Within(a, b) && Widens(wideA, a) && Widens(wideB, b)
    ensures Within(wideA, wideB)
  {
  }

  lemma WithinThrough(a: bv32, b: bv32, c: bv32)
    requires Within(a, b) && Within(b, c)
    ensures Within(a, c)
  {
  }

  lemma FitsTail(x: bv32, k: nat)
    requires k > 0 && Fits(x, k)
    ensures Fits(DropLow(x), k - 1)
  {
    hide LowMask, Within, Widens, DropLow;
    MaskUnroll(k);
    WithinTail(x, LowMask(k), LowMask(k - 1));
  }

  lemma {:induction false} MaskGrows(k: nat)
    ensures Within(LowMask(k), LowMask(k + 1))
  {
    if k == 0 {
    } else {
      hide *;
      MaskGrows(k - 1);
      MaskUnroll(k);
      MaskUnroll(k + 1);
      WithinWiden(LowMask(k - 1), LowMask(k), LowMask(k), LowMask(k + 1));
    }
  }

  /** Fewer than 32 low bits leave the top bit clear. */
  lemma {:induction false} MaskBelowTop(k: nat)
    requires k <= 31
    ensures Within(LowMask(k), 0x7FFF_FFFF)
    decreases 31 - k
  {
    if k == 31 {
      assert LowMask(8) == 0xFF;
      assert LowMask(16) == 0xFFFF;
      assert LowMask(24) == 0xFF_FFFF;
    } else {
      hide *;
      MaskBelowTop(k + 1);
      MaskGrows(k);
      WithinThrough(LowMask(k), LowMask(k + 1), 0x7FFF_FFFF);
    }
  }

  lemma PrependBit(x: bv32, bit: bool, m: bv32, wide: bv32)
    requires Within(x, m) && Within(m, 0x7FFF_FFFF) && Widens(wide, m)
    ensures Within(Prepend(bit, x), wide)
    ensures DropLow(Prepend(bit, x)) == x && LowBit(Prepend(bit, x)) == bit
  {
  }

  /** At most 32 bits are the low bits of some word. */
  lemma {:induction false} Pack(bits: seq<bool>) returns (x: bv32)
    requires |bits| <= 32
    ensures Fits(x, |bits|) && BitList(x, |bits|) == bits
  {
    if |bits| == 0 {
      x := 0;
    } else {
      hide LowMask, Within, Widens, LowBit, DropLow, Prepend;
      var k := |bits| - 1;
      var tail := Pack(bits[1..]);
      MaskBelowTop(k);
      MaskUnroll(k + 1);
      PrependBit(tail, bits[0], LowMask(k), LowMask(k + 1));
      x := Prepend(bits[0], tail);
      assert BitList(x, k + 1) == [bits[0]] + BitList(tail, k);
    }
  }

  // ---- Bits of concatenations ----

  lemma BitsOfUnroll(bytes: seq<byte>)
    requires |bytes| > 0
    ensures BitsOf(bytes) == BitList(bytes[0] as bv32, 8) + BitsOf(bytes[1..])
  {
    hide BitList;
  }

  lemma BitsOfCons(b: byte, rest: seq<byte>)
    ensures BitsOf([b] + rest) == BitList(b as bv32, 8) + BitsOf(rest)
  {
    hide BitList;
    assert ([b] + rest)[1..] == rest;
  }

  lemma Reassociate<T>(u: seq<T>, v: seq<T>, w: seq<T>)
    ensures (u + v) + w == u + (v + w)
  {
  }

  lemma {:induction false} BitsOfAppend(a: seq<byte>, b: seq<byte>)
    ensures BitsOf(a + b) == BitsOf(a) + BitsOf(b)
  {
    if |a| == 0 {
      assert a + b == b;
    } else {
      hide *;
      var first, rest := a[0], a[1..];
      assert a == [first] + rest;
      Reassociate([first], rest, b);
      BitsOfCons(first, rest + b);
      BitsOfCons(first, rest);
      BitsOfAppend(rest, b);
      Reassociate(BitList(first as bv32, 8), BitsOf(rest), BitsOf(b));
    }
  }
}
