/** The CRC-32 of section 8 of RFC 1952: a reflected register that shifts right
    and folds in 0xEDB88320. This module is the reference the engines of
    CRC.h are proved against, and the home of the linear algebra over it. */
module Crc {
  import opened Bits

  const POLYNOMIAL: bv32 := 0xEDB8_8320
  const ONES: bv32 := 0xFFFF_FFFF

  /** One register step without input. */
  function Step(r: bv32): bv32 {
    if r & 1 != 0 then (r >> 1) ^ 0xEDB8_8320 else r >> 1
  }

  function Steps(r: bv32, n: nat): bv32
    decreases n
  {
    if n == 0 then r else Steps(Step(r), n - 1)
  }

  /** Absorb one byte: xor it into the low end, then shift it out. */
  function Absorb(r: bv32, b: byte): bv32 {
    Steps(Plus(r, b as bv32), 8)
  }

  function Register(r: bv32, bytes: seq<byte>): bv32
    decreases |bytes|
  {
    if |bytes| == 0 then r else Register(Absorb(r, bytes[0]), bytes[1..])
  }

  /** The checksum of a byte string. */
  function Checksum(bytes: seq<byte>): bv32 {
    Register(ONES, bytes) ^ ONES
  }

  // ---- The same register fed one bit at a time ----

  function StepBit(r: bv32, bit: bool): bv32 {
    Step(Plus(r, if bit then 1 else 0))
  }

  function RegisterBits(r: bv32, bits: seq<bool>): bv32
    decreases |bits|
  {
    if |bits| == 0 then r else RegisterBits(StepBit(r, bits[0]), bits[1..])
  }

  // ---- The table formulation printed in RFC 1952 ----

  /** Entry n of the table that RFC 1952's make_crc_table builds. */
  function RfcEntry(n: bv32): bv32 {
    Steps(n, 8)
  }

  function RfcAbsorb(c: bv32, b: byte): bv32 {
    Plus(RfcEntry(LowByte(Plus(c, b as bv32))), DropByte(c))
  }

  /** RFC 1952's update_crc loop. */
  function RfcUpdate(c: bv32, bytes: seq<byte>): bv32
    decreases |bytes|
  {
    if |bytes| == 0 then c
    else RfcUpdate(RfcAbsorb(c, bytes[0]), bytes[1..])
  }

  // ---- Step is linear and invertible ----

  lemma PlusAssociates(a: bv32, b: bv32, c: bv32)
    ensures Plus(Plus(a, b), c) == Plus(a, Plus(b, c))
  {
  }

  lemma PlusCommutes(a: bv32, b: bv32)
    ensures Plus(a, b) == Plus(b, a)
  {
  }

  lemma PlusZero(a: bv32)
    ensures Plus(a, 0) == a && Plus(0, a) == a
  {
  }

  lemma PlusSelf(a: bv32)
    ensures Plus(a, a) == 0
  {
  }

  lemma PlusCancels(a: bv32, b: bv32)
    ensures Plus(a, b) == 0 <==> a == b
  {
    hide *;
    PlusAssociates(a, b, b);
    PlusSelf(b);
    PlusZero(a);
    PlusZero(b);
  }

  lemma PlusPairs(a: bv32, b: bv32, c: bv32)
    ensures Plus(Plus(a, c), Plus(b, c)) == Plus(a, b)
  {
    hide *;
    PlusAssociates(a, c, Plus(b, c));
    PlusCommutes(b, c);
    PlusAssociates(c, c, b);
    PlusCancels(c, c);
    PlusZero(b);
  }

  lemma StepCases(r: bv32)
    ensures Step(r) == if LowBit(r) then Plus(DropLow(r), POLYNOMIAL) else DropLow(r)
  {
  }

  lemma LowBitXor(x: bv32, y: bv32)
    ensures LowBit(Plus(x, y)) <==> LowBit(x) != LowBit(y)
  {
  }

  lemma DropLowXor(x: bv32, y: bv32)
    ensures DropLow(Plus(x, y)) == Plus(DropLow(x), DropLow(y))
  {
  }

  lemma StepXor(a: bv32, b: bv32)
    ensures Step(Plus(a, b)) == Plus(Step(a), Step(b))
  {
    hide *;
    var x, y := DropLow(a), DropLow(b);
    StepCases(a);
    StepCases(b);
    StepCases(Plus(a, b));
    LowBitXor(a, b);
    DropLowXor(a, b);
    PlusPairs(x, y, POLYNOMIAL);
    PlusAssociates(x, y, POLYNOMIAL);
    PlusAssociates(x, POLYNOMIAL, y);
    PlusCommutes(POLYNOMIAL, y);
  }

  lemma StepZero(a: bv32)
    ensures Step(a) == 0 <==> a == 0
  {
  }

  lemma {:induction false} StepsXor(a: bv32, b: bv32, n: nat)
    ensures Steps(Plus(a, b), n) == Plus(Steps(a, n), Steps(b, n))
    decreases n
  {
    if n == 0 {
    } else {
      hide Step, Plus;
      StepXor(a, b);
      StepsXor(Step(a), Step(b), n - 1);
    }
  }

  lemma {:induction false} StepsZero(a: bv32, n: nat)
    ensures Steps(a, n) == 0 <==> a == 0
    decreases n
  {
    if n == 0 {
    } else {
      hide Step;
      StepZero(a);
      StepsZero(Step(a), n - 1);
    }
  }

  // ---- Absorbing n bits at once is absorbing them one by one ----

  lemma SplitLow(x: bv32)
    ensures x == Plus(if LowBit(x) then 1 else 0, x & 0xFFFF_FFFE)
    ensures Step(x & 0xFFFF_FFFE) == DropLow(x)
  {
  }

  lemma PeelBit(r: bv32, x: bv32)
    ensures Step(Plus(r, x)) == Plus(StepBit(r, LowBit(x)), DropLow(x))
  {
    hide Step, Plus, LowBit, DropLow;
    var low := if LowBit(x) then 1 else 0;
    SplitLow(x);
    PlusAssociates(r, low, x & 0xFFFF_FFFE);
    StepXor(Plus(r, low), x & 0xFFFF_FFFE);
  }

  lemma FitsNone(x: bv32)
    requires Fits(x, 0)
    ensures x == 0
  {
  }

  lemma FitsByte(b: byte)
    ensures Fits(b as bv32, 8)
  {
    assert LowMask(8) == 0xFF;
  }

  lemma {:induction false} StepsAreBits(r: bv32, x: bv32, n: nat)
    requires Fits(x, n)
    ensures Steps(Plus(r, x), n) == RegisterBits(r, BitList(x, n))
    decreases n
  {
    hide Step, Plus, StepBit, LowBit, DropLow, Fits;
    if n == 0 {
      FitsNone(x);
      PlusZero(r);
    } else {
      FitsTail(x, n);
      PeelBit(r, x);
      StepsAreBits(StepBit(r, LowBit(x)), DropLow(x), n - 1);
    }
  }

  lemma {:induction false} RegisterBitsAppend(r: bv32, u: seq<bool>, v: seq<bool>)
    ensures RegisterBits(r, u + v) == RegisterBits(RegisterBits(r, u), v)
    decreases |u|
  {
    hide StepBit;
    if |u| == 0 {
      assert u + v == v;
    } else {
      assert (u + v)[1..] == u[1..] + v;
      RegisterBitsAppend(StepBit(r, u[0]), u[1..], v);
    }
  }

  lemma {:induction false} RegisterIsBits(r: bv32, bytes: seq<byte>)
    ensures Register(r, bytes) == RegisterBits(r, BitsOf(bytes))
    decreases |bytes|
  {
    if |bytes| == 0 {
    } else {
      hide Plus, Steps, StepBit, BitList, Fits;
      var b := bytes[0] as bv32;
      FitsByte(bytes[0]);
      StepsAreBits(r, b, 8);
      RegisterBitsAppend(r, BitList(b, 8), BitsOf(bytes[1..]));
      RegisterIsBits(Absorb(r, bytes[0]), bytes[1..]);
    }
  }

  // ---- The register is linear in its start value and input ----

  lemma XorAsPlus(r: bv32, s: bv32, x: byte, y: byte)
    ensures Plus(Plus(r, s), (x ^ y) as bv32) == Plus(Plus(r, x as bv32), Plus(s, y as bv32))
  {
  }

  lemma AbsorbXor(r: bv32, s: bv32, x: byte, y: byte)
    ensures Absorb(Plus(r, s), x ^ y) == Plus(Absorb(r, x), Absorb(s, y))
  {
    hide Plus, Steps;
    XorAsPlus(r, s, x, y);
    StepsXor(Plus(r, x as bv32), Plus(s, y as bv32), 8);
  }

  lemma XorUnroll(a: seq<byte>, b: seq<byte>)
    requires |a| == |b| > 0
    ensures Xor(a, b)[0] == a[0] ^ b[0] && Xor(a, b)[1..] == Xor(a[1..], b[1..])
  {
  }

  lemma RegisterUnroll(r: bv32, bytes: seq<byte>)
    requires |bytes| > 0
    ensures Register(r, bytes) == Register(Absorb(r, bytes[0]), bytes[1..])
  {
    hide Absorb;
  }

  lemma {:induction false} RegisterXor(r: bv32, s: bv32, a: seq<byte>, b: seq<byte>)
    requires |a| == |b|
    ensures Register(Plus(r, s), Xor(a, b)) == Plus(Register(r, a), Register(s, b))
    decreases |a|
  {
    if |a| == 0 {
    } else {
      hide *;
      XorUnroll(a, b);
      RegisterUnroll(r, a);
      RegisterUnroll(s, b);
      RegisterUnroll(Plus(r, s), Xor(a, b));
      AbsorbXor(r, s, a[0], b[0]);
      RegisterXor(Absorb(r, a[0]), Absorb(s, b[0]), a[1..], b[1..]);
    }
  }

  lemma ThreeOnes(x: bv32, y: bv32, z: bv32)
    ensures Plus(Plus(ONES, ONES), ONES) == ONES
    ensures (x ^ ONES) ^ (y ^ ONES) ^ (z ^ ONES) == Plus(Plus(x, y), z) ^ ONES
  {
  }

  /** The checksum is affine: on equal lengths, xoring three inputs xors their checksums. */
  lemma ChecksumAffine(a: seq<byte>, b: seq<byte>, c: seq<byte>)
    requires |a| == |b| == |c|
    ensures Checksum(a) ^ Checksum(b) ^ Checksum(c) == Checksum(Xor(Xor(a, b), c))
  {
    hide Plus;
    RegisterXor(ONES, ONES, a, b);
    RegisterXor(Plus(ONES, ONES), ONES, Xor(a, b), c);
    ThreeOnes(Register(ONES, a), Register(ONES, b), Register(ONES, c));
  }

  // ---- Burst detection ----

  lemma {:induction false} ZerosKeepZero(n: nat)
    ensures RegisterBits(0, Zeros(n)) == 0
  {
    if n == 0 {
    } else {
      assert Zeros(n)[1..] == Zeros(n - 1);
      ZerosKeepZero(n - 1);
    }
  }

  lemma {:induction false} ZerosKeepNonzero(r: bv32, n: nat)
    requires r != 0
    ensures RegisterBits(r, Zeros(n)) != 0
    decreases n
  {
    if n == 0 {
    } else {
      hide Step;
      StepZero(r);
      assert Zeros(n)[1..] == Zeros(n - 1);
      ZerosKeepNonzero(Step(r), n - 1);
    }
  }

  lemma {:induction false} NoBits(n: nat)
    ensures BitList(0, n) == Zeros(n)
  {
    if n == 0 {
    } else {
      NoBits(n - 1);
    }
  }

  /** A nonzero window of at most 32 bits never leaves the register at zero. */
  lemma WindowIsInjective(w: seq<bool>)
    requires |w| <= 32 && w != Zeros(|w|)
    ensures RegisterBits(0, w) != 0
  {
    hide Step, Steps, RegisterBits, BitList, Fits, Plus;
    var x := Pack(w);
    NoBits(|w|);
    StepsAreBits(0, x, |w|);
    PlusZero(x);
    StepsZero(x, |w|);
  }

  predicate ConfinedTo(bits: seq<bool>, start: nat, width: nat) {
    forall j :: 0 <= j < |bits| && bits[j] ==> start <= j < start + width
  }

  lemma ThreeParts<T>(d: seq<T>, i: nat, j: nat)
    requires i <= j <= |d|
    ensures d == d[..i] + d[i..j] + d[j..]
  {
  }

  lemma AllClear(bits: seq<bool>)
    requires forall j :: 0 <= j < |bits| ==> !bits[j]
    ensures bits == Zeros(|bits|)
  {
  }

  lemma SomeSet(bits: seq<bool>) returns (j: nat)
    requires bits != Zeros(|bits|)
    ensures j < |bits| && bits[j]
  {
    if forall j :: 0 <= j < |bits| ==> !bits[j] {
      AllClear(bits);
    }
    j :| 0 <= j < |bits| && bits[j];
  }

  lemma WindowIsSet(bits: seq<bool>, i: nat, k: nat, j: nat)
    requires i <= j < k <= |bits| && bits[j]
    ensures bits[i..k] != Zeros(k - i)
  {
    assert bits[i..k][j - i] && !Zeros(k - i)[j - i];
  }

  lemma ClearOutside(d: seq<bool>, start: nat, end: nat)
    requires ConfinedTo(d, start, 32) && start <= end <= |d| && (end == start + 32 || end == |d|)
    ensures d[..start] == Zeros(start) && d[end..] == Zeros(|d| - end)
  {
    AllClear(d[..start]);
    AllClear(d[end..]);
  }

  lemma SetIsConfined(d: seq<bool>, start: nat, j: nat)
    requires ConfinedTo(d, start, 32) && j < |d| && d[j]
    ensures start <= j < start + 32
  {
  }

  /** The window that holds every set bit, with nothing before or behind it. */
  lemma BurstWindow(d: seq<bool>, start: nat) returns (w: seq<bool>, rest: nat)
    requires ConfinedTo(d, start, 32) && d != Zeros(|d|)
    ensures |w| <= 32 && w != Zeros(|w|) && d == Zeros(start) + w + Zeros(rest)
  {
    hide *;
    var j := SomeSet(d);
    SetIsConfined(d, start, j);
    var end := if start + 32 <= |d| then start + 32 else |d|;
    w := d[start..end];
    rest := |d| - end;
    WindowIsSet(d, start, end, j);
    ClearOutside(d, start, end);
    ThreeParts(d, start, end);
  }

  lemma BurstLeavesRegisterNonzero(d: seq<bool>, start: nat)
    requires ConfinedTo(d, start, 32) && d != Zeros(|d|)
    ensures RegisterBits(0, d) != 0
  {
    hide *;
    var w, rest := BurstWindow(d, start);
    RegisterBitsAppend(0, Zeros(start) + w, Zeros(rest));
    RegisterBitsAppend(0, Zeros(start), w);
    ZerosKeepZero(start);
    WindowIsInjective(w);
    ZerosKeepNonzero(RegisterBits(0, w), rest);
  }

  /** The bits in which two strings of equal length differ. */
  function Difference(a: seq<bool>, b: seq<bool>): (d: seq<bool>)
    requires |a| == |b|
    ensures |d| == |a|
  {
    seq(|a|, i requires 0 <= i < |a| => a[i] != b[i])
  }

  lemma BitListUnroll(x: bv32, n: nat)
    requires n > 0
    ensures BitList(x, n) == [LowBit(x)] + BitList(DropLow(x), n - 1)
  {
    hide LowBit, DropLow;
  }

  lemma DifferenceCons(b: bool, c: bool, u: seq<bool>, v: seq<bool>)
    requires |u| == |v|
    ensures Difference([b] + u, [c] + v) == [b != c] + Difference(u, v)
  {
  }

  lemma {:induction false} BitListXor(x: bv32, y: bv32, n: nat)
    ensures BitList(Plus(x, y), n) == Difference(BitList(x, n), BitList(y, n))
    decreases n
  {
    if n == 0 {
    } else {
      hide *;
      BitListUnroll(x, n);
      BitListUnroll(y, n);
      BitListUnroll(Plus(x, y), n);
      LowBitXor(x, y);
      DropLowXor(x, y);
      BitListXor(DropLow(x), DropLow(y), n - 1);
      DifferenceCons(LowBit(x), LowBit(y), BitList(DropLow(x), n - 1), BitList(DropLow(y), n - 1));
    }
  }

  lemma DifferenceAppend(a: seq<bool>, b: seq<bool>, u: seq<bool>, v: seq<bool>)
    requires |a| == |b| && |u| == |v|
    ensures Difference(a + u, b + v) == Difference(a, b) + Difference(u, v)
  {
  }

  lemma WidenXor(x: byte, y: byte)
    ensures (x ^ y) as bv32 == Plus(x as bv32, y as bv32)
  {
  }

  lemma {:induction false} BitsOfXor(a: seq<byte>, b: seq<byte>)
    requires |a| == |b|
    ensures BitsOf(Xor(a, b)) == Difference(BitsOf(a), BitsOf(b))
  {
    if |a| == 0 {
    } else {
      hide *;
      var x, y := a[0] as bv32, b[0] as bv32;
      BitsOfUnroll(a);
      BitsOfUnroll(b);
      BitsOfUnroll(Xor(a, b));
      XorUnroll(a, b);
      WidenXor(a[0], b[0]);
      BitListXor(x, y, 8);
      DifferenceAppend(BitList(x, 8), BitList(y, 8), BitsOf(a[1..]), BitsOf(b[1..]));
      BitsOfXor(a[1..], b[1..]);
    }
  }

  lemma BytesCancel(x: byte, y: byte)
    requires x ^ y == 0
    ensures x == y
  {
  }

  lemma DifferenceOfEqual(u: seq<bool>)
    ensures Difference(u, u) == Zeros(|u|)
  {
  }

  lemma NoByteWithoutBits(b: byte)
    requires BitList(b as bv32, 8) == Zeros(8)
    ensures b == 0
  {
    hide Step, Steps, RegisterBits, BitList, Plus, Fits;
    var x := b as bv32;
    FitsByte(b);
    StepsAreBits(0, x, 8);
    ZerosKeepZero(8);
    PlusZero(x);
    StepsZero(x, 8);
  }

  lemma BitsDetermineByte(x: byte, y: byte)
    requires BitList(x as bv32, 8) == BitList(y as bv32, 8)
    ensures x == y
  {
    hide *;
    WidenXor(x, y);
    BitListXor(x as bv32, y as bv32, 8);
    DifferenceOfEqual(BitList(x as bv32, 8));
    NoByteWithoutBits(x ^ y);
    BytesCancel(x, y);
  }

  lemma EqualParts(u: seq<bool>, v: seq<bool>, x: seq<bool>, y: seq<bool>)
    requires |u| == |v| && u + x == v + y
    ensures u == v && x == y
  {
    assert u == (u + x)[..|u|] && v == (v + y)[..|v|];
    assert x == (u + x)[|u|..] && y == (v + y)[|v|..];
  }

  lemma {:induction false} BitsDetermineBytes(a: seq<byte>, b: seq<byte>)
    requires |a| == |b| && BitsOf(a) == BitsOf(b)
    ensures a == b
  {
    if |a| == 0 {
    } else {
      hide *;
      BitsOfUnroll(a);
      BitsOfUnroll(b);
      EqualParts(BitList(a[0] as bv32, 8), BitList(b[0] as bv32, 8), BitsOf(a[1..]), BitsOf(b[1..]));
      BitsDetermineByte(a[0], b[0]);
      BitsDetermineBytes(a[1..], b[1..]);
      assert a == [a[0]] + a[1..] && b == [b[0]] + b[1..];
    }
  }

  /** Two different strings of equal length whose differing bits lie within 32
      consecutive positions have different checksums, whatever their length. */
  lemma BurstChangesChecksum(a: seq<byte>, b: seq<byte>, start: nat)
    requires |a| == |b| && a != b
    requires ConfinedTo(Difference(BitsOf(a), BitsOf(b)), start, 32)
    ensures Checksum(a) != Checksum(b)
  {
    hide Plus, Register, RegisterBits;
    var d := Difference(BitsOf(a), BitsOf(b));
    assert d != Zeros(|d|) by {
      if BitsOf(a) == BitsOf(b) {
        BitsDetermineBytes(a, b);
      }
      var j :| 0 <= j < |BitsOf(a)| && BitsOf(a)[j] != BitsOf(b)[j];
      assert d[j];
    }
    BitsOfXor(a, b);
    BurstLeavesRegisterNonzero(d, start);
    RegisterIsBits(0, Xor(a, b));
    RegisterXor(ONES, ONES, a, b);
    PlusCancels(ONES, ONES);
    PlusCancels(Register(ONES, a), Register(ONES, b));
  }

  // ---- The table formulation ----

  lemma Halve(v: bv32, v1: bv32, v2: bv32, v3: bv32, v4: bv32)
    requires v & 0x0F == 0 && v1 == v >> 1 && v2 == v >> 2 && v3 == v >> 3 && v4 == v >> 4
    ensures Step(v) == v1 && Step(v1) == v2 && Step(v2) == v3 && Step(v3) == v4
  {
  }

  lemma FourSteps(r: bv32, n: nat)
    ensures Steps(r, n + 4) == Steps(Step(Step(Step(Step(r)))), n)
  {
    hide Step;
    var r1 := Step(r);
    var r2 := Step(r1);
    var r3 := Step(r2);
    assert Steps(r, n + 4) == Steps(r1, n + 3) == Steps(r2, n + 2) == Steps(r3, n + 1);
  }

  lemma EightHalvings(v: bv32, v4: bv32, v8: bv32)
    requires v & 0xFF == 0 && v4 == v >> 4 && v8 == v >> 8
    ensures v4 & 0x0F == 0 && v8 == v4 >> 4
    ensures Steps(v, 8) == v8
  {
    assert v4 & 0x0F == 0 && v8 == v4 >> 4;
    Halve(v, v >> 1, v >> 2, v >> 3, v4);
    Halve(v4, v4 >> 1, v4 >> 2, v4 >> 3, v8);
    assert Steps(v, 8) == v8 by {
      hide *;
      FourSteps(v, 4);
      FourSteps(v4, 0);
    }
  }

  function HighBytes(v: bv32): bv32 {
    v & 0xFFFF_FF00
  }

  lemma SplitByte(v: bv32)
    ensures v == Plus(LowByte(v), HighBytes(v))
  {
  }

  lemma HighBytesShift(v: bv32)
    ensures HighBytes(v) & 0xFF == 0 && HighBytes(v) >> 8 == DropByte(v)
  {
  }

  lemma HighBytesStep(v: bv32)
    ensures Steps(HighBytes(v), 8) == DropByte(v)
  {
    hide *;
    var high := HighBytes(v);
    HighBytesShift(v);
    EightHalvings(high, high >> 4, high >> 8);
  }

  lemma XorByteHigh(r: bv32, b: byte)
    ensures DropByte(Plus(r, b as bv32)) == DropByte(r)
  {
  }

  lemma AbsorbByTable(r: bv32, b: byte)
    ensures Absorb(r, b) == RfcAbsorb(r, b)
  {
    hide Plus, Step, Steps, LowByte, HighBytes, DropByte;
    var v := Plus(r, b as bv32);
    SplitByte(v);
    StepsXor(LowByte(v), HighBytes(v), 8);
    HighBytesStep(v);
    XorByteHigh(r, b);
  }

  /** RFC 1952's table-driven update computes the same register. */
  lemma {:induction false} RfcUpdateIsRegister(r: bv32, bytes: seq<byte>)
    ensures RfcUpdate(r, bytes) == Register(r, bytes)
    decreases |bytes|
  {
    if |bytes| == 0 {
    } else {
      hide Absorb, RfcAbsorb;
      AbsorbByTable(r, bytes[0]);
      RfcUpdateIsRegister(Absorb(r, bytes[0]), bytes[1..]);
    }
  }
}
