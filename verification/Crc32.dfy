/** The engines of CRC.h. They keep the register the other way round (shifting
    left, polynomial 0x04C11DB7) and reverse every byte on the way in and the
    whole register on the way out.
    uint_fast32_t is 32 bits wide on the project's toolset. */
module Crc32 {
  import opened Bits
  import Crc

  const POLYNOMIAL: bv32 := 0x04C1_1DB7
  const TOP_BIT: bv32 := 0x8000_0000
  const INITIAL_REMAINDER: bv32 := 0xFFFF_FFFF
  const FINAL_XOR_VALUE: bv32 := 0xFFFF_FFFF

  /** What ReverseBits still has to do: n rounds of moving the low bit of
      number below reverse. */
  function Rounds(reverse: bv32, number: bv32, n: nat): bv32
    decreases n
  {
    if n == 0 then reverse else Rounds((reverse << 1) | (number & 1), number >> 1, n - 1)
  }

  function Forward(r: bv32): bv32 {
    if r & TOP_BIT != 0 then (r << 1) ^ POLYNOMIAL else r << 1
  }

  function ForwardSteps(r: bv32, n: nat): bv32
    decreases n
  {
    if n == 0 then r else ForwardSteps(Forward(r), n - 1)
  }

  /** CRC.h line 72, then eight steps. */
  function ForwardAbsorb(r: bv32, b: byte): bv32 {
    ForwardSteps(r ^ (Reverse8(b as bv32) << 24), 8)
  }

  // ---- The left-shifting register mirrors the reference register ----

  lemma ShiftMirrors(r: bv32)
    ensures Reverse32(r << 1) == Reverse32(r) >> 1
    ensures Reverse32((r << 1) ^ POLYNOMIAL) == (Reverse32(r) >> 1) ^ Crc.POLYNOMIAL
    ensures Reverse32(r) & 1 != 0 <==> r & TOP_BIT != 0
  {
  }

  lemma ForwardMirrors(r: bv32)
    ensures Reverse32(Forward(r)) == Crc.Step(Reverse32(r))
  {
    hide Reverse32;
    ShiftMirrors(r);
  }

  lemma {:induction false} ForwardStepsMirror(r: bv32, n: nat)
    ensures Reverse32(ForwardSteps(r, n)) == Crc.Steps(Reverse32(r), n)
    decreases n
  {
    if n == 0 {
    } else {
      hide Reverse32, Forward, Crc.Step;
      ForwardMirrors(r);
      ForwardStepsMirror(Forward(r), n - 1);
    }
  }

  lemma ByteMirrors(r: bv32, b: byte)
    ensures Reverse32(r ^ (Reverse8(b as bv32) << 24)) == Plus(Reverse32(r), b as bv32)
  {
  }

  lemma AbsorbMirrors(r: bv32, b: byte)
    ensures Reverse32(ForwardAbsorb(r, b)) == Crc.Absorb(Reverse32(r), b)
  {
    hide Reverse32, Reverse8, Plus, ForwardSteps, Crc.Steps;
    ByteMirrors(r, b);
    ForwardStepsMirror(r ^ (Reverse8(b as bv32) << 24), 8);
  }

  // ---- ReverseBits ----

  lemma {:induction false} RoundsOfZero(reverse: bv32, n: nat)
    ensures Rounds(reverse, 0, n) == ShiftLeft(reverse, n)
    decreases n
  {
    if n == 0 {
    } else {
      assert (reverse << 1) | (0 & 1) == reverse << 1;
      RoundsOfZero(reverse << 1, n - 1);
    }
  }

  lemma RoundsUnroll(reverse: bv32, number: bv32, n: nat)
    requires n > 0
    ensures Rounds(reverse, number, n) == Rounds(Prepend(LowBit(number), reverse), DropLow(number), n - 1)
  {
  }

  lemma EightBits(r: bv32, r1: bv32, r2: bv32, r3: bv32, r4: bv32, r5: bv32, r6: bv32, r7: bv32, r8: bv32,
                  p: bv32, p1: bv32, p2: bv32, p3: bv32, p4: bv32, p5: bv32, p6: bv32, p7: bv32, p8: bv32)
    requires p1 == DropLow(p) && p2 == DropLow(p1) && p3 == DropLow(p2) && p4 == DropLow(p3)
    requires p5 == DropLow(p4) && p6 == DropLow(p5) && p7 == DropLow(p6) && p8 == DropLow(p7)
    requires r1 == Prepend(LowBit(p), r) && r2 == Prepend(LowBit(p1), r1)
    requires r3 == Prepend(LowBit(p2), r2) && r4 == Prepend(LowBit(p3), r3)
    requires r5 == Prepend(LowBit(p4), r4) && r6 == Prepend(LowBit(p5), r5)
    requires r7 == Prepend(LowBit(p6), r6) && r8 == Prepend(LowBit(p7), r7)
    ensures r8 == ByteIn(r, p) && p8 == DropByte(p)
  {
  }

  lemma EightRounds(r: bv32, p: bv32, n: nat)
    requires n >= 8
    ensures Rounds(r, p, n) == Rounds(ByteIn(r, p), DropByte(p), n - 8)
  {
    hide *;
    var r1, p1 := Prepend(LowBit(p), r), DropLow(p);
    var r2, p2 := Prepend(LowBit(p1), r1), DropLow(p1);
    var r3, p3 := Prepend(LowBit(p2), r2), DropLow(p2);
    var r4, p4 := Prepend(LowBit(p3), r3), DropLow(p3);
    var r5, p5 := Prepend(LowBit(p4), r4), DropLow(p4);
    var r6, p6 := Prepend(LowBit(p5), r5), DropLow(p5);
    var r7, p7 := Prepend(LowBit(p6), r6), DropLow(p6);
    var r8, p8 := Prepend(LowBit(p7), r7), DropLow(p7);
    RoundsUnroll(r, p, n);
    RoundsUnroll(r1, p1, n - 1);
    RoundsUnroll(r2, p2, n - 2);
    RoundsUnroll(r3, p3, n - 3);
    RoundsUnroll(r4, p4, n - 4);
    RoundsUnroll(r5, p5, n - 5);
    RoundsUnroll(r6, p6, n - 6);
    RoundsUnroll(r7, p7, n - 7);
    EightBits(r, r1, r2, r3, r4, r5, r6, r7, r8, p, p1, p2, p3, p4, p5, p6, p7, p8);
  }

  function ByteIn(r: bv32, p: bv32): bv32 {
    (r << 8) | Reverse8(p)
  }

  lemma FourBytes(p: bv32, q1: bv32, q2: bv32, q3: bv32, r1: bv32, r2: bv32, r3: bv32)
    requires q1 == DropByte(p) && q2 == DropByte(q1) && q3 == DropByte(q2)
    requires r1 == ByteIn(p, p) && r2 == ByteIn(r1, q1) && r3 == ByteIn(r2, q2)
    ensures ByteIn(r3, q3) == Reverse32(p)
  {
  }

  /** The two widths in use: eight rounds leave the argument above its reversed
      low byte, thirty-two rounds push the argument out altogether. */
  lemma RoundsAtCallSites(p: bv32)
    ensures Rounds(p, p, 8) == ByteIn(p, p)
    ensures Rounds(p, p, 32) == Reverse32(p)
  {
    hide Reverse8, Reverse32, ByteIn, DropByte;
    EightRounds(p, p, 8);
    var q1 := DropByte(p);
    var q2 := DropByte(q1);
    var q3 := DropByte(q2);
    var r1 := ByteIn(p, p);
    var r2 := ByteIn(r1, q1);
    var r3 := ByteIn(r2, q2);
    EightRounds(p, p, 32);
    EightRounds(r1, q1, 24);
    EightRounds(r2, q2, 16);
    EightRounds(r3, q3, 8);
    FourBytes(p, q1, q2, q3, r1, r2, r3);
  }

  /** The bits of number still to be moved fit in the rounds that are left. */
  predicate Remaining(number: bv32, n: nat)
    decreases n
  {
    if n == 0 then number == 0 else Remaining(number >> 1, n - 1)
  }

  lemma {:induction false} FitsRemains(x: bv32, n: nat)
    requires Fits(x, n)
    ensures Remaining(x, n)
    decreases n
  {
    hide LowMask, Within;
    if n == 0 {
      Crc.FitsNone(x);
    } else {
      FitsTail(x, n);
      FitsRemains(DropLow(x), n - 1);
    }
  }

  lemma FitsWord(x: bv32)
    ensures Fits(x, 32)
  {
    assert LowMask(8) == 0xFF;
    assert LowMask(16) == 0xFFFF;
    assert LowMask(24) == 0xFF_FFFF;
    assert LowMask(32) == 0xFFFF_FFFF;
  }

  /** CRC.h lines 16-30. The bit count never goes below zero; the loop may stop
      early because the final shift makes up for the leading zeros. */
  method ReverseBits(p_number: bv32, p_nBits: nat) returns (reverse: bv32)
    requires Fits(p_number, p_nBits)
    ensures reverse == Rounds(p_number, p_number, p_nBits)
    ensures p_nBits == 8 ==> reverse == ByteIn(p_number, p_number)
    ensures p_nBits == 32 ==> reverse == Reverse32(p_number)
  {
    hide Reverse32, ByteIn;
    RoundsAtCallSites(p_number);
    FitsRemains(p_number, p_nBits);
    reverse := p_number;
    var number, nBits := p_number, p_nBits;
    while number != 0
      invariant Remaining(number, nBits)
      invariant Rounds(reverse, number, nBits) == Rounds(p_number, p_number, p_nBits)
      decreases nBits
    {
      reverse := reverse << 1;
      reverse := reverse | (number & 1);
      number := number >> 1;
      nBits := nBits - 1;
    }
    RoundsOfZero(reverse, nBits);
    reverse := ShiftLeft(reverse, nBits);
  }

  // ---- The table ----

  /** The 8-step remainder of the table index, placed in the top byte. */
  function Entry(index: byte): bv32 {
    ForwardSteps((index as bv32) << 24, 8)
  }

  lemma EntryMirrors(index: byte)
    ensures Reverse32(Entry(index)) == Crc.RfcEntry(Reverse8(index as bv32))
  {
    hide Reverse32, Reverse8, ForwardSteps, Crc.Steps;
    TopByteMirrors(index);
    ForwardStepsMirror((index as bv32) << 24, 8);
  }

  lemma TopByteMirrors(index: byte)
    ensures Reverse32((index as bv32) << 24) == Reverse8(index as bv32)
  {
  }

  /** The table index of CRC.h line 59: the cast to unsigned char drops what
      ReverseBits left above bit 7. */
  function Index(r: bv32, b: byte): byte {
    ((ByteIn(b as bv32, b as bv32) ^ (r >> 24)) & 0xFF) as byte
  }

  lemma IndexIsCast(r: bv32, b: byte, reversed: bv32)
    requires reversed == ByteIn(b as bv32, b as bv32)
    ensures ((reversed ^ (r >> 24)) & 0xFF) as byte == Index(r, b)
  {
  }

  lemma IndexRoundTrip(index: byte)
    ensures 0 <= index as int < 256 && (index as int) as byte == index
  {
  }

  lemma IndexMirrors(r: bv32, b: byte)
    ensures Reverse8(Index(r, b) as bv32) == LowByte(Plus(Reverse32(r), b as bv32))
  {
  }

  /** CRC.h line 60. */
  function Fold(entry: bv32, r: bv32): bv32 {
    entry ^ (r << 8)
  }

  lemma FoldMirrors(entry: bv32, r: bv32)
    ensures Reverse32(Fold(entry, r)) == Plus(Reverse32(entry), DropByte(Reverse32(r)))
  {
  }

  lemma LookupMirrors(r: bv32, b: byte)
    ensures Reverse32(Fold(Entry(Index(r, b)), r)) == Crc.Absorb(Reverse32(r), b)
  {
    hide Reverse32, Reverse8, Index, Entry, Fold, Plus, LowByte, DropByte, Crc.RfcEntry, Crc.Absorb;
    FoldMirrors(Entry(Index(r, b)), r);
    EntryMirrors(Index(r, b));
    IndexMirrors(r, b);
    Crc.AbsorbByTable(Reverse32(r), b);
  }

  lemma SealByte(r: bv32, b: byte)
    ensures r ^ (ByteIn(b as bv32, b as bv32) << 24) == r ^ (Reverse8(b as bv32) << 24)
  {
  }

  lemma InitialMirrors()
    ensures Reverse32(INITIAL_REMAINDER) == Crc.ONES && FINAL_XOR_VALUE == Crc.ONES
  {
  }

  /** The inner loop that lines 41-47 and 74-80 share. */
  method ShiftOutByte(start: bv32) returns (remainder: bv32)
    ensures remainder == ForwardSteps(start, 8)
  {
    remainder := start;
    var bit := 8;
    while bit > 0
      invariant 0 <= bit <= 8
      invariant ForwardSteps(remainder, bit) == ForwardSteps(start, 8)
    {
      if remainder & TOP_BIT != 0 {
        remainder := (remainder << 1) ^ POLYNOMIAL;
      } else {
        remainder := remainder << 1;
      }
      bit := bit - 1;
    }
  }

  /** The loop body of lines 70-81. */
  method ShiftInByte(remainder: bv32, b: byte) returns (next: bv32)
    ensures Reverse32(next) == Crc.Absorb(Reverse32(remainder), b)
  {
    hide Reverse32, Reverse8, ForwardSteps, ByteIn, Crc.Absorb;
    AbsorbMirrors(remainder, b);
    SealByte(remainder, b);
    Crc.FitsByte(b);
    var reversed := ReverseBits(b as bv32, 8);
    next := ShiftOutByte(remainder ^ (reversed << 24));
  }

  /** The static state of CRC.h: the table and its flag. */
  class Engine {
    const table: array<bv32>
    var isTableInit: bool

    ghost predicate Valid()
      reads this, table
    {
      && table.Length == 256
      && (isTableInit ==> forall i :: 0 <= i < 256 ==> table[i] == Entry(i as byte))
    }

    constructor ()
      ensures Valid() && !isTableInit && fresh(table)
    {
      table := new bv32[256];
      isTableInit := false;
    }

    method InitTable()
      requires Valid()
      modifies this, table
      ensures Valid() && isTableInit
      ensures old(isTableInit) ==> table[..] == old(table[..])
    {
      hide ForwardSteps;
      if isTableInit {
        return;
      }
      for dividend := 0 to 256
        invariant !isTableInit
        invariant forall i :: 0 <= i < dividend ==> table[i] == Entry(i as byte)
      {
        var remainder := ShiftOutByte((dividend as byte as bv32) << 24);
        table[dividend] := remainder;
      }
      isTableInit := true;
    }

    /** The loop body of lines 57-61. */
    method LookUpByte(remainder: bv32, b: byte) returns (next: bv32)
      requires Valid() && isTableInit
      ensures Reverse32(next) == Crc.Absorb(Reverse32(remainder), b)
    {
      hide Reverse32, Reverse8, Entry, Index, ByteIn, Crc.Absorb;
      LookupMirrors(remainder, b);
      Crc.FitsByte(b);
      var reversed := ReverseBits(b as bv32, 8);
      var data := ((reversed ^ (remainder >> 24)) & 0xFF) as byte;
      IndexIsCast(remainder, b, reversed);
      IndexRoundTrip(data);
      next := table[data as int] ^ (remainder << 8);
    }

    method GetCRCTableBased(data: seq<byte>) returns (crc: bv32)
      requires Valid() && isTableInit
      ensures crc == Crc.Checksum(data)
    {
      hide Reverse32, Crc.Absorb;
      var remainder := INITIAL_REMAINDER;
      InitialMirrors();
      for i := 0 to |data|
        invariant Crc.Register(Reverse32(remainder), data[i..]) == Crc.Register(Crc.ONES, data)
      {
        remainder := LookUpByte(remainder, data[i]);
      }
      FitsWord(remainder);
      crc := ReverseBits(remainder, 32);
      crc := crc ^ FINAL_XOR_VALUE;
    }

    method GetCRC(message: seq<byte>) returns (crc: bv32)
      ensures crc == Crc.Checksum(message)
    {
      hide Reverse32, Crc.Absorb;
      var remainder := INITIAL_REMAINDER;
      InitialMirrors();
      for i := 0 to |message|
        invariant Crc.Register(Reverse32(remainder), message[i..]) == Crc.Register(Crc.ONES, message)
      {
        remainder := ShiftInByte(remainder, message[i]);
      }
      FitsWord(remainder);
      crc := ReverseBits(remainder, 32);
      crc := crc ^ FINAL_XOR_VALUE;
    }
  }
}
