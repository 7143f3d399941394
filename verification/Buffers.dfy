/** The byte buffer of Buffer.cpp: a cursor over a block of memory, integers in
    network byte order. `int` is 32 bits wide; arithmetic in the bounds checks
    is modelled with its width. */
module Buffers {
  import opened Bits

  const INT_MAX: int := 0x7FFF_FFFF
  const UINT_MODULUS: int := 0x1_0000_0000

  /** How a buffer operation ends: normally, with std::out_of_range, or (when the
      bounds check itself overflowed and passed wrongly) by touching memory
      outside the block. C++ promises nothing then, and neither do the contracts
      below: the bodies stop where the source would go astray. */
  datatype Outcome = Ok | OutOfRange | Fault

  // ---- Network byte order ----

  function BigEndian16(v: bv16): (bytes: seq<byte>)
    ensures |bytes| == 2
  {
    [(v >> 8) as byte, (v & 0xFF) as byte]
  }

  function BigEndian32(v: bv32): (bytes: seq<byte>)
    ensures |bytes| == 4
  {
    [(v >> 24) as byte, ((v >> 16) & 0xFF) as byte, ((v >> 8) & 0xFF) as byte, (v & 0xFF) as byte]
  }

  function BigEndian64(v: bv64): (bytes: seq<byte>)
    ensures |bytes| == 8
  {
    [(v >> 56) as byte, ((v >> 48) & 0xFF) as byte, ((v >> 40) & 0xFF) as byte, ((v >> 32) & 0xFF) as byte,
     ((v >> 24) & 0xFF) as byte, ((v >> 16) & 0xFF) as byte, ((v >> 8) & 0xFF) as byte, (v & 0xFF) as byte]
  }

  function Join16(a: byte, b: byte): bv16 {
    ((a as bv16) << 8) | (b as bv16)
  }

  function Join32(a: byte, b: byte, c: byte, d: byte): bv32 {
    ((a as bv32) << 24) | ((b as bv32) << 16) | ((c as bv32) << 8) | (d as bv32)
  }

  function Join64(a: byte, b: byte, c: byte, d: byte, e: byte, f: byte, g: byte, h: byte): bv64 {
    ((a as bv64) << 56) | ((b as bv64) << 48) | ((c as bv64) << 40) | ((d as bv64) << 32)
    | ((e as bv64) << 24) | ((f as bv64) << 16) | ((g as bv64) << 8) | (h as bv64)
  }

  function FromBigEndian16(bytes: seq<byte>): bv16
    requires |bytes| == 2
  {
    Join16(bytes[0], bytes[1])
  }

  function FromBigEndian32(bytes: seq<byte>): bv32
    requires |bytes| == 4
  {
    Join32(bytes[0], bytes[1], bytes[2], bytes[3])
  }

  function FromBigEndian64(bytes: seq<byte>): bv64
    requires |bytes| == 8
  {
    Join64(bytes[0], bytes[1], bytes[2], bytes[3], bytes[4], bytes[5], bytes[6], bytes[7])
  }

  lemma RoundTrip16(v: bv16, bytes: seq<byte>)
    ensures FromBigEndian16(BigEndian16(v)) == v
    ensures |bytes| == 2 ==> BigEndian16(FromBigEndian16(bytes)) == bytes
  {
  }

  lemma RoundTrip32(v: bv32, bytes: seq<byte>)
    ensures FromBigEndian32(BigEndian32(v)) == v
    ensures |bytes| == 4 ==> BigEndian32(FromBigEndian32(bytes)) == bytes
  {
  }

  lemma Parts64(v: bv64, a: byte, b: byte, c: byte, d: byte, e: byte, f: byte, g: byte, h: byte)
    requires v == Join64(a, b, c, d, e, f, g, h)
    ensures BigEndian64(v) == [a, b, c, d, e, f, g, h]
  {
  }

  lemma Whole64(v: bv64)
    ensures FromBigEndian64(BigEndian64(v)) == v
  {
  }

  lemma RoundTrip64(v: bv64, bytes: seq<byte>)
    ensures FromBigEndian64(BigEndian64(v)) == v
    ensures |bytes| == 8 ==> BigEndian64(FromBigEndian64(bytes)) == bytes
  {
    Whole64(v);
    hide BigEndian64, Join64;
    if |bytes| == 8 {
      Parts64(FromBigEndian64(bytes),
              bytes[0], bytes[1], bytes[2], bytes[3], bytes[4], bytes[5], bytes[6], bytes[7]);
      assert bytes == [bytes[0], bytes[1], bytes[2], bytes[3], bytes[4], bytes[5], bytes[6], bytes[7]];
    }
  }

  /** One more digit to the base 256 behind those of x. */
  function PutDigit(x: bv64, digit: byte): bv64 {
    (x << 8) | (digit as bv64)
  }

  /** The number whose digits to the base 256 are these bytes, the first one the
      most significant: network byte order for any width. */
  function Digits(bytes: seq<byte>): bv64 {
    if |bytes| == 0 then 0 else PutDigit(Digits(bytes[..|bytes| - 1]), bytes[|bytes| - 1])
  }

  lemma NoDigits(bytes: seq<byte>)
    ensures Digits(bytes[..0]) == 0
  {
  }

  lemma DigitsUnroll(bytes: seq<byte>, k: nat)
    requires k < |bytes|
    ensures Digits(bytes[..k + 1]) == PutDigit(Digits(bytes[..k]), bytes[k])
  {
    hide PutDigit;
    assert bytes[..k + 1][..k] == bytes[..k];
  }

  function FourMore(x: bv64, a: byte, b: byte, c: byte, d: byte): bv64 {
    (x << 32) | ((a as bv64) << 24) | ((b as bv64) << 16) | ((c as bv64) << 8) | (d as bv64)
  }

  lemma FourDigits(x: bv64, a: byte, b: byte, c: byte, d: byte)
    ensures PutDigit(PutDigit(PutDigit(PutDigit(x, a), b), c), d) == FourMore(x, a, b, c, d)
  {
  }

  lemma DigitsUnroll4(bytes: seq<byte>, k: nat)
    requires k + 4 <= |bytes|
    ensures Digits(bytes[..k + 4])
         == FourMore(Digits(bytes[..k]), bytes[k], bytes[k + 1], bytes[k + 2], bytes[k + 3])
  {
    hide *;
    DigitsUnroll(bytes, k);
    DigitsUnroll(bytes, k + 1);
    DigitsUnroll(bytes, k + 2);
    DigitsUnroll(bytes, k + 3);
    FourDigits(Digits(bytes[..k]), bytes[k], bytes[k + 1], bytes[k + 2], bytes[k + 3]);
  }

  function Widen16(v: bv16): bv64 {
    v as bv64
  }

  function Widen32(v: bv32): bv64 {
    v as bv64
  }

  function TwoMore(x: bv64, a: byte, b: byte): bv64 {
    (x << 16) | ((a as bv64) << 8) | (b as bv64)
  }

  lemma TwoDigits(x: bv64, a: byte, b: byte)
    ensures PutDigit(PutDigit(x, a), b) == TwoMore(x, a, b)
  {
  }

  lemma Joined16(a: byte, b: byte)
    ensures Widen16(Join16(a, b)) == TwoMore(0, a, b)
  {
  }

  lemma Joined32(a: byte, b: byte, c: byte, d: byte)
    ensures Widen32(Join32(a, b, c, d)) == FourMore(0, a, b, c, d)
  {
  }

  lemma Joined64(x: bv64, a: byte, b: byte, c: byte, d: byte, e: byte, f: byte, g: byte, h: byte)
    requires x == FourMore(0, a, b, c, d)
    ensures Join64(a, b, c, d, e, f, g, h) == FourMore(x, e, f, g, h)
  {
  }

  lemma NetworkOrder16(bytes: seq<byte>)
    requires |bytes| == 2
    ensures Widen16(FromBigEndian16(bytes)) == Digits(bytes)
  {
    hide Digits, PutDigit, TwoMore, Widen16, Join16;
    NoDigits(bytes);
    DigitsUnroll(bytes, 0);
    DigitsUnroll(bytes, 1);
    TwoDigits(0, bytes[0], bytes[1]);
    Joined16(bytes[0], bytes[1]);
    assert bytes[..2] == bytes;
  }

  lemma NetworkOrder32(bytes: seq<byte>)
    requires |bytes| == 4
    ensures Widen32(FromBigEndian32(bytes)) == Digits(bytes)
  {
    hide Digits, FourMore, Widen32, Join32;
    NoDigits(bytes);
    DigitsUnroll4(bytes, 0);
    Joined32(bytes[0], bytes[1], bytes[2], bytes[3]);
    assert bytes[..4] == bytes;
  }

  lemma NetworkOrder64(bytes: seq<byte>)
    requires |bytes| == 8
    ensures FromBigEndian64(bytes) == Digits(bytes)
  {
    hide Digits, FourMore, Join64;
    NoDigits(bytes);
    DigitsUnroll4(bytes, 0);
    DigitsUnroll4(bytes, 4);
    var x := Digits(bytes[..4]);
    Joined64(x, bytes[0], bytes[1], bytes[2], bytes[3], bytes[4], bytes[5], bytes[6], bytes[7]);
    assert bytes[..8] == bytes;
  }

  // ---- The bounds checks, with the widths of their arithmetic ----

  function WrapInt(x: int): int {
    if x > INT_MAX then x - UINT_MODULUS else x
  }

  /** `index + width > size` computed in int. */
  function ScalarOutcome(index: int, width: int, size: int): Outcome {
    if WrapInt(index + width) > size then OutOfRange
    else if index + width > size then Fault
    else Ok
  }

  /** `index + p_size > static_cast<unsigned>(size)` computed in unsigned int. */
  function BlockOutcome(index: int, p_size: int, size: int): Outcome {
    if (index + p_size) % UINT_MODULUS > size then OutOfRange
    else if index + p_size > size then Fault
    else Ok
  }

  /** Both checks let a field through only if it fits, and refuse one that does
      not fit exactly when the sum they compare did not overflow. */
  lemma ChecksAreExact(index: int, width: int, p_size: int, size: int)
    requires 0 <= index <= size <= INT_MAX && 0 < width <= 8 && 0 <= p_size < UINT_MODULUS
    ensures ScalarOutcome(index, width, size) == Ok <==> index + width <= size
    ensures ScalarOutcome(index, width, size) == OutOfRange <==> size < index + width <= INT_MAX
    ensures BlockOutcome(index, p_size, size) == Ok <==> index + p_size <= size
    ensures BlockOutcome(index, p_size, size) == OutOfRange <==> size < index + p_size < UINT_MODULUS
  {
    if index + p_size >= UINT_MODULUS {
      assert (index + p_size) % UINT_MODULUS == index + p_size - UINT_MODULUS;
    }
  }

  lemma Allowed(index: int, width: int, size: int)
    requires 0 <= index && 0 <= width && index + width <= size <= INT_MAX
    ensures ScalarOutcome(index, width, size) == Ok && BlockOutcome(index, width, size) == Ok
  {
  }

  /** memory with bytes stored from position at on. */
  function Put(memory: seq<byte>, at: nat, bytes: seq<byte>): (result: seq<byte>)
    requires at + |bytes| <= |memory|
    ensures |result| == |memory|
  {
    memory[..at] + bytes + memory[at + |bytes|..]
  }

  lemma PutTwice(memory: seq<byte>, at: nat, u: seq<byte>, v: seq<byte>)
    requires at + |u| + |v| <= |memory|
    ensures Put(Put(memory, at, u), at + |u|, v) == Put(memory, at, u + v)
  {
  }

  lemma PutNothing(memory: seq<byte>, at: nat)
    requires at <= |memory|
    ensures Put(memory, at, []) == memory
  {
  }

  lemma Join(memory: seq<byte>, a: nat, b: nat, c: nat)
    requires a <= b <= c <= |memory|
    ensures memory[a..b] + memory[b..c] == memory[a..c]
  {
  }

  /** What Put stores and what it leaves alone. */
  lemma PutWindow(memory: seq<byte>, at: nat, bytes: seq<byte>)
    requires at + |bytes| <= |memory|
    ensures var result := Put(memory, at, bytes);
      && result[at..at + |bytes|] == bytes
      && result[..at] == memory[..at] && result[at + |bytes|..] == memory[at + |bytes|..]
  {
  }

  lemma PutAll(memory: seq<byte>, bytes: seq<byte>)
    requires |memory| == |bytes|
    ensures Put(memory, 0, bytes) == bytes
  {
  }

  lemma PutPrefix(memory: seq<byte>, bytes: seq<byte>)
    requires |bytes| <= |memory|
    ensures Put(memory, 0, bytes)[..|bytes|] == bytes
  {
  }

  lemma PutHead(head: seq<byte>, other: seq<byte>, rest: seq<byte>)
    requires |head| == |other|
    ensures Put(head + rest, 0, other) == other + rest
  {
  }

  class Buffer {
    var data: array?<byte>
    var size: int
    var index: int

    ghost predicate Valid()
      reads this
    {
      && 0 <= index <= size <= INT_MAX
      && (if data == null then size == 0 else size <= data.Length)
    }

    /** Everything the buffer's block of memory holds. */
    ghost function Memory(): (memory: seq<byte>)
      reads this, data
      ensures |memory| == if data == null then 0 else data.Length
    {
      if data == null then [] else data[..]
    }

    /** Buffer() = default. */
    constructor ()
      ensures Valid() && data == null && index == 0
    {
      data, size, index := null, 0, 0;
    }

    constructor Sized(p_size: int)
      requires 0 <= p_size <= INT_MAX
      ensures Valid() && size == p_size && index == 0
      ensures if p_size == 0 then data == null else data != null && fresh(data) && data.Length == p_size
    {
      if p_size > 0 {
        data := new byte[p_size];
        index := 0;
        size := p_size;
      } else {
        data, size, index := null, 0, 0;
      }
    }

    /** Throws if the buffer already owns memory. */
    method Init(p_size: int) returns (initialised: bool)
      requires Valid() && 0 <= p_size <= INT_MAX
      modifies this
      ensures Valid() && initialised == (old(data) == null)
      ensures !initialised ==> data == old(data) && size == old(size) && index == old(index)
      ensures initialised && p_size > 0 ==> data != null && fresh(data) && data.Length == size == p_size && index == 0
      ensures initialised && p_size == 0 ==> data == null && size == 0 && index == 0
    {
      if data != null {
        return false;
      }
      if p_size > 0 {
        data := new byte[p_size];
        index := 0;
        size := p_size;
      }
      return true;
    }

    /** One store of a whole word at the cursor. */
    method Store(bytes: seq<byte>)
      requires Valid() && 0 < |bytes| && index + |bytes| <= size
      modifies this`index, data
      ensures Valid() && index == old(index) + |bytes|
      ensures Memory() == Put(old(Memory()), old(index), bytes)
    {
      forall i | 0 <= i < |bytes| {
        data[index + i] := bytes[i];
      }
      index := index + |bytes|;
    }

    method WriteLongLong(p_value: bv64) returns (outcome: Outcome)
      requires Valid()
      modifies this`index, data
      ensures outcome == ScalarOutcome(old(index), 8, size)
      ensures outcome != Fault ==> Valid() && Written(outcome, old(index), old(Memory()), BigEndian64(p_value))
    {
      if WrapInt(index + 8) > size {
        return OutOfRange;
      } else if index + 8 > size {
        return Fault;
      }
      Store(BigEndian64(p_value));
      return Ok;
    }

    method WriteInteger(p_value: bv32) returns (outcome: Outcome)
      requires Valid()
      modifies this`index, data
      ensures outcome == ScalarOutcome(old(index), 4, size)
      ensures outcome != Fault ==> Valid() && Written(outcome, old(index), old(Memory()), BigEndian32(p_value))
    {
      if WrapInt(index + 4) > size {
        return OutOfRange;
      } else if index + 4 > size {
        return Fault;
      }
      Store(BigEndian32(p_value));
      return Ok;
    }

    method WriteShort(p_value: bv16) returns (outcome: Outcome)
      requires Valid()
      modifies this`index, data
      ensures outcome == ScalarOutcome(old(index), 2, size)
      ensures outcome != Fault ==> Valid() && Written(outcome, old(index), old(Memory()), BigEndian16(p_value))
    {
      if WrapInt(index + 2) > size {
        return OutOfRange;
      } else if index + 2 > size {
        return Fault;
      }
      Store(BigEndian16(p_value));
      return Ok;
    }

    method WriteByte(p_value: byte) returns (outcome: Outcome)
      requires Valid()
      modifies this`index, data
      ensures outcome == ScalarOutcome(old(index), 1, size)
      ensures outcome != Fault ==> Valid() && Written(outcome, old(index), old(Memory()), [p_value])
    {
      if WrapInt(index + 1) > size {
        return OutOfRange;
      } else if index + 1 > size {
        return Fault;
      }
      Store([p_value]);
      return Ok;
    }

    /** After a write that met no fault: the field is in place and everything else
        is as it was, or nothing changed at all. */
    ghost predicate Written(outcome: Outcome, at: int, memory: seq<byte>, bytes: seq<byte>)
      requires Valid() && 0 <= at
      requires outcome == Ok ==> at + |bytes| <= |memory|
      reads this, data
    {
      if outcome == Ok
      then index == at + |bytes| && Memory() == Put(memory, at, bytes)
      else index == at && Memory() == memory
    }

    /** Copies byte by byte. */
    method WriteBuffer(p_buffer: seq<byte>) returns (outcome: Outcome)
      requires Valid() && |p_buffer| < UINT_MODULUS
      modifies this`index, data
      ensures outcome == BlockOutcome(old(index), |p_buffer|, size)
      ensures outcome != Fault ==> Valid() && Written(outcome, old(index), old(Memory()), p_buffer)
    {
      if (index + |p_buffer|) % UINT_MODULUS > size {
        return OutOfRange;
      } else if index + |p_buffer| > size {
        return Fault;
      }
      var at := index;
      for i := 0 to |p_buffer|
        invariant Valid() && index == at + i
        invariant at + |p_buffer| <= size
        invariant data != null ==> forall k :: 0 <= k < data.Length ==>
          data[k] == if at <= k < at + i then p_buffer[k - at] else old(data[k])
      {
        data[index] := p_buffer[i];
        index := index + 1;
      }
      return Ok;
    }

    method ReadLongLong() returns (outcome: Outcome, res: bv64)
      requires Valid()
      modifies this`index
      ensures outcome == ScalarOutcome(old(index), 8, size)
      ensures outcome != Fault ==> Valid() && index == old(index) + (if outcome == Ok then 8 else 0)
      ensures outcome == Ok ==> res == FromBigEndian64(Memory()[old(index)..index])
    {
      if WrapInt(index + 8) > size {
        return OutOfRange, 0;
      } else if index + 8 > size {
        return Fault, 0;
      }
      res := FromBigEndian64(data[index..index + 8]);
      index := index + 8;
      outcome := Ok;
    }

    method ReadInteger() returns (outcome: Outcome, res: bv32)
      requires Valid()
      modifies this`index
      ensures outcome == ScalarOutcome(old(index), 4, size)
      ensures outcome != Fault ==> Valid() && index == old(index) + (if outcome == Ok then 4 else 0)
      ensures outcome == Ok ==> res == FromBigEndian32(Memory()[old(index)..index])
    {
      if WrapInt(index + 4) > size {
        return OutOfRange, 0;
      } else if index + 4 > size {
        return Fault, 0;
      }
      res := FromBigEndian32(data[index..index + 4]);
      index := index + 4;
      outcome := Ok;
    }

    method ReadShort() returns (outcome: Outcome, res: bv16)
      requires Valid()
      modifies this`index
      ensures outcome == ScalarOutcome(old(index), 2, size)
      ensures outcome != Fault ==> Valid() && index == old(index) + (if outcome == Ok then 2 else 0)
      ensures outcome == Ok ==> res == FromBigEndian16(Memory()[old(index)..index])
    {
      if WrapInt(index + 2) > size {
        return OutOfRange, 0;
      } else if index + 2 > size {
        return Fault, 0;
      }
      res := FromBigEndian16(data[index..index + 2]);
      index := index + 2;
      outcome := Ok;
    }

    method ReadByte() returns (outcome: Outcome, res: byte)
      requires Valid()
      modifies this`index
      ensures outcome == ScalarOutcome(old(index), 1, size)
      ensures outcome != Fault ==> Valid() && index == old(index) + (if outcome == Ok then 1 else 0)
      ensures outcome == Ok ==> res == Memory()[old(index)]
    {
      if WrapInt(index + 1) > size {
        return OutOfRange, 0;
      } else if index + 1 > size {
        return Fault, 0;
      }
      res := data[index];
      index := index + 1;
      outcome := Ok;
    }

    /** Copies byte by byte into the caller's block. */
    method ReadBuffer(o_buffer: array<byte>, p_size: int) returns (outcome: Outcome)
      requires Valid() && 0 <= p_size < UINT_MODULUS
      requires o_buffer != data && p_size <= o_buffer.Length
      modifies this`index, o_buffer
      ensures outcome == BlockOutcome(old(index), p_size, size)
      ensures outcome != Fault ==> Valid() && index == old(index) + (if outcome == Ok then p_size else 0)
      ensures outcome == Ok ==> o_buffer[..] == Memory()[old(index)..index] + old(o_buffer[p_size..])
      ensures outcome == OutOfRange ==> o_buffer[..] == old(o_buffer[..])
    {
      if (index + p_size) % UINT_MODULUS > size {
        return OutOfRange;
      } else if index + p_size > size {
        return Fault;
      }
      var at := index;
      for i := 0 to p_size
        invariant Valid() && index == at + i
        invariant at + p_size <= size
        invariant forall k :: 0 <= k < i ==> o_buffer[k] == data[at + k]
        invariant forall k :: i <= k < o_buffer.Length ==> o_buffer[k] == old(o_buffer[k])
      {
        o_buffer[i] := data[index];
        index := index + 1;
      }
      return Ok;
    }
  }
}
