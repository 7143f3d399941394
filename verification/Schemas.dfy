/** Sequences of fields through the buffer: what is written in some layout is
    what is read back in that layout. */
module Schemas {
  import opened Bits
  import opened Buffers

  datatype Field = U64(u64: bv64) | U32(u32: bv32) | U16(u16: bv16) | U8(u8: byte) | Block(bytes: seq<byte>)

  datatype Shape = S64 | S32 | S16 | S8 | SBlock(length: nat)

  function ShapeOf(f: Field): Shape {
    match f
    case U64(_) => S64
    case U32(_) => S32
    case U16(_) => S16
    case U8(_) => S8
    case Block(bytes) => SBlock(|bytes|)
  }

  function Width(s: Shape): nat {
    match s
    case S64 => 8
    case S32 => 4
    case S16 => 2
    case S8 => 1
    case SBlock(n) => n
  }

  /** A block length is an unsigned int. */
  predicate Representable(s: Shape) {
    Width(s) < UINT_MODULUS
  }

  /** How the buffer answers a field of this shape at this cursor. */
  function OutcomeFor(s: Shape, index: int, size: int): Outcome {
    if s.SBlock? then BlockOutcome(index, s.length, size) else ScalarOutcome(index, Width(s), size)
  }

  function EncodeField(f: Field): (bytes: seq<byte>)
    ensures |bytes| == Width(ShapeOf(f))
  {
    match f
    case U64(v) => BigEndian64(v)
    case U32(v) => BigEndian32(v)
    case U16(v) => BigEndian16(v)
    case U8(v) => [v]
    case Block(bytes) => bytes
  }

  function Shapes(fields: seq<Field>): (shapes: seq<Shape>)
    ensures |shapes| == |fields|
  {
    if |fields| == 0 then [] else [ShapeOf(fields[0])] + Shapes(fields[1..])
  }

  function TotalWidth(shapes: seq<Shape>): nat {
    if |shapes| == 0 then 0 else Width(shapes[0]) + TotalWidth(shapes[1..])
  }

  function Encode(fields: seq<Field>): (bytes: seq<byte>)
    ensures |bytes| == TotalWidth(Shapes(fields))
  {
    if |fields| == 0 then [] else EncodeField(fields[0]) + Encode(fields[1..])
  }

  lemma EncodeFieldInjective(f: Field, g: Field)
    requires ShapeOf(f) == ShapeOf(g) && EncodeField(f) == EncodeField(g)
    ensures f == g
  {
    hide BigEndian64, BigEndian32, BigEndian16, FromBigEndian64, FromBigEndian32, FromBigEndian16;
    match f
    case U64(v) => RoundTrip64(v, []); RoundTrip64(g.u64, []);
    case U32(v) => RoundTrip32(v, []); RoundTrip32(g.u32, []);
    case U16(v) => RoundTrip16(v, []); RoundTrip16(g.u16, []);
    case U8(v) =>
    case Block(bytes) =>
  }

  /** A layout and its bytes determine the fields. */
  lemma {:induction false} EncodeInjective(fields: seq<Field>, others: seq<Field>)
    requires Shapes(fields) == Shapes(others) && Encode(fields) == Encode(others)
    ensures fields == others
    decreases |fields|
  {
    assert |Shapes(fields)| == |Shapes(others)|;
    if |fields| == 0 {
    } else {
      hide EncodeField;
      var f, g := fields[0], others[0];
      assert ShapeOf(f) == Shapes(fields)[0] == Shapes(others)[0] == ShapeOf(g);
      assert Shapes(fields[1..]) == Shapes(fields)[1..] == Shapes(others)[1..] == Shapes(others[1..]);
      SplitEqual(EncodeField(f), EncodeField(g), Encode(fields[1..]), Encode(others[1..]));
      EncodeInjective(fields[1..], others[1..]);
      EncodeFieldInjective(f, g);
    }
  }

  lemma SplitEqual(u: seq<byte>, v: seq<byte>, x: seq<byte>, y: seq<byte>)
    requires |u| == |v| && u + x == v + y
    ensures u == v && x == y
  {
    assert u == (u + x)[..|u|] == (v + y)[..|v|] == v;
    assert x == (u + x)[|u|..] == (v + y)[|v|..] == y;
  }

  method WriteField(b: Buffer, f: Field) returns (outcome: Outcome)
    requires b.Valid() && Representable(ShapeOf(f))
    modifies b`index, b.data
    ensures outcome == OutcomeFor(ShapeOf(f), old(b.index), b.size)
    ensures outcome != Fault ==> b.Valid() && b.Written(outcome, old(b.index), old(b.Memory()), EncodeField(f))
  {
    hide BigEndian64, BigEndian32, BigEndian16, FromBigEndian64, FromBigEndian32, FromBigEndian16;
    hide ScalarOutcome, BlockOutcome, Put;
    match f
    case U64(v) => outcome := b.WriteLongLong(v);
    case U32(v) => outcome := b.WriteInteger(v);
    case U16(v) => outcome := b.WriteShort(v);
    case U8(v) => outcome := b.WriteByte(v);
    case Block(bytes) => outcome := b.WriteBuffer(bytes);
  }

  method ReadField(b: Buffer, s: Shape) returns (outcome: Outcome, f: Field)
    requires b.Valid() && Representable(s)
    modifies b`index
    ensures outcome == OutcomeFor(s, old(b.index), b.size)
    ensures outcome != Fault ==> b.Valid() && b.index == old(b.index) + (if outcome == Ok then Width(s) else 0)
    ensures outcome == Ok ==> ShapeOf(f) == s && EncodeField(f) == b.Memory()[old(b.index)..b.index]
  {
    hide BigEndian64, BigEndian32, BigEndian16, FromBigEndian64, FromBigEndian32, FromBigEndian16;
    hide ScalarOutcome, BlockOutcome;
    match s
    case S64 =>
      var v;
      outcome, v := b.ReadLongLong();
      f := U64(v);
      if outcome == Ok { RoundTrip64(0, b.Memory()[old(b.index)..b.index]); }
    case S32 =>
      var v;
      outcome, v := b.ReadInteger();
      f := U32(v);
      if outcome == Ok { RoundTrip32(0, b.Memory()[old(b.index)..b.index]); }
    case S16 =>
      var v;
      outcome, v := b.ReadShort();
      f := U16(v);
      if outcome == Ok { RoundTrip16(0, b.Memory()[old(b.index)..b.index]); }
    case S8 =>
      var v;
      outcome, v := b.ReadByte();
      f := U8(v);
    case SBlock(n) =>
      var block := new byte[n];
      outcome := b.ReadBuffer(block, n);
      f := Block(block[..]);
  }

  lemma OutcomeForExact(s: Shape, index: int, size: int)
    requires 0 <= index <= size <= INT_MAX && Representable(s)
    ensures OutcomeFor(s, index, size) == Ok <==> index + Width(s) <= size
  {
    ChecksAreExact(index, if s.SBlock? then 1 else Width(s), Width(s), size);
  }

  lemma PrependField(f: Field, rest: seq<Field>)
    ensures Shapes([f] + rest) == [ShapeOf(f)] + Shapes(rest)
    ensures Encode([f] + rest) == EncodeField(f) + Encode(rest)
  {
    assert ([f] + rest)[1..] == rest;
  }

  predicate AllRepresentable(shapes: seq<Shape>) {
    forall i :: 0 <= i < |shapes| ==> Representable(shapes[i])
  }

  /** The buffer after `done` of the fields went in, and why it stopped there. */
  ghost predicate WroteFields(b: Buffer, outcome: Outcome, done: nat, fields: seq<Field>, at: int, memory: seq<byte>)
    requires b.Valid() && 0 <= at
    reads b, b.data
  {
    && done <= |fields|
    && (if outcome == Ok then done == |fields|
        else done < |fields| && outcome == OutcomeFor(ShapeOf(fields[done]), b.index, b.size))
    && b.index == at + |Encode(fields[..done])| <= |memory|
    && b.Memory() == Put(memory, at, Encode(fields[..done]))
  }

  lemma WroteOneMore(b: Buffer, outcome: Outcome, done: nat, f: Field, rest: seq<Field>, at: int, memory: seq<byte>)
    requires b.Valid() && 0 <= at && at + |EncodeField(f)| <= |memory|
    requires WroteFields(b, outcome, done, rest, at + |EncodeField(f)|, Put(memory, at, EncodeField(f)))
    ensures WroteFields(b, outcome, done + 1, [f] + rest, at, memory)
  {
    hide EncodeField, Encode, Put;
    assert ([f] + rest)[..done + 1] == [f] + rest[..done];
    PrependField(f, rest[..done]);
    PutTwice(memory, at, EncodeField(f), Encode(rest[..done]));
  }

  lemma WroteNone(b: Buffer, outcome: Outcome, fields: seq<Field>, memory: seq<byte>)
    requires b.Valid() && b.Memory() == memory && b.index <= |memory|
    requires if |fields| == 0 then outcome == Ok
             else outcome != Ok && outcome == OutcomeFor(ShapeOf(fields[0]), b.index, b.size)
    ensures WroteFields(b, outcome, 0, fields, b.index, memory)
  {
    PutNothing(memory, b.index);
  }

  lemma NoFields(fields: seq<Field>)
    requires |fields| == 0
    ensures TotalWidth(Shapes(fields)) == 0
  {
  }

  lemma FirstField(fields: seq<Field>)
    requires |fields| > 0 && AllRepresentable(Shapes(fields))
    ensures fields == [fields[0]] + fields[1..]
    ensures Representable(ShapeOf(fields[0])) && AllRepresentable(Shapes(fields[1..]))
    ensures TotalWidth(Shapes(fields)) == Width(ShapeOf(fields[0])) + TotalWidth(Shapes(fields[1..]))
  {
    ShapesUnroll(fields);
    HeadAndTail(fields);
    hide Shapes, ShapeOf, Width, Representable, AllRepresentable, TotalWidth;
    FirstShape(Shapes(fields), ShapeOf(fields[0]), Shapes(fields[1..]));
  }

  lemma HeadAndTail<T>(s: seq<T>)
    requires |s| > 0
    ensures s == [s[0]] + s[1..]
  {
  }

  lemma ShapesUnroll(fields: seq<Field>)
    requires |fields| > 0
    ensures Shapes(fields) == [ShapeOf(fields[0])] + Shapes(fields[1..])
  {
    hide ShapeOf;
  }

  lemma FirstShape(shapes: seq<Shape>, s: Shape, rest: seq<Shape>)
    requires shapes == [s] + rest && AllRepresentable(shapes)
    ensures Representable(s) && AllRepresentable(rest) && TotalWidth(shapes) == Width(s) + TotalWidth(rest)
  {
    assert shapes[0] == s && shapes[1..] == rest;
    assert forall i :: 0 <= i < |rest| ==> rest[i] == shapes[i + 1];
  }

  /** Writes fields until one is refused; `done` of them were written. */
  method WriteFields(b: Buffer, fields: seq<Field>) returns (outcome: Outcome, done: nat)
    requires b.Valid() && AllRepresentable(Shapes(fields))
    modifies b`index, b.data
    ensures outcome != Fault ==> b.Valid() && WroteFields(b, outcome, done, fields, old(b.index), old(b.Memory()))
    ensures outcome == Ok <==> old(b.index) + TotalWidth(Shapes(fields)) <= b.size
    decreases |fields|
  {
    hide EncodeField, Encode, Shapes, TotalWidth, OutcomeFor, ShapeOf, Width;
    hide Representable, AllRepresentable, Put, WroteFields;
    done := 0;
    if |fields| == 0 {
      outcome := Ok;
      NoFields(fields);
      WroteNone(b, Ok, fields, b.Memory());
      return;
    }
    FirstField(fields);
    var f, rest := fields[0], fields[1..];
    OutcomeForExact(ShapeOf(f), b.index, b.size);
    ghost var at, memory := b.index, b.Memory();
    outcome := WriteField(b, f);
    if outcome == Fault {
      return;
    } else if outcome == OutOfRange {
      WroteNone(b, outcome, fields, memory);
      return;
    }
    outcome, done := WriteFields(b, rest);
    if outcome != Fault {
      WroteOneMore(b, outcome, done, f, rest, at, memory);
    }
    done := done + 1;
  }

  /** Reads fields of the given shapes until one is refused. */
  method ReadFields(b: Buffer, shapes: seq<Shape>) returns (outcome: Outcome, fields: seq<Field>)
    requires b.Valid() && AllRepresentable(shapes)
    modifies b`index
    ensures outcome != Fault ==> b.Valid()
    ensures outcome == Ok <==> old(b.index) + TotalWidth(shapes) <= b.size
    ensures outcome == Ok ==> b.index == old(b.index) + TotalWidth(shapes)
    ensures outcome == Ok ==> Shapes(fields) == shapes && Encode(fields) == b.Memory()[old(b.index)..b.index]
    decreases |shapes|
  {
    if |shapes| == 0 {
      return Ok, [];
    }
    FirstShape(shapes, shapes[0], shapes[1..]);
    hide EncodeField, Encode, Shapes, TotalWidth, OutcomeFor, ShapeOf, Width, Representable, AllRepresentable;
    var first, rest;
    OutcomeForExact(shapes[0], b.index, b.size);
    outcome, first := ReadField(b, shapes[0]);
    if outcome != Ok {
      return outcome, [];
    }
    ghost var middle := b.index;
    outcome, rest := ReadFields(b, shapes[1..]);
    fields := [first] + rest;
    PrependField(first, rest);
    if outcome == Ok {
      Join(b.Memory(), old(b.index), middle, b.index);
    }
  }

  lemma WroteAll(b: Buffer, done: nat, fields: seq<Field>, at: nat, memory: seq<byte>)
    requires b.Valid() && WroteFields(b, Ok, done, fields, at, memory)
    ensures b.index == at + |Encode(fields)| <= |memory|
    ensures b.Memory() == Put(memory, at, Encode(fields))
  {
    hide Put, Encode;
    assert fields[..done] == fields;
  }

  /** Write in some layout, go back, read in the same layout: the same fields,
      unless they do not all fit, which both directions notice. */
  method SchemaRoundTrip(b: Buffer, fields: seq<Field>) returns (outcome: Outcome, read: seq<Field>)
    requires b.Valid() && AllRepresentable(Shapes(fields))
    modifies b`index, b.data
    ensures outcome != Fault ==> b.Valid()
    ensures outcome == Ok <==> old(b.index) + TotalWidth(Shapes(fields)) <= b.size
    ensures outcome == Ok ==> read == fields && b.index == old(b.index) + TotalWidth(Shapes(fields))
    ensures outcome == Ok ==> b.Memory()[..old(b.index)] == old(b.Memory()[..b.index])
    ensures outcome == Ok ==> b.Memory()[b.index..] == old(b.Memory())[b.index..]
  {
    hide EncodeField, Encode, Shapes, TotalWidth, OutcomeFor, ShapeOf, Width;
    hide Representable, AllRepresentable, Put, WroteFields;
    var start := b.index;
    ghost var memory := b.Memory();
    var done;
    outcome, done := WriteFields(b, fields);
    if outcome != Ok {
      return outcome, [];
    }
    WroteAll(b, done, fields, start, memory);
    PutWindow(memory, start, Encode(fields));
    b.index := start;
    outcome, read := ReadFields(b, Shapes(fields));
    EncodeInjective(read, fields);
  }
}
