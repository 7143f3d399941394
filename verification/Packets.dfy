/** The six packet types of Packet.cpp and their two seals: a CRC that stands in
    the place of the protocol id, or an HMAC appended at the end. HMAC-SHA256 is
    not part of this model: it is any function to 32 bytes. */
module Packets {
  import opened Bits
  import opened Buffers
  import Crc
  import Crc32
  import Checksums
  import Words

  const HMAC_SIZE: int := 32
  const HEADER_SIZE: int := 5

  // PacketType is an enum over one byte; a received byte may be any value.
  const INVALID_PACKET: byte := 0
  const CONNECTION_REQUEST: byte := 1
  const CHALLENGE: byte := 2
  const CHALLENGE_RESPONSE: byte := 3
  const CONNECTION_ACCEPTED: byte := 4
  const CONNECTION_DATA: byte := 5
  const DISCONNECT: byte := 6

  type Mac = f: (seq<byte>, seq<byte>) -> seq<byte> | forall k, m :: |f(k, m)| == HMAC_SIZE
    witness (k, m) => seq(HMAC_SIZE, _ => 0)

  /** A public key is carried as its bytes; the key width is a compile-time
      constant of the cryptography library and any width works here. */
  datatype Packet =
    | ConnectionRequest(clientPublicKey: seq<byte>)
    | Challenge(serverPublicKey: seq<byte>)
    | ChallengeResponse
    | ConnectionAccepted(clientID: bv32)
    | ConnectionData(sequence: bv16, gameDataSize: bv32, gameData: seq<byte>)
    | Disconnect

  function Tag(p: Packet): byte {
    match p
    case ConnectionRequest(_) => CONNECTION_REQUEST
    case Challenge(_) => CHALLENGE
    case ChallengeResponse => CHALLENGE_RESPONSE
    case ConnectionAccepted(_) => CONNECTION_ACCEPTED
    case ConnectionData(_, _, _) => CONNECTION_DATA
    case Disconnect => DISCONNECT
  }

  /** What follows the header. */
  function Fields(p: Packet): seq<byte> {
    match p
    case ConnectionRequest(key) => key
    case Challenge(key) => key
    case ChallengeResponse => []
    case ConnectionAccepted(id) => BigEndian32(id)
    case ConnectionData(sequence, size, data) => BigEndian16(sequence) + BigEndian32(size) + data
    case Disconnect => []
  }

  /** A uint32_t used as a length. */
  function LengthOf(size: bv32): (n: nat)
    ensures n < UINT_MODULUS
  {
    size as int
  }

  /** gameDataSize is the number of bytes gameData points to. */
  predicate Counted(p: Packet) {
    p.ConnectionData? ==> LengthOf(p.gameDataSize) == |p.gameData|
  }

  /** A counted packet whose size, seal included, is a positive int. */
  predicate Representable(p: Packet) {
    match p
    case ConnectionRequest(key) => HEADER_SIZE + |key| <= INT_MAX
    case Challenge(key) => HEADER_SIZE + |key| <= INT_MAX
    case ConnectionData(_, _, data) => Counted(p) && HEADER_SIZE + 6 + |data| + HMAC_SIZE <= INT_MAX
    case _ => true
  }

  predicate CrcSealing(p: Packet) {
    p.ConnectionRequest? || p.Challenge?
  }

  // ---- The protocol id ----

  /** The ten little-endian words of "NetworkPluginV1.0.0" and its terminator. */
  const PROTOCOL_WORDS: seq<Words.uint16> :=
    [0x654E, 0x7774, 0x726F, 0x506B, 0x756C, 0x6967, 0x566E, 0x2E31, 0x2E30, 0x0030]

  const PROTOCOL_ID: bv32 := 0xFEFF_3171

  /** PROTOCOL_ID is the Fletcher-32 checksum of that name. */
  lemma ProtocolIdIsFletcher()
    ensures Checksums.FletcherOf(PROTOCOL_WORDS) == PROTOCOL_ID as int
  {
    hide Checksums.Sum, Checksums.Weighted;
    var w10 := NoWords();
    var w9 := Cons(0x0030, w10);
    var w8 := Cons(0x2E30, w9);
    var w7 := Cons(0x2E31, w8);
    var w6 := Cons(0x566E, w7);
    var w5 := Cons(0x6967, w6);
    var w4 := Cons(0x756C, w5);
    var w3 := Cons(0x506B, w4);
    var w2 := Cons(0x726F, w3);
    var w1 := Cons(0x7774, w2);
    var w0 := Cons(0x654E, w1);
    assert w0 == PROTOCOL_WORDS;
  }

  lemma NoWords() returns (words: seq<Words.uint16>)
    ensures words == [] && Checksums.Sum(words) == 0 && Checksums.Weighted(words) == 0
  {
    words := [];
  }

  lemma Cons(word: Words.uint16, rest: seq<Words.uint16>) returns (words: seq<Words.uint16>)
    ensures words == [word] + rest
    ensures Checksums.Sum(words) == word as int + Checksums.Sum(rest)
    ensures Checksums.Weighted(words) == |words| * word as int + Checksums.Weighted(rest)
  {
    words := [word] + rest;
    assert words[1..] == rest;
  }

  // ---- The two seals as byte strings ----

  function Plain(id: bv32, tag: byte, body: seq<byte>): seq<byte> {
    BigEndian32(id) + [tag] + body
  }

  function CrcSealed(id: bv32, tag: byte, body: seq<byte>): seq<byte> {
    BigEndian32(Crc.Checksum(Plain(id, tag, body))) + [tag] + body
  }

  function HmacSealed(mac: Mac, key: seq<byte>, id: bv32, tag: byte, body: seq<byte>): seq<byte> {
    Plain(id, tag, body) + mac(key, Plain(id, tag, body))
  }

  function Sealed(mac: Mac, key: seq<byte>, id: bv32, p: Packet): seq<byte>
    requires Representable(p)
  {
    if CrcSealing(p) then CrcSealed(id, Tag(p), Fields(p)) else HmacSealed(mac, key, id, Tag(p), Fields(p))
  }

  // ---- What the two checks decide ----

  datatype Verdict = Type(tag: byte) | Threw

  function CrcVerdict(received: seq<byte>, id: bv32): Verdict {
    if |received| == 0 then Type(INVALID_PACKET)
    else if |received| < 4 then Threw
    else if Crc.Checksum(BigEndian32(id) + received[4..]) != FromBigEndian32(received[..4]) then Type(INVALID_PACKET)
    else if |received| == 4 then Threw
    else Type(received[4])
  }

  function HmacVerdict(mac: Mac, key: seq<byte>, received: seq<byte>, id: bv32): byte {
    var n := |received| - HMAC_SIZE;
    if n <= 0 || mac(key, received[..n]) != received[n..] then INVALID_PACKET
    else if FromBigEndian32(received[..4]) != id then INVALID_PACKET
    else received[4]
  }

  lemma CrcSealedVerdict(id: bv32, tag: byte, body: seq<byte>, other: bv32)
    ensures CrcVerdict(CrcSealed(id, tag, body), other)
         == if Crc.Checksum(Plain(other, tag, body)) == Crc.Checksum(Plain(id, tag, body)) then Type(tag)
            else Type(INVALID_PACKET)
  {
    hide Crc.Checksum, BigEndian32, FromBigEndian32;
    var sealed := CrcSealed(id, tag, body);
    RoundTrip32(Crc.Checksum(Plain(id, tag, body)), []);
    assert sealed[..4] == BigEndian32(Crc.Checksum(Plain(id, tag, body)));
    assert BigEndian32(other) + sealed[4..] == Plain(other, tag, body);
  }

  // ---- Exactly what the two checks accept ----

  /** Some bytes followed by their HMAC under the key, beginning with id and type. */
  ghost predicate Genuine(mac: Mac, key: seq<byte>, received: seq<byte>, id: bv32, tag: byte) {
    exists m :: |m| > 0 && received == m + mac(key, m) && received[..5] == BigEndian32(id) + [tag]
  }

  lemma HeadIs(received: seq<byte>, id: bv32, tag: byte)
    requires |received| >= 5
    ensures received[..5] == BigEndian32(id) + [tag] <==>
      FromBigEndian32(received[..4]) == id && received[4] == tag
  {
    hide BigEndian32, FromBigEndian32;
    RoundTrip32(id, received[..4]);
    assert received[..5] == received[..4] + [received[4]];
    assert (BigEndian32(id) + [tag])[..4] == BigEndian32(id) && (BigEndian32(id) + [tag])[4] == tag;
  }

  /** The HMAC check accepts genuine datagrams and no others, of whatever size. */
  lemma HmacAcceptsGenuine(mac: Mac, key: seq<byte>, received: seq<byte>, id: bv32, tag: byte)
    requires tag != INVALID_PACKET
    ensures HmacVerdict(mac, key, received, id) == tag <==> Genuine(mac, key, received, id, tag)
  {
    hide BigEndian32, FromBigEndian32;
    var n := |received| - HMAC_SIZE;
    if n > 0 {
      HeadIs(received, id, tag);
      var m := received[..n];
      assert received == m + received[n..];
      if Genuine(mac, key, received, id, tag) {
        var g :| |g| > 0 && received == g + mac(key, g) && received[..5] == BigEndian32(id) + [tag];
        assert received[..n] == g && received[n..] == mac(key, g);
      }
    }
  }

  /** On datagrams large enough for a header: what is accepted with a type is
      what sealing that type over the bytes behind the header produces. */
  lemma HmacAcceptsSealed(mac: Mac, key: seq<byte>, received: seq<byte>, id: bv32, tag: byte)
    requires tag != INVALID_PACKET && |received| >= HEADER_SIZE + HMAC_SIZE
    ensures HmacVerdict(mac, key, received, id) == tag <==>
      received == HmacSealed(mac, key, id, tag, received[HEADER_SIZE..|received| - HMAC_SIZE])
  {
    hide BigEndian32, FromBigEndian32, HmacVerdict;
    HmacAcceptsGenuine(mac, key, received, id, tag);
    var n := |received| - HMAC_SIZE;
    var body := received[HEADER_SIZE..n];
    var plain := Plain(id, tag, body);
    if Genuine(mac, key, received, id, tag) {
      var m :| |m| > 0 && received == m + mac(key, m) && received[..5] == BigEndian32(id) + [tag];
      assert m == received[..n] == received[..5] + body;
    } else {
      assert (plain + mac(key, plain))[..5] == BigEndian32(id) + [tag];
    }
  }

  /** An HMAC packet sealed under protocol id P passes a check under Q exactly when P == Q. */
  lemma HmacSeparation(mac: Mac, key: seq<byte>, id: bv32, other: bv32, tag: byte, body: seq<byte>)
    ensures HmacVerdict(mac, key, HmacSealed(mac, key, id, tag, body), other)
         == if id == other then tag else INVALID_PACKET
  {
    hide BigEndian32, FromBigEndian32;
    var plain := Plain(id, tag, body);
    var sealed := HmacSealed(mac, key, id, tag, body);
    RoundTrip32(id, []);
    assert sealed[..|plain|] == plain && sealed[|plain|..] == mac(key, plain);
    assert sealed[..4] == BigEndian32(id);
  }

  /** The CRC check accepts with a type exactly what sealing that type produces. */
  lemma CrcAcceptsSealed(received: seq<byte>, id: bv32, tag: byte)
    requires tag != INVALID_PACKET
    ensures CrcVerdict(received, id) == Type(tag) <==>
      |received| >= HEADER_SIZE && received == CrcSealed(id, tag, received[HEADER_SIZE..])
  {
    hide Crc.Checksum, BigEndian32, FromBigEndian32;
    if |received| >= HEADER_SIZE {
      var body := received[HEADER_SIZE..];
      assert received == received[..4] + [received[4]] + body;
      assert received[4..] == [received[4]] + body;
      assert BigEndian32(id) + received[4..] == Plain(id, received[4], body);
      var crc := Crc.Checksum(Plain(id, tag, body));
      RoundTrip32(crc, received[..4]);
      assert CrcSealed(id, tag, body)[..4] == BigEndian32(crc) && CrcSealed(id, tag, body)[4] == tag;
    }
  }

  /** It throws exactly on one to three bytes, and on four that are the checksum of the id. */
  lemma CrcThrows(received: seq<byte>, id: bv32)
    ensures CrcVerdict(received, id) == Threw <==>
      0 < |received| < 4 || received == BigEndian32(Crc.Checksum(BigEndian32(id)))
  {
    hide Crc.Checksum, BigEndian32, FromBigEndian32;
    if |received| == 4 {
      assert received[..4] == received && BigEndian32(id) + received[4..] == BigEndian32(id);
      RoundTrip32(Crc.Checksum(BigEndian32(id)), received);
    }
  }

  /** The bytes of each packet type, written out: the sizes and type values of
      Packet.h and where every field stands. */
  lemma PacketLayout(mac: Mac, key: seq<byte>, id: bv32, p: Packet)
    requires Representable(p)
    ensures var s := Sealed(mac, key, id, p);
      var n := |s| - HMAC_SIZE;
      match p
      case ConnectionRequest(k) => |s| == 5 + |k| && s[4..] == [1] + k
      case Challenge(k) => |s| == 5 + |k| && s[4..] == [2] + k
      case ChallengeResponse => |s| == 37 && s[..n] == BigEndian32(id) + [3]
      case ConnectionAccepted(c) => |s| == 41 && s[..n] == BigEndian32(id) + [4] + BigEndian32(c)
      case ConnectionData(q, size, data) => |s| == 43 + |data|
        && s[..n] == BigEndian32(id) + [5] + BigEndian16(q) + BigEndian32(size) + data
      case Disconnect => |s| == 37 && s[..n] == BigEndian32(id) + [6]
    ensures var s := Sealed(mac, key, id, p);
      var n := |s| - HMAC_SIZE;
      if p.ConnectionRequest? || p.Challenge? then s[..4] == BigEndian32(Crc.Checksum(BigEndian32(id) + s[4..]))
      else s[n..] == mac(key, s[..n])
  {
    hide Crc.Checksum, BigEndian16, BigEndian32;
    var s, plain := Sealed(mac, key, id, p), Plain(id, Tag(p), Fields(p));
    if CrcSealing(p) {
      assert s[4..] == [Tag(p)] + Fields(p);
      assert BigEndian32(id) + s[4..] == plain;
    } else {
      assert s[..|plain|] == plain && s[|plain|..] == mac(key, plain);
      if p.ConnectionData? {
        Reassociate(BigEndian32(id) + [5], BigEndian16(p.sequence) + BigEndian32(p.gameDataSize), p.gameData);
        Reassociate(BigEndian32(id) + [5], BigEndian16(p.sequence), BigEndian32(p.gameDataSize));
      } else if !p.ConnectionAccepted? {
        assert plain == BigEndian32(id) + [Tag(p)];
      }
    }
  }

  // ---- Detection ----

  lemma PrefixDiffers(id: bv32, other: bv32)
    requires id != other
    ensures BigEndian32(id) != BigEndian32(other)
  {
    RoundTrip32(id, []);
    RoundTrip32(other, []);
  }

  /** The difference of two strings that share a prefix or a suffix. */
  lemma DifferenceAround(u: seq<byte>, v: seq<byte>, x: seq<byte>, y: seq<byte>)
    requires |u| == |v| && |x| == |y|
    ensures Crc.Difference(BitsOf(u + x), BitsOf(v + y))
         == Crc.Difference(BitsOf(u), BitsOf(v)) + Crc.Difference(BitsOf(x), BitsOf(y))
  {
    BitsOfAppend(u, x);
    BitsOfAppend(v, y);
    Crc.DifferenceAppend(BitsOf(u), BitsOf(v), BitsOf(x), BitsOf(y));
  }

  /** A shared prefix contributes no difference, whichever prefix it is. */
  lemma PrefixIsImmaterial(u: seq<byte>, v: seq<byte>, x: seq<byte>, y: seq<byte>)
    requires |u| == |v| && |x| == |y|
    ensures Crc.Difference(BitsOf(u + x), BitsOf(u + y)) == Crc.Difference(BitsOf(v + x), BitsOf(v + y))
  {
    DifferenceAround(u, u, x, y);
    DifferenceAround(v, v, x, y);
    Crc.DifferenceOfEqual(BitsOf(u));
    Crc.DifferenceOfEqual(BitsOf(v));
  }

  /** A CRC packet sealed under protocol id P passes a check under Q exactly when P == Q. */
  lemma ProtocolSeparation(id: bv32, other: bv32, tag: byte, body: seq<byte>)
    ensures CrcVerdict(CrcSealed(id, tag, body), other) == if id == other then Type(tag) else Type(INVALID_PACKET)
  {
    hide Crc.Checksum, BigEndian32, CrcVerdict, BitsOf, Crc.Difference;
    CrcSealedVerdict(id, tag, body, other);
    if id != other {
      var u, v, rest := BigEndian32(id), BigEndian32(other), [tag] + body;
      assert Plain(id, tag, body) == u + rest && Plain(other, tag, body) == v + rest;
      PrefixDiffers(id, other);
      DifferenceAround(u, v, rest, rest);
      Crc.DifferenceOfEqual(BitsOf(rest));
      assert (u + rest)[..4] == u && (v + rest)[..4] == v;
      Crc.BurstChangesChecksum(u + rest, v + rest, 0);
    }
  }

  /** Any nonzero change after the first four bytes that stays within 32
      consecutive bits is rejected, whatever the packet's length. */
  lemma BurstIsRejected(id: bv32, tag: byte, body: seq<byte>, received: seq<byte>, start: nat)
    requires var sealed := CrcSealed(id, tag, body);
      && |received| == |sealed| && received[..4] == sealed[..4] && received != sealed
      && Crc.ConfinedTo(Crc.Difference(BitsOf(sealed), BitsOf(received)), start, 32)
    ensures CrcVerdict(received, id) == Type(INVALID_PACKET)
  {
    hide Crc.Checksum, BigEndian32, FromBigEndian32, BitsOf, Crc.Difference, Crc.ConfinedTo;
    var sealed := CrcSealed(id, tag, body);
    var prefix, head, x, y := BigEndian32(id), sealed[..4], sealed[4..], received[4..];
    assert sealed == head + x && received == head + y;
    PrefixIsImmaterial(prefix, head, x, y);
    assert x == (prefix + x)[4..] && y == (prefix + y)[4..];
    Crc.BurstChangesChecksum(prefix + x, prefix + y, start);
    assert prefix + x == Plain(id, tag, body);
    assert head == BigEndian32(Crc.Checksum(Plain(id, tag, body)));
    RoundTrip32(Crc.Checksum(prefix + x), []);
  }

  // ---- Writing ----

  /** The Write methods of Packet.cpp, lines 59-178. Init refuses a buffer that
      is already in use. */
  method Write(p: Packet, b: Buffer, id: bv32, key: seq<byte>, mac: Mac, engine: Crc32.Engine) returns (written: bool)
    requires b.Valid() && engine.Valid() && Representable(p)
    modifies b, engine, engine.table
    ensures b.Valid() && engine.Valid()
    ensures written == (old(b.data) == null)
    ensures !written ==> b.data == old(b.data) && b.index == old(b.index) && b.size == old(b.size)
    ensures written ==> b.Memory() == Sealed(mac, key, id, p) && b.size == |b.Memory()|
  {
    if b.data != null {
      return false;
    }
    if CrcSealing(p) {
      written := WriteCrcSealed(b, id, Tag(p), if p.Challenge? then p.serverPublicKey else p.clientPublicKey, engine);
    } else {
      written := WriteHmacSealed(b, id, p, key, mac);
    }
  }

  /** Every packet starts with the protocol id and its type. */
  method WriteHeader(b: Buffer, id: bv32, tag: byte)
    requires b.Valid() && b.index == 0 && HEADER_SIZE <= b.size
    modifies b`index, b.data
    ensures b.Valid() && b.index == HEADER_SIZE
    ensures b.Memory() == Put(old(b.Memory()), 0, BigEndian32(id) + [tag])
  {
    hide BigEndian32, Put, ScalarOutcome, BlockOutcome;
    ghost var memory := b.Memory();
    Allowed(0, 4, b.size);
    var o1 := b.WriteInteger(id);
    Allowed(4, 1, b.size);
    var o2 := b.WriteByte(tag);
    PutTwice(memory, 0, BigEndian32(id), [tag]);
  }

  /** Lines 59-71 and 80-92, which differ in the tag. */
  method WriteCrcSealed(b: Buffer, id: bv32, tag: byte, publicKey: seq<byte>, engine: Crc32.Engine)
    returns (written: bool)
    requires b.Valid() && b.data == null && engine.Valid() && HEADER_SIZE + |publicKey| <= INT_MAX
    modifies b, engine, engine.table
    ensures b.Valid() && engine.Valid() && written
    ensures b.Memory() == CrcSealed(id, tag, publicKey) && b.size == |b.Memory()|
  {
    hide BigEndian32, Crc.Checksum, Put, ScalarOutcome, BlockOutcome;
    engine.InitTable();
    written := b.Init(HEADER_SIZE + |publicKey|);
    ghost var memory := b.Memory();
    WriteHeader(b, id, tag);
    Allowed(HEADER_SIZE, |publicKey|, b.size);
    var o1 := b.WriteBuffer(publicKey);
    PutTwice(memory, 0, BigEndian32(id) + [tag], publicKey);
    PutAll(memory, Plain(id, tag, publicKey));
    var crc := engine.GetCRCTableBased(b.data[..]);
    b.index := 0;
    Allowed(0, 4, b.size);
    var o2 := b.WriteInteger(crc);
    assert Plain(id, tag, publicKey) == BigEndian32(id) + ([tag] + publicKey);
    PutHead(BigEndian32(id), BigEndian32(crc), [tag] + publicKey);
    assert BigEndian32(crc) + ([tag] + publicKey) == BigEndian32(crc) + [tag] + publicKey;
  }

  /** Lines 146-148. */
  method WriteDataFields(b: Buffer, sequence: bv16, size: bv32, data: seq<byte>)
    requires b.Valid() && |data| < UINT_MODULUS && b.index + 6 + |data| <= b.size
    modifies b`index, b.data
    ensures b.Valid() && b.index == old(b.index) + 6 + |data|
    ensures b.Memory() == Put(old(b.Memory()), old(b.index), BigEndian16(sequence) + BigEndian32(size) + data)
  {
    hide BigEndian16, BigEndian32, Put, ScalarOutcome, BlockOutcome;
    ghost var memory, at := b.Memory(), b.index;
    Allowed(at, 2, b.size);
    var o1 := b.WriteShort(sequence);
    Allowed(at + 2, 4, b.size);
    var o2 := b.WriteInteger(size);
    PutTwice(memory, at, BigEndian16(sequence), BigEndian32(size));
    Allowed(at + 6, |data|, b.size);
    var o3 := b.WriteBuffer(data);
    PutTwice(memory, at, BigEndian16(sequence) + BigEndian32(size), data);
  }

  /** The fields between the tag and the seal. */
  method WriteBody(b: Buffer, p: Packet)
    requires b.Valid() && Representable(p) && !CrcSealing(p) && b.index + |Fields(p)| <= b.size
    modifies b`index, b.data
    ensures b.Valid() && b.index == old(b.index) + |Fields(p)|
    ensures b.Memory() == Put(old(b.Memory()), old(b.index), Fields(p))
  {
    hide BigEndian16, BigEndian32, Put, ScalarOutcome, BlockOutcome;
    if p.ConnectionAccepted? {
      Allowed(b.index, 4, b.size);
      var o := b.WriteInteger(p.clientID);
    } else if p.ConnectionData? {
      WriteDataFields(b, p.sequence, p.gameDataSize, p.gameData);
    } else {
      PutNothing(b.Memory(), b.index);
    }
  }

  lemma SealedSizeFits(p: Packet)
    requires Representable(p) && !CrcSealing(p)
    ensures HEADER_SIZE + |Fields(p)| + HMAC_SIZE <= INT_MAX
  {
  }

  /** Lines 101-109, 121-130, 141-152 and 170-178, which differ in the fields
      between the tag and the seal. */
  method WriteHmacSealed(b: Buffer, id: bv32, p: Packet, key: seq<byte>, mac: Mac) returns (written: bool)
    requires b.Valid() && b.data == null && Representable(p) && !CrcSealing(p)
    modifies b
    ensures b.Valid() && written
    ensures b.Memory() == HmacSealed(mac, key, id, Tag(p), Fields(p)) && b.size == |b.Memory()|
  {
    SealedSizeFits(p);
    hide BigEndian32, Tag, Fields, Put, ScalarOutcome, BlockOutcome;
    ghost var tag, body := Tag(p), Fields(p);
    var length := HEADER_SIZE + |Fields(p)|;
    written := b.Init(length + HMAC_SIZE);
    ghost var memory := b.Memory();
    WriteHeader(b, id, Tag(p));
    WriteBody(b, p);
    PutTwice(memory, 0, BigEndian32(id) + [tag], body);
    AppendSeal(b, Plain(id, tag, body), memory, key, mac);
  }

  /** The HMAC of what has been written goes behind it and fills the buffer. */
  method AppendSeal(b: Buffer, ghost plain: seq<byte>, ghost memory: seq<byte>, key: seq<byte>, mac: Mac)
    requires b.Valid() && b.data != null && b.index == |plain|
    requires b.size == |b.Memory()| == |memory| == |plain| + HMAC_SIZE
    requires b.Memory() == Put(memory, 0, plain)
    modifies b`index, b.data
    ensures b.Valid() && b.Memory() == plain + mac(key, plain)
  {
    hide Put, ScalarOutcome, BlockOutcome;
    PutPrefix(memory, plain);
    assert b.data[..b.index] == b.Memory()[..b.index];
    var hmac := mac(key, b.data[..b.index]);
    Allowed(b.index, HMAC_SIZE, b.size);
    var o := b.WriteBuffer(hmac);
    PutTwice(memory, 0, plain, hmac);
    PutAll(memory, plain + hmac);
  }

  // ---- Checking ----

  /** A receive buffer as Socket::Receive leaves it: after a failure the size is -1. */
  ghost predicate Filled(b: Buffer)
    reads b
  {
    b.index == 0 && (b.Valid() || b.size == -1)
  }

  /** The bytes received: the first `size` of the block, none after a failure. */
  ghost function Received(b: Buffer): seq<byte>
    requires b.Valid() || b.size == -1
    reads b, b.data
  {
    if b.size < 0 then [] else b.Memory()[..b.size]
  }

  /** The next n bytes of the datagram, copied into a block of their own. */
  method ReadPart(b: Buffer, n: nat) returns (part: seq<byte>)
    requires b.Valid() && b.index + n <= b.size
    modifies b`index
    ensures b.Valid() && b.index == old(b.index) + n
    ensures part == Received(b)[old(b.index)..b.index]
  {
    hide BlockOutcome;
    var block := new byte[n];
    Allowed(b.index, n, b.size);
    SliceOfRest(b.Memory(), b.size, b.index, b.index + n);
    ghost var left := block[n..];
    var o := b.ReadBuffer(block, n);
    AddNothing(b.Memory()[b.index - n..b.index], left);
    part := block[..];
  }

  lemma AddNothing<T>(s: seq<T>, nothing: seq<T>)
    requires |nothing| == 0
    ensures s + nothing == s
  {
  }

  /** A word stored over the first four bytes of a datagram. */
  lemma HeadReplaced(memory: seq<byte>, size: nat, head: seq<byte>)
    requires |head| == 4 <= size <= |memory|
    ensures var now := Put(memory, 0, head)[..size];
      && now == head + memory[..size][4..] && now[4..] == memory[..size][4..]
      && (size > 4 ==> Put(memory, 0, head)[4] == memory[..size][4])
  {
    hide Put;
    var stored := Put(memory, 0, head);
    PutWindow(memory, 0, head);
    Join(stored, 0, 4, size);
    SliceOfRest(stored, size, 4, size);
    SliceOfRest(memory, size, 4, size);
    TakeOfDrop(stored, 4, size);
    TakeOfDrop(memory, 4, size);
    if size > 4 {
      assert stored[4] == stored[4..][0] && memory[4] == memory[4..][0];
    }
  }

  lemma TakeOfDrop<T>(s: seq<T>, i: nat, j: nat)
    requires i <= j <= |s|
    ensures s[i..][..j - i] == s[i..j]
  {
    var u, v := s[i..][..j - i], s[i..j];
    forall k | 0 <= k < j - i
      ensures u[k] == v[k]
    {
      assert u[k] == s[i..][k] == s[i + k];
    }
  }

  lemma VerdictIsGenuine(mac: Mac, key: seq<byte>, received: seq<byte>, id: bv32)
    ensures forall t :: t != INVALID_PACKET ==>
      (HmacVerdict(mac, key, received, id) == t <==> Genuine(mac, key, received, id, t))
  {
    forall t: byte | t != INVALID_PACKET
      ensures HmacVerdict(mac, key, received, id) == t <==> Genuine(mac, key, received, id, t)
    {
      HmacAcceptsGenuine(mac, key, received, id, t);
    }
  }

  /** Lines 11-36. Every read it makes is inside the datagram. */
  method VerifyPacketHMAC(key: seq<byte>, b: Buffer, id: bv32, mac: Mac) returns (tag: byte)
    requires Filled(b)
    modifies b`index
    ensures b.Valid() <==> b.size >= 0
    ensures tag == HmacVerdict(mac, key, Received(b), id)
    ensures forall t :: t != INVALID_PACKET ==> (tag == t <==> Genuine(mac, key, Received(b), id, t))
    ensures tag != INVALID_PACKET ==> b.Valid() && b.index == HEADER_SIZE
  {
    VerdictIsGenuine(mac, key, Received(b), id);
    hide FromBigEndian32, ScalarOutcome, BlockOutcome, Genuine;
    if b.size <= HMAC_SIZE {
      return INVALID_PACKET;
    }
    var n := b.size - HMAC_SIZE;
    var message := ReadPart(b, n);
    var newHMAC := mac(key, message);
    var hmac := ReadPart(b, HMAC_SIZE);
    b.index := 0;
    assert Received(b)[0..n] == Received(b)[..n] && Received(b)[n..b.size] == Received(b)[n..];
    if newHMAC != hmac {
      return INVALID_PACKET;
    }
    Allowed(0, 4, b.size);
    SliceOfRest(b.Memory(), b.size, 0, 4);
    var o3, receivedId := b.ReadInteger();
    if receivedId != id {
      return INVALID_PACKET;
    }
    Allowed(4, 1, b.size);
    var o4;
    o4, tag := b.ReadByte();
  }

  /** Lines 38-55: the protocol id is put back where the checksum stood. */
  method VerifyPacketCRC(b: Buffer, id: bv32, engine: Crc32.Engine) returns (verdict: Verdict)
    requires Filled(b) && engine.Valid()
    modifies b`index, b.data, engine, engine.table
    ensures engine.Valid() && (b.Valid() <==> b.size >= 0)
    ensures verdict == CrcVerdict(old(Received(b)), id)
    ensures verdict.Type? && verdict.tag != INVALID_PACKET ==> b.Valid() && b.index == HEADER_SIZE
    ensures b.size >= 4 ==> Received(b)[4..] == old(Received(b))[4..]
  {
    hide BigEndian32, FromBigEndian32, Put, Crc.Checksum;
    if b.size <= 0 {
      return Type(INVALID_PACKET);
    }
    ghost var memory := b.Memory();
    engine.InitTable();
    var o1, crc := b.ReadInteger();
    if o1 != Ok {
      return Threw;
    }
    SliceOfRest(memory, b.size, 0, 4);
    b.index := 0;
    HeadReplaced(memory, b.size, BigEndian32(id));
    var o2 := b.WriteInteger(id);
    assert b.data[..b.size] == Received(b);
    var newCrc := engine.GetCRCTableBased(b.data[..b.size]);
    if crc != newCrc {
      return Type(INVALID_PACKET);
    }
    var o3, tag := b.ReadByte();
    if o3 != Ok {
      return Threw;
    }
    verdict := Type(tag);
  }

  // ---- Reading ----

  /** Reading a packet of this type succeeds on these remaining bytes. */
  predicate Readable(tag: byte, rest: seq<byte>, keySize: nat) {
    if tag == CONNECTION_REQUEST || tag == CHALLENGE then keySize <= |rest|
    else if tag == CONNECTION_ACCEPTED then 4 <= |rest|
    else if tag == CONNECTION_DATA then 6 <= |rest| && 6 + LengthOf(FromBigEndian32(rest[2..6])) <= |rest|
    else true
  }

  /** Lines 73-76, 94-97, 111-114, 133-137, 154-161 and 180-183. */
  method Read(tag: byte, b: Buffer, keySize: nat) returns (outcome: Outcome, p: Packet)
    requires b.Valid() && CONNECTION_REQUEST <= tag <= DISCONNECT && keySize < UINT_MODULUS
    modifies b`index
    ensures outcome == Ok <==> Readable(tag, old(Received(b)[b.index..]), keySize)
    ensures outcome != Fault ==> b.Valid() && old(b.index) <= b.index
    ensures outcome == Ok ==> Tag(p) == tag && b.Memory()[old(b.index)..b.index] == Fields(p) && Counted(p)
    ensures outcome == Ok && CrcSealing(p) ==> |Fields(p)| == keySize
  {
    hide BigEndian16, BigEndian32, FromBigEndian32, ScalarOutcome, BlockOutcome, LengthOf;
    ghost var at := b.index;
    ChecksAreExact(at, 4, keySize, b.size);
    if tag == CONNECTION_REQUEST || tag == CHALLENGE {
      var publicKey := new byte[keySize];
      outcome := b.ReadBuffer(publicKey, keySize);
      p := if tag == CHALLENGE then Challenge(publicKey[..]) else ConnectionRequest(publicKey[..]);
    } else if tag == CONNECTION_ACCEPTED {
      var clientID;
      outcome, clientID := b.ReadInteger();
      p := ConnectionAccepted(clientID);
      if outcome == Ok {
        RoundTrip32(0, b.Memory()[at..b.index]);
      }
    } else if tag == CONNECTION_DATA {
      outcome, p := ReadData(b);
    } else {
      outcome := Ok;
      p := if tag == DISCONNECT then Disconnect else ChallengeResponse;
    }
  }

  /** Lines 156 and 158. */
  method ReadDataHeader(b: Buffer) returns (outcome: Outcome, sequence: bv16, gameDataSize: bv32)
    requires b.Valid()
    modifies b`index
    ensures outcome == Ok <==> old(b.index) + 6 <= b.size
    ensures outcome != Fault ==> b.Valid() && old(b.index) <= b.index
    ensures outcome == Ok ==> b.index == old(b.index) + 6
    ensures outcome == Ok ==> b.Memory()[old(b.index)..b.index] == BigEndian16(sequence) + BigEndian32(gameDataSize)
    ensures outcome == Ok ==> gameDataSize == FromBigEndian32(Received(b)[old(b.index)..][2..6])
  {
    hide BigEndian16, BigEndian32, FromBigEndian16, FromBigEndian32, ScalarOutcome;
    ghost var at := b.index;
    ChecksAreExact(at, 2, 0, b.size);
    gameDataSize := 0;
    outcome, sequence := b.ReadShort();
    if outcome != Ok {
      return;
    }
    ChecksAreExact(at + 2, 4, 0, b.size);
    outcome, gameDataSize := b.ReadInteger();
    if outcome == Ok {
      var memory := b.Memory();
      RoundTrip16(0, memory[at..at + 2]);
      RoundTrip32(0, memory[at + 2..at + 6]);
      Join(memory, at, at + 2, at + 6);
      SliceOfTail(memory, b.size, at, 2, 6);
    }
  }

  lemma SliceOfTail<T>(memory: seq<T>, size: nat, at: nat, i: nat, j: nat)
    requires i <= j && at + j <= size <= |memory|
    ensures memory[..size][at..][i..j] == memory[at + i..at + j]
  {
    SliceOfRest(memory, size, at + i, at + j);
    SliceOfDrop(memory[..size], at, i, j);
  }

  lemma SliceOfDrop<T>(s: seq<T>, at: nat, i: nat, j: nat)
    requires i <= j && at + j <= |s|
    ensures s[at..][i..j] == s[at + i..at + j]
  {
    var u, v := s[at..][i..j], s[at + i..at + j];
    forall k | 0 <= k < j - i
      ensures u[k] == v[k]
    {
      assert u[k] == s[at..][i + k] == s[at + i + k];
    }
  }

  /** Lines 154-161. */
  method ReadData(b: Buffer) returns (outcome: Outcome, p: Packet)
    requires b.Valid()
    modifies b`index
    ensures outcome == Ok <==> Readable(CONNECTION_DATA, old(Received(b)[b.index..]), 0)
    ensures outcome != Fault ==> b.Valid() && old(b.index) <= b.index
    ensures outcome == Ok ==> p.ConnectionData? && b.Memory()[old(b.index)..b.index] == Fields(p) && Counted(p)
  {
    hide BigEndian16, BigEndian32, FromBigEndian32, BlockOutcome, LengthOf;
    ghost var at := b.index;
    p := Disconnect;
    var sequence, gameDataSize;
    outcome, sequence, gameDataSize := ReadDataHeader(b);
    if outcome != Ok {
      return;
    }
    var n := LengthOf(gameDataSize);
    var gameData := new byte[n];
    ChecksAreExact(b.index, 1, n, b.size);
    outcome := b.ReadBuffer(gameData, n);
    if outcome == Ok {
      p := ConnectionData(sequence, gameDataSize, gameData[..]);
      Join(b.Memory(), at, at + 6, b.index);
    }
  }

  // ---- Round trips ----

  /** The type, the key width and the bytes where the fields start determine a packet. */
  lemma FieldsDeterminePacket(p: Packet, q: Packet, rest: seq<byte>)
    requires Tag(p) == Tag(q) && Counted(p) && Counted(q)
    requires CrcSealing(p) ==> |Fields(p)| == |Fields(q)|
    requires |Fields(p)| <= |rest| && rest[..|Fields(p)|] == Fields(p)
    requires |Fields(q)| <= |rest| && rest[..|Fields(q)|] == Fields(q)
    ensures p == q
  {
    hide BigEndian16, BigEndian32, LengthOf;
    match p
    case ConnectionAccepted(id) =>
      RoundTrip32(id, []);
      RoundTrip32(q.clientID, []);
    case ConnectionData(sequence, size, data) =>
      DataLayout(sequence, size, data, rest);
      DataLayout(q.sequence, q.gameDataSize, q.gameData, rest);
      RoundTrip16(sequence, []);
      RoundTrip16(q.sequence, []);
      RoundTrip32(size, []);
      RoundTrip32(q.gameDataSize, []);
    case _ =>
  }

  lemma DataLayout(sequence: bv16, size: bv32, data: seq<byte>, rest: seq<byte>)
    requires var fields := BigEndian16(sequence) + BigEndian32(size) + data;
      |fields| <= |rest| && rest[..|fields|] == fields
    ensures rest[0..2] == BigEndian16(sequence) && rest[2..6] == BigEndian32(size)
    ensures rest[6..6 + |data|] == data
  {
    hide BigEndian16, BigEndian32;
    var fields := BigEndian16(sequence) + BigEndian32(size) + data;
    SliceOfRest(rest, |fields|, 0, 2);
    SliceOfRest(rest, |fields|, 2, 6);
    SliceOfRest(rest, |fields|, 6, |fields|);
    Concatenated(BigEndian16(sequence), BigEndian32(size), data);
  }

  lemma Concatenated<T>(u: seq<T>, v: seq<T>, w: seq<T>)
    ensures (u + v + w)[0..|u|] == u
    ensures (u + v + w)[|u|..|u| + |v|] == v
    ensures (u + v + w)[|u| + |v|..|u + v + w|] == w
  {
  }

  function KeySize(p: Packet): nat {
    if CrcSealing(p) then |Fields(p)| else 0
  }

  lemma SealedIsReadable(p: Packet, rest: seq<byte>)
    requires Representable(p) && |rest| >= |Fields(p)| && rest[..|Fields(p)|] == Fields(p)
    ensures Readable(Tag(p), rest, KeySize(p))
  {
    if p.ConnectionData? {
      hide BigEndian16, BigEndian32, FromBigEndian32;
      RoundTrip32(p.gameDataSize, []);
      assert rest[2..6] == Fields(p)[2..6] == BigEndian32(p.gameDataSize);
    }
  }

  lemma SealedLayout(mac: Mac, key: seq<byte>, id: bv32, p: Packet)
    requires Representable(p)
    ensures var sealed, n := Sealed(mac, key, id, p), |Fields(p)|;
      && HEADER_SIZE + n <= |sealed| <= INT_MAX
      && sealed[HEADER_SIZE..HEADER_SIZE + n] == Fields(p)
  {
    hide BigEndian32, Fields, Crc.Checksum;
    if CrcSealing(p) {
      CrcSealedSizeFits(p);
    } else {
      SealedSizeFits(p);
    }
  }

  lemma CrcSealedSizeFits(p: Packet)
    requires Representable(p) && CrcSealing(p)
    ensures HEADER_SIZE + |Fields(p)| <= INT_MAX
  {
  }

  /** Reading behind the header returns the fields that were sealed there. */
  method OpenFields(p: Packet, b: Buffer, ghost sealed: seq<byte>) returns (outcome: Outcome, q: Packet)
    requires Representable(p) && b.Valid() && b.index == HEADER_SIZE
    requires |sealed| == b.size >= HEADER_SIZE + |Fields(p)| && Received(b)[4..] == sealed[4..]
    requires sealed[HEADER_SIZE..HEADER_SIZE + |Fields(p)|] == Fields(p)
    modifies b`index
    ensures outcome == Ok && q == p
  {
    hide Fields, Tag, Readable, LengthOf;
    ghost var rest := Received(b)[HEADER_SIZE..];
    ghost var n := |Fields(p)|;
    assert rest == Received(b)[4..][1..] == sealed[4..][1..] == sealed[HEADER_SIZE..];
    assert rest[..n] == sealed[HEADER_SIZE..HEADER_SIZE + n];
    SealedIsReadable(p, rest);
    KeySizeFits(p);
    TagRange(p);
    outcome, q := Read(Tag(p), b, KeySize(p));
    TagTellsSeal(p, q);
    SliceOfRest(b.Memory(), b.size, HEADER_SIZE, b.index);
    assert Fields(q) == rest[..b.index - HEADER_SIZE] && |Fields(q)| == b.index - HEADER_SIZE;
    FieldsDeterminePacket(p, q, rest);
  }

  lemma SliceOfRest<T>(memory: seq<T>, size: nat, from: nat, to: nat)
    requires from <= to <= size <= |memory|
    ensures memory[..size][from..][..to - from] == memory[from..to]
    ensures memory[..size][from..to] == memory[from..to]
    ensures to == size ==> memory[..size][from..] == memory[from..to]
  {
    var s := memory[..size];
    assert s[from..to] == memory[from..to];
    assert s[from..][..to - from] == s[from..to];
  }

  lemma TagTellsSeal(p: Packet, q: Packet)
    requires Tag(p) == Tag(q)
    ensures CrcSealing(p) <==> CrcSealing(q)
  {
  }

  /** For all six packet types: what Write seals, the matching check accepts with
      the written type and the cursor behind the header, and Read returns the
      written fields; in any receive buffer that is large enough. */
  method SealAndOpen(p: Packet, key: seq<byte>, id: bv32, mac: Mac, engine: Crc32.Engine, capacity: nat)
    returns (tag: byte, cursor: int, outcome: Outcome, q: Packet)
    requires Representable(p) && engine.Valid() && |Sealed(mac, key, id, p)| <= capacity <= INT_MAX
    modifies engine, engine.table
    ensures tag == Tag(p) && cursor == HEADER_SIZE
    ensures outcome == Ok && q == p
  {
    hide Sealed, HmacVerdict, CrcVerdict, Fields, Tag, Representable;
    ghost var sealed := Sealed(mac, key, id, p);
    SealedLayout(mac, key, id, p);
    SealedVerdicts(mac, key, id, p);
    TagRange(p);
    var sent := new Buffer();
    var written := Write(p, sent, id, key, mac, engine);
    var received := Deliver(sent, capacity);
    if CrcSealing(p) {
      var verdict := VerifyPacketCRC(received, id, engine);
      tag := verdict.tag;
    } else {
      tag := VerifyPacketHMAC(key, received, id, mac);
    }
    cursor := received.index;
    assert Received(received)[4..] == sealed[4..];
    outcome, q := OpenFields(p, received, sealed);
  }

  lemma TagRange(p: Packet)
    ensures CONNECTION_REQUEST <= Tag(p) <= DISCONNECT
  {
  }

  lemma SealedVerdicts(mac: Mac, key: seq<byte>, id: bv32, p: Packet)
    requires Representable(p)
    ensures if CrcSealing(p) then CrcVerdict(Sealed(mac, key, id, p), id) == Type(Tag(p))
            else HmacVerdict(mac, key, Sealed(mac, key, id, p), id) == Tag(p)
  {
    if CrcSealing(p) {
      CrcSealedVerdict(id, Tag(p), Fields(p), id);
    } else {
      HmacSeparation(mac, key, id, id, Tag(p), Fields(p));
    }
  }

  lemma KeySizeFits(p: Packet)
    requires Representable(p)
    ensures KeySize(p) < UINT_MODULUS
  {
  }

  /** The datagram arrives at the front of a receive buffer. */
  method Deliver(sent: Buffer, capacity: nat) returns (received: Buffer)
    requires sent.Valid() && sent.data != null && sent.size == |sent.Memory()| <= capacity <= INT_MAX && 0 < sent.size
    ensures fresh(received) && received.data != null && fresh(received.data)
    ensures received.Valid() && received.index == 0 && Received(received) == sent.Memory()
  {
    received := new Buffer.Sized(capacity);
    forall i | 0 <= i < sent.size {
      received.data[i] := sent.data[i];
    }
    received.size := sent.size;
  }
}
