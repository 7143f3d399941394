/** Addresses, keys and messages as client and server see them: the seals of the
    packet layer idealised, so that a message verifies under the key it was
    sealed with and under no other. */
module Wire {
  import opened Bits
  import opened Words

  datatype Option<T> = None | Some(value: T)

  datatype Address = Address(ip: nat, port: nat)

  /** The address the server books its own slot 0 under. */
  const HOST: Address := Address(0x7F00_0001, 8755)

  /** A default-constructed Address. */
  const NOWHERE: Address := Address(0, 0)

  /** INADDR_BROADCAST at the server's port. */
  const BROADCAST: Address := Address(0xFFFF_FFFF, 8755)

  type PublicKey = nat
  type PrivateKey = nat

  /** A shared key is all zeros or the hash of an agreed secret; a hash is never
      all zeros. */
  datatype Key = ZeroKey | Derived(secret: nat)

  /** Diffie-Hellman: a public half and an agreement function. */
  datatype Group = Group(pub: PrivateKey -> PublicKey, shared: (PublicKey, PrivateKey) -> nat) {
    function KeyFor(peer: PublicKey, own: PrivateKey): Key {
      Derived(shared(peer, own))
    }

    /** The one law of the exchange. */
    ghost predicate Agrees() {
      forall a, b :: shared(pub(a), b) == shared(pub(b), a)
    }
  }

  datatype Body =
    | Request(clientPublicKey: PublicKey)
    | Challenge(serverPublicKey: PublicKey)
    | Response
    | Accepted(clientID: int)
    | Data(sequence: uint16, payload: seq<byte>)
    | Disconnect

  /** Garbage is a datagram that fails both checks. */
  datatype Message = CrcSealed(body: Body) | HmacSealed(key: Key, body: Body) | Garbage

  /** `number` counts the data packets sent to one occupant of a slot. It is
      bookkeeping of the model: neither side reads it. */
  datatype Datagram = Datagram(src: Address, dst: Address, message: Message, number: nat)

  function VerifyCrc(m: Message): Option<Body> {
    if m.CrcSealed? then Some(m.body) else None
  }

  function VerifyHmac(key: Key, m: Message): Option<Body> {
    if m.HmacSealed? && m.key == key then Some(m.body) else None
  }

  /** The same datagram sent n times. */
  function Copies(d: Datagram, n: nat): (ds: seq<Datagram>)
    ensures |ds| == n && forall i :: 0 <= i < n ==> ds[i] == d
  {
    seq(n, _ => d)
  }
}
