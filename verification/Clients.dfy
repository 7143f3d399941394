/** What each client operation does to the client's fields (Client.cpp), as
    functions on values. The class in ClientObject.dfy carries them out in place. */
module Clients {
  import opened Words
  import opened Wire
  import opened Sequences

  datatype Phase = Disconnected | SendingRequest | SendingChallengeResponse | Connected

  datatype Fields = Fields(
    privateKey: PrivateKey,
    publicKey: PublicKey,
    sharedKey: Key,
    serverAddress: Address,
    index: int,
    phase: Phase,
    sequence: uint16,
    ack: uint16,
    activeTimeout: bool)

  function Fresh(): Fields {
    Fields(0, 0, ZeroKey, NOWHERE, -1, Disconnected, 0, 0, false)
  }

  datatype Effect = Effect(client: Fields, sent: seq<Datagram>)

  /** Lines 33-68: a new key pair and a broadcast request, from DISCONNECTED only. */
  function Connect(c: Fields, group: Group, self: Address, secret: PrivateKey): Effect {
    if c.phase != Disconnected then Effect(c, [])
    else
      var pub := group.pub(secret);
      Effect(c.(privateKey := secret, publicKey := pub, phase := SendingRequest),
             [Datagram(self, BROADCAST, CrcSealed(Request(pub)), 0)])
  }

  /** Lines 70-100, the detached thread: it looks at no state, so it may fire in
      any phase and with whatever key is there. */
  function RespondChallenge(c: Fields, self: Address): Effect {
    Effect(c.(phase := SendingChallengeResponse),
           [Datagram(self, c.serverAddress, HmacSealed(c.sharedKey, Response), 0)])
  }

  /** Lines 143-148. Neither ack nor sequence is reset. */
  function Reset(c: Fields): Fields {
    c.(sharedKey := ZeroKey, serverAddress := NOWHERE, phase := Disconnected)
  }

  /** Lines 102-124: ten disconnect packets if there is a key to seal them with. */
  function SendDisconnect(c: Fields, self: Address): Effect {
    Effect(Reset(c),
           if c.phase == Disconnected || c.phase == SendingRequest then []
           else Copies(Datagram(self, c.serverAddress, HmacSealed(c.sharedKey, Disconnect), 0), 10))
  }

  /** Lines 231-247. */
  function SendGameData(c: Fields, self: Address, payload: seq<bv8>): Effect {
    if c.phase != Connected then Effect(c, [])
    else
      var next := Next(c.sequence);
      Effect(c.(sequence := next),
             [Datagram(self, c.serverAddress, HmacSealed(c.sharedKey, Data(next, payload)), 0)])
  }

  /** Listen's return value, the payload it copied out if any, whether the data
      packet advanced m_ack, and whether a responder thread was started. */
  datatype Reception = Reception(
    effect: Effect,
    ret: int,
    gameData: Option<seq<bv8>>,
    acknowledged: bool,
    spawned: bool)

  /** Lines 155-163; None stands for INVALID_PACKET. */
  function Verified(c: Fields, m: Message): Option<Body> {
    if c.phase == Disconnected || c.phase == SendingRequest then VerifyCrc(m) else VerifyHmac(c.sharedKey, m)
  }

  /** Lines 192-211, in phase CONNECTED. */
  function Receive(c: Fields, sequence: uint16, payload: seq<bv8>, p_size: nat): Reception {
    if !SequenceGreaterThan(sequence, c.ack) then Reception(Effect(c, []), 0, None, false, false)
    else
      var acked := c.(ack := sequence);
      if p_size >= |payload| then Reception(Effect(acked, []), |payload|, Some(payload), true, false)
      else Reception(Effect(acked, []), -1, None, true, false)
  }

  /** Lines 168-220 for the cases that reach the end of the switch: the new
      client, and whether a responder was started. Data outside phase CONNECTED
      falls through into the disconnect case. */
  function Switch(c: Fields, group: Group, body: Option<Body>): (Fields, bool) {
    match body
    case Some(Challenge(serverKey)) =>
      if c.phase == SendingRequest then (c.(sharedKey := group.KeyFor(serverKey, c.privateKey)), true) else (c, false)
    case Some(Accepted(id)) =>
      if c.phase == SendingChallengeResponse then (c.(index := id, phase := Connected), false) else (c, false)
    case Some(Data(_, _)) => if c.phase != Disconnected then (Reset(c), false) else (c, false)
    case Some(Disconnect) => if c.phase != Disconnected then (Reset(c), false) else (c, false)
    case _ => (c, false)
  }

  /** Lines 150-229. The sender of any datagram becomes m_serverAddress before
      the datagram is checked. */
  function Listen(c0: Fields, group: Group, self: Address, d: Datagram, p_size: nat, timedOut: bool): Reception {
    var c := c0.(serverAddress := d.src);
    var body := Verified(c, d.message);
    if body.Some? && body.value.Data? && c.phase == Connected then
      Receive(c, body.value.sequence, body.value.payload, p_size)
    else
      var (c1, spawned) := Switch(c, group, body);
      if c1.activeTimeout && c1.phase == Connected && timedOut
      then Reception(SendDisconnect(c1, self), 0, None, false, spawned)
      else Reception(Effect(c1, []), 0, None, false, spawned)
  }
}
