/** Exactly what a client does with what arrives and with the calls made on it. */
module ClientOutcomes {
  import opened Words
  import opened Wire
  import opened Sequences
  import opened Clients

  /** Messages that a client in this phase believes: sealed with a CRC before it
      has a key, under its key afterwards. */
  predicate Believes(c: Fields, m: Message) {
    match c.phase
    case Disconnected => m.CrcSealed?
    case SendingRequest => m.CrcSealed?
    case SendingChallengeResponse => m.HmacSealed? && m.key == c.sharedKey
    case Connected => m.HmacSealed? && m.key == c.sharedKey
  }

  /** New game data for a connected client. */
  predicate IsNews(c: Fields, m: Message) {
    c.phase == Connected && Believes(c, m) && m.body.Data? && SequenceGreaterThan(m.body.sequence, c.ack)
  }

  /** Listen hands out game data exactly if it is news and fits, and then returns its
      size; it returns -1 if the buffer is too small, and 0 for everything else.
      News is acknowledged either way; nothing else moves m_ack. */
  lemma GameDataIsHandedOut(c: Fields, group: Group, self: Address, d: Datagram, p_size: nat, timedOut: bool)
    ensures var r := Listen(c, group, self, d, p_size, timedOut);
      if IsNews(c, d.message) then
        && r.effect == Effect(c.(serverAddress := d.src, ack := d.message.body.sequence), [])
        && r.acknowledged && !r.spawned
        && (if p_size >= |d.message.body.payload|
            then r.ret == |d.message.body.payload| && r.gameData == Some(d.message.body.payload)
            else r.ret == -1 && r.gameData == None)
      else
        && r.ret == 0 && r.gameData == None && !r.acknowledged
        && r.effect.client.ack == c.ack && r.effect.client.sequence == c.sequence
  {
  }

  /** The message ends the session: a disconnect packet in any phase but
      DISCONNECTED, or game data before the client is CONNECTED. */
  predicate Ends(c: Fields, m: Message) {
    c.phase != Disconnected && Believes(c, m)
    && (m.body.Disconnect? || (m.body.Data? && c.phase != Connected))
  }

  lemma EndsSession(c: Fields, group: Group, self: Address, d: Datagram, p_size: nat, timedOut: bool)
    requires Ends(c, d.message)
    ensures Listen(c, group, self, d, p_size, timedOut) == Reception(Effect(Reset(c), []), 0, None, false, false)
    ensures var after := Listen(c, group, self, d, p_size, timedOut).effect.client;
      && after.phase == Disconnected && after.sharedKey == ZeroKey && after.serverAddress == NOWHERE
      && after.ack == c.ack && after.sequence == c.sequence && after.index == c.index
  {
  }

  /** A challenge is taken up exactly by a client that has asked for one: it derives
      the key from its own private key and starts one responder. */
  lemma TakesUpChallenge(c: Fields, group: Group, self: Address, d: Datagram, p_size: nat, timedOut: bool)
    ensures var r := Listen(c, group, self, d, p_size, timedOut);
      && (r.spawned <==> c.phase == SendingRequest && Believes(c, d.message) && d.message.body.Challenge?)
      && (r.spawned ==>
            r.effect == Effect(c.(serverAddress := d.src,
                                  sharedKey := group.KeyFor(d.message.body.serverPublicKey, c.privateKey)), []))
  {
  }

  /** An acceptance connects exactly a client that has responded to a challenge. */
  lemma IsAccepted(c: Fields, group: Group, self: Address, d: Datagram, p_size: nat)
    requires c.phase != Connected
    ensures var after := Listen(c, group, self, d, p_size, false).effect;
      && (after.client.phase == Connected <==>
            c.phase == SendingChallengeResponse && Believes(c, d.message) && d.message.body.Accepted?)
      && (after.client.phase == Connected ==>
            after == Effect(c.(serverAddress := d.src, index := d.message.body.clientID, phase := Connected), []))
  {
  }

  /** A datagram this client has no use for. */
  predicate Idle(c: Fields, m: Message) {
    && !IsNews(c, m) && !Ends(c, m)
    && !(c.phase == SendingRequest && Believes(c, m) && m.body.Challenge?)
    && !(c.phase == SendingChallengeResponse && Believes(c, m) && m.body.Accepted?)
  }

  predicate IsStaleData(c: Fields, m: Message) {
    c.phase == Connected && Believes(c, m) && m.body.Data? && !IsNews(c, m)
  }

  /** It leaves all but m_serverAddress alone, unless a connected client notices in
      the same call that it timed out, which stale game data prevents. */
  lemma TheRestIsIgnored(c: Fields, group: Group, self: Address, d: Datagram, p_size: nat, timedOut: bool)
    requires Idle(c, d.message)
    ensures var r := Listen(c, group, self, d, p_size, timedOut);
      if c.activeTimeout && timedOut && c.phase == Connected && !IsStaleData(c, d.message)
      then r.effect == Clients.SendDisconnect(c.(serverAddress := d.src), self)
      else r.effect == Effect(c.(serverAddress := d.src), [])
  {
  }

  /** The acceptance itself may be noticed too late. */
  lemma AcceptedTooLate(c: Fields, group: Group, self: Address, d: Datagram, p_size: nat, id: int)
    requires c.phase == SendingChallengeResponse && d.message == HmacSealed(c.sharedKey, Accepted(id))
    ensures var r := Listen(c, group, self, d, p_size, true);
      var seated := c.(serverAddress := d.src, index := id, phase := Connected);
      r.effect == if c.activeTimeout then Clients.SendDisconnect(seated, self) else Effect(seated, [])
  {
  }
}
