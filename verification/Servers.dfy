/** What each server operation does to the server's tables (Server.cpp), as
    functions on values. The class in ServerObject.dfy carries them out in place. */
module Servers {
  import opened Words
  import opened Wire
  import opened Sequences

  const MAX_CLIENTS: int := 4

  /** Server.cpp lines 262, 388 and 394 assign the result of a comparison to the
      index, so the slot used is always 1; lines 195 and 359 test a challenge
      index with > 0 where line 394 has >= 0. AsWritten is that code. AsIntended
      stores the index that was found and tests it with >= 0. */
  datatype Indexing = AsWritten | AsIntended

  datatype ChallengeInfo = ChallengeInfo(
    clientAddress: Address,
    clientPublicKey: PublicKey,
    serverPublicKey: PublicKey,
    serverPrivateKey: PrivateKey,
    sharedKeyFuture: Option<Key>,
    sharedKey: Key)

  datatype ConnectionInfo = ConnectionInfo(clientAddress: Address, sharedKey: Key, sequence: uint16)

  const NO_CHALLENGE: ChallengeInfo := ChallengeInfo(NOWHERE, 0, 0, 0, None, ZeroKey)
  const NO_CONNECTION: ConnectionInfo := ConnectionInfo(NOWHERE, ZeroKey, 0)

  datatype Tables = Tables(
    connected: seq<bool>,
    connections: seq<ConnectionInfo>,
    challenged: seq<bool>,
    challenges: seq<ChallengeInfo>,
    numConnections: int,
    inGame: bool)

  type View = t: Tables |
    |t.connected| == MAX_CLIENTS && |t.connections| == MAX_CLIENTS &&
    |t.challenged| == MAX_CLIENTS && |t.challenges| == MAX_CLIENTS
    witness Initial()

  /** The state after the constructor: the host occupies slot 0. */
  function Initial(): Tables {
    Tables([true, false, false, false],
           [ConnectionInfo(HOST, ZeroKey, 0), NO_CONNECTION, NO_CONNECTION, NO_CONNECTION],
           [false, false, false, false],
           [NO_CHALLENGE, NO_CHALLENGE, NO_CHALLENGE, NO_CHALLENGE],
           1, false)
  }

  // ---- Lookups ----

  predicate ConnectedAt(v: View, i: int, a: Address)
    requires 0 <= i < MAX_CLIENTS
  {
    v.connected[i] && v.connections[i].clientAddress == a
  }

  predicate ChallengedAt(v: View, i: int, a: Address)
    requires 0 <= i < MAX_CLIENTS
  {
    v.challenged[i] && v.challenges[i].clientAddress == a
  }

  /** The first slot from `i` on that is connected to a, or -1. */
  function FindConnection(v: View, a: Address, i: nat := 0): (r: int)
    requires i <= MAX_CLIENTS
    ensures r == -1 || (i <= r < MAX_CLIENTS && ConnectedAt(v, r, a))
    ensures forall k :: i <= k < (if r == -1 then MAX_CLIENTS else r) ==> !ConnectedAt(v, k, a)
    decreases MAX_CLIENTS - i
  {
    if i == MAX_CLIENTS then -1 else if ConnectedAt(v, i, a) then i else FindConnection(v, a, i + 1)
  }

  function FindChallenge(v: View, a: Address, i: nat := 0): (r: int)
    requires i <= MAX_CLIENTS
    ensures r == -1 || (i <= r < MAX_CLIENTS && ChallengedAt(v, r, a))
    ensures forall k :: i <= k < (if r == -1 then MAX_CLIENTS else r) ==> !ChallengedAt(v, k, a)
    decreases MAX_CLIENTS - i
  {
    if i == MAX_CLIENTS then -1 else if ChallengedAt(v, i, a) then i else FindChallenge(v, a, i + 1)
  }

  /** The first clear flag from i on, or -1. */
  function FindFree(flags: seq<bool>, i: nat := 0): (r: int)
    requires i <= |flags|
    ensures r == -1 || (i <= r < |flags| && !flags[r])
    ensures forall k :: i <= k < (if r == -1 then |flags| else r) ==> flags[k]
    decreases |flags| - i
  {
    if i == |flags| then -1 else if !flags[i] then i else FindFree(flags, i + 1)
  }

  // ---- Handlers ----

  /** The tables after an operation and what it sent. */
  datatype Effect = Effect(view: View, sent: seq<Datagram>)

  /** The slot a found index is stored as: the boolean `found >= 0` or the index. */
  function Stored(indexing: Indexing, found: int): int {
    match indexing
    case AsWritten => if found >= 0 then 1 else 0
    case AsIntended => found
  }

  predicate ChallengeIndexPasses(indexing: Indexing, found: int) {
    match indexing
    case AsWritten => found > 0
    case AsIntended => found >= 0
  }

  /** Lines 275-288: start the key agreement and send the challenge. */
  function SendChallenge(v: View, group: Group, self: Address, i: int, sender: Address): Effect
    requires 0 <= i < MAX_CLIENTS
  {
    var c := v.challenges[i];
    var started := c.(sharedKeyFuture := Some(group.KeyFor(c.clientPublicKey, c.serverPrivateKey)));
    Effect(v.(challenges := v.challenges[i := started]),
           [Datagram(self, sender, CrcSealed(Challenge(c.serverPublicKey)), 0)])
  }

  /** Lines 257-289. A full challenge table denies the request. */
  function HandleRequest(v: View, indexing: Indexing, group: Group, self: Address,
                         clientKey: PublicKey, sender: Address, secret: PrivateKey): Effect
  {
    var found := FindChallenge(v, sender);
    if found >= 0 then SendChallenge(v, group, self, found, sender)
    else
      var free := FindFree(v.challenged);
      if free < 0 then Effect(v, [])
      else
        var i := Stored(indexing, free);
        var info := ChallengeInfo(sender, clientKey, group.pub(secret), secret, None, ZeroKey);
        SendChallenge(v.(challenges := v.challenges[i := info], challenged := v.challenged[i := true]),
                      group, self, i, sender)
  }

  /** sharedKeyFuture.get(), if there is a future. */
  function Collect(c: ChallengeInfo): ChallengeInfo {
    if c.sharedKeyFuture.Some? then c.(sharedKey := c.sharedKeyFuture.value, sharedKeyFuture := None) else c
  }

  function CollectAt(v: View, i: int): View
    requires 0 <= i < MAX_CLIENTS
  {
    v.(challenges := v.challenges[i := Collect(v.challenges[i])])
  }

  /** Lines 308-313. */
  function Assign(v: View, slot: int, challenge: int): View
    requires 0 <= slot < MAX_CLIENTS && 0 <= challenge < MAX_CLIENTS
  {
    var c := v.challenges[challenge];
    v.(connected := v.connected[slot := true],
       connections := v.connections[slot := ConnectionInfo(c.clientAddress, c.sharedKey, 0)],
       numConnections := v.numConnections + 1,
       challenged := v.challenged[challenge := false],
       challenges := v.challenges[challenge := NO_CHALLENGE])
  }

  /** Lines 291-326. */
  function HandleResponse(v: View, self: Address, sender: Address): Effect {
    var challenge := FindChallenge(v, sender);
    if challenge < 0 then Effect(v, [])
    else
      var slot := FindFree(v.connected);
      var v1 := CollectAt(v, challenge);
      if slot < 0 then Effect(v1, [])
      else
        Effect(Assign(v1, slot, challenge),
               [Datagram(self, sender, HmacSealed(v1.challenges[challenge].sharedKey, Accepted(slot)), 0)])
  }

  function FreeConnection(v: View, i: int): View
    requires 0 <= i < MAX_CLIENTS
  {
    v.(connected := v.connected[i := false],
       connections := v.connections[i := NO_CONNECTION],
       numConnections := v.numConnections - 1)
  }

  function FreeChallenge(v: View, i: int): View
    requires 0 <= i < MAX_CLIENTS
  {
    v.(challenged := v.challenged[i := false], challenges := v.challenges[i := NO_CHALLENGE])
  }

  /** Lines 386-399. */
  function RemoveClient(v: View, indexing: Indexing, a: Address): View {
    var connection, challenge := FindConnection(v, a), FindChallenge(v, a);
    if connection > 0 then FreeConnection(v, Stored(indexing, connection))
    else if challenge >= 0 then FreeChallenge(v, Stored(indexing, challenge))
    else v
  }

  /** Lines 347-384: ten disconnect packets, then removal. */
  function KickClient(v: View, indexing: Indexing, self: Address, a: Address): Effect {
    var connection, challenge := FindConnection(v, a), FindChallenge(v, a);
    if connection > 0 then
      Effect(RemoveClient(v, indexing, a),
             Copies(Datagram(self, a, HmacSealed(v.connections[connection].sharedKey, Disconnect), 0), 10))
    else if ChallengeIndexPasses(indexing, challenge) then
      var v1 := CollectAt(v, challenge);
      Effect(RemoveClient(v1, indexing, a),
             Copies(Datagram(self, a, HmacSealed(v1.challenges[challenge].sharedKey, Disconnect), 0), 10))
    else Effect(v, [])
  }

  // ---- Listen ----

  /** Listen's return value and, for game data, what it copied out: the sender's
      slot index and the payload. */
  datatype Reception = Reception(effect: Effect, ret: int, gameData: Option<(int, seq<bv8>)>)

  /** The size of a data packet: header, sequence, length, payload, HMAC. */
  function DataPacketSize(payload: seq<bv8>): int {
    5 + 2 + 4 + |payload| + 32
  }

  /** Lines 142-200, on a verified body. */
  function Dispatch(v: View, indexing: Indexing, group: Group, self: Address,
                    body: Option<Body>, sender: Address, p_size: nat, secret: PrivateKey): Reception
  {
    var ignored := Reception(Effect(v, []), 0, None);
    match body
    case Some(Request(clientKey)) =>
      if v.inGame then ignored
      else Reception(HandleRequest(v, indexing, group, self, clientKey, sender, secret), 0, None)
    case Some(Response) =>
      if v.inGame then ignored else Reception(HandleResponse(v, self, sender), 0, None)
    case Some(Data(_, payload)) =>
      var i := FindConnection(v, sender);
      if v.inGame && i > 0 then
        if p_size >= DataPacketSize(payload) + 4
        then Reception(Effect(v, []), |payload|, Some((i, payload)))
        else Reception(Effect(v, []), -1, None)
      else ignored
    case Some(Disconnect) =>
      if FindConnection(v, sender) > 0 || ChallengeIndexPasses(indexing, FindChallenge(v, sender))
      then Reception(Effect(RemoveClient(v, indexing, sender), []), 0, None)
      else ignored
    case _ => ignored
  }

  /** Lines 103-208. A connected sender is checked with its key, a challenged one
      with the key being agreed, a stranger may only request a connection. */
  function Listen(v: View, indexing: Indexing, group: Group, self: Address,
                  m: Message, sender: Address, p_size: nat, secret: PrivateKey): Reception
  {
    var connection := FindConnection(v, sender);
    if connection > 0 then
      Dispatch(v, indexing, group, self, VerifyHmac(v.connections[connection].sharedKey, m), sender, p_size, secret)
    else
      var challenge := FindChallenge(v, sender);
      if challenge < 0 then
        var body := VerifyCrc(m);
        if body.Some? && body.value.Request?
        then Dispatch(v, indexing, group, self, body, sender, p_size, secret)
        else Reception(Effect(v, []), 0, None)
      else
        var v1 := CollectAt(v, challenge);
        Dispatch(v1, indexing, group, self, VerifyHmac(v1.challenges[challenge].sharedKey, m), sender, p_size, secret)
  }

  // ---- PropagateGameData ----

  /** Every connected slot from i on has its sequence number advanced. */
  function Advanced(v: View, i: nat): View
    requires i <= MAX_CLIENTS
    decreases MAX_CLIENTS - i
  {
    if i == MAX_CLIENTS then v
    else if v.connected[i] then
      var c := v.connections[i];
      Advanced(v.(connections := v.connections[i := c.(sequence := Next(c.sequence))]), i + 1)
    else Advanced(v, i + 1)
  }

  /** One packet for each connected slot from i on, in slot order; `numbers`
      holds the bookkeeping number of each slot's packet. */
  function FanOut(v: View, self: Address, payload: seq<bv8>, numbers: seq<nat>, i: nat): seq<Datagram>
    requires i <= MAX_CLIENTS == |numbers|
    decreases MAX_CLIENTS - i
  {
    if i == MAX_CLIENTS then []
    else if v.connected[i] then
      var c := v.connections[i];
      [Datagram(self, c.clientAddress, HmacSealed(c.sharedKey, Data(Next(c.sequence), payload)), numbers[i])]
      + FanOut(v, self, payload, numbers, i + 1)
    else FanOut(v, self, payload, numbers, i + 1)
  }

  /** Lines 237-255. */
  function Propagate(v: View, self: Address, payload: seq<bv8>, numbers: seq<nat>): Effect
    requires |numbers| == MAX_CLIENTS
  {
    Effect(Advanced(v, 1), FanOut(v, self, payload, numbers, 1))
  }
}
