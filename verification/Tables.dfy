/** What every server operation keeps true of the tables. */
module Tables {
  import opened Words
  import opened Wire
  import opened Sequences
  import opened Servers

  function Count(flags: seq<bool>): nat {
    if |flags| == 0 then 0 else Count(flags[..|flags| - 1]) + (if flags[|flags| - 1] then 1 else 0)
  }

  /** m_numConnections is the number of connected slots. */
  predicate Counted(v: View) {
    v.numConnections == Count(v.connected)
  }

  predicate Ready(c: ChallengeInfo) {
    Collect(c).sharedKey.Derived?
  }

  /** The host keeps slot 0; connected addresses are pairwise distinct, challenged
      addresses are, and no address is both; a pending challenge has its key. */
  predicate Consistent(v: View, indexing: Indexing) {
    && ConnectedAt(v, 0, HOST)
    && (forall i, j :: 0 <= i < j < MAX_CLIENTS && v.connected[i] && v.connected[j] ==>
          v.connections[i].clientAddress != v.connections[j].clientAddress)
    && (forall i, j :: 0 <= i < j < MAX_CLIENTS && v.challenged[i] && v.challenged[j] ==>
          v.challenges[i].clientAddress != v.challenges[j].clientAddress)
    && (forall i, j :: 0 <= i < MAX_CLIENTS && 0 <= j < MAX_CLIENTS && v.connected[i] && v.challenged[j] ==>
          v.connections[i].clientAddress != v.challenges[j].clientAddress)
    && (forall j :: 0 <= j < MAX_CLIENTS && v.challenged[j] ==>
          Ready(v.challenges[j]) && (indexing == AsWritten ==> j == 1))
  }

  /** Requests are only ever sealed with a CRC. */
  predicate Honest(m: Message) {
    m.HmacSealed? ==> !m.body.Request?
  }

  // ---- Counting ----

  lemma {:induction false} CountSet(flags: seq<bool>, i: nat, on: bool)
    requires i < |flags|
    ensures Count(flags[i := on]) == Count(flags) + (if on then 1 else 0) - (if flags[i] then 1 else 0)
  {
    var n := |flags| - 1;
    if i == n {
      assert flags[i := on][..n] == flags[..n];
    } else {
      assert flags[i := on][..n] == flags[..n][i := on];
      CountSet(flags[..n], i, on);
    }
  }

  // ---- Each building block ----

  lemma UniqueConnection(v: View, indexing: Indexing, i: int)
    requires Consistent(v, indexing) && 0 <= i < MAX_CLIENTS && v.connected[i]
    ensures FindConnection(v, v.connections[i].clientAddress) == i
    ensures FindChallenge(v, v.connections[i].clientAddress) == -1
  {
    var r := FindConnection(v, v.connections[i].clientAddress);
    assert r == i || r < i || i < r;
  }

  lemma SendChallengeKeeps(v: View, indexing: Indexing, group: Group, self: Address, i: int, sender: Address)
    requires 0 <= i < MAX_CLIENTS && v.challenged[i] && (indexing == AsWritten ==> i == 1)
    requires ConnectedAt(v, 0, HOST)
    requires forall k :: 0 <= k < MAX_CLIENTS && v.challenged[k] && k != i ==>
      v.challenges[k].clientAddress != v.challenges[i].clientAddress && Ready(v.challenges[k])
      && (indexing == AsWritten ==> k == 1)
    requires forall k, j :: 0 <= k < j < MAX_CLIENTS && v.connected[k] && v.connected[j] ==>
      v.connections[k].clientAddress != v.connections[j].clientAddress
    requires forall k, j :: 0 <= k < j < MAX_CLIENTS && v.challenged[k] && v.challenged[j] ==>
      v.challenges[k].clientAddress != v.challenges[j].clientAddress
    requires forall k, j :: 0 <= k < MAX_CLIENTS && 0 <= j < MAX_CLIENTS && v.connected[k] && v.challenged[j] ==>
      v.connections[k].clientAddress != v.challenges[j].clientAddress
    ensures Consistent(SendChallenge(v, group, self, i, sender).view, indexing)
  {
  }

  lemma RequestKeeps(v: View, indexing: Indexing, group: Group, self: Address,
                     clientKey: PublicKey, sender: Address, secret: PrivateKey)
    requires Consistent(v, indexing) && FindConnection(v, sender) == -1
    ensures Consistent(HandleRequest(v, indexing, group, self, clientKey, sender, secret).view, indexing)
  {
    var found := FindChallenge(v, sender);
    if found >= 0 {
      SendChallengeKeeps(v, indexing, group, self, found, sender);
    } else if FindFree(v.challenged) >= 0 {
      var i := Stored(indexing, FindFree(v.challenged));
      var info := ChallengeInfo(sender, clientKey, group.pub(secret), secret, None, ZeroKey);
      var v1: View := v.(challenges := v.challenges[i := info], challenged := v.challenged[i := true]);
      forall j | 0 <= j < MAX_CLIENTS && v1.challenged[j]
        ensures j == i || v1.challenges[j].clientAddress != sender
      {
        assert j != i ==> !ChallengedAt(v, j, sender);
      }
      forall k | 0 <= k < MAX_CLIENTS && v1.connected[k]
        ensures v1.connections[k].clientAddress != sender
      {
        assert !ConnectedAt(v, k, sender);
      }
      SendChallengeKeeps(v1, indexing, group, self, i, sender);
    }
  }

  lemma CollectKeeps(v: View, indexing: Indexing, i: int)
    requires Consistent(v, indexing) && 0 <= i < MAX_CLIENTS
    ensures Consistent(CollectAt(v, i), indexing)
  {
  }

  lemma AssignKeeps(v: View, indexing: Indexing, slot: int, challenge: int)
    requires Consistent(v, indexing) && 0 <= slot < MAX_CLIENTS && 0 <= challenge < MAX_CLIENTS
    requires !v.connected[slot] && v.challenged[challenge]
    ensures Consistent(Assign(v, slot, challenge), indexing)
    ensures Counted(v) ==> Counted(Assign(v, slot, challenge))
  {
    CountSet(v.connected, slot, true);
  }

  lemma FreeConnectionKeeps(v: View, indexing: Indexing, i: int)
    requires Consistent(v, indexing) && 0 < i < MAX_CLIENTS
    ensures Consistent(FreeConnection(v, i), indexing)
    ensures Counted(v) ==> (Counted(FreeConnection(v, i)) <==> v.connected[i])
  {
    CountSet(v.connected, i, false);
  }

  lemma FreeChallengeKeeps(v: View, indexing: Indexing, i: int)
    requires Consistent(v, indexing) && 0 <= i < MAX_CLIENTS
    ensures Consistent(FreeChallenge(v, i), indexing)
  {
  }

  lemma RemoveKeeps(v: View, indexing: Indexing, a: Address)
    requires Consistent(v, indexing)
    ensures Consistent(RemoveClient(v, indexing, a), indexing)
  {
    var connection, challenge := FindConnection(v, a), FindChallenge(v, a);
    if connection > 0 {
      FreeConnectionKeeps(v, indexing, Stored(indexing, connection));
    } else if challenge >= 0 {
      FreeChallengeKeeps(v, indexing, Stored(indexing, challenge));
    }
  }

  /** Removing a client keeps the connection count right: always with the index
      as intended; as written exactly if the client was not connected or slot 1,
      the slot that is cleared, was. */
  lemma RemoveKeepsCount(v: View, indexing: Indexing, a: Address)
    requires Consistent(v, indexing) && Counted(v)
    ensures Counted(RemoveClient(v, indexing, a))
       <==> indexing == AsIntended || FindConnection(v, a) <= 0 || v.connected[1]
  {
    var connection := FindConnection(v, a);
    if connection > 0 {
      FreeConnectionKeeps(v, indexing, Stored(indexing, connection));
    }
  }

  lemma ResponseKeeps(v: View, indexing: Indexing, self: Address, sender: Address)
    requires Consistent(v, indexing)
    ensures Consistent(HandleResponse(v, self, sender).view, indexing)
    ensures Counted(v) ==> Counted(HandleResponse(v, self, sender).view)
  {
    var challenge, slot := FindChallenge(v, sender), FindFree(v.connected);
    if challenge >= 0 {
      CollectKeeps(v, indexing, challenge);
      if slot >= 0 {
        AssignKeeps(CollectAt(v, challenge), indexing, slot, challenge);
      }
    }
  }

  lemma DispatchKeeps(v: View, indexing: Indexing, group: Group, self: Address,
                      body: Option<Body>, sender: Address, p_size: nat, secret: PrivateKey)
    requires Consistent(v, indexing)
    requires body.Some? && body.value.Request? ==> FindConnection(v, sender) == -1
    ensures Consistent(Dispatch(v, indexing, group, self, body, sender, p_size, secret).effect.view, indexing)
    ensures indexing == AsIntended && Counted(v) ==>
      Counted(Dispatch(v, indexing, group, self, body, sender, p_size, secret).effect.view)
  {
    match body
    case Some(Request(clientKey)) => RequestKeeps(v, indexing, group, self, clientKey, sender, secret);
    case Some(Response) => ResponseKeeps(v, indexing, self, sender);
    case Some(Disconnect) =>
      RemoveKeeps(v, indexing, sender);
      if indexing == AsIntended && Counted(v) {
        RemoveKeepsCount(v, indexing, sender);
      }
    case _ =>
  }

  /** Whatever honest datagram arrives from anyone but the host's own address,
      the tables stay consistent; as intended, the count stays right. */
  lemma ListenKeeps(v: View, indexing: Indexing, group: Group, self: Address,
                    m: Message, sender: Address, p_size: nat, secret: PrivateKey)
    requires Consistent(v, indexing) && Honest(m) && sender != HOST
    ensures Consistent(Listen(v, indexing, group, self, m, sender, p_size, secret).effect.view, indexing)
    ensures indexing == AsIntended && Counted(v) ==>
      Counted(Listen(v, indexing, group, self, m, sender, p_size, secret).effect.view)
  {
    var connection, challenge := FindConnection(v, sender), FindChallenge(v, sender);
    if connection > 0 {
      var body := VerifyHmac(v.connections[connection].sharedKey, m);
      DispatchKeeps(v, indexing, group, self, body, sender, p_size, secret);
    } else if challenge < 0 {
      assert connection == -1;
      DispatchKeeps(v, indexing, group, self, VerifyCrc(m), sender, p_size, secret);
    } else {
      var v1 := CollectAt(v, challenge);
      CollectKeeps(v, indexing, challenge);
      var body := VerifyHmac(v1.challenges[challenge].sharedKey, m);
      DispatchKeeps(v1, indexing, group, self, body, sender, p_size, secret);
    }
  }

  lemma InitialIsConsistent(indexing: Indexing)
    ensures Consistent(Initial(), indexing) && Counted(Initial())
  {
    assert Initial().connected[..3][..2][..1] == [true];
  }

  lemma KickKeeps(v: View, indexing: Indexing, self: Address, a: Address)
    requires Consistent(v, indexing)
    ensures Consistent(KickClient(v, indexing, self, a).view, indexing)
    ensures indexing == AsIntended && Counted(v) ==> Counted(KickClient(v, indexing, self, a).view)
  {
    var connection, challenge := FindConnection(v, a), FindChallenge(v, a);
    RemoveKeeps(v, indexing, a);
    if indexing == AsIntended && Counted(v) {
      RemoveKeepsCount(v, indexing, a);
    }
    if connection <= 0 && challenge >= 0 {
      var v1 := CollectAt(v, challenge);
      CollectKeeps(v, indexing, challenge);
      RemoveKeeps(v1, indexing, a);
      if indexing == AsIntended && Counted(v) {
        RemoveKeepsCount(v1, indexing, a);
      }
    }
  }

  /** A stranger's request leaves another client's pending challenge alone as
      intended, and always destroys it as written: slot 1 is the only one used. */
  lemma RequestSparesPending(v: View, indexing: Indexing, group: Group, self: Address, clientKey: PublicKey,
                             sender: Address, secret: PrivateKey, a: Address)
    requires Consistent(v, indexing) && FindChallenge(v, a) >= 0
    requires FindChallenge(v, sender) == -1 && FindConnection(v, sender) == -1
    ensures FindChallenge(HandleRequest(v, indexing, group, self, clientKey, sender, secret).view, a) >= 0
       <==> indexing == AsIntended
  {
    var w := HandleRequest(v, indexing, group, self, clientKey, sender, secret).view;
    var i := FindChallenge(v, a);
    if indexing == AsIntended {
      assert ChallengedAt(w, i, a);
    } else {
      assert i == 1 && FindFree(v.challenged) == 0;
      assert forall j :: 0 <= j < MAX_CLIENTS ==> !ChallengedAt(w, j, a);
    }
  }

  // ---- PropagateGameData ----

  /** Advancing touches the sequence numbers of connected slots and nothing else. */
  lemma {:induction false} AdvancedOnly(v: View, i: nat)
    requires i <= MAX_CLIENTS
    ensures var w := Advanced(v, i);
      && w.connected == v.connected && w.challenged == v.challenged && w.challenges == v.challenges
      && w.numConnections == v.numConnections && w.inGame == v.inGame
      && forall k :: 0 <= k < MAX_CLIENTS ==>
           w.connections[k] == if k >= i && v.connected[k]
                               then v.connections[k].(sequence := Next(v.connections[k].sequence))
                               else v.connections[k]
    decreases MAX_CLIENTS - i
  {
    if i == MAX_CLIENTS {
    } else {
      if v.connected[i] {
        var c := v.connections[i];
        AdvancedOnly(v.(connections := v.connections[i := c.(sequence := Next(c.sequence))]), i + 1);
      } else {
        AdvancedOnly(v, i + 1);
      }
    }
  }

  lemma PropagateKeeps(v: View, indexing: Indexing, self: Address, payload: seq<bv8>, numbers: seq<nat>)
    requires Consistent(v, indexing) && |numbers| == MAX_CLIENTS
    ensures Consistent(Propagate(v, self, payload, numbers).view, indexing)
    ensures Counted(v) ==> Counted(Propagate(v, self, payload, numbers).view)
  {
    AdvancedOnly(v, 1);
  }

  /** The packet slot k is sent. */
  function PacketFor(v: View, self: Address, payload: seq<bv8>, numbers: seq<nat>, k: int): Datagram
    requires 0 <= k < MAX_CLIENTS == |numbers|
  {
    var c := v.connections[k];
    Datagram(self, c.clientAddress, HmacSealed(c.sharedKey, Data(Next(c.sequence), payload)), numbers[k])
  }

  function AddressedTo(ds: seq<Datagram>, a: Address): nat {
    if |ds| == 0 then 0 else (if ds[0].dst == a then 1 else 0) + AddressedTo(ds[1..], a)
  }

  /** Fan-out: the packets sent are exactly those of the connected slots. */
  lemma {:induction false} FanOutIs(v: View, self: Address, payload: seq<bv8>, numbers: seq<nat>, i: nat)
    requires i <= MAX_CLIENTS == |numbers|
    ensures forall d :: d in FanOut(v, self, payload, numbers, i) ==>
      exists k :: i <= k < MAX_CLIENTS && v.connected[k] && d == PacketFor(v, self, payload, numbers, k)
    ensures forall k :: i <= k < MAX_CLIENTS && v.connected[k] ==>
      PacketFor(v, self, payload, numbers, k) in FanOut(v, self, payload, numbers, i)
    decreases MAX_CLIENTS - i
  {
    if i == MAX_CLIENTS {
    } else {
      FanOutIs(v, self, payload, numbers, i + 1);
    }
  }

  lemma {:induction false} NotAddressed(v: View, self: Address, payload: seq<bv8>, numbers: seq<nat>,
                                       i: nat, a: Address)
    requires i <= MAX_CLIENTS == |numbers|
    requires forall k :: i <= k < MAX_CLIENTS ==> !ConnectedAt(v, k, a)
    ensures AddressedTo(FanOut(v, self, payload, numbers, i), a) == 0
    decreases MAX_CLIENTS - i
  {
    if i == MAX_CLIENTS {
    } else {
      assert !ConnectedAt(v, i, a);
      NotAddressed(v, self, payload, numbers, i + 1, a);
      if v.connected[i] {
        assert FanOut(v, self, payload, numbers, i)[1..] == FanOut(v, self, payload, numbers, i + 1);
      }
    }
  }

  /** Each connected client gets exactly one packet, everyone else none. */
  lemma {:induction false} OnePacketEach(v: View, indexing: Indexing, self: Address, payload: seq<bv8>,
                                        numbers: seq<nat>, i: nat, a: Address)
    requires i <= MAX_CLIENTS == |numbers| && Consistent(v, indexing)
    ensures AddressedTo(FanOut(v, self, payload, numbers, i), a)
         == if exists k :: i <= k < MAX_CLIENTS && ConnectedAt(v, k, a) then 1 else 0
    decreases MAX_CLIENTS - i
  {
    if i == MAX_CLIENTS {
    } else {
      if v.connected[i] {
        assert FanOut(v, self, payload, numbers, i)[1..] == FanOut(v, self, payload, numbers, i + 1);
      }
      if ConnectedAt(v, i, a) {
        NotAddressed(v, self, payload, numbers, i + 1, a);
      } else {
        OnePacketEach(v, indexing, self, payload, numbers, i + 1, a);
      }
    }
  }

  /** Listen hands out game data exactly when the game runs, the sender occupies a
      slot, the data is sealed with that slot's key and the buffer is four bytes
      larger than the datagram; it is then the payload, with the slot's index, and
      Listen returns its size. It returns -1 if only the buffer is too small, and
      otherwise 0. */
  lemma GameDataComesFromOccupant(v: View, indexing: Indexing, group: Group, self: Address,
                                  m: Message, sender: Address, p_size: nat, secret: PrivateKey)
    requires Consistent(v, indexing) && sender != HOST
    ensures var r := Listen(v, indexing, group, self, m, sender, p_size, secret);
      var i := FindConnection(v, sender);
      if v.inGame && i > 0 && m.HmacSealed? && m.body.Data? && m.key == v.connections[i].sharedKey
      then
        if p_size >= |m.body.payload| + 47
        then r == Reception(Effect(v, []), |m.body.payload|, Some((i, m.body.payload)))
        else r == Reception(Effect(v, []), -1, None)
      else r.gameData == None && r.ret == 0
  {
    hide Dispatch, Consistent;
    var connection, challenge := FindConnection(v, sender), FindChallenge(v, sender);
    HostIsNotSender(v, indexing, sender);
    if connection > 0 {
      var body := VerifyHmac(v.connections[connection].sharedKey, m);
      DispatchGameData(v, indexing, group, self, body, sender, p_size, secret);
    } else if challenge >= 0 {
      var v1 := CollectAt(v, challenge);
      assert forall k :: 0 <= k < MAX_CLIENTS ==> ConnectedAt(v1, k, sender) == ConnectedAt(v, k, sender);
      assert FindConnection(v1, sender) == -1;
      var body := VerifyHmac(v1.challenges[challenge].sharedKey, m);
      DispatchGameData(v1, indexing, group, self, body, sender, p_size, secret);
    } else {
      DispatchGameData(v, indexing, group, self, VerifyCrc(m), sender, p_size, secret);
    }
  }

  lemma HostIsNotSender(v: View, indexing: Indexing, sender: Address)
    requires Consistent(v, indexing) && sender != HOST
    ensures FindConnection(v, sender) != 0
  {
  }

  lemma DispatchGameData(v: View, indexing: Indexing, group: Group, self: Address,
                         body: Option<Body>, sender: Address, p_size: nat, secret: PrivateKey)
    ensures var r := Dispatch(v, indexing, group, self, body, sender, p_size, secret);
      var i := FindConnection(v, sender);
      if v.inGame && i > 0 && body.Some? && body.value.Data?
      then
        if p_size >= |body.value.payload| + 47
        then r == Reception(Effect(v, []), |body.value.payload|, Some((i, body.value.payload)))
        else r == Reception(Effect(v, []), -1, None)
      else r.gameData == None && r.ret == 0
  {
    hide HandleRequest, HandleResponse, RemoveClient;
  }

  // ---- How the set of connections moves ----

  /** No slot was taken and every slot still taken has the same occupant. */
  predicate OnlyShrinks(v: View, w: View) {
    forall i :: 0 <= i < MAX_CLIENTS && w.connected[i] ==> v.connected[i] && w.connections[i] == v.connections[i]
  }

  /** Slot was given to `a` under key k, and that is all that changed among the connections. */
  predicate Gives(v: View, w: View, slot: int, a: Address, k: Key) {
    && 0 < slot < MAX_CLIENTS && !v.connected[slot]
    && w.connected == v.connected[slot := true]
    && w.connections == v.connections[slot := ConnectionInfo(a, k, 0)]
  }

  predicate IsChallengeTo(d: Datagram, self: Address, a: Address) {
    d.src == self && d.dst == a && d.number == 0 && d.message.CrcSealed? && d.message.body.Challenge?
  }

  /** A datagram either lets the connections only shrink and is answered with
      challenges at most, or it is a response sealed with the key it earns a slot
      for, in the lobby, and is answered with the acceptance. */
  predicate ListenMoves(v: View, e: Effect, self: Address, m: Message, sender: Address, slot: int) {
    if slot == 0
    then OnlyShrinks(v, e.view) && forall d :: d in e.sent ==> IsChallengeTo(d, self, sender)
    else
      && m.HmacSealed? && m.body.Response? && m.key.Derived? && !v.inGame
      && Gives(v, e.view, slot, sender, m.key)
      && e.sent == [Datagram(self, sender, HmacSealed(m.key, Accepted(slot)), 0)]
  }

  lemma RemoveMoves(v: View, indexing: Indexing, a: Address)
    requires Consistent(v, indexing)
    ensures OnlyShrinks(v, RemoveClient(v, indexing, a)) && RemoveClient(v, indexing, a).inGame == v.inGame
  {
  }

  lemma RequestMoves(v: View, indexing: Indexing, group: Group, self: Address,
                     clientKey: PublicKey, sender: Address, secret: PrivateKey)
    ensures var e := HandleRequest(v, indexing, group, self, clientKey, sender, secret);
      && e.view.connected == v.connected && e.view.connections == v.connections && e.view.inGame == v.inGame
      && forall d :: d in e.sent ==> IsChallengeTo(d, self, sender)
  {
  }

  lemma CollectTwice(v: View, sender: Address, challenge: int)
    requires challenge == FindChallenge(v, sender) >= 0
    ensures var v1 := CollectAt(v, challenge);
      FindChallenge(v1, sender) == challenge && CollectAt(v1, challenge) == v1
  {
    var v1 := CollectAt(v, challenge);
    assert ChallengedAt(v1, challenge, sender);
    var r := FindChallenge(v1, sender);
    assert ChallengedAt(v, r, sender);
  }

  /** A response takes the first free slot for the challenged sender. */
  lemma ResponseMoves(v: View, indexing: Indexing, self: Address, m: Message, sender: Address) returns (slot: int)
    requires Consistent(v, indexing) && m.HmacSealed? && m.body.Response? && !v.inGame
    requires FindChallenge(v, sender) >= 0 ==>
      m.key == Collect(v.challenges[FindChallenge(v, sender)]).sharedKey
    ensures ListenMoves(v, HandleResponse(v, self, sender), self, m, sender, slot)
    ensures HandleResponse(v, self, sender).view.inGame == v.inGame
  {
    slot := if FindChallenge(v, sender) >= 0 && FindFree(v.connected) >= 0 then FindFree(v.connected) else 0;
  }

  lemma NothingTaken(v: View, e: Effect, self: Address, m: Message, sender: Address)
    requires OnlyShrinks(v, e.view) && forall d :: d in e.sent ==> IsChallengeTo(d, self, sender)
    ensures ListenMoves(v, e, self, m, sender, 0)
  {
  }

  lemma DispatchMoves(v: View, indexing: Indexing, group: Group, self: Address, m: Message,
                      body: Option<Body>, sender: Address, p_size: nat, secret: PrivateKey) returns (slot: int)
    requires Consistent(v, indexing)
    requires body == Some(Response) ==> m.HmacSealed? && m.body.Response?
    requires body == Some(Response) && FindChallenge(v, sender) >= 0 ==>
      m.key == Collect(v.challenges[FindChallenge(v, sender)]).sharedKey
    ensures ListenMoves(
      v, Dispatch(v, indexing, group, self, body, sender, p_size, secret).effect, self, m, sender, slot)
    ensures Dispatch(v, indexing, group, self, body, sender, p_size, secret).effect.view.inGame == v.inGame
  {
    hide Consistent, ListenMoves, IsChallengeTo, HandleRequest, HandleResponse, RemoveClient;
    slot := 0;
    NothingMoves(v, self, m, sender);
    match body
    case Some(Request(clientKey)) =>
      RequestMoves(v, indexing, group, self, clientKey, sender, secret);
      NothingTaken(v, HandleRequest(v, indexing, group, self, clientKey, sender, secret), self, m, sender);
    case Some(Response) =>
      if !v.inGame {
        slot := ResponseMoves(v, indexing, self, m, sender);
      }
    case Some(Disconnect) =>
      RemoveMoves(v, indexing, sender);
      NothingTaken(v, Effect(RemoveClient(v, indexing, sender), []), self, m, sender);
    case _ =>
  }

  lemma MovesFromCollected(v: View, v1: View, e: Effect, self: Address, m: Message, sender: Address, slot: int)
    requires v1.connected == v.connected && v1.connections == v.connections && v1.inGame == v.inGame
    requires ListenMoves(v1, e, self, m, sender, slot)
    ensures ListenMoves(v, e, self, m, sender, slot)
  {
  }

  lemma NothingMoves(v: View, self: Address, m: Message, sender: Address)
    ensures ListenMoves(v, Effect(v, []), self, m, sender, 0)
  {
  }

  lemma ListenMovesHow(v: View, indexing: Indexing, group: Group, self: Address,
                       m: Message, sender: Address, p_size: nat, secret: PrivateKey) returns (slot: int)
    requires Consistent(v, indexing) && sender != HOST
    ensures ListenMoves(v, Listen(v, indexing, group, self, m, sender, p_size, secret).effect, self, m, sender, slot)
    ensures Listen(v, indexing, group, self, m, sender, p_size, secret).effect.view.inGame == v.inGame
  {
    hide Dispatch, Consistent, ListenMoves;
    NothingMoves(v, self, m, sender);
    var connection, challenge := FindConnection(v, sender), FindChallenge(v, sender);
    if connection > 0 {
      UniqueConnection(v, indexing, connection);
      var body := VerifyHmac(v.connections[connection].sharedKey, m);
      slot := DispatchMoves(v, indexing, group, self, m, body, sender, p_size, secret);
    } else if challenge < 0 {
      var body := VerifyCrc(m);
      slot := 0;
      if body.Some? && body.value.Request? {
        slot := DispatchMoves(v, indexing, group, self, m, body, sender, p_size, secret);
      }
    } else {
      var v1 := CollectAt(v, challenge);
      CollectKeeps(v, indexing, challenge);
      CollectTwice(v, sender, challenge);
      var body := VerifyHmac(v1.challenges[challenge].sharedKey, m);
      slot := DispatchMoves(v1, indexing, group, self, m, body, sender, p_size, secret);
      var e := Listen(v, indexing, group, self, m, sender, p_size, secret).effect;
      MovesFromCollected(v, v1, e, self, m, sender, slot);
    }
  }

  /** Every pending challenge of w was one of v or is the sender's. */
  predicate ChallengersFrom(v: View, w: View, sender: Address) {
    forall j :: 0 <= j < MAX_CLIENTS && w.challenged[j] ==>
      w.challenges[j].clientAddress == sender
      || (v.challenged[j] && v.challenges[j].clientAddress == w.challenges[j].clientAddress)
  }

  lemma RequestChallengers(v: View, indexing: Indexing, group: Group, self: Address,
                           clientKey: PublicKey, sender: Address, secret: PrivateKey)
    ensures ChallengersFrom(v, HandleRequest(v, indexing, group, self, clientKey, sender, secret).view, sender)
  {
  }

  lemma RemoveChallengers(v: View, indexing: Indexing, a: Address)
    ensures ChallengersFrom(v, RemoveClient(v, indexing, a), HOST)
    ensures ChallengersFrom(v, RemoveClient(v, indexing, a), a)
  {
  }

  lemma DispatchChallengers(v: View, indexing: Indexing, group: Group, self: Address,
                            body: Option<Body>, sender: Address, p_size: nat, secret: PrivateKey)
    ensures ChallengersFrom(v, Dispatch(v, indexing, group, self, body, sender, p_size, secret).effect.view, sender)
  {
    match body
    case Some(Request(clientKey)) => RequestChallengers(v, indexing, group, self, clientKey, sender, secret);
    case Some(Disconnect) => RemoveChallengers(v, indexing, sender);
    case _ =>
  }

  lemma ListenChallengers(v: View, indexing: Indexing, group: Group, self: Address,
                          m: Message, sender: Address, p_size: nat, secret: PrivateKey)
    ensures ChallengersFrom(v, Listen(v, indexing, group, self, m, sender, p_size, secret).effect.view, sender)
  {
    hide Dispatch;
    var connection, challenge := FindConnection(v, sender), FindChallenge(v, sender);
    if connection > 0 {
      var body := VerifyHmac(v.connections[connection].sharedKey, m);
      DispatchChallengers(v, indexing, group, self, body, sender, p_size, secret);
    } else if challenge < 0 {
      DispatchChallengers(v, indexing, group, self, VerifyCrc(m), sender, p_size, secret);
    } else {
      var v1 := CollectAt(v, challenge);
      var body := VerifyHmac(v1.challenges[challenge].sharedKey, m);
      DispatchChallengers(v1, indexing, group, self, body, sender, p_size, secret);
    }
  }

  lemma KickChallengers(v: View, indexing: Indexing, self: Address, a: Address)
    requires Consistent(v, indexing)
    ensures ChallengersFrom(v, KickClient(v, indexing, self, a).view, HOST)
  {
    hide RemoveClient;
    RemoveChallengers(v, indexing, a);
    var challenge := FindChallenge(v, a);
    if challenge >= 0 {
      RemoveChallengers(CollectAt(v, challenge), indexing, a);
    }
  }

  lemma KickMovesHow(v: View, indexing: Indexing, self: Address, a: Address)
    requires Consistent(v, indexing)
    ensures var e := KickClient(v, indexing, self, a);
      && OnlyShrinks(v, e.view) && e.view.inGame == v.inGame
      && forall d :: d in e.sent ==>
           d.src == self && d.dst == a && d.number == 0 && d.message.HmacSealed? && d.message.body == Disconnect
    ensures KickClient(v, indexing, self, a).sent != [] ==>
      || (exists i :: 0 < i < MAX_CLIENTS && ConnectedAt(v, i, a))
      || (exists i :: 0 <= i < MAX_CLIENTS && ChallengedAt(v, i, a))
  {
    hide RemoveClient, Consistent;
    var connection, challenge := FindConnection(v, a), FindChallenge(v, a);
    RemoveMoves(v, indexing, a);
    if connection > 0 {
      assert ConnectedAt(v, connection, a);
    } else if challenge >= 0 {
      CollectKeeps(v, indexing, challenge);
      RemoveMoves(CollectAt(v, challenge), indexing, a);
      assert ChallengedAt(v, challenge, a);
    }
  }
}
