/** Exactly what the server does with what arrives and whom it kicks: whatever
    else is pending or connected at the time. */
module ServerOutcomes {
  import opened Words
  import opened Wire
  import opened Servers
  import opened Tables

  /** The slots hold the same clients, the count and the mode are the same. */
  predicate SameConnections(v: View, w: View) {
    w.connected == v.connected && w.connections == v.connections
    && w.numConnections == v.numConnections && w.inGame == v.inGame
  }

  predicate SameChallenges(v: View, w: View) {
    w.challenged == v.challenged && w.challenges == v.challenges
  }

  /** Somebody else than a has a challenge pending in slot j. */
  predicate OtherAt(v: View, j: int, a: Address)
    requires 0 <= j < MAX_CLIENTS
  {
    v.challenged[j] && v.challenges[j].clientAddress != a
  }

  /** The others' pending challenges are the same. */
  predicate OthersPending(v: View, w: View, a: Address) {
    forall j :: 0 <= j < MAX_CLIENTS ==>
      OtherAt(w, j, a) == OtherAt(v, j, a) && (OtherAt(v, j, a) ==> w.challenges[j] == v.challenges[j])
  }

  /** No other challenge is pending than before. */
  predicate NoOtherNew(v: View, w: View, a: Address) {
    forall j :: 0 <= j < MAX_CLIENTS && OtherAt(w, j, a) ==>
      OtherAt(v, j, a) && w.challenges[j] == v.challenges[j]
  }

  /** Client a has a challenge pending, under this key. */
  predicate PendingUnder(v: View, a: Address, k: Key) {
    exists j :: 0 <= j < MAX_CLIENTS && ChallengedAt(v, j, a) && Collect(v.challenges[j]).sharedKey == k
  }

  predicate IsPending(v: View, a: Address) {
    exists j :: 0 <= j < MAX_CLIENTS && ChallengedAt(v, j, a)
  }

  predicate IsConnected(v: View, a: Address) {
    exists i :: 0 <= i < MAX_CLIENTS && ConnectedAt(v, i, a)
  }

  lemma Found(v: View, a: Address)
    ensures IsPending(v, a) <==> FindChallenge(v, a) >= 0
    ensures IsConnected(v, a) <==> FindConnection(v, a) >= 0
  {
  }

  /** Which challenge is pending for a is settled: addresses are distinct. */
  lemma PendingAt(v: View, indexing: Indexing, a: Address, j: int)
    requires Consistent(v, indexing) && 0 <= j < MAX_CLIENTS && ChallengedAt(v, j, a)
    ensures FindChallenge(v, a) == j && FindConnection(v, a) == -1
    ensures indexing == AsWritten ==> j == 1
    ensures forall k :: PendingUnder(v, a, k) <==> k == Collect(v.challenges[j]).sharedKey
  {
    var f := FindChallenge(v, a);
    assert f == j || f < j || j < f;
  }

  // ---- Requests ----

  /** A free challenge slot is booked, in the slot the indexing stores. */
  lemma Booking(v: View, indexing: Indexing, group: Group, self: Address,
                clientKey: PublicKey, sender: Address, secret: PrivateKey)
    requires Consistent(v, indexing) && !IsPending(v, sender) && false in v.challenged
    ensures var e := HandleRequest(v, indexing, group, self, clientKey, sender, secret);
      && PendingUnder(e.view, sender, group.KeyFor(clientKey, secret))
      && SameConnections(v, e.view) && NoOtherNew(v, e.view, sender)
      && (indexing == AsIntended ==> OthersPending(v, e.view, sender))
      && e.sent == [Datagram(self, sender, CrcSealed(Challenge(group.pub(secret))), 0)]
  {
    Found(v, sender);
    var free := FindFree(v.challenged);
    var i := Stored(indexing, free);
    var w := HandleRequest(v, indexing, group, self, clientKey, sender, secret).view;
    assert ChallengedAt(w, i, sender);
    assert indexing == AsIntended ==> i == free && !v.challenged[i];
  }

  /** In the lobby, a stranger's request books a challenge under the key the server
      agrees with it and is answered with the server's public key; as intended no
      other pending challenge is touched. */
  lemma RequestIsAnswered(v: View, indexing: Indexing, group: Group, self: Address,
                          clientKey: PublicKey, sender: Address, p_size: nat, secret: PrivateKey)
    requires Consistent(v, indexing) && !v.inGame && false in v.challenged
    requires !IsPending(v, sender) && !IsConnected(v, sender)
    ensures var r := Listen(v, indexing, group, self, CrcSealed(Request(clientKey)), sender, p_size, secret);
      && PendingUnder(r.effect.view, sender, group.KeyFor(clientKey, secret))
      && SameConnections(v, r.effect.view) && NoOtherNew(v, r.effect.view, sender)
      && (indexing == AsIntended ==> OthersPending(v, r.effect.view, sender))
      && r.effect.sent == [Datagram(self, sender, CrcSealed(Challenge(group.pub(secret))), 0)]
      && r.ret == 0 && r.gameData == None
  {
    hide HandleRequest, Consistent, PendingUnder, SameConnections, OthersPending, NoOtherNew;
    Found(v, sender);
    Booking(v, indexing, group, self, clientKey, sender, secret);
  }

  /** With no challenge slot free, or while the game runs, it changes nothing. */
  lemma RequestIsDenied(v: View, indexing: Indexing, group: Group, self: Address,
                        clientKey: PublicKey, sender: Address, p_size: nat, secret: PrivateKey)
    requires v.inGame || false !in v.challenged
    requires !IsPending(v, sender) && !IsConnected(v, sender)
    ensures Listen(v, indexing, group, self, CrcSealed(Request(clientKey)), sender, p_size, secret)
         == Reception(Effect(v, []), 0, None)
  {
    Found(v, sender);
  }

  /** A second request of the same client is answered with the same public key, and
      the key agreed with it stays what it was. */
  lemma RequestIsRepeated(v: View, indexing: Indexing, group: Group, self: Address,
                          clientKey: PublicKey, sender: Address, secret: PrivateKey, j: int)
    requires Consistent(v, indexing) && 0 <= j < MAX_CLIENTS && ChallengedAt(v, j, sender)
    ensures var e := HandleRequest(v, indexing, group, self, clientKey, sender, secret);
      var c := v.challenges[j];
      && e.sent == [Datagram(self, sender, CrcSealed(Challenge(c.serverPublicKey)), 0)]
      && PendingUnder(e.view, sender, group.KeyFor(c.clientPublicKey, c.serverPrivateKey))
      && SameConnections(v, e.view) && OthersPending(v, e.view, sender) && e.view.challenged == v.challenged
  {
    PendingAt(v, indexing, sender, j);
    var w := HandleRequest(v, indexing, group, self, clientKey, sender, secret).view;
    assert ChallengedAt(w, j, sender);
  }

  // ---- Responses ----

  /** The tables after the key of a's pending challenge was collected, if it has one. */
  predicate KeyCollected(v: View, w: View, a: Address) {
    SameConnections(v, w) && OthersPending(v, w, a) && w.challenged == v.challenged
    && forall j :: 0 <= j < MAX_CLIENTS && ChallengedAt(v, j, a) ==> w.challenges[j] == Collect(v.challenges[j])
  }

  /** From v, a was let in under k: it has the first free slot, one more is counted,
      its challenge is gone and nobody else's is touched. */
  predicate Admitted(v: View, w: View, a: Address, k: Key, slot: int) {
    && 0 <= slot < MAX_CLIENTS && !v.connected[slot] && (forall i :: 0 <= i < slot ==> v.connected[i])
    && w.connected == v.connected[slot := true]
    && w.connections == v.connections[slot := ConnectionInfo(a, k, 0)]
    && w.numConnections == v.numConnections + 1 && w.inGame == v.inGame
    && !IsPending(w, a) && OthersPending(v, w, a)
  }

  lemma Admission(v: View, indexing: Indexing, self: Address, a: Address, j: int, slot: int)
    requires Consistent(v, indexing) && 0 <= j < MAX_CLIENTS && ChallengedAt(v, j, a)
    requires slot == FindFree(v.connected) >= 0
    ensures var e := HandleResponse(v, self, a);
      var k := Collect(v.challenges[j]).sharedKey;
      && Admitted(v, e.view, a, k, slot)
      && e.sent == [Datagram(self, a, HmacSealed(k, Accepted(slot)), 0)]
  {
    PendingAt(v, indexing, a, j);
  }

  /** In the lobby, a pending client's response under the agreed key lets it into
      the first free slot and is answered with that slot, under that key; with no
      slot free the client stays pending and nothing is sent. */
  lemma ResponseIsAdmitted(v: View, indexing: Indexing, group: Group, self: Address,
                           a: Address, k: Key, p_size: nat, secret: PrivateKey)
    requires Consistent(v, indexing) && !v.inGame && PendingUnder(v, a, k)
    ensures var r := Listen(v, indexing, group, self, HmacSealed(k, Response), a, p_size, secret);
      && r.ret == 0 && r.gameData == None
      && if false in v.connected then
           exists slot :: Admitted(v, r.effect.view, a, k, slot)
             && r.effect.sent == [Datagram(self, a, HmacSealed(k, Accepted(slot)), 0)]
         else r.effect.sent == [] && KeyCollected(v, r.effect.view, a)
  {
    var j :| 0 <= j < MAX_CLIENTS && ChallengedAt(v, j, a) && Collect(v.challenges[j]).sharedKey == k;
    PendingAt(v, indexing, a, j);
    CollectedIs(v, indexing, a, j);
    hide Consistent, Admitted, HandleResponse, KeyCollected, IsPending, PendingUnder;
    var v1 := CollectAt(v, j);
    var r := Listen(v, indexing, group, self, HmacSealed(k, Response), a, p_size, secret);
    assert r.effect == HandleResponse(v1, self, a);
    var slot := FindFree(v.connected);
    if slot >= 0 {
      Admission(v1, indexing, self, a, j, slot);
      AdmittedFromCollected(v, v1, r.effect.view, a, k, j, slot);
    } else {
      Full(v, indexing, self, a, j);
    }
  }

  lemma CollectedConnection(v: View, j: int, a: Address)
    requires 0 <= j < MAX_CLIENTS
    ensures FindConnection(CollectAt(v, j), a) == FindConnection(v, a)
  {
    var w := CollectAt(v, j);
    var r, f := FindConnection(w, a), FindConnection(v, a);
    assert forall i :: 0 <= i < MAX_CLIENTS ==> ConnectedAt(w, i, a) == ConnectedAt(v, i, a);
    assert r == f || r < f || f < r;
  }

  lemma CollectedIs(v: View, indexing: Indexing, a: Address, j: int)
    requires Consistent(v, indexing) && 0 <= j < MAX_CLIENTS && ChallengedAt(v, j, a)
    ensures var v1 := CollectAt(v, j);
      && KeyCollected(v, v1, a) && IsPending(v1, a) && Consistent(v1, indexing)
      && FindConnection(v1, a) == -1 && FindChallenge(v1, a) == j && CollectAt(v1, j) == v1
  {
    PendingAt(v, indexing, a, j);
    CollectKeeps(v, indexing, j);
    CollectTwice(v, a, j);
    CollectedConnection(v, j, a);
    assert ChallengedAt(CollectAt(v, j), j, a);
  }

  lemma ThroughCollected(v: View, v1: View, w: View, a: Address)
    requires KeyCollected(v, v1, a) && SameConnections(v1, w) && OthersPending(v1, w, a)
    ensures SameConnections(v, w) && OthersPending(v, w, a)
  {
  }

  lemma AdmittedFromCollected(v: View, v1: View, w: View, a: Address, k: Key, j: int, slot: int)
    requires 0 <= j < MAX_CLIENTS && ChallengedAt(v, j, a) && v1 == CollectAt(v, j)
    requires Admitted(v1, w, a, k, slot)
    ensures Admitted(v, w, a, k, slot)
  {
  }

  lemma Full(v: View, indexing: Indexing, self: Address, a: Address, j: int)
    requires Consistent(v, indexing) && 0 <= j < MAX_CLIENTS && ChallengedAt(v, j, a)
    requires FindFree(v.connected) < 0
    ensures var e := HandleResponse(CollectAt(v, j), self, a);
      false !in v.connected && e.sent == [] && KeyCollected(v, e.view, a)
  {
    PendingAt(v, indexing, a, j);
    CollectTwice(v, a, j);
  }

  // ---- Removal ----

  /** Removing a client that is not connected drops its pending challenge, if any,
      and nothing else. */
  lemma RemovalOfPending(v: View, indexing: Indexing, a: Address)
    requires Consistent(v, indexing) && FindConnection(v, a) <= 0
    ensures var w := RemoveClient(v, indexing, a);
      SameConnections(v, w) && !IsPending(w, a) && OthersPending(v, w, a)
  {
    Found(v, a);
    if IsPending(v, a) {
      PendingAt(v, indexing, a, FindChallenge(v, a));
    } else {
      assert RemoveClient(v, indexing, a) == v;
    }
  }

  /** Removing a connected client clears its slot as intended, slot 1 as written,
      counts one less and touches no challenge. */
  lemma RemovalOfConnected(v: View, indexing: Indexing, a: Address, i: int)
    requires Consistent(v, indexing) && 0 < i < MAX_CLIENTS && ConnectedAt(v, i, a)
    ensures var w := RemoveClient(v, indexing, a);
      var cleared := if indexing == AsIntended then i else 1;
      && w.connected == v.connected[cleared := false] && w.connections == v.connections[cleared := NO_CONNECTION]
      && w.numConnections == v.numConnections - 1 && w.inGame == v.inGame && SameChallenges(v, w)
  {
    UniqueConnection(v, indexing, i);
  }

  /** A pending client's disconnect packet drops its challenge exactly if it is
      sealed under the agreed key; nobody else is affected. */
  lemma PendingDisconnects(v: View, indexing: Indexing, group: Group, self: Address,
                           a: Address, k: Key, p_size: nat, secret: PrivateKey)
    requires Consistent(v, indexing) && IsPending(v, a)
    ensures var r := Listen(v, indexing, group, self, HmacSealed(k, Disconnect), a, p_size, secret);
      && r.effect.sent == [] && r.ret == 0 && r.gameData == None
      && SameConnections(v, r.effect.view) && OthersPending(v, r.effect.view, a)
      && (IsPending(r.effect.view, a) <==> !PendingUnder(v, a, k))
  {
    var j :| 0 <= j < MAX_CLIENTS && ChallengedAt(v, j, a);
    PendingAt(v, indexing, a, j);
    CollectedIs(v, indexing, a, j);
    hide RemoveClient, Consistent, KeyCollected, IsPending, PendingUnder, SameConnections, OthersPending;
    var v1 := CollectAt(v, j);
    RemovalOfPending(v1, indexing, a);
    ThroughCollected(v, v1, RemoveClient(v1, indexing, a), a);
    JustCollected(v, v1, a);
  }

  lemma JustCollected(v: View, v1: View, a: Address)
    requires KeyCollected(v, v1, a)
    ensures SameConnections(v, v1) && OthersPending(v, v1, a)
  {
  }

  // ---- Kicks ----

  /** Ten copies of a disconnect packet to a, under key k. */
  predicate TenDisconnects(sent: seq<Datagram>, self: Address, a: Address, k: Key) {
    |sent| == 10 && forall d :: d in sent ==> d == Datagram(self, a, HmacSealed(k, Disconnect), 0)
  }

  /** A kicked client is sent ten disconnect packets under the key it has, or is
      about to have, and its slot or its pending challenge goes; kicking anyone
      else does nothing. */
  lemma KickIsExact(v: View, indexing: Indexing, self: Address, a: Address)
    requires Consistent(v, indexing) && a != HOST
    ensures var e := KickClient(v, indexing, self, a);
      && (forall i :: 0 <= i < MAX_CLIENTS && ConnectedAt(v, i, a) ==>
            TenDisconnects(e.sent, self, a, v.connections[i].sharedKey)
            && e.view == RemoveClient(v, indexing, a))
      && (forall k :: PendingUnder(v, a, k) ==>
            && TenDisconnects(e.sent, self, a, k)
            && SameConnections(v, e.view) && !IsPending(e.view, a) && OthersPending(v, e.view, a))
      && (!IsConnected(v, a) && !IsPending(v, a) ==> e == Effect(v, []))
  {
    Found(v, a);
    if IsConnected(v, a) {
      KickOfConnected(v, indexing, self, a, FindConnection(v, a));
    } else if IsPending(v, a) {
      KickOfPending(v, indexing, self, a, FindChallenge(v, a));
    }
  }

  lemma KickOfConnected(v: View, indexing: Indexing, self: Address, a: Address, i: int)
    requires Consistent(v, indexing) && 0 < i < MAX_CLIENTS && ConnectedAt(v, i, a)
    ensures var e := KickClient(v, indexing, self, a);
      && TenDisconnects(e.sent, self, a, v.connections[i].sharedKey) && e.view == RemoveClient(v, indexing, a)
    ensures !IsPending(v, a) && forall j :: 0 <= j < MAX_CLIENTS && ConnectedAt(v, j, a) ==> j == i
  {
    hide RemoveClient;
    UniqueConnection(v, indexing, i);
  }

  lemma KickOfPending(v: View, indexing: Indexing, self: Address, a: Address, j: int)
    requires Consistent(v, indexing) && 0 <= j < MAX_CLIENTS && ChallengedAt(v, j, a)
    ensures var e := KickClient(v, indexing, self, a);
      && TenDisconnects(e.sent, self, a, Collect(v.challenges[j]).sharedKey)
      && SameConnections(v, e.view) && !IsPending(e.view, a) && OthersPending(v, e.view, a)
    ensures !IsConnected(v, a) && forall k :: PendingUnder(v, a, k) <==> k == Collect(v.challenges[j]).sharedKey
  {
    Found(v, a);
    PendingAt(v, indexing, a, j);
    CollectedIs(v, indexing, a, j);
    hide RemoveClient, Consistent, KeyCollected, IsPending, PendingUnder, SameConnections, OthersPending;
    var v1 := CollectAt(v, j);
    RemovalOfPending(v1, indexing, a);
    ThroughCollected(v, v1, RemoveClient(v1, indexing, a), a);
  }

  // ---- Everything else ----

  /** The server has a use for the datagram: it verifies, and the mode allows it. */
  predicate Heard(v: View, m: Message, a: Address) {
    || (exists i :: 0 < i < MAX_CLIENTS && ConnectedAt(v, i, a)
          && (m == HmacSealed(v.connections[i].sharedKey, Disconnect)
              || (v.inGame && m.HmacSealed? && m.key == v.connections[i].sharedKey && m.body.Data?)))
    || (m.HmacSealed? && PendingUnder(v, a, m.key)
          && (m.body.Disconnect? || (!v.inGame && m.body.Response?)))
    || (!IsConnected(v, a) && !IsPending(v, a) && !v.inGame && false in v.challenged
          && m.CrcSealed? && m.body.Request?)
  }

  lemma DispatchIgnores(v: View, indexing: Indexing, group: Group, self: Address,
                        body: Option<Body>, a: Address, p_size: nat, secret: PrivateKey)
    requires body.Some? ==>
      && !body.value.Request? && !body.value.Disconnect?
      && (body.value.Response? ==> v.inGame || FindChallenge(v, a) < 0)
      && (body.value.Data? ==> !v.inGame || FindConnection(v, a) <= 0)
    ensures Dispatch(v, indexing, group, self, body, a, p_size, secret) == Reception(Effect(v, []), 0, None)
  {
  }

  /** Any other honest datagram is ignored: nothing is sent, returned or changed,
      except that a pending key is collected. */
  lemma TheRestIsIgnored(v: View, indexing: Indexing, group: Group, self: Address,
                         m: Message, a: Address, p_size: nat, secret: PrivateKey)
    requires Consistent(v, indexing) && Honest(m) && a != HOST && !Heard(v, m, a)
    ensures var r := Listen(v, indexing, group, self, m, a, p_size, secret);
      r.effect.sent == [] && r.ret == 0 && r.gameData == None && KeyCollected(v, r.effect.view, a)
  {
    Found(v, a);
    HostIsNotSender(v, indexing, a);
    var connection, challenge := FindConnection(v, a), FindChallenge(v, a);
    if connection > 0 {
      ConnectedIgnored(v, indexing, group, self, m, a, p_size, secret, connection);
    } else if challenge >= 0 {
      PendingIgnored(v, indexing, group, self, m, a, p_size, secret, challenge);
    } else if m.CrcSealed? && m.body.Request? {
      RequestIsDenied(v, indexing, group, self, m.body.clientPublicKey, a, p_size, secret);
    }
  }

  lemma ConnectedIgnored(v: View, indexing: Indexing, group: Group, self: Address,
                         m: Message, a: Address, p_size: nat, secret: PrivateKey, i: int)
    requires Consistent(v, indexing) && Honest(m) && !Heard(v, m, a)
    requires 0 < i < MAX_CLIENTS && ConnectedAt(v, i, a)
    ensures Listen(v, indexing, group, self, m, a, p_size, secret) == Reception(Effect(v, []), 0, None)
    ensures KeyCollected(v, v, a)
  {
    Found(v, a);
    UniqueConnection(v, indexing, i);
    hide Dispatch, Consistent;
    DispatchIgnores(v, indexing, group, self, VerifyHmac(v.connections[i].sharedKey, m), a, p_size, secret);
  }

  lemma PendingIgnored(v: View, indexing: Indexing, group: Group, self: Address,
                       m: Message, a: Address, p_size: nat, secret: PrivateKey, j: int)
    requires Consistent(v, indexing) && Honest(m) && !Heard(v, m, a)
    requires 0 <= j < MAX_CLIENTS && ChallengedAt(v, j, a)
    ensures Listen(v, indexing, group, self, m, a, p_size, secret) == Reception(Effect(CollectAt(v, j), []), 0, None)
    ensures KeyCollected(v, CollectAt(v, j), a)
  {
    PendingAt(v, indexing, a, j);
    CollectedIs(v, indexing, a, j);
    hide Dispatch, Consistent, KeyCollected, IsPending, IsConnected, PendingUnder;
    var v1 := CollectAt(v, j);
    DispatchIgnores(v1, indexing, group, self, VerifyHmac(v1.challenges[j].sharedKey, m), a, p_size, secret);
  }
}
