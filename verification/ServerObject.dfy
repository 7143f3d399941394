/** The server object: the slot tables of Server.h updated in place by the
    methods of Server.cpp. */
module ServerObject {
  import opened Words
  import opened Wire
  import opened Sequences
  import opened Servers

  /** The fan-out from slot i on looks at no earlier slot. */
  lemma {:induction false} FanOutLater(v: View, w: View, self: Address, payload: seq<bv8>, numbers: seq<nat>, i: nat)
    requires i <= MAX_CLIENTS == |numbers| && w.connected == v.connected
    requires forall k :: i <= k < MAX_CLIENTS ==> w.connections[k] == v.connections[k]
    ensures FanOut(w, self, payload, numbers, i) == FanOut(v, self, payload, numbers, i)
    decreases MAX_CLIENTS - i
  {
    if i == MAX_CLIENTS {
    } else {
      FanOutLater(v, w, self, payload, numbers, i + 1);
    }
  }

  class Server {
    const indexing: Indexing
    const group: Group
    const self: Address
    const connected: array<bool>
    const connections: array<ConnectionInfo>
    const challenged: array<bool>
    const challenges: array<ChallengeInfo>
    var numConnections: int
    var inGame: bool
    /** Everything handed to the socket so far. */
    var sent: seq<Datagram>

    ghost predicate Valid() {
      && connected.Length == MAX_CLIENTS && connections.Length == MAX_CLIENTS
      && challenged.Length == MAX_CLIENTS && challenges.Length == MAX_CLIENTS
      && connected != challenged
    }

    ghost function Tables(): View
      requires Valid()
      reads this, connected, connections, challenged, challenges
    {
      Servers.Tables(connected[..], connections[..], challenged[..], challenges[..], numConnections, inGame)
    }

    /** The operation had this effect on the tables and on the socket. */
    ghost predicate Did(e: Effect, before: seq<Datagram>)
      requires Valid()
      reads this, connected, connections, challenged, challenges
    {
      Tables() == e.view && sent == before + e.sent
    }

    constructor (indexing: Indexing, group: Group, self: Address)
      ensures Valid() && Tables() == Initial() && sent == []
      ensures this.indexing == indexing && this.group == group && this.self == self
      ensures fresh(connected) && fresh(connections) && fresh(challenged) && fresh(challenges)
    {
      this.indexing, this.group, this.self := indexing, group, self;
      connected := new bool[MAX_CLIENTS](i => i == 0);
      connections := new ConnectionInfo[MAX_CLIENTS](
        i => if i == 0 then ConnectionInfo(HOST, ZeroKey, 0) else NO_CONNECTION);
      challenged := new bool[MAX_CLIENTS](_ => false);
      challenges := new ChallengeInfo[MAX_CLIENTS](_ => NO_CHALLENGE);
      numConnections := 1;
      inGame := false;
      sent := [];
    }

    // ---- Lookups ----

    method FindFreeConnectionIndex() returns (r: int)
      requires Valid()
      ensures r == FindFree(Tables().connected)
    {
      for i := 0 to MAX_CLIENTS
        invariant FindFree(connected[..]) == FindFree(connected[..], i)
      {
        if !connected[i] {
          return i;
        }
      }
      return -1;
    }

    method FindFreeChallengeIndex() returns (r: int)
      requires Valid()
      ensures r == FindFree(Tables().challenged)
    {
      for i := 0 to MAX_CLIENTS
        invariant FindFree(challenged[..]) == FindFree(challenged[..], i)
      {
        if !challenged[i] {
          return i;
        }
      }
      return -1;
    }

    method FindExistingConnectionIndex(a: Address) returns (r: int)
      requires Valid()
      ensures r == FindConnection(Tables(), a)
    {
      for i := 0 to MAX_CLIENTS
        invariant FindConnection(Tables(), a) == FindConnection(Tables(), a, i)
      {
        if connected[i] && connections[i].clientAddress == a {
          return i;
        }
      }
      return -1;
    }

    method FindExistingChallengeIndex(a: Address) returns (r: int)
      requires Valid()
      ensures r == FindChallenge(Tables(), a)
    {
      for i := 0 to MAX_CLIENTS
        invariant FindChallenge(Tables(), a) == FindChallenge(Tables(), a, i)
      {
        if challenged[i] && challenges[i].clientAddress == a {
          return i;
        }
      }
      return -1;
    }

    // ---- Handlers ----

    method Send(d: Datagram)
      modifies this`sent
      ensures sent == old(sent) + [d]
    {
      sent := sent + [d];
    }

    /** The future's value, if it has not been collected yet. */
    method CollectKey(i: int)
      requires Valid() && 0 <= i < MAX_CLIENTS
      modifies challenges
      ensures Tables() == CollectAt(old(Tables()), i)
    {
      var c := challenges[i];
      if c.sharedKeyFuture.Some? {
        challenges[i] := c.(sharedKey := c.sharedKeyFuture.value, sharedKeyFuture := None);
      }
    }

    method HandleConnectionRequest(clientPublicKey: PublicKey, sender: Address, secret: PrivateKey)
      requires Valid()
      modifies this`sent, challenges, challenged
      ensures Did(HandleRequest(old(Tables()), indexing, group, self, clientPublicKey, sender, secret), old(sent))
    {
      var challIndex := FindExistingChallengeIndex(sender);
      if challIndex < 0 {
        var free := FindFreeChallengeIndex();
        challIndex := Stored(indexing, free);
        if free >= 0 {
          challenges[challIndex] := ChallengeInfo(sender, clientPublicKey, 0, 0, None, ZeroKey);
          challenges[challIndex] :=
            challenges[challIndex].(serverPrivateKey := secret, serverPublicKey := group.pub(secret));
          challenged[challIndex] := true;
        } else {
          return;
        }
      }
      var c := challenges[challIndex];
      challenges[challIndex] := c.(sharedKeyFuture := Some(group.KeyFor(c.clientPublicKey, c.serverPrivateKey)));
      Send(Datagram(self, sender, CrcSealed(Challenge(challenges[challIndex].serverPublicKey)), 0));
    }

    method HandleChallengeResponse(sender: Address)
      requires Valid()
      modifies this`sent, this`numConnections, connected, connections, challenged, challenges
      ensures Did(HandleResponse(old(Tables()), self, sender), old(sent))
    {
      var challengeIndex := FindExistingChallengeIndex(sender);
      if challengeIndex >= 0 {
        var newClientIndex := FindFreeConnectionIndex();
        CollectKey(challengeIndex);
        var challenge := challenges[challengeIndex];
        if newClientIndex > -1 {
          connected[newClientIndex] := true;
          connections[newClientIndex] := ConnectionInfo(challenge.clientAddress, challenge.sharedKey, 0);
          numConnections := numConnections + 1;
          challenged[challengeIndex] := false;
          challenges[challengeIndex] := NO_CHALLENGE;
          Send(Datagram(self, sender, HmacSealed(connections[newClientIndex].sharedKey, Accepted(newClientIndex)), 0));
        }
      }
    }

    method RemoveClient(a: Address)
      requires Valid()
      modifies this`numConnections, connected, connections, challenged, challenges
      ensures Tables() == Servers.RemoveClient(old(Tables()), indexing, a)
    {
      var connection := FindExistingConnectionIndex(a);
      if connection > 0 {
        var clientIdx := Stored(indexing, connection);
        connected[clientIdx] := false;
        connections[clientIdx] := NO_CONNECTION;
        numConnections := numConnections - 1;
      } else {
        var challenge := FindExistingChallengeIndex(a);
        if challenge >= 0 {
          var challIdx := Stored(indexing, challenge);
          challenged[challIdx] := false;
          challenges[challIdx] := NO_CHALLENGE;
        }
      }
    }

    method KickClient(a: Address)
      requires Valid()
      modifies this`numConnections, this`sent, connected, connections, challenged, challenges
      ensures Did(Servers.KickClient(old(Tables()), indexing, self, a), old(sent))
    {
      var clientIdx := FindExistingConnectionIndex(a);
      var clientChallIdx := FindExistingChallengeIndex(a);
      var sharedKey, clientAddress;
      if clientIdx > 0 {
        sharedKey, clientAddress := connections[clientIdx].sharedKey, connections[clientIdx].clientAddress;
      } else if ChallengeIndexPasses(indexing, clientChallIdx) {
        CollectKey(clientChallIdx);
        sharedKey, clientAddress := challenges[clientChallIdx].sharedKey, challenges[clientChallIdx].clientAddress;
      } else {
        return;
      }
      var packet := Datagram(self, clientAddress, HmacSealed(sharedKey, Disconnect), 0);
      ghost var tables := Tables();
      for i := 0 to 10
        invariant Tables() == tables && sent == old(sent) + Copies(packet, i)
      {
        Send(packet);
      }
      RemoveClient(a);
    }

    // ---- Public operations ----

    method SwitchToLobby()
      requires Valid()
      modifies this`inGame
      ensures Tables() == old(Tables()).(inGame := false)
    {
      inGame := false;
    }

    method SwitchToGame()
      requires Valid()
      modifies this`inGame
      ensures Tables() == old(Tables()).(inGame := true)
    {
      inGame := true;
    }

    /** What Listen does with the outcome of the packet check. */
    method DispatchBody(body: Option<Body>, sender: Address, p_size: nat, secret: PrivateKey)
      returns (ret: int, gameData: Option<(int, seq<bv8>)>)
      requires Valid()
      modifies this`numConnections, this`sent, connected, connections, challenged, challenges
      ensures var r := Dispatch(old(Tables()), indexing, group, self, body, sender, p_size, secret);
        Did(r.effect, old(sent)) && ret == r.ret && gameData == r.gameData
    {
      ret, gameData := 0, None;
      match body
      case Some(Request(clientPublicKey)) =>
        if !inGame {
          HandleConnectionRequest(clientPublicKey, sender, secret);
        }
      case Some(Response) =>
        if !inGame {
          HandleChallengeResponse(sender);
        }
      case Some(Data(_, payload)) =>
        if inGame {
          var clientIdx := FindExistingConnectionIndex(sender);
          if clientIdx > 0 {
            if p_size >= DataPacketSize(payload) + 4 {
              ret, gameData := |payload|, Some((clientIdx, payload));
            } else {
              ret := -1;
            }
          }
        }
      case Some(Disconnect) =>
        var clientIdx := FindExistingConnectionIndex(sender);
        var clientChallIdx := FindExistingChallengeIndex(sender);
        if clientIdx > 0 || ChallengeIndexPasses(indexing, clientChallIdx) {
          RemoveClient(sender);
        }
      case _ =>
    }

    method Listen(m: Message, sender: Address, p_size: nat, secret: PrivateKey)
      returns (ret: int, gameData: Option<(int, seq<bv8>)>)
      requires Valid()
      modifies this`numConnections, this`sent, connected, connections, challenged, challenges
      ensures var r := Servers.Listen(old(Tables()), indexing, group, self, m, sender, p_size, secret);
        Did(r.effect, old(sent)) && ret == r.ret && gameData == r.gameData
    {
      var body := None;
      var connectionIndex := FindExistingConnectionIndex(sender);
      if connectionIndex > 0 {
        body := VerifyHmac(connections[connectionIndex].sharedKey, m);
      } else {
        var challengeIndex := FindExistingChallengeIndex(sender);
        if challengeIndex < 0 {
          body := VerifyCrc(m);
          if !(body.Some? && body.value.Request?) {
            return 0, None;
          }
        } else {
          CollectKey(challengeIndex);
          body := VerifyHmac(challenges[challengeIndex].sharedKey, m);
        }
      }
      ret, gameData := DispatchBody(body, sender, p_size, secret);
    }

    /** `numbers` are the bookkeeping numbers of the packets. */
    method PropagateGameData(payload: seq<bv8>, numbers: seq<nat>)
      requires Valid() && |numbers| == MAX_CLIENTS
      modifies this`sent, connections
      ensures Did(Propagate(old(Tables()), self, payload, numbers), old(sent))
    {
      for i := 1 to MAX_CLIENTS
        invariant Advanced(Tables(), i) == Advanced(old(Tables()), 1)
        invariant sent + FanOut(Tables(), self, payload, numbers, i)
               == old(sent) + FanOut(old(Tables()), self, payload, numbers, 1)
      {
        if connected[i] {
          SendTo(i, payload, numbers);
        }
      }
    }

    /** Lines 243-252, for a connected slot. */
    method SendTo(i: nat, payload: seq<bv8>, numbers: seq<nat>)
      requires Valid() && i < MAX_CLIENTS == |numbers| && connected[i]
      modifies this`sent, connections
      ensures Advanced(Tables(), i + 1) == Advanced(old(Tables()), i)
      ensures sent + FanOut(Tables(), self, payload, numbers, i + 1)
           == old(sent) + FanOut(old(Tables()), self, payload, numbers, i)
    {
      var c := connections[i];
      connections[i] := c.(sequence := Next(c.sequence));
      var data := Data(connections[i].sequence, payload);
      Send(Datagram(self, c.clientAddress, HmacSealed(c.sharedKey, data), numbers[i]));
      FanOutLater(old(Tables()), Tables(), self, payload, numbers, i + 1);
    }
  }
}
