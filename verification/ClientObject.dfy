/** The client object: the fields of Client.h updated in place by the methods of
    Client.cpp. */
module ClientObject {
  import opened Words
  import opened Wire
  import opened Sequences
  import opened Clients

  class Client {
    const group: Group
    const self: Address
    var privateKey: PrivateKey
    var publicKey: PublicKey
    var sharedKey: Key
    var serverAddress: Address
    var index: int
    var phase: Phase
    var sequence: uint16
    var ack: uint16
    var activeTimeout: bool
    /** Responder threads started and not yet run. */
    var responders: nat
    /** Everything handed to the socket so far. */
    var sent: seq<Datagram>

    function State(): Fields
      reads this
    {
      Fields(privateKey, publicKey, sharedKey, serverAddress, index, phase, sequence, ack, activeTimeout)
    }

    /** The operation had this effect on the fields and on the socket. */
    ghost predicate Did(e: Effect, before: seq<Datagram>)
      reads this
    {
      State() == e.client && sent == before + e.sent
    }

    constructor (group: Group, self: Address)
      ensures State() == Fresh() && responders == 0 && sent == []
      ensures phase == Disconnected && index == -1 && sequence == 0 && ack == 0 && !activeTimeout
      ensures sharedKey == ZeroKey && serverAddress == NOWHERE
      ensures this.group == group && this.self == self
    {
      this.group, this.self := group, self;
      privateKey, publicKey, sharedKey, serverAddress := 0, 0, ZeroKey, NOWHERE;
      index, phase, sequence, ack, activeTimeout := -1, Disconnected, 0, 0, false;
      responders, sent := 0, [];
    }

    method Connect(secret: PrivateKey)
      modifies this
      ensures Did(Clients.Connect(old(State()), group, self, secret), old(sent)) && responders == old(responders)
    {
      if phase == Disconnected {
        privateKey, publicKey := secret, group.pub(secret);
        phase := SendingRequest;
        sent := sent + [Datagram(self, BROADCAST, CrcSealed(Request(publicKey)), 0)];
      }
    }

    /** The body of a responder thread. */
    method RespondChallenge()
      requires responders > 0
      modifies this
      ensures Did(Clients.RespondChallenge(old(State()), self), old(sent)) && responders == old(responders) - 1
    {
      responders := responders - 1;
      var packet := Datagram(self, serverAddress, HmacSealed(sharedKey, Response), 0);
      phase := SendingChallengeResponse;
      sent := sent + [packet];
    }

    method Disconnect()
      modifies this
      ensures State() == Reset(old(State())) && sent == old(sent) && responders == old(responders)
    {
      sharedKey := ZeroKey;
      serverAddress := NOWHERE;
      phase := Disconnected;
    }

    method SendDisconnect()
      modifies this
      ensures Did(Clients.SendDisconnect(old(State()), self), old(sent)) && responders == old(responders)
    {
      if phase != Disconnected && phase != SendingRequest {
        var packet := Datagram(self, serverAddress, HmacSealed(sharedKey, Body.Disconnect), 0);
        for i := 0 to 10
          invariant sent == old(sent) + Copies(packet, i)
          invariant State() == old(State()) && responders == old(responders)
        {
          sent := sent + [packet];
        }
      }
      Disconnect();
    }

    method HandleChallenge(serverPublicKey: PublicKey)
      modifies this
      ensures State() == old(State()).(sharedKey := group.KeyFor(serverPublicKey, old(privateKey)))
      ensures sent == old(sent) && responders == old(responders) + 1
    {
      sharedKey := group.KeyFor(serverPublicKey, privateKey);
      responders := responders + 1;
    }

    method HandleAccepted(clientID: int)
      modifies this
      ensures State() == old(State()).(index := clientID, phase := Connected)
      ensures sent == old(sent) && responders == old(responders)
    {
      index := clientID;
      phase := Connected;
    }

    /** Lines 168-220 for the cases that reach the end of the switch; data arriving
        in any phase but CONNECTED falls through into the disconnect case. */
    method HandleBody(body: Option<Body>)
      requires !(body.Some? && body.value.Data? && phase == Connected)
      modifies this
      ensures var (fields, spawned) := Switch(old(State()), group, body);
        State() == fields && sent == old(sent) && responders == old(responders) + (if spawned then 1 else 0)
    {
      match body
      case Some(Challenge(serverPublicKey)) =>
        if phase == SendingRequest {
          HandleChallenge(serverPublicKey);
        }
      case Some(Accepted(clientID)) =>
        if phase == SendingChallengeResponse {
          HandleAccepted(clientID);
        }
      case Some(Data(_, _)) =>
        if phase != Disconnected {
          Disconnect();
        }
      case Some(Disconnect) =>
        if phase != Disconnected {
          Disconnect();
        }
      case _ =>
    }

    /** Lines 196-210. */
    method ReceiveData(dataSequence: uint16, payload: seq<bv8>, p_size: nat)
      returns (ret: int, gameData: Option<seq<bv8>>)
      modifies this`ack
      ensures var r := Receive(old(State()), dataSequence, payload, p_size);
        State() == r.effect.client && ret == r.ret && gameData == r.gameData
    {
      if SequenceGreaterThan(dataSequence, ack) {
        ack := dataSequence;
        if p_size >= |payload| {
          return |payload|, Some(payload);
        }
        return -1, None;
      }
      return 0, None;
    }

    /** Receives one datagram; `gameData` is what is copied into the caller's buffer. */
    method Listen(d: Datagram, p_size: nat, timedOut: bool) returns (ret: int, gameData: Option<seq<bv8>>)
      modifies this
      ensures var r := Clients.Listen(old(State()), group, self, d, p_size, timedOut);
        && Did(r.effect, old(sent)) && ret == r.ret && gameData == r.gameData
        && responders == old(responders) + (if r.spawned then 1 else 0)
    {
      serverAddress := d.src;
      ret, gameData := 0, None;
      var body;
      if phase == Disconnected || phase == SendingRequest {
        body := VerifyCrc(d.message);
      } else {
        body := VerifyHmac(sharedKey, d.message);
      }
      if body.Some? && body.value.Data? && phase == Connected {
        ret, gameData := ReceiveData(body.value.sequence, body.value.payload, p_size);
        return;
      }
      HandleBody(body);
      if activeTimeout && phase == Connected && timedOut {
        SendDisconnect();
      }
    }

    method SendGameData(payload: seq<bv8>) returns (ok: bool)
      modifies this
      ensures Did(Clients.SendGameData(old(State()), self, payload), old(sent)) && responders == old(responders)
      ensures ok == (old(phase) == Connected)
    {
      if phase == Connected {
        sequence := Next(sequence);
        sent := sent + [Datagram(self, serverAddress, HmacSealed(sharedKey, Data(sequence, payload)), 0)];
        return true;
      }
      return false;
    }

    method SetActiveTimeout(value: bool)
      modifies this`activeTimeout
      ensures State() == old(State()).(activeTimeout := value)
    {
      activeTimeout := value;
    }
  }
}
