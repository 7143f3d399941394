/** What one end sends, the other end hears: every kind of packet followed from
    the call that sends it to what the receiver makes of it. */
module Exchanges {
  import opened Words
  import opened Wire
  import opened Sequences
  import opened ServerOutcomes
  import Servers
  import Clients
  import ClientOutcomes
  import Tables

  /** What does not change during an exchange. */
  datatype Setting = Setting(indexing: Servers.Indexing, group: Group, server: Address)

  function ServerHears(at: Setting, v: Servers.View, d: Datagram, p_size: nat, secret: PrivateKey): Servers.Reception {
    Servers.Listen(v, at.indexing, at.group, at.server, d.message, d.src, p_size, secret)
  }

  function ClientHears(at: Setting, c: Clients.Fields, a: Address, d: Datagram, p_size: nat): Clients.Reception {
    Clients.Listen(c, at.group, a, d, p_size, false)
  }

  /** A disconnected client's call of Connect sends one request. In the lobby, with
      room for a challenge, the answer to it lets the client derive the very key the
      server books it under, whoever else is pending. From any other phase Connect
      sends nothing and changes nothing. */
  lemma ConnectIsAnswered(at: Setting, v: Servers.View, c: Clients.Fields, a: Address, x: PrivateKey, y: PrivateKey)
    requires Tables.Consistent(v, at.indexing) && !v.inGame && false in v.challenged && at.group.Agrees()
    requires !IsPending(v, a) && !IsConnected(v, a)
    ensures var e := Clients.Connect(c, at.group, a, x);
      if c.phase != Clients.Disconnected then e == Clients.Effect(c, [])
      else
        && |e.sent| == 1 && e.sent[0].src == a && e.sent[0].dst == BROADCAST
        && var s := ServerHears(at, v, e.sent[0], 0, y).effect;
        && |s.sent| == 1 && s.sent[0].src == at.server && s.sent[0].dst == a
        && var r := ClientHears(at, e.client, a, s.sent[0], 0);
        && r.spawned && r.effect.sent == [] && r.effect.client.serverAddress == at.server
        && r.effect.client.sharedKey == Derived(at.group.shared(at.group.pub(y), x))
        && PendingUnder(s.view, a, r.effect.client.sharedKey)
        && SameConnections(v, s.view) && (at.indexing == Servers.AsIntended ==> OthersPending(v, s.view, a))
  {
    hide PendingUnder, SameConnections, OthersPending, Servers.Listen, Tables.Consistent;
    RequestIsAnswered(v, at.indexing, at.group, at.server, at.group.pub(x), a, 0, y);
    assert at.group.KeyFor(at.group.pub(x), y) == at.group.KeyFor(at.group.pub(y), x);
  }

  /** The responder of a client that is pending under its key sends one response. In
      the lobby, with a slot free, the server seats the client in the first free slot
      under that key, whoever else is pending, and its answer makes the client
      CONNECTED with that slot as its index. */
  lemma ResponderIsSeated(at: Setting, v: Servers.View, c: Clients.Fields, a: Address)
    requires Tables.Consistent(v, at.indexing) && !v.inGame && false in v.connected
    requires PendingUnder(v, a, c.sharedKey)
    ensures var e := Clients.RespondChallenge(c, a);
      && |e.sent| == 1 && e.sent[0].src == a && e.sent[0].dst == c.serverAddress
      && var s := ServerHears(at, v, e.sent[0], 0, 0).effect;
      && |s.sent| == 1 && s.sent[0].src == at.server && s.sent[0].dst == a
      && var seated := ClientHears(at, e.client, a, s.sent[0], 0).effect;
      && seated.sent == [] && seated.client.phase == Clients.Connected && seated.client.sharedKey == c.sharedKey
      && seated.client.serverAddress == at.server
      && Admitted(v, s.view, a, c.sharedKey, seated.client.index)
  {
    hide Servers.Listen, Admitted, Tables.Consistent;
    ResponseIsAdmitted(v, at.indexing, at.group, at.server, a, c.sharedKey, 0, 0);
  }

  /** Client to server: a CONNECTED client's payload leaves in one packet under the
      next sequence number. While the game runs, the server hands out exactly that
      payload, with the client's slot, to a caller whose buffer has room for it. A
      client in any other phase sends nothing. */
  lemma UploadIsHeard(at: Setting, v: Servers.View, c: Clients.Fields, a: Address, i: int,
                      payload: seq<bv8>, p_size: nat)
    requires Tables.Consistent(v, at.indexing) && a != HOST && v.inGame
    requires 0 < i < Servers.MAX_CLIENTS && Servers.ConnectedAt(v, i, a)
    requires v.connections[i].sharedKey == c.sharedKey
    ensures var e := Clients.SendGameData(c, a, payload);
      if c.phase != Clients.Connected then e == Clients.Effect(c, [])
      else
        && |e.sent| == 1 && e.sent[0].src == a && e.sent[0].dst == c.serverAddress
        && e.sent[0].message.HmacSealed? && e.sent[0].message.body.Data?
        && e.sent[0].message.body.sequence == e.client.sequence == Next(c.sequence)
        && e.client.(sequence := c.sequence) == c
        && ServerHears(at, v, e.sent[0], p_size, 0)
           == if p_size >= |payload| + 47
              then Servers.Reception(Servers.Effect(v, []), |payload|, Some((i, payload)))
              else Servers.Reception(Servers.Effect(v, []), -1, None)
  {
    Tables.UniqueConnection(v, at.indexing, i);
    if c.phase == Clients.Connected {
      var m := Clients.SendGameData(c, a, payload).sent[0].message;
      Tables.GameDataComesFromOccupant(v, at.indexing, at.group, at.server, m, a, p_size, 0);
    }
  }

  /** Server to client: propagating sends the occupant of a slot one packet, and the
      CONNECTED client hands out exactly that payload if the slot's next sequence
      number is ahead of its m_ack, which it then becomes. */
  lemma DownloadIsHeard(at: Setting, v: Servers.View, c: Clients.Fields, a: Address, i: int,
                        payload: seq<bv8>, numbers: seq<nat>, p_size: nat)
    requires Tables.Consistent(v, at.indexing) && |numbers| == Servers.MAX_CLIENTS
    requires 0 < i < Servers.MAX_CLIENTS && Servers.ConnectedAt(v, i, a)
    requires c.phase == Clients.Connected && v.connections[i].sharedKey == c.sharedKey
    ensures var e := Servers.Propagate(v, at.server, payload, numbers);
      && Tables.AddressedTo(e.sent, a) == 1
      && forall d :: d in e.sent && d.dst == a ==>
        var r := ClientHears(at, c, a, d, p_size);
        if SequenceGreaterThan(Next(v.connections[i].sequence), c.ack) then
          && r.effect.sent == [] && r.effect.client.ack == e.view.connections[i].sequence
          && (if p_size >= |payload| then r.ret == |payload| && r.gameData == Some(payload)
              else r.ret == -1 && r.gameData == None)
        else r.ret == 0 && r.gameData == None && r.effect.client.ack == c.ack
  {
    hide Clients.Listen, SequenceGreaterThan, Next;
    Tables.OnePacketEach(v, at.indexing, at.server, payload, numbers, 1, a);
    Tables.FanOutIs(v, at.server, payload, numbers, 1);
    Tables.AdvancedOnly(v, 1);
    forall d | d in Servers.FanOut(v, at.server, payload, numbers, 1) && d.dst == a
      ensures d == Tables.PacketFor(v, at.server, payload, numbers, i)
    {
      Tables.UniqueConnection(v, at.indexing, i);
    }
    var d := Tables.PacketFor(v, at.server, payload, numbers, i);
    ClientOutcomes.GameDataIsHandedOut(c, at.group, a, d, p_size, false);
  }

  /** A client that leaves while its challenge is pending: ten packets, each of which
      drops its challenge and nothing else. A client that has only sent a request, or
      not even that, sends none. Either way it is reset. */
  lemma PendingLeaveIsHeard(at: Setting, v: Servers.View, c: Clients.Fields, a: Address, p_size: nat, y: PrivateKey)
    requires Tables.Consistent(v, at.indexing) && PendingUnder(v, a, c.sharedKey)
    ensures var e := Clients.SendDisconnect(c, a);
      && e.client == Clients.Reset(c)
      && |e.sent| == (if c.phase == Clients.Disconnected || c.phase == Clients.SendingRequest then 0 else 10)
      && forall d :: d in e.sent ==>
        var w := ServerHears(at, v, d, p_size, y).effect.view;
        d.dst == c.serverAddress && SameConnections(v, w) && OthersPending(v, w, a) && !IsPending(w, a)
  {
    hide Servers.Listen, SameConnections, OthersPending, Tables.Consistent;
    assert IsPending(v, a);
    PendingDisconnects(v, at.indexing, at.group, at.server, a, c.sharedKey, p_size, y);
  }

  /** A client that is kicked while pending: its challenge goes and nothing else, and
      it is sent ten packets, each of which ends its session. */
  lemma PendingKickIsHeard(at: Setting, v: Servers.View, c: Clients.Fields, a: Address, d: Datagram, p_size: nat)
    requires Tables.Consistent(v, at.indexing) && a != HOST && PendingUnder(v, a, c.sharedKey)
    requires c.phase == Clients.SendingChallengeResponse
    ensures var e := Servers.KickClient(v, at.indexing, at.server, a);
      && |e.sent| == 10 && SameConnections(v, e.view) && OthersPending(v, e.view, a) && !IsPending(e.view, a)
      && (d in e.sent ==> d.dst == a && ClientHears(at, c, a, d, p_size).effect == Clients.Effect(Clients.Reset(c), []))
  {
    hide Servers.KickClient, SameConnections, OthersPending, IsPending, PendingUnder, Tables.Consistent;
    KickIsExact(v, at.indexing, at.server, a);
  }
}
