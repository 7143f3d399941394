/** Runs from the initial state in which the code goes wrong: what the exact
    conditions elsewhere exclude does happen. */
module Failures {
  import opened Words
  import opened Wire
  import opened Sequences
  import opened Sessions
  import opened Agreement
  import opened Handshake
  import opened ServerOutcomes
  import Disconnects
  import Servers
  import Clients
  import Tables

  // ---- Pieces of runs ----

  /** The server sends a payload to the occupant of a slot and the packet arrives. */
  predicate Delivered(s: System, t: System, a: Address, slot: int, server: Address, payload: seq<bv8>)
    requires 0 < slot < Servers.MAX_CLIENTS && a in s.nodes
  {
    var v, w, c := s.server, t.server, s.nodes[a].client;
    var sequence := Next(v.connections[slot].sequence);
    && t.nodes.Keys == s.nodes.Keys
    && w.connected == v.connected && SameChallenges(v, w) && w.inGame == v.inGame
    && w.connections[slot] == v.connections[slot].(sequence := sequence)
    && (var n := t.nodes[a];
        if c.phase != Clients.Connected then
          n.client == Clients.Reset(c) && n.receipts == s.nodes[a].receipts
        else if SequenceGreaterThan(sequence, c.ack) then
          n.client == c.(serverAddress := server, ack := sequence)
          && |n.receipts| == |s.nodes[a].receipts| + 1 && n.receipts[|s.nodes[a].receipts|].payload == payload
          && n.receipts[..|s.nodes[a].receipts|] == s.nodes[a].receipts
        else n.client == c.(serverAddress := server) && n.receipts == s.nodes[a].receipts)
    && t.nodes[a].responders == s.nodes[a].responders
  }

  /** One client's view of the arrival of a data packet. */
  lemma DataArrives(cfg: Config, n: Node, a: Address, d: Datagram, payload: seq<bv8>)
    requires n.client.phase == Clients.Connected || n.client.phase == Clients.SendingChallengeResponse
    requires d.src == cfg.server && d.message.HmacSealed? && d.message.key == n.client.sharedKey
    requires d.message.body.Data? && d.message.body.payload == payload
    ensures var r := Clients.Listen(n.client, cfg.group, a, d, |payload|, false);
      && r.effect.sent == []
      && AfterReception(n, r, d).responders == n.responders
      && AfterReception(n, r, d).client == (
           if n.client.phase != Clients.Connected then Clients.Reset(n.client)
           else if SequenceGreaterThan(d.message.body.sequence, n.client.ack) then
             n.client.(serverAddress := cfg.server, ack := d.message.body.sequence)
           else n.client.(serverAddress := cfg.server))
      && AfterReception(n, r, d).receipts == n.receipts + (
           if n.client.phase == Clients.Connected && SequenceGreaterThan(d.message.body.sequence, n.client.ack)
           then [Receipt(d.number, payload)] else [])
  {
    hide SequenceGreaterThan;
  }

  predicate BringsData(step: Step, a: Address, payload: seq<bv8>) {
    step.ClientListen? && step.client == a && step.arrival.message.HmacSealed?
    && step.arrival.message.body.Data? && step.arrival.message.body.payload == payload
  }

  /** Propagation puts the occupant's packet on the network. */
  lemma PacketIsSent(cfg: Config, s: System, slot: int, payload: seq<bv8>)
    requires 0 < slot < Servers.MAX_CLIENTS && s.server.connected[slot]
    ensures var t := Apply(cfg, s, Propagate(payload));
      && Tables.PacketFor(s.server, cfg.server, payload, Numbers(s.log), slot) in t.net
      && t.nodes == s.nodes && t.server == Servers.Advanced(s.server, 1)
  {
    hide Numbers, FanEvents, Tables.PacketFor, Servers.Advanced;
    Tables.FanOutIs(s.server, cfg.server, payload, Numbers(s.log), 1);
  }

  lemma Delivers(cfg: Config, r0: Run, a: Address, slot: int, payload: seq<bv8>) returns (r: Run)
    requires |r0.states| > 0 && IsRun(cfg, r0) && a in Final(r0).nodes
    requires Disconnects.Occupies(Final(r0).server, slot, a, Final(r0).nodes[a].client.sharedKey)
    requires var phase := Final(r0).nodes[a].client.phase;
      phase == Clients.Connected || phase == Clients.SendingChallengeResponse
    ensures |r.states| > 0 && IsRun(cfg, r) && |r.steps| == |r0.steps| + 2
    ensures r.steps[|r0.steps|] == Propagate(payload) && BringsData(r.steps[|r0.steps| + 1], a, payload)
    ensures Delivered(Final(r0), Final(r), a, slot, cfg.server, payload)
  {
    hide IsRun, Clients.Listen, Servers.Propagate, Servers.Advanced, FanEvents, AfterReception, Numbers;
    hide SequenceGreaterThan, Next;
    var s := Final(r0);
    var d := Tables.PacketFor(s.server, cfg.server, payload, Numbers(s.log), slot);
    Tables.AdvancedOnly(s.server, 1);
    PacketIsSent(cfg, s, slot, payload);
    DataArrives(cfg, s.nodes[a], a, d, payload);
    var r1 := ThenIsRun(cfg, r0, Propagate(payload));
    r := ThenIsRun(cfg, r1, ClientListen(a, d, |payload|, false));
  }

  /** The client disconnects. */
  lemma Departs(cfg: Config, r0: Run, a: Address) returns (r: Run, d: Datagram)
    requires |r0.states| > 0 && IsRun(cfg, r0) && a in Final(r0).nodes
    requires var phase := Final(r0).nodes[a].client.phase;
      phase == Clients.Connected || phase == Clients.SendingChallengeResponse
    ensures |r.states| > 0 && IsRun(cfg, r) && |r.steps| == |r0.steps| + 1
    ensures var s, t := Final(r0), Final(r);
      && t.nodes == s.nodes[a := s.nodes[a].(client := Clients.Reset(s.nodes[a].client))]
      && t.server == s.server && d in t.net
      && d == Datagram(a, s.nodes[a].client.serverAddress, HmacSealed(s.nodes[a].client.sharedKey, Disconnect), 0)
  {
    hide IsRun;
    var s := Final(r0);
    var c := s.nodes[a].client;
    d := Datagram(a, c.serverAddress, HmacSealed(c.sharedKey, Disconnect), 0);
    r := ThenIsRun(cfg, r0, SendDisconnect(a));
    assert Clients.SendDisconnect(c, a).sent[0] == d;
  }

  /** One of its disconnect packets reaches the server. */
  lemma DepartureArrives(cfg: Config, r0: Run, d: Datagram, slot: int, k: Key) returns (r: Run)
    requires cfg.Sound() && |r0.states| > 0 && IsRun(cfg, r0)
    requires d in Final(r0).net && d.dst == cfg.server && d.message == HmacSealed(k, Disconnect)
    requires Disconnects.Occupies(Final(r0).server, slot, d.src, k)
    ensures |r.states| > 0 && IsRun(cfg, r) && |r.steps| == |r0.steps| + 1
    ensures Final(r).nodes == Final(r0).nodes && Final(r0).net <= Final(r).net
    ensures Final(r).server
         == Servers.FreeConnection(Final(r0).server, if cfg.indexing == Servers.AsIntended then slot else 1)
    ensures Tables.Consistent(Final(r0).server, cfg.indexing)
  {
    hide IsRun, Servers.Listen, TableEvents, Tables.Consistent;
    RunIsGood(cfg, r0, |r0.states| - 1);
    Disconnects.LeaveFrees(cfg, Final(r0).server, d, 0, 0, slot, k);
    r := ThenIsRun(cfg, r0, ServerListen(d, 0, 0));
  }

  // ---- A data packet that overtakes the acceptance ----

  /** A data packet that verifies keeps a client in its session exactly if the
      client is CONNECTED: otherwise it falls through into the disconnect case. */
  lemma OvertakingDataDisconnects(c: Clients.Fields, group: Group, self: Address, d: Datagram, p_size: nat)
    requires c.phase == Clients.Connected || c.phase == Clients.SendingChallengeResponse
    requires d.message.HmacSealed? && d.message.key == c.sharedKey && d.message.body.Data?
    ensures var after := Clients.Listen(c, group, self, d, p_size, false).effect.client;
      if c.phase == Clients.Connected then after.phase == Clients.Connected && after.sharedKey == c.sharedKey
      else after.phase == Clients.Disconnected && after.sharedKey == ZeroKey
  {
  }

  /** A run in which that happens: the client ends DISCONNECTED while the server
      still holds slot 1 for it. */
  lemma HandshakeIsOvertaken(cfg: Config, a: Address, x: PrivateKey, y: PrivateKey, payload: seq<bv8>)
    returns (r: Run)
    requires cfg.Sound() && a in cfg.clients && cfg.group.Agrees()
    ensures IsRun(cfg, r) && |r.steps| == 7
    ensures var s := Final(r);
      && a in s.nodes && s.nodes[a].client.phase == Clients.Disconnected && s.nodes[a].client.sharedKey == ZeroKey
      && Servers.ConnectedAt(s.server, 1, a)
  {
    hide IsRun, CanJoin;
    var r0 := NoSteps(cfg);
    StartIsOpen(cfg, a);
    var r5 := Joins(cfg, r0, a, 1, x, y);
    r := Delivers(cfg, r5, a, 1, payload);
  }

  // ---- A request that clobbers a pending challenge ----

  lemma RequestArrives(cfg: Config, r0: Run, a: Address, x: PrivateKey, y: PrivateKey) returns (r: Run)
    requires |r0.states| > 0 && IsRun(cfg, r0) && a in Final(r0).nodes && !Final(r0).server.inGame
    requires Final(r0).nodes[a].client.phase == Clients.Disconnected
    requires Servers.FindConnection(Final(r0).server, a) == -1 && Servers.FindChallenge(Final(r0).server, a) == -1
    ensures |r.states| > 0 && IsRun(cfg, r) && |r.steps| == |r0.steps| + 2
    ensures forall b :: b in Final(r0).nodes && b != a ==>
      b in Final(r).nodes && Final(r).nodes[b] == Final(r0).nodes[b]
    ensures a in Final(r).nodes && Final(r).nodes[a].client.phase == Clients.SendingRequest
    ensures Final(r).server == Servers.HandleRequest(
      Final(r0).server, cfg.indexing, cfg.group, cfg.server, cfg.group.pub(x), a, y).view
  {
    hide IsRun, Servers.HandleRequest, TableEvents;
    var d := Datagram(a, BROADCAST, CrcSealed(Request(cfg.group.pub(x))), 0);
    var r1 := ThenIsRun(cfg, r0, Connect(a, x));
    assert d in Final(r1).net;
    r := ThenIsRun(cfg, r1, ServerListen(d, 0, y));
  }

  lemma NobodyYet(a: Address)
    requires a != HOST
    ensures Servers.FindConnection(Servers.Initial(), a) == -1 && Servers.FindChallenge(Servers.Initial(), a) == -1
  {
  }

  lemma FirstRequest(cfg: Config, v: Servers.View, a: Address, b: Address, clientKey: PublicKey, y: PrivateKey)
    requires v == Servers.Initial() && a != HOST && b != HOST && a != b
    ensures var w := Servers.HandleRequest(v, cfg.indexing, cfg.group, cfg.server, clientKey, a, y).view;
      && Tables.Consistent(w, cfg.indexing) && !w.inGame && Servers.FindChallenge(w, a) >= 0
      && Servers.FindConnection(w, b) == -1 && Servers.FindChallenge(w, b) == -1
  {
    Tables.InitialIsConsistent(cfg.indexing);
    NobodyYet(a);
    assert Servers.FindFree(v.challenged) == 0;
    Tables.RequestKeeps(v, cfg.indexing, cfg.group, cfg.server, clientKey, a, y);
    var w := Servers.HandleRequest(v, cfg.indexing, cfg.group, cfg.server, clientKey, a, y).view;
    assert Servers.ChallengedAt(w, Servers.Stored(cfg.indexing, 0), a);
  }

  /** A run in which two clients ask to join: the server still has the first one's
      challenge exactly if the index is as intended. */
  lemma SecondRequestClobbers(cfg: Config, a: Address, b: Address, x: PrivateKey, y: PrivateKey,
                              x2: PrivateKey, y2: PrivateKey) returns (r: Run)
    requires cfg.Sound() && a in cfg.clients && b in cfg.clients && a != b
    ensures IsRun(cfg, r) && |r.steps| == 4
    ensures var s := Final(r);
      && a in s.nodes && s.nodes[a].client.phase == Clients.SendingRequest
      && (Servers.FindChallenge(s.server, a) >= 0 <==> cfg.indexing == Servers.AsIntended)
  {
    hide IsRun, Servers.HandleRequest, Tables.Consistent;
    var r0 := NoSteps(cfg);
    NobodyYet(a);
    FirstRequest(cfg, Final(r0).server, a, b, cfg.group.pub(x), y);
    var r1 := RequestArrives(cfg, r0, a, x, y);
    r := RequestArrives(cfg, r1, b, x2, y2);
    Tables.RequestSparesPending(
      Final(r1).server, cfg.indexing, cfg.group, cfg.server, cfg.group.pub(x2), b, y2, a);
  }

  // ---- A counter left over from an earlier session ----

  lemma FirstSequenceNumbers()
    ensures Next(0) == 1 && SequenceGreaterThan(1, 0) && !SequenceGreaterThan(1, 1)
  {
  }

  /** A session in which one payload gets through, then the client leaves. */
  lemma FirstSession(cfg: Config, a: Address, x: PrivateKey, y: PrivateKey, p: seq<bv8>) returns (r: Run)
    requires cfg.Sound() && a in cfg.clients && cfg.group.Agrees()
    ensures |r.states| > 0 && IsRun(cfg, r) && |r.steps| == 10 && CanJoin(Final(r), a, 1)
    ensures var n := Final(r).nodes[a]; n.client.ack == 1 && |n.receipts| == 1 && n.receipts[0].payload == p
  {
    hide IsRun, SequenceGreaterThan, Next, Tables.Consistent;
    var r0 := NoSteps(cfg);
    StartIsOpen(cfg, a);
    FirstSequenceNumbers();
    var r6 := Connects(cfg, r0, a, 1, x, y);
    var r8 := Delivers(cfg, r6, a, 1, p);
    var k := Final(r8).nodes[a].client.sharedKey;
    var r9, d := Departs(cfg, r8, a);
    r := DepartureArrives(cfg, r9, d, 1, k);
    NobodyPending(cfg, Final(r0).server, Final(r6).server, a, cfg.group.KeyFor(cfg.group.pub(y), x), 1);
    OpenAgain(cfg, Final(r9).server, Final(r).server, a);
  }

  /** Nobody was pending before a was let in, so nobody is. */
  lemma NobodyPending(cfg: Config, v: Servers.View, w: Servers.View, a: Address, k: Key, slot: int)
    requires 0 <= slot < Servers.MAX_CLIENTS && LetIn(cfg, v, w, a, k, slot)
    requires v.challenged == [false, false, false, false]
    ensures w.challenged == [false, false, false, false]
  {
    forall j | 0 <= j < Servers.MAX_CLIENTS
      ensures !w.challenged[j]
    {
      assert !Servers.ChallengedAt(w, j, a) && !OtherAt(w, j, a);
    }
  }

  lemma OpenAgain(cfg: Config, v: Servers.View, w: Servers.View, a: Address)
    requires Tables.Consistent(v, cfg.indexing) && Servers.ConnectedAt(v, 1, a)
    requires v.challenged == [false, false, false, false] && w == Servers.FreeConnection(v, 1)
    ensures false in w.challenged && !IsPending(w, a) && !IsConnected(w, a) && Servers.FindFree(w.connected) == 1
  {
    assert forall i :: 0 <= i < Servers.MAX_CLIENTS ==> !Servers.ConnectedAt(w, i, a);
    assert !w.challenged[0];
  }

  /** A run whose second session loses its first data packet: both ends agree on
      the key and the packet arrives, but it is not handed out. */
  lemma SecondSessionLosesData(cfg: Config, a: Address, x: PrivateKey, y: PrivateKey, x2: PrivateKey, y2: PrivateKey,
                               p: seq<bv8>, q: seq<bv8>) returns (r: Run)
    requires cfg.Sound() && a in cfg.clients && cfg.group.Agrees()
    ensures IsRun(cfg, r) && |r.steps| == 18 && r.steps[16] == Propagate(q) && BringsData(r.steps[17], a, q)
    ensures var s := Final(r);
      && a in s.nodes && s.nodes[a].client.phase == Clients.Connected
      && Disconnects.Occupies(s.server, 1, a, s.nodes[a].client.sharedKey)
      && s.server.connections[1].sequence == 1
      && |s.nodes[a].receipts| == 1 && s.nodes[a].receipts[0].payload == p
  {
    hide IsRun, SequenceGreaterThan, Next, CanJoin;
    FirstSequenceNumbers();
    var r10 := FirstSession(cfg, a, x, y, p);
    var r16 := Connects(cfg, r10, a, 1, x2, y2);
    r := Delivers(cfg, r16, a, 1, q);
  }

  // ---- A count that goes wrong ----

  lemma RoomForSecond(cfg: Config, v: Servers.View, w: Servers.View, a: Address, b: Address, k: Key)
    requires v == Servers.Initial() && LetIn(cfg, v, w, a, k, 1) && a != b && b != HOST
    ensures false in w.challenged && !IsPending(w, b) && !IsConnected(w, b) && Servers.FindFree(w.connected) == 2
  {
    NobodyPending(cfg, v, w, a, k, 1);
    assert !w.challenged[0] && Servers.FindFree(w.connected, 2) == 2;
  }

  /** With the index as written, two clients join and the second one's disconnect
      packet arrives twice: the first loses its slot, the second keeps its own, and
      m_numConnections says 1 where two slots, the host's included, are taken. */
  lemma AsWrittenMiscounts(cfg: Config, a: Address, b: Address, x: PrivateKey, y: PrivateKey,
                           x2: PrivateKey, y2: PrivateKey) returns (r: Run)
    requires cfg.Sound() && cfg.indexing == Servers.AsWritten && cfg.group.Agrees()
    requires a in cfg.clients && b in cfg.clients && a != b
    ensures IsRun(cfg, r) && |r.steps| == 13
    ensures var s := Final(r);
      && b in s.nodes && s.nodes[b].client.phase == Clients.Disconnected
      && s.server.connected == [true, false, true, false] && Servers.ConnectedAt(s.server, 2, b)
      && s.server.numConnections == 1 && Tables.Count(s.server.connected) == 2
  {
    hide IsRun, Tables.Consistent, Tables.Count;
    var r0 := NoSteps(cfg);
    StartIsOpen(cfg, a);
    var r5 := Joins(cfg, r0, a, 1, x, y);
    RoomForSecond(cfg, Final(r0).server, Final(r5).server, a, b, cfg.group.KeyFor(cfg.group.pub(y), x));
    var r10 := Joins(cfg, r5, b, 2, x2, y2);
    var k := Final(r10).nodes[b].client.sharedKey;
    var r11, d := Departs(cfg, r10, b);
    var r12 := DepartureArrives(cfg, r11, d, 2, k);
    r := DepartureArrives(cfg, r12, d, 2, k);
    CountTwo();
  }

  lemma CountTwo()
    ensures Tables.Count([true, false, true, false]) == 2
  {
    assert [true, false, true, false][..3] == [true, false, true];
    assert [true, false, true][..2] == [true, false];
    assert [true, false][..1] == [true];
  }
}
