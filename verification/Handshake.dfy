/** Runs in which a handshake is left undisturbed: it gets through, from any state
    in which the client and a slot are free, and both ends hold the same key. */
module Handshake {
  import opened Wire
  import opened Sessions
  import opened ServerOutcomes
  import Agreement
  import Servers
  import Clients
  import Tables

  /** The run that takes one more step. */
  function Then(cfg: Config, r: Run, step: Step): Run
    requires |r.states| > 0 && Enabled(cfg, Final(r), step)
  {
    Run(r.states + [Apply(cfg, Final(r), step)], r.steps + [step])
  }

  lemma ThenIsRun(cfg: Config, r: Run, step: Step) returns (t: Run)
    requires IsRun(cfg, r) && Enabled(cfg, Final(r), step)
    ensures IsRun(cfg, t) && |t.states| > 0 && t.steps == r.steps + [step]
    ensures Final(t) == Apply(cfg, Final(r), step)
  {
    hide Enabled, Apply;
    t := Then(cfg, r, step);
    forall n | 0 <= n < |t.steps|
      ensures Takes(cfg, t.states[n], t.steps[n], t.states[n + 1])
    {
      if n < |r.steps| {
        assert Takes(cfg, r.states[n], r.steps[n], r.states[n + 1]);
      }
    }
  }

  /** The run that has not moved. */
  lemma NoSteps(cfg: Config) returns (r: Run)
    ensures IsRun(cfg, r) && |r.states| > 0 && r.steps == [] && Final(r) == Start(cfg)
  {
    r := Run([Start(cfg)], []);
  }

  // ---- The server's half ----

  /** From v, the server has booked a challenge for a under the key. */
  predicate Booked(cfg: Config, v: Servers.View, w: Servers.View, a: Address, key: Key) {
    && SameConnections(v, w) && PendingUnder(w, a, key) && NoOtherNew(v, w, a)
    && (cfg.indexing == Servers.AsIntended ==> OthersPending(v, w, a))
  }

  /** From v, the server has let a in under the key. */
  predicate LetIn(cfg: Config, v: Servers.View, w: Servers.View, a: Address, key: Key, slot: int)
    requires 0 <= slot < Servers.MAX_CLIENTS
  {
    && w.connected == v.connected[slot := true]
    && w.connections == v.connections[slot := Servers.ConnectionInfo(a, key, 0)]
    && w.numConnections == v.numConnections + 1 && w.inGame == v.inGame
    && !IsPending(w, a) && NoOtherNew(v, w, a)
    && (cfg.indexing == Servers.AsIntended ==> OthersPending(v, w, a))
  }

  lemma LetInIs(cfg: Config, v: Servers.View, u: Servers.View, w: Servers.View, a: Address, key: Key, slot: int)
    requires Booked(cfg, v, u, a, key) && Admitted(u, w, a, key, slot)
    ensures LetIn(cfg, v, w, a, key, slot)
  {
  }

  lemma FirstFree(v: Servers.View, w: Servers.View, a: Address, key: Key, slot: int)
    requires Admitted(v, w, a, key, slot)
    ensures Servers.FindFree(v.connected) == slot
  {
    var f := Servers.FindFree(v.connected);
    assert f == slot || f < slot || slot < f;
  }

  // ---- The client's half ----

  /** The client has its key and a responder to run. */
  function Challenged(cfg: Config, n: Node, x: PrivateKey, key: Key): Node {
    n.(client := n.client.(privateKey := x, publicKey := cfg.group.pub(x), sharedKey := key,
                           serverAddress := cfg.server, phase := Clients.SendingRequest),
       responders := 1)
  }

  /** The responder has fired. */
  function Responded(cfg: Config, n: Node, x: PrivateKey, key: Key): Node {
    var c := Challenged(cfg, n, x, key);
    c.(client := c.client.(phase := Clients.SendingChallengeResponse), responders := 0)
  }

  function Seated(cfg: Config, n: Node, slot: int): Node {
    n.(client := n.client.(serverAddress := cfg.server, index := slot, phase := Clients.Connected))
  }

  lemma ClientIsChallenged(cfg: Config, n: Node, a: Address, x: PrivateKey, y: PrivateKey)
    requires n.client.phase == Clients.Disconnected && n.responders == 0
    ensures var c := Clients.Connect(n.client, cfg.group, a, x).client;
      var d := Datagram(cfg.server, a, CrcSealed(Challenge(cfg.group.pub(y))), 0);
      var r := Clients.Listen(c, cfg.group, a, d, 0, false);
      && AfterReception(n.(client := c), r, d) == Challenged(cfg, n, x, cfg.group.KeyFor(cfg.group.pub(y), x))
      && r.effect.sent == []
  {
    assert n.receipts + [] == n.receipts;
  }

  lemma ClientIsSeated(cfg: Config, n: Node, a: Address, slot: int)
    requires n.client.phase == Clients.SendingChallengeResponse
    ensures var d := Datagram(cfg.server, a, HmacSealed(n.client.sharedKey, Accepted(slot)), 0);
      var r := Clients.Listen(n.client, cfg.group, a, d, 0, false);
      AfterReception(n, r, d) == Seated(cfg, n, slot) && r.effect.sent == []
  {
    assert n.receipts + [] == n.receipts;
  }

  // ---- The run ----

  /** Client a is idle and the server has room for its challenge and for it. */
  predicate CanJoin(s: System, a: Address, slot: int) {
    && a in s.nodes && s.nodes[a].client.phase == Clients.Disconnected && s.nodes[a].responders == 0
    && !s.server.inGame && false in s.server.challenged
    && !IsPending(s.server, a) && !IsConnected(s.server, a)
    && 0 < slot < Servers.MAX_CLIENTS && Servers.FindFree(s.server.connected) == slot
  }

  lemma FinalIsConsistent(cfg: Config, r: Run)
    requires cfg.Sound() && |r.states| > 0 && IsRun(cfg, r)
    ensures Tables.Consistent(Final(r).server, cfg.indexing)
  {
    hide IsRun;
    Agreement.RunIsGood(cfg, r, |r.states| - 1);
  }

  /** Request and challenge. */
  lemma Requests(cfg: Config, r0: Run, a: Address, slot: int, x: PrivateKey, y: PrivateKey) returns (r: Run)
    requires cfg.Sound() && |r0.states| > 0 && IsRun(cfg, r0) && CanJoin(Final(r0), a, slot)
    ensures |r.states| > 0 && IsRun(cfg, r) && |r.steps| == |r0.steps| + 3
    ensures var s, t := Final(r0), Final(r);
      && t.nodes == s.nodes[a := Challenged(cfg, s.nodes[a], x, cfg.group.KeyFor(cfg.group.pub(y), x))]
      && Booked(cfg, s.server, t.server, a, cfg.group.KeyFor(cfg.group.pub(x), y))
  {
    hide IsRun, Servers.Listen, Clients.Listen, TableEvents, Challenged, AfterReception, Tables.Consistent;
    hide SameConnections, PendingUnder, NoOtherNew, OthersPending;
    var s := Final(r0);
    var d1 := Datagram(a, BROADCAST, CrcSealed(Request(cfg.group.pub(x))), 0);
    var d2 := Datagram(cfg.server, a, CrcSealed(Challenge(cfg.group.pub(y))), 0);
    FinalIsConsistent(cfg, r0);
    RequestIsAnswered(s.server, cfg.indexing, cfg.group, cfg.server, cfg.group.pub(x), a, 0, y);
    ClientIsChallenged(cfg, s.nodes[a], a, x, y);
    var r1 := ThenIsRun(cfg, r0, Connect(a, x));
    assert d1 in Final(r1).net;
    var r2 := ThenIsRun(cfg, r1, ServerListen(d1, 0, y));
    assert d2 in Final(r2).net;
    r := ThenIsRun(cfg, r2, ClientListen(a, d2, 0, false));
  }

  /** What the server makes of the response. */
  lemma ServerAccepts(cfg: Config, v: Servers.View, a: Address, key: Key, slot: int)
    requires Tables.Consistent(v, cfg.indexing) && !v.inGame && PendingUnder(v, a, key)
    requires 0 < slot < Servers.MAX_CLIENTS && Servers.FindFree(v.connected) == slot
    ensures var e := Servers.Listen(v, cfg.indexing, cfg.group, cfg.server, HmacSealed(key, Response), a, 0, 0).effect;
      && Admitted(v, e.view, a, key, slot)
      && e.sent == [Datagram(cfg.server, a, HmacSealed(key, Accepted(slot)), 0)]
  {
    hide Servers.Listen, Tables.Consistent, Admitted, KeyCollected;
    ResponseIsAdmitted(v, cfg.indexing, cfg.group, cfg.server, a, key, 0, 0);
    var e := Servers.Listen(v, cfg.indexing, cfg.group, cfg.server, HmacSealed(key, Response), a, 0, 0).effect;
    assert !v.connected[slot];
    var found :| Admitted(v, e.view, a, key, found)
      && e.sent == [Datagram(cfg.server, a, HmacSealed(key, Accepted(found)), 0)];
    FirstFree(v, e.view, a, key, found);
  }

  /** Response and acceptance. */
  lemma Responds(cfg: Config, n: Node, r3: Run, a: Address, slot: int, x: PrivateKey, key: Key) returns (r: Run)
    requires cfg.Sound() && |r3.states| > 0 && IsRun(cfg, r3)
    requires var v := Final(r3).server;
      && !v.inGame && PendingUnder(v, a, key)
      && 0 < slot < Servers.MAX_CLIENTS && Servers.FindFree(v.connected) == slot
    requires a in Final(r3).nodes && Final(r3).nodes[a] == Challenged(cfg, n, x, key)
    ensures |r.states| > 0 && IsRun(cfg, r) && |r.steps| == |r3.steps| + 2
    ensures Final(r).nodes == Final(r3).nodes[a := Responded(cfg, n, x, key)]
    ensures Admitted(Final(r3).server, Final(r).server, a, key, slot)
    ensures Datagram(cfg.server, a, HmacSealed(key, Accepted(slot)), 0) in Final(r).net
  {
    hide IsRun, Servers.Listen, TableEvents, PendingUnder, Admitted, Tables.Consistent;
    var d3 := Datagram(a, cfg.server, HmacSealed(key, Response), 0);
    FinalIsConsistent(cfg, r3);
    ServerAccepts(cfg, Final(r3).server, a, key, slot);
    var r4 := ThenIsRun(cfg, r3, Respond(a));
    assert d3 in Final(r4).net;
    r := ThenIsRun(cfg, r4, ServerListen(d3, 0, 0));
  }

  /** Because the key agreement commutes, five steps let the client in, whoever else
      is pending: the server books it under the key the client derived, and has sent
      the acceptance. */
  lemma Joins(cfg: Config, r0: Run, a: Address, slot: int, x: PrivateKey, y: PrivateKey) returns (r: Run)
    requires cfg.Sound() && cfg.group.Agrees()
    requires |r0.states| > 0 && IsRun(cfg, r0) && CanJoin(Final(r0), a, slot)
    ensures |r.states| > 0 && IsRun(cfg, r) && |r.steps| == |r0.steps| + 5
    ensures var s, t, key := Final(r0), Final(r), cfg.group.KeyFor(cfg.group.pub(y), x);
      && t.nodes == s.nodes[a := Responded(cfg, s.nodes[a], x, key)]
      && LetIn(cfg, s.server, t.server, a, key, slot)
      && Datagram(cfg.server, a, HmacSealed(key, Accepted(slot)), 0) in t.net
  {
    hide IsRun, LetIn, Challenged, Responded, PendingUnder, Admitted, NoOtherNew, OthersPending;
    var key := cfg.group.KeyFor(cfg.group.pub(y), x);
    assert key == cfg.group.KeyFor(cfg.group.pub(x), y);
    var r3 := Requests(cfg, r0, a, slot, x, y);
    r := Responds(cfg, Final(r0).nodes[a], r3, a, slot, x, key);
    LetInIs(cfg, Final(r0).server, Final(r3).server, Final(r).server, a, key, slot);
  }

  /** The whole handshake: one more step, and the client is CONNECTED. */
  lemma Connects(cfg: Config, r0: Run, a: Address, slot: int, x: PrivateKey, y: PrivateKey) returns (r: Run)
    requires cfg.Sound() && cfg.group.Agrees()
    requires |r0.states| > 0 && IsRun(cfg, r0) && CanJoin(Final(r0), a, slot)
    ensures |r.states| > 0 && IsRun(cfg, r) && |r.steps| == |r0.steps| + 6
    ensures var s, t, key := Final(r0), Final(r), cfg.group.KeyFor(cfg.group.pub(y), x);
      && t.nodes == s.nodes[a := Seated(cfg, Responded(cfg, s.nodes[a], x, key), slot)]
      && LetIn(cfg, s.server, t.server, a, key, slot)
  {
    hide IsRun, Clients.Listen, LetIn, AfterReception, Seated;
    var key := cfg.group.KeyFor(cfg.group.pub(y), x);
    var r5 := Joins(cfg, r0, a, slot, x, y);
    var d := Datagram(cfg.server, a, HmacSealed(key, Accepted(slot)), 0);
    ClientIsSeated(cfg, Final(r5).nodes[a], a, slot);
    r := ThenIsRun(cfg, r5, ClientListen(a, d, 0, false));
  }

  lemma StartIsOpen(cfg: Config, a: Address)
    requires cfg.Sound() && a in cfg.clients
    ensures CanJoin(Start(cfg), a, 1)
  {
    assert Servers.FindFree(Start(cfg).server.connected) == 1;
    assert !Start(cfg).server.challenged[0];
  }

  /** Handshake completion: from the start, six steps can be taken that leave the
      client CONNECTED with slot 1, whose entry on the server carries the client's
      address and the client's key. */
  lemma HandshakeCompletes(cfg: Config, a: Address, x: PrivateKey, y: PrivateKey) returns (r: Run)
    requires cfg.Sound() && a in cfg.clients && cfg.group.Agrees()
    ensures IsRun(cfg, r) && |r.steps| == 6
    ensures var s := Final(r);
      && a in s.nodes && s.nodes[a].client.phase == Clients.Connected && s.nodes[a].client.index == 1
      && s.nodes[a].client.sharedKey == cfg.group.KeyFor(cfg.group.pub(y), x)
      && s.server.connected[1] && s.server.connections[1].clientAddress == a
      && s.server.connections[1].sharedKey == s.nodes[a].client.sharedKey
  {
    hide IsRun, CanJoin;
    var r0 := NoSteps(cfg);
    StartIsOpen(cfg, a);
    r := Connects(cfg, r0, a, 1, x, y);
  }
}
