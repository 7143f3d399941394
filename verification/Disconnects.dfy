/** What disconnect packets do to the server's tables, in any run: whatever the
    other clients, the network and the server itself do in between. */
module Disconnects {
  import opened Words
  import opened Wire
  import opened Sessions
  import opened Agreement
  import opened History
  import opened ServerOutcomes
  import Servers
  import Clients
  import Tables

  /** The tables after the server has listened to one datagram. */
  function Serve(cfg: Config, v: Servers.View, d: Datagram, p_size: nat, secret: PrivateKey): Servers.View {
    Servers.Listen(v, cfg.indexing, cfg.group, cfg.server, d.message, d.src, p_size, secret).effect.view
  }

  predicate Occupies(v: Servers.View, i: int, a: Address, k: Key) {
    0 < i < Servers.MAX_CLIENTS && Servers.ConnectedAt(v, i, a) && v.connections[i].sharedKey == k
  }

  /** Slot i was given up, the count is one lower, and nothing else changed. */
  predicate FreesOnly(v: Servers.View, w: Servers.View, i: int)
    requires 0 <= i < Servers.MAX_CLIENTS
  {
    && v.connected[i] && !w.connected[i] && w.numConnections == v.numConnections - 1
    && SameChallenges(v, w) && w.inGame == v.inGame
    && forall j :: 0 <= j < Servers.MAX_CLIENTS && j != i ==>
         w.connected[j] == v.connected[j] && w.connections[j] == v.connections[j]
  }

  /** A disconnect packet of a client that is not connected: its pending challenge is
      dropped exactly if it is pending under the packet's key. */
  predicate DropsOwnChallenge(v: Servers.View, w: Servers.View, a: Address, k: Key) {
    && SameConnections(v, w) && OthersPending(v, w, a)
    && (IsPending(w, a) <==> IsPending(v, a) && !PendingUnder(v, a, k))
  }

  // ---- One disconnect packet ----

  /** From the occupant of a slot: as intended its slot is freed, as written slot 1. */
  lemma LeaveFrees(cfg: Config, v: Servers.View, d: Datagram, p_size: nat, secret: PrivateKey, i: int, k: Key)
    requires Tables.Consistent(v, cfg.indexing)
    requires Occupies(v, i, d.src, k) && d.message == HmacSealed(k, Disconnect)
    ensures Serve(cfg, v, d, p_size, secret)
         == Servers.FreeConnection(v, if cfg.indexing == Servers.AsIntended then i else 1)
  {
    Tables.UniqueConnection(v, cfg.indexing, i);
  }

  lemma FreedIsGone(v: Servers.View, indexing: Servers.Indexing, i: int)
    requires Tables.Consistent(v, indexing) && 0 < i < Servers.MAX_CLIENTS && v.connected[i]
    ensures var w := Servers.FreeConnection(v, i);
      FreesOnly(v, w, i) && Servers.FindConnection(w, v.connections[i].clientAddress) == -1
  {
    var w := Servers.FreeConnection(v, i);
    assert forall r :: 0 <= r < Servers.MAX_CLIENTS ==> !Servers.ConnectedAt(w, r, v.connections[i].clientAddress);
  }

  /** From anyone else: the sender's own pending challenge goes if it is pending under
      the packet's key, and nothing else is touched. */
  lemma LeaveOfStranger(cfg: Config, v: Servers.View, d: Datagram, p_size: nat, secret: PrivateKey, k: Key)
    requires Tables.Consistent(v, cfg.indexing)
    requires Servers.FindConnection(v, d.src) == -1 && d.message == HmacSealed(k, Disconnect)
    ensures DropsOwnChallenge(v, Serve(cfg, v, d, p_size, secret), d.src, k)
  {
    hide Servers.Listen, Tables.Consistent, SameConnections, OthersPending, PendingUnder;
    Found(v, d.src);
    if IsPending(v, d.src) {
      PendingDisconnects(v, cfg.indexing, cfg.group, cfg.server, d.src, k, p_size, secret);
    } else {
      Unheard(cfg, v, d, p_size, secret, k);
    }
  }

  lemma Unheard(cfg: Config, v: Servers.View, d: Datagram, p_size: nat, secret: PrivateKey, k: Key)
    requires Servers.FindConnection(v, d.src) == -1 && !IsPending(v, d.src)
    requires d.message == HmacSealed(k, Disconnect)
    ensures DropsOwnChallenge(v, Serve(cfg, v, d, p_size, secret), d.src, k)
  {
    Found(v, d.src);
  }

  /** As written, a disconnect frees the sender's slot exactly if that is slot 1;
      from any other slot it clears slot 1 and leaves the sender connected. */
  lemma DisconnectAsWritten(cfg: Config, v: Servers.View, d: Datagram, p_size: nat, secret: PrivateKey, i: int, k: Key)
    requires cfg.indexing == Servers.AsWritten && Tables.Consistent(v, Servers.AsWritten)
    requires Occupies(v, i, d.src, k) && d.message == HmacSealed(k, Disconnect)
    ensures FreesOnly(v, Serve(cfg, v, d, p_size, secret), i) <==> i == 1
    ensures i != 1 ==> Occupies(Serve(cfg, v, d, p_size, secret), i, d.src, k)
  {
    hide Serve;
    LeaveFrees(cfg, v, d, p_size, secret, i, k);
  }

  // ---- What else may happen to the occupant ----

  lemma DispatchSpares(cfg: Config, v: Servers.View, body: Option<Body>, sender: Address,
                       p_size: nat, secret: PrivateKey, i: int, a: Address, k: Key)
    requires cfg.indexing == Servers.AsIntended && Tables.Consistent(v, cfg.indexing) && Occupies(v, i, a, k)
    requires sender != a || (body != Some(Disconnect) && !(body.Some? && body.value.Request?))
    ensures Occupies(
      Servers.Dispatch(v, cfg.indexing, cfg.group, cfg.server, body, sender, p_size, secret).effect.view, i, a, k)
  {
    match body
    case Some(Request(clientKey)) =>
      Tables.RequestMoves(v, cfg.indexing, cfg.group, cfg.server, clientKey, sender, secret);
    case Some(Response) =>
      if Servers.FindChallenge(v, sender) >= 0 && Servers.FindFree(v.connected) >= 0 {
        assert Servers.FindFree(v.connected) != i;
      }
    case _ =>
  }

  /** No datagram but the occupant's own disconnect packet takes its slot away. */
  lemma ServeSpares(cfg: Config, v: Servers.View, d: Datagram, p_size: nat, secret: PrivateKey,
                    i: int, a: Address, k: Key)
    requires cfg.indexing == Servers.AsIntended && Tables.Consistent(v, cfg.indexing) && Occupies(v, i, a, k)
    requires Tables.Honest(d.message) && (d.src != a || d.message != HmacSealed(k, Disconnect))
    ensures Occupies(Serve(cfg, v, d, p_size, secret), i, a, k)
  {
    hide Servers.Dispatch, Tables.Consistent;
    Tables.UniqueConnection(v, cfg.indexing, i);
    var connection, challenge := Servers.FindConnection(v, d.src), Servers.FindChallenge(v, d.src);
    if connection > 0 {
      var body := VerifyHmac(v.connections[connection].sharedKey, d.message);
      DispatchSpares(cfg, v, body, d.src, p_size, secret, i, a, k);
    } else if challenge < 0 {
      DispatchSpares(cfg, v, VerifyCrc(d.message), d.src, p_size, secret, i, a, k);
    } else {
      var v1 := Servers.CollectAt(v, challenge);
      Tables.CollectKeeps(v, cfg.indexing, challenge);
      var body := VerifyHmac(v1.challenges[challenge].sharedKey, d.message);
      DispatchSpares(cfg, v1, body, d.src, p_size, secret, i, a, k);
    }
  }

  lemma KickSpares(cfg: Config, v: Servers.View, victim: Address, i: int, a: Address, k: Key)
    requires cfg.indexing == Servers.AsIntended && Occupies(v, i, a, k) && victim != a
    ensures Occupies(Servers.KickClient(v, cfg.indexing, cfg.server, victim).view, i, a, k)
  {
  }

  lemma KickFrees(cfg: Config, v: Servers.View, i: int, a: Address, k: Key)
    requires cfg.indexing == Servers.AsIntended && Tables.Consistent(v, cfg.indexing) && Occupies(v, i, a, k)
    ensures Servers.KickClient(v, cfg.indexing, cfg.server, a).view == Servers.FreeConnection(v, i)
  {
    Tables.UniqueConnection(v, cfg.indexing, i);
  }

  // ---- Any run ----

  /** Step t is the arrival of a disconnect packet that a sealed under k. */
  predicate LeavesAt(r: Run, t: int, a: Address, k: Key) {
    0 <= t < |r.steps| && r.steps[t].ServerListen?
    && r.steps[t].arrival.src == a && r.steps[t].arrival.message == HmacSealed(k, Disconnect)
  }

  /** Step t ends the session of the client that occupies a slot as a under k. */
  predicate EndsAt(r: Run, t: int, a: Address, k: Key) {
    LeavesAt(r, t, a, k) || (0 <= t < |r.steps| && r.steps[t] == Kick(a))
  }

  predicate EndedBetween(r: Run, m: int, n: int, a: Address, k: Key) {
    exists t :: m <= t < n && EndsAt(r, t, a, k)
  }

  /** No step from m to n gave client a a slot. */
  predicate NotReadmitted(r: Run, m: int, n: int, a: Address) {
    forall t :: m <= t < n && 0 <= t && t + 1 < |r.states| ==>
      !GaveTo(r.states[t].server, r.states[t + 1].server, a)
  }

  /** As long as its session is not ended, an occupant keeps its slot. */
  lemma OccupantStays(cfg: Config, s: System, step: Step, i: int, a: Address, k: Key)
    requires cfg.Sound() && cfg.indexing == Servers.AsIntended && Good(cfg, s) && Enabled(cfg, s, step)
    requires Occupies(s.server, i, a, k) && step != Kick(a)
    requires !(step.ServerListen? && step.arrival.src == a && step.arrival.message == HmacSealed(k, Disconnect))
    ensures Occupies(Apply(cfg, s, step).server, i, a, k)
  {
    hide Good, Servers.Listen, Servers.KickClient, Clients.Listen, Tables.Consistent;
    GoodParts(cfg, s);
    match step
    case ServerListen(d, p_size, secret) =>
      ArrivesFromClient(cfg, s, d);
      ServeSpares(cfg, s.server, d, p_size, secret, i, a, k);
    case Kick(victim) => KickSpares(cfg, s.server, victim, i, a, k);
    case Propagate(payload) => Tables.AdvancedOnly(s.server, 1);
    case _ =>
  }

  /** Once its session is ended, the former occupant is connected nowhere. */
  lemma OccupantEnds(cfg: Config, s: System, step: Step, i: int, a: Address, k: Key)
    requires cfg.Sound() && cfg.indexing == Servers.AsIntended && Good(cfg, s) && Enabled(cfg, s, step)
    requires Occupies(s.server, i, a, k)
    requires step == Kick(a)
      || (step.ServerListen? && step.arrival.src == a && step.arrival.message == HmacSealed(k, Disconnect))
    ensures Apply(cfg, s, step).server == Servers.FreeConnection(s.server, i)
    ensures FreesOnly(s.server, Apply(cfg, s, step).server, i)
    ensures Servers.FindConnection(Apply(cfg, s, step).server, a) == -1
  {
    hide Servers.Listen, Servers.KickClient, Tables.Counted, FreesOnly;
    FreedIsGone(s.server, cfg.indexing, i);
    match step
    case ServerListen(d, p_size, secret) => LeaveFrees(cfg, s.server, d, p_size, secret, i, k);
    case Kick(victim) => KickFrees(cfg, s.server, i, a, k);
  }

  /** Taken slots do not change hands. */
  lemma OccupantsRemain(cfg: Config, s: System, step: Step, j: int)
    requires cfg.Sound() && Good(cfg, s) && Enabled(cfg, s, step) && 0 <= j < Servers.MAX_CLIENTS
    ensures var v, w := s.server, Apply(cfg, s, step).server;
      v.connected[j] && w.connected[j] ==> w.connections[j].clientAddress == v.connections[j].clientAddress
  {
    hide Good, Servers.Listen, Servers.KickClient, Clients.Listen, Tables.Consistent;
    GoodParts(cfg, s);
    var v := s.server;
    match step
    case ServerListen(d, p_size, secret) => var slot := ServerHears(cfg, s, d, p_size, secret);
    case Kick(victim) => Tables.KickMovesHow(v, cfg.indexing, cfg.server, victim);
    case Propagate(payload) => Tables.AdvancedOnly(v, 1);
    case _ =>
  }

  lemma StaysAway(cfg: Config, s: System, step: Step, a: Address)
    requires cfg.Sound() && Good(cfg, s) && Enabled(cfg, s, step)
    requires Servers.FindConnection(s.server, a) == -1 && !GaveTo(s.server, Apply(cfg, s, step).server, a)
    ensures Servers.FindConnection(Apply(cfg, s, step).server, a) == -1
  {
    hide Apply, Good, Enabled;
    var v, w := s.server, Apply(cfg, s, step).server;
    var j := Servers.FindConnection(w, a);
    if j >= 0 {
      OccupantsRemain(cfg, s, step, j);
      assert !Servers.ConnectedAt(v, j, a);
    }
  }

  /** A client that occupies a slot as intended keeps it, whatever else the run
      does, until its session is ended; from then on it is connected nowhere
      until it is given a slot again. */
  lemma {:induction false} SlotIsKept(cfg: Config, r: Run, m: nat, n: nat, i: int, a: Address, k: Key)
    requires cfg.Sound() && cfg.indexing == Servers.AsIntended && IsRun(cfg, r) && m <= n < |r.states|
    requires Occupies(r.states[m].server, i, a, k) && NotReadmitted(r, m, n, a)
    ensures if EndedBetween(r, m, n, a, k) then Servers.FindConnection(r.states[n].server, a) == -1
            else Occupies(r.states[n].server, i, a, k)
    decreases n
  {
    hide IsRun, Start, Apply, Enabled, Good, Occupies, GaveTo;
    if m == n {
    } else {
      StepAt(cfg, r, n - 1);
      var s, step := r.states[n - 1], r.steps[n - 1];
      RunIsGood(cfg, r, n - 1);
      SlotIsKept(cfg, r, m, n - 1, i, a, k);
      if EndedBetween(r, m, n - 1, a, k) {
        StaysAway(cfg, s, step, a);
      } else if EndsAt(r, n - 1, a, k) {
        OccupantEnds(cfg, s, step, i, a, k);
      } else {
        OccupantStays(cfg, s, step, i, a, k);
      }
    }
  }

  /** Disconnect is targeted and idempotent, as intended: in any run, the first
      disconnect packet of a client to reach the server frees exactly its slot,
      lowers the count by one and touches nothing else. Until the client is given
      a slot again, all that a later one can do is to drop the client's own pending
      challenge, which it does exactly if that is pending under the packet's key. */
  lemma DisconnectIsTargeted(cfg: Config, r: Run, m: nat, t: nat, i: int, a: Address, k: Key)
    requires cfg.Sound() && cfg.indexing == Servers.AsIntended && IsRun(cfg, r)
    requires m <= t && t + 1 < |r.states| && LeavesAt(r, t, a, k)
    requires Occupies(r.states[m].server, i, a, k) && NotReadmitted(r, m, t, a)
    ensures var before, after := r.states[t].server, r.states[t + 1].server;
      if EndedBetween(r, m, t, a, k) then DropsOwnChallenge(before, after, a, k)
      else Occupies(before, i, a, k) && FreesOnly(before, after, i)
  {
    hide IsRun, Start, Enabled, FreesOnly, Occupies, EndedBetween, NotReadmitted, Servers.Listen, DropsOwnChallenge;
    var s := r.states[t];
    StepAt(cfg, r, t);
    RunIsGood(cfg, r, t);
    SlotIsKept(cfg, r, m, t, i, a, k);
    if EndedBetween(r, m, t, a, k) {
      var step := r.steps[t];
      LeaveOfStranger(cfg, s.server, step.arrival, step.p_size, step.secret, k);
    } else {
      OccupantEnds(cfg, s, r.steps[t], i, a, k);
    }
  }

  // ---- Both ends ----

  /** Ten packets leave the departing client, and each of them frees its slot. */
  lemma LeaveIsHeard(cfg: Config, v: Servers.View, c: Clients.Fields, a: Address, i: int,
                     d: Datagram, p_size: nat, secret: PrivateKey)
    requires cfg.indexing == Servers.AsIntended && Tables.Consistent(v, cfg.indexing)
    requires Occupies(v, i, a, c.sharedKey)
    requires c.phase == Clients.Connected && d in Clients.SendDisconnect(c, a).sent
    ensures |Clients.SendDisconnect(c, a).sent| == 10 && d.dst == c.serverAddress
    ensures FreesOnly(v, Serve(cfg, v, d, p_size, secret), i)
    ensures Clients.SendDisconnect(c, a).client.phase == Clients.Disconnected
  {
    hide Serve, FreesOnly;
    LeaveFrees(cfg, v, d, p_size, secret, i, c.sharedKey);
    FreedIsGone(v, cfg.indexing, i);
  }

  /** Ten packets go to the kicked client, and each of them ends its session. */
  lemma KickIsHeard(cfg: Config, v: Servers.View, c: Clients.Fields, a: Address, i: int,
                    d: Datagram, p_size: nat, timedOut: bool)
    requires Tables.Consistent(v, cfg.indexing) && Occupies(v, i, a, c.sharedKey)
    requires c.phase == Clients.Connected && d in Servers.KickClient(v, cfg.indexing, cfg.server, a).sent
    ensures |Servers.KickClient(v, cfg.indexing, cfg.server, a).sent| == 10 && d.dst == a && d.src == cfg.server
    ensures Clients.Listen(c, cfg.group, a, d, p_size, timedOut).effect.client == Clients.Reset(c)
    ensures cfg.indexing == Servers.AsIntended ==>
      FreesOnly(v, Servers.KickClient(v, cfg.indexing, cfg.server, a).view, i)
  {
    Tables.UniqueConnection(v, cfg.indexing, i);
    FreedIsGone(v, cfg.indexing, i);
  }
}
