/** The main results about sessions, said in terms of the steps of a run. */
module History {
  import opened Words
  import opened Wire
  import opened Sequences
  import opened Sessions
  import opened Agreement
  import Servers
  import Clients
  import Tables

  /** Step n gave the slot to client a under key k and changed no other connection. */
  predicate GivenAt(r: Run, n: int, slot: int, a: Address, k: Key) {
    && 0 <= n < |r.steps| && n + 1 < |r.states|
    && r.steps[n].ServerListen? && r.steps[n].arrival.src == a
    && Tables.Gives(r.states[n].server, r.states[n + 1].server, slot, a, k)
  }

  /** In state n client a held key k. */
  predicate HeldAt(r: Run, n: int, a: Address, k: Key) {
    0 <= n < |r.states| && a in r.states[n].nodes && r.states[n].nodes[a].client.sharedKey == k
  }

  // ---- The log is a history of the steps ----

  lemma {:induction false} FanEventsAreFanned(v: Servers.View, payload: seq<bv8>, i: nat)
    requires i <= Servers.MAX_CLIENTS
    ensures forall e :: e in FanEvents(v, payload, i) ==> e.Fanned?
    decreases Servers.MAX_CLIENTS - i
  {
    if i == Servers.MAX_CLIENTS {
    } else {
      FanEventsAreFanned(v, payload, i + 1);
    }
  }

  /** An assignment enters the log in a step that gives the slot. */
  lemma AssignmentIsGift(cfg: Config, s: System, step: Step, e: Event)
    requires cfg.Sound() && Good(cfg, s) && Enabled(cfg, s, step)
    requires e.Assigned? && e !in s.log && e in Apply(cfg, s, step).log
    ensures step.ServerListen? && step.arrival.src == e.client
    ensures Tables.Gives(s.server, Apply(cfg, s, step).server, e.slot, e.client, e.key)
  {
    hide Good, Servers.Listen, Servers.KickClient, Clients.Listen, Tables.Consistent;
    GoodParts(cfg, s);
    var v := s.server;
    match step
    case ServerListen(d, p_size, secret) =>
      var w := Apply(cfg, s, step).server;
      var slot := ServerHears(cfg, s, d, p_size, secret);
      if slot == 0 {
        ShrinkIsQuiet(v, w, 0);
      } else {
        GiveIsOneEvent(v, w, 0, slot, d.src, d.message.key);
      }
    case Kick(a) =>
      Tables.KickMovesHow(v, cfg.indexing, cfg.server, a);
      ShrinkIsQuiet(v, Apply(cfg, s, step).server, 0);
    case Propagate(payload) => FanEventsAreFanned(v, payload, 1);
    case _ =>
  }

  lemma StartIsQuiet(cfg: Config)
    ensures Start(cfg).log == []
  {
  }

  /** Every assignment in the history is a step of the run that gave the slot. */
  lemma {:induction false} AssignmentHappened(cfg: Config, r: Run, n: nat, e: Event)
    requires cfg.Sound() && IsRun(cfg, r) && n < |r.states| && e.Assigned? && e in r.states[n].log
    ensures exists m :: m < n && GivenAt(r, m, e.slot, e.client, e.key)
  {
    hide Start, Apply, Enabled, Good, IsRun;
    Begins(cfg, r);
    StartIsQuiet(cfg);
    var s := r.states[n - 1];
    if e in s.log {
      AssignmentHappened(cfg, r, n - 1, e);
    } else {
      RunIsGood(cfg, r, n - 1);
      StepAt(cfg, r, n - 1);
      AssignmentIsGift(cfg, s, r.steps[n - 1], e);
      assert GivenAt(r, n - 1, e.slot, e.client, e.key);
    }
  }

  lemma {:induction false} TableEventsAreNotComputed(v: Servers.View, w: Servers.View, i: nat)
    requires i <= Servers.MAX_CLIENTS
    ensures forall e :: e in TableEvents(v, w, i) ==> e.Assigned? || e.Freed?
    decreases Servers.MAX_CLIENTS - i
  {
    if i == Servers.MAX_CLIENTS {
    } else {
      TableEventsAreNotComputed(v, w, i + 1);
    }
  }

  /** A computed key enters the log in the step after which the client holds it. */
  lemma ComputedIsHeld(cfg: Config, s: System, step: Step, e: Event)
    requires Good(cfg, s) && Enabled(cfg, s, step)
    requires e.Computed? && e !in s.log && e in Apply(cfg, s, step).log
    ensures var t := Apply(cfg, s, step); e.client in t.nodes && t.nodes[e.client].client.sharedKey == e.key
  {
    hide Servers.Listen, Servers.KickClient, Clients.Listen, Good, GoodServer;
    match step
    case ServerListen(_, _, _) => TableEventsAreNotComputed(s.server, Apply(cfg, s, step).server, 0);
    case Kick(_) => TableEventsAreNotComputed(s.server, Apply(cfg, s, step).server, 0);
    case Propagate(payload) => FanEventsAreFanned(s.server, payload, 1);
    case _ =>
  }

  lemma {:induction false} ComputationHappened(cfg: Config, r: Run, n: nat, a: Address, k: Key)
    requires cfg.Sound() && IsRun(cfg, r) && n < |r.states| && Computed(a, k) in r.states[n].log
    ensures exists m :: m <= n && HeldAt(r, m, a, k)
  {
    hide Start, Apply, Enabled, Good, IsRun;
    Begins(cfg, r);
    StartIsQuiet(cfg);
    var s := r.states[n - 1];
    if Computed(a, k) in s.log {
      ComputationHappened(cfg, r, n - 1, a, k);
    } else {
      RunIsGood(cfg, r, n - 1);
      StepAt(cfg, r, n - 1);
      ComputedIsHeld(cfg, s, r.steps[n - 1], Computed(a, k));
      assert HeldAt(r, n, a, k);
    }
  }

  // ---- The run's own counts ----

  /** A slot was taken by client a between two states of the tables. */
  predicate GaveTo(v: Servers.View, w: Servers.View, a: Address) {
    exists i :: 0 <= i < Servers.MAX_CLIENTS && !v.connected[i] && Servers.ConnectedAt(w, i, a)
  }

  /** The Propagate steps before state n that reached the slot since it was last taken. */
  function PropagatedSince(r: Run, slot: int, n: nat): nat
    requires |r.states| == |r.steps| + 1 && n < |r.states| && 0 <= slot < Servers.MAX_CLIENTS
  {
    if n == 0 then 0
    else
      var v, w := r.states[n - 1].server, r.states[n].server;
      if !v.connected[slot] && w.connected[slot] then 0
      else PropagatedSince(r, slot, n - 1) + (if r.steps[n - 1].Propagate? && v.connected[slot] then 1 else 0)
  }

  /** How many steps before state n gave client a a slot. */
  function Gifts(r: Run, a: Address, n: nat): nat
    requires |r.states| == |r.steps| + 1 && n < |r.states|
  {
    if n == 0 then 0
    else Gifts(r, a, n - 1) + (if GaveTo(r.states[n - 1].server, r.states[n].server, a) then 1 else 0)
  }

  /** The payloads of the Propagate steps before state n that reached client a, in order. */
  function Propagated(r: Run, a: Address, n: nat): seq<seq<bv8>>
    requires |r.states| == |r.steps| + 1 && n < |r.states|
  {
    if n == 0 then []
    else
      var step := r.steps[n - 1];
      Propagated(r, a, n - 1)
      + (if step.Propagate? && Reaches(r.states[n - 1].server, 1, a) then [step.payload] else [])
  }

  /** What one step adds to the history, told from the step and the tables. */
  predicate Logs(s: System, step: Step, t: System, slot: int, a: Address)
    requires 0 < slot < Servers.MAX_CLIENTS
  {
    var v, w := s.server, t.server;
    && SentSince(t.log, slot) == (
         if !v.connected[slot] && w.connected[slot] then 0
         else SentSince(s.log, slot) + (if step.Propagate? && v.connected[slot] then 1 else 0))
    && Assignments(t.log, a) == Assignments(s.log, a) + (if GaveTo(v, w, a) then 1 else 0)
    && Sent(t.log, a) == Sent(s.log, a) + (if step.Propagate? && Reaches(v, 1, a) then [step.payload] else [])
  }

  lemma QuietLogs(s: System, step: Step, t: System, events: Log, slot: int, a: Address)
    requires 0 < slot < Servers.MAX_CLIENTS && !step.Propagate?
    requires t.log == s.log + events && Quiet(events) && Tables.OnlyShrinks(s.server, t.server)
    ensures Logs(s, step, t, slot, a)
  {
    QuietAppend(s.log, events, slot, a);
  }

  lemma GiftLogs(s: System, step: Step, t: System, given: int, b: Address, k: Key, slot: int, a: Address)
    requires 0 < slot < Servers.MAX_CLIENTS && !step.Propagate?
    requires t.log == s.log + [Assigned(given, b, k)] && Tables.Gives(s.server, t.server, given, b, k)
    ensures Logs(s, step, t, slot, a)
  {
    AppendOne(s.log, Assigned(given, b, k));
    assert Servers.ConnectedAt(t.server, given, b);
  }

  lemma PropagateLogs(cfg: Config, s: System, payload: seq<bv8>, slot: int, a: Address)
    requires Good(cfg, s) && 0 < slot < Servers.MAX_CLIENTS
    ensures Logs(s, Propagate(payload), Apply(cfg, s, Propagate(payload)), slot, a)
  {
    hide SentSince, Assignments, Sent, FanEvents, Reaches;
    Tables.AdvancedOnly(s.server, 1);
    FanAppend(s.log, s.server, payload, 1, slot, a);
  }

  lemma ServerListenLogs(cfg: Config, s: System, d: Datagram, p_size: nat, secret: PrivateKey, slot: int, a: Address)
    requires cfg.Sound() && Good(cfg, s) && Enabled(cfg, s, ServerListen(d, p_size, secret))
    requires 0 < slot < Servers.MAX_CLIENTS
    ensures Logs(s, ServerListen(d, p_size, secret), Apply(cfg, s, ServerListen(d, p_size, secret)), slot, a)
  {
    hide Good, Servers.Listen, Logs;
    var v, t := s.server, Apply(cfg, s, ServerListen(d, p_size, secret));
    var given := ServerHears(cfg, s, d, p_size, secret);
    if given == 0 {
      ShrinkIsQuiet(v, t.server, 0);
      QuietLogs(s, ServerListen(d, p_size, secret), t, TableEvents(v, t.server), slot, a);
    } else {
      GiveIsOneEvent(v, t.server, 0, given, d.src, d.message.key);
      GiftLogs(s, ServerListen(d, p_size, secret), t, given, d.src, d.message.key, slot, a);
    }
  }

  lemma KickLogs(cfg: Config, s: System, victim: Address, slot: int, a: Address)
    requires Good(cfg, s) && 0 < slot < Servers.MAX_CLIENTS
    ensures Logs(s, Kick(victim), Apply(cfg, s, Kick(victim)), slot, a)
  {
    hide Servers.KickClient, Tables.Consistent, Tables.Counted, Logs;
    var v, t := s.server, Apply(cfg, s, Kick(victim));
    Tables.KickMovesHow(v, cfg.indexing, cfg.server, victim);
    ShrinkIsQuiet(v, t.server, 0);
    QuietLogs(s, Kick(victim), t, TableEvents(v, t.server), slot, a);
  }

  /** A step that is none of the server's logs derived keys at most. */
  lemma OtherStepIsQuiet(cfg: Config, s: System, step: Step) returns (events: Log)
    requires Enabled(cfg, s, step) && !step.ServerListen? && !step.Kick? && !step.Propagate?
    ensures var t := Apply(cfg, s, step);
      t.log == s.log + events && Quiet(events) && Tables.OnlyShrinks(s.server, t.server)
  {
    hide Clients.Listen;
    var t := Apply(cfg, s, step);
    if step.SwitchToLobby? || step.SwitchToGame? || step.Corrupt? {
      events := [];
    } else {
      events := KeyEvents(step.client, s.nodes[step.client].client, t.nodes[step.client].client);
    }
  }

  lemma StepLogs(cfg: Config, s: System, step: Step, slot: int, a: Address)
    requires cfg.Sound() && Good(cfg, s) && Enabled(cfg, s, step) && 0 < slot < Servers.MAX_CLIENTS
    ensures Logs(s, step, Apply(cfg, s, step), slot, a)
  {
    hide Apply, Good, Logs;
    match step
    case ServerListen(d, p_size, secret) => ServerListenLogs(cfg, s, d, p_size, secret, slot, a);
    case Kick(victim) => KickLogs(cfg, s, victim, slot, a);
    case Propagate(payload) => PropagateLogs(cfg, s, payload, slot, a);
    case _ =>
      var events := OtherStepIsQuiet(cfg, s, step);
      QuietLogs(s, step, Apply(cfg, s, step), events, slot, a);
  }

  /** The history counts the run's own steps: packets sent to a slot's occupant,
      slots given to a client, payloads sent to it. */
  lemma {:induction false} HistoryCountsSteps(cfg: Config, r: Run, n: nat, slot: int, a: Address)
    requires cfg.Sound() && IsRun(cfg, r) && |r.states| == |r.steps| + 1 && n < |r.states|
    requires 0 < slot < Servers.MAX_CLIENTS
    ensures SentSince(r.states[n].log, slot) == PropagatedSince(r, slot, n)
    ensures Assignments(r.states[n].log, a) == Gifts(r, a, n)
    ensures Sent(r.states[n].log, a) == Propagated(r, a, n)
  {
    hide Start, Apply, Enabled, Good, IsRun, SentSince, Assignments, Sent, GaveTo, Reaches;
    Begins(cfg, r);
    if n == 0 {
      StartIsQuiet(cfg);
      NothingLogged(slot, a);
    } else {
      RunIsGood(cfg, r, n - 1);
      StepAt(cfg, r, n - 1);
      StepLogs(cfg, r.states[n - 1], r.steps[n - 1], slot, a);
      HistoryCountsSteps(cfg, r, n - 1, slot, a);
    }
  }

  lemma NothingLogged(slot: int, a: Address)
    ensures SentSince([], slot) == 0 && Assignments([], a) == 0 && Sent([], a) == []
  {
  }

  // ---- Main results ----

  /** Handshake agreement: in every state in which a client is CONNECTED, some
      earlier step of the server gave the slot m_index to exactly that client's
      address under exactly the client's m_sharedKey. */
  lemma HandshakeAgreement(cfg: Config, r: Run, n: nat, a: Address)
    requires cfg.Sound() && IsRun(cfg, r) && n < |r.states| && a in cfg.clients
    ensures a in r.states[n].nodes
    ensures var c := r.states[n].nodes[a].client;
      c.phase == Clients.Connected ==>
        0 < c.index < Servers.MAX_CLIENTS && exists m :: m < n && GivenAt(r, m, c.index, a, c.sharedKey)
  {
    RunIsGood(cfg, r, n);
    var s := r.states[n];
    var c := s.nodes[a].client;
    assert GoodNode(cfg, s.log, a, s.nodes[a]);
    if c.phase == Clients.Connected {
      AssignmentHappened(cfg, r, n, Assigned(c.index, a, c.sharedKey));
    }
  }

  /** Conversely: a step that takes a slot gives it to a client that had itself
      computed the slot's key by then. */
  lemma AssignmentIsEarned(cfg: Config, r: Run, n: nat, slot: int)
    requires cfg.Sound() && IsRun(cfg, r) && n < |r.steps| && 0 <= slot < Servers.MAX_CLIENTS
    requires !r.states[n].server.connected[slot] && r.states[n + 1].server.connected[slot]
    ensures var taken := r.states[n + 1].server.connections[slot];
      && slot > 0 && taken.clientAddress in cfg.clients && taken.sharedKey.Derived?
      && GivenAt(r, n, slot, taken.clientAddress, taken.sharedKey)
      && exists m :: m <= n && HeldAt(r, m, taken.clientAddress, taken.sharedKey)
  {
    hide Good, Enabled, Apply;
    RunIsGood(cfg, r, n);
    StepAt(cfg, r, n);
    var a, k := TakingIsListening(cfg, r.states[n], r.steps[n], slot);
    ComputationHappened(cfg, r, n, a, k);
  }

  lemma TakingIsListening(cfg: Config, s: System, step: Step, slot: int) returns (a: Address, k: Key)
    requires cfg.Sound() && Good(cfg, s) && Enabled(cfg, s, step) && 0 <= slot < Servers.MAX_CLIENTS
    requires !s.server.connected[slot] && Apply(cfg, s, step).server.connected[slot]
    ensures step.ServerListen? && step.arrival.src == a && a in cfg.clients
    ensures k.Derived? && Computed(a, k) in s.log
    ensures Tables.Gives(s.server, Apply(cfg, s, step).server, slot, a, k)
  {
    hide Good, Servers.Listen, Servers.KickClient, Clients.Listen, Tables.Consistent;
    GoodParts(cfg, s);
    a, k := HOST, ZeroKey;
    var v := s.server;
    match step
    case ServerListen(d, p_size, secret) =>
      ArrivesFromClient(cfg, s, d);
      var given := ServerHears(cfg, s, d, p_size, secret);
      a, k := d.src, d.message.key;
    case Kick(victim) => Tables.KickMovesHow(v, cfg.indexing, cfg.server, victim);
    case Propagate(payload) => Tables.AdvancedOnly(v, 1);
    case _ =>
  }

  /** The server's tables in every state of every run: the host keeps slot 0,
      connected addresses are pairwise distinct, none is also challenged, every
      connected client knows an index from 1 to 3; as intended, m_numConnections
      is right. */
  lemma TableInvariant(cfg: Config, r: Run, n: nat)
    requires cfg.Sound() && IsRun(cfg, r) && n < |r.states|
    ensures var s := r.states[n];
      && Tables.Consistent(s.server, cfg.indexing)
      && (cfg.indexing == Servers.AsIntended ==> Tables.Counted(s.server))
      && forall a :: a in s.nodes && s.nodes[a].client.phase == Clients.Connected ==> 1 <= s.nodes[a].client.index <= 3
  {
    RunIsGood(cfg, r, n);
    var s := r.states[n];
    assert forall a :: a in s.nodes ==> GoodNode(cfg, s.log, a, s.nodes[a]);
  }

  /** Fan-out accounting: a slot's 16-bit sequence number is always the number of
      propagations since its occupant was let in, modulo 65536. */
  lemma SequenceCountsPackets(cfg: Config, r: Run, n: nat, i: int)
    requires cfg.Sound() && IsRun(cfg, r) && n < |r.states| && 0 < i < Servers.MAX_CLIENTS
    ensures var v := r.states[n].server;
      v.connected[i] ==> v.connections[i].sequence as int == PropagatedSince(r, i, n) % 0x1_0000
  {
    hide IsRun;
    Begins(cfg, r);
    RunIsGood(cfg, r, n);
    HistoryCountsSteps(cfg, r, n, i, HOST);
    assert SlotBacked(cfg, r.states[n].server, r.states[n].log, i);
  }

  /** One propagation sends each connected client exactly one packet and nobody else any. */
  lemma PropagateSendsOneEach(cfg: Config, r: Run, n: nat, payload: seq<bv8>, a: Address)
    requires cfg.Sound() && IsRun(cfg, r) && n < |r.states|
    ensures var s := r.states[n];
      var sent := Servers.Propagate(s.server, cfg.server, payload, Numbers(s.log)).sent;
      Tables.AddressedTo(sent, a) == if Reaches(s.server, 1, a) then 1 else 0
  {
    RunIsGood(cfg, r, n);
    var s := r.states[n];
    Tables.OnePacketEach(s.server, cfg.indexing, cfg.server, payload, Numbers(s.log), 1, a);
  }

  /** Slots taken in w are taken in v by the same client under the same key. */
  predicate SameOccupants(v: Servers.View, w: Servers.View) {
    forall i :: 0 <= i < Servers.MAX_CLIENTS && w.connected[i] ==>
      v.connected[i] && v.connections[i].clientAddress == w.connections[i].clientAddress
      && v.connections[i].sharedKey == w.connections[i].sharedKey
  }

  lemma SameAsItself(v: Servers.View)
    ensures SameOccupants(v, v)
  {
  }

  lemma OccupantsThrough(u: Servers.View, v: Servers.View, w: Servers.View)
    requires SameOccupants(u, v) && SameOccupants(v, w)
    ensures SameOccupants(u, w)
  {
  }

  lemma GameStepShrinks(cfg: Config, s: System, step: Step)
    requires cfg.Sound() && Good(cfg, s) && Enabled(cfg, s, step) && s.server.inGame && !step.SwitchToLobby?
    ensures SameOccupants(s.server, Apply(cfg, s, step).server) && Apply(cfg, s, step).server.inGame
  {
    hide Good, Servers.Listen, Servers.KickClient, Clients.Listen, Tables.Consistent;
    GoodParts(cfg, s);
    var v := s.server;
    match step
    case ServerListen(d, p_size, secret) =>
      var given := ServerHears(cfg, s, d, p_size, secret);
    case Kick(victim) => Tables.KickMovesHow(v, cfg.indexing, cfg.server, victim);
    case Propagate(payload) => Tables.AdvancedOnly(v, 1);
    case _ =>
  }

  /** While the game runs, the set of connected clients can only shrink. */
  lemma {:induction false} GameOnlyShrinks(cfg: Config, r: Run, m: nat, n: nat)
    requires cfg.Sound() && IsRun(cfg, r) && m <= n < |r.states|
    requires r.states[m].server.inGame && forall t :: m <= t < n ==> !r.steps[t].SwitchToLobby?
    ensures SameOccupants(r.states[m].server, r.states[n].server)
    ensures r.states[n].server.inGame
    decreases n
  {
    hide Start, Apply, Enabled, Good, SameOccupants, IsRun;
    if m == n {
      SameAsItself(r.states[n].server);
    } else {
      var s, t := r.states[n - 1], r.states[n];
      GameOnlyShrinks(cfg, r, m, n - 1);
      RunIsGood(cfg, r, n - 1);
      StepAt(cfg, r, n - 1);
      GameStepShrinks(cfg, s, r.steps[n - 1]);
      OccupantsThrough(r.states[m].server, s.server, t.server);
    }
  }
}
