/** Handshake agreement and the table invariant over every run. */
module Agreement {
  import opened Words
  import opened Wire
  import opened Sequences
  import opened Sessions
  import Servers
  import Clients
  import Tables

  /** A taken slot was assigned to its occupant, under its key; its sequence
      number counts the data packets sent to that occupant. */
  predicate SlotBacked(cfg: Config, v: Servers.View, log: Log, i: int)
    requires 0 <= i < Servers.MAX_CLIENTS
  {
    v.connected[i] ==>
      var c := v.connections[i];
      && c.clientAddress in cfg.clients && c.sharedKey.Derived?
      && Assigned(i, c.clientAddress, c.sharedKey) in log
      && c.sequence == Wrap(SentSince(log, i))
  }

  /** Who sends what. Requests and challenges are only ever CRC-sealed. */
  predicate GoodDatagram(cfg: Config, log: Log, d: Datagram) {
    if d.src == cfg.server then
      && d.dst in cfg.clients
      && match d.message {
           case Garbage => true
           case CrcSealed(body) => body.Challenge?
           case HmacSealed(key, body) =>
             match body {
               case Accepted(id) => 0 < id < Servers.MAX_CLIENTS && Assigned(id, d.dst, key) in log
               case Data(sequence, _) => d.number > 0 && sequence == Wrap(d.number)
               case _ => body.Disconnect?
             }
         }
    else
      && d.src in cfg.clients && d.dst !in cfg.clients
      && match d.message {
           case Garbage => true
           case CrcSealed(body) => body.Request?
           case HmacSealed(key, body) =>
             && (body.Response? || body.Data? || body.Disconnect?)
             && (body.Response? ==> key == ZeroKey || Computed(d.src, key) in log)
         }
  }

  /** A connected client was assigned the slot it holds, under the key it holds. */
  predicate GoodNode(cfg: Config, log: Log, a: Address, n: Node) {
    var c := n.client;
    && (c.serverAddress == cfg.server || c.serverAddress == NOWHERE)
    && (c.sharedKey == ZeroKey || Computed(a, c.sharedKey) in log)
    && (c.phase == Clients.Connected ==>
          0 < c.index < Servers.MAX_CLIENTS && Assigned(c.index, a, c.sharedKey) in log)
  }

  /** Every assignment went to a client that had computed the key before. */
  predicate GoodLog(cfg: Config, log: Log) {
    forall t :: 0 <= t < |log| && log[t].Assigned? ==>
      && 0 < log[t].slot < Servers.MAX_CLIENTS && log[t].client in cfg.clients
      && Computed(log[t].client, log[t].key) in log[..t]
  }

  predicate GoodServer(cfg: Config, v: Servers.View, log: Log) {
    && Tables.Consistent(v, cfg.indexing)
    && (cfg.indexing == Servers.AsIntended ==> Tables.Counted(v))
    && (forall j :: 0 <= j < Servers.MAX_CLIENTS && v.challenged[j] ==> v.challenges[j].clientAddress in cfg.clients)
    && (forall i :: 0 < i < Servers.MAX_CLIENTS ==> SlotBacked(cfg, v, log, i))
  }

  predicate Good(cfg: Config, s: System) {
    && s.nodes.Keys == cfg.clients
    && GoodServer(cfg, s.server, s.log)
    && (forall d :: d in s.net ==> GoodDatagram(cfg, s.log, d))
    && (forall a :: a in s.nodes ==> GoodNode(cfg, s.log, a, s.nodes[a]))
    && GoodLog(cfg, s.log)
  }

  // ---- Longer histories ----

  lemma StillGood(cfg: Config, log: Log, events: Log)
    ensures forall d :: GoodDatagram(cfg, log, d) ==> GoodDatagram(cfg, log + events, d)
    ensures forall a, n :: GoodNode(cfg, log, a, n) ==> GoodNode(cfg, log + events, a, n)
  {
  }

  lemma GoodLogQuiet(cfg: Config, log: Log, events: Log)
    requires GoodLog(cfg, log) && Quiet(events)
    ensures GoodLog(cfg, log + events)
  {
    assert forall t :: |log| <= t < |log + events| ==> (log + events)[t] in events;
    assert forall t :: 0 <= t < |log| ==> (log + events)[..t] == log[..t];
  }

  lemma GoodLogAssigned(cfg: Config, log: Log, e: Event)
    requires GoodLog(cfg, log) && e.Assigned? && 0 < e.slot < Servers.MAX_CLIENTS
    requires e.client in cfg.clients && Computed(e.client, e.key) in log
    ensures GoodLog(cfg, log + [e])
  {
    forall t | 0 <= t < |log + [e]|
      ensures (log + [e])[..t] == log[..t]
    {
    }
  }

  lemma SlotsQuiet(cfg: Config, v: Servers.View, w: Servers.View, log: Log, events: Log)
    requires forall i :: 0 < i < Servers.MAX_CLIENTS ==> SlotBacked(cfg, v, log, i)
    requires Tables.OnlyShrinks(v, w) && Quiet(events)
    ensures forall i :: 0 < i < Servers.MAX_CLIENTS ==> SlotBacked(cfg, w, log + events, i)
  {
    forall i | 0 < i < Servers.MAX_CLIENTS
      ensures SlotBacked(cfg, w, log + events, i)
    {
      assert SlotBacked(cfg, v, log, i);
      QuietAppend(log, events, i, HOST);
    }
  }

  lemma SlotsGiven(cfg: Config, v: Servers.View, w: Servers.View, log: Log, slot: int, a: Address, k: Key)
    requires forall i :: 0 < i < Servers.MAX_CLIENTS ==> SlotBacked(cfg, v, log, i)
    requires Tables.Gives(v, w, slot, a, k) && a in cfg.clients && k.Derived?
    ensures forall i :: 0 < i < Servers.MAX_CLIENTS ==> SlotBacked(cfg, w, log + [Assigned(slot, a, k)], i)
  {
    AppendOne(log, Assigned(slot, a, k));
    forall i | 0 < i < Servers.MAX_CLIENTS
      ensures SlotBacked(cfg, w, log + [Assigned(slot, a, k)], i)
    {
      assert SlotBacked(cfg, v, log, i);
    }
  }

  // ---- Steps of the server ----

  lemma ArrivesFromClient(cfg: Config, s: System, d: Datagram)
    requires cfg.Sound() && Good(cfg, s) && d in s.net && (d.dst == cfg.server || d.dst == BROADCAST)
    ensures d.src in cfg.clients && d.src != HOST && Tables.Honest(d.message)
    ensures d.message.HmacSealed? && d.message.body.Response? && d.message.key.Derived? ==>
      Computed(d.src, d.message.key) in s.log
  {
    assert GoodDatagram(cfg, s.log, d);
  }

  lemma GoodParts(cfg: Config, s: System)
    requires Good(cfg, s)
    ensures Tables.Consistent(s.server, cfg.indexing) && s.nodes.Keys == cfg.clients
    ensures cfg.indexing == Servers.AsIntended ==> Tables.Counted(s.server)
    ensures forall d :: d in s.net ==> GoodDatagram(cfg, s.log, d)
  {
  }

  /** How a datagram moves the tables of a good system. */
  lemma ServerHears(cfg: Config, s: System, d: Datagram, p_size: nat, secret: PrivateKey) returns (slot: int)
    requires cfg.Sound() && Good(cfg, s) && Enabled(cfg, s, ServerListen(d, p_size, secret))
    ensures d.src in cfg.clients && d.src != HOST && Tables.Honest(d.message)
    ensures var e := Servers.Listen(
              s.server, cfg.indexing, cfg.group, cfg.server, d.message, d.src, p_size, secret).effect;
      && Tables.ListenMoves(s.server, e, cfg.server, d.message, d.src, slot)
      && e.view.inGame == s.server.inGame
  {
    hide Good, Servers.Listen, Tables.Consistent, Tables.ListenMoves;
    GoodParts(cfg, s);
    ArrivesFromClient(cfg, s, d);
    slot := Tables.ListenMovesHow(s.server, cfg.indexing, cfg.group, cfg.server, d.message, d.src, p_size, secret);
  }

  lemma ServerMovesKeeps(cfg: Config, s: System, e: Servers.Effect, events: Log)
    requires Good(cfg, s)
    requires GoodServer(cfg, e.view, s.log + events) && GoodLog(cfg, s.log + events)
    requires forall d :: d in e.sent ==> GoodDatagram(cfg, s.log + events, d)
    ensures Good(cfg, ServerMoves(s, e, events))
  {
    StillGood(cfg, s.log, events);
    hide GoodServer, GoodLog, GoodDatagram, GoodNode;
  }

  /** What is left to show when the tables of a good server moved: the facts that
      Tables knows about every operation, and that what was sent may be sent. */
  predicate TablesMoved(cfg: Config, v: Servers.View, w: Servers.View, sender: Address) {
    && Tables.Consistent(w, cfg.indexing) && Tables.ChallengersFrom(v, w, sender)
    && (cfg.indexing == Servers.AsIntended ==> Tables.Counted(w))
  }

  lemma StillFromClients(cfg: Config, v: Servers.View, w: Servers.View, sender: Address)
    requires TablesMoved(cfg, v, w, sender) && (sender in cfg.clients || sender == HOST)
    requires forall j :: 0 <= j < Servers.MAX_CLIENTS && v.challenged[j] ==>
      v.challenges[j].clientAddress in cfg.clients
    ensures forall j :: 0 <= j < Servers.MAX_CLIENTS && w.challenged[j] ==> w.challenges[j].clientAddress in cfg.clients
  {
  }

  lemma ShrinkKeeps(cfg: Config, s: System, e: Servers.Effect, sender: Address)
    requires Good(cfg, s) && TablesMoved(cfg, s.server, e.view, sender) && Tables.OnlyShrinks(s.server, e.view)
    requires sender in cfg.clients || sender == HOST
    requires forall d :: d in e.sent ==> GoodDatagram(cfg, s.log, d)
    ensures Good(cfg, ServerMoves(s, e, TableEvents(s.server, e.view)))
  {
    hide Tables.OnlyShrinks, SlotBacked, GoodDatagram, GoodNode, GoodLog;
    var v, events := s.server, TableEvents(s.server, e.view);
    StillFromClients(cfg, v, e.view, sender);
    hide Tables.Consistent, Tables.Counted, Tables.ChallengersFrom;
    ShrinkIsQuiet(v, e.view, 0);
    SlotsQuiet(cfg, v, e.view, s.log, events);
    GoodLogQuiet(cfg, s.log, events);
    StillGood(cfg, s.log, events);
    ServerMovesKeeps(cfg, s, e, events);
  }

  lemma AcceptanceIsGood(cfg: Config, log: Log, slot: int, a: Address, k: Key)
    requires a in cfg.clients && 0 < slot < Servers.MAX_CLIENTS
    ensures GoodDatagram(
      cfg, log + [Assigned(slot, a, k)], Datagram(cfg.server, a, HmacSealed(k, Accepted(slot)), 0))
  {
  }

  lemma GiftKeeps(cfg: Config, s: System, e: Servers.Effect, slot: int, a: Address, k: Key)
    requires Good(cfg, s) && TablesMoved(cfg, s.server, e.view, a) && Tables.Gives(s.server, e.view, slot, a, k)
    requires a in cfg.clients && k.Derived? && Computed(a, k) in s.log
    requires e.sent == [Datagram(cfg.server, a, HmacSealed(k, Accepted(slot)), 0)]
    ensures Good(cfg, ServerMoves(s, e, TableEvents(s.server, e.view)))
  {
    hide SlotBacked, GoodDatagram, GoodNode, GoodLog;
    var v := s.server;
    StillFromClients(cfg, v, e.view, a);
    AcceptanceIsGood(cfg, s.log, slot, a, k);
    GiveIsOneEvent(v, e.view, 0, slot, a, k);
    hide Tables.Consistent, Tables.Counted, Tables.ChallengersFrom, Tables.Gives;
    SlotsGiven(cfg, v, e.view, s.log, slot, a, k);
    GoodLogAssigned(cfg, s.log, Assigned(slot, a, k));
    ServerMovesKeeps(cfg, s, e, [Assigned(slot, a, k)]);
  }

  lemma ServerListenKeeps(cfg: Config, s: System, d: Datagram, p_size: nat, secret: PrivateKey)
    requires cfg.Sound() && Good(cfg, s) && Enabled(cfg, s, ServerListen(d, p_size, secret))
    ensures Good(cfg, Apply(cfg, s, ServerListen(d, p_size, secret)))
  {
    GoodParts(cfg, s);
    ArrivesFromClient(cfg, s, d);
    hide Good, Servers.Listen, Tables.Consistent, Tables.Counted, Tables.ChallengersFrom, Tables.Gives;
    var v, m := s.server, d.message;
    var e := Servers.Listen(v, cfg.indexing, cfg.group, cfg.server, m, d.src, p_size, secret).effect;
    Tables.ListenKeeps(v, cfg.indexing, cfg.group, cfg.server, m, d.src, p_size, secret);
    Tables.ListenChallengers(v, cfg.indexing, cfg.group, cfg.server, m, d.src, p_size, secret);
    var slot := ServerHears(cfg, s, d, p_size, secret);
    if slot == 0 {
      ShrinkKeeps(cfg, s, e, d.src);
    } else {
      GiftKeeps(cfg, s, e, slot, d.src, m.key);
    }
  }

  lemma KickedIsClient(cfg: Config, s: System, a: Address)
    requires Good(cfg, s) && Servers.KickClient(s.server, cfg.indexing, cfg.server, a).sent != []
    ensures a in cfg.clients
  {
    hide Servers.KickClient;
    Tables.KickMovesHow(s.server, cfg.indexing, cfg.server, a);
    if i :| 0 < i < Servers.MAX_CLIENTS && Servers.ConnectedAt(s.server, i, a) {
      assert SlotBacked(cfg, s.server, s.log, i);
    }
  }

  lemma KickSendsGood(cfg: Config, s: System, a: Address)
    requires Good(cfg, s)
    ensures forall d :: d in Servers.KickClient(s.server, cfg.indexing, cfg.server, a).sent ==>
      GoodDatagram(cfg, s.log, d)
  {
    hide Good, Servers.KickClient, Tables.Consistent, Tables.Counted;
    GoodParts(cfg, s);
    Tables.KickMovesHow(s.server, cfg.indexing, cfg.server, a);
    if Servers.KickClient(s.server, cfg.indexing, cfg.server, a).sent != [] {
      KickedIsClient(cfg, s, a);
    }
  }

  lemma KickKeeps(cfg: Config, s: System, a: Address)
    requires cfg.Sound() && Good(cfg, s)
    ensures Good(cfg, Apply(cfg, s, Kick(a)))
  {
    GoodParts(cfg, s);
    KickSendsGood(cfg, s, a);
    hide Good, GoodDatagram, Servers.KickClient, Tables.Consistent, Tables.Counted;
    hide Tables.ChallengersFrom, Tables.OnlyShrinks;
    var e := Servers.KickClient(s.server, cfg.indexing, cfg.server, a);
    Tables.KickKeeps(s.server, cfg.indexing, cfg.server, a);
    Tables.KickMovesHow(s.server, cfg.indexing, cfg.server, a);
    Tables.KickChallengers(s.server, cfg.indexing, cfg.server, a);
    ShrinkKeeps(cfg, s, e, HOST);
  }

  lemma SlotAdvances(cfg: Config, v: Servers.View, log: Log, payload: seq<bv8>, i: nat)
    requires GoodServer(cfg, v, log) && 0 < i < Servers.MAX_CLIENTS
    ensures var log' := log + FanEvents(v, payload);
      && SlotBacked(cfg, Servers.Advanced(v, 1), log', i)
      && (v.connected[i] ==> GoodDatagram(cfg, log', Tables.PacketFor(v, cfg.server, payload, Numbers(log), i)))
  {
    hide FanEvents;
    Tables.AdvancedOnly(v, 1);
    assert SlotBacked(cfg, v, log, i);
    FanAppend(log, v, payload, 1, i, HOST);
    NextIsSuccessor(SentSince(log, i));
  }

  lemma PropagateKeeps(cfg: Config, s: System, payload: seq<bv8>)
    requires cfg.Sound() && Good(cfg, s)
    ensures Good(cfg, Apply(cfg, s, Propagate(payload)))
  {
    hide Tables.Consistent, Tables.Counted, Tables.PacketFor, FanEvents, SlotBacked, GoodDatagram, GoodNode, GoodLog;
    var v, log := s.server, s.log;
    Tables.PropagateKeeps(v, cfg.indexing, cfg.server, payload, Numbers(log));
    Tables.AdvancedOnly(v, 1);
    Tables.FanOutIs(v, cfg.server, payload, Numbers(log), 1);
    StillGood(cfg, log, FanEvents(v, payload));
    forall i | 0 < i < Servers.MAX_CLIENTS
      ensures SlotBacked(cfg, Servers.Advanced(v, 1), log + FanEvents(v, payload), i)
      ensures v.connected[i] ==>
        GoodDatagram(cfg, log + FanEvents(v, payload), Tables.PacketFor(v, cfg.server, payload, Numbers(log), i))
    {
      SlotAdvances(cfg, v, log, payload, i);
    }
    GoodLogFanned(cfg, log, v, payload, 1);
  }

  lemma {:induction false} GoodLogFanned(cfg: Config, log: Log, v: Servers.View, payload: seq<bv8>, i: nat)
    requires GoodLog(cfg, log) && i <= Servers.MAX_CLIENTS
    ensures GoodLog(cfg, log + FanEvents(v, payload, i))
    decreases Servers.MAX_CLIENTS - i
  {
    if i == Servers.MAX_CLIENTS {
      assert log + FanEvents(v, payload, i) == log;
    } else if v.connected[i] {
      var e := Fanned(i, v.connections[i].clientAddress, payload);
      assert forall t :: 0 <= t < |log| ==> (log + [e])[..t] == log[..t];
      GoodLogFanned(cfg, log + [e], v, payload, i + 1);
      assert log + FanEvents(v, payload, i) == (log + [e]) + FanEvents(v, payload, i + 1);
    } else {
      GoodLogFanned(cfg, log, v, payload, i + 1);
    }
  }

  // ---- Steps of a client ----

  lemma NodeMovesKeeps(cfg: Config, s: System, a: Address, node: Node, sent: seq<Datagram>)
    requires Good(cfg, s) && a in s.nodes
    requires GoodNode(cfg, s.log + KeyEvents(a, s.nodes[a].client, node.client), a, node)
    requires forall d :: d in sent ==> GoodDatagram(cfg, s.log, d)
    ensures Good(cfg, NodeMoves(s, a, node, sent))
  {
    hide Tables.Consistent, Tables.Counted, GoodDatagram, GoodNode;
    var events := KeyEvents(a, s.nodes[a].client, node.client);
    StillGood(cfg, s.log, events);
    GoodLogQuiet(cfg, s.log, events);
    SlotsQuiet(cfg, s.server, s.server, s.log, events);
  }

  lemma ConnectKeeps(cfg: Config, s: System, a: Address, secret: PrivateKey)
    requires cfg.Sound() && Good(cfg, s) && a in s.nodes
    ensures Good(cfg, Apply(cfg, s, Connect(a, secret)))
  {
    hide Tables.Consistent, GoodServer, GoodLog;
    var n := s.nodes[a];
    var e := Clients.Connect(n.client, cfg.group, a, secret);
    assert GoodNode(cfg, s.log, a, n);
    NodeMovesKeeps(cfg, s, a, n.(client := e.client), e.sent);
  }

  lemma RespondKeeps(cfg: Config, s: System, a: Address)
    requires cfg.Sound() && Good(cfg, s) && Enabled(cfg, s, Respond(a))
    ensures Good(cfg, Apply(cfg, s, Respond(a)))
  {
    hide Tables.Consistent, GoodServer, GoodLog;
    var n := s.nodes[a];
    var e := Clients.RespondChallenge(n.client, a);
    assert GoodNode(cfg, s.log, a, n);
    NodeMovesKeeps(cfg, s, a, n.(client := e.client, responders := n.responders - 1), e.sent);
  }

  lemma SendDisconnectKeeps(cfg: Config, s: System, a: Address)
    requires cfg.Sound() && Good(cfg, s) && a in s.nodes
    ensures Good(cfg, Apply(cfg, s, SendDisconnect(a)))
  {
    hide Tables.Consistent, GoodServer, GoodLog;
    var n := s.nodes[a];
    var e := Clients.SendDisconnect(n.client, a);
    assert GoodNode(cfg, s.log, a, n);
    NodeMovesKeeps(cfg, s, a, n.(client := e.client), e.sent);
  }

  lemma SendGameDataKeeps(cfg: Config, s: System, a: Address, payload: seq<bv8>)
    requires cfg.Sound() && Good(cfg, s) && a in s.nodes
    ensures Good(cfg, Apply(cfg, s, SendGameData(a, payload)))
  {
    hide Tables.Consistent, GoodServer, GoodLog;
    var n := s.nodes[a];
    var e := Clients.SendGameData(n.client, a, payload);
    assert GoodNode(cfg, s.log, a, n);
    NodeMovesKeeps(cfg, s, a, n.(client := e.client), e.sent);
  }

  lemma ClientHears(cfg: Config, log: Log, n: Node, a: Address, d: Datagram, p_size: nat, timedOut: bool)
    requires cfg.Sound() && a in cfg.clients && d.dst == a
    requires GoodNode(cfg, log, a, n) && GoodDatagram(cfg, log, d)
    ensures var r := Clients.Listen(n.client, cfg.group, a, d, p_size, timedOut);
      && GoodNode(cfg, log + KeyEvents(a, n.client, r.effect.client), a, AfterReception(n, r, d))
      && forall e :: e in r.effect.sent ==> GoodDatagram(cfg, log, e)
  {
  }

  /** Only the server's datagrams reach a client, so an acceptance that verifies
      names the slot this client was assigned under its current key. */
  lemma ClientListenKeeps(cfg: Config, s: System, a: Address, d: Datagram, p_size: nat, timedOut: bool)
    requires cfg.Sound() && Good(cfg, s) && Enabled(cfg, s, ClientListen(a, d, p_size, timedOut))
    ensures Good(cfg, Apply(cfg, s, ClientListen(a, d, p_size, timedOut)))
  {
    hide GoodServer, GoodLog, GoodNode, GoodDatagram, Clients.Listen;
    var n := s.nodes[a];
    var r := Clients.Listen(n.client, cfg.group, a, d, p_size, timedOut);
    ClientHears(cfg, s.log, n, a, d, p_size, timedOut);
    NodeMovesKeeps(cfg, s, a, AfterReception(n, r, d), r.effect.sent);
  }

  // ---- Runs ----

  lemma StepKeeps(cfg: Config, s: System, step: Step)
    requires cfg.Sound() && Good(cfg, s) && Enabled(cfg, s, step)
    ensures Good(cfg, Apply(cfg, s, step))
  {
    hide Good, Servers.Listen, Servers.KickClient, Clients.Listen;
    match step
    case ServerListen(d, p_size, secret) => ServerListenKeeps(cfg, s, d, p_size, secret);
    case Propagate(payload) => PropagateKeeps(cfg, s, payload);
    case Kick(a) => KickKeeps(cfg, s, a);
    case Connect(a, secret) => ConnectKeeps(cfg, s, a, secret);
    case Respond(a) => RespondKeeps(cfg, s, a);
    case ClientListen(a, d, p_size, timedOut) => ClientListenKeeps(cfg, s, a, d, p_size, timedOut);
    case SendDisconnect(a) => SendDisconnectKeeps(cfg, s, a);
    case SendGameData(a, payload) => SendGameDataKeeps(cfg, s, a, payload);
    case _ => QuietStepKeeps(cfg, s, step);
  }

  lemma QuietStepKeeps(cfg: Config, s: System, step: Step)
    requires cfg.Sound() && Good(cfg, s) && Enabled(cfg, s, step)
    requires step.SwitchToLobby? || step.SwitchToGame? || step.SetActiveTimeout? || step.Corrupt?
    ensures Good(cfg, Apply(cfg, s, step))
  {
    if step.SetActiveTimeout? {
      var a := step.client;
      assert GoodNode(cfg, s.log, a, s.nodes[a]);
      NodeMovesKeeps(cfg, s, a, s.nodes[a].(client := s.nodes[a].client.(activeTimeout := step.value)), []);
    } else if step.Corrupt? {
      assert GoodDatagram(cfg, s.log, step.original);
    } else {
      forall i | 0 < i < Servers.MAX_CLIENTS
        ensures SlotBacked(cfg, Apply(cfg, s, step).server, s.log, i)
      {
        assert SlotBacked(cfg, s.server, s.log, i);
      }
    }
  }

  lemma StartIsGood(cfg: Config)
    ensures Good(cfg, Start(cfg))
  {
    Tables.InitialIsConsistent(cfg.indexing);
  }

  /** Every state of every run is good. */
  lemma {:induction false} RunIsGood(cfg: Config, r: Run, n: nat)
    requires cfg.Sound() && IsRun(cfg, r) && n < |r.states|
    ensures Good(cfg, r.states[n])
  {
    hide Good, Start, Apply, Enabled, IsRun;
    if n == 0 {
      Begins(cfg, r);
      StartIsGood(cfg);
    } else {
      RunIsGood(cfg, r, n - 1);
      StepAt(cfg, r, n - 1);
      StepKeeps(cfg, r.states[n - 1], r.steps[n - 1]);
    }
  }
}
