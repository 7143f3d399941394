/** One server, any number of clients and a network that may drop, duplicate,
    reorder and corrupt datagrams. Every public operation is one step, and so is
    a detached responder thread when it fires. */
module Sessions {
  import opened Words
  import opened Wire
  import opened Sequences
  import Servers
  import Clients
  import Tables

  /** What stays fixed during a run. */
  datatype Config = Config(group: Group, indexing: Servers.Indexing, server: Address, clients: set<Address>) {
    /** Clients have addresses of their own. */
    predicate Sound() {
      HOST !in clients && NOWHERE !in clients && BROADCAST !in clients && server !in clients
    }
  }

  // ---- The history ----

  /** Assigned, Freed: a slot of the server was taken or given up. Computed: a
      client derived a shared key. Fanned: the server sent game data to the
      occupant of a slot. */
  datatype Event =
    | Assigned(slot: int, client: Address, key: Key)
    | Freed(slot: int)
    | Computed(client: Address, key: Key)
    | Fanned(slot: int, client: Address, payload: seq<bv8>)

  type Log = seq<Event>

  /** Data packets sent to the current occupant of a slot. */
  function SentSince(log: Log, slot: int): nat {
    if |log| == 0 then 0
    else
      var last, rest := log[|log| - 1], log[..|log| - 1];
      if last.Assigned? && last.slot == slot then 0
      else SentSince(rest, slot) + (if last.Fanned? && last.slot == slot then 1 else 0)
  }

  /** How often a client was given a slot. */
  function Assignments(log: Log, a: Address): nat {
    if |log| == 0 then 0
    else
      var last, rest := log[|log| - 1], log[..|log| - 1];
      Assignments(rest, a) + (if last.Assigned? && last.client == a then 1 else 0)
  }

  /** The payloads sent to a client, in order. */
  function Sent(log: Log, a: Address): seq<seq<bv8>> {
    if |log| == 0 then []
    else
      var last, rest := log[|log| - 1], log[..|log| - 1];
      Sent(rest, a) + (if last.Fanned? && last.client == a then [last.payload] else [])
  }

  /** What happened to slot i between two states of the tables. */
  function SlotEvents(v: Servers.View, w: Servers.View, i: int): Log
    requires 0 <= i < Servers.MAX_CLIENTS
  {
    if !v.connected[i] && w.connected[i]
    then [Assigned(i, w.connections[i].clientAddress, w.connections[i].sharedKey)]
    else if v.connected[i] && !w.connected[i] then [Freed(i)]
    else []
  }

  function TableEvents(v: Servers.View, w: Servers.View, i: nat := 0): Log
    requires i <= Servers.MAX_CLIENTS
    decreases Servers.MAX_CLIENTS - i
  {
    if i == Servers.MAX_CLIENTS then [] else SlotEvents(v, w, i) + TableEvents(v, w, i + 1)
  }

  function FanEvents(v: Servers.View, payload: seq<bv8>, i: nat := 1): Log
    requires i <= Servers.MAX_CLIENTS
    decreases Servers.MAX_CLIENTS - i
  {
    if i == Servers.MAX_CLIENTS then []
    else if v.connected[i] then [Fanned(i, v.connections[i].clientAddress, payload)] + FanEvents(v, payload, i + 1)
    else FanEvents(v, payload, i + 1)
  }

  function KeyEvents(a: Address, before: Clients.Fields, after: Clients.Fields): Log {
    if after.sharedKey != before.sharedKey && after.sharedKey != ZeroKey then [Computed(a, after.sharedKey)] else []
  }

  // ---- The system ----

  /** A payload handed to the caller of Listen, with the number it was sent under. */
  datatype Receipt = Receipt(number: nat, payload: seq<bv8>)

  /** A client with its responder threads still to fire, the number of the last
      data packet it acknowledged, and what it has handed out. */
  datatype Node = Node(client: Clients.Fields, responders: nat, lastNumber: nat, receipts: seq<Receipt>)

  /** `net` holds every datagram ever sent: any of them may arrive, any number of
      times, at any time, or never. */
  datatype System = System(server: Servers.View, nodes: map<Address, Node>, net: set<Datagram>, log: Log)

  function Start(cfg: Config): System {
    System(Servers.Initial(), map a | a in cfg.clients :: Node(Clients.Fresh(), 0, 0, []), {}, [])
  }

  datatype Step =
    | ServerListen(arrival: Datagram, p_size: nat, secret: PrivateKey)
    | Propagate(payload: seq<bv8>)
    | SwitchToLobby
    | SwitchToGame
    | Kick(victim: Address)
    | Connect(client: Address, secret: PrivateKey)
    | Respond(client: Address)
    | ClientListen(client: Address, arrival: Datagram, p_size: nat, timedOut: bool)
    | SendDisconnect(client: Address)
    | SendGameData(client: Address, payload: seq<bv8>)
    | SetActiveTimeout(client: Address, value: bool)
    | Corrupt(original: Datagram)

  predicate Enabled(cfg: Config, s: System, step: Step) {
    match step
    case ServerListen(d, _, _) => d in s.net && (d.dst == cfg.server || d.dst == BROADCAST)
    case Connect(a, _) => a in s.nodes
    case Respond(a) => a in s.nodes && s.nodes[a].responders > 0
    case ClientListen(a, d, _, _) => a in s.nodes && d in s.net && d.dst == a
    case SendDisconnect(a) => a in s.nodes
    case SendGameData(a, _) => a in s.nodes
    case SetActiveTimeout(a, _) => a in s.nodes
    case Corrupt(d) => d in s.net
    case _ => true
  }

  function Elements(ds: seq<Datagram>): set<Datagram> {
    set d | d in ds
  }

  function ServerMoves(s: System, e: Servers.Effect, events: Log): System {
    s.(server := e.view, net := s.net + Elements(e.sent), log := s.log + events)
  }

  function NodeMoves(s: System, a: Address, node: Node, sent: seq<Datagram>): System
    requires a in s.nodes
  {
    s.(nodes := s.nodes[a := node], net := s.net + Elements(sent),
       log := s.log + KeyEvents(a, s.nodes[a].client, node.client))
  }

  /** The number the next data packet to each slot's occupant gets. */
  function Numbers(log: Log): (numbers: seq<nat>)
    ensures |numbers| == Servers.MAX_CLIENTS
  {
    seq(Servers.MAX_CLIENTS, i => SentSince(log, i) + 1)
  }

  function AfterReception(n: Node, r: Clients.Reception, d: Datagram): Node {
    n.(client := r.effect.client,
       responders := n.responders + (if r.spawned then 1 else 0),
       lastNumber := if r.acknowledged then d.number else n.lastNumber,
       receipts := n.receipts + (if r.gameData.Some? then [Receipt(d.number, r.gameData.value)] else []))
  }

  function Apply(cfg: Config, s: System, step: Step): System
    requires Enabled(cfg, s, step)
  {
    match step
    case ServerListen(d, p_size, secret) =>
      var e := Servers.Listen(s.server, cfg.indexing, cfg.group, cfg.server, d.message, d.src, p_size, secret).effect;
      ServerMoves(s, e, TableEvents(s.server, e.view))
    case Propagate(payload) =>
      var e := Servers.Propagate(s.server, cfg.server, payload, Numbers(s.log));
      ServerMoves(s, e, FanEvents(s.server, payload))
    case SwitchToLobby => s.(server := s.server.(inGame := false))
    case SwitchToGame => s.(server := s.server.(inGame := true))
    case Kick(a) =>
      var e := Servers.KickClient(s.server, cfg.indexing, cfg.server, a);
      ServerMoves(s, e, TableEvents(s.server, e.view))
    case Connect(a, secret) =>
      var e := Clients.Connect(s.nodes[a].client, cfg.group, a, secret);
      NodeMoves(s, a, s.nodes[a].(client := e.client), e.sent)
    case Respond(a) =>
      var n := s.nodes[a];
      var e := Clients.RespondChallenge(n.client, a);
      NodeMoves(s, a, n.(client := e.client, responders := n.responders - 1), e.sent)
    case ClientListen(a, d, p_size, timedOut) =>
      var r := Clients.Listen(s.nodes[a].client, cfg.group, a, d, p_size, timedOut);
      NodeMoves(s, a, AfterReception(s.nodes[a], r, d), r.effect.sent)
    case SendDisconnect(a) =>
      var e := Clients.SendDisconnect(s.nodes[a].client, a);
      NodeMoves(s, a, s.nodes[a].(client := e.client), e.sent)
    case SendGameData(a, payload) =>
      var e := Clients.SendGameData(s.nodes[a].client, a, payload);
      NodeMoves(s, a, s.nodes[a].(client := e.client), e.sent)
    case SetActiveTimeout(a, value) =>
      NodeMoves(s, a, s.nodes[a].(client := s.nodes[a].client.(activeTimeout := value)), [])
    case Corrupt(d) => s.(net := s.net + {Datagram(d.src, d.dst, Garbage, 0)})
  }

  /** A run: the states passed through and the step taken from each to the next. */
  datatype Run = Run(states: seq<System>, steps: seq<Step>)

  /** The step is possible in s and leads to t. */
  predicate Takes(cfg: Config, s: System, step: Step, t: System) {
    Enabled(cfg, s, step) && t == Apply(cfg, s, step)
  }

  predicate IsRun(cfg: Config, r: Run) {
    && |r.states| == |r.steps| + 1 && r.states[0] == Start(cfg)
    && forall n :: 0 <= n < |r.steps| ==> Takes(cfg, r.states[n], r.steps[n], r.states[n + 1])
  }

  lemma Begins(cfg: Config, r: Run)
    requires IsRun(cfg, r)
    ensures |r.states| == |r.steps| + 1 && r.states[0] == Start(cfg)
  {
  }

  /** The run takes its n-th step from its n-th state to the next. */
  lemma StepAt(cfg: Config, r: Run, n: nat)
    requires IsRun(cfg, r) && n + 1 < |r.states|
    ensures |r.states| == |r.steps| + 1
    ensures Takes(cfg, r.states[n], r.steps[n], r.states[n + 1])
  {
    hide Takes;
  }

  function Final(r: Run): System
    requires |r.states| > 0
  {
    r.states[|r.states| - 1]
  }

  // ---- Appending to the history ----

  /** Neither a slot taken nor game data sent. */
  predicate Quiet(events: Log) {
    forall e :: e in events ==> e.Freed? || e.Computed?
  }

  lemma AppendOne(log: Log, e: Event)
    ensures (log + [e])[..|log|] == log && (log + [e])[|log|] == e
  {
  }

  lemma {:induction false} QuietAppend(log: Log, events: Log, slot: int, a: Address)
    requires Quiet(events)
    ensures SentSince(log + events, slot) == SentSince(log, slot)
    ensures Assignments(log + events, a) == Assignments(log, a)
    ensures Sent(log + events, a) == Sent(log, a)
    decreases |events|
  {
    if |events| == 0 {
      assert log + events == log;
    } else {
      var n := |events| - 1;
      assert events[n] in events;
      assert log + events == (log + events[..n]) + [events[n]];
      AppendOne(log + events[..n], events[n]);
      QuietAppend(log, events[..n], slot, a);
    }
  }

  lemma {:induction false} ShrinkIsQuiet(v: Servers.View, w: Servers.View, i: nat)
    requires i <= Servers.MAX_CLIENTS && Tables.OnlyShrinks(v, w)
    ensures Quiet(TableEvents(v, w, i))
    decreases Servers.MAX_CLIENTS - i
  {
    if i == Servers.MAX_CLIENTS {
    } else {
      ShrinkIsQuiet(v, w, i + 1);
    }
  }

  lemma {:induction false} GiveIsOneEvent(v: Servers.View, w: Servers.View, i: nat, slot: int, a: Address, k: Key)
    requires i <= Servers.MAX_CLIENTS && Tables.Gives(v, w, slot, a, k)
    ensures TableEvents(v, w, i) == if i <= slot then [Assigned(slot, a, k)] else []
    decreases Servers.MAX_CLIENTS - i
  {
    if i == Servers.MAX_CLIENTS {
    } else {
      GiveIsOneEvent(v, w, i + 1, slot, a, k);
    }
  }

  /** The slots the fan-out reaches. */
  predicate Reaches(v: Servers.View, i: nat, a: Address)
    requires i <= Servers.MAX_CLIENTS
  {
    exists k :: i <= k < Servers.MAX_CLIENTS && Servers.ConnectedAt(v, k, a)
  }

  lemma FannedAppend(log: Log, e: Event, slot: int, a: Address)
    requires e.Fanned?
    ensures SentSince(log + [e], slot) == SentSince(log, slot) + (if e.slot == slot then 1 else 0)
    ensures Assignments(log + [e], a) == Assignments(log, a)
    ensures Sent(log + [e], a) == Sent(log, a) + (if e.client == a then [e.payload] else [])
  {
    AppendOne(log, e);
  }

  lemma {:induction false} FanAppend(log: Log, v: Servers.View, payload: seq<bv8>, i: nat, slot: int, a: Address)
    requires i <= Servers.MAX_CLIENTS
    requires forall j, k :: 0 <= j < k < Servers.MAX_CLIENTS && v.connected[j] && v.connected[k] ==>
      v.connections[j].clientAddress != v.connections[k].clientAddress
    ensures var log' := log + FanEvents(v, payload, i);
      && SentSince(log', slot)
         == SentSince(log, slot) + (if i <= slot < Servers.MAX_CLIENTS && v.connected[slot] then 1 else 0)
      && Assignments(log', a) == Assignments(log, a)
      && Sent(log', a) == Sent(log, a) + (if Reaches(v, i, a) then [payload] else [])
    decreases Servers.MAX_CLIENTS - i
  {
    hide SentSince, Assignments, Sent;
    if i == Servers.MAX_CLIENTS {
      assert log + FanEvents(v, payload, i) == log;
    } else if v.connected[i] {
      var e := Fanned(i, v.connections[i].clientAddress, payload);
      FannedAppend(log, e, slot, a);
      assert log + FanEvents(v, payload, i) == (log + [e]) + FanEvents(v, payload, i + 1);
      FanAppend(log + [e], v, payload, i + 1, slot, a);
      assert Servers.ConnectedAt(v, i, e.client);
    } else {
      FanAppend(log, v, payload, i + 1, slot, a);
    }
  }
}
