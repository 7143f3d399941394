/** In-order, at-most-once delivery to one client over whole runs, with 16-bit
    sequence numbers that wrap around. */
module Delivery {
  import opened Words
  import opened Wire
  import opened Sequences
  import opened Sessions
  import opened Agreement
  import opened History
  import Servers
  import Clients
  import Tables

  predicate IsDataTo(cfg: Config, d: Datagram, a: Address) {
    d.src == cfg.server && d.dst == a && d.message.HmacSealed? && d.message.body.Data?
  }

  /** Number n of the payloads sent, counted from 1. */
  predicate IsNumber(sent: seq<seq<bv8>>, n: nat, payload: seq<bv8>) {
    0 < n <= |sent| && sent[n - 1] == payload
  }

  /** While client a has been given at most one slot, the numbers of its data
      packets index the payloads sent to it. */
  predicate Tracked(cfg: Config, s: System, a: Address) {
    var sent := Sent(s.log, a);
    && (Assignments(s.log, a) == 0 ==> sent == [])
    && (Assignments(s.log, a) <= 1 ==>
          && (forall i :: 0 < i < Servers.MAX_CLIENTS && Servers.ConnectedAt(s.server, i, a) ==>
                SentSince(s.log, i) == |sent|)
          && (forall d :: d in s.net && IsDataTo(cfg, d, a) ==> IsNumber(sent, d.number, d.message.body.payload))
          && (a in s.nodes ==> forall r :: r in s.nodes[a].receipts ==> IsNumber(sent, r.number, r.payload)))
  }

  /** m_ack is the last accepted number, and receipts came in increasing order. */
  predicate Ordered(n: Node) {
    && n.client.ack == Wrap(n.lastNumber)
    && (forall r :: r in n.receipts ==> r.number <= n.lastNumber)
    && forall i, j :: 0 <= i < j < |n.receipts| ==> n.receipts[i].number < n.receipts[j].number
  }

  /** A data packet that reaches the connected client verifiably is at most 32767
      packets away from the last one accepted. */
  predicate Timely(s: System, step: Step, a: Address) {
    step.ClientListen? && step.client == a && a in s.nodes &&
    (var c := s.nodes[a].client;
     c.phase == Clients.Connected && step.arrival.message.HmacSealed?
     && step.arrival.message.key == c.sharedKey && step.arrival.message.body.Data?)
    ==> -0x7FFF <= step.arrival.number - s.nodes[a].lastNumber <= 0x7FFF
  }

  predicate TimelyRun(r: Run, a: Address) {
    forall n :: 0 <= n < |r.steps| && n < |r.states| ==> Timely(r.states[n], r.steps[n], a)
  }

  // ---- The server's side ----

  lemma {:induction false} AssignedCounts(log: Log, slot: int, a: Address, k: Key)
    requires Assigned(slot, a, k) in log
    ensures Assignments(log, a) > 0
    decreases |log|
  {
    var n := |log| - 1;
    if log[n] != Assigned(slot, a, k) {
      assert Assigned(slot, a, k) in log[..n];
      AssignedCounts(log[..n], slot, a, k);
    }
  }

  /** An occupant is found in one slot only, and has been assigned it. */
  lemma OccupantCounted(cfg: Config, s: System, i: int, a: Address)
    requires Good(cfg, s) && 0 < i < Servers.MAX_CLIENTS && Servers.ConnectedAt(s.server, i, a)
    ensures Assignments(s.log, a) > 0
  {
    assert SlotBacked(cfg, s.server, s.log, i);
    AssignedCounts(s.log, i, a, s.server.connections[i].sharedKey);
  }

  /** Steps that log neither an assignment nor game data, and send no game data to a. */
  lemma QuietTracked(cfg: Config, s: System, t: System, a: Address, events: Log)
    requires Tracked(cfg, s, a) && t.log == s.log + events && Quiet(events)
    requires forall i :: 0 < i < Servers.MAX_CLIENTS && Servers.ConnectedAt(t.server, i, a) ==>
      Servers.ConnectedAt(s.server, i, a)
    requires forall d :: d in t.net && IsDataTo(cfg, d, a) ==> d in s.net
    requires a in t.nodes ==> a in s.nodes && forall r :: r in t.nodes[a].receipts ==>
      r in s.nodes[a].receipts
      || exists d :: d in s.net && IsDataTo(cfg, d, a) && r == Receipt(d.number, d.message.body.payload)
    ensures Tracked(cfg, t, a)
  {
    QuietAppend(s.log, events, 0, a);
    forall i | 0 < i < Servers.MAX_CLIENTS
      ensures SentSince(t.log, i) == SentSince(s.log, i)
    {
      QuietAppend(s.log, events, i, a);
    }
  }

  lemma GiftTracked(cfg: Config, s: System, t: System, a: Address, slot: int, b: Address, k: Key)
    requires Good(cfg, s) && Tracked(cfg, s, a)
    requires t.log == s.log + [Assigned(slot, b, k)] && Tables.Gives(s.server, t.server, slot, b, k)
    requires forall d :: d in t.net && IsDataTo(cfg, d, a) ==> d in s.net
    requires t.nodes == s.nodes
    ensures Tracked(cfg, t, a)
  {
    AppendOne(s.log, Assigned(slot, b, k));
    forall i | 0 < i < Servers.MAX_CLIENTS && Servers.ConnectedAt(s.server, i, a)
      ensures Assignments(s.log, a) > 0
    {
      OccupantCounted(cfg, s, i, a);
    }
  }

  lemma NoDataIn(cfg: Config, s: System, e: Servers.Effect, events: Log, a: Address)
    requires forall d :: d in e.sent ==> !IsDataTo(cfg, d, a)
    ensures forall d :: d in ServerMoves(s, e, events).net && IsDataTo(cfg, d, a) ==> d in s.net
  {
  }

  lemma ListenTracked(cfg: Config, s: System, a: Address, d: Datagram, p_size: nat, secret: PrivateKey)
    requires cfg.Sound() && Good(cfg, s) && Tracked(cfg, s, a) && Enabled(cfg, s, ServerListen(d, p_size, secret))
    ensures Tracked(cfg, Apply(cfg, s, ServerListen(d, p_size, secret)), a)
  {
    hide Servers.Listen, Tables.Consistent, Tables.Counted, Tracked, Good;
    var v, m := s.server, d.message;
    var e := Servers.Listen(v, cfg.indexing, cfg.group, cfg.server, m, d.src, p_size, secret).effect;
    var events := TableEvents(v, e.view);
    var t := ServerMoves(s, e, events);
    var slot := ServerHears(cfg, s, d, p_size, secret);
    NoDataIn(cfg, s, e, events, a);
    if slot == 0 {
      ShrinkIsQuiet(v, e.view, 0);
      QuietTracked(cfg, s, t, a, events);
    } else {
      GiveIsOneEvent(v, e.view, 0, slot, d.src, m.key);
      GiftTracked(cfg, s, t, a, slot, d.src, m.key);
    }
  }

  lemma KickTracked(cfg: Config, s: System, a: Address, victim: Address)
    requires Good(cfg, s) && Tracked(cfg, s, a)
    ensures Tracked(cfg, Apply(cfg, s, Kick(victim)), a)
  {
    hide Servers.KickClient, Tables.Consistent, Tables.Counted, Tracked;
    var v := s.server;
    var e := Servers.KickClient(v, cfg.indexing, cfg.server, victim);
    var events := TableEvents(v, e.view);
    Tables.KickMovesHow(v, cfg.indexing, cfg.server, victim);
    NoDataIn(cfg, s, e, events, a);
    ShrinkIsQuiet(v, e.view, 0);
    QuietTracked(cfg, s, ServerMoves(s, e, events), a, events);
  }

  /** What one propagation does to the counts of slot i and of client a. */
  lemma PropagateCounts(cfg: Config, s: System, a: Address, payload: seq<bv8>, i: nat)
    requires Good(cfg, s) && 0 < i < Servers.MAX_CLIENTS
    ensures var v, t := s.server, Apply(cfg, s, Propagate(payload));
      && SentSince(t.log, i) == SentSince(s.log, i) + (if v.connected[i] then 1 else 0)
      && Assignments(t.log, a) == Assignments(s.log, a)
      && Sent(t.log, a) == Sent(s.log, a) + (if Reaches(v, 1, a) then [payload] else [])
      && (Servers.ConnectedAt(t.server, i, a) <==> Servers.ConnectedAt(v, i, a))
      && (Servers.ConnectedAt(v, i, a) ==> Reaches(v, 1, a) && Assignments(s.log, a) > 0)
  {
    hide Tables.Counted, FanEvents, Sent, SentSince, Assignments;
    Tables.AdvancedOnly(s.server, 1);
    FanAppend(s.log, s.server, payload, 1, i, a);
    if Servers.ConnectedAt(s.server, i, a) {
      OccupantCounted(cfg, s, i, a);
    }
  }

  /** A data packet new to the network carries its slot's next number. */
  lemma PropagateSends(cfg: Config, s: System, a: Address, payload: seq<bv8>, d: Datagram) returns (k: int)
    requires d !in s.net && d in Apply(cfg, s, Propagate(payload)).net && IsDataTo(cfg, d, a)
    ensures 0 < k < Servers.MAX_CLIENTS && Servers.ConnectedAt(s.server, k, a)
    ensures d.number == SentSince(s.log, k) + 1 && d.message.body.payload == payload
  {
    var numbers := Numbers(s.log);
    Tables.FanOutIs(s.server, cfg.server, payload, numbers, 1);
    k :| 1 <= k < Servers.MAX_CLIENTS && s.server.connected[k]
         && d == Tables.PacketFor(s.server, cfg.server, payload, numbers, k);
  }

  lemma PropagateTracked(cfg: Config, s: System, a: Address, payload: seq<bv8>)
    requires cfg.Sound() && Good(cfg, s) && Tracked(cfg, s, a)
    ensures Tracked(cfg, Apply(cfg, s, Propagate(payload)), a)
  {
    var t := Apply(cfg, s, Propagate(payload));
    assert t.nodes == s.nodes;
    PropagateCounts(cfg, s, a, payload, 1);
    hide Apply, Good, Sent, SentSince, Assignments, Reaches;
    forall i | 0 < i < Servers.MAX_CLIENTS && Servers.ConnectedAt(t.server, i, a)
      ensures Assignments(s.log, a) <= 1 ==> SentSince(t.log, i) == |Sent(t.log, a)|
      ensures Assignments(s.log, a) > 0
    {
      PropagateCounts(cfg, s, a, payload, i);
    }
    assert Reaches(s.server, 1, a) ==> Assignments(s.log, a) > 0 by {
      if Reaches(s.server, 1, a) {
        var k := Reached(s.server, a);
        PropagateCounts(cfg, s, a, payload, k);
      }
    }
    forall d | d in t.net && IsDataTo(cfg, d, a) && Assignments(s.log, a) <= 1
      ensures IsNumber(Sent(t.log, a), d.number, d.message.body.payload)
    {
      if d !in s.net {
        var k := PropagateSends(cfg, s, a, payload, d);
        PropagateCounts(cfg, s, a, payload, k);
      }
    }
  }

  lemma Reached(v: Servers.View, a: Address) returns (k: nat)
    requires Reaches(v, 1, a)
    ensures 0 < k < Servers.MAX_CLIENTS && Servers.ConnectedAt(v, k, a)
  {
    k :| 1 <= k < Servers.MAX_CLIENTS && Servers.ConnectedAt(v, k, a);
  }

  // ---- The clients' side ----

  lemma NodeTracked(cfg: Config, s: System, a: Address, b: Address, node: Node, sent: seq<Datagram>)
    requires Tracked(cfg, s, a) && b in s.nodes
    requires forall d :: d in sent ==> d.src != cfg.server
    requires forall r :: r in node.receipts ==>
      r in s.nodes[b].receipts
      || exists d :: d in s.net && IsDataTo(cfg, d, b) && r == Receipt(d.number, d.message.body.payload)
    ensures Tracked(cfg, NodeMoves(s, b, node, sent), a)
  {
    hide Tracked;
    QuietTracked(cfg, s, NodeMoves(s, b, node, sent), a, KeyEvents(b, s.nodes[b].client, node.client));
  }

  /** What a client can learn from one datagram: a receipt is a data packet of the
      server's, and m_ack moves with the number of the last one accepted. */
  lemma ReceptionFacts(cfg: Config, s: System, a: Address, d: Datagram, p_size: nat, timedOut: bool)
    requires cfg.Sound() && Good(cfg, s) && Enabled(cfg, s, ClientListen(a, d, p_size, timedOut))
    ensures var n := s.nodes[a];
      var r := Clients.Listen(n.client, cfg.group, a, d, p_size, timedOut);
      && (forall e :: e in r.effect.sent ==> e.src == a)
      && (r.gameData.Some? ==> r.acknowledged && IsDataTo(cfg, d, a) && r.gameData.value == d.message.body.payload)
      && (if r.acknowledged
          then n.client.phase == Clients.Connected && IsDataTo(cfg, d, a) && d.message.key == n.client.sharedKey
            && d.number > 0 && r.effect.client.ack == Wrap(d.number)
            && SequenceGreaterThan(Wrap(d.number), n.client.ack)
          else r.effect.client.ack == n.client.ack)
  {
    hide Good;
    GoodParts(cfg, s);
    assert GoodDatagram(cfg, s.log, d);
  }

  lemma ClientListenTracked(cfg: Config, s: System, a: Address, b: Address, d: Datagram, p_size: nat, timedOut: bool)
    requires cfg.Sound() && Good(cfg, s) && Tracked(cfg, s, a) && Enabled(cfg, s, ClientListen(b, d, p_size, timedOut))
    ensures Tracked(cfg, Apply(cfg, s, ClientListen(b, d, p_size, timedOut)), a)
  {
    hide Clients.Listen, Tracked, GoodServer, GoodLog;
    var n := s.nodes[b];
    var r := Clients.Listen(n.client, cfg.group, b, d, p_size, timedOut);
    ReceptionFacts(cfg, s, b, d, p_size, timedOut);
    NodeTracked(cfg, s, a, b, AfterReception(n, r, d), r.effect.sent);
  }

  lemma TrackedStep(cfg: Config, s: System, a: Address, step: Step)
    requires cfg.Sound() && Good(cfg, s) && Tracked(cfg, s, a) && Enabled(cfg, s, step)
    ensures Tracked(cfg, Apply(cfg, s, step), a)
  {
    hide Servers.Listen, Servers.KickClient, Clients.Listen, Tracked, GoodServer, GoodLog, GoodDatagram, GoodNode;
    match step
    case ServerListen(d, p_size, secret) => ListenTracked(cfg, s, a, d, p_size, secret);
    case Propagate(payload) => PropagateTracked(cfg, s, a, payload);
    case Kick(victim) => KickTracked(cfg, s, a, victim);
    case ClientListen(b, d, p_size, timedOut) => ClientListenTracked(cfg, s, a, b, d, p_size, timedOut);
    case SwitchToLobby => QuietTracked(cfg, s, Apply(cfg, s, step), a, []);
    case SwitchToGame => QuietTracked(cfg, s, Apply(cfg, s, step), a, []);
    case Corrupt(d) => QuietTracked(cfg, s, Apply(cfg, s, step), a, []);
    case Connect(b, secret) =>
      var e := Clients.Connect(s.nodes[b].client, cfg.group, b, secret);
      NodeTracked(cfg, s, a, b, s.nodes[b].(client := e.client), e.sent);
    case Respond(b) =>
      var n := s.nodes[b];
      var e := Clients.RespondChallenge(n.client, b);
      NodeTracked(cfg, s, a, b, n.(client := e.client, responders := n.responders - 1), e.sent);
    case SendDisconnect(b) =>
      var e := Clients.SendDisconnect(s.nodes[b].client, b);
      NodeTracked(cfg, s, a, b, s.nodes[b].(client := e.client), e.sent);
    case SendGameData(b, payload) =>
      var e := Clients.SendGameData(s.nodes[b].client, b, payload);
      NodeTracked(cfg, s, a, b, s.nodes[b].(client := e.client), e.sent);
    case SetActiveTimeout(b, value) =>
      NodeTracked(cfg, s, a, b, s.nodes[b].(client := s.nodes[b].client.(activeTimeout := value)), []);
  }

  lemma OrderedReception(cfg: Config, s: System, a: Address, d: Datagram, p_size: nat, timedOut: bool)
    requires cfg.Sound() && Good(cfg, s) && Enabled(cfg, s, ClientListen(a, d, p_size, timedOut))
    requires Ordered(s.nodes[a]) && Timely(s, ClientListen(a, d, p_size, timedOut), a)
    ensures Ordered(AfterReception(s.nodes[a], Clients.Listen(s.nodes[a].client, cfg.group, a, d, p_size, timedOut), d))
  {
    hide Clients.Listen, Good, GoodServer, GoodLog, SequenceGreaterThan;
    ReceptionFacts(cfg, s, a, d, p_size, timedOut);
    var r := Clients.Listen(s.nodes[a].client, cfg.group, a, d, p_size, timedOut);
    if r.acknowledged {
      TrueOrder(d.number, s.nodes[a].lastNumber);
    }
  }

  lemma OrderedStep(cfg: Config, s: System, a: Address, step: Step)
    requires cfg.Sound() && Good(cfg, s) && Enabled(cfg, s, step) && Timely(s, step, a)
    requires a in s.nodes && Ordered(s.nodes[a])
    ensures a in Apply(cfg, s, step).nodes && Ordered(Apply(cfg, s, step).nodes[a])
  {
    hide Servers.Listen, Servers.KickClient, Clients.Listen, Good, Timely;
    if step.ClientListen? && step.client == a {
      OrderedReception(cfg, s, a, step.arrival, step.p_size, step.timedOut);
    }
  }

  lemma StartIsTracked(cfg: Config, a: Address)
    ensures Tracked(cfg, Start(cfg), a)
  {
  }

  lemma StartIsOrdered(cfg: Config, a: Address)
    requires a in cfg.clients
    ensures a in Start(cfg).nodes && Ordered(Start(cfg).nodes[a])
  {
  }

  lemma {:induction false} RunIsTracked(cfg: Config, r: Run, a: Address, n: nat)
    requires cfg.Sound() && IsRun(cfg, r) && n < |r.states|
    ensures Tracked(cfg, r.states[n], a)
    decreases n
  {
    hide Good, Start, Apply, Enabled, Tracked, IsRun;
    if n == 0 {
      Begins(cfg, r);
      StartIsTracked(cfg, a);
    } else {
      RunIsGood(cfg, r, n - 1);
      RunIsTracked(cfg, r, a, n - 1);
      StepAt(cfg, r, n - 1);
      TrackedStep(cfg, r.states[n - 1], a, r.steps[n - 1]);
    }
  }

  lemma {:induction false} RunIsOrdered(cfg: Config, r: Run, a: Address, n: nat)
    requires cfg.Sound() && IsRun(cfg, r) && TimelyRun(r, a) && a in cfg.clients && n < |r.states|
    ensures a in r.states[n].nodes && Ordered(r.states[n].nodes[a])
    decreases n
  {
    hide Good, Start, Apply, Enabled, Ordered, Timely, IsRun;
    if n == 0 {
      Begins(cfg, r);
      StartIsOrdered(cfg, a);
    } else {
      RunIsGood(cfg, r, n - 1);
      RunIsOrdered(cfg, r, a, n - 1);
      StepAt(cfg, r, n - 1);
      OrderedStep(cfg, r.states[n - 1], a, r.steps[n - 1]);
    }
  }

  /** In-order, at-most-once delivery: if client a was given a slot at most once and
      every data packet reaching it is within 32767 of the last one it accepted,
      then Listen hands out payloads in strictly increasing order of the numbers
      they were sent under, and the payload numbered n is byte for byte that of the
      n-th PropagateGameData that reached the client. */
  lemma InOrderDelivery(cfg: Config, r: Run, a: Address)
    requires cfg.Sound() && IsRun(cfg, r) && a in cfg.clients
    requires TimelyRun(r, a) && Gifts(r, a, |r.steps|) <= 1
    ensures a in Final(r).nodes
    ensures var receipts := Final(r).nodes[a].receipts;
      && (forall i, j :: 0 <= i < j < |receipts| ==> receipts[i].number < receipts[j].number)
      && (forall x :: x in receipts ==> IsNumber(Propagated(r, a, |r.steps|), x.number, x.payload))
  {
    hide IsRun;
    Begins(cfg, r);
    RunIsTracked(cfg, r, a, |r.steps|);
    RunIsOrdered(cfg, r, a, |r.steps|);
    HistoryCountsSteps(cfg, r, |r.steps|, 1, a);
  }

  /** Why the first session only: disconnecting resets neither counter. The n-th
      packet of a later session is dropped exactly if m_ack, left over from the
      earlier one, is in the window of 32768 numbers from n on; with m_ack up to
      32767 these are the session's first m_ack packets. */
  lemma StaleAckDrops(c: Clients.Fields, n: nat, payload: seq<bv8>, p_size: nat)
    requires 0 < n <= 0x7FFF
    ensures Clients.Reset(c).ack == c.ack
    ensures var dropped := !Clients.Receive(c, Wrap(n), payload, p_size).acknowledged;
      && (dropped <==> n <= c.ack as int < n + 0x8000)
      && (c.ack <= 0x7FFF ==> (dropped <==> n <= c.ack as int))
  {
    if c.ack <= 0x7FFF {
      assert c.ack == Wrap(c.ack as int);
      TrueOrder(n, c.ack as int);
    }
  }
}
