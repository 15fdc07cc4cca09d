/** What holds of two contact clients after every interleaving of their stretches,
    broker deliveries, lost replies, retries and restarts. */
module ContactTheorems {
  import opened Outcomes
  import opened Bytes
  import opened Store
  import opened ContactRecords
  import opened Scheduler
  import opened ContactDevice
  import opened ContactWorld
  import opened RatchetKeys
  import R = Ratchet
  import S = RatchetSession
  import T = RatchetTheorems
  import H = ContactHandshake

  /** A handshake with one request leads to the start of a run: both sides then hold the
      two ends of one session. */
  lemma HandshakeStartsRun(c: Config, b: nat, events: seq<H.Event>)
    requires H.Run(b, events).inviter.phase == Active && |H.Run(b, events).made| == 1
    requires c.k == H.Names(b, H.Run(b, events).made[0])
    ensures var h := H.Run(b, events);
            && c.k.Valid()
            && h.requester.ratchet == Some(Start(c).initiator.device.ratchet)
            && h.inviter.ratchet == Some(Start(c).responder.device.ratchet)
  {
    H.RunKeeps(b, events);
    H.OneRequestMatches(b, events);
    H.NamesValid(b, H.Run(b, events).made[0]);
    hide H.Run;
  }

  /** Any schedule and any two setups, and no old tasks, make a run. */
  lemma ConfigHolds(k: Schedule, initiator: Setup, responder: Setup)
    requires k.Valid()
    ensures exists c: Config :: c.Valid() && c.k == k && c.initiator == initiator && c.responder == responder
  {
    var c := Config(k, initiator, responder, _ => []);
    assert c.Valid();
  }

  lemma TraceGrows(k: Schedule, trace: seq<S.Event>, a: S.Event, b: S.Event)
    ensures S.Run(k, trace + [a, b]) == S.Step(k, S.Step(k, S.Run(k, trace), a), b)
  {
    var two := trace + [a, b];
    assert two[..|two| - 1] == trace + [a] && (trace + [a])[..|trace|] == trace;
  }

  /** A side acted: its party in the session moved with it and the other did not. */
  lemma WithKeeps(c: Config, w: World, side: S.Side, p: Peer, events: seq<S.Event>)
    requires Inv(c, w)
    requires PeerOk(c.At(side), S.Run(c.k, w.trace + events).At(side), p)
    requires S.Run(c.k, w.trace + events).At(side.Other()) == S.Run(c.k, w.trace).At(side.Other())
    ensures Inv(c, w.With(side, p, events))
  {
  }

  lemma SendStep(c: Config, w: World, ev: Event)
    requires c.Valid() && Inv(c, w) && ev.Send?
    ensures Inv(c, Step(c, w, ev))
  {
    hide PeerOk, S.Run, SendBy;
    var s, p := S.Run(c.k, w.trace), w.At(ev.side);
    var (p', events) := SendBy(p, ev);
    assert PeerOk(c.At(ev.side), s.At(ev.side), p);
    SendKeeps(c.At(ev.side), s.At(ev.side), p, ev);
    SendEvents(p, ev);
    if events == [] {
      assert w.trace + events == w.trace;
    } else {
      TraceGrows(c.k, w.trace, events[0], events[1]);
    }
    WithKeeps(c, w, ev.side, p', events);
  }

  lemma SendEvents(p: Peer, ev: Event)
    requires ev.Send?
    ensures var events := SendBy(p, ev).1;
            events == [] || events == [S.Send(ev.side, ev.text, ev.nonce, ev.paddedLength), S.Reload(ev.side)]
  {
  }

  lemma DeliveryStep(c: Config, w: World, ev: Event)
    requires c.Valid() && Inv(c, w) && ev.Delivery?
    ensures Inv(c, Step(c, w, ev))
  {
    hide PeerOk, S.Run, S.ArriveAt, S.ReloadBy, Delivered;
    var s, side := S.Run(c.k, w.trace), ev.side;
    var p, q, to, from := w.At(side), w.At(side.Other()), s.At(side), s.At(side.Other());
    assert PeerOk(c.At(side), to, p) && PeerOk(c.At(side.Other()), from, q);
    var index := if ev.body.packet.Some? then Find(from.sent, ev.body.packet.value) else 0;
    if ev.body.packet.Some? && ev.body.packet.value in q.handed {
      HandedWasSent(c.At(side.Other()), from, q, ev.body.packet.value);
    }
    var (p', events) := Delivered(c.At(side), p, q, c.k.name(to.epoch + 2), index, ev);
    DeliveryKeeps(c.k, c.At(side), to, from, p, q, index, ev);
    if events == [] {
      assert w.trace + events == w.trace;
    } else {
      TraceGrows(c.k, w.trace, events[0], events[1]);
    }
    WithKeeps(c, w, side, p', events);
  }

  lemma HandedWasSent(u: Setup, party: S.Party, p: Peer, x: R.Packet)
    requires PeerOk(u, party, p) && x in p.handed
    ensures var i := Find(party.sent, x); i < |party.sent| && party.sent[i].packet == x
  {
  }

  lemma DuePackets(u: Setup, party: S.Party, p: Peer, now: nat)
    requires PacketsOk(u, party, p)
    ensures PacketsOk(u, party, p.(due := p.due + set t | t in DueTasks(p.device.tasks, now)))
  {
    hide TaskOk;
  }

  lemma DrainStartKeeps(u: Setup, party: S.Party, p: Peer, now: nat)
    requires PeerOk(u, party, p)
    ensures PeerOk(u, party, p.(due := p.due + set t | t in DueTasks(p.device.tasks, now)))
  {
    var p' := p.(due := p.due + set t | t in DueTasks(p.device.tasks, now));
    DuePackets(u, party, p, now);
    ShortIds(u, party, p);
    RecordsStay(u, party, p, p');
    AcksStay(u, p, p');
    hide PacketsOk, ReadOk, AcksOk, DueTasks;
  }

  lemma ResendKeeps(u: Setup, party: S.Party, p: Peer, ev: Event)
    requires ev.Resend? && PeerOk(u, party, p)
    ensures PeerOk(u, party, Resent(p, ev))
  {
  }

  lemma StepKeeps(c: Config, w: World, ev: Event)
    requires c.Valid() && Inv(c, w)
    ensures Inv(c, Step(c, w, ev))
  {
    hide PeerOk, S.Run, SendBy, Delivered, SendAnswered, AckAnswered, DrainAnswered, Resent, Restarted;
    var u, party, p := c.At(ev.side), S.Run(c.k, w.trace).At(ev.side), w.At(ev.side);
    assert PeerOk(u, party, p);
    assert w.trace + [] == w.trace;
    match ev
    case Send(_, _, _, _, _) => SendStep(c, w, ev);
    case Delivery(_, _, _, _) => DeliveryStep(c, w, ev);
    case SendAnswer(_, _, _, _, _, _) =>
      SendAnswerKeeps(u, party, p, ev);
      WithKeeps(c, w, ev.side, SendAnswered(u, p, ev), []);
    case AckAnswer(_, _, _, _, _) =>
      AckAnswerKeeps(u, party, p, ev);
      WithKeeps(c, w, ev.side, AckAnswered(u, p, ev), []);
    case DrainStart(_, now) =>
      DrainStartKeeps(u, party, p, now);
      WithKeeps(c, w, ev.side, p.(due := p.due + set t | t in DueTasks(p.device.tasks, now)), []);
    case Resend(_, _) =>
      ResendKeeps(u, party, p, ev);
      WithKeeps(c, w, ev.side, Resent(p, ev), []);
    case DrainAnswer(_, _, _, _) =>
      DrainAnswerKeeps(u, party, p, ev);
      WithKeeps(c, w, ev.side, DrainAnswered(u, p, ev), []);
    case Restart(_) =>
      RestartKeeps(u, party, p);
      WithKeeps(c, w, ev.side, Restarted(p), []);
  }

  lemma FreshKeeps(u: Setup, party: S.Party, tasks: seq<Task>)
    requires party.sent == [] && party.received == [] && |tasks| <= MAX_LIST_ITEMS
    requires forall t :: t in tasks ==> !t.payload.SendPacket? && Named(u, t)
    ensures PeerOk(u, party, Fresh(party.state, tasks))
  {
    hide Named;
  }

  lemma StartKeeps(c: Config)
    requires c.Valid()
    ensures Inv(c, Start(c))
  {
    var s := S.Start(c.k);
    hide Schedule.Valid, Named, PeerOk, Fresh;
    assert c.At(S.Initiator) == c.initiator && c.At(S.Responder) == c.responder;
    FreshKeeps(c.initiator, s.initiator, c.tasks(S.Initiator));
    FreshKeeps(c.responder, s.responder, c.tasks(S.Responder));
    assert S.Run(c.k, []) == s;
  }

  /** After every run each stored ratchet is the ratchet of one session run, so all that
      holds of sessions holds of clients. */
  lemma {:induction false} RunKeeps(c: Config, events: seq<Event>)
    requires c.Valid()
    ensures Inv(c, Run(c, events))
  {
    if events == [] {
      StartKeeps(c);
    } else {
      RunKeeps(c, events[..|events| - 1]);
      hide Step, Inv, Config.Valid;
      StepKeeps(c, Run(c, events[..|events| - 1]), events[|events| - 1]);
    }
  }

  /** Two packets on the wire under one message key are the same packet: retries repeat
      bytes, and nothing else shares a key, on either side or across the two. */
  lemma OneKeyOnePacket(c: Config, events: seq<Event>, side: S.Side, x: R.Packet, side': S.Side, y: R.Packet)
    requires c.Valid() && x in Run(c, events).At(side).handed && y in Run(c, events).At(side').handed
    requires x.box.key == y.box.key
    ensures x == y && side == side'
  {
    RunKeeps(c, events);
    hide Run, PeerOk, S.Run;
    var w := Run(c, events);
    var s := S.Run(c.k, w.trace);
    assert PeerOk(c.At(side), s.At(side), w.At(side)) && PeerOk(c.At(side'), s.At(side'), w.At(side'));
    HandedWasSent(c.At(side), s.At(side), w.At(side), x);
    HandedWasSent(c.At(side'), s.At(side'), w.At(side'), y);
    var i, j := Find(s.At(side).sent, x), Find(s.At(side').sent, y);
    if side != side' || i != j { T.KeysNeverReused(c.k, w.trace, side, i, side', j); }
  }

  /** A text reaches the caller at most once per message id and at most once per packet,
      and it is the text the other side sealed in that packet. */
  lemma ReadAtMostOnce(c: Config, events: seq<Event>, side: S.Side, i: nat)
    requires c.Valid() && i < |Run(c, events).At(side).read|
    ensures var w := Run(c, events);
            var read, sent := w.At(side).read, S.Run(c.k, w.trace).At(side.Other()).sent;
            && read[i].index < |sent| && read[i].text == sent[read[i].index].plaintext
            && (forall j :: 0 <= j < |read| && j != i ==>
              read[j].msgId != read[i].msgId && read[j].index != read[i].index)
  {
    RunKeeps(c, events);
    var w := Run(c, events);
    hide Run, S.Run, PacketsOk, AcksOk, Recorded, Naming.received, S.Acceptable;
    assert PeerOk(c.At(side), S.Run(c.k, w.trace).At(side), w.At(side));
    T.ReadAtMostOnce(c.k, w.trace, side, i);
  }

  /** A retry hands over the stored packet, which one send sealed, and takes no ratchet step. */
  lemma RetryRepeatsBytes(c: Config, events: seq<Event>, side: S.Side, task: Task)
    requires c.Valid() && task in Run(c, events).At(side).due && task.payload.SendPacket?
    ensures var w := Run(c, events);
            var w' := Step(c, w, Resend(side, task));
            && w'.At(side).handed == w.At(side).handed + [task.payload.packet]
            && w'.At(side).device == w.At(side).device && w'.trace == w.trace
            && WasSent(S.Run(c.k, w.trace).At(side), task.payload.packet)
  {
    hide Run, S.Run, ReadOk, AcksOk, Named, Step;
    RunKeeps(c, events);
    var w := Run(c, events);
    ResendStepIs(c, w, side, task);
    assert PeerOk(c.At(side), S.Run(c.k, w.trace).At(side), w.At(side));
    assert TaskOk(c.At(side), S.Run(c.k, w.trace).At(side), task);
    assert w.trace + [] == w.trace;
  }

  lemma ResendStepIs(c: Config, w: World, side: S.Side, task: Task)
    ensures Step(c, w, Resend(side, task)) == w.With(side, Resent(w.At(side), Resend(side, task)), [])
  {
  }

  lemma SeenDelivered(u: Setup, p: Peer, other: Peer, freshDh: nat, index: nat, ev: Event)
    requires ev.Delivery? && u.RecordId(ev.msgId) in p.device.seen
    ensures var (p', events) := Delivered(u, p, other, freshDh, index, ev);
            && events == [] && p'.device == p.device.(seen := p'.device.seen) && p'.read == p.read
            && (ev.body != p.device.seen[u.RecordId(ev.msgId)].body ==> p' == p)
  {
  }

  /** The index in the sender's list that a delivery of this body stands for. */
  ghost function IndexOf(c: Config, w: World, side: S.Side, body: Mail): nat {
    if body.packet.Some? then Find(S.Run(c.k, w.trace).At(side.Other()).sent, body.packet.value) else 0
  }

  lemma DeliveryStepIs(c: Config, w: World, ev: Event)
    requires ev.Delivery?
    ensures var side := ev.side;
            var (p', events) := Delivered(c.At(side), w.At(side), w.At(side.Other()),
                                          c.k.name(S.Run(c.k, w.trace).At(side).epoch + 2),
                                          IndexOf(c, w, side, ev.body), ev);
            Step(c, w, ev) == w.With(side, p', events)
  {
  }

  lemma NothingSaid(w: World, side: S.Side)
    ensures w.With(side, w.At(side), []) == w
  {
  }

  lemma SeenInWorld(c: Config, w: World, side: S.Side, m: bytes, body: Mail, acknowledge: bool)
    requires c.At(side).RecordId(m) in w.At(side).device.seen
    ensures var w' := Step(c, w, Delivery(side, m, body, acknowledge));
            && w'.At(side).device.ratchet == w.At(side).device.ratchet
            && w'.At(side).device.tasks == w.At(side).device.tasks
            && w'.At(side).read == w.At(side).read && w'.trace == w.trace
            && (body != w.At(side).device.seen[c.At(side).RecordId(m)].body ==> w' == w)
  {
    hide S.Run, Delivered, Step, IndexOf;
    var ev, s := Delivery(side, m, body, acknowledge), S.Run(c.k, w.trace);
    DeliveryStepIs(c, w, ev);
    SeenDelivered(c.At(side), w.At(side), w.At(side.Other()), c.k.name(s.At(side).epoch + 2),
                  IndexOf(c, w, side, body), ev);
    NothingSaid(w, side);
  }

  lemma ReadIsSeen(c: Config, w: World, side: S.Side, i: nat)
    requires Inv(c, w) && i < |w.At(side).read|
    ensures c.At(side).RecordId(w.At(side).read[i].msgId) in w.At(side).device.seen
  {
  }

  /** A message id that was read once gives no text and no ratchet step again, and under
      a changed body it changes nothing at all. */
  lemma SeenIdIsInert(c: Config, events: seq<Event>, side: S.Side, i: nat, body: Mail, acknowledge: bool)
    requires c.Valid() && i < |Run(c, events).At(side).read|
    ensures var w := Run(c, events);
            var m := w.At(side).read[i].msgId;
            var w' := Step(c, w, Delivery(side, m, body, acknowledge));
            && w'.At(side).device.ratchet == w.At(side).device.ratchet
            && w'.At(side).device.tasks == w.At(side).device.tasks
            && w'.At(side).read == w.At(side).read && w'.trace == w.trace
            && var seen, id := w.At(side).device.seen, c.At(side).RecordId(m);
               id in seen && (body != seen[id].body ==> w' == w)
  {
    hide Run, Inv, Step;
    RunKeeps(c, events);
    ReadIsSeen(c, Run(c, events), side, i);
    SeenInWorld(c, Run(c, events), side, Run(c, events).At(side).read[i].msgId, body, acknowledge);
  }

  /** Every message recorded as received is acknowledged, or its ACK is under way or has a
      retry task still to do, unless it was given up: acknowledging or retrying switched
      off, a restart, or no room for a retry task. */
  lemma EverySeenIsAccounted(c: Config, events: seq<Event>, side: S.Side, id: string)
    requires c.Valid() && id in Run(c, events).At(side).device.seen
    requires !Collides(c.At(side), Run(c, events).At(side).device.seen[id].msgId)
    ensures Accounted(c.At(side), Run(c, events).At(side), Run(c, events).At(side).device.seen[id].msgId)
  {
    RunKeeps(c, events);
    var w := Run(c, events);
    hide Run, S.Run, PacketsOk, ReadOk, Accounted;
    assert PeerOk(c.At(side), S.Run(c.k, w.trace).At(side), w.At(side));
  }

  /** Acknowledging and ACK retries left on, no restart, and room for every ACK task. */
  ghost predicate CarefulStep(c: Config, w: World, ev: Event) {
    match ev
    case Delivery(_, _, _, acknowledge) => acknowledge
    case AckAnswer(side, ack, accepted, retry, now) =>
      accepted || (retry && Queues(c.At(side), w.At(side).device, ack.msgId, now))
    case Restart(_) => false
    case _ => true
  }

  ghost predicate Careful(c: Config, events: seq<Event>) {
    events == [] ||
    var before := events[..|events| - 1];
    Careful(c, before) && CarefulStep(c, Run(c, before), events[|events| - 1])
  }

  /** What the acting side is after one event. */
  ghost function Acted(c: Config, w: World, ev: Event): Peer {
    var side, u, p := ev.side, c.At(ev.side), w.At(ev.side);
    match ev
    case Send(_, _, _, _, _) => SendBy(p, ev).0
    case SendAnswer(_, _, _, _, _, _) => SendAnswered(u, p, ev)
    case Delivery(_, _, body, _) =>
      Delivered(u, p, w.At(side.Other()), c.k.name(S.Run(c.k, w.trace).At(side).epoch + 2), IndexOf(c, w, side, body), ev).0
    case AckAnswer(_, _, _, _, _) => AckAnswered(u, p, ev)
    case DrainStart(_, now) => p.(due := p.due + set t | t in DueTasks(p.device.tasks, now))
    case Resend(_, _) => Resent(p, ev)
    case DrainAnswer(_, _, _, _) => DrainAnswered(u, p, ev)
    case Restart(_) => Restarted(p)
  }

  lemma StepActs(c: Config, w: World, ev: Event)
    ensures Step(c, w, ev).At(ev.side) == Acted(c, w, ev)
    ensures Step(c, w, ev).At(ev.side.Other()) == w.At(ev.side.Other())
  {
    hide S.Run, SendBy, SendAnswered, Delivered, AckAnswered, Resent, DrainAnswered, Restarted;
  }

  /** Every record is still there. */
  ghost predicate Grows(seen: map<string, Received>, seen': map<string, Received>) {
    forall id :: id in seen ==> id in seen' && seen'[id].msgId == seen[id].msgId
  }

  lemma DeliveredKeeps(u: Setup, p: Peer, other: Peer, freshDh: nat, index: nat, ev: Event)
    requires ev.Delivery?
    ensures var p' := Delivered(u, p, other, freshDh, index, ev).0;
            Grows(p.device.seen, p'.device.seen) && (ev.acknowledge ==> p'.lost == p.lost)
  {
  }

  lemma StretchKeeps(u: Setup, p: Peer, ev: Event)
    ensures ev.Send? ==> SendBy(p, ev).0.device.seen == p.device.seen && SendBy(p, ev).0.lost == p.lost
    ensures ev.Resend? ==> Resent(p, ev).device.seen == p.device.seen && Resent(p, ev).lost == p.lost
    ensures ev.Restart? ==> Restarted(p).device.seen == p.device.seen
  {
    hide R.Encrypt;
  }

  lemma AnswerKeeps(u: Setup, p: Peer, ev: Event)
    ensures ev.SendAnswer? ==>
      SendAnswered(u, p, ev).device.seen == p.device.seen && SendAnswered(u, p, ev).lost == p.lost
    ensures ev.DrainAnswer? ==>
      DrainAnswered(u, p, ev).device.seen == p.device.seen && DrainAnswered(u, p, ev).lost == p.lost
  {
    hide Requeued, Completed, Answered;
  }

  lemma AckAnsweredKeeps(u: Setup, p: Peer, ev: Event)
    requires ev.AckAnswer?
    ensures Grows(p.device.seen, AckAnswered(u, p, ev).device.seen)
    ensures ev.accepted || (ev.retry && Queues(u, p.device, ev.ack.msgId, ev.now)) ==>
        AckAnswered(u, p, ev).lost == p.lost
  {
    hide Queues, Requeued, Requeues, Naming.ack;
  }

  /** No stretch forgets a received message, and a careful one gives nothing up. */
  lemma ActedKeeps(c: Config, w: World, ev: Event)
    ensures Grows(w.At(ev.side).device.seen, Acted(c, w, ev).device.seen)
    ensures CarefulStep(c, w, ev) ==> Acted(c, w, ev).lost == w.At(ev.side).lost
  {
    var side, u, p := ev.side, c.At(ev.side), w.At(ev.side);
    StretchKeeps(u, p, ev);
    AnswerKeeps(u, p, ev);
    if ev.AckAnswer? { AckAnsweredKeeps(u, p, ev); }
    if ev.Delivery? {
      DeliveredKeeps(u, p, w.At(side.Other()), c.k.name(S.Run(c.k, w.trace).At(side).epoch + 2),
                     IndexOf(c, w, side, ev.body), ev);
    }
    hide Queues, S.Run, IndexOf, SendBy, SendAnswered, Delivered, AckAnswered, Resent, DrainAnswered, Restarted;
  }

  lemma {:induction false} NothingGivenUp(c: Config, events: seq<Event>, side: S.Side)
    requires Careful(c, events)
    ensures Run(c, events).At(side).lost == {}
  {
    if events != [] {
      var before, ev := events[..|events| - 1], events[|events| - 1];
      NothingGivenUp(c, before, side);
      hide Step, Acted;
      StepActs(c, Run(c, before), ev);
      ActedKeeps(c, Run(c, before), ev);
      assert side == ev.side || side == ev.side.Other();
    }
  }

  lemma {:induction false} SeenGrows(c: Config, events: seq<Event>, n: nat, side: S.Side)
    requires n <= |events|
    ensures Grows(Run(c, events[..n]).At(side).device.seen, Run(c, events).At(side).device.seen)
    decreases |events|
  {
    if n == |events| {
      assert events[..n] == events;
    } else {
      var before, ev := events[..|events| - 1], events[|events| - 1];
      assert before[..n] == events[..n];
      SeenGrows(c, before, n, side);
      hide Step, Acted;
      StepActs(c, Run(c, before), ev);
      ActedKeeps(c, Run(c, before), ev);
      assert side == ev.side || side == ev.side.Other();
    }
  }

  /** Acknowledged, or its ACK is in flight, or an open ackMessage task will repeat it. */
  ghost predicate AckedOrQueued(u: Setup, p: Peer, m: bytes) {
    || m in p.acked || Ack(m, false) in p.acking || Ack(m, true) in p.acking
    || HasOpenTask(p.device.tasks, u.naming.ack(u.contactId, m), AckPayload(u, m))
  }

  /** With acknowledging and ACK retries left on, no restart, and the retry list within its
      limits, every message received at any point of a run is acknowledged or will be. */
  lemma AcknowledgedOrQueued(c: Config, events: seq<Event>, n: nat, side: S.Side, id: string)
    requires c.Valid() && Careful(c, events) && n <= |events| && id in Run(c, events[..n]).At(side).device.seen
    requires !Collides(c.At(side), Run(c, events[..n]).At(side).device.seen[id].msgId)
    ensures AckedOrQueued(c.At(side), Run(c, events).At(side), Run(c, events[..n]).At(side).device.seen[id].msgId)
  {
    SeenGrows(c, events, n, side);
    NothingGivenUp(c, events, side);
    EverySeenIsAccounted(c, events, side, id);
    hide Run, HasOpenTask;
  }

  /** The one family left out, exactly: an accepted send can complete the open ACK task of
      a message, which is then never repeated, if and only if the two ids can meet. */
  lemma SendDropsAckTask(u: Setup, d: Device, m: bytes, packet: R.Packet, retry: bool, now: nat)
    requires now > 0 && |d.tasks| <= MAX_LIST_ITEMS
    requires HasOpenTask(d.tasks, u.naming.ack(u.contactId, m), AckPayload(u, m))
    requires u.fits(Completing(d.tasks, u.naming.ack(u.contactId, m), now))
    ensures (exists x :: !HasOpenTask(SendReply(u, d, x, packet, true, retry, now).tasks,
                                      u.naming.ack(u.contactId, m), AckPayload(u, m))) <==> Collides(u, m)
  {
    var ack, payload := u.naming.ack(u.contactId, m), AckPayload(u, m);
    SendAndAckIdsMeet(u, m);
    AckIdSafe(u.naming, u.contactId, m);
    hide Naming.ack;
    if Collides(u, m) {
      var x :| SendTaskId(u.contactId, x) == ack;
      assert SendReply(u, d, x, packet, true, retry, now).tasks == Completing(d.tasks, ack, now);
      assert !HasOpenTask(SendReply(u, d, x, packet, true, retry, now).tasks, ack, payload);
    } else {
      forall x ensures HasOpenTask(SendReply(u, d, x, packet, true, retry, now).tasks, ack, payload) {
        var id := SendTaskId(u.contactId, x);
        CompletingKeeps(d.tasks, id, now);
        RequeuedKeeps(u.fits, d.tasks, id, SendPacket(u.contactId, OutboxId(u.contactId), packet), now, u.delay);
        hide HasOpenTask;
      }
    }
  }

  lemma FirstDelivered(k: Schedule, u: Setup, to: S.Party, from: S.Party, p: Peer, other: Peer, index: nat, ev: Event)
    requires k.Valid() && S.StateInStep(k, to) && S.SentInOrder(k, from) && S.Linked(k, to, from)
    requires p.device.ratchet == to.state && index < |from.sent|
    requires ev.Delivery? && u.RecordId(ev.msgId) !in p.device.seen && |ev.msgId| <= MAX_MSG_ID
             && from.sent[index].packet in other.handed
    requires ev.body == MailFor(u.queue, ev.msgId, ev.body.header, from.sent[index].packet)
    ensures var (p', events) := Delivered(u, p, other, k.name(to.epoch + 2), index, ev);
            if S.Acceptable(k, to, from.sent[index]) && u.payloadOk(from.sent[index].plaintext)
            then p'.read == p.read + [Reading(ev.msgId, from.sent[index].plaintext, index)]
            else p' == p && events == []
  {
    hide S.StateInStep, S.SentInOrder, S.Linked, R.Decrypt, S.Acceptable;
    S.OpensExactly(k, to, from, index);
  }

  ghost predicate ReadExactly(c: Config, w: World, side: S.Side, x: R.Packet, msgId: bytes, header: bytes,
                              acknowledge: bool)
  {
    var u, s := c.At(side), S.Run(c.k, w.trace);
    var index := Find(s.At(side.Other()).sent, x);
    var w' := Step(c, w, Delivery(side, msgId, MailFor(u.queue, msgId, header, x), acknowledge));
    && index < |s.At(side.Other()).sent|
    && var sent := s.At(side.Other()).sent[index];
       if S.Acceptable(c.k, s.At(side), sent) && u.payloadOk(sent.plaintext)
       then w'.At(side).read == w.At(side).read + [Reading(msgId, sent.plaintext, index)]
       else w' == w
  }

  lemma ExactInWorld(c: Config, w: World, side: S.Side, x: R.Packet, msgId: bytes, header: bytes, acknowledge: bool)
    requires c.k.Valid() && Inv(c, w) && x in w.At(side.Other()).handed
             && c.At(side).RecordId(msgId) !in w.At(side).device.seen
             && |msgId| <= MAX_MSG_ID
    requires var s := S.Run(c.k, w.trace);
             S.Sound(c.k, s.At(side), s.At(side.Other())) && S.Sound(c.k, s.At(side.Other()), s.At(side))
    ensures ReadExactly(c, w, side, x, msgId, header, acknowledge)
  {
    hide S.Run, PacketsOk, ReadOk, AcksOk, Delivered, Step, S.StateInStep, S.SentInOrder, S.Linked, S.Acceptable;
    var u, s := c.At(side), S.Run(c.k, w.trace);
    assert PeerOk(u, s.At(side), w.At(side)) && PeerOk(c.At(side.Other()), s.At(side.Other()), w.At(side.Other()));
    HandedWasSent(c.At(side.Other()), s.At(side.Other()), w.At(side.Other()), x);
    var ev := Delivery(side, msgId, MailFor(u.queue, msgId, header, x), acknowledge);
    DeliveryStepIs(c, w, ev);
    FirstDelivered(c.k, u, s.At(side), s.At(side.Other()), w.At(side), w.At(side.Other()),
                   IndexOf(c, w, side, ev.body), ev);
    NothingSaid(w, side);
  }

  /** A first delivery under a new message id is read exactly if the ratchet accepts the
      packet and the payload is valid. */
  lemma DeliveryExact(c: Config, events: seq<Event>, side: S.Side, x: R.Packet, msgId: bytes, header: bytes,
                      acknowledge: bool)
    requires c.Valid() && x in Run(c, events).At(side.Other()).handed
             && c.At(side).RecordId(msgId) !in Run(c, events).At(side).device.seen
             && |msgId| <= MAX_MSG_ID
    ensures ReadExactly(c, Run(c, events), side, x, msgId, header, acknowledge)
  {
    hide Run, Inv, S.Sound, ReadExactly;
    RunKeeps(c, events);
    T.RunSound(c.k, Run(c, events).trace, side);
    ExactInWorld(c, Run(c, events), side, x, msgId, header, acknowledge);
  }

  /** The packet of a text that was read, under another message id: the broker stored a
      send whose answer was lost and its retry.  Nothing changes, and nothing is acknowledged. */
  lemma SecondCopyIsInert(c: Config, events: seq<Event>, side: S.Side, i: nat, msgId: bytes, header: bytes,
                          acknowledge: bool)
    requires c.Valid() && i < |Run(c, events).At(side).read|
    requires c.At(side).RecordId(msgId) !in Run(c, events).At(side).device.seen && |msgId| <= MAX_MSG_ID
    ensures var w, u := Run(c, events), c.At(side);
            var sent := S.Run(c.k, w.trace).At(side.Other()).sent;
            var index := w.At(side).read[i].index;
            && index < |sent|
            && Step(c, w, Delivery(side, msgId, MailFor(u.queue, msgId, header, sent[index].packet), acknowledge)) == w
  {
    RunKeeps(c, events);
    var w, u := Run(c, events), c.At(side);
    var s := S.Run(c.k, w.trace);
    hide Run, S.Run, PacketsOk, AcksOk, S.Acceptable, Delivered;
    assert PeerOk(u, s.At(side), w.At(side));
    T.ReadAtMostOnce(c.k, w.trace, side, i);
    var index := w.At(side).read[i].index;
    var x := s.At(side.Other()).sent[index].packet;
    var found := Find(s.At(side.Other()).sent, x);
    if found != index { T.KeysNeverReused(c.k, w.trace, side.Other(), found, side.Other(), index); }
    if x in w.At(side.Other()).handed {
      DeliveryExact(c, events, side, x, msgId, header, acknowledge);
    } else {
      NotHanded(c, w, Delivery(side, msgId, MailFor(u.queue, msgId, header, x), acknowledge));
    }
  }

  lemma NotHanded(c: Config, w: World, ev: Event)
    requires ev.Delivery? && ev.body.packet.Some? && ev.body.packet.value !in w.At(ev.side.Other()).handed
    ensures Step(c, w, ev) == w
  {
    hide S.Run;
    NothingSaid(w, ev.side);
    assert w.trace + [] == w.trace;
  }

  /** What receiveNext acknowledges: a repeat of the recorded body, or a first body that
      is boxed for this queue and id and holds an acceptable packet with a valid payload. */
  ghost predicate Accepts(c: Config, w: World, side: S.Side, m: bytes, body: Mail) {
    var u, s, seen := c.At(side), S.Run(c.k, w.trace), w.At(side).device.seen;
    if u.RecordId(m) in seen then seen[u.RecordId(m)].body == body
    else
      && body.serverSecret == u.queue.serverSecret && body.nonce == IdNonce(m) && body.packet.Some?
      && var sent, index := s.At(side.Other()).sent, Find(s.At(side.Other()).sent, body.packet.value);
      index < |sent| && S.Acceptable(c.k, s.At(side), sent[index]) && u.payloadOk(sent[index].plaintext)
  }

  ghost predicate AcksExactly(c: Config, w: World, side: S.Side, m: bytes, body: Mail) {
    var w', seen, id := Step(c, w, Delivery(side, m, body, true)), w.At(side).device.seen, c.At(side).RecordId(m);
    if Accepts(c, w, side, m, body)
    then w'.At(side).acking == w.At(side).acking + multiset{Ack(m, id in seen && seen[id].acknowledged)}
         && id in w'.At(side).device.seen
         && (id !in seen ==> w'.At(side).device.seen[id].msgId == m)
    else w' == w
  }

  lemma AcksInWorld(c: Config, w: World, side: S.Side, m: bytes, body: Mail)
    requires c.k.Valid() && Inv(c, w) && |m| <= MAX_MSG_ID
    requires body.packet.Some? ==> body.packet.value in w.At(side.Other()).handed
    requires var s := S.Run(c.k, w.trace);
             S.Sound(c.k, s.At(side), s.At(side.Other())) && S.Sound(c.k, s.At(side.Other()), s.At(side))
    ensures AcksExactly(c, w, side, m, body)
  {
    hide S.Run, PacketsOk, ReadOk, AcksOk, Delivered, Step, S.StateInStep, S.SentInOrder, S.Linked, S.Acceptable;
    var u, s, ev := c.At(side), S.Run(c.k, w.trace), Delivery(side, m, body, true);
    assert PeerOk(u, s.At(side), w.At(side)) && PeerOk(c.At(side.Other()), s.At(side.Other()), w.At(side.Other()));
    if body.packet.Some? {
      HandedWasSent(c.At(side.Other()), s.At(side.Other()), w.At(side.Other()), body.packet.value);
    }
    DeliveryStepIs(c, w, ev);
    DeliveredAcks(c.k, u, s.At(side), s.At(side.Other()), w.At(side), w.At(side.Other()), IndexOf(c, w, side, body),
                  ev);
    NothingSaid(w, side);
  }

  lemma DeliveredAcks(k: Schedule, u: Setup, to: S.Party, from: S.Party, p: Peer, other: Peer, index: nat, ev: Event)
    requires k.Valid() && S.StateInStep(k, to) && S.SentInOrder(k, from) && S.Linked(k, to, from)
             && p.device.ratchet == to.state
    requires ev.Delivery? && ev.acknowledge && |ev.msgId| <= MAX_MSG_ID
    requires ev.body.packet.Some? ==>
      ev.body.packet.value in other.handed && index < |from.sent| && from.sent[index].packet == ev.body.packet.value
    ensures var (p', events) := Delivered(u, p, other, k.name(to.epoch + 2), index, ev);
            var m, id, body, seen := ev.msgId, u.RecordId(ev.msgId), ev.body, p.device.seen;
            var accepts := if id in seen then seen[id].body == body
                           else body.serverSecret == u.queue.serverSecret && body.nonce == IdNonce(m) && body.packet.Some?
                                && S.Acceptable(k, to, from.sent[index]) && u.payloadOk(from.sent[index].plaintext);
            if accepts
            then p'.acking == p.acking + multiset{Ack(m, id in seen && seen[id].acknowledged)}
                 && id in p'.device.seen && (id !in seen ==> p'.device.seen[id].msgId == m)
            else p' == p && events == []
  {
    hide S.StateInStep, S.SentInOrder, S.Linked, R.Decrypt, S.Acceptable;
    if ev.body.packet.Some? { S.OpensExactly(k, to, from, index); }
  }

  /** With acknowledging on, a delivery starts one ACK for its id if it is accepted, and
      changes nothing if it is not: a refused delivery is never acknowledged or queued. */
  lemma DeliveryAcksExactly(c: Config, events: seq<Event>, side: S.Side, m: bytes, body: Mail)
    requires c.Valid() && |m| <= MAX_MSG_ID
    requires body.packet.Some? ==> body.packet.value in Run(c, events).At(side.Other()).handed
    ensures AcksExactly(c, Run(c, events), side, m, body)
  {
    hide Run, Inv, S.Sound, AcksExactly;
    RunKeeps(c, events);
    T.RunSound(c.k, Run(c, events).trace, side);
    AcksInWorld(c, Run(c, events), side, m, body);
  }

  /** On a channel that may lose packets but does not reorder them, also a packet that
      first failed and was retried opens, if its gap is at most MAX_SKIP. */
  lemma InOrderIsRead(c: Config, events: seq<Event>, side: S.Side, x: R.Packet, msgId: bytes, header: bytes,
                      acknowledge: bool)
    requires c.Valid() && x in Run(c, events).At(side.Other()).handed
             && c.At(side).RecordId(msgId) !in Run(c, events).At(side).device.seen
             && |msgId| <= MAX_MSG_ID
    requires var s := S.Run(c.k, Run(c, events).trace);
             var index := Find(s.At(side.Other()).sent, x);
             && index < |s.At(side.Other()).sent|
             && (forall r :: r in Run(c, events).At(side).read ==> r.index < index)
             && T.Gap(s.At(side), s.At(side.Other()).sent[index]) <= R.MAX_SKIP
             && c.At(side).payloadOk(s.At(side.Other()).sent[index].plaintext)
    ensures var w, u := Run(c, events), c.At(side);
            var s := S.Run(c.k, w.trace);
            var index := Find(s.At(side.Other()).sent, x);
            var w' := Step(c, w, Delivery(side, msgId, MailFor(u.queue, msgId, header, x), acknowledge));
            w'.At(side).read == w.At(side).read + [Reading(msgId, s.At(side.Other()).sent[index].plaintext, index)]
  {
    RunKeeps(c, events);
    DeliveryExact(c, events, side, x, msgId, header, acknowledge);
    var w := Run(c, events);
    var s := S.Run(c.k, w.trace);
    var index := Find(s.At(side.Other()).sent, x);
    hide Run, S.Run, PacketsOk, AcksOk, S.Acceptable, Delivered;
    assert PeerOk(c.At(side), s.At(side), w.At(side));
    forall d | 0 <= d < |s.At(side).received| ensures s.At(side).received[d].index < index {
      assert w.At(side).read[d] in w.At(side).read;
    }
    T.InOrderOpens(c.k, w.trace, side, index);
  }

  lemma FirstSend(c: Config, ev: Event)
    requires c.Valid() && ev.Send? && ev.side.Initiator?
    requires if ev.paddedLength == 0 then |ev.text| <= 65533 else |ev.text| + 2 <= ev.paddedLength <= 65535
    ensures var w := Run(c, [ev]);
            var s := S.Run(c.k, w.trace);
            && |w.initiator.handed| == 1 && w.responder == Start(c).responder
            && |s.initiator.sent| == 1 && s.initiator.sent[0].packet == w.initiator.handed[0]
            && s.initiator.sent[0].plaintext == ev.text && T.Gap(s.responder, s.initiator.sent[0]) == 0
  {
    assert [ev][..0] == [];
    R.SealsExactly(Start(c).initiator.device.ratchet, ev.text, ev.nonce, ev.paddedLength);
    var trace := [S.Send(ev.side, ev.text, ev.nonce, ev.paddedLength), S.Reload(ev.side)];
    TraceGrows(c.k, [], trace[0], trace[1]);
    assert [] + trace == trace && Run(c, []) == Start(c) && S.Run(c.k, []) == S.Start(c.k);
  }

  /** Such runs do read texts: the first text of the initiator, if it fits its padding, under
      every message id. */
  lemma FirstTextIsRead(c: Config, ev: Event, msgId: bytes, header: bytes, acknowledge: bool)
    requires c.Valid() && ev.Send? && ev.side.Initiator? && c.responder.payloadOk(ev.text) && |msgId| <= MAX_MSG_ID
    requires if ev.paddedLength == 0 then |ev.text| <= 65533 else |ev.text| + 2 <= ev.paddedLength <= 65535
    ensures |Run(c, [ev]).initiator.handed| == 1
    ensures var packet := Run(c, [ev]).initiator.handed[0];
            var delivery := Delivery(S.Responder, msgId, MailFor(c.responder.queue, msgId, header, packet), acknowledge);
            Run(c, [ev, delivery]).responder.read == [Reading(msgId, ev.text, 0)]
  {
    FirstSend(c, ev);
    var packet := Run(c, [ev]).initiator.handed[0];
    var delivery := Delivery(S.Responder, msgId, MailFor(c.responder.queue, msgId, header, packet), acknowledge);
    var w := Run(c, [ev]);
    assert w.responder.read == [] && w.responder.device.seen == map[];
    hide Run, S.Run, Step, T.Gap, Config.Valid;
    InOrderIsRead(c, [ev], S.Responder, packet, msgId, header, acknowledge);
    RunOneMore(c, [ev], delivery);
    assert [ev] + [delivery] == [ev, delivery];
  }

  lemma RunOneMore(c: Config, events: seq<Event>, ev: Event)
    ensures Run(c, events + [ev]) == Step(c, Run(c, events), ev)
  {
    assert (events + [ev])[..|events|] == events;
  }

  /** What a whole receiveNext leaves.  Refused, nothing.  Else the record of the message:
      acknowledged once the broker confirmed an ACK, pending exactly while a retry task was
      queued for it, and both as before where the call throws. */
  lemma ReceiveRecords(u: Setup, d: Device, msgId: bytes, body: Mail, freshDh: nat, acknowledge: bool, accepted: bool,
                       retry: bool, now: nat)
    ensures var (d', outcome) := Receive(u, d, msgId, body, freshDh, acknowledge, accepted, retry, now);
            var id := u.RecordId(msgId);
            if outcome.Refuses? then d' == d
            else
              && id in d'.seen && (forall x :: x != id ==> (x in d'.seen <==> x in d.seen))
              && (forall x :: x != id && x in d.seen ==> d'.seen[x] == d.seen[x])
              && var before := if id in d.seen then d.seen[id] else Received(u.contactId, msgId, body, false, false);
                 var tried := acknowledge && !accepted && retry;
                 var queued := tried && Requeues(u.fits, d.tasks, u.naming.ack(u.contactId, msgId),
                                                 AckMessage(u.contactId, InboxId(u.contactId), msgId), now, u.delay);
                 && d'.seen[id].contactId == before.contactId && d'.seen[id].msgId == before.msgId
                 && d'.seen[id].body == body
                 && d'.seen[id].acknowledged == ((acknowledge && accepted) || before.acknowledged)
                 && d'.seen[id].ackPending == (if !acknowledge || accepted then false else queued || before.ackPending)
                 && (!tried ==> d'.tasks == d.tasks)
                 && (outcome.Duplicate? <==> id in d.seen) && (outcome.Duplicate? ==> d'.ratchet == d.ratchet)
  {
    hide R.Decrypt, Naming.received, Naming.ack, Requeues, Requeued;
  }

  // ------------------------------------------------------- answers and calls

  /** Each ACK in flight is of a received message. */
  ghost predicate AcksSeen(u: Setup, p: Peer) {
    forall a :: a in p.acking ==> u.RecordId(a.msgId) in p.device.seen
  }

  lemma DeliveryAcksSeen(u: Setup, p: Peer, other: Peer, freshDh: nat, index: nat, ev: Event)
    requires ev.Delivery? && AcksSeen(u, p)
    ensures AcksSeen(u, Delivered(u, p, other, freshDh, index, ev).0)
  {
    DeliveredKeeps(u, p, other, freshDh, index, ev);
  }

  lemma ActedAcks(c: Config, w: World, ev: Event)
    ensures var p, p' := w.At(ev.side), Acted(c, w, ev);
            !ev.Delivery? ==> forall a :: a in p'.acking ==> a in p.acking
  {
    hide S.Run, R.Encrypt, SendReply, AckFails, DrainReply, Queues, Naming.received;
  }

  lemma DeliveryActs(c: Config, w: World, ev: Event)
    requires ev.Delivery?
    ensures Acted(c, w, ev)
            == Delivered(c.At(ev.side), w.At(ev.side), w.At(ev.side.Other()),
                         c.k.name(S.Run(c.k, w.trace).At(ev.side).epoch + 2), IndexOf(c, w, ev.side, ev.body), ev).0
  {
    hide S.Run, IndexOf, Delivered;
  }

  lemma GrownAcksSeen(u: Setup, p: Peer, p': Peer)
    requires AcksSeen(u, p) && Grows(p.device.seen, p'.device.seen) && forall a :: a in p'.acking ==> a in p.acking
    ensures AcksSeen(u, p')
  {
    hide Naming.received;
  }

  lemma ActedAcksSeen(c: Config, w: World, ev: Event)
    requires AcksSeen(c.At(ev.side), w.At(ev.side))
    ensures AcksSeen(c.At(ev.side), Acted(c, w, ev))
  {
    hide *;
    if ev.Delivery? {
      DeliveryActs(c, w, ev);
      DeliveryAcksSeen(c.At(ev.side), w.At(ev.side), w.At(ev.side.Other()),
                       c.k.name(S.Run(c.k, w.trace).At(ev.side).epoch + 2), IndexOf(c, w, ev.side, ev.body), ev);
    } else {
      ActedKeeps(c, w, ev);
      ActedAcks(c, w, ev);
      GrownAcksSeen(c.At(ev.side), w.At(ev.side), Acted(c, w, ev));
    }
  }

  lemma {:induction false} AcksAreSeen(c: Config, events: seq<Event>, side: S.Side)
    ensures AcksSeen(c.At(side), Run(c, events).At(side))
  {
    if events != [] {
      var w, ev := Run(c, events[..|events| - 1]), events[|events| - 1];
      AcksAreSeen(c, events[..|events| - 1], side);
      hide Step, Acted;
      StepActs(c, w, ev);
      if side == ev.side { ActedAcksSeen(c, w, ev); }
      hide AcksSeen;
      assert side == ev.side || side == ev.side.Other();
    }
  }

  lemma SendAnswerEnds(u: Setup, p: Peer, ev: Event)
    requires ev.SendAnswer?
    ensures var p' := SendAnswered(u, p, ev);
            && p'.sending == p.sending - multiset{(ev.clientMessageId, ev.packet)} && p'.acking == p.acking
            && p'.due == p.due && (p'.sending == p.sending ==> p' == p)
  {
    hide SendReply;
  }

  lemma AckAnswerEnds(u: Setup, p: Peer, ev: Event)
    requires ev.AckAnswer? && AcksSeen(u, p)
    ensures var p' := AckAnswered(u, p, ev);
            && p'.acking == p.acking - multiset{ev.ack} && p'.sending == p.sending && p'.due == p.due
            && (p'.acking == p.acking ==> p' == p)
  {
    hide AckFails, Queues, Naming.received;
  }

  lemma DrainAnswerEnds(u: Setup, p: Peer, ev: Event)
    requires ev.DrainAnswer?
    ensures var p' := DrainAnswered(u, p, ev);
            && p'.due == p.due - {ev.task} && p'.sending == p.sending && p'.acking == p.acking
            && (p'.due == p.due ==> p' == p)
  {
    hide DrainReply;
  }

  /** After every run an answer of the broker ends the call it answers, once, and no other;
      an answer to no call in flight changes nothing. */
  lemma AnswersEnd(c: Config, events: seq<Event>, ev: Event)
    requires ev.SendAnswer? || ev.AckAnswer? || ev.DrainAnswer?
    ensures var p, p' := Run(c, events).At(ev.side), Run(c, events + [ev]).At(ev.side);
            && p'.sending == (if ev.SendAnswer? then p.sending - multiset{(ev.clientMessageId, ev.packet)} else p.sending)
            && p'.acking == (if ev.AckAnswer? then p.acking - multiset{ev.ack} else p.acking)
            && p'.due == (if ev.DrainAnswer? then p.due - {ev.task} else p.due)
            && (p'.sending == p.sending && p'.acking == p.acking && p'.due == p.due ==> p' == p)
  {
    assert (events + [ev])[..|events|] == events;
    AcksAreSeen(c, events, ev.side);
    var u, p := c.At(ev.side), Run(c, events).At(ev.side);
    if ev.SendAnswer? { SendAnswerEnds(u, p, ev); }
    if ev.AckAnswer? { AckAnswerEnds(u, p, ev); }
    if ev.DrainAnswer? { DrainAnswerEnds(u, p, ev); }
    hide Step, S.Run, SendAnswered, AckAnswered, DrainAnswered, AcksSeen;
    StepActs(c, Run(c, events), ev);
  }
}
