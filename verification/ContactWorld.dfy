/** Two contact clients and the broker between them.  Stretches of sends, receives,
    ACKs, retries and restarts interleave in any order; the broker delivers any packet
    any number of times under any message id, and any reply can be lost. */
module ContactWorld {
  import opened Outcomes
  import opened Base64
  import opened Bytes
  import opened Store
  import opened ContactRecords
  import opened Scheduler
  import opened ContactDevice
  import opened RatchetKeys
  import R = Ratchet
  import S = RatchetSession

  datatype Reading = Reading(msgId: bytes, text: string, index: nat)

  /** `device` is durable, the next three are in flight, the rest records what happened:
      packets handed to the transport and those the broker accepted, texts given to the
      caller, message ids whose ACK the broker confirmed, and those whose ACK was given up. */
  datatype Peer = Peer(
    device: Device,
    sending: multiset<(string, R.Packet)>, acking: multiset<Ack>, due: set<Task>,
    handed: seq<R.Packet>, accepted: set<R.Packet>, read: seq<Reading>, acked: set<bytes>, lost: set<bytes>)

  datatype World = World(initiator: Peer, responder: Peer, trace: seq<S.Event>) {
    function At(side: S.Side): Peer {
      if side.Initiator? then initiator else responder
    }

    function With(side: S.Side, p: Peer, events: seq<S.Event>): World {
      if side.Initiator? then World(p, responder, trace + events) else World(initiator, p, trace + events)
    }
  }

  datatype Config = Config(k: Schedule, initiator: Setup, responder: Setup, tasks: S.Side -> seq<Task>) {
    function At(side: S.Side): Setup {
      if side.Initiator? then initiator else responder
    }

    ghost predicate Valid() {
      && k.Valid()
      && (forall side :: |tasks(side)| <= MAX_LIST_ITEMS)
      && (forall side, t :: t in tasks(side) ==> !t.payload.SendPacket? && Named(At(side), t))
    }
  }

  datatype Event =
    | Send(side: S.Side, text: string, nonce: nat, paddedLength: nat, clientMessageId: string)
    | SendAnswer(side: S.Side, clientMessageId: string, packet: R.Packet, accepted: bool, retry: bool, now: nat)
    | Delivery(side: S.Side, msgId: bytes, body: Mail, acknowledge: bool)
    | AckAnswer(side: S.Side, ack: Ack, accepted: bool, retry: bool, now: nat)
    | DrainStart(side: S.Side, now: nat)
    | Resend(side: S.Side, task: Task)
    | DrainAnswer(side: S.Side, task: Task, accepted: bool, now: nat)
    | Restart(side: S.Side)

  /** The bytes whose base64url text is "send". */
  const SEND_BYTES: bytes := [0xb1, 0xe9, 0xdd]

  /** The ACK task id of m is then also the id of some send task. */
  predicate Collides(u: Setup, m: bytes) {
    u.contactId == "ack" && m == SEND_BYTES
  }

  ghost predicate Named(u: Setup, t: Task) {
    forall m :: |m| <= MAX_MSG_ID && !Collides(u, m) && t.id == u.naming.ack(u.contactId, m) ==>
      t.payload == AckPayload(u, m)
  }

  function Find(sent: seq<S.Sent>, packet: R.Packet): (i: nat)
    ensures i <= |sent| && (i < |sent| ==> sent[i].packet == packet)
    ensures i == |sent| ==> forall j :: 0 <= j < |sent| ==> sent[j].packet != packet
  {
    if sent == [] || sent[0].packet == packet then 0 else 1 + Find(sent[1..], packet)
  }

  function Fresh(r: R.State, tasks: seq<Task>): Peer {
    Peer(Device(r, map[], tasks), multiset{}, multiset{}, {}, [], {}, [], {}, {})
  }

  function Start(c: Config): World {
    var s := S.Start(c.k);
    World(Fresh(s.initiator.state, c.tasks(S.Initiator)), Fresh(s.responder.state, c.tasks(S.Responder)), [])
  }

  // ---------------------------------------------------- what one event does

  function SendBy(p: Peer, ev: Event): (Peer, seq<S.Event>)
    requires ev.Send?
  {
    match Prepare(p.device, ev.text, ev.nonce, ev.paddedLength)
    case Err(_) => (p, [])
    case Ok((device, packet)) =>
      (p.(device := device, handed := p.handed + [packet], sending := p.sending + multiset{(ev.clientMessageId, packet)}),
       [S.Send(ev.side, ev.text, ev.nonce, ev.paddedLength), S.Reload(ev.side)])
  }

  function SendAnswered(u: Setup, p: Peer, ev: Event): Peer
    requires ev.SendAnswer?
  {
    if (ev.clientMessageId, ev.packet) !in p.sending then p
    else p.(device := SendReply(u, p.device, ev.clientMessageId, ev.packet, ev.accepted, ev.retry, ev.now),
            sending := p.sending - multiset{(ev.clientMessageId, ev.packet)},
            accepted := if ev.accepted then p.accepted + {ev.packet} else p.accepted)
  }

  /** The broker cannot make packets, so a body holds one the other side handed over, or
      none.  Its message ids have 24 bytes; here at most MAX_MSG_ID. */
  function Delivered(u: Setup, p: Peer, other: Peer, freshDh: nat, index: nat, ev: Event): (Peer, seq<S.Event>)
    requires ev.Delivery?
  {
    if |ev.msgId| > MAX_MSG_ID || (ev.body.packet.Some? && ev.body.packet.value !in other.handed) then (p, [])
    else
      var (device, outcome) := Take(u, p.device, ev.msgId, ev.body, freshDh);
      match outcome
      case Refuses(_) => (p, [])
      case Duplicate =>
        var known := device.seen[u.RecordId(ev.msgId)].acknowledged;
        (if ev.acknowledge then p.(acking := p.acking + multiset{Ack(ev.msgId, known)})
         else p.(device := Note(device, u.RecordId(ev.msgId), false, known)), [])
      case Opens(text) =>
        (p.(device := device, read := p.read + [Reading(ev.msgId, text, index)],
            acking := if ev.acknowledge then p.acking + multiset{Ack(ev.msgId, false)} else p.acking,
            lost := if ev.acknowledge then p.lost else p.lost + {ev.msgId}),
         [S.Arrive(ev.side, index), S.Reload(ev.side)])
  }

  /** Whether a failed ACK leaves a task: the list can be written and has room, or it
      cannot be written and an earlier task is there. */
  ghost predicate Queues(u: Setup, d: Device, msgId: bytes, now: nat) {
    var id, payload := u.naming.ack(u.contactId, msgId), AckPayload(u, msgId);
    if Enqueued(u.fits, d.tasks, id, payload, now).Some? then |Others(d.tasks, id)| < MAX_LIST_ITEMS
    else HasOpenTask(d.tasks, id, payload)
  }

  ghost function AckAnswered(u: Setup, p: Peer, ev: Event): Peer
    requires ev.AckAnswer?
  {
    if ev.ack !in p.acking || u.RecordId(ev.ack.msgId) !in p.device.seen then p
    else
      var m, q := ev.ack.msgId, p.(acking := p.acking - multiset{ev.ack});
      if ev.accepted then q.(device := Note(p.device, u.RecordId(m), false, true), acked := p.acked + {m})
      else if !ev.retry then q.(lost := p.lost + {m})
      else q.(device := AckFails(u, p.device, ev.ack, ev.now),
              lost := if Queues(u, p.device, m, ev.now) then p.lost else p.lost + {m})
  }

  function Resent(p: Peer, ev: Event): Peer
    requires ev.Resend?
  {
    if ev.task in p.due && ev.task.payload.SendPacket? then p.(handed := p.handed + [ev.task.payload.packet]) else p
  }

  /** An ACK task with an empty message id fails to decode it. */
  function DrainAnswered(u: Setup, p: Peer, ev: Event): Peer
    requires ev.DrainAnswer?
  {
    if ev.task !in p.due then p
    else
      var ack := ev.task.payload.AckMessage?;
      var ok := ev.accepted && !(ack && ev.task.payload.msgId == []);
      p.(device := DrainReply(u, p.device, ev.task.id, ok, ev.now), due := p.due - {ev.task},
         acked := if ok && ack then p.acked + {ev.task.payload.msgId} else p.acked,
         accepted := if ok && ev.task.payload.SendPacket? then p.accepted + {ev.task.payload.packet} else p.accepted)
  }

  function Restarted(p: Peer): Peer {
    p.(sending := multiset{}, acking := multiset{}, due := {}, lost := p.lost + set a | a in p.acking :: a.msgId)
  }

  ghost function Step(c: Config, w: World, ev: Event): World {
    var side, u, p, q := ev.side, c.At(ev.side), w.At(ev.side), w.At(ev.side.Other());
    match ev
    case Send(_, _, _, _, _) => var (p', events) := SendBy(p, ev); w.With(side, p', events)
    case SendAnswer(_, _, _, _, _, _) => w.With(side, SendAnswered(u, p, ev), [])
    case Delivery(_, _, body, _) =>
      var s := S.Run(c.k, w.trace);
      var index := if body.packet.Some? then Find(s.At(side.Other()).sent, body.packet.value) else 0;
      var (p', events) := Delivered(u, p, q, c.k.name(s.At(side).epoch + 2), index, ev);
      w.With(side, p', events)
    case AckAnswer(_, _, _, _, _) => w.With(side, AckAnswered(u, p, ev), [])
    case DrainStart(_, now) => w.With(side, p.(due := p.due + set t | t in DueTasks(p.device.tasks, now)), [])
    case Resend(_, _) => w.With(side, Resent(p, ev), [])
    case DrainAnswer(_, _, _, _) => w.With(side, DrainAnswered(u, p, ev), [])
    case Restart(_) => w.With(side, Restarted(p), [])
  }

  ghost function Run(c: Config, events: seq<Event>): World {
    if events == [] then Start(c) else Step(c, Run(c, events[..|events| - 1]), events[|events| - 1])
  }

  // ---------------------------------------------------------------- invariant

  ghost predicate WasSent(party: S.Party, packet: R.Packet) {
    exists i :: 0 <= i < |party.sent| && party.sent[i].packet == packet
  }

  ghost predicate TaskOk(u: Setup, party: S.Party, t: Task) {
    (t.payload.SendPacket? ==> WasSent(party, t.payload.packet)) && Named(u, t)
  }

  ghost predicate PacketsOk(u: Setup, party: S.Party, p: Peer) {
    && |p.device.tasks| <= MAX_LIST_ITEMS
    && (forall x :: x in p.handed ==> WasSent(party, x))
    && (forall x :: x in p.sending ==> WasSent(party, x.1))
    && (forall t :: t in p.device.tasks || t in p.due ==> TaskOk(u, party, t))
    && (forall a :: a in p.acking ==> |a.msgId| <= MAX_MSG_ID)
  }

  ghost predicate Recorded(u: Setup, seen: map<string, Received>, id: string)
    requires id in seen
  {
    |seen[id].msgId| <= MAX_MSG_ID && id == u.RecordId(seen[id].msgId)
  }

  /** Every text read has its own record, and every record its own id. */
  ghost predicate ReadOk(u: Setup, party: S.Party, p: Peer) {
    && |p.read| == |party.received|
    && (forall i :: 0 <= i < |p.read| ==>
          && p.read[i].text == party.received[i].plaintext && p.read[i].index == party.received[i].index
          && u.RecordId(p.read[i].msgId) in p.device.seen
          && p.device.seen[u.RecordId(p.read[i].msgId)].msgId == p.read[i].msgId)
    && (forall id :: id in p.device.seen ==> Recorded(u, p.device.seen, id))
    && (forall i, j :: 0 <= i < j < |p.read| ==> u.RecordId(p.read[i].msgId) != u.RecordId(p.read[j].msgId))
  }

  /** Confirmed, awaiting its answer, given up, or held by a task still to do. */
  ghost predicate Accounted(u: Setup, p: Peer, m: bytes) {
    || m in p.acked || Ack(m, false) in p.acking || Ack(m, true) in p.acking || m in p.lost
    || HasOpenTask(p.device.tasks, u.naming.ack(u.contactId, m), AckPayload(u, m))
  }

  ghost predicate AcksOk(u: Setup, p: Peer) {
    forall id :: id in p.device.seen && !Collides(u, p.device.seen[id].msgId) ==>
      Accounted(u, p, p.device.seen[id].msgId)
  }

  ghost predicate PeerOk(u: Setup, party: S.Party, p: Peer) {
    p.device.ratchet == party.state && PacketsOk(u, party, p) && ReadOk(u, party, p) && AcksOk(u, p)
  }

  ghost predicate Inv(c: Config, w: World) {
    var s := S.Run(c.k, w.trace);
    PeerOk(c.initiator, s.initiator, w.initiator) && PeerOk(c.responder, s.responder, w.responder)
  }

  // ------------------------------------------------------ every event keeps it

  lemma PacketsLater(u: Setup, party: S.Party, party': S.Party, p: Peer)
    requires PacketsOk(u, party, p) && party.sent <= party'.sent
    ensures PacketsOk(u, party', p)
  {
  }

  function AfterSend(party: S.Party, events: seq<S.Event>): S.Party
    requires events == [] || events[0].Send?
  {
    if events == [] then party else S.ReloadBy(S.SendBy(party, events[0]))
  }

  lemma SendRecorded(u: Setup, party: S.Party, p: Peer, ev: Event)
    requires ev.Send? && PacketsOk(u, party, p) && p.device.ratchet == party.state && SendBy(p, ev).1 != []
    ensures var (p', events) := SendBy(p, ev);
            var party' := AfterSend(party, events);
            && PacketsOk(u, party', p') && p'.device.ratchet == party'.state && party'.received == party.received
            && p'.device.seen == p.device.seen && p'.device.tasks == p.device.tasks
  {
    hide Named, R.Encrypt;
    var (p', events) := SendBy(p, ev);
    var party' := AfterSend(party, events);
    PacketsLater(u, party, party', p);
    var packet := p'.handed[|p.handed|];
    assert party'.sent[|party.sent|].packet == packet;
    assert forall x :: x in p'.handed ==> x in p.handed || x == packet;
  }

  lemma SendKeeps(u: Setup, party: S.Party, p: Peer, ev: Event)
    requires ev.Send? && PeerOk(u, party, p)
    ensures var (p', events) := SendBy(p, ev); PeerOk(u, AfterSend(party, events), p')
  {
    var (p', events) := SendBy(p, ev);
    if events != [] {
      SendRecorded(u, party, p, ev);
      ShortIds(u, party, p);
      AcksStay(u, p, p');
      RecordsStay(u, party, p, p');
      ReadLater(u, party, AfterSend(party, events), p');
      hide PacketsOk, ReadOk, AcksOk, R.Encrypt, AfterSend;
    }
  }

  lemma ReadLater(u: Setup, party: S.Party, party': S.Party, p: Peer)
    requires ReadOk(u, party, p) && party'.received == party.received
    ensures ReadOk(u, party', p)
  {
  }

  /** The same records, whatever was noted about their ACKs. */
  ghost predicate SameRecords(seen: map<string, Received>, seen': map<string, Received>) {
    seen'.Keys == seen.Keys && forall id :: id in seen ==> seen'[id].msgId == seen[id].msgId
  }

  /** Nothing about ACKs depends on the parts that differ here. */
  lemma AcksStay(u: Setup, p: Peer, p': Peer)
    requires AcksOk(u, p) && SameRecords(p.device.seen, p'.device.seen) && p.acked <= p'.acked && p.acking <= p'.acking
             && p.lost <= p'.lost
    requires forall id :: id in p.device.seen ==> |p.device.seen[id].msgId| <= MAX_MSG_ID
    requires forall m :: |m| <= MAX_MSG_ID && m !in p'.acked && !Collides(u, m)
               && HasOpenTask(p.device.tasks, u.naming.ack(u.contactId, m), AckPayload(u, m))
               ==> HasOpenTask(p'.device.tasks, u.naming.ack(u.contactId, m), AckPayload(u, m))
    ensures AcksOk(u, p')
  {
  }

  lemma OneColon(s: string, y: string, a: string, b: string)
    requires ColonFree(a) && ColonFree(b) && s + ":" + y == a + ":" + b
    ensures s == a && y == b
  {
    var text := a + ":" + b;
    assert text[..|s|] == s && text[|s|] == ':' && text[..|a|] == a && text[|a|] == ':';
    assert forall j :: 0 <= j < |a| ==> text[j] == a[j];
    assert forall j :: |a| < j < |text| ==> text[j] == b[j - |a| - 1];
    assert text[|s| + 1..] == y && text[|a| + 1..] == b;
  }

  /** A text with two colons reads as a send task id in one way. */
  lemma TwoColons(c: string, x: string, a: string, b: string)
    requires ColonFree(a) && ColonFree(b) && c + ":send:" + x == "ack:" + a + ":" + b
    ensures c == "ack" && a == "send"
  {
    var sent, tail := "send" + ":" + x, a + ":" + b;
    assert sent[4] == ':';
    assert c + ":" + sent == c + ":send:" + x == "ack:" + tail == "ack" + ":" + tail;
    assert (c + ":" + sent)[..|c|] == c == ("ack:" + tail)[..|c|];
    if |c| <= 3 {
      assert c == "ack"[..|c|];
      ColonSplits(c, sent, "ack", tail);
      OneColon("send", x, a, b);
    } else {
      assert c == "ack:" + c[4..];
      AfterHead("ack:", c[4..] + ":" + sent, tail);
      OneColon(c[4..], sent, a, b);
    }
  }

  lemma AckIdParts(n: Naming, c: string, m: bytes)
    ensures var a, b := Clip(EncodeUrl(m), 96), Clip(EncodeUrl(n.utf8(c)), 48);
            n.ack(c, m) == "ack:" + a + ":" + b && ColonFree(a) && ColonFree(b)
  {
  }

  lemma SendText()
    ensures EncodeUrl(SEND_BYTES) == "send"
  {
    assert Symbol(44) == 's' && Symbol(30) == 'e' && Symbol(39) == 'n' && Symbol(29) == 'd';
    hide Symbol, Value, UrlChar;
    assert EncodeUrl(SEND_BYTES[3..]) == "";
  }

  lemma ReadsSend(m: bytes)
    ensures Clip(EncodeUrl(m), 96) == "send" <==> m == SEND_BYTES
  {
    SendText();
    ReadInverts(m);
    ReadInverts(SEND_BYTES);
    hide EncodeUrl, ReadUrl;
  }

  lemma TextsMeet(c: string, a: string, b: string)
    requires ColonFree(a) && ColonFree(b)
    ensures (exists x :: SendTaskId(c, x) == "ack:" + a + ":" + b) <==> c == "ack" && a == "send"
  {
    if c == "ack" && a == "send" {
      assert SendTaskId(c, b) == "ack" + ":send:" + b == "ack:" + a + ":" + b;
    }
    forall x | SendTaskId(c, x) == "ack:" + a + ":" + b ensures c == "ack" && a == "send" { TwoColons(c, x, a, b); }
  }

  /** Exactly when an ACK task can be taken for a send task: the contact is called "ack"
      and the message id is the three bytes that read "send". */
  lemma SendAndAckIdsMeet(u: Setup, m: bytes)
    ensures (exists x :: SendTaskId(u.contactId, x) == u.naming.ack(u.contactId, m)) <==> Collides(u, m)
  {
    AckIdParts(u.naming, u.contactId, m);
    ReadsSend(m);
    TextsMeet(u.contactId, Clip(EncodeUrl(m), 96), Clip(EncodeUrl(u.naming.utf8(u.contactId)), 48));
    hide Naming.ack, ColonFree, Clip, EncodeUrl;
  }

  lemma SendIdApart(u: Setup, clientMessageId: string)
    ensures forall m :: !Collides(u, m) ==> SendTaskId(u.contactId, clientMessageId) != u.naming.ack(u.contactId, m)
  {
    forall m | !Collides(u, m) ensures SendTaskId(u.contactId, clientMessageId) != u.naming.ack(u.contactId, m) {
      SendAndAckIdsMeet(u, m);
    }
  }

  lemma SendReplyTasks(u: Setup, d: Device, clientMessageId: string, packet: R.Packet, accepted: bool, retry: bool,
                       now: nat)
    requires |d.tasks| <= MAX_LIST_ITEMS
    ensures var d' := SendReply(u, d, clientMessageId, packet, accepted, retry, now);
            var id := SendTaskId(u.contactId, clientMessageId);
            && d' == d.(tasks := d'.tasks) && |d'.tasks| <= MAX_LIST_ITEMS
            && (forall t :: t in d'.tasks ==>
                  (t.id == id && t.payload == SendPacket(u.contactId, OutboxId(u.contactId), packet)) || From(d.tasks, t))
            && (forall i, q :: i != id && HasOpenTask(d.tasks, i, q) ==> HasOpenTask(d'.tasks, i, q))
  {
    var id, payload := SendTaskId(u.contactId, clientMessageId), SendPacket(u.contactId, OutboxId(u.contactId), packet);
    RequeuedKeeps(u.fits, d.tasks, id, payload, now, u.delay);
    CompletingKeeps(d.tasks, id, now);
    AllFrom(d.tasks);
    hide Requeued, Failing, Completing, HasOpenTask, From;
  }

  lemma SendAnswerKeeps(u: Setup, party: S.Party, p: Peer, ev: Event)
    requires ev.SendAnswer? && PeerOk(u, party, p)
    ensures PeerOk(u, party, SendAnswered(u, p, ev))
  {
    if (ev.clientMessageId, ev.packet) in p.sending {
      assert |p.device.tasks| <= MAX_LIST_ITEMS && WasSent(party, ev.packet) by {
        assert (ev.clientMessageId, ev.packet) in p.sending;
      }
      SendIdApart(u, ev.clientMessageId);
      SendReplyTasks(u, p.device, ev.clientMessageId, ev.packet, ev.accepted, ev.retry, ev.now);
      hide PeerOk, Naming.ack, HasOpenTask, From, SendReply, SendTaskId, Collides, WasSent;
      TaskWritten(u, party, p, SendAnswered(u, p, ev), SendTaskId(u.contactId, ev.clientMessageId),
                  SendPacket(u.contactId, OutboxId(u.contactId), ev.packet), true);
    }
  }

  /** Only the task list is new: every open task is still there, but for one id if it is done. */
  lemma TaskWritten(u: Setup, party: S.Party, p: Peer, p': Peer, id: string, payload: Payload, done: bool)
    requires PeerOk(u, party, p) && p'.device == p.device.(tasks := p'.device.tasks) && |p'.device.tasks| <= MAX_LIST_ITEMS
    requires p' == p.(device := p'.device, sending := p'.sending, due := p'.due, acked := p'.acked,
                      accepted := p'.accepted)
    requires p'.sending <= p.sending && p'.due <= p.due && p.acked <= p'.acked
    requires forall t :: t in p'.device.tasks ==> (t.id == id && t.payload == payload) || From(p.device.tasks, t)
    requires payload.SendPacket? ==> WasSent(party, payload.packet)
    requires forall m :: |m| <= MAX_MSG_ID && !Collides(u, m) && id == u.naming.ack(u.contactId, m) ==>
               payload == AckPayload(u, m) && (done ==> m in p'.acked)
    requires forall i, q :: (!done || i != id) && HasOpenTask(p.device.tasks, i, q) ==> HasOpenTask(p'.device.tasks, i, q)
    ensures PeerOk(u, party, p')
  {
    hide Naming.ack, Naming.received, TaskOk, HasOpenTask, From, Collides, Recorded;
    ShortIds(u, party, p);
    TasksStay(u, party, p, p', id, payload);
    hide PacketsOk;
    AcksStay(u, p, p');
    hide AcksOk;
    RecordsStay(u, party, p, p');
  }

  /** Tasks that come from old ones, or are the new one named, are all right. */
  lemma TasksStay(u: Setup, party: S.Party, p: Peer, p': Peer, id: string, payload: Payload)
    requires PacketsOk(u, party, p) && p'.handed == p.handed && p'.due <= p.due && p'.sending <= p.sending
             && p'.acking <= p.acking
    requires |p'.device.tasks| <= MAX_LIST_ITEMS
    requires forall t :: t in p'.device.tasks ==> (t.id == id && t.payload == payload) || From(p.device.tasks, t)
    requires payload.SendPacket? ==> WasSent(party, payload.packet)
    requires forall m :: |m| <= MAX_MSG_ID && !Collides(u, m) && id == u.naming.ack(u.contactId, m) ==>
               payload == AckPayload(u, m)
    ensures PacketsOk(u, party, p')
  {
  }

  lemma AckFailsTasks(u: Setup, d: Device, ack: Ack, now: nat)
    requires u.RecordId(ack.msgId) in d.seen && |d.tasks| <= MAX_LIST_ITEMS
    ensures var d' := AckFails(u, d, ack, now);
            var id, payload := u.naming.ack(u.contactId, ack.msgId), AckPayload(u, ack.msgId);
            && d'.ratchet == d.ratchet && SameRecords(d.seen, d'.seen) && |d'.tasks| <= MAX_LIST_ITEMS
            && (forall t :: t in d'.tasks ==> (t.id == id && t.payload == payload) || From(d.tasks, t))
            && (forall i, q :: i != id && HasOpenTask(d.tasks, i, q) ==> HasOpenTask(d'.tasks, i, q))
            && (HasOpenTask(d'.tasks, id, payload) <==> Queues(u, d, ack.msgId, now))
  {
    hide Requeued, HasOpenTask, Requeues, Enqueued, Others, From, Naming.ack;
    var id, payload := u.naming.ack(u.contactId, ack.msgId), AckPayload(u, ack.msgId);
    RequeuedKeeps(u.fits, d.tasks, id, payload, now, u.delay);
    RequeuedHolds(u.fits, d.tasks, id, payload, now, u.delay);
  }

  /** A failed ACK leaves its task open exactly if that could be queued, and no other task is harmed. */
  lemma AckFailsKeeps(u: Setup, party: S.Party, p: Peer, ack: Ack, now: nat)
    requires PacketsOk(u, party, p) && u.RecordId(ack.msgId) in p.device.seen && |ack.msgId| <= MAX_MSG_ID
    ensures var d := AckFails(u, p.device, ack, now);
            var id := u.naming.ack(u.contactId, ack.msgId);
            && PacketsOk(u, party, p.(device := d))
            && d.ratchet == p.device.ratchet && SameRecords(p.device.seen, d.seen)
            && (forall i, q :: i != id && HasOpenTask(p.device.tasks, i, q) ==> HasOpenTask(d.tasks, i, q))
            && (HasOpenTask(d.tasks, id, AckPayload(u, ack.msgId)) <==> Queues(u, p.device, ack.msgId, now))
  {
    hide AckFails, HasOpenTask, TaskOk, From, Naming.ack, Queues, Collides;
    var id, payload := u.naming.ack(u.contactId, ack.msgId), AckPayload(u, ack.msgId);
    forall m: bytes | |m| <= MAX_MSG_ID && id == u.naming.ack(u.contactId, m) ensures m == ack.msgId {
      AckIdInjective(u.naming, u.contactId, m, ack.msgId);
    }
    AckFailsTasks(u, p.device, ack, now);
    TasksStay(u, party, p, p.(device := AckFails(u, p.device, ack, now)), id, payload);
  }

  lemma AckAnswerAccounts(u: Setup, party: S.Party, p: Peer, ev: Event, r: bytes)
    requires ev.AckAnswer? && PacketsOk(u, party, p) && ev.ack in p.acking
    requires u.RecordId(ev.ack.msgId) in p.device.seen && |r| <= MAX_MSG_ID && Accounted(u, p, r)
    ensures Accounted(u, AckAnswered(u, p, ev), r)
  {
    var m := ev.ack.msgId;
    if u.naming.ack(u.contactId, r) == u.naming.ack(u.contactId, m) {
      AckIdInjective(u.naming, u.contactId, r, m);
    }
    hide HasOpenTask, AckFails, Queues, TaskOk, Naming.ack, PacketsOk;
    AckFailsKeeps(u, party, p, ev.ack, ev.now);
  }

  lemma RecordsStay(u: Setup, party: S.Party, p: Peer, p': Peer)
    requires ReadOk(u, party, p) && p'.read == p.read && SameRecords(p.device.seen, p'.device.seen)
    ensures ReadOk(u, party, p')
  {
    hide Naming.received;
    forall id | id in p'.device.seen ensures Recorded(u, p'.device.seen, id) {
      assert Recorded(u, p.device.seen, id);
    }
  }

  lemma AckAnswerKeeps(u: Setup, party: S.Party, p: Peer, ev: Event)
    requires ev.AckAnswer? && PeerOk(u, party, p)
    ensures PeerOk(u, party, AckAnswered(u, p, ev))
  {
    hide HasOpenTask, AckFails, Queues, TaskOk, Naming.ack, Naming.received, Collides, Accounted, ReadOk;
    var p', m := AckAnswered(u, p, ev), ev.ack.msgId;
    if ev.ack in p.acking && u.RecordId(m) in p.device.seen {
      AckFailsKeeps(u, party, p, ev.ack, ev.now);
      RecordsStay(u, party, p, p');
      ShortIds(u, party, p);
      forall id | id in p'.device.seen && !Collides(u, p'.device.seen[id].msgId)
        ensures Accounted(u, p', p'.device.seen[id].msgId)
      {
        AckAnswerAccounts(u, party, p, ev, p.device.seen[id].msgId);
      }
    }
  }

  lemma DrainReplyTasks(u: Setup, d: Device, id: string, ok: bool, now: nat)
    requires |d.tasks| <= MAX_LIST_ITEMS
    ensures var d' := DrainReply(u, d, id, ok, now);
            && d' == d.(tasks := d'.tasks) && |d'.tasks| <= MAX_LIST_ITEMS
            && (forall t :: t in d'.tasks ==> From(d.tasks, t))
            && (forall i, q :: (!ok || i != id) && HasOpenTask(d.tasks, i, q) ==> HasOpenTask(d'.tasks, i, q))
  {
    FailingKeeps(d.tasks, id, now, u.delay);
    CompletingKeeps(d.tasks, id, now);
    AllFrom(d.tasks);
    hide Failing, Completing, HasOpenTask, From;
  }

  lemma DrainAnswerKeeps(u: Setup, party: S.Party, p: Peer, ev: Event)
    requires ev.DrainAnswer? && PeerOk(u, party, p)
    ensures PeerOk(u, party, DrainAnswered(u, p, ev))
  {
    var t := ev.task;
    if t in p.due {
      assert |p.device.tasks| <= MAX_LIST_ITEMS && TaskOk(u, party, t);
      TaskNamed(u, party, t);
      var ok := ev.accepted && !(t.payload.AckMessage? && t.payload.msgId == []);
      DrainReplyTasks(u, p.device, t.id, ok, ev.now);
      hide PeerOk, Naming.ack, HasOpenTask, From, DrainReply, Collides, WasSent, TaskOk;
      TaskWritten(u, party, p, DrainAnswered(u, p, ev), t.id, t.payload, ok);
    }
  }

  lemma AllFrom(tasks: seq<Task>)
    ensures forall o :: o in tasks ==> From(tasks, o)
  {
  }

  lemma TaskNamed(u: Setup, party: S.Party, t: Task)
    requires TaskOk(u, party, t)
    ensures Named(u, t) && (t.payload.SendPacket? ==> WasSent(party, t.payload.packet))
  {
  }

  lemma RestartKeeps(u: Setup, party: S.Party, p: Peer)
    requires PeerOk(u, party, p)
    ensures PeerOk(u, party, Restarted(p))
  {
  }

  lemma OpensArrives(k: Schedule, u: Setup, to: S.Party, from: S.Party, d: Device, index: nat, msgId: bytes, body: Mail)
    requires d.ratchet == to.state && index < |from.sent|
    requires body.packet.Some? ==> from.sent[index].packet == body.packet.value
    requires Take(u, d, msgId, body, k.name(to.epoch + 2)).1.Opens?
    ensures var (d', outcome) := Take(u, d, msgId, body, k.name(to.epoch + 2));
            var to' := S.ReloadBy(S.ArriveAt(k, to, from, index));
            && d'.ratchet == to'.state && to'.sent == to.sent
            && to'.received == to.received + [S.Received(index, outcome.text)]
            && d'.tasks == d.tasks && u.RecordId(msgId) !in d.seen
            && d'.seen == d.seen[u.RecordId(msgId) := Received(u.contactId, msgId, body, false, false)]
  {
  }

  lemma ReadingRecorded(u: Setup, to: S.Party, to': S.Party, p: Peer, p': Peer, r: Reading, x: Received)
    requires ReadOk(u, to, p) && to'.received == to.received + [S.Received(r.index, r.text)] && p'.read == p.read + [r]
    requires u.RecordId(r.msgId) !in p.device.seen && x.msgId == r.msgId && |r.msgId| <= MAX_MSG_ID
    requires p'.device.seen == p.device.seen[u.RecordId(r.msgId) := x]
    ensures ReadOk(u, to', p')
  {
    hide Naming.received;
    forall id | id in p'.device.seen ensures Recorded(u, p'.device.seen, id) {
      if id in p.device.seen { assert Recorded(u, p.device.seen, id); }
    }
  }

  lemma ReadingAdded(u: Setup, to: S.Party, to': S.Party, p: Peer, p': Peer, r: Reading, x: Received)
    requires PeerOk(u, to, p) && to'.sent == to.sent && to'.received == to.received + [S.Received(r.index, r.text)]
    requires u.RecordId(r.msgId) !in p.device.seen && x.msgId == r.msgId
    requires p'.device.seen == p.device.seen[u.RecordId(r.msgId) := x]
    requires p'.device.ratchet == to'.state && p'.device.tasks == p.device.tasks && p'.read == p.read + [r]
    requires p'.sending == p.sending && p'.due == p.due && p'.handed == p.handed && p'.acked == p.acked
    requires |r.msgId| <= MAX_MSG_ID && forall a :: a in p'.acking ==> a in p.acking || a.msgId == r.msgId
    requires p.acking <= p'.acking && p.lost <= p'.lost && (Ack(r.msgId, false) in p'.acking || r.msgId in p'.lost)
    ensures PeerOk(u, to', p')
  {
    ReadingRecorded(u, to, to', p, p', r, x);
    PacketsLater(u, to, to', p);
    hide TaskOk, HasOpenTask, ReadOk, Naming.received, Naming.ack, Collides;
    forall id | id in p'.device.seen && !Collides(u, p'.device.seen[id].msgId)
      ensures Accounted(u, p', p'.device.seen[id].msgId)
    {
      if id in p.device.seen && id != u.RecordId(r.msgId) { assert Accounted(u, p, p.device.seen[id].msgId); }
    }
  }

  lemma DeliveredQuietly(u: Setup, p: Peer, other: Peer, freshDh: nat, index: nat, ev: Event)
    requires ev.Delivery? && Delivered(u, p, other, freshDh, index, ev).1 == []
    ensures var p' := Delivered(u, p, other, freshDh, index, ev).0;
            && p' == p.(acking := p'.acking, device := p.device.(seen := p'.device.seen))
            && SameRecords(p.device.seen, p'.device.seen) && p.acking <= p'.acking
            && (forall a :: a in p'.acking ==> a in p.acking || |a.msgId| <= MAX_MSG_ID)
  {
    hide R.Decrypt;
  }

  lemma DeliveredOpens(u: Setup, p: Peer, other: Peer, freshDh: nat, index: nat, ev: Event)
    requires ev.Delivery? && Delivered(u, p, other, freshDh, index, ev).1 != []
    ensures var (p', events) := Delivered(u, p, other, freshDh, index, ev);
            var (device, outcome) := Take(u, p.device, ev.msgId, ev.body, freshDh);
            && |ev.msgId| <= MAX_MSG_ID && (ev.body.packet.Some? ==> ev.body.packet.value in other.handed)
            && outcome.Opens? && events == [S.Arrive(ev.side, index), S.Reload(ev.side)]
            && p' == p.(device := device, read := p.read + [Reading(ev.msgId, outcome.text, index)],
                        acking := p'.acking, lost := p'.lost)
            && p.acking <= p'.acking && p.lost <= p'.lost && (Ack(ev.msgId, false) in p'.acking || ev.msgId in p'.lost)
            && (forall a :: a in p'.acking ==> a in p.acking || a.msgId == ev.msgId)
  {
    hide Take;
  }

  lemma OpenedHadPacket(u: Setup, d: Device, msgId: bytes, body: Mail, freshDh: nat)
    requires Take(u, d, msgId, body, freshDh).1.Opens?
    ensures body.packet.Some?
  {
  }

  lemma DeliveryKeeps(k: Schedule, u: Setup, to: S.Party, from: S.Party, p: Peer, other: Peer, index: nat, ev: Event)
    requires ev.Delivery? && PeerOk(u, to, p)
    requires ev.body.packet.Some? && ev.body.packet.value in other.handed ==>
               index < |from.sent| && from.sent[index].packet == ev.body.packet.value
    ensures var (p', events) := Delivered(u, p, other, k.name(to.epoch + 2), index, ev);
            if events == [] then PeerOk(u, to, p')
            else index < |from.sent| && PeerOk(u, S.ReloadBy(S.ArriveAt(k, to, from, index)), p')
                 && events == [S.Arrive(ev.side, index), S.Reload(ev.side)]
  {
    hide PacketsOk, ReadOk, HasOpenTask, S.ArriveAt, S.ReloadBy, Delivered, Take, Accounted, Collides, Naming.received;
    var freshDh := k.name(to.epoch + 2);
    var (p', events) := Delivered(u, p, other, freshDh, index, ev);
    if events == [] {
      DeliveredQuietly(u, p, other, freshDh, index, ev);
      ShortIds(u, to, p);
      OnlyAcking(u, to, p, p');
      AcksStay(u, p, p');
    } else {
      DeliveredOpens(u, p, other, freshDh, index, ev);
      OpenedHadPacket(u, p.device, ev.msgId, ev.body, freshDh);
      OpensArrives(k, u, to, from, p.device, index, ev.msgId, ev.body);
      ReadingAdded(u, to, S.ReloadBy(S.ArriveAt(k, to, from, index)), p, p', p'.read[|p.read|],
                   Received(u.contactId, ev.msgId, ev.body, false, false));
    }
  }

  lemma ShortIds(u: Setup, party: S.Party, p: Peer)
    requires ReadOk(u, party, p)
    ensures forall id :: id in p.device.seen ==> |p.device.seen[id].msgId| <= MAX_MSG_ID
  {
    assert forall id :: id in p.device.seen ==> Recorded(u, p.device.seen, id);
  }

  lemma OnlyAcking(u: Setup, to: S.Party, p: Peer, p': Peer)
    requires PacketsOk(u, to, p) && ReadOk(u, to, p)
    requires forall a :: a in p'.acking ==> a in p.acking || |a.msgId| <= MAX_MSG_ID
    requires p' == p.(acking := p'.acking, device := p.device.(seen := p'.device.seen))
             && SameRecords(p.device.seen, p'.device.seen)
    ensures PacketsOk(u, to, p') && ReadOk(u, to, p')
  {
  }
}
