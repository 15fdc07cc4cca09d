/** What becomes of the packets a contact client hands over: when a send makes one, and
    that none is lost but in the ways named here. */
module ContactSends {
  import opened Outcomes
  import opened Bytes
  import opened Store
  import opened ContactRecords
  import opened Scheduler
  import opened ContactDevice
  import opened ContactWorld
  import opened RatchetKeys
  import R = Ratchet
  import S = RatchetSession
  import N = RatchetSends
  import C = ContactTheorems
  import L = RetryTasks

  function HeldBy(u: Setup, packet: R.Packet): Payload {
    SendPacket(u.contactId, OutboxId(u.contactId), packet)
  }

  /** Whether a failed send leaves a task: the list can be written and has room, or it
      cannot be written and an earlier task of the same packet is there. */
  ghost predicate QueuesSend(u: Setup, d: Device, clientMessageId: string, packet: R.Packet, now: nat) {
    var id, payload := SendTaskId(u.contactId, clientMessageId), HeldBy(u, packet);
    if Enqueued(u.fits, d.tasks, id, payload, now).Some? then |Others(d.tasks, id)| < MAX_LIST_ITEMS
    else HasOpenTask(d.tasks, id, payload)
  }

  /** An accepted send whose tasks can be completed leaves none open under its id.  Any other
      leaves its packet in an open task exactly if that could be queued, or, with retries
      off, leaves the list as it was. */
  lemma SendReplyExactly(u: Setup, d: Device, clientMessageId: string, packet: R.Packet, accepted: bool, retry: bool,
                         now: nat)
    requires |d.tasks| <= MAX_LIST_ITEMS && now > 0
    ensures var d' := SendReply(u, d, clientMessageId, packet, accepted, retry, now);
            var id := SendTaskId(u.contactId, clientMessageId);
            if accepted && Completed(u.fits, d.tasks, id, now).Some?
            then forall payload :: !HasOpenTask(d'.tasks, id, payload)
            else if retry
            then HasOpenTask(d'.tasks, id, HeldBy(u, packet)) <==> QueuesSend(u, d, clientMessageId, packet, now)
            else d' == d
  {
    var id, payload := SendTaskId(u.contactId, clientMessageId), HeldBy(u, packet);
    RequeuedHolds(u.fits, d.tasks, id, payload, now, u.delay);
    NoneOpen(d.tasks, id, now);
    hide HasOpenTask, Requeued, Enqueued, Others, Completing;
  }

  lemma NoneOpen(tasks: seq<Task>, id: string, now: nat)
    requires now > 0
    ensures forall payload :: !HasOpenTask(Completing(tasks, id, now), id, payload)
    ensures |tasks| <= MAX_LIST_ITEMS ==> Oldest(Completing(tasks, id, now)) == Completing(tasks, id, now)
  {
  }

  /** A second send under a client message id that is in use ends the retries of the first
      packet exactly if it is accepted and completed, or fails and is queued in its place. */
  lemma ReusedIdDrops(u: Setup, d: Device, clientMessageId: string, first: R.Packet, second: R.Packet, accepted: bool,
                      retry: bool, now: nat)
    requires |d.tasks| <= MAX_LIST_ITEMS && now > 0 && first != second
    requires HasOpenTask(d.tasks, SendTaskId(u.contactId, clientMessageId), HeldBy(u, first))
    ensures var d' := SendReply(u, d, clientMessageId, second, accepted, retry, now);
            var id := SendTaskId(u.contactId, clientMessageId);
            !HasOpenTask(d'.tasks, id, HeldBy(u, first))
            <==> || (accepted && Completed(u.fits, d.tasks, id, now).Some?)
                 || (retry && Enqueued(u.fits, d.tasks, id, HeldBy(u, second), now).Some?)
  {
    var id, payload := SendTaskId(u.contactId, clientMessageId), HeldBy(u, second);
    NoneOpen(d.tasks, id, now);
    OnlyTheNewOne(u.fits, d.tasks, id, payload, HeldBy(u, first), now, u.delay);
    hide HasOpenTask, Requeued, Enqueued, Completing;
  }

  lemma OnlyTheNewOne(fits: seq<Task> -> bool, tasks: seq<Task>, id: string, payload: Payload, other: Payload, now: nat,
                      delay: nat -> nat)
    requires |tasks| <= MAX_LIST_ITEMS && payload != other && HasOpenTask(tasks, id, other)
    ensures HasOpenTask(Requeued(fits, tasks, id, payload, now, delay), id, other)
            <==> Enqueued(fits, tasks, id, payload, now).None?
  {
    var queued := Enqueued(fits, tasks, id, payload, now);
    if queued.Some? {
      OnlyEnqueued(fits, tasks, id, payload, now);
      FailingKeeps(queued.value, id, now, delay);
      OnlyPayload(queued.value, Failing(queued.value, id, now, delay), id, payload);
      hide Enqueued, Failing, From;
    }
  }

  lemma OnlyEnqueued(fits: seq<Task> -> bool, tasks: seq<Task>, id: string, payload: Payload, now: nat)
    requires |tasks| <= MAX_LIST_ITEMS && Enqueued(fits, tasks, id, payload, now).Some?
    ensures forall t :: t in Enqueued(fits, tasks, id, payload, now).value && t.id == id ==> t.payload == payload
  {
    var all := Others(tasks, id) + [NewTask(id, payload, now)];
    assert forall t :: t in Oldest(all) ==> t in all;
  }

  lemma OnlyPayload(tasks: seq<Task>, after: seq<Task>, id: string, payload: Payload)
    requires forall t :: t in tasks && t.id == id ==> t.payload == payload
    requires forall t :: t in after ==> From(tasks, t)
    ensures forall q :: q != payload ==> !HasOpenTask(after, id, q) && !HasOpenTask(tasks, id, q)
  {
    forall t | t in after && t.id == id ensures t.payload == payload {
      var o :| o in tasks && o.id == t.id && o.payload == t.payload;
    }
  }

  /** A retried task, once answered: completed if it was accepted and the list can be
      written, else put off, else left. */
  lemma DrainReplyExactly(u: Setup, d: Device, id: string, ok: bool, now: nat)
    requires |d.tasks| <= 1000
    ensures var d' := DrainReply(u, d, id, ok, now);
            && d' == d.(tasks := d'.tasks)
            && exists fate :: L.AnsweredSo(u.fits, d.tasks, d'.tasks, id, ok, now, u.delay, fate)
  {
    L.AnsweredExactly(u.fits, d.tasks, id, ok, now, u.delay);
    hide Answered, Completed, L.AnsweredSo;
  }

  // ------------------------------------------------------ over runs

  /** A task of the list, or one taken from it to be retried, has this id and payload. */
  ghost predicate Names(p: Peer, id: string, payload: Payload) {
    exists t :: (t in p.device.tasks || t in p.due) && t.id == id && t.payload == payload
  }

  /** Accepted by the broker, in flight, or held by a task still to do. */
  ghost predicate Safe(u: Setup, p: Peer, x: R.Packet) {
    || x in p.accepted
    || (exists m :: (m, x) in p.sending)
    || (exists m :: HasOpenTask(p.device.tasks, SendTaskId(u.contactId, m), HeldBy(u, x)))
  }

  /** Each task id that holds a packet holds that one, and was made for a send of it. */
  ghost predicate OwnIds(u: Setup, p: Peer) {
    && (forall y, q :: y in p.sending && Names(p, SendTaskId(u.contactId, y.0), q) ==> q == HeldBy(u, y.1))
    && (forall y, z :: y in p.sending && z in p.sending && y.0 == z.0 ==> y == z)
    && (forall id, q, r :: Names(p, id, q) && Names(p, id, r) && q.SendPacket? ==> r == q)
    && (forall id, q :: Names(p, id, q) && q.SendPacket? ==> ForSend(u, p, id, q))
  }

  ghost predicate ForSend(u: Setup, p: Peer, id: string, payload: Payload)
    requires payload.SendPacket?
  {
    payload == HeldBy(u, payload.packet) && payload.packet in p.handed && exists m :: id == SendTaskId(u.contactId, m)
  }

  ghost predicate SendsKept(u: Setup, p: Peer) {
    && |p.device.tasks| <= MAX_LIST_ITEMS && OwnIds(u, p)
    && (forall y :: y in p.sending ==> y.1 in p.handed)
    && (forall x :: x in p.handed ==> Safe(u, p, x))
  }

  /** No send under way and no task has this client message id. */
  ghost predicate Unused(u: Setup, p: Peer, clientMessageId: string) {
    && (forall y :: y in p.sending ==> y.0 != clientMessageId)
    && (forall q :: !Names(p, SendTaskId(u.contactId, clientMessageId), q))
  }

  /** Client message ids not used twice, retries left on, room for every send task, no
      restart during a send, and no ACK whose task could be taken for that of a send. */
  ghost predicate KeepsPackets(c: Config, w: World, ev: Event) {
    var u, p := c.At(ev.side), w.At(ev.side);
    match ev
    case Send(_, _, _, _, clientMessageId) => Unused(u, p, clientMessageId)
    case SendAnswer(_, clientMessageId, packet, accepted, retry, now) =>
      accepted || (retry && QueuesSend(u, p.device, clientMessageId, packet, now))
    case AckAnswer(_, ack, _, _, _) => !Collides(u, ack.msgId)
    case Restart(_) => p.sending == multiset{}
    case _ => true
  }

  ghost predicate KeptUp(c: Config, events: seq<Event>, side: S.Side) {
    events == [] ||
    var before, ev := events[..|events| - 1], events[|events| - 1];
    KeptUp(c, before, side) && (ev.side == side ==> KeepsPackets(c, Run(c, before), ev))
  }

  lemma SendIdsDiffer(c: string, m: string, m': string)
    requires SendTaskId(c, m) == SendTaskId(c, m')
    ensures m == m'
  {
    AfterHead(c + ":send:", m, m');
  }

  /** The names after a stretch: old ones, and perhaps that of one send under way or of no send. */
  lemma NamesChanged(u: Setup, p: Peer, p': Peer, id: string, payload: Payload, m: string)
    requires OwnIds(u, p) && (forall x :: x in p.handed ==> x in p'.handed) && p'.sending <= p.sending
    requires forall i, q :: Names(p', i, q) ==> Names(p, i, q) || (i == id && q == payload)
    requires if payload.SendPacket?
             then (m, payload.packet) in p.sending && id == SendTaskId(u.contactId, m)
                  && payload == HeldBy(u, payload.packet) && payload.packet in p.handed
             else forall x :: id != SendTaskId(u.contactId, x)
    ensures OwnIds(u, p')
  {
    hide Names, SendTaskId;
    forall y, q | y in p'.sending && Names(p', SendTaskId(u.contactId, y.0), q) ensures q == HeldBy(u, y.1) {
      if SendTaskId(u.contactId, y.0) == id && payload.SendPacket? { SendIdsDiffer(u.contactId, y.0, m); }
    }
  }

  /** No new name. */
  lemma NamesStay(u: Setup, p: Peer, p': Peer)
    requires OwnIds(u, p) && (forall x :: x in p.handed ==> x in p'.handed) && p'.sending <= p.sending
    requires forall i, q :: Names(p', i, q) ==> Names(p, i, q)
    ensures OwnIds(u, p')
  {
    hide Names, SendTaskId;
  }

  lemma NamesFrom(p: Peer, p': Peer, id: string, payload: Payload)
    requires forall t :: t in p'.device.tasks ==> (t.id == id && t.payload == payload) || From(p.device.tasks, t)
    requires p'.due <= p.due
    ensures forall i, q :: Names(p', i, q) ==> Names(p, i, q) || (i == id && q == payload)
  {
    forall i, q | Names(p', i, q) ensures Names(p, i, q) || (i == id && q == payload) {
      var t :| (t in p'.device.tasks || t in p'.due) && t.id == i && t.payload == q;
      if t in p'.device.tasks && From(p.device.tasks, t) {
        var o :| o in p.device.tasks && o.id == t.id && o.payload == t.payload;
      }
    }
  }

  lemma NamesOld(p: Peer, p': Peer)
    requires forall t :: t in p'.device.tasks ==> From(p.device.tasks, t)
    requires p'.due <= p.due
    ensures forall i, q :: Names(p', i, q) ==> Names(p, i, q)
  {
    forall i, q | Names(p', i, q) ensures Names(p, i, q) {
      var t :| (t in p'.device.tasks || t in p'.due) && t.id == i && t.payload == q;
      if t in p'.device.tasks {
        var o :| o in p.device.tasks && o.id == t.id && o.payload == t.payload;
      }
    }
  }

  lemma OpenIsNamed(p: Peer, id: string, payload: Payload)
    requires HasOpenTask(p.device.tasks, id, payload)
    ensures Names(p, id, payload)
  {
  }

  /** Nothing that matters to a packet has changed. */
  lemma SameSends(u: Setup, p: Peer, p': Peer)
    requires SendsKept(u, p) && p'.device.tasks == p.device.tasks && p'.due <= p.due && p'.sending == p.sending
    requires p'.handed == p.handed && p'.accepted == p.accepted
    ensures SendsKept(u, p')
  {
    NamesSame(p, p');
    NamesStay(u, p, p');
    hide OwnIds, HasOpenTask, Names;
    forall x | x in p'.handed ensures Safe(u, p', x) { assert Safe(u, p, x); }
  }

  lemma NamesSame(p: Peer, p': Peer)
    requires p'.device.tasks == p.device.tasks && p'.due <= p.due
    ensures forall i, q :: Names(p', i, q) ==> Names(p, i, q)
  {
  }

  lemma SendSafe(u: Setup, p: Peer, ev: Event)
    requires ev.Send? && SendsKept(u, p) && Unused(u, p, ev.clientMessageId)
    ensures SendsKept(u, SendBy(p, ev).0)
  {
    var (p', events) := SendBy(p, ev);
    if events != [] {
      var x := p'.handed[|p.handed|];
      NewSend(p, ev);
      NamesSame(p, p');
      NamesSame(p', p);
      SentNames(u, p, p', ev.clientMessageId, x);
      hide OwnIds, HasOpenTask, Names, SendBy, Unused;
      forall z | z in p'.handed ensures Safe(u, p', z) {
        if z == x {
          assert (ev.clientMessageId, x) in p'.sending;
        } else {
          SafeLater(u, p, p', z);
        }
      }
    }
  }

  lemma NewSend(p: Peer, ev: Event)
    requires ev.Send? && SendBy(p, ev).1 != []
    ensures var p' := SendBy(p, ev).0;
            && |p'.handed| == |p.handed| + 1
            && var x := p'.handed[|p.handed|];
               && p'.handed == p.handed + [x] && p'.sending == p.sending + multiset{(ev.clientMessageId, x)}
               && p'.accepted == p.accepted && p'.due == p.due && p'.device.tasks == p.device.tasks
  {
  }

  lemma SentNames(u: Setup, p: Peer, p': Peer, m: string, x: R.Packet)
    requires OwnIds(u, p) && Unused(u, p, m) && p'.handed == p.handed + [x] && p'.sending == p.sending + multiset{(m, x)}
    requires forall i, q :: Names(p', i, q) <==> Names(p, i, q)
    ensures OwnIds(u, p')
  {
    hide Names, SendTaskId;
    assert forall y :: y in p'.sending ==> y in p.sending || y == (m, x);
  }

  /** A packet that was safe stays so where nothing was taken from it. */
  lemma SafeLater(u: Setup, p: Peer, p': Peer, x: R.Packet)
    requires Safe(u, p, x) && (forall y :: y in p.accepted ==> y in p'.accepted)
    requires forall m :: (m, x) in p.sending ==> (m, x) in p'.sending || x in p'.accepted
                                                 || HasOpenTask(p'.device.tasks, SendTaskId(u.contactId, m), HeldBy(u, x))
    requires forall i :: HasOpenTask(p.device.tasks, i, HeldBy(u, x)) ==>
               x in p'.accepted || HasOpenTask(p'.device.tasks, i, HeldBy(u, x))
    ensures Safe(u, p', x)
  {
    hide HasOpenTask, SendTaskId;
  }

  lemma SendAnswerSafe(u: Setup, p: Peer, ev: Event)
    requires ev.SendAnswer? && SendsKept(u, p)
    requires ev.accepted || (ev.retry && QueuesSend(u, p.device, ev.clientMessageId, ev.packet, ev.now))
    ensures SendsKept(u, SendAnswered(u, p, ev))
  {
    var p', m, x := SendAnswered(u, p, ev), ev.clientMessageId, ev.packet;
    if (m, x) in p.sending {
      var id, payload := SendTaskId(u.contactId, m), HeldBy(u, x);
      SendReplyTasks(u, p.device, m, x, ev.accepted, ev.retry, ev.now);
      SendFailsHolds(u, p.device, m, x, ev.now);
      hide SendReply, QueuesSend, From, HasOpenTask;
      NamesFrom(p, p', id, payload);
      assert x in p.handed by { assert (m, x) in p.sending; }
      NamesChanged(u, p, p', id, payload, m);
      forall z | z in p'.handed ensures Safe(u, p', z) { SendAnswerSafeFor(u, p, p', m, x, z); }
      hide OwnIds;
    }
  }

  lemma SendFailsHolds(u: Setup, d: Device, m: string, x: R.Packet, now: nat)
    requires |d.tasks| <= MAX_LIST_ITEMS
    ensures HasOpenTask(SendReply(u, d, m, x, false, true, now).tasks, SendTaskId(u.contactId, m), HeldBy(u, x))
            <==> QueuesSend(u, d, m, x, now)
  {
    RequeuedHolds(u.fits, d.tasks, SendTaskId(u.contactId, m), HeldBy(u, x), now, u.delay);
    hide HasOpenTask, Requeued, Enqueued, Others;
  }

  lemma SendAnswerSafeFor(u: Setup, p: Peer, p': Peer, m: string, x: R.Packet, z: R.Packet)
    requires OwnIds(u, p) && (m, x) in p.sending && Safe(u, p, z)
    requires p'.sending == p.sending - multiset{(m, x)} && p.accepted <= p'.accepted
    requires x in p'.accepted || HasOpenTask(p'.device.tasks, SendTaskId(u.contactId, m), HeldBy(u, x))
    requires forall i, q :: i != SendTaskId(u.contactId, m) && HasOpenTask(p.device.tasks, i, q) ==>
               HasOpenTask(p'.device.tasks, i, q)
    ensures Safe(u, p', z)
  {
    var id := SendTaskId(u.contactId, m);
    hide HasOpenTask, Names, SendTaskId;
    forall i | HasOpenTask(p.device.tasks, i, HeldBy(u, z))
      ensures z in p'.accepted || HasOpenTask(p'.device.tasks, i, HeldBy(u, z))
    {
      OpenIsNamed(p, i, HeldBy(u, z));
    }
    forall n | (n, z) in p.sending
      ensures (n, z) in p'.sending || z in p'.accepted || HasOpenTask(p'.device.tasks, SendTaskId(u.contactId, n), HeldBy(u, z))
    {
    }
    SafeLater(u, p, p', z);
  }

  lemma AckAnswerSafe(u: Setup, p: Peer, ev: Event)
    requires ev.AckAnswer? && SendsKept(u, p) && !Collides(u, ev.ack.msgId)
    ensures SendsKept(u, AckAnswered(u, p, ev))
  {
    var p', m := AckAnswered(u, p, ev), ev.ack.msgId;
    if ev.ack in p.acking && u.RecordId(m) in p.device.seen {
      var id, payload := u.naming.ack(u.contactId, m), AckPayload(u, m);
      AckFailsTasks(u, p.device, ev.ack, ev.now);
      AllFrom(p.device.tasks);
      SendAndAckIdsMeet(u, m);
      hide AckFails, Queues, From, HasOpenTask, Naming.ack, Naming.received, Collides;
      NamesFrom(p, p', id, payload);
      NamesChanged(u, p, p', id, payload, "");
      forall z | z in p'.handed ensures Safe(u, p', z) {
        assert Safe(u, p, z);
        forall n | HasOpenTask(p.device.tasks, SendTaskId(u.contactId, n), HeldBy(u, z))
          ensures HasOpenTask(p'.device.tasks, SendTaskId(u.contactId, n), HeldBy(u, z))
        {
        }
      }
      hide OwnIds;
    }
  }

  lemma DrainStartSafe(u: Setup, p: Peer, now: nat)
    requires SendsKept(u, p)
    ensures SendsKept(u, p.(due := p.due + set t | t in DueTasks(p.device.tasks, now)))
  {
    var p' := p.(due := p.due + set t | t in DueTasks(p.device.tasks, now));
    assert forall i, q :: Names(p', i, q) ==> Names(p, i, q);
    NamesStay(u, p, p');
    hide OwnIds, Names, HasOpenTask, DueTasks;
    forall x | x in p'.handed ensures Safe(u, p', x) { assert Safe(u, p, x); }
  }

  lemma ResendSafe(u: Setup, p: Peer, ev: Event)
    requires ev.Resend? && SendsKept(u, p)
    ensures SendsKept(u, Resent(p, ev))
  {
    var p' := Resent(p, ev);
    if ev.task in p.due && ev.task.payload.SendPacket? {
      assert Names(p, ev.task.id, ev.task.payload);
      assert ForSend(u, p, ev.task.id, ev.task.payload);
      NamesSame(p, p');
      NamesStay(u, p, p');
      hide OwnIds, Names, HasOpenTask;
      forall x | x in p'.handed ensures Safe(u, p', x) { assert Safe(u, p, x); }
    }
  }

  lemma DrainAnswerSafe(u: Setup, p: Peer, ev: Event)
    requires ev.DrainAnswer? && SendsKept(u, p)
    ensures SendsKept(u, DrainAnswered(u, p, ev))
  {
    var p', t := DrainAnswered(u, p, ev), ev.task;
    if t in p.due {
      var ok := ev.accepted && !(t.payload.AckMessage? && t.payload.msgId == []);
      DrainReplyTasks(u, p.device, t.id, ok, ev.now);
      assert Names(p, t.id, t.payload);
      hide DrainReply, From, HasOpenTask;
      NamesOld(p, p');
      NamesStay(u, p, p');
      forall z | z in p'.handed ensures Safe(u, p', z) {
        assert Safe(u, p, z);
        forall i | HasOpenTask(p.device.tasks, i, HeldBy(u, z))
          ensures z in p'.accepted || HasOpenTask(p'.device.tasks, i, HeldBy(u, z))
        {
          OpenIsNamed(p, i, HeldBy(u, z));
        }
        SafeLater(u, p, p', z);
      }
      hide OwnIds, Names;
    }
  }

  lemma ActedSafe(c: Config, w: World, ev: Event)
    requires SendsKept(c.At(ev.side), w.At(ev.side)) && KeepsPackets(c, w, ev)
    ensures SendsKept(c.At(ev.side), C.Acted(c, w, ev))
  {
    hide SendsKept, S.Run, SendBy, SendAnswered, Delivered, AckAnswered, Resent, DrainAnswered, Restarted, Unused;
    hide QueuesSend, Collides;
    var u, p := c.At(ev.side), w.At(ev.side);
    match ev
    case Send(_, _, _, _, _) => SendSafe(u, p, ev);
    case SendAnswer(_, _, _, _, _, _) => SendAnswerSafe(u, p, ev);
    case Delivery(side, _, body, _) =>
      DeliveredApart(u, p, w.At(side.Other()), c.k.name(S.Run(c.k, w.trace).At(side).epoch + 2),
                     C.IndexOf(c, w, side, body), ev);
      SameSends(u, p, C.Acted(c, w, ev));
    case AckAnswer(_, _, _, _, _) => AckAnswerSafe(u, p, ev);
    case DrainStart(_, now) => DrainStartSafe(u, p, now);
    case Resend(_, _) => ResendSafe(u, p, ev);
    case DrainAnswer(_, _, _, _) => DrainAnswerSafe(u, p, ev);
    case Restart(_) =>
      RestartedApart(p);
      SameSends(u, p, Restarted(p));
  }

  lemma DeliveredApart(u: Setup, p: Peer, other: Peer, freshDh: nat, index: nat, ev: Event)
    requires ev.Delivery?
    ensures var p' := Delivered(u, p, other, freshDh, index, ev).0;
            && p'.device.tasks == p.device.tasks && p'.due == p.due && p'.sending == p.sending
            && p'.handed == p.handed && p'.accepted == p.accepted
  {
    hide R.Decrypt;
  }

  lemma RestartedApart(p: Peer)
    requires p.sending == multiset{}
    ensures var p' := Restarted(p);
            && p'.device.tasks == p.device.tasks && p'.due <= p.due && p'.sending == p.sending
            && p'.handed == p.handed && p'.accepted == p.accepted
  {
  }

  lemma FreshSafe(u: Setup, r: R.State, tasks: seq<Task>)
    requires |tasks| <= MAX_LIST_ITEMS && forall t :: t in tasks ==> !t.payload.SendPacket?
    ensures SendsKept(u, Fresh(r, tasks))
  {
  }

  lemma {:induction false} RunKeepsSends(c: Config, events: seq<Event>, side: S.Side)
    requires c.Valid() && KeptUp(c, events, side)
    ensures SendsKept(c.At(side), Run(c, events).At(side))
  {
    if events == [] {
      hide SendsKept, Fresh;
      var s := S.Start(c.k);
      FreshSafe(c.At(side), s.At(side).state, c.tasks(side));
      assert Start(c).At(side) == Fresh(s.At(side).state, c.tasks(side));
    } else {
      var before, ev := events[..|events| - 1], events[|events| - 1];
      RunKeepsSends(c, before, side);
      hide Step, SendsKept, C.Acted, KeepsPackets, Config.Valid;
      C.StepActs(c, Run(c, before), ev);
      if ev.side == side { ActedSafe(c, Run(c, before), ev); }
      assert side == ev.side || side == ev.side.Other();
    }
  }

  /** Every packet a side sealed was handed to the transport. */
  ghost predicate SealedHanded(c: Config, w: World, side: S.Side) {
    forall x :: x in S.Run(c.k, w.trace).At(side).sent ==> x.packet in w.At(side).handed
  }

  lemma {:induction false} SealedIsHanded(c: Config, events: seq<Event>, side: S.Side)
    requires c.Valid()
    ensures SealedHanded(c, Run(c, events), side)
  {
    if events == [] {
      StartSealed(c, side);
    } else {
      var before := events[..|events| - 1];
      SealedIsHanded(c, before, side);
      C.RunKeeps(c, before);
      hide Step, Inv, SealedHanded, Config.Valid;
      SealedNext(c, Run(c, before), events[|events| - 1], side);
    }
  }

  lemma SealedNext(c: Config, w: World, ev: Event, side: S.Side)
    requires Inv(c, w) && SealedHanded(c, w, side)
    ensures SealedHanded(c, Step(c, w, ev), side)
  {
    InvAt(c, w, ev.side);
    StepSends(c, w, ev, side);
    SealedLater(c, w, Step(c, w, ev), side);
    hide Inv, Step, S.Run, SealedHanded;
  }

  lemma StartSealed(c: Config, side: S.Side)
    ensures SealedHanded(c, Start(c), side)
  {
    assert S.Run(c.k, []) == S.Start(c.k);
  }

  lemma SealedLater(c: Config, w: World, w': World, side: S.Side)
    requires SealedHanded(c, w, side) && w.At(side).handed <= w'.At(side).handed
    requires var sent, sent' := S.Run(c.k, w.trace).At(side).sent, S.Run(c.k, w'.trace).At(side).sent;
             sent <= sent' && (sent' == sent || (|sent'| == |sent| + 1 && sent'[|sent|].packet in w'.At(side).handed))
    ensures SealedHanded(c, w', side)
  {
    hide S.Run;
  }

  lemma InvAt(c: Config, w: World, side: S.Side)
    requires Inv(c, w)
    ensures w.At(side).device.ratchet == S.Run(c.k, w.trace).At(side).state
  {
    hide S.Run;
  }

  /** What one event adds to the sealed packets it also hands over. */
  lemma StepSends(c: Config, w: World, ev: Event, side: S.Side)
    requires w.At(ev.side).device.ratchet == S.Run(c.k, w.trace).At(ev.side).state
    ensures var w' := Step(c, w, ev);
            var sent, sent' := S.Run(c.k, w.trace).At(side).sent, S.Run(c.k, w'.trace).At(side).sent;
            && sent <= sent' && w.At(side).handed <= w'.At(side).handed
            && (sent' == sent || (|sent'| == |sent| + 1 && sent'[|sent|].packet in w'.At(side).handed))
  {
    hide S.Run;
    var p := w.At(ev.side);
    assert w.trace + [] == w.trace;
    match ev
    case Send(_, _, _, _, _) => SendSends(c, w, ev, side);
    case Delivery(_, _, _, _) => DeliverySends(c, w, ev, side);
    case SendAnswer(_, _, _, _, _, _) => hide SendReply;
    case AckAnswer(_, _, _, _, _) => hide AckFails, Queues;
    case DrainStart(_, _) =>
    case Resend(_, _) =>
    case DrainAnswer(_, _, _, _) => hide DrainReply;
    case Restart(_) =>
  }

  lemma SendSends(c: Config, w: World, ev: Event, side: S.Side)
    requires ev.Send? && w.At(ev.side).device.ratchet == S.Run(c.k, w.trace).At(ev.side).state
    ensures var w' := Step(c, w, ev);
            var sent, sent' := S.Run(c.k, w.trace).At(side).sent, S.Run(c.k, w'.trace).At(side).sent;
            && sent <= sent' && w.At(side).handed <= w'.At(side).handed
            && (sent' == sent || (|sent'| == |sent| + 1 && sent'[|sent|].packet in w'.At(side).handed))
  {
    hide S.Run, R.Encrypt;
    var p, events := w.At(ev.side), SendBy(w.At(ev.side), ev).1;
    assert w.trace + [] == w.trace;
    if events != [] {
      C.SendEvents(p, ev);
      C.TraceGrows(c.k, w.trace, events[0], events[1]);
    }
  }

  lemma DeliverySends(c: Config, w: World, ev: Event, side: S.Side)
    requires ev.Delivery?
    ensures var w' := Step(c, w, ev);
            var sent, sent' := S.Run(c.k, w.trace).At(side).sent, S.Run(c.k, w'.trace).At(side).sent;
            sent == sent' && w.At(side).handed == w'.At(side).handed
  {
    hide S.Run, Delivered, Step, C.IndexOf;
    var other, index := w.At(ev.side.Other()), C.IndexOf(c, w, ev.side, ev.body);
    var freshDh := c.k.name(S.Run(c.k, w.trace).At(ev.side).epoch + 2);
    C.DeliveryStepIs(c, w, ev);
    DeliveredApart(c.At(ev.side), w.At(ev.side), other, freshDh, index, ev);
    var events := Delivered(c.At(ev.side), w.At(ev.side), other, freshDh, index, ev).1;
    if events == [] {
      assert w.trace + [] == w.trace;
    } else {
      DeliveredOpens(c.At(ev.side), w.At(ev.side), other, freshDh, index, ev);
      C.TraceGrows(c.k, w.trace, events[0], events[1]);
      hide R.Decrypt;
    }
  }

  /** With client message ids used once, retries left on, room for every send task, and no
      restart during a send, every packet a side ever sealed was accepted by the broker, is
      in flight, or is in an open task that will repeat it. */
  lemma AcceptedOrQueued(c: Config, events: seq<Event>, side: S.Side, i: nat)
    requires c.Valid() && KeptUp(c, events, side) && i < |S.Run(c.k, Run(c, events).trace).At(side).sent|
    ensures var p, x := Run(c, events).At(side), S.Run(c.k, Run(c, events).trace).At(side).sent[i].packet;
            || x in p.accepted
            || (exists m :: (m, x) in p.sending)
            || (exists m :: HasOpenTask(p.device.tasks, SendTaskId(c.At(side).contactId, m), HeldBy(c.At(side), x)))
  {
    RunKeepsSends(c, events, side);
    SealedIsHanded(c, events, side);
    var p := Run(c, events).At(side);
    assert S.Run(c.k, Run(c, events).trace).At(side).sent[i] in S.Run(c.k, Run(c, events).trace).At(side).sent;
    assert Safe(c.At(side), p, S.Run(c.k, Run(c, events).trace).At(side).sent[i].packet);
    hide Run, S.Run, OwnIds, HasOpenTask;
  }

  /** After every run: the initiator, and the responder once it has read something, can
      send every text that fits; what it then does is hand over one packet of that text.
      No other send does anything. */
  lemma SendsExactly(c: Config, events: seq<Event>, ev: Event)
    requires c.Valid() && ev.Send?
    ensures var w := Run(c, events);
            var w' := Step(c, w, ev);
            var p, p' := w.At(ev.side), w'.At(ev.side);
            if (ev.side.Initiator? || p.read != [])
               && if ev.paddedLength == 0 then |ev.text| <= 65533 else |ev.text| + 2 <= ev.paddedLength <= 65535
            then |p'.handed| == |p.handed| + 1
                 && var x := p'.handed[|p.handed|];
                    && p'.handed == p.handed + [x] && x.box.plaintext == ev.text && x.nonce == ev.nonce
                    && p' == p.(handed := p'.handed, sending := p.sending + multiset{(ev.clientMessageId, x)},
                                device := p.device.(ratchet := p'.device.ratchet))
            else w' == w
  {
    var w := Run(c, events);
    C.RunKeeps(c, events);
    N.ChainInRun(c.k, w.trace, ev.side);
    hide Run, S.Run, Config.Valid;
    MaySendAt(c, w, ev.side);
    hide Inv, R.Encrypt;
    R.SealsExactly(w.At(ev.side).device.ratchet, ev.text, ev.nonce, ev.paddedLength);
    C.NothingSaid(w, ev.side);
  }

  lemma MaySendAt(c: Config, w: World, side: S.Side)
    requires Inv(c, w)
    ensures w.At(side).device.ratchet == S.Run(c.k, w.trace).At(side).state
    ensures N.MaySend(side, S.Run(c.k, w.trace).At(side)) <==> side.Initiator? || w.At(side).read != []
  {
    hide S.Run;
    assert PeerOk(c.At(side), S.Run(c.k, w.trace).At(side), w.At(side));
  }
}
