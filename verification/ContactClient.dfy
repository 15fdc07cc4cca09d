/** The contact client working in place on its durable store and retry scheduler: one
    method for each stretch between two awaits, and the loops over tasks and queues
    (src/browser-simplex-contact-client.mjs). */
module ContactClient {
  import opened Outcomes
  import opened Bytes
  import opened Store
  import opened ContactRecords
  import opened Scheduler
  import opened RetryTasks
  import opened ContactDevice
  import opened ContactHandshake
  import R = Ratchet
  import S = RatchetSession

  datatype ContactFault =
    | NotLoaded(fault: StoreFault) | MissingContact | WrongState | MissingQueue | MissingRatchet
    | NotEncrypted(ratchet: R.Fault) | NotRead(why: Refusal)
    | NotScheduled(task: SchedulerFault) | NotDeleted(queue: StoreFault)
    | TransportFailed

  /** The store shows this device to the contact of `u`, as far as messages with these ids
      are concerned. */
  ghost predicate Shows(s: Shelf<Record>, u: Setup, d: Device, ids: set<bytes>) {
    && Keeps(s, u.fits) && SafePart(u.contactId) && u.naming.Valid()
    && s.Load("ratchet", u.contactId) == Ok(Some(RatchetRecord(d.ratchet)))
    && (forall m :: m in ids ==> s.Load("received", u.RecordId(m))
                                 == Ok(if u.RecordId(m) in d.seen then Some(ReceivedRecord(d.seen[u.RecordId(m)])) else None))
    && StoredTasks(s) == Ok(d.tasks)
  }

  /** The retry list, the ratchet of this contact and these received records. */
  predicate Own(u: Setup, records: set<string>, kind: string, id: string) {
    || kind == "pending"
    || (kind == "ratchet" && id == u.contactId)
    || (kind == "received" && id in records)
  }

  /** All else is as before. */
  ghost predicate OthersKept(s: Shelf<Record>, t: Shelf<Record>, u: Setup, records: set<string>) {
    && t.ns == s.ns && t.trip == s.trip
    && (forall kind, id :: ColonFree(kind) && kind != "list" && !Own(u, records, kind, id) ==>
      t.Load(kind, id) == s.Load(kind, id))
  }

  lemma RecordSaved(s: Shelf<Record>, fits: seq<Task> -> bool, kind: string, id: string, r: Record)
    requires Keeps(s, fits) && ColonFree(kind) && kind != "list" && SafePart(kind) && SafePart(id) && !r.PendingRecord?
    ensures s.Save(kind, id, r).Ok?
    ensures var t := s.Save(kind, id, r).value;
            && t.ns == s.ns && t.trip == s.trip && Keeps(t, fits)
            && t.Load(kind, id) == Ok(Some(RecordTrip(fits, r).value))
            && (forall kind', id' :: ColonFree(kind') && kind' != "list" && !(kind == kind' && id == id') ==>
                  t.Load(kind', id') == s.Load(kind', id'))
  {
    assert s.trip(r) == RecordTrip(fits, r);
    forall kind', id' | ColonFree(kind') && kind' != "list"
      ensures s.Save(kind, id, r).value.Load(kind', id') ==
              if kind == kind' && id == id' then Ok(Some(RecordTrip(fits, r).value)) else s.Load(kind', id')
    {
      SaveLoads(s, kind, id, r, kind', id');
    }
  }

  lemma KindNames()
    ensures forall kind ::
              kind == "ratchet" || kind == "received" || kind == "contact" || kind == "queue" || kind == "pending" ==>
              ColonFree(kind) && SafePart(kind) && kind != "list"
  {
  }

  lemma RatchetSaved(s: Shelf<Record>, u: Setup, d: Device, ids: set<bytes>, state: R.State)
    requires Shows(s, u, d, ids)
    ensures var r := s.Save("ratchet", u.contactId, RatchetRecord(state));
            && r.Ok? && Shows(r.value, u, d.(ratchet := S.Reloaded(state)), ids) && OthersKept(s, r.value, u, {})
  {
    KindNames();
    hide Shelf.Save, Shelf.Load, Keeps, SafePart, ColonFree, Naming.received;
    RecordSaved(s, u.fits, "ratchet", u.contactId, RatchetRecord(state));
    assert "received"[2] == 'c' && "ratchet"[2] == 't' && "pending"[0] == 'p';
  }

  lemma ReceivedWritten(s: Shelf<Record>, t: Shelf<Record>, u: Setup, d: Device, ids: set<bytes>, id: string,
                        received: Received)
    requires Shows(s, u, d, ids) && Wrote(s, t, "received", id, ReceivedRecord(received))
    ensures Shows(t, u, d.(seen := d.seen[id := received]), ids) && OthersKept(s, t, u, {id})
  {
    KindNames();
    hide Shelf.Load, SafePart, ColonFree, Naming.received;
    assert "received"[2] == 'c' && "ratchet"[2] == 't' && "pending"[0] == 'p';
  }

  lemma ReceivedSaved(s: Shelf<Record>, u: Setup, d: Device, ids: set<bytes>, m: bytes, received: Received)
    requires Shows(s, u, d, ids)
    ensures var id := u.RecordId(m);
            var r := s.Save("received", id, ReceivedRecord(received));
            && r.Ok? && Shows(r.value, u, d.(seen := d.seen[id := received]), ids) && OthersKept(s, r.value, u, {id})
  {
    KindNames();
    RecordIdSafe(u.naming, u.contactId, m);
    RecordSaved(s, u.fits, "received", u.RecordId(m), ReceivedRecord(received));
    ReceivedWritten(s, s.Save("received", u.RecordId(m), ReceivedRecord(received)).value, u, d, ids, u.RecordId(m), received);
  }

  lemma TasksSaved(s: Shelf<Record>, t: Shelf<Record>, u: Setup, d: Device, ids: set<bytes>, tasks: seq<Task>)
    requires Shows(s, u, d, ids) && OnlyPending(s, t) && StoredTasks(t) == Ok(tasks)
    ensures Shows(t, u, d.(tasks := tasks), ids) && OthersKept(s, t, u, {})
  {
    hide Shelf.Load, Naming.received;
  }

  lemma KeptTwice(s: Shelf<Record>, t: Shelf<Record>, r: Shelf<Record>, u: Setup, a: set<string>, b: set<string>)
    requires OthersKept(s, t, u, a) && OthersKept(t, r, u, b) && a <= b
    ensures OthersKept(s, r, u, b)
  {
  }

  /** A stretch of one contact leaves the device of another as it was, but for the shared
      retry list, unless a message record of the other has a hash that collides with one
      the stretch wrote. */
  lemma OtherDeviceKept(s: Shelf<Record>, t: Shelf<Record>, u: Setup, records: set<string>,
                        other: Setup, d: Device, ids: set<bytes>)
    requires OthersKept(s, t, u, records) && Shows(s, other, d, ids) && other.contactId != u.contactId
    requires StoredTasks(t).Ok? && forall m :: m in ids ==> other.RecordId(m) !in records
    ensures Shows(t, other, d.(tasks := StoredTasks(t).value), ids)
  {
    KindNames();
    hide Shelf.Load, Naming.received, SafePart, ColonFree;
    assert "received"[2] == 'c' && "ratchet"[2] == 't' && "pending"[0] == 'p';
  }

  /** Every device a run starts from is shown by some store. */
  lemma ShowsHolds(u: Setup, ratchet: R.State, ids: set<bytes>)
    requires u.naming.Valid() && SafePart(u.contactId) && S.Reloaded(ratchet) == ratchet
    ensures exists s: Shelf<Record> :: Shows(s, u, Device(ratchet, map[], []), ids)
  {
    KindNames();
    var empty := Shelf("web", r => RecordTrip(u.fits, r), map[]);
    EmptyLoads(empty, u.fits);
    RecordSaved(empty, u.fits, "ratchet", u.contactId, RatchetRecord(ratchet));
    var s := empty.Save("ratchet", u.contactId, RatchetRecord(ratchet)).value;
    forall m ensures SafePart(u.RecordId(m)) { RecordIdSafe(u.naming, u.contactId, m); }
    hide Shelf.Load, Shelf.Save, SafePart, ColonFree, Keeps, Naming.received, Naming.Valid;
    assert "received"[2] == 'c' && "ratchet"[2] == 't' && "pending"[0] == 'p';
    assert Shows(s, u, Device(ratchet, map[], []), ids);
  }

  lemma EmptyLoads(s: Shelf<Record>, fits: seq<Task> -> bool)
    requires s.cells == map[] && s.trip == (r => RecordTrip(fits, r))
    ensures Keeps(s, fits) && StoredTasks(s) == Ok([])
    ensures forall kind, id :: SafePart(kind) && SafePart(id) ==> s.Load(kind, id) == Ok(None)
  {
  }

  /** What a contact's store shows once its handshake has stored a ratchet and none of
      these messages has come yet. */
  lemma EndShows(s: Shelf<Record>, u: Setup, e: End, ids: set<bytes>)
    requires Keeps(s, u.fits) && SafePart(u.contactId) && u.naming.Valid() && StoredTasks(s).Ok?
    requires ShowsEnd(s, u.contactId, e) && e.ratchet.Some?
    requires forall m :: m in ids ==> s.Load("received", u.RecordId(m)) == Ok(None)
    ensures Shows(s, u, Device(e.ratchet.value, map[], StoredTasks(s).value), ids)
  {
  }

  /** When a text can be sent: the contact is active, its queue is known, the ratchet has a
      sending chain, and the text fits. */
  predicate Sends(s: Shelf<Record>, id: string, d: Device, text: string, paddedLength: nat) {
    && (match s.Load("contact", id)
        case Ok(Some(ContactRecord(c))) => c.phase == Active && OutboundIn(s, c).Ok?
        case _ => false)
    && d.ratchet.sendingChain.Some?
    && if paddedLength == 0 then |text| <= 65533 else |text| + 2 <= paddedLength <= 65535
  }

  lemma SendsIfPrepared(s: Shelf<Record>, id: string, d: Device, text: string, nonce: nat, paddedLength: nat)
    ensures var contact := ContactIn(s, id, Active);
            Sends(s, id, d, text, paddedLength) <==>
              contact.Ok? && OutboundIn(s, contact.value).Ok? && Prepare(d, text, nonce, paddedLength).Ok?
  {
    R.SealsExactly(d.ratchet, text, nonce, paddedLength);
    hide Shelf.Load, OutboundIn;
  }

  class BrowserSimplexContactClient {
    const store: BrowserSimplexStore<Record>
    const scheduler: BrowserSimplexRetryScheduler
    const naming: Naming
    const payloadOk: string -> bool

    ghost predicate Valid()
      reads this, store, scheduler
    {
      scheduler.store == store && scheduler.Valid() && naming.Valid()
    }

    /** The setup speaks of this client. */
    ghost predicate Mine(u: Setup)
      reads this, store, scheduler
    {
      u.naming == naming && u.payloadOk == payloadOk && u.fits == scheduler.fits && u.delay == scheduler.delay
    }

    constructor (store: BrowserSimplexStore<Record>, scheduler: BrowserSimplexRetryScheduler, naming: Naming,
                 payloadOk: string -> bool)
      requires scheduler.Valid() && scheduler.store == store && naming.Valid()
      ensures Valid() && this.store == store && this.scheduler == scheduler && this.naming == naming
              && this.payloadOk == payloadOk
    {
      this.store, this.scheduler, this.naming, this.payloadOk := store, scheduler, naming, payloadOk;
    }

    method LoadContact(id: string, phase: Phase) returns (r: Result<Contact, ContactFault>)
      requires Valid()
      ensures r == ContactIn(store.Contents(), id, phase)
    {
      return ContactIn(store.Contents(), id, phase);
    }

    /** sendPlaintext up to the send. */
    method PrepareSend(id: string, text: string, nonce: nat, paddedLength: nat,
                       ghost u: Setup, ghost d: Device, ghost ids: set<bytes>)
      returns (r: Result<R.Packet, ContactFault>)
      requires Valid() && Mine(u) && u.contactId == id && Shows(store.Contents(), u, d, ids)
      modifies store
      ensures Valid() && OthersKept(old(store.Contents()), store.Contents(), u, {})
      ensures r.Err? ==> store.Contents() == old(store.Contents())
      ensures var contact := ContactIn(old(store.Contents()), id, Active);
              if contact.Err? then r == Err(contact.error)
              else if OutboundIn(old(store.Contents()), contact.value).Err? then
                r == Err(OutboundIn(old(store.Contents()), contact.value).error)
              else match Prepare(d, text, nonce, paddedLength)
                   case Err(e) => r == Err(NotEncrypted(e))
                   case Ok((d', packet)) => r == Ok(packet) && Shows(store.Contents(), u, d', ids)
      ensures r.Ok? <==> Sends(old(store.Contents()), id, d, text, paddedLength)
    {
      SendsIfPrepared(store.Contents(), id, d, text, nonce, paddedLength);
      hide Shelf.Load, Sends;
      var contact := LoadContact(id, Active);
      if contact.Err? { return Err(contact.error); }
      var queue := OutboundIn(store.Contents(), contact.value);
      if queue.Err? { return Err(queue.error); }
      var ratchet := store.Load("ratchet", id);
      var encrypted := R.EncryptRatchetMessage(ratchet.value.value.ratchet, text, nonce, paddedLength);
      if encrypted.Err? { return Err(NotEncrypted(encrypted.error)); }
      var (state, packet) := encrypted.value;
      RatchetSaved(store.Contents(), u, d, ids, state);
      var _ := store.Save("ratchet", id, RatchetRecord(state));
      return Ok(packet);
    }

    /** sendPlaintext after the transport answered. */
    method SendAnswered(id: string, clientMessageId: string, packet: R.Packet, accepted: bool, retry: bool, now: nat,
                        ghost u: Setup, ghost d: Device, ghost ids: set<bytes>) returns (fault: Option<ContactFault>)
      requires Valid() && Mine(u) && u.contactId == id && Shows(store.Contents(), u, d, ids)
      modifies store, scheduler
      ensures Valid() && OthersKept(old(store.Contents()), store.Contents(), u, {})
      ensures Shows(store.Contents(), u, SendReply(u, d, clientMessageId, packet, accepted, retry, now), ids)
      ensures fault.None? <==> accepted && Completed(u.fits, d.tasks, SendTaskId(id, clientMessageId), now).Some?
    {
      hide Shelf.Load, Completed, Requeued, Requeues;
      var taskId := SendTaskId(id, clientMessageId);
      ghost var s := store.Contents();
      if accepted {
        var completed := scheduler.Complete(taskId, now);
        if completed.None? {
          TasksSaved(s, store.Contents(), u, d, ids, Completed(u.fits, d.tasks, taskId, now).value);
          return None;
        }
      }
      if retry {
        var _ := scheduler.Requeue(taskId, SendPacket(id, OutboxId(id), packet), now);
        TasksSaved(s, store.Contents(), u, d, ids, scheduler.Stored());
      }
      return Some(TransportFailed);
    }

    /** receiveNext from the arrival of a body to its ACK. */
    method TakeBody(id: string, queue: Queue, msgId: bytes, body: Mail, freshDh: nat,
                    ghost u: Setup, ghost d: Device, ghost ids: set<bytes>)
      returns (outcome: Outcome, known: bool)
      requires Valid() && Mine(u) && u.contactId == id && u.queue == queue && Shows(store.Contents(), u, d, ids)
      requires msgId in ids
      modifies store
      ensures Valid() && OthersKept(old(store.Contents()), store.Contents(), u, {u.RecordId(msgId)})
      ensures var (d', expected) := Take(u, d, msgId, body, freshDh);
              Shows(store.Contents(), u, d', ids) && outcome == expected
                  && (!outcome.Refuses? ==> known == d'.seen[u.RecordId(msgId)].acknowledged)
    {
      hide Shelf.Load, Shelf.Save, R.Decrypt, OthersKept, Keeps;
      ghost var s := store.Contents();
      KeptSame(s, u, {u.RecordId(msgId)});
      var seenId := naming.received(id, msgId);
      var seen := store.Load("received", seenId);
      assert seen == Ok(if seenId in d.seen then Some(ReceivedRecord(d.seen[seenId])) else None);
      if seen.value.Some? {
        var before := seen.value.value.received;
        return if before.body != body then Refuses(Replay) else Duplicate, before.acknowledged;
      }
      if body.serverSecret != queue.serverSecret || body.nonce != IdNonce(msgId) { return Refuses(Sealed), false; }
      if body.packet.None? { return Refuses(NoPacket), false; }
      var ratchet := store.Load("ratchet", id);
      var decrypted := R.DecryptRatchetMessage(ratchet.value.value.ratchet, body.packet.value, freshDh);
      if decrypted.Err? { return Refuses(Refusal.Ratchet(decrypted.error)), false; }
      var (state, text) := decrypted.value;
      if !payloadOk(text) { return Refuses(BadPayload), false; }
      var received := Received(id, msgId, body, false, false);
      RatchetSaved(s, u, d, ids, state);
      var _ := store.Save("ratchet", id, RatchetRecord(state));
      ghost var t := store.Contents();
      ReceivedSaved(t, u, d.(ratchet := S.Reloaded(state)), ids, msgId, received);
      var _ := store.Save("received", seenId, ReceivedRecord(received));
      KeptTwice(s, t, store.Contents(), u, {}, {seenId});
      return Opens(text), false;
    }

    /** The record of a message saved again with what became of its ACK. */
    method NoteAck(id: string, msgId: bytes, ackPending: bool, acknowledged: bool,
                   ghost u: Setup, ghost d: Device, ghost ids: set<bytes>)
      requires Valid() && Mine(u) && u.contactId == id && Shows(store.Contents(), u, d, ids) && msgId in ids
      requires u.RecordId(msgId) in d.seen
      modifies store
      ensures Valid() && OthersKept(old(store.Contents()), store.Contents(), u, {u.RecordId(msgId)})
      ensures Shows(store.Contents(), u, Note(d, u.RecordId(msgId), ackPending, acknowledged), ids)
    {
      hide Shelf.Load, Shelf.Save, OthersKept, Keeps, Naming.received;
      ghost var s := store.Contents();
      var seen := store.Load("received", naming.received(id, msgId));
      var noted := seen.value.value.received.(ackPending := ackPending, acknowledged := acknowledged);
      ReceivedSaved(s, u, d, ids, msgId, noted);
      var _ := store.Save("received", naming.received(id, msgId), ReceivedRecord(noted));
    }

    /** acknowledgeOrQueue once the broker has answered, and the record saved again. */
    method Acknowledged(id: string, msgId: bytes, known: bool, acknowledge: bool, accepted: bool, retry: bool, now: nat,
                        ghost u: Setup, ghost d: Device, ghost ids: set<bytes>) returns (fault: Option<ContactFault>)
      requires Valid() && Mine(u) && u.contactId == id && Shows(store.Contents(), u, d, ids) && msgId in ids
      requires u.RecordId(msgId) in d.seen
      modifies store, scheduler
      ensures Valid() && OthersKept(old(store.Contents()), store.Contents(), u, {u.RecordId(msgId)})
      ensures Shows(store.Contents(), u,
                if !acknowledge then Note(d, u.RecordId(msgId), false, known)
                else if accepted then Note(d, u.RecordId(msgId), false, true)
                else if !retry then d
                else AckFails(u, d, Ack(msgId, known), now), ids)
    {
      ghost var s := store.Contents();
      assert StoredTasks(s) == Ok(d.tasks);
      hide Shelf.Load, Shows, OthersKept, Keeps, Requeued, Requeues, Naming.received, Naming.ack;
      KeptSame(s, u, {u.RecordId(msgId)});
      if acknowledge && !accepted {
        if !retry { return Some(TransportFailed); }
        var queued := scheduler.Requeue(naming.ack(id, msgId), AckMessage(id, InboxId(id), msgId), now);
        ghost var t := store.Contents();
        TasksSaved(s, t, u, d, ids, scheduler.Stored());
        KeptSame(t, u, {u.RecordId(msgId)});
        KeptTwice(s, t, t, u, {}, {u.RecordId(msgId)});
        if queued.Some? { return Some(NotScheduled(queued.value)); }
        NoteAck(id, msgId, true, known, u, d.(tasks := scheduler.Stored()), ids);
        KeptTwice(s, t, store.Contents(), u, {u.RecordId(msgId)}, {u.RecordId(msgId)});
      } else {
        NoteAck(id, msgId, false, if acknowledge then true else known, u, d, ids);
      }
      return None;
    }

    /** receiveNext with nothing between its stretches. */
    method ReceiveNext(id: string, msgId: bytes, body: Mail, freshDh: nat, acknowledge: bool, accepted: bool,
                       retry: bool, now: nat,
                       ghost u: Setup, ghost d: Device, ghost ids: set<bytes>) returns (r: Result<Outcome, ContactFault>)
      requires Valid() && Mine(u) && u.contactId == id && Shows(store.Contents(), u, d, ids)
      requires QueueIn(store.Contents(), InboxId(id)) == Ok(u.queue) && msgId in ids
      modifies store, scheduler
      ensures Valid() && OthersKept(old(store.Contents()), store.Contents(), u, {u.RecordId(msgId)})
      ensures ContactIn(old(store.Contents()), id, Active).Err? ==> r.Err? && store.Contents() == old(store.Contents())
      ensures ContactIn(old(store.Contents()), id, Active).Ok? ==>
                var (d', outcome) := Receive(u, d, msgId, body, freshDh, acknowledge, accepted, retry, now);
                && Shows(store.Contents(), u, d', ids)
                && (outcome.Refuses? ==> r == Err(NotRead(outcome.why)))
                && (r.Ok? ==> r == Ok(outcome))
    {
      hide Shelf.Load, Shows, OthersKept, Take, AckFails;
      KeptSame(store.Contents(), u, {u.RecordId(msgId)});
      var contact := LoadContact(id, Active);
      if contact.Err? { return Err(contact.error); }
      var queue := QueueIn(store.Contents(), InboxId(id));
      ghost var s := store.Contents();
      var outcome, known := TakeBody(id, queue.value, msgId, body, freshDh, u, d, ids);
      if outcome.Refuses? { return Err(NotRead(outcome.why)); }
      ghost var t, taken := store.Contents(), Take(u, d, msgId, body, freshDh).0;
      TakenIsSeen(u, d, msgId, body, freshDh);
      var fault := Acknowledged(id, msgId, known, acknowledge, accepted, retry, now, u, taken, ids);
      KeptTwice(s, t, store.Contents(), u, {u.RecordId(msgId)}, {u.RecordId(msgId)});
      if fault.Some? { return Err(fault.value); }
      return Ok(outcome);
    }

    /** One attempt answered: completed, or failed once more. */
    method AnswerTask(id: string, ok: bool, now: nat) returns (fate: Fate)
      requires Valid()
      modifies store, scheduler
      ensures Valid() && OnlyPending(old(store.Contents()), store.Contents())
      ensures var r := Answered(scheduler.fits, old(scheduler.Stored()), id, ok, now, scheduler.delay);
              scheduler.Stored() == if r.Some? then r.value else old(scheduler.Stored())
      ensures |old(scheduler.Stored())| <= 1000 ==>
                AnsweredSo(scheduler.fits, old(scheduler.Stored()), scheduler.Stored(), id, ok, now, scheduler.delay, fate)
      ensures fate.Completes? ==> ok
      ensures fate.Throws? <==> Answered(scheduler.fits, old(scheduler.Stored()), id, ok, now, scheduler.delay).None?
    {
      hide Shelf.Load, OnlyPending, Completed, Failed, AnsweredSo;
      SamePending(store.Contents());
      if |scheduler.Stored()| <= 1000 {
        AnsweredExactly(scheduler.fits, scheduler.Stored(), id, ok, now, scheduler.delay);
      }
      if ok {
        var completed := scheduler.Complete(id, now);
        if completed.None? { return Completes; }
      }
      var failed := scheduler.Fail(id, now);
      return if failed.None? then Waits else Throws;
    }

    /** drainDueRetries: each due task in turn, its attempt answered by `verdict`.  A packet
        task sends its stored packet; ratchets and records are not touched.  The attempts
        are those of the first due tasks in list order, at most `limit`, or 25 without one,
        and stop early only where one throws. */
    method DrainDueRetries(now: nat, limit: nat, verdict: nat -> bool)
      returns (attempts: seq<Attempt>, fault: Option<ContactFault>, ghost at: seq<nat>)
      requires Valid()
      modifies store, scheduler
      ensures Valid() && OnlyPending(old(store.Contents()), store.Contents())
      ensures var due := Chosen(DueTasks(old(scheduler.Stored()), now), limit);
              scheduler.Stored() == Drained(scheduler.fits, old(scheduler.Stored()), due,
                                            Verdicts(old(store.Contents()), due, verdict), now, scheduler.delay)
      ensures Positions(old(scheduler.Stored()), (t: Task) => t.completedAt == 0 && t.nextAttemptAt <= now, at)
      ensures Attempted(old(store.Contents()), TasksAt(old(scheduler.Stored()), at), attempts, verdict)
      ensures var most := if limit == 0 then 25 else limit;
              |attempts| <= most && (fault.None? ==> |attempts| == if |at| <= most then |at| else most)
      ensures DistinctIds(old(scheduler.Stored())) && |old(scheduler.Stored())| <= 1000 ==>
                DrainedSo(old(scheduler.Stored()), scheduler.Stored(), at, attempts, now, scheduler.delay)
      ensures StopsAt(attempts, fault.Some?)
      ensures NoneRefused(old(scheduler.Stored()), scheduler.fits) && |old(scheduler.Stored())| <= 1000 ==>
                fault.None? && AllTried(old(store.Contents()), TasksAt(old(scheduler.Stored()), at), attempts, verdict)
    {
      hide Drained, Verdicts, Attempted, AllTried, NoneRefused, Reachable, DueTasks, DrainedSo, OnlyPending, Shelf.Load;
      hide Positions, DistinctIds, StopsAt, TasksAt, Places, Keeps, StoredTasks, Chosen;
      var all := scheduler.Due(now);
      at := DueInOrder(scheduler.Stored(), now);
      ghost var s, tasks := store.Contents(), scheduler.Stored();
      ghost var n := ChosenPlaces(tasks, (t: Task) => t.completedAt == 0 && t.nextAttemptAt <= now, at, limit);
      attempts, fault := DrainTasks(Chosen(all, limit), verdict, now, at[..n]);
      AttemptedOfMore(s, TasksAt(tasks, at), n, attempts, verdict);
      if DistinctIds(tasks) && |tasks| <= 1000 {
        DrainedOfMore(tasks, scheduler.Stored(), at, n, attempts, now, scheduler.delay);
      }
      if NoneRefused(tasks, scheduler.fits) && |tasks| <= 1000 {
        RefusedOfFewer(tasks, at[..n], scheduler.fits);
      }
    }

    method DrainTasks(due: seq<Task>, verdict: nat -> bool, now: nat, ghost at: seq<nat>)
      returns (attempts: seq<Attempt>, fault: Option<ContactFault>)
      requires Valid()
      modifies store, scheduler
      ensures Valid() && OnlyPending(old(store.Contents()), store.Contents())
      ensures var s := old(store.Contents());
              && scheduler.Stored() == Drained(scheduler.fits, old(scheduler.Stored()), due, Verdicts(s, due, verdict),
                                               now, scheduler.delay)
              && Attempted(s, due, attempts, verdict)
      ensures |attempts| <= |due| && (fault.None? ==> |attempts| == |due|)
      ensures Places(old(scheduler.Stored()), due, at) ==>
                DrainedSo(old(scheduler.Stored()), scheduler.Stored(), at, attempts, now, scheduler.delay)
      ensures StopsAt(attempts, fault.Some?)
      ensures NoneRefused(due, scheduler.fits) && |old(scheduler.Stored())| <= 1000 ==>
                fault.None? && AllTried(old(store.Contents()), due, attempts, verdict)
    {
      hide Shelf.Load, OnlyPending, Answered, Drained, Reachable, Verdicts, Keeps, StoredTasks, AnsweredSo, Drains;
      ghost var s, fits, delay, tasks := store.Contents(), scheduler.fits, scheduler.delay, scheduler.Stored();
      ghost var oks := Verdicts(s, due, verdict);
      ghost var result := Drained(fits, tasks, due, oks, now, delay);
      attempts := [];
      var i := 0;
      SamePending(s);
      DrainsAtFirst(s, fits, delay, tasks, due, at, verdict, now);
      assert due[0..] == due && oks[0..] == oks;
      while i < |due|
        invariant 0 <= i <= |due| && Valid() && OnlyPending(s, store.Contents())
        invariant result == Drained(fits, scheduler.Stored(), due[i..], oks[i..], now, delay)
        invariant |attempts| == i && StopsAt(attempts, false)
        invariant Drains(s, fits, delay, tasks, due, at, verdict, now, attempts, scheduler.Stored())
      {
        var task := due[i];
        SameReach(s, store.Contents(), task);
        var reachable := Reachable(store.Contents(), task);
        DrainedFrom(fits, scheduler.Stored(), due, oks, i, now, delay);
        VerdictAt(s, due, verdict, i);
        ghost var before, list := store.Contents(), scheduler.Stored();
        var fate := AnswerTask(task.id, reachable && verdict(i), now);
        PendingTwice(s, before, store.Contents());
        var sent := if reachable && task.payload.SendPacket? then Some(task.payload.packet) else None;
        DrainsOn(s, fits, delay, tasks, due, at, verdict, now, attempts, list, Attempt(task.id, sent, fate),
                 scheduler.Stored());
        attempts := attempts + [Attempt(task.id, sent, fate)];
        if fate.Throws? {
          DrainsSo(s, fits, delay, tasks, due, at, verdict, now, attempts, scheduler.Stored());
          return attempts, Some(NotScheduled(ListUnwritable));
        }
        i := i + 1;
      }
      NothingLeft(fits, scheduler.Stored(), due, oks, now, delay);
      DrainsSo(s, fits, delay, tasks, due, at, verdict, now, attempts, scheduler.Stored());
      return attempts, None;
    }

    /** Saves a record that is no retry list, or throws on an id the store does not take. */
    method SaveRecord(kind: string, id: string, r: Record) returns (fault: Option<ContactFault>)
      requires Valid() && !r.PendingRecord? && kind != "pending" && ColonFree(kind) && SafePart(kind) && kind != "list"
      modifies store
      ensures Valid() && scheduler.Stored() == old(scheduler.Stored())
      ensures if SafePart(id)
              then fault == None
                   && Wrote(old(store.Contents()), store.Contents(), kind, id, RecordTrip(scheduler.fits, r).value)
              else fault == Some(NotLoaded(BadKey)) && store.Contents() == old(store.Contents())
    {
      ghost var s := store.Contents();
      if SafePart(id) {
        RecordSaved(s, scheduler.fits, kind, id, r);
        WroteTasks(s, s.Save(kind, id, r).value, kind, id, RecordTrip(scheduler.fits, r).value, scheduler.fits);
      }
      hide Shelf.Load, Keeps;
      var saved := store.Save(kind, id, r);
      return if saved.Some? then Some(NotLoaded(saved.value)) else None;
    }

    /** requestContact up to the send of the confirmation.  An id too long for its outbox
        throws after the contact was saved and before the ratchet is. */
    method RequestContact(id: string, ownDh: nat, inviterDh: nat, reply: Option<Queue>, outbound: Queue)
      returns (fault: Option<ContactFault>)
      requires Valid()
      modifies store
      ensures Valid() && scheduler.Stored() == old(scheduler.Stored())
      ensures fault.None? <==> SafePart(OutboxId(id)) && SafePart(id)
      ensures fault.None? ==> ShowsEnd(store.Contents(), id, RequestFrom(ownDh, inviterDh))
      ensures WroteAll(old(store.Contents()), store.Contents(), RequestWrites(id, ownDh, inviterDh, reply, outbound))
    {
      KindNames();
      QueueIdsSafe(id);
      hide SafePart, ColonFree, Shelf.Load, Shelf.Save, Keeps, InboxOf, OutboxOf, Wrote, WroteAll;
      assert "ratchet"[2] == 't' && "contact"[0] == 'c' && "queue"[0] == 'q';
      ghost var s0, writes := store.Contents(), map[];
      NothingWritten(s0);
      if !SafePart(id) { return Some(NotLoaded(BadKey)); }
      if reply.Some? {
        fault := SaveRecord("queue", InboxId(id), QueueRecord(reply.value));
        if fault.Some? { return; }
        WroteMore(s0, s0, store.Contents(), writes, "queue", InboxId(id), QueueRecord(reply.value));
        writes := writes[("queue", InboxId(id)) := QueueRecord(reply.value)];
      }
      ghost var s1 := store.Contents();
      var contact := Contact(id, Requested, if reply.Some? then InboxId(id) else "", "", Some(outbound));
      fault := SaveRecord("contact", id, ContactRecord(contact));
      WroteMore(s0, s1, store.Contents(), writes, "contact", id, ContactRecord(contact));
      writes := writes[("contact", id) := ContactRecord(contact)];
      ghost var s2 := store.Contents();
      fault := SaveRecord("queue", OutboxId(id), QueueRecord(outbound));
      if fault.Some? { return; }
      WroteMore(s0, s2, store.Contents(), writes, "queue", OutboxId(id), QueueRecord(outbound));
      writes := writes[("queue", OutboxId(id)) := QueueRecord(outbound)];
      ghost var s3 := store.Contents();
      var state := R.CreateState(R.Dh(ownDh, inviterDh), ownDh, Some(inviterDh), true);
      fault := SaveRecord("ratchet", id, RatchetRecord(state));
      WroteMore(s0, s3, store.Contents(), writes, "ratchet", id, RatchetRecord(state));
      RequestedEnd(s0, store.Contents(), id, ownDh, inviterDh, reply, outbound);
    }

    /** receiveContactRequest once the queue is secured, up to the ACK. */
    method AcceptRequest(contact: Contact, queueDh: nat, senderDh: nat, reply: Option<Queue>)
      returns (fault: Option<ContactFault>)
      requires Valid() && SafePart(contact.id)
      modifies store
      ensures Valid() && scheduler.Stored() == old(scheduler.Stored())
      ensures fault.None? <==> reply.None? || SafePart(OutboxId(contact.id))
      ensures fault.None? ==> ShowsEnd(store.Contents(), contact.id, AcceptFor(queueDh, senderDh))
      ensures WroteAll(old(store.Contents()), store.Contents(), AcceptWrites(contact, queueDh, senderDh, reply))
    {
      KindNames();
      hide SafePart, ColonFree, Shelf.Load, Shelf.Save, Keeps, Wrote, WroteAll;
      assert "ratchet"[2] == 't' && "contact"[0] == 'c' && "queue"[0] == 'q';
      ghost var s0, writes := store.Contents(), map[];
      NothingWritten(s0);
      var id, active := contact.id, contact.(phase := Active);
      if reply.Some? {
        active := active.(outbound := reply, outboxQueueId := OutboxId(id));
        fault := SaveRecord("queue", OutboxId(id), QueueRecord(reply.value));
        if fault.Some? { return; }
        WroteMore(s0, s0, store.Contents(), writes, "queue", OutboxId(id), QueueRecord(reply.value));
        writes := writes[("queue", OutboxId(id)) := QueueRecord(reply.value)];
      }
      ghost var s1 := store.Contents();
      fault := SaveRecord("contact", id, ContactRecord(active));
      WroteMore(s0, s1, store.Contents(), writes, "contact", id, ContactRecord(active));
      writes := writes[("contact", id) := ContactRecord(active)];
      ghost var s2 := store.Contents();
      var state := R.CreateState(R.Dh(queueDh, senderDh), queueDh, None, false);
      fault := SaveRecord("ratchet", id, RatchetRecord(state));
      WroteMore(s0, s2, store.Contents(), writes, "ratchet", id, RatchetRecord(state));
      AcceptedEnd(s0, store.Contents(), contact, queueDh, senderDh, reply);
    }

    /** receiveContactAccept once the queue is secured, up to the ACK. */
    method AcceptConfirmed(contact: Contact, ghost end: End) returns (fault: Option<ContactFault>)
      requires Valid() && SafePart(contact.id) && ShowsEnd(store.Contents(), contact.id, end)
      modifies store
      ensures Valid() && scheduler.Stored() == old(scheduler.Stored())
      ensures fault.None? && ShowsEnd(store.Contents(), contact.id, Activated(end))
      ensures Wrote(old(store.Contents()), store.Contents(), "contact", contact.id, ContactRecord(contact.(phase := Active)))
    {
      KindNames();
      hide SafePart, ColonFree, Shelf.Load, Shelf.Save, Keeps;
      assert "ratchet"[2] == 't' && "contact"[0] == 'c';
      fault := SaveRecord("contact", contact.id, ContactRecord(contact.(phase := Active)));
    }

    /** Deletes one record, or throws on an id the store does not take. */
    method DeleteRecord(kind: string, id: string) returns (fault: Option<ContactFault>)
      requires Valid() && kind != "pending" && ColonFree(kind) && SafePart(kind) && kind != "list"
      modifies store
      ensures Valid() && scheduler.Stored() == old(scheduler.Stored())
      ensures if SafePart(id) then fault == None && Gone(old(store.Contents()), store.Contents(), kind, {id})
              else fault == Some(NotDeleted(BadKey)) && store.Contents() == old(store.Contents())
    {
      ghost var s := store.Contents();
      var deleted := store.Delete(kind, id);
      if deleted.Some? { return Some(NotDeleted(deleted.value)); }
      RecordDeleted(s, kind, id);
      GoneTasks(s, store.Contents(), kind, {id}, scheduler.fits);
      return None;
    }

    /** The two queues a contact names and the two it has by default. */
    method DeleteQueues(id: string, inbox: string, outbox: string)
      returns (fault: Option<ContactFault>, ghost gone: set<string>)
      requires Valid()
      modifies store
      ensures Valid() && scheduler.Stored() == old(scheduler.Stored())
      ensures fault.None? <==> SafePart(inbox) && SafePart(outbox) && SafePart(InboxId(id)) && SafePart(OutboxId(id))
      ensures Gone(old(store.Contents()), store.Contents(), "queue", gone)
      ensures gone <= {inbox, outbox, InboxId(id), OutboxId(id)}
              && (fault.None? ==> gone == {inbox, outbox, InboxId(id), OutboxId(id)})
    {
      KindNames();
      hide SafePart, ColonFree, Gone;
      ghost var s0 := store.Contents();
      gone := {};
      NothingGone(s0, "queue");
      fault := DeleteRecord("queue", inbox);
      if fault.Some? { return; }
      gone := {inbox};
      ghost var s1 := store.Contents();
      fault := DeleteRecord("queue", outbox);
      if fault.Some? { return; }
      GoneTwice(s0, s1, store.Contents(), "queue", gone, {outbox});
      gone := gone + {outbox};
      ghost var s2 := store.Contents();
      fault := DeleteRecord("queue", InboxId(id));
      if fault.Some? { return; }
      GoneTwice(s0, s2, store.Contents(), "queue", gone, {InboxId(id)});
      gone := gone + {InboxId(id)};
      ghost var s3 := store.Contents();
      fault := DeleteRecord("queue", OutboxId(id));
      if fault.Some? { return; }
      GoneTwice(s0, s3, store.Contents(), "queue", gone, {OutboxId(id)});
      gone := gone + {OutboxId(id)};
    }

    /** deleteContact: tasks, received records, the contact itself, its queues, its ratchet.
        It throws on the retry list or the contact record before anything else is deleted,
        and on an id too long for its queue ids before the ratchet is. */
    method DeleteContact(id: string, hard: bool) returns (fault: Option<ContactFault>)
      requires Valid()
      modifies store, scheduler
      ensures Valid()
      ensures fault.None? <==>
                && SafePart(id) && SafePart(OutboxId(id)) && old(store.Contents()).Load("contact", id).Ok?
                && Written(scheduler.fits, Dropping(old(scheduler.Stored()), TaskOf(id))).Some?
      ensures fault.None? ==> Erased(old(store.Contents()), store.Contents(), id, hard, store.scannable)
      ensures fault.Some? ==> store.Contents().Load("ratchet", id) == old(store.Contents()).Load("ratchet", id)
    {
      KindNames();
      hide SafePart, ColonFree, Shelf.Load, Shelf.Save, Scrubbed, OnlyPending, Keeps, Dropping, Oldest;
      if !SafePart(id) { return Some(NotLoaded(BadKey)); }
      ghost var s0 := store.Contents();
      var contact := store.Load("contact", id);
      if contact.Err? { return Some(NotLoaded(contact.error)); }
      var removed := scheduler.RemoveWhere(TaskOf(id));
      PendingRatchet(s0, store.Contents(), id);
      if removed.Some? { return Some(NotScheduled(removed.value)); }
      fault := ScrubRecords(id, hard, contact.value, s0);
    }

    /** deleteContact from the received records on; `s0` is what the store held before. */
    method ScrubRecords(id: string, hard: bool, contact: Option<Record>, ghost s0: Shelf<Record>)
      returns (fault: Option<ContactFault>)
      requires Valid() && SafePart(id) && s0.Load("contact", id) == Ok(contact) && OnlyPending(s0, store.Contents())
      modifies store
      ensures Valid() && scheduler.Stored() == old(scheduler.Stored())
      ensures fault.None? <==> SafePart(OutboxId(id))
      ensures fault.None? ==> Scrubbed(s0, store.Contents(), id, hard, store.scannable)
      ensures fault.Some? ==> store.Contents().Load("ratchet", id) == old(store.Contents()).Load("ratchet", id)
    {
      KindNames();
      QueueIdsSafe(id);
      hide SafePart, ColonFree, Gone, Shelf.Load, Shelf.Save, Scrubbed, WithoutContact, SweptLoads, OnlyPending, Keeps;
      hide InboxOf, OutboxOf;
      var inbox, outbox := InboxOf(contact, id), OutboxOf(contact, id);
      ghost var s1 := store.Contents();
      SweepReceived(id);
      ghost var s2 := store.Contents();
      DropContact(id, hard, contact.Some?);
      ghost var s3 := store.Contents();
      ghost var gone;
      fault, gone := DeleteQueues(id, inbox, outbox);
      ghost var s4 := store.Contents();
      RatchetKept(s1, s2, s3, s4, store.scannable, id, hard, contact.Some?, gone);
      if fault.Some? { return; }
      fault := DeleteRecord("ratchet", id);
      ScrubbedByParts(s0, s1, s2, s3, s4, store.Contents(), store.scannable, id, hard, gone);
    }

    method SweepReceived(id: string)
      requires Valid()
      modifies store
      ensures Valid() && scheduler.Stored() == old(scheduler.Stored())
      ensures SweptLoads(old(store.Contents()), store.Contents(), store.scannable, "received", OfContact(id), true)
    {
      KindNames();
      hide SafePart, ColonFree, Shelf.Load, Keeps, Doomed, SweptLoads, OfContact;
      ghost var s := store.Contents();
      store.DeleteWhere("received", OfContact(id), true);
      SweepLoads(s, store.Contents(), store.scannable, "received", OfContact(id), true);
      SweptTasks(s, store.Contents(), store.scannable, OfContact(id), scheduler.fits);
    }

    /** The contact becomes a tombstone, or nothing. */
    method DropContact(id: string, hard: bool, existed: bool)
      requires Valid() && SafePart(id)
      modifies store
      ensures Valid() && scheduler.Stored() == old(scheduler.Stored())
      ensures WithoutContact(old(store.Contents()), store.Contents(), id, hard, existed)
    {
      KindNames();
      hide SafePart, ColonFree, Shelf.Load, Shelf.Save, Keeps;
      if !existed { return; }
      if hard {
        var _ := DeleteRecord("contact", id);
      } else {
        ContactSaved(store.Contents(), scheduler.fits, Tombstone(id));
        var _ := store.Save("contact", id, ContactRecord(Tombstone(id)));
      }
    }

    /** The remote deletions, in order, until one is refused. */
    method DeleteRemotely(ids: seq<string>, accepts: string -> bool) returns (r: Result<seq<string>, ContactFault>)
      ensures r.Ok? ==>
                && (forall j :: 0 <= j < |ids| && StoredQueue(store.Contents(), ids[j]) ==> ids[j] in r.value)
                && (forall q :: q in r.value ==> accepts(q))
      ensures (exists j :: 0 <= j < |ids| && StoredQueue(store.Contents(), ids[j]) && !accepts(ids[j])) ==> r.Err?
    {
      hide Shelf.Load;
      var deleted: seq<string> := [];
      for i := 0 to |ids|
        invariant forall j :: 0 <= j < i && StoredQueue(store.Contents(), ids[j]) ==> ids[j] in deleted
        invariant forall q :: q in deleted ==> accepts(q)
      {
        var queue := store.Load("queue", ids[i]);
        if queue.Err? { return Err(NotLoaded(queue.error)); }
        if queue.value.Some? {
          if !accepts(ids[i]) { return Err(TransportFailed); }
          deleted := deleted + [ids[i]];
        }
      }
      return Ok(deleted);
    }

    /** deleteContactEverywhere: remote deletions first, each answered by `accepts`, and the
        local scrub only after all of them. */
    method DeleteContactEverywhere(id: string, hard: bool, requireRemote: bool, accepts: string -> bool)
      returns (r: Result<seq<string>, ContactFault>)
      requires Valid()
      modifies store, scheduler
      ensures Valid()
      ensures r.Ok? ==>
                && AnyContact(old(store.Contents()), id).Ok?
                && (forall q :: q in OwnedInboxes(old(store.Contents()), id) && StoredQueue(old(store.Contents()), q) ==>
                      q in r.value)
                && (forall q :: q in r.value ==> accepts(q)) && (requireRemote ==> r.value != [])
                && Erased(old(store.Contents()), store.Contents(), id, hard, store.scannable)
      ensures (exists q :: q in OwnedInboxes(old(store.Contents()), id)
                           && StoredQueue(old(store.Contents()), q) && !accepts(q)) ==>
                r.Err? && store.Contents() == old(store.Contents()) && scheduler.Stored() == old(scheduler.Stored())
    {
      if !SafePart(id) { return Err(NotLoaded(BadKey)); }
      var contact := AnyContact(store.Contents(), id);
      if contact.Err? { return Err(contact.error); }
      hide Shelf.Load, Erased, OwnedInboxes, SafePart;
      var remote := DeleteRemotely(OwnedInboxes(store.Contents(), id), accepts);
      if remote.Err? { return remote; }
      var deleted := remote.value;
      if deleted == [] && requireRemote { return Err(MissingQueue); }
      var fault := DeleteContact(id, hard);
      if fault.Some? { return Err(fault.value); }
      return Ok(deleted);
    }
  }

  /** ownedInboxQueueIds. */
  function OwnedInboxes(s: Shelf<Record>, id: string): seq<string> {
    match s.Load("contact", id)
    case Ok(r) => if InboxOf(r, id) == InboxId(id) then [InboxId(id)] else [InboxOf(r, id), InboxId(id)]
    case Err(_) => []
  }

  /** The inbox the contact names, if its id is sound, and the one it has by default. */
  lemma OwnedInboxesExactly(s: Shelf<Record>, id: string, c: Contact, q: string)
    requires s.Load("contact", id) == Ok(Some(ContactRecord(c)))
    ensures q in OwnedInboxes(s, id) <==> q == id + ":inbox" || (SafePart(c.inboxQueueId) && q == c.inboxQueueId)
    ensures NoRepeat(OwnedInboxes(s, id))
    ensures StoredQueue(s, q) <==> exists r :: s.Load("queue", q) == Ok(Some(r))
  {
    hide Shelf.Load, SafePart;
    if StoredQueue(s, q) { assert s.Load("queue", q) == Ok(Some(s.Load("queue", q).value.value)); }
  }

  predicate StoredQueue(s: Shelf<Record>, q: string) {
    s.Load("queue", q).Ok? && s.Load("queue", q).value.Some?
  }

  /** After deleteContact on a backend that can be scanned nothing of the contact is left,
      neither listed nor evicted from the capped list, and no retry task names it. */
  lemma NothingRemains(s: Shelf<Record>, t: Shelf<Record>, id: string, hard: bool, id': string)
    requires Erased(s, t, id, hard, true)
    ensures var r := t.Load("received", id');
            r.Ok? && r.value.Some? && r.value.value.ReceivedRecord? ==> r.value.value.received.contactId != id
    ensures SafePart(id') ==> t.Load("received", id').Ok?
    ensures t.Load("ratchet", id) == Ok(None) && t.Load("queue", id + ":inbox") == Ok(None)
            && t.Load("queue", id + ":outbox") == Ok(None)
    ensures var c := s.Load("contact", id).value;
            && (c.Some? && c.value.ContactRecord? ==>
                  && (SafePart(c.value.contact.inboxQueueId) ==> t.Load("queue", c.value.contact.inboxQueueId) == Ok(None))
                  && (SafePart(c.value.contact.outboxQueueId) ==> t.Load("queue", c.value.contact.outboxQueueId) == Ok(None)))
            && t.Load("contact", id) == if c.None? || hard then Ok(None)
                                        else Ok(Some(ContactRecord(Contact(id, Deleted, "", "", None))))
    ensures StoredTasks(t).Ok? && forall x :: x in StoredTasks(t).value ==> x.payload.contactId != id
  {
    KindNames();
    LoadFails(s, "received", id');
    TasksLeft(StoredTasks(s).value, id);
    hide Shelf.Load, ColonFree, SafePart, InboxOf, OutboxOf, StoredTasks, Dropping, Oldest;
    assert "ratchet"[2] == 't' && "received"[2] == 'c' && "contact"[0] == 'c' && "queue"[0] == 'q'
        && "pending"[0] == 'p';
  }

  /** Every retry task of another contact is still there, in its place among them, up to
      the 1000 a list can hold. */
  lemma OtherTasksRemain(s: Shelf<Record>, t: Shelf<Record>, id: string, hard: bool, scannable: bool)
      returns (at: seq<nat>)
    requires Erased(s, t, id, hard, scannable)
    ensures StoredTasks(s).Ok? && Positions(StoredTasks(s).value, (x: Task) => x.payload.contactId != id, at)
    ensures var others := TasksAt(StoredTasks(s).value, at);
            StoredTasks(t) == Ok(if |others| <= 1000 then others else others[..1000])
  {
    hide StoredTasks, Scrubbed, Shelf.Load, TasksAt, Dropping, Oldest, TaskOf;
    at := OthersPicked(StoredTasks(s).value, id);
  }

  lemma OthersPicked(tasks: seq<Task>, id: string) returns (at: seq<nat>)
    ensures Positions(tasks, (x: Task) => x.payload.contactId != id, at)
    ensures var others := TasksAt(tasks, at);
            Oldest(Dropping(tasks, TaskOf(id))) == if |others| <= 1000 then others else others[..1000]
  {
    hide TasksAt, Dropping;
    at := DroppingPicks(tasks, TaskOf(id));
  }

  lemma LoadFails(s: Shelf<Record>, kind: string, id: string)
    ensures SafePart(kind) && !SafePart(id) ==> s.Load(kind, id) == Err(BadKey)
  {
  }

  /** Another contact keeps its record, ratchet, queues and received records, if the deleted
      contact names no queues but its own. */
  lemma OthersRemain(s: Shelf<Record>, t: Shelf<Record>, id: string, hard: bool, scannable: bool, other: string,
                     id': string)
    requires Erased(s, t, id, hard, scannable) && other != id
    requires var c := s.Load("contact", id).value; InboxOf(c, id) == InboxId(id) && OutboxOf(c, id) == OutboxId(id)
    ensures t.Load("contact", other) == s.Load("contact", other) && t.Load("ratchet", other) == s.Load("ratchet", other)
    ensures t.Load("queue", InboxId(other)) == s.Load("queue", InboxId(other))
    ensures t.Load("queue", OutboxId(other)) == s.Load("queue", OutboxId(other))
    ensures var r := s.Load("received", id');
            r.Ok? && r.value.Some? && r.value.value.ReceivedRecord? && r.value.value.received.contactId == other ==>
              t.Load("received", id') == r
    ensures StoredTasks(s).Ok? && StoredTasks(t).Ok?
    ensures |StoredTasks(s).value| <= 1000 ==>
              forall x :: x in StoredTasks(s).value && x.payload.contactId == other ==> x in StoredTasks(t).value
  {
    KindNames();
    QueueIdsDiffer(id, other);
    TasksLeft(StoredTasks(s).value, id);
    hide StoredTasks, Dropping, Oldest, Shelf.Load, ColonFree, SafePart, InboxOf, OutboxOf;
    assert "ratchet"[2] == 't' && "received"[2] == 'c' && "contact"[0] == 'c' && "queue"[0] == 'q'
        && "pending"[0] == 'p';
  }

  lemma TasksLeft(tasks: seq<Task>, id: string)
    ensures forall x :: x in Oldest(Dropping(tasks, TaskOf(id))) ==> x.payload.contactId != id
    ensures |tasks| <= 1000 ==>
              forall x :: x in tasks && x.payload.contactId != id ==> x in Oldest(Dropping(tasks, TaskOf(id)))
  {
    var left := Dropping(tasks, TaskOf(id));
    assert forall x :: x in Oldest(left) ==> x in left;
    hide Dropping;
  }

  lemma QueueIdsDiffer(id: string, other: string)
    ensures InboxId(other) == InboxId(id) || OutboxId(other) == OutboxId(id) ==> id == other
    ensures InboxId(other) != OutboxId(id) && OutboxId(other) != InboxId(id)
  {
    var i, o, i', o' := InboxId(id), OutboxId(id), InboxId(other), OutboxId(other);
    assert i[..|i| - 6] == id && i'[..|i'| - 6] == other && o[..|o| - 7] == id && o'[..|o'| - 7] == other;
    assert i[|i| - 4] == 'n' && i'[|i'| - 4] == 'n' && o[|o| - 4] == 't' && o'[|o'| - 4] == 't';
  }

  ghost predicate WithoutContact(s: Shelf<Record>, t: Shelf<Record>, id: string, hard: bool, existed: bool) {
    && t.ns == s.ns && t.trip == s.trip
    && (forall kind, id' :: ColonFree(kind) && kind != "list" ==>
          t.Load(kind, id') == if kind == "contact" && id' == id && existed
                               then (if hard then Ok(None) else Ok(Some(ContactRecord(Tombstone(id)))))
                               else s.Load(kind, id'))
  }

  lemma PendingRatchet(s: Shelf<Record>, t: Shelf<Record>, id: string)
    requires OnlyPending(s, t)
    ensures t.Load("ratchet", id) == s.Load("ratchet", id)
  {
  }

  lemma RatchetKept(s1: Shelf<Record>, s2: Shelf<Record>, s3: Shelf<Record>, s4: Shelf<Record>, scannable: bool,
                    id: string, hard: bool, existed: bool, gone: set<string>)
    requires SweptLoads(s1, s2, scannable, "received", OfContact(id), true)
    requires WithoutContact(s2, s3, id, hard, existed) && Gone(s3, s4, "queue", gone)
    ensures s4.Load("ratchet", id) == s1.Load("ratchet", id)
  {
  }

  /** The steps of deleteContact, put together. */
  lemma ScrubbedByParts(s0: Shelf<Record>, s1: Shelf<Record>, s2: Shelf<Record>, s3: Shelf<Record>, s4: Shelf<Record>,
                        s5: Shelf<Record>,
                        scannable: bool, id: string, hard: bool, gone: set<string>)
    requires OnlyPending(s0, s1) && SweptLoads(s1, s2, scannable, "received", OfContact(id), true)
    requires s0.Load("contact", id).Ok? && SafePart(id)
    requires WithoutContact(s2, s3, id, hard, s0.Load("contact", id).value.Some?)
    requires var c := s0.Load("contact", id).value; gone == {InboxOf(c, id), OutboxOf(c, id), InboxId(id), OutboxId(id)}
    requires forall q :: q in gone ==> SafePart(q)
    requires Gone(s3, s4, "queue", gone) && Gone(s4, s5, "ratchet", {id})
    ensures Scrubbed(s0, s5, id, hard, scannable)
  {
  }

  function OfContact(id: string): Record -> bool {
    (r: Record) => r.ReceivedRecord? && r.received.contactId == id
  }

  function TaskOf(id: string): Task -> bool {
    (t: Task) => t.payload.contactId == id
  }

  function Tombstone(id: string): Contact {
    Contact(id, Deleted, "", "", None)
  }

  function InboxOf(r: Option<Record>, id: string): string {
    if r.Some? && r.value.ContactRecord? && SafePart(r.value.contact.inboxQueueId) then r.value.contact.inboxQueueId
    else InboxId(id)
  }

  function OutboxOf(r: Option<Record>, id: string): string {
    if r.Some? && r.value.ContactRecord? && SafePart(r.value.contact.outboxQueueId) then r.value.contact.outboxQueueId
    else OutboxId(id)
  }

  /** What deleteContact leaves of the store, record by record. */
  ghost predicate Scrubbed(s: Shelf<Record>, t: Shelf<Record>, id: string, hard: bool, scannable: bool)
    requires s.Load("contact", id).Ok?
  {
    var contact := s.Load("contact", id).value;
    forall kind, id' :: ColonFree(kind) && kind != "list" && kind != "pending" ==>
      t.Load(kind, id') ==
        if kind == "received" && Goes(s, scannable, "received", OfContact(id), true, id') then Ok(None)
        else if kind == "queue" && id' in {InboxOf(contact, id), OutboxOf(contact, id), InboxId(id), OutboxId(id)}
        then Ok(None)
        else if kind == "ratchet" && id' == id then Ok(None)
        else if kind == "contact" && id' == id && contact.Some?
        then (if hard then Ok(None) else Ok(Some(ContactRecord(Tombstone(id)))))
        else s.Load(kind, id')
  }

  /** And of the retry list: the tasks of the contact are dropped. */
  ghost predicate Erased(s: Shelf<Record>, t: Shelf<Record>, id: string, hard: bool, scannable: bool) {
    && s.Load("contact", id).Ok? && Scrubbed(s, t, id, hard, scannable)
    && StoredTasks(s).Ok? && StoredTasks(t) == Ok(Oldest(Dropping(StoredTasks(s).value, TaskOf(id))))
  }

  lemma QueueIdsSafe(id: string)
    ensures SafePart(OutboxId(id)) ==> SafePart(InboxId(id))
    ensures forall r :: SafePart(OutboxId(id)) ==> SafePart(InboxOf(r, id)) && SafePart(OutboxOf(r, id))
  {
    var o, n := OutboxId(id), InboxId(id);
    if SafePart(o) {
      forall j | 0 <= j < |n| ensures SafeChar(n[j]) {
        if j < |id| { assert n[j] == o[j]; } else { assert n[j] == ":inbox"[j - |id|]; }
      }
    }
  }

  lemma SweptTasks(s: Shelf<Record>, t: Shelf<Record>, scannable: bool, test: Record -> bool, fits: seq<Task> -> bool)
    requires Keeps(s, fits) && t.trip == s.trip && SweptLoads(s, t, scannable, "received", test, true)
    ensures Keeps(t, fits) && StoredTasks(t) == StoredTasks(s)
  {
  }

  lemma ContactSaved(s: Shelf<Record>, fits: seq<Task> -> bool, c: Contact)
    requires Keeps(s, fits) && SafePart(c.id)
    ensures var r := s.Save("contact", c.id, ContactRecord(c));
            && r.Ok? && r.value.ns == s.ns && r.value.trip == s.trip && Keeps(r.value, fits)
            && StoredTasks(r.value) == StoredTasks(s)
            && (forall kind', id' :: ColonFree(kind') && kind' != "list" ==>
                  r.value.Load(kind', id')
                  == if kind' == "contact" && id' == c.id then Ok(Some(ContactRecord(c))) else s.Load(kind', id'))
  {
    KindNames();
    hide Shelf.Load, Shelf.Save, SafePart, ColonFree;
    RecordSaved(s, fits, "contact", c.id, ContactRecord(c));
  }

  /** The store shows this end of a handshake. */
  ghost predicate ShowsEnd(s: Shelf<Record>, id: string, e: End) {
    && (exists c: Contact :: c.phase == e.phase && s.Load("contact", id) == Ok(Some(ContactRecord(c))))
    && s.Load("ratchet", id) == Ok(if e.ratchet.Some? then Some(RatchetRecord(e.ratchet.value)) else None)
  }

  /** One record was written, all others load as before. */
  ghost predicate Wrote(s: Shelf<Record>, t: Shelf<Record>, kind: string, id: string, r: Record) {
    && t.ns == s.ns && t.trip == s.trip && t.Load(kind, id) == Ok(Some(r))
    && (forall kind', id' :: ColonFree(kind') && kind' != "list" && !(kind == kind' && id == id') ==>
          t.Load(kind', id') == s.Load(kind', id'))
  }

  /** Exactly these records are written. */
  ghost predicate WroteAll(s: Shelf<Record>, t: Shelf<Record>, writes: map<(string, string), Record>) {
    && t.ns == s.ns && t.trip == s.trip
    && (forall kind, id :: ColonFree(kind) && kind != "list" ==>
          t.Load(kind, id) == if (kind, id) in writes then Ok(Some(writes[(kind, id)])) else s.Load(kind, id))
  }

  lemma NothingWritten(s: Shelf<Record>)
    ensures WroteAll(s, s, map[])
  {
  }

  lemma WroteMore(s: Shelf<Record>, t: Shelf<Record>, r: Shelf<Record>, writes: map<(string, string), Record>,
                  kind: string, id: string, x: Record)
    requires WroteAll(s, t, writes) && Wrote(t, r, kind, id, x)
    ensures WroteAll(s, r, writes[(kind, id) := x])
  {
    hide Shelf.Load, ColonFree;
  }

  /** What requestContact writes: after the inbox queue, if there is one, the contact, and
      then the outbox queue and the ratchet, unless the id is too long for its outbox. */
  function RequestWrites(id: string, ownDh: nat, inviterDh: nat, reply: Option<Queue>, outbound: Queue):
    map<(string, string), Record>
  {
    var contact := Contact(id, Requested, if reply.Some? then InboxId(id) else "", "", Some(outbound));
    var inbox: map<(string, string), Record> :=
      if reply.Some? then map[("queue", InboxId(id)) := QueueRecord(reply.value)] else map[];
    if !SafePart(id) || (reply.Some? && !SafePart(InboxId(id))) then map[]
    else
      var first := inbox[("contact", id) := ContactRecord(contact)];
      if !SafePart(OutboxId(id)) then first
      else first[("queue", OutboxId(id)) := QueueRecord(outbound)]
                [("ratchet", id) := RatchetRecord(RequestFrom(ownDh, inviterDh).ratchet.value)]
  }

  /** What receiveContactRequest writes: the outbox queue, if the request asked for one,
      and the active contact with its ratchet. */
  function AcceptWrites(contact: Contact, queueDh: nat, senderDh: nat, reply: Option<Queue>):
    map<(string, string), Record>
  {
    var id, ratchet := contact.id, RatchetRecord(AcceptFor(queueDh, senderDh).ratchet.value);
    var active := contact.(phase := Active);
    if reply.None? then map[("contact", id) := ContactRecord(active), ("ratchet", id) := ratchet]
    else if !SafePart(OutboxId(id)) then map[]
    else map[("queue", OutboxId(id)) := QueueRecord(reply.value),
             ("contact", id) := ContactRecord(active.(outbound := reply, outboxQueueId := OutboxId(id))),
             ("ratchet", id) := ratchet]
  }

  /** Record by record what requestContact writes for an id that leaves room for its queue ids;
      every other record is as before. */
  lemma RequestedRecords(s: Shelf<Record>, t: Shelf<Record>, id: string, ownDh: nat, inviterDh: nat,
                         reply: Option<Queue>, outbound: Queue, kind: string, other: string)
    requires WroteAll(s, t, RequestWrites(id, ownDh, inviterDh, reply, outbound))
    requires SafePart(id) && SafePart(id + ":inbox") && SafePart(id + ":outbox")
    requires ColonFree(kind) && kind != "list"
    ensures var secret := R.Dh(ownDh, inviterDh);
            t.Load(kind, other) ==
              if kind == "contact" && other == id
              then Ok(Some(ContactRecord(Contact(id, Requested, if reply.Some? then id + ":inbox" else "", "", Some(outbound)))))
              else if kind == "queue" && other == id + ":outbox" then Ok(Some(QueueRecord(outbound)))
              else if kind == "queue" && other == id + ":inbox" && reply.Some? then Ok(Some(QueueRecord(reply.value)))
              else if kind == "ratchet" && other == id
              then Ok(Some(RatchetRecord(R.State(R.RootOf(secret, secret), ownDh, Some(inviterDh),
                                                 Some(R.ChainOf(secret, secret)), None, 0, 0, 0, []))))
              else s.Load(kind, other)
  {
    KindsDiffer();
    QueueIdsDiffer(id, id);
    hide Shelf.Load, SafePart, ColonFree;
  }

  lemma KindsDiffer()
    ensures "ratchet" != "contact" && "ratchet" != "queue" && "contact" != "queue"
  {
    assert "ratchet"[0] == 'r' && "contact"[0] == 'c' && "queue"[0] == 'q';
  }

  /** And what receiveContactRequest does. */
  lemma AcceptedRecords(s: Shelf<Record>, t: Shelf<Record>, contact: Contact, queueDh: nat, senderDh: nat,
                        reply: Option<Queue>, kind: string, other: string)
    requires WroteAll(s, t, AcceptWrites(contact, queueDh, senderDh, reply))
    requires SafePart(contact.id) && (reply.Some? ==> SafePart(contact.id + ":outbox"))
    requires ColonFree(kind) && kind != "list"
    ensures var id := contact.id;
            t.Load(kind, other) ==
              if kind == "contact" && other == id
              then Ok(Some(ContactRecord(if reply.Some? then Contact(id, Active, contact.inboxQueueId, id + ":outbox", reply)
                                         else Contact(id, Active, contact.inboxQueueId, contact.outboxQueueId, contact.outbound))))
              else if kind == "queue" && other == id + ":outbox" && reply.Some? then Ok(Some(QueueRecord(reply.value)))
              else if kind == "ratchet" && other == id
              then Ok(Some(RatchetRecord(R.State(R.Dh(queueDh, senderDh), queueDh, None, None, None, 0, 0, 0, []))))
              else s.Load(kind, other)
  {
    KindsDiffer();
    hide Shelf.Load, SafePart, ColonFree;
  }

  lemma RequestedEnd(s: Shelf<Record>, t: Shelf<Record>, id: string, ownDh: nat, inviterDh: nat,
                     reply: Option<Queue>, outbound: Queue)
    requires WroteAll(s, t, RequestWrites(id, ownDh, inviterDh, reply, outbound))
    requires SafePart(id) && SafePart(InboxId(id)) && SafePart(OutboxId(id))
    ensures ShowsEnd(t, id, RequestFrom(ownDh, inviterDh))
  {
    KindNames();
    hide Shelf.Load, ColonFree, SafePart;
    assert ("contact", id) in RequestWrites(id, ownDh, inviterDh, reply, outbound);
    assert ("ratchet", id) in RequestWrites(id, ownDh, inviterDh, reply, outbound);
  }

  lemma AcceptedEnd(s: Shelf<Record>, t: Shelf<Record>, contact: Contact, queueDh: nat, senderDh: nat,
                    reply: Option<Queue>)
    requires WroteAll(s, t, AcceptWrites(contact, queueDh, senderDh, reply))
    requires SafePart(contact.id) && (reply.Some? ==> SafePart(OutboxId(contact.id)))
    ensures ShowsEnd(t, contact.id, AcceptFor(queueDh, senderDh))
  {
    KindNames();
    hide Shelf.Load, ColonFree, SafePart;
    assert ("contact", contact.id) in AcceptWrites(contact, queueDh, senderDh, reply);
    assert ("ratchet", contact.id) in AcceptWrites(contact, queueDh, senderDh, reply);
  }

  lemma WroteTasks(s: Shelf<Record>, t: Shelf<Record>, kind: string, id: string, r: Record, fits: seq<Task> -> bool)
    requires Wrote(s, t, kind, id, r) && kind != "pending" && Keeps(s, fits)
    ensures Keeps(t, fits) && StoredTasks(t) == StoredTasks(s)
  {
  }

  /** These records of a kind are gone, all others load as before. */
  ghost predicate Gone(s: Shelf<Record>, t: Shelf<Record>, kind: string, ids: set<string>) {
    && t.ns == s.ns && t.trip == s.trip
    && (forall kind', id' :: ColonFree(kind') && kind' != "list" ==>
          t.Load(kind', id')
          == if kind' == kind && id' in ids then (if SafePart(id') then Ok(None) else Err(BadKey)) else s.Load(kind', id'))
  }

  lemma RecordDeleted(s: Shelf<Record>, kind: string, id: string)
    requires ColonFree(kind) && SafePart(kind) && SafePart(id) && kind != "list"
    ensures Gone(s, s.Delete(kind, id), kind, {id})
  {
    forall kind', id' | ColonFree(kind') && kind' != "list"
      ensures s.Delete(kind, id).Load(kind', id') == if kind' == kind && id' in {id} then Ok(None) else s.Load(kind', id')
    {
      if SafePart(kind') && SafePart(id') { DeleteLoads(s, kind, id, kind', id'); }
    }
  }

  lemma NothingGone(s: Shelf<Record>, kind: string)
    ensures Gone(s, s, kind, {})
  {
  }

  lemma GoneTwice(s: Shelf<Record>, t: Shelf<Record>, r: Shelf<Record>, kind: string, a: set<string>, b: set<string>)
    requires Gone(s, t, kind, a) && Gone(t, r, kind, b)
    ensures Gone(s, r, kind, a + b)
  {
  }

  lemma GoneTasks(s: Shelf<Record>, t: Shelf<Record>, kind: string, ids: set<string>, fits: seq<Task> -> bool)
    requires Gone(s, t, kind, ids) && kind != "pending" && Keeps(s, fits)
    ensures Keeps(t, fits) && StoredTasks(t) == StoredTasks(s)
  {
  }

  /** slice(0, max(1, limit)) with 25 for a missing limit. */
  function Chosen(tasks: seq<Task>, limit: nat): seq<Task> {
    var n := if limit == 0 then 25 else limit;
    if |tasks| <= n then tasks else tasks[..n]
  }

  /** Whether an attempt gets as far as the transport. */
  function Reachable(s: Shelf<Record>, t: Task): bool {
    match t.payload
    case SendPacket(contactId, queueId, _) =>
      var c := AnyContact(s, contactId);
      c.Ok? && (c.value.outbound.Some? || QueueIn(s, queueId).Ok?)
    case AckMessage(contactId, queueId, msgId) => AnyContact(s, contactId).Ok? && QueueIn(s, queueId).Ok? && msgId != []
    case InitialConfirmation(_, _, _) => true
  }

  function AnyContact(s: Shelf<Record>, id: string): Result<Contact, ContactFault> {
    match s.Load("contact", id)
    case Err(e) => Err(NotLoaded(e))
    case Ok(None) => Err(MissingContact)
    case Ok(Some(r)) => if r.ContactRecord? then Ok(r.contact) else Err(MissingContact)
  }

  function Verdicts(s: Shelf<Record>, due: seq<Task>, verdict: nat -> bool): (r: seq<bool>)
    ensures |r| == |due|
  {
    seq(|due|, i requires 0 <= i < |due| => Reachable(s, due[i]) && verdict(i))
  }

  /** The attempts go along the due tasks; each reachable packet task hands over its packet,
      and only one that is reached and accepted is completed. */
  ghost predicate Attempted(s: Shelf<Record>, due: seq<Task>, attempts: seq<Attempt>, verdict: nat -> bool) {
    && |attempts| <= |due|
    && forall k :: 0 <= k < |attempts| ==>
         && attempts[k].id == due[k].id
         && attempts[k].sent == (if Reachable(s, due[k]) && due[k].payload.SendPacket? then Some(due[k].payload.packet)
                                 else None)
         && (attempts[k].fate.Completes? ==> Reachable(s, due[k]) && verdict(k))
  }

  lemma ChosenPlaces(tasks: seq<Task>, test: Task -> bool, at: seq<nat>, limit: nat) returns (n: nat)
    requires Positions(tasks, test, at)
    ensures n <= |at| == |TasksAt(tasks, at)| && n == |Chosen(TasksAt(tasks, at), limit)|
    ensures var most := if limit == 0 then 25 else limit; n == if |at| <= most then |at| else most
    ensures forall k :: 0 <= k < |at| ==> at[k] < |tasks|
    ensures Chosen(TasksAt(tasks, at), limit) == TasksAt(tasks, at)[..n] == TasksAt(tasks, at[..n])
    ensures DistinctIds(tasks) && |tasks| <= 1000 ==> Places(tasks, TasksAt(tasks, at[..n]), at[..n])
  {
    n := |Chosen(TasksAt(tasks, at), limit)|;
  }

  /** A drain that has made these attempts and not thrown. */
  ghost predicate Drains(s: Shelf<Record>, fits: seq<Task> -> bool, delay: nat -> nat, tasks: seq<Task>, due: seq<Task>,
                         at: seq<nat>, verdict: nat -> bool, now: nat, attempts: seq<Attempt>, list: seq<Task>)
  {
    && Attempted(s, due, attempts, verdict)
    && (|tasks| <= 1000 ==> |list| == |tasks|)
    && (NoneRefused(due, fits) && |tasks| <= 1000 ==> AllTried(s, due, attempts, verdict))
    && (Places(tasks, due, at) ==> DrainedSo(tasks, list, at, attempts, now, delay))
  }

  lemma DrainsAtFirst(s: Shelf<Record>, fits: seq<Task> -> bool, delay: nat -> nat, tasks: seq<Task>, due: seq<Task>,
                      at: seq<nat>, verdict: nat -> bool, now: nat)
    ensures Drains(s, fits, delay, tasks, due, at, verdict, now, [], tasks)
  {
    hide Reachable;
    if Places(tasks, due, at) { NothingDrained(tasks, at, now, delay); }
  }

  lemma DrainsOn(s: Shelf<Record>, fits: seq<Task> -> bool, delay: nat -> nat, tasks: seq<Task>, due: seq<Task>,
                 at: seq<nat>, verdict: nat -> bool, now: nat, attempts: seq<Attempt>, list: seq<Task>, a: Attempt,
                 after: seq<Task>)
    requires Drains(s, fits, delay, tasks, due, at, verdict, now, attempts, list) && |attempts| < |due|
    requires var t, reached := due[|attempts|], Reachable(s, due[|attempts|]);
             && a.id == t.id
             && a.sent == (if reached && t.payload.SendPacket? then Some(t.payload.packet) else None)
             && (|list| <= 1000 ==> AnsweredSo(fits, list, after, t.id, reached && verdict(|attempts|), now, delay, a.fate))
             && (a.fate.Completes? ==> reached && verdict(|attempts|))
    ensures Drains(s, fits, delay, tasks, due, at, verdict, now, attempts + [a], after)
    ensures NoneRefused(due, fits) && |tasks| <= 1000 ==> !a.fate.Throws?
  {
    var t := due[|attempts|];
    AttemptedMore(s, due, attempts, a, verdict);
    TriedMore(s, due, fits, attempts, a, verdict);
    if |tasks| <= 1000 {
      AnsweredLength(fits, list, after, t.id, Reachable(s, t) && verdict(|attempts|), now, delay, a.fate);
    }
    hide Attempted, AllTried, AnsweredSo, Reachable, DrainedSo, DistinctIds, Done, PutOff;
    if Places(tasks, due, at) { DrainedMore(tasks, list, after, at, attempts, a, now, delay); }
  }

  lemma DrainsSo(s: Shelf<Record>, fits: seq<Task> -> bool, delay: nat -> nat, tasks: seq<Task>, due: seq<Task>,
                 at: seq<nat>, verdict: nat -> bool, now: nat, attempts: seq<Attempt>, list: seq<Task>)
    requires Drains(s, fits, delay, tasks, due, at, verdict, now, attempts, list)
    ensures Attempted(s, due, attempts, verdict)
    ensures Places(tasks, due, at) ==> DrainedSo(tasks, list, at, attempts, now, delay)
    ensures NoneRefused(due, fits) && |tasks| <= 1000 ==> AllTried(s, due, attempts, verdict)
  {
  }

  /** Each attempt that is reached and accepted completes its task, no other does. */
  ghost predicate AllTried(s: Shelf<Record>, due: seq<Task>, attempts: seq<Attempt>, verdict: nat -> bool) {
    && |attempts| <= |due|
    && forall k :: 0 <= k < |attempts| ==>
         (attempts[k].fate.Completes? <==> Reachable(s, due[k]) && verdict(k)) && !attempts[k].fate.Throws?
  }

  /** The store takes every list, and the scheduler every one of these ids. */
  ghost predicate NoneRefused(tasks: seq<Task>, fits: seq<Task> -> bool) {
    (forall l :: fits(l)) && (forall t :: t in tasks ==> SafePart(t.id))
  }

  lemma AttemptedMore(s: Shelf<Record>, due: seq<Task>, attempts: seq<Attempt>, a: Attempt, verdict: nat -> bool)
    requires Attempted(s, due, attempts, verdict) && |attempts| < |due| && a.id == due[|attempts|].id
    requires var t := due[|attempts|];
             && a.sent == (if Reachable(s, t) && t.payload.SendPacket? then Some(t.payload.packet) else None)
             && (a.fate.Completes? ==> Reachable(s, t) && verdict(|attempts|))
    ensures Attempted(s, due, attempts + [a], verdict)
  {
    hide Reachable;
  }

  lemma TriedMore(s: Shelf<Record>, due: seq<Task>, fits: seq<Task> -> bool, attempts: seq<Attempt>, a: Attempt,
                  verdict: nat -> bool)
    requires |attempts| < |due|
    ensures && AllTried(s, due, attempts, verdict) && !a.fate.Throws?
            && (a.fate.Completes? <==> Reachable(s, due[|attempts|]) && verdict(|attempts|))
            ==> AllTried(s, due, attempts + [a], verdict)
  {
    hide Reachable;
  }

  lemma AttemptedOfMore(s: Shelf<Record>, due: seq<Task>, n: nat, attempts: seq<Attempt>, verdict: nat -> bool)
    requires n <= |due| && Attempted(s, due[..n], attempts, verdict)
    ensures Attempted(s, due, attempts, verdict)
    ensures AllTried(s, due[..n], attempts, verdict) ==> AllTried(s, due, attempts, verdict)
  {
    hide Reachable;
  }

  lemma DrainedOfMore(tasks: seq<Task>, after: seq<Task>, at: seq<nat>, n: nat, attempts: seq<Attempt>, now: nat,
                      delay: nat -> nat)
    requires n <= |at| && (forall k :: 0 <= k < |at| ==> at[k] < |tasks|)
    requires DrainedSo(tasks, after, at[..n], attempts, now, delay)
    ensures DrainedSo(tasks, after, at, attempts, now, delay)
  {
    assert at[..n][..|attempts|] == at[..|attempts|];
  }

  lemma RefusedOfFewer(tasks: seq<Task>, at: seq<nat>, fits: seq<Task> -> bool)
    requires NoneRefused(tasks, fits) && forall k :: 0 <= k < |at| ==> at[k] < |tasks|
    ensures NoneRefused(TasksAt(tasks, at), fits)
  {
  }

  /** Only the last attempt can have thrown, and it did if the drain threw. */
  predicate StopsAt(attempts: seq<Attempt>, threw: bool) {
    && (forall k :: 0 <= k < |attempts| - 1 ==> !attempts[k].fate.Throws?)
    && (threw <==> attempts != [] && attempts[|attempts| - 1].fate.Throws?)
  }

  /** Where distinct tasks of the list stand. */
  ghost predicate Places(tasks: seq<Task>, due: seq<Task>, at: seq<nat>) {
    && DistinctIds(tasks) && |tasks| <= 1000
    && (forall k :: 0 <= k < |at| ==> at[k] < |tasks|) && (forall j, k :: 0 <= j < k < |at| ==> at[j] < at[k])
    && due == TasksAt(tasks, at)
  }

  lemma DrainedFrom(fits: seq<Task> -> bool, tasks: seq<Task>, due: seq<Task>, ok: seq<bool>, i: nat, now: nat,
                    delay: nat -> nat)
    requires |due| == |ok| && i < |due|
    ensures Drained(fits, tasks, due[i..], ok[i..], now, delay)
            == match Answered(fits, tasks, due[i].id, ok[i], now, delay)
               case None => tasks
               case Some(next) => Drained(fits, next, due[i + 1..], ok[i + 1..], now, delay)
  {
  }

  lemma VerdictAt(s: Shelf<Record>, due: seq<Task>, verdict: nat -> bool, i: nat)
    requires i < |due|
    ensures Verdicts(s, due, verdict)[i] == (Reachable(s, due[i]) && verdict(i))
  {
  }

  lemma NothingLeft(fits: seq<Task> -> bool, tasks: seq<Task>, due: seq<Task>, ok: seq<bool>,
                    now: nat, delay: nat -> nat)
    requires |due| == |ok|
    ensures Drained(fits, tasks, due[|due|..], ok[|due|..], now, delay) == tasks
  {
  }

  lemma SameReach(s: Shelf<Record>, t: Shelf<Record>, task: Task)
    requires OnlyPending(s, t)
    ensures Reachable(s, task) == Reachable(t, task)
  {
  }

  lemma SamePending(s: Shelf<Record>)
    ensures OnlyPending(s, s)
  {
  }

  lemma PendingTwice(s: Shelf<Record>, t: Shelf<Record>, r: Shelf<Record>)
    requires OnlyPending(s, t) && OnlyPending(t, r)
    ensures OnlyPending(s, r)
  {
  }

  lemma KeptSame(s: Shelf<Record>, u: Setup, records: set<string>)
    ensures OthersKept(s, s, u, records)
  {
  }

  lemma TakenIsSeen(u: Setup, d: Device, msgId: bytes, body: Mail, freshDh: nat)
    ensures var (taken, outcome) := Take(u, d, msgId, body, freshDh); !outcome.Refuses? ==> u.RecordId(msgId) in taken.seen
  {
  }

  /** loadContact and requireState. */
  function ContactIn(s: Shelf<Record>, id: string, phase: Phase): Result<Contact, ContactFault> {
    match s.Load("contact", id)
    case Err(e) => Err(NotLoaded(e))
    case Ok(None) => Err(WrongState)
    case Ok(Some(r)) => if r.ContactRecord? && r.contact.phase == phase then Ok(r.contact) else Err(WrongState)
  }

  /** The queue named in the contact, else the stored outbox. */
  function OutboundIn(s: Shelf<Record>, c: Contact): Result<Queue, ContactFault> {
    if c.outbound.Some? then Ok(c.outbound.value)
    else QueueIn(s, if c.outboxQueueId != "" then c.outboxQueueId else OutboxId(c.id))
  }

  function QueueIn(s: Shelf<Record>, id: string): Result<Queue, ContactFault> {
    match s.Load("queue", id)
    case Err(e) => Err(NotLoaded(e))
    case Ok(None) => Err(MissingQueue)
    case Ok(Some(r)) => if r.QueueRecord? then Ok(r.queue) else Err(MissingQueue)
  }

  /** What the lookups find, in terms of the records stored. */
  lemma LookupsExactly(s: Shelf<Record>, id: string, phase: Phase, c: Contact, queueId: string, queue: Queue)
    ensures ContactIn(s, id, phase) == Ok(c) <==> s.Load("contact", id) == Ok(Some(ContactRecord(c))) && c.phase == phase
    ensures AnyContact(s, id) == Ok(c) <==> s.Load("contact", id) == Ok(Some(ContactRecord(c)))
    ensures QueueIn(s, queueId) == Ok(queue) <==> s.Load("queue", queueId) == Ok(Some(QueueRecord(queue)))
    ensures OutboundIn(s, c) == Ok(queue) <==>
              if c.outbound.Some? then c.outbound.value == queue
              else s.Load("queue", if c.outboxQueueId == "" then c.id + ":outbox" else c.outboxQueueId)
                   == Ok(Some(QueueRecord(queue)))
  {
    hide Shelf.Load;
  }

  /** An attempt gets as far as the transport exactly if the contact of the task is stored and
      so is the queue it needs: for a packet, any outbound queue; for an ACK, the inbox. */
  lemma ReachesExactly(s: Shelf<Record>, t: Task)
    ensures Reachable(s, t) <==>
              || t.payload.InitialConfirmation?
              || (exists c :: s.Load("contact", t.payload.contactId) == Ok(Some(ContactRecord(c)))
                              && if t.payload.SendPacket? then c.outbound.Some? || HasQueue(s, t.payload.queueId)
                                 else t.payload.AckMessage? && HasQueue(s, t.payload.queueId) && t.payload.msgId != [])
  {
    hide Shelf.Load;
  }

  ghost predicate HasQueue(s: Shelf<Record>, queueId: string) {
    exists queue :: s.Load("queue", queueId) == Ok(Some(QueueRecord(queue)))
  }

  /** A client on a new store with a new scheduler. */
  method CreateBrowserSimplexContactClient(ns: string, scannable: bool, naming: Naming, payloadOk: string -> bool,
                                           delay: nat -> nat, fits: seq<Task> -> bool)
    returns (client: BrowserSimplexContactClient)
    requires naming.Valid()
    ensures fresh(client) && fresh(client.store) && fresh(client.scheduler) && client.Valid()
    ensures client.naming == naming && client.payloadOk == payloadOk && client.store.scannable == scannable
    ensures client.scheduler.delay == delay && client.scheduler.fits == fits
    ensures client.store.Contents() == Shelf(ns, r => RecordTrip(fits, r), map[])
  {
    var store := new BrowserSimplexStore<Record>(ns, r => RecordTrip(fits, r), scannable);
    var scheduler := new BrowserSimplexRetryScheduler(store, delay, fits);
    client := new BrowserSimplexContactClient(store, scheduler, naming, payloadOk);
  }

  lemma Unwritten(s: Shelf<Record>, t: Shelf<Record>, writes: map<(string, string), Record>, kind: string, id: string)
    requires WroteAll(s, t, writes) && (kind, id) !in writes && ColonFree(kind) && kind != "list"
    ensures t.Load(kind, id) == s.Load(kind, id)
  {
  }

  lemma StillUnread(s: Shelf<Record>, t: Shelf<Record>, u: Setup, writes: map<(string, string), Record>,
                    ids: set<bytes>)
    requires WroteAll(s, t, writes) && forall id :: ("received", id) !in writes
    requires forall m :: m in ids ==> s.Load("received", u.RecordId(m)) == Ok(None)
    ensures forall m :: m in ids ==> t.Load("received", u.RecordId(m)) == Ok(None)
  {
    KindNames();
    hide *;
    forall m | m in ids ensures t.Load("received", u.RecordId(m)) == Ok(None) {
      Unwritten(s, t, writes, "received", u.RecordId(m));
    }
  }

  lemma RequestReceivesNone(id: string, ownDh: nat, inviterDh: nat, reply: Option<Queue>, outbound: Queue)
    ensures forall x :: ("received", x) !in RequestWrites(id, ownDh, inviterDh, reply, outbound)
  {
    hide SafePart;
    assert "received"[2] == 'c' && "ratchet"[2] == 't' && "contact"[0] == 'c' && "queue"[0] == 'q';
  }

  lemma AcceptReceivesNone(contact: Contact, queueDh: nat, senderDh: nat, reply: Option<Queue>)
    ensures forall x :: ("received", x) !in AcceptWrites(contact, queueDh, senderDh, reply)
  {
    hide SafePart;
    assert "received"[2] == 'c' && "ratchet"[2] == 't' && "contact"[0] == 'c' && "queue"[0] == 'q';
  }

  /** The store a successful requestContact leaves shows the initiator's end, with no
      message received. */
  lemma RequestedShows(s: Shelf<Record>, t: Shelf<Record>, u: Setup, ownDh: nat, inviterDh: nat,
                       reply: Option<Queue>, outbound: Queue, ids: set<bytes>)
    requires WroteAll(s, t, RequestWrites(u.contactId, ownDh, inviterDh, reply, outbound))
    requires Keeps(t, u.fits) && StoredTasks(t).Ok? && u.naming.Valid()
    requires SafePart(u.contactId) && SafePart(InboxId(u.contactId)) && SafePart(OutboxId(u.contactId))
    requires forall m :: m in ids ==> s.Load("received", u.RecordId(m)) == Ok(None)
    ensures Shows(t, u, Device(RequestFrom(ownDh, inviterDh).ratchet.value, map[], StoredTasks(t).value), ids)
  {
    hide Shelf.Load, SafePart, ColonFree, Keeps, StoredTasks, ShowsEnd, Shows, WroteAll, RequestWrites;
    RequestedEnd(s, t, u.contactId, ownDh, inviterDh, reply, outbound);
    RequestReceivesNone(u.contactId, ownDh, inviterDh, reply, outbound);
    StillUnread(s, t, u, RequestWrites(u.contactId, ownDh, inviterDh, reply, outbound), ids);
    EndShows(t, u, RequestFrom(ownDh, inviterDh), ids);
  }

  /** And so does the store that accepting a request leaves, of the inviter's end. */
  lemma AcceptedShows(s: Shelf<Record>, t: Shelf<Record>, u: Setup, contact: Contact, queueDh: nat, senderDh: nat,
                      reply: Option<Queue>, ids: set<bytes>)
    requires WroteAll(s, t, AcceptWrites(contact, queueDh, senderDh, reply)) && contact.id == u.contactId
    requires Keeps(t, u.fits) && StoredTasks(t).Ok? && u.naming.Valid()
    requires SafePart(u.contactId) && (reply.Some? ==> SafePart(OutboxId(u.contactId)))
    requires forall m :: m in ids ==> s.Load("received", u.RecordId(m)) == Ok(None)
    ensures Shows(t, u, Device(AcceptFor(queueDh, senderDh).ratchet.value, map[], StoredTasks(t).value), ids)
  {
    hide Shelf.Load, SafePart, ColonFree, Keeps, StoredTasks, ShowsEnd, Shows, WroteAll, AcceptWrites;
    AcceptedEnd(s, t, contact, queueDh, senderDh, reply);
    AcceptReceivesNone(contact, queueDh, senderDh, reply);
    StillUnread(s, t, u, AcceptWrites(contact, queueDh, senderDh, reply), ids);
    EndShows(t, u, AcceptFor(queueDh, senderDh), ids);
  }
}
