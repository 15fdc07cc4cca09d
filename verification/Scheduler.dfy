/** Retry tasks kept in one list of the durable store (src/browser-simplex-scheduler.mjs). */
module Scheduler {
  import opened Outcomes
  import opened Store
  import opened ContactRecords

  datatype SchedulerFault = BadTaskId | ListUnreadable | ListUnwritable

  function Others(tasks: seq<Task>, id: string): (r: seq<Task>)
    ensures forall t :: t in r <==> t in tasks && t.id != id
    ensures |r| <= |tasks|
  {
    if tasks == [] then [] else (if tasks[0].id == id then [] else [tasks[0]]) + Others(tasks[1..], id)
  }

  function NewTask(id: string, payload: Payload, now: nat): Task {
    Task(id, payload, 0, now, now, now, 0)
  }

  function MarkFailure(t: Task, now: nat, delay: nat -> nat): Task {
    t.(attempts := t.attempts + 1, updatedAt := now, nextAttemptAt := now + delay(t.attempts + 1))
  }

  function MarkSuccess(t: Task, now: nat): Task {
    t.(completedAt := now)
  }

  function Failing(tasks: seq<Task>, id: string, now: nat, delay: nat -> nat): seq<Task> {
    seq(|tasks|, i requires 0 <= i < |tasks| => if tasks[i].id == id then MarkFailure(tasks[i], now, delay) else tasks[i])
  }

  function Completing(tasks: seq<Task>, id: string, now: nat): seq<Task> {
    seq(|tasks|, i requires 0 <= i < |tasks| => if tasks[i].id == id then MarkSuccess(tasks[i], now) else tasks[i])
  }

  function Dropping(tasks: seq<Task>, test: Task -> bool): (r: seq<Task>)
    ensures forall t :: t in r <==> t in tasks && !test(t)
    ensures |r| <= |tasks|
  {
    if tasks == [] then [] else (if test(tasks[0]) then [] else [tasks[0]]) + Dropping(tasks[1..], test)
  }

  function DueTasks(tasks: seq<Task>, now: nat): (r: seq<Task>)
    ensures forall t :: t in r <==> t in tasks && t.completedAt == 0 && t.nextAttemptAt <= now
  {
    if tasks == [] then []
    else (if tasks[0].completedAt == 0 && tasks[0].nextAttemptAt <= now then [tasks[0]] else []) + DueTasks(tasks[1..], now)
  }

  function Oldest(tasks: seq<Task>): seq<Task> {
    if |tasks| <= MAX_LIST_ITEMS then tasks else tasks[..MAX_LIST_ITEMS]
  }

  /** What replacing the stored list does to it: the newest tasks past the cap are
      dropped, and a list whose text is too long is refused. */
  function Written(fits: seq<Task> -> bool, tasks: seq<Task>): Option<seq<Task>> {
    if fits(Oldest(tasks)) then Some(Oldest(tasks)) else None
  }

  function Enqueued(fits: seq<Task> -> bool, tasks: seq<Task>, id: string, payload: Payload,
                    now: nat): Option<seq<Task>>
  {
    if !SafePart(id) then None else Written(fits, Others(tasks, id) + [NewTask(id, payload, now)])
  }

  function Failed(fits: seq<Task> -> bool, tasks: seq<Task>, id: string, now: nat,
                  delay: nat -> nat): Option<seq<Task>>
  {
    if !SafePart(id) then None else Written(fits, Failing(tasks, id, now, delay))
  }

  function Completed(fits: seq<Task> -> bool, tasks: seq<Task>, id: string, now: nat): Option<seq<Task>> {
    if !SafePart(id) then None else Written(fits, Completing(tasks, id, now))
  }

  /** enqueue then fail, as every caller does: each may throw and leave what it found. */
  function Requeued(fits: seq<Task> -> bool, tasks: seq<Task>, id: string, payload: Payload, now: nat,
                    delay: nat -> nat): seq<Task>
  {
    match Enqueued(fits, tasks, id, payload, now)
    case None => tasks
    case Some(queued) =>
      match Failed(fits, queued, id, now, delay)
      case None => queued
      case Some(failed) => failed
  }

  /** Neither half of Requeued throws. */
  predicate Requeues(fits: seq<Task> -> bool, tasks: seq<Task>, id: string, payload: Payload, now: nat,
                     delay: nat -> nat)
  {
    var queued := Enqueued(fits, tasks, id, payload, now);
    queued.Some? && Failed(fits, queued.value, id, now, delay).Some?
  }

  /** What the answer to a retried task does to the list; None if that throws. */
  function Answered(fits: seq<Task> -> bool, tasks: seq<Task>, id: string, ok: bool, now: nat,
                    delay: nat -> nat): Option<seq<Task>>
  {
    var completed := if ok then Completed(fits, tasks, id, now) else None;
    if completed.Some? then completed else Failed(fits, tasks, id, now, delay)
  }

  /** One after the other, until one throws. */
  function Drained(fits: seq<Task> -> bool, tasks: seq<Task>, due: seq<Task>, ok: seq<bool>, now: nat,
                   delay: nat -> nat): seq<Task>
    requires |due| == |ok|
    decreases |due|
  {
    if due == [] then tasks
    else
      match Answered(fits, tasks, due[0].id, ok[0], now, delay)
      case None => tasks
      case Some(next) => Drained(fits, next, due[1..], ok[1..], now, delay)
  }

  /** A task of this id and payload is there and still to do. */
  ghost predicate HasOpenTask(tasks: seq<Task>, id: string, payload: Payload) {
    exists t :: t in tasks && t.id == id && t.payload == payload && t.completedAt == 0
  }

  ghost predicate From(tasks: seq<Task>, t: Task) {
    exists o :: o in tasks && o.id == t.id && o.payload == t.payload
  }

  lemma FailingKeeps(tasks: seq<Task>, id: string, now: nat, delay: nat -> nat)
    ensures var r := Failing(tasks, id, now, delay);
            && |r| == |tasks| && (forall t :: t in r ==> From(tasks, t))
            && (forall i, p :: HasOpenTask(tasks, i, p) ==> HasOpenTask(r, i, p))
  {
    var r := Failing(tasks, id, now, delay);
    forall t | t in r ensures From(tasks, t) {
      var i :| 0 <= i < |r| && r[i] == t;
      assert tasks[i] in tasks;
    }
    forall j, p | HasOpenTask(tasks, j, p) ensures HasOpenTask(r, j, p) {
      var t :| t in tasks && t.id == j && t.payload == p && t.completedAt == 0;
      var i :| 0 <= i < |tasks| && tasks[i] == t;
      assert r[i] in r;
    }
  }

  lemma CompletingKeeps(tasks: seq<Task>, id: string, now: nat)
    ensures var r := Completing(tasks, id, now);
            && |r| == |tasks| && (forall t :: t in r ==> From(tasks, t))
            && (forall i, p :: i != id && HasOpenTask(tasks, i, p) ==> HasOpenTask(r, i, p))
  {
    var r := Completing(tasks, id, now);
    forall t | t in r ensures From(tasks, t) {
      var i :| 0 <= i < |r| && r[i] == t;
      assert tasks[i] in tasks;
    }
    forall j, p | j != id && HasOpenTask(tasks, j, p) ensures HasOpenTask(r, j, p) {
      var t :| t in tasks && t.id == j && t.payload == p && t.completedAt == 0;
      var i :| 0 <= i < |tasks| && tasks[i] == t;
      assert r[i] in r;
    }
  }

  /** A list within its cap that gets one more task keeps all others; the new one is kept
      if and only if the others leave room for it. */
  lemma EnqueuedKeeps(fits: seq<Task> -> bool, tasks: seq<Task>, id: string, payload: Payload, now: nat)
    requires |tasks| <= MAX_LIST_ITEMS && Enqueued(fits, tasks, id, payload, now).Some?
    ensures var r := Enqueued(fits, tasks, id, payload, now).value;
            && |r| <= MAX_LIST_ITEMS && (forall t :: t in r ==> t == NewTask(id, payload, now) || t in tasks)
            && (forall i, p :: i != id && HasOpenTask(tasks, i, p) ==> HasOpenTask(r, i, p))
            && (HasOpenTask(r, id, payload) <==> |Others(tasks, id)| < MAX_LIST_ITEMS)
  {
    var others, t := Others(tasks, id), NewTask(id, payload, now);
    var r := Enqueued(fits, tasks, id, payload, now).value;
    assert r == if |others| < MAX_LIST_ITEMS then others + [t] else others;
    assert t in others + [t];
    forall i, p | i != id && HasOpenTask(tasks, i, p) ensures HasOpenTask(r, i, p) {
      var o :| o in tasks && o.id == i && o.payload == p && o.completedAt == 0;
      assert o in r;
    }
  }

  /** What a failed send or ACK does to the list. */
  lemma RequeuedKeeps(fits: seq<Task> -> bool, tasks: seq<Task>, id: string, payload: Payload, now: nat,
                      delay: nat -> nat)
    requires |tasks| <= MAX_LIST_ITEMS
    ensures var r := Requeued(fits, tasks, id, payload, now, delay);
            && |r| <= MAX_LIST_ITEMS
            && (forall t :: t in r ==> (t.id == id && t.payload == payload) || From(tasks, t))
            && (forall i, p :: i != id && HasOpenTask(tasks, i, p) ==> HasOpenTask(r, i, p))
  {
    var queued := Enqueued(fits, tasks, id, payload, now);
    if queued.Some? {
      EnqueuedKeeps(fits, tasks, id, payload, now);
      FailingKeeps(queued.value, id, now, delay);
    }
  }

  /** A failed task is to be found in the list afterwards if and only if the list could be
      written and had room, or the list could not be written and an earlier one is there.
      A full list drops a new entry without an error. */
  lemma RequeuedHolds(fits: seq<Task> -> bool, tasks: seq<Task>, id: string, payload: Payload, now: nat,
                      delay: nat -> nat)
    requires |tasks| <= MAX_LIST_ITEMS
    ensures HasOpenTask(Requeued(fits, tasks, id, payload, now, delay), id, payload)
            <==> if Enqueued(fits, tasks, id, payload, now).Some? then |Others(tasks, id)| < MAX_LIST_ITEMS
                 else HasOpenTask(tasks, id, payload)
  {
    var queued := Enqueued(fits, tasks, id, payload, now);
    if queued.Some? {
      EnqueuedKeeps(fits, tasks, id, payload, now);
      FailingKeeps(queued.value, id, now, delay);
      var r := Failing(queued.value, id, now, delay);
      if HasOpenTask(r, id, payload) {
        var t :| t in r && t.id == id && t.payload == payload && t.completedAt == 0;
        var i :| 0 <= i < |r| && r[i] == t;
        assert queued.value[i] in queued.value;
      }
    }
  }

  // ------------------------------------------------------------- on the store

  function StoredTasks(s: Shelf<Record>): Result<seq<Task>, SchedulerFault> {
    match s.Load("pending", "queue")
    case Err(_) => Err(ListUnreadable)
    case Ok(None) => Ok([])
    case Ok(Some(r)) => if r.PendingRecord? then Ok(r.tasks) else Err(ListUnreadable)
  }

  /** Nothing but the retry list has changed. */
  ghost predicate OnlyPending(s: Shelf<Record>, t: Shelf<Record>) {
    && t.ns == s.ns && t.trip == s.trip
    && (forall kind, id :: ColonFree(kind) && kind != "list" && kind != "pending" ==>
      t.Load(kind, id) == s.Load(kind, id))
    && (forall kind :: kind != "pending" ==> t.Listed(kind) == s.Listed(kind))
  }

  lemma PendingSaved(s: Shelf<Record>, fits: seq<Task> -> bool, tasks: seq<Task>)
    requires Keeps(s, fits)
    ensures var r := s.Save("pending", "queue", PendingRecord(tasks));
            && (r.Ok? <==> fits(tasks))
            && (r.Ok? ==> StoredTasks(r.value) == Ok(tasks) && OnlyPending(s, r.value) && Keeps(r.value, fits))
  {
    assert s.trip(PendingRecord(tasks)) == RecordTrip(fits, PendingRecord(tasks));
    var r := s.Save("pending", "queue", PendingRecord(tasks));
    if r.Ok? {
      forall kind, id | ColonFree(kind) && kind != "list" ensures
        r.value.Load(kind, id)
        == if kind == "pending" && id == "queue" then Ok(Some(PendingRecord(tasks))) else s.Load(kind, id)
      {
        SaveLoads(s, "pending", "queue", PendingRecord(tasks), kind, id);
      }
      forall kind | kind != "pending" ensures r.value.Listed(kind) == s.Listed(kind) {
        SaveLists(s, "pending", "queue", PendingRecord(tasks), kind);
      }
    }
  }

  class BrowserSimplexRetryScheduler {
    const store: BrowserSimplexStore<Record>
    const delay: nat -> nat
    ghost const fits: seq<Task> -> bool
    var tasks: seq<Task>

    ghost predicate Valid()
      reads this, store
    {
      store.Valid() && Keeps(store.Contents(), fits) && StoredTasks(store.Contents()).Ok?
    }

    ghost function Stored(): seq<Task>
      requires Valid()
      reads this, store
    {
      StoredTasks(store.Contents()).value
    }

    constructor (store: BrowserSimplexStore<Record>, delay: nat -> nat, ghost fits: seq<Task> -> bool)
      requires store.Valid() && Keeps(store.Contents(), fits) && StoredTasks(store.Contents()).Ok?
      ensures Valid() && this.store == store && this.delay == delay && this.fits == fits
    {
      this.store, this.delay, this.fits := store, delay, fits;
      tasks := [];
    }

    method Load()
      requires Valid()
      modifies this
      ensures tasks == Stored() && Valid()
    {
      var loaded := store.Load("pending", "queue");
      tasks := if loaded.value.Some? then loaded.value.value.tasks else [];
    }

    method Save() returns (fault: Option<SchedulerFault>)
      requires Valid()
      modifies store
      ensures Valid() && OnlyPending(old(store.Contents()), store.Contents())
      ensures var r := Written(fits, tasks);
              if r.Some? then fault == None && Stored() == r.value
              else fault == Some(ListUnwritable) && store.Contents() == old(store.Contents())
    {
      PendingSaved(store.Contents(), fits, Oldest(tasks));
      hide Shelf.Save, Shelf.Load, RecordTrip;
      var saved := store.Save("pending", "queue", PendingRecord(Oldest(tasks)));
      return if saved.None? then None else Some(ListUnwritable);
    }

    method Enqueue(id: string, payload: Payload, now: nat) returns (fault: Option<SchedulerFault>)
      requires Valid()
      modifies this, store
      ensures Valid() && OnlyPending(old(store.Contents()), store.Contents())
      ensures var r := Enqueued(fits, old(Stored()), id, payload, now);
              if r.Some? then fault == None && Stored() == r.value
              else fault.Some? && store.Contents() == old(store.Contents())
    {
      if !SafePart(id) { return Some(BadTaskId); }
      Load();
      tasks := Others(tasks, id) + [NewTask(id, payload, now)];
      fault := Save();
    }

    method Due(now: nat) returns (due: seq<Task>)
      requires Valid()
      modifies this
      ensures due == DueTasks(Stored(), now) && Valid()
    {
      Load();
      return DueTasks(tasks, now);
    }

    method Fail(id: string, now: nat) returns (fault: Option<SchedulerFault>)
      requires Valid()
      modifies this, store
      ensures Valid() && OnlyPending(old(store.Contents()), store.Contents())
      ensures var r := Failed(fits, old(Stored()), id, now, delay);
              if r.Some? then fault == None && Stored() == r.value
              else fault.Some? && store.Contents() == old(store.Contents())
    {
      if !SafePart(id) { return Some(BadTaskId); }
      Load();
      tasks := Failing(tasks, id, now, delay);
      fault := Save();
    }

    method Complete(id: string, now: nat) returns (fault: Option<SchedulerFault>)
      requires Valid()
      modifies this, store
      ensures Valid() && OnlyPending(old(store.Contents()), store.Contents())
      ensures var r := Completed(fits, old(Stored()), id, now);
              if r.Some? then fault == None && Stored() == r.value
              else fault.Some? && store.Contents() == old(store.Contents())
    {
      if !SafePart(id) { return Some(BadTaskId); }
      Load();
      tasks := Completing(tasks, id, now);
      fault := Save();
    }

    method RemoveWhere(test: Task -> bool) returns (fault: Option<SchedulerFault>)
      requires Valid()
      modifies this, store
      ensures Valid() && OnlyPending(old(store.Contents()), store.Contents())
      ensures var r := Written(fits, Dropping(old(Stored()), test));
              if r.Some? then fault == None && Stored() == r.value
              else fault.Some? && store.Contents() == old(store.Contents())
    {
      Load();
      tasks := Dropping(tasks, test);
      fault := Save();
    }

    /** enqueue then fail: what the contact client does with a send or ACK that failed. */
    method Requeue(id: string, payload: Payload, now: nat) returns (fault: Option<SchedulerFault>)
      requires Valid()
      modifies this, store
      ensures Valid() && OnlyPending(old(store.Contents()), store.Contents())
      ensures Stored() == Requeued(fits, old(Stored()), id, payload, now, delay)
      ensures fault.None? <==> Requeues(fits, old(Stored()), id, payload, now, delay)
    {
      fault := Enqueue(id, payload, now);
      if fault.None? { fault := Fail(id, now); }
    }
  }
}
