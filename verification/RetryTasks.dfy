/** What the retry list holds after each operation of its scheduler, task by task. */
module RetryTasks {
  import opened Outcomes
  import opened Store
  import opened ContactRecords
  import opened Scheduler
  import Ratchet

  /** Where the tasks that pass a test stand, in list order. */
  ghost predicate Positions(tasks: seq<Task>, test: Task -> bool, at: seq<nat>) {
    && (forall j, k :: 0 <= j < k < |at| ==> at[j] < at[k])
    && (forall k :: 0 <= k < |at| ==> at[k] < |tasks| && test(tasks[at[k]]))
    && (forall i {:trigger i in at} :: 0 <= i < |tasks| && test(tasks[i]) ==> i in at)
  }

  function TasksAt(tasks: seq<Task>, at: seq<nat>): seq<Task>
    requires forall k :: 0 <= k < |at| ==> at[k] < |tasks|
  {
    seq(|at|, k requires 0 <= k < |at| => tasks[at[k]])
  }

  function Later(at: seq<nat>): (r: seq<nat>)
    ensures |r| == |at| && forall k :: 0 <= k < |at| ==> r[k] == at[k] + 1
  {
    seq(|at|, k requires 0 <= k < |at| => at[k] + 1)
  }

  lemma InLater(at: seq<nat>, i: nat)
    requires i in at
    ensures i + 1 in Later(at)
  {
    var k :| 0 <= k < |at| && at[k] == i;
    assert Later(at)[k] == i + 1;
  }

  /** One task put in front of a list. */
  lemma PositionsAfter(tasks: seq<Task>, test: Task -> bool, rest: seq<nat>)
    requires tasks != [] && Positions(tasks[1..], test, rest)
    ensures Positions(tasks, test, if test(tasks[0]) then [0] + Later(rest) else Later(rest))
  {
    var tail, later := tasks[1..], Later(rest);
    forall k | 0 <= k < |later| ensures later[k] < |tasks| && test(tasks[later[k]]) {
      assert tail[rest[k]] == tasks[rest[k] + 1];
    }
    forall i: nat | 0 < i < |tasks| && test(tasks[i]) ensures i in later {
      assert tail[i - 1] == tasks[i] && i - 1 in rest;
      InLater(rest, i - 1);
    }
    if test(tasks[0]) {
      ZeroFirst(tasks, test, later);
    }
  }

  lemma ZeroFirst(tasks: seq<Task>, test: Task -> bool, later: seq<nat>)
    requires tasks != [] && test(tasks[0])
    requires forall k :: 0 <= k < |later| ==> 0 < later[k] < |tasks| && test(tasks[later[k]])
    requires forall j, k :: 0 <= j < k < |later| ==> later[j] < later[k]
    requires forall i {:trigger i in later} :: 0 < i < |tasks| && test(tasks[i]) ==> i in later
    ensures Positions(tasks, test, [0] + later)
  {
    var at := [0] + later;
    assert forall i :: i in at <==> i == 0 || i in later;
  }

  lemma TasksAtLater(tasks: seq<Task>, rest: seq<nat>)
    requires tasks != [] && forall k :: 0 <= k < |rest| ==> rest[k] < |tasks| - 1
    ensures TasksAt(tasks, [0] + Later(rest)) == [tasks[0]] + TasksAt(tasks[1..], rest)
    ensures TasksAt(tasks, Later(rest)) == TasksAt(tasks[1..], rest)
  {
  }

  /** What removeWhere leaves of the list it found, which it then cuts to 1000: all that
      fail the test, in order. */
  lemma {:induction false} DroppingPicks(tasks: seq<Task>, test: Task -> bool) returns (at: seq<nat>)
    ensures Positions(tasks, (t: Task) => !test(t), at) && Dropping(tasks, test) == TasksAt(tasks, at)
  {
    if tasks == [] {
      at := [];
    } else {
      hide Picked;
      var keeps := (t: Task) => !test(t);
      var rest := DroppingPicks(tasks[1..], test);
      PositionsAfter(tasks, keeps, rest);
      at := if keeps(tasks[0]) then [0] + Later(rest) else Later(rest);
      TasksAtLater(tasks, rest);
    }
  }

  lemma {:induction false} DueIsDropping(tasks: seq<Task>, now: nat)
    ensures DueTasks(tasks, now) == Dropping(tasks, (t: Task) => !(t.completedAt == 0 && t.nextAttemptAt <= now))
  {
    if tasks != [] { DueIsDropping(tasks[1..], now); }
  }

  /** The due tasks are those neither completed nor put off past `now`, in list order. */
  lemma DueInOrder(tasks: seq<Task>, now: nat) returns (at: seq<nat>)
    ensures Positions(tasks, (t: Task) => t.completedAt == 0 && t.nextAttemptAt <= now, at)
    ensures DueTasks(tasks, now) == TasksAt(tasks, at)
  {
    DueIsDropping(tasks, now);
    at := DroppingPicks(tasks, (t: Task) => !(t.completedAt == 0 && t.nextAttemptAt <= now));
  }

  lemma {:induction false} OthersIsDropping(tasks: seq<Task>, id: string)
    ensures Others(tasks, id) == Dropping(tasks, (t: Task) => t.id == id)
  {
    if tasks != [] { OthersIsDropping(tasks[1..], id); }
  }

  // ------------------------------------------------------ one task changes

  /** Every task of this id is completed at `now`; nothing else differs. */
  ghost predicate Done(tasks: seq<Task>, after: seq<Task>, id: string, now: nat) {
    && |after| == |tasks|
    && forall i :: 0 <= i < |tasks| ==>
         after[i] == if tasks[i].id == id then Finished(tasks[i], now) else tasks[i]
  }

  /** Every task of this id has one more attempt and waits for its delay; nothing else differs. */
  ghost predicate PutOff(tasks: seq<Task>, after: seq<Task>, id: string, now: nat, delay: nat -> nat) {
    && |after| == |tasks|
    && forall i :: 0 <= i < |tasks| ==>
         after[i] == if tasks[i].id == id then Delayed(tasks[i], now, delay) else tasks[i]
  }

  function Finished(t: Task, now: nat): Task {
    Task(t.id, t.payload, t.attempts, t.createdAt, t.updatedAt, t.nextAttemptAt, now)
  }

  function Delayed(t: Task, now: nat, delay: nat -> nat): Task {
    Task(t.id, t.payload, t.attempts + 1, t.createdAt, now, now + delay(t.attempts + 1), t.completedAt)
  }

  /** complete and fail write exactly that, if the id is sound and the text is not too long. */
  lemma CompletedExactly(fits: seq<Task> -> bool, tasks: seq<Task>, id: string, now: nat, after: seq<Task>)
    requires |tasks| <= 1000 && Done(tasks, after, id, now)
    ensures Completed(fits, tasks, id, now) == if SafePart(id) && fits(after) then Some(after) else None
  {
    assert Completing(tasks, id, now) == after;
  }

  lemma FailedExactly(fits: seq<Task> -> bool, tasks: seq<Task>, id: string, now: nat, delay: nat -> nat,
                      after: seq<Task>)
    requires |tasks| <= 1000 && PutOff(tasks, after, id, now, delay)
    ensures Failed(fits, tasks, id, now, delay) == if SafePart(id) && fits(after) then Some(after) else None
  {
    assert Failing(tasks, id, now, delay) == after;
  }

  /** Both lists are there to be written. */
  lemma MarksHold(tasks: seq<Task>, id: string, now: nat, delay: nat -> nat)
    ensures Done(tasks, Completing(tasks, id, now), id, now)
    ensures PutOff(tasks, Failing(tasks, id, now, delay), id, now, delay)
  {
  }

  /** How an attempt ends for its task. */
  datatype Fate = Completes | Waits | Throws

  /** An accepted attempt completes its task if that list can be written.  Any other puts it
      off, if that list can be written, or throws and leaves the list. */
  ghost predicate AnsweredSo(fits: seq<Task> -> bool, tasks: seq<Task>, after: seq<Task>, id: string, ok: bool, now: nat,
                             delay: nat -> nat, fate: Fate)
  {
    && (fate.Completes? <==> ok && SafePart(id) && exists l :: Done(tasks, l, id, now) && fits(l))
    && (fate.Throws? <==> !fate.Completes? && !(SafePart(id) && exists l :: PutOff(tasks, l, id, now, delay) && fits(l)))
    && match fate
       case Completes => Done(tasks, after, id, now)
       case Waits => PutOff(tasks, after, id, now, delay)
       case Throws => after == tasks
  }

  lemma AnsweredExactly(fits: seq<Task> -> bool, tasks: seq<Task>, id: string, ok: bool, now: nat, delay: nat -> nat)
    requires |tasks| <= 1000
    ensures var r := Answered(fits, tasks, id, ok, now, delay);
            var fate := if ok && Completed(fits, tasks, id, now).Some? then Completes else if r.Some? then Waits else Throws;
            AnsweredSo(fits, tasks, if r.Some? then r.value else tasks, id, ok, now, delay, fate)
  {
    var done, late := Completing(tasks, id, now), Failing(tasks, id, now, delay);
    MarksHold(tasks, id, now, delay);
    CompletedExactly(fits, tasks, id, now, done);
    FailedExactly(fits, tasks, id, now, delay, late);
    forall l ensures Done(tasks, l, id, now) ==> l == done { if Done(tasks, l, id, now) { assert l == done; } }
    forall l ensures PutOff(tasks, l, id, now, delay) ==> l == late {
      if PutOff(tasks, l, id, now, delay) { assert l == late; }
    }
    hide Done, PutOff, Completing, Failing, SafePart;
  }

  /** enqueue: all others in order, then the new task, due at once, if there is room for it. */
  lemma EnqueuedExactly(fits: seq<Task> -> bool, tasks: seq<Task>, id: string, payload: Payload, now: nat)
      returns (at: seq<nat>)
    requires |tasks| <= 1000
    ensures Positions(tasks, (t: Task) => t.id != id, at) && |at| <= |tasks|
    ensures var task := Task(id, payload, 0, now, now, now, 0);
            var after := if |at| < 1000 then TasksAt(tasks, at) + [task] else TasksAt(tasks, at);
            Enqueued(fits, tasks, id, payload, now) == if SafePart(id) && fits(after) then Some(after) else None
  {
    OthersIsDropping(tasks, id);
    at := DroppingPicks(tasks, (t: Task) => t.id == id);
    var others := TasksAt(tasks, at);
    assert |others| <= 1000;
    var all := others + [NewTask(id, payload, now)];
    assert |others| == 1000 ==> all[..1000] == others;
  }

  /** enqueue then fail: neither throws exactly if the id is sound and both lists can be
      written; a throw leaves the list as the step before it. */
  lemma RequeuedExactly(fits: seq<Task> -> bool, tasks: seq<Task>, id: string, payload: Payload, now: nat,
                        delay: nat -> nat) returns (at: seq<nat>, late: seq<Task>)
    requires |tasks| <= 1000
    ensures Positions(tasks, (t: Task) => t.id != id, at)
    ensures var task := Task(id, payload, 0, now, now, now, 0);
            var queued := if |at| < 1000 then TasksAt(tasks, at) + [task] else TasksAt(tasks, at);
            && PutOff(queued, late, id, now, delay)
            && (Requeues(fits, tasks, id, payload, now, delay) <==> SafePart(id) && fits(queued) && fits(late))
            && Requeued(fits, tasks, id, payload, now, delay)
               == if !SafePart(id) || !fits(queued) then tasks else if !fits(late) then queued else late
  {
    at := EnqueuedExactly(fits, tasks, id, payload, now);
    var task := Task(id, payload, 0, now, now, now, 0);
    var queued := if |at| < 1000 then TasksAt(tasks, at) + [task] else TasksAt(tasks, at);
    late := Failing(queued, id, now, delay);
    MarksHold(queued, id, now, delay);
    FailedExactly(fits, queued, id, now, delay, late);
    hide Enqueued, Failed, Positions, PutOff, Failing, TasksAt, SafePart;
  }

  // --------------------------------------------------------- no id twice

  ghost predicate DistinctIds(tasks: seq<Task>) {
    forall i, j :: 0 <= i < j < |tasks| ==> tasks[i].id != tasks[j].id
  }

  lemma TasksAtDistinct(tasks: seq<Task>, at: seq<nat>)
    requires DistinctIds(tasks) && (forall k :: 0 <= k < |at| ==> at[k] < |tasks|)
             && (forall j, k :: 0 <= j < k < |at| ==> at[j] < at[k])
    ensures DistinctIds(TasksAt(tasks, at))
  {
  }

  lemma DroppingDistinct(fits: seq<Task> -> bool, tasks: seq<Task>, test: Task -> bool)
    requires DistinctIds(tasks)
    ensures Written(fits, Dropping(tasks, test)).Some? ==> DistinctIds(Written(fits, Dropping(tasks, test)).value)
  {
    var rest := DroppingPicks(tasks, test);
    TasksAtDistinct(tasks, rest);
  }

  lemma MarkedDistinct(fits: seq<Task> -> bool, tasks: seq<Task>, id: string, now: nat, delay: nat -> nat)
    requires |tasks| <= 1000 && DistinctIds(tasks)
    ensures Completed(fits, tasks, id, now).Some? ==> DistinctIds(Completed(fits, tasks, id, now).value)
    ensures Failed(fits, tasks, id, now, delay).Some? ==> DistinctIds(Failed(fits, tasks, id, now, delay).value)
  {
    SameIdsDistinct(tasks, Completing(tasks, id, now));
    SameIdsDistinct(tasks, Failing(tasks, id, now, delay));
    hide DistinctIds;
  }

  lemma SameIdsDistinct(tasks: seq<Task>, after: seq<Task>)
    requires DistinctIds(tasks) && |after| == |tasks| && forall i :: 0 <= i < |tasks| ==> after[i].id == tasks[i].id
    ensures DistinctIds(after)
  {
  }

  /** A list that names each task once still does after every operation. */
  lemma DistinctKept(fits: seq<Task> -> bool, tasks: seq<Task>, id: string, payload: Payload, now: nat,
                     delay: nat -> nat, test: Task -> bool)
    requires |tasks| <= 1000 && DistinctIds(tasks)
    ensures Enqueued(fits, tasks, id, payload, now).Some? ==> DistinctIds(Enqueued(fits, tasks, id, payload, now).value)
    ensures Completed(fits, tasks, id, now).Some? ==> DistinctIds(Completed(fits, tasks, id, now).value)
    ensures Failed(fits, tasks, id, now, delay).Some? ==> DistinctIds(Failed(fits, tasks, id, now, delay).value)
    ensures Written(fits, Dropping(tasks, test)).Some? ==> DistinctIds(Written(fits, Dropping(tasks, test)).value)
  {
    hide *;
    if Enqueued(fits, tasks, id, payload, now).Some? { EnqueuedDistinct(fits, tasks, id, payload, now); }
    MarkedDistinct(fits, tasks, id, now, delay);
    DroppingDistinct(fits, tasks, test);
  }

  lemma EnqueuedDistinct(fits: seq<Task> -> bool, tasks: seq<Task>, id: string, payload: Payload, now: nat)
    requires |tasks| <= 1000 && DistinctIds(tasks) && Enqueued(fits, tasks, id, payload, now).Some?
    ensures DistinctIds(Enqueued(fits, tasks, id, payload, now).value)
  {
    var others := EnqueuedExactly(fits, tasks, id, payload, now);
    TasksAtDistinct(tasks, others);
    hide Enqueued;
  }

  // ----------------------------------------------------- a drain, attempt by attempt

  /** One attempt of a drain and the packet it handed to the transport, if any. */
  datatype Attempt = Attempt(id: string, sent: Option<Ratchet.Packet>, fate: Fate)

  function Fated(t: Task, fate: Fate, now: nat, delay: nat -> nat): Task {
    match fate
    case Completes => Finished(t, now)
    case Waits => Delayed(t, now, delay)
    case Throws => t
  }

  /** What a drain of the tasks at these places has done: each attempt decided its own
      task, and no other task has changed. */
  ghost predicate DrainedSo(tasks: seq<Task>, after: seq<Task>, at: seq<nat>, attempts: seq<Attempt>, now: nat,
                            delay: nat -> nat)
  {
    && |after| == |tasks| && |attempts| <= |at| && (forall k :: 0 <= k < |at| ==> at[k] < |tasks|)
    && (forall k :: 0 <= k < |attempts| ==>
          && attempts[k].id == tasks[at[k]].id
          && after[at[k]] == Fated(tasks[at[k]], attempts[k].fate, now, delay))
    && (forall i :: 0 <= i < |tasks| && i !in at[..|attempts|] ==> after[i] == tasks[i])
  }

  /** What one attempt does to a list whose ids differ. */
  ghost predicate Decided(before: seq<Task>, after: seq<Task>, a: Attempt, now: nat, delay: nat -> nat) {
    match a.fate
    case Completes => Done(before, after, a.id, now)
    case Waits => PutOff(before, after, a.id, now, delay)
    case Throws => after == before
  }

  lemma OneFated(before: seq<Task>, after: seq<Task>, a: Attempt, i: nat, now: nat, delay: nat -> nat)
    requires DistinctIds(before) && i < |before| && before[i].id == a.id && Decided(before, after, a, now, delay)
    ensures after == before[i := Fated(before[i], a.fate, now, delay)]
  {
    hide Finished, Delayed;
  }

  lemma DrainedIds(tasks: seq<Task>, after: seq<Task>, at: seq<nat>, attempts: seq<Attempt>, now: nat, delay: nat -> nat)
    requires DrainedSo(tasks, after, at, attempts, now, delay)
    ensures |after| == |tasks| && forall i :: 0 <= i < |tasks| ==> after[i].id == tasks[i].id
  {
    forall i | 0 <= i < |tasks| ensures after[i].id == tasks[i].id {
      if i in at[..|attempts|] { var k :| 0 <= k < |attempts| && at[k] == i; }
    }
  }

  lemma DrainedMore(tasks: seq<Task>, before: seq<Task>, after: seq<Task>, at: seq<nat>, attempts: seq<Attempt>,
                    a: Attempt, now: nat, delay: nat -> nat)
    requires DistinctIds(tasks) && DrainedSo(tasks, before, at, attempts, now, delay) && |attempts| < |at|
    requires forall j, k :: 0 <= j < k < |at| ==> at[j] < at[k]
    requires a.id == tasks[at[|attempts|]].id && Decided(before, after, a, now, delay)
    ensures DrainedSo(tasks, after, at, attempts + [a], now, delay)
  {
    hide Decided, Fated;
    var n := |attempts|;
    DrainedIds(tasks, before, at, attempts, now, delay);
    OneFated(before, after, a, at[n], now, delay);
    assert at[..n + 1] == at[..n] + [at[n]];
    assert at[n] !in at[..n];
    assert after == before[at[n] := Fated(tasks[at[n]], a.fate, now, delay)];
  }

  lemma NothingDrained(tasks: seq<Task>, at: seq<nat>, now: nat, delay: nat -> nat)
    requires forall k :: 0 <= k < |at| ==> at[k] < |tasks|
    ensures DrainedSo(tasks, tasks, at, [], now, delay)
  {
  }

  lemma AnsweredLength(fits: seq<Task> -> bool, tasks: seq<Task>, after: seq<Task>, id: string, ok: bool, now: nat,
                       delay: nat -> nat, fate: Fate)
    requires AnsweredSo(fits, tasks, after, id, ok, now, delay, fate)
    ensures |after| == |tasks|
    ensures fate.Completes? ==> ok
    ensures forall sent :: Decided(tasks, after, Attempt(id, sent, fate), now, delay)
    ensures (forall l :: fits(l)) && SafePart(id) ==> (fate.Completes? <==> ok) && !fate.Throws?
  {
    MarksHold(tasks, id, now, delay);
  }

  lemma OneOfItsId(tasks: seq<Task>, after: seq<Task>, at: seq<nat>, attempts: seq<Attempt>, now: nat,
                   delay: nat -> nat, k: nat, t: Task)
    requires DistinctIds(tasks) && DrainedSo(tasks, after, at, attempts, now, delay) && k < |attempts|
    requires t in after && t.id == attempts[k].id
    ensures t == after[at[k]]
  {
    var i :| 0 <= i < |after| && after[i] == t;
    if i in at[..|attempts|] { var j :| 0 <= j < |attempts| && at[j] == i; }
    assert tasks[i].id == t.id;
  }

  /** After a drain a task that was completed is due at no time, one that was put off
      only once its delay is over, and no id names an open task if its attempt completed it. */
  lemma DrainedDue(tasks: seq<Task>, after: seq<Task>, at: seq<nat>, attempts: seq<Attempt>, now: nat,
                   delay: nat -> nat, k: nat, later: nat)
    requires DistinctIds(tasks) && DrainedSo(tasks, after, at, attempts, now, delay) && k < |attempts| && now > 0
    requires tasks[at[k]].completedAt == 0
    ensures after[at[k]] in DueTasks(after, later)
            <==> match attempts[k].fate
                 case Completes => false
                 case Waits => now + delay(tasks[at[k]].attempts + 1) <= later
                 case Throws => tasks[at[k]].nextAttemptAt <= later
    ensures attempts[k].fate.Completes? ==> forall t :: t in after && t.id == attempts[k].id ==> t.completedAt != 0
  {
    var x := after[at[k]];
    assert x == Fated(tasks[at[k]], attempts[k].fate, now, delay);
    assert x in after;
    forall t | t in after && t.id == attempts[k].id ensures t == x {
      OneOfItsId(tasks, after, at, attempts, now, delay, k, t);
    }
    hide DrainedSo, DistinctIds;
  }
}
