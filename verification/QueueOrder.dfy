/** The order in which the shared buffer of QueueClient gives and evicts. */
module QueueOrder {
  import opened Outcomes
  import opened QueueClient

  /** Arrival numbers grow along the run. */
  predicate Rising(batch: seq<Tx>, from: nat) {
    && (forall i :: 0 <= i < |batch| ==> from <= batch[i].arrival)
    && (forall i, j :: 0 <= i < j < |batch| ==> batch[i].arrival < batch[j].arrival)
  }

  function After(batch: seq<Tx>, from: nat): nat {
    if batch == [] then from else batch[|batch| - 1].arrival + 1
  }

  function Horizon(events: seq<Event>): nat {
    if events == [] then 0
    else
      var ev := events[|events| - 1];
      if ev.Batch? then After(ev.batch, Horizon(events[..|events| - 1])) else Horizon(events[..|events| - 1])
  }

  predicate FedInOrder(events: seq<Event>) {
    events == [] ||
    var ev := events[|events| - 1];
    FedInOrder(events[..|events| - 1]) && (ev.Batch? ==> Rising(ev.batch, Horizon(events[..|events| - 1])))
  }

  /** The buffer is in arrival order, and what was evicted is older than what stayed. */
  predicate Tidy(b: Buffer, horizon: nat) {
    && (forall i, j :: 0 <= i < j < |b.pending| ==> b.pending[i].arrival < b.pending[j].arrival)
    && (forall i :: 0 <= i < |b.pending| ==> b.pending[i].arrival < horizon)
    && (forall e, i :: 0 <= e < |b.evicted| && 0 <= i < |b.pending| ==> b.evicted[e].arrival < b.pending[i].arrival)
    && (forall e :: 0 <= e < |b.evicted| ==> b.evicted[e].arrival < horizon)
  }

  lemma AppendTidy(b: Buffer, tx: Tx, horizon: nat)
    requires Tidy(b, horizon) && horizon <= tx.arrival
    ensures Tidy(b.(pending := b.pending + [tx]), tx.arrival + 1)
  {
  }

  lemma EvictTidy(b: Buffer, over: nat, horizon: nat)
    requires Tidy(b, horizon) && over <= |b.pending|
    ensures Tidy(b.(pending := b.pending[over..], evicted := b.evicted + b.pending[..over]), horizon)
  {
  }

  lemma RememberTidy(b: Buffer, tx: Tx, cap: nat, horizon: nat)
    requires Tidy(b, horizon) && horizon <= tx.arrival
    ensures Tidy(Remember(b, tx, cap), tx.arrival + 1)
  {
    hide Tidy;
    var grown := b.(pending := b.pending + [tx]);
    AppendTidy(b, tx, horizon);
    if |grown.pending| > cap { EvictTidy(grown, |grown.pending| - cap, tx.arrival + 1); }
  }

  lemma {:induction false} ReadBatchTidy(c: Call, b: Buffer, batch: seq<Tx>, cap: nat, horizon: nat)
    requires Tidy(b, horizon) && Rising(batch, horizon)
    ensures Tidy(ReadBatch(c, b, batch, cap).1, After(batch, horizon))
    decreases batch
  {
    if batch != [] {
      var next := batch[0].arrival + 1;
      assert After(batch[1..], next) == After(batch, horizon);
      assert batch[0].arrival <= batch[|batch| - 1].arrival;
      match Judge(c, batch[0])
      case Ignore => ReadBatchTidy(c, b.(lost := b.lost + [batch[0]]), batch[1..], cap, next);
      case Take =>
      case Keep =>
        RememberTidy(b, batch[0], cap, horizon);
        ReadBatchTidy(c, Remember(b, batch[0], cap), batch[1..], cap, next);
    }
  }

  /** Eviction is oldest first, under every interleaving of calls. */
  lemma {:induction false} EvictsOldest(events: seq<Event>, cap: nat)
    requires FedInOrder(events)
    ensures Tidy(Run(events, cap).buffer, Horizon(events))
  {
    if events != [] {
      var before, ev := events[..|events| - 1], events[|events| - 1];
      EvictsOldest(before, cap);
      StepTidy(Run(before, cap), ev, cap, Horizon(before));
    }
  }

  lemma TakeTidy(c: Call, b: Buffer, horizon: nat)
    requires Tidy(b, horizon)
    ensures Tidy(TakeFrom(c, b).1, horizon)
  {
  }

  lemma StepTidy(w: World, ev: Event, cap: nat, horizon: nat)
    requires Tidy(w.buffer, horizon) && (ev.Batch? ==> Rising(ev.batch, horizon))
    ensures Tidy(Step(w, ev, cap).buffer, if ev.Batch? then After(ev.batch, horizon) else horizon)
  {
    hide TakeFrom, ReadBatch;
    if ev.Begin? {
      TakeTidy(ev.call, w.buffer, horizon);
    } else if ev.Batch? && ev.waiter < |w.waiters| {
      ReadBatchTidy(w.waiters[ev.waiter].call, w.buffer, ev.batch, cap, horizon);
    }
  }

  // ------------------------------------------------- messages of one queue

  predicate MessageOf(tx: Tx, q: string) {
    tx.kind.Msg? && tx.queueId == Some(q)
  }

  /** What the codec and the contact layer guarantee: every message names its queue,
      every queue call names one, and no awaited correlation id is one of a message. */
  predicate Plain(ev: Event, q: string, awaited: set<string>) {
    match ev
    case Begin(ForQueue(rcvId), _) => rcvId.Some?
    case Begin(ForCorr(corrId), _) => corrId in awaited
    case Batch(_, batch) => forall i :: 0 <= i < |batch| && batch[i].kind.Msg? ==>
      batch[i].queueId.Some? && (MessageOf(batch[i], q) && batch[i].corrId.Some? ==> batch[i].corrId.value !in awaited)
    case Broken(_) => true
  }

  predicate PlainCall(c: Call, awaited: set<string>) {
    match c
    case ForQueue(rcvId) => rcvId.Some?
    case ForCorr(corrId) => corrId in awaited
  }

  predicate PlainTx(tx: Tx, q: string, awaited: set<string>) {
    tx.kind.Msg? ==> tx.queueId.Some? && (MessageOf(tx, q) && tx.corrId.Some? ==> tx.corrId.value !in awaited)
  }

  predicate PlainWorld(w: World, q: string, awaited: set<string>) {
    && (forall p :: 0 <= p < |w.buffer.pending| ==> PlainTx(w.buffer.pending[p], q, awaited))
    && (forall k :: 0 <= k < |w.waiters| ==> PlainCall(w.waiters[k].call, awaited))
  }

  /** The messages of q went out in arrival order, and none that is still buffered was overtaken. */
  predicate InOrder(w: World, q: string) {
    && (forall i, j :: 0 <= i < j < |w.given| && MessageOf(w.given[i].tx, q) && MessageOf(w.given[j].tx, q) ==>
          w.given[i].tx.arrival < w.given[j].tx.arrival)
    && (forall i, p :: 0 <= i < |w.given| && 0 <= p < |w.buffer.pending|
                       && MessageOf(w.given[i].tx, q) && MessageOf(w.buffer.pending[p], q) ==>
          w.given[i].tx.arrival < w.buffer.pending[p].arrival)
  }

  predicate GivenBefore(w: World, horizon: nat) {
    forall i :: 0 <= i < |w.given| ==> w.given[i].tx.arrival < horizon
  }

  predicate NonePending(b: Buffer, q: string) {
    forall p :: 0 <= p < |b.pending| ==> !MessageOf(b.pending[p], q)
  }

  /** A waiting call for q is handed a message of q from its batch while the buffer,
      which the loop looked at only when the call began, still holds one. */
  predicate Overtakes(w: World, ev: Event, cap: nat, q: string) {
    ev.Batch? && ev.waiter < |w.waiters| && w.waiters[ev.waiter].call == ForQueue(Some(q))
    && var (hit, b) := ReadBatch(ForQueue(Some(q)), w.buffer, ev.batch, cap);
    hit.Some? && MessageOf(hit.value, q) && !NonePending(b, q)
  }

  lemma RememberPlain(b: Buffer, tx: Tx, cap: nat, q: string, awaited: set<string>)
    requires PlainTx(tx, q, awaited) && forall p :: 0 <= p < |b.pending| ==> PlainTx(b.pending[p], q, awaited)
    ensures var b' := Remember(b, tx, cap);
            && (forall p :: 0 <= p < |b'.pending| ==>
                  PlainTx(b'.pending[p], q, awaited) && (b'.pending[p] in b.pending || b'.pending[p] == tx))
            && (NonePending(b, q) && !MessageOf(tx, q) ==> NonePending(b', q))
  {
  }

  /** What a batch leaves buffered arrived before the transmission it hands out, and only
      a call for q is handed a message of q. */
  lemma {:induction false} ReadBatchOrder(c: Call, b: Buffer, batch: seq<Tx>, cap: nat, horizon: nat,
                                          q: string, awaited: set<string>)
    requires PlainCall(c, awaited) && Tidy(b, horizon) && Rising(batch, horizon)
    requires forall i :: 0 <= i < |batch| ==> PlainTx(batch[i], q, awaited)
    requires forall p :: 0 <= p < |b.pending| ==> PlainTx(b.pending[p], q, awaited)
    ensures var (hit, b') := ReadBatch(c, b, batch, cap);
            && (forall p :: 0 <= p < |b'.pending| ==>
                  && PlainTx(b'.pending[p], q, awaited)
                  && (b'.pending[p] in b.pending || horizon <= b'.pending[p].arrival)
                  && (hit.Some? ==> b'.pending[p].arrival < hit.value.arrival))
            && (c == ForQueue(Some(q)) && NonePending(b, q) ==> NonePending(b', q))
            && (hit.Some? ==> horizon <= hit.value.arrival < After(batch, horizon)
                              && (MessageOf(hit.value, q) ==> c == ForQueue(Some(q))))
    decreases batch
  {
    if batch != [] {
      var next := batch[0].arrival + 1;
      assert batch[0].arrival <= batch[|batch| - 1].arrival;
      match Judge(c, batch[0])
      case Ignore => ReadBatchOrder(c, b.(lost := b.lost + [batch[0]]), batch[1..], cap, next, q, awaited);
      case Take =>
      case Keep =>
        RememberTidy(b, batch[0], cap, horizon);
        RememberPlain(b, batch[0], cap, q, awaited);
        ReadBatchOrder(c, Remember(b, batch[0], cap), batch[1..], cap, next, q, awaited);
    }
  }

  predicate OlderThanAll(tx: Tx, b: Buffer, q: string) {
    forall p :: 0 <= p < |b.pending| && MessageOf(b.pending[p], q) ==> tx.arrival < b.pending[p].arrival
  }

  /** A call takes the oldest pending message of its queue, and leaves the rest. */
  lemma TakenIsOldest(c: Call, b: Buffer, horizon: nat, q: string, awaited: set<string>)
    requires PlainCall(c, awaited) && Tidy(b, horizon)
    requires forall p :: 0 <= p < |b.pending| ==> PlainTx(b.pending[p], q, awaited)
    ensures var (hit, b') := TakeFrom(c, b);
            && (forall p :: 0 <= p < |b'.pending| ==> b'.pending[p] in b.pending)
            && (hit.None? ==> b' == b && (c == ForQueue(Some(q)) ==> NonePending(b, q)))
            && (hit.Some? ==> hit.value in b.pending && (MessageOf(hit.value, q) ==> OlderThanAll(hit.value, b', q)))
  {
  }

  /** One more given, with fewer pending: order stays. */
  lemma GivenKeepsOrder(w: World, g: Given, b: Buffer, q: string)
    requires InOrder(w, q) && (MessageOf(g.tx, q) ==> OlderThanAll(g.tx, b, q))
    requires g.tx in w.buffer.pending && forall p :: 0 <= p < |b.pending| ==> b.pending[p] in w.buffer.pending
    ensures InOrder(w.(buffer := b, given := w.given + [g]), q)
  {
  }

  lemma BeginInOrder(w: World, ev: Event, cap: nat, horizon: nat, q: string, awaited: set<string>)
    requires InOrder(w, q) && GivenBefore(w, horizon) && PlainWorld(w, q, awaited) && Tidy(w.buffer, horizon)
    requires Plain(ev, q, awaited) && ev.Begin?
    ensures var w' := Step(w, ev, cap);
            InOrder(w', q) && GivenBefore(w', horizon) && PlainWorld(w', q, awaited)
  {
    TakenIsOldest(ev.call, w.buffer, horizon, q, awaited);
    var (hit, b) := TakeFrom(ev.call, w.buffer);
    if hit.Some? { GivenKeepsOrder(w, Given(ev.call, hit.value), b, q); }
    hide TakeFrom, ReadBatch, MessageOf, PlainTx, InOrder, OlderThanAll;
  }

  /** A transmission newer than everything: order stays exactly if none of its queue is pending. */
  lemma NewestGiven(w: World, g: Given, b: Buffer, horizon: nat, q: string)
    requires InOrder(w, q) && GivenBefore(w, horizon) && horizon <= g.tx.arrival
    requires forall p :: 0 <= p < |b.pending| ==>
      b.pending[p].arrival < g.tx.arrival && (b.pending[p] in w.buffer.pending || horizon <= b.pending[p].arrival)
    ensures forall waiters :: InOrder(World(b, waiters, w.given + [g]), q) <==> (MessageOf(g.tx, q) ==> NonePending(b, q))
  {
    forall waiters
      ensures InOrder(World(b, waiters, w.given + [g]), q) <==> (MessageOf(g.tx, q) ==> NonePending(b, q))
    {
      var w' := World(b, waiters, w.given + [g]);
      assert w'.given[|w.given|] == g;
    }
  }

  lemma BatchInOrder(w: World, ev: Event, cap: nat, horizon: nat, q: string, awaited: set<string>)
    requires InOrder(w, q) && GivenBefore(w, horizon) && PlainWorld(w, q, awaited) && Tidy(w.buffer, horizon)
    requires Plain(ev, q, awaited) && ev.Batch? && Rising(ev.batch, horizon) && ev.waiter < |w.waiters|
    ensures var w' := Step(w, ev, cap);
            && (InOrder(w', q) <==> !Overtakes(w, ev, cap, q))
            && GivenBefore(w', After(ev.batch, horizon)) && PlainWorld(w', q, awaited)
  {
    var call := w.waiters[ev.waiter].call;
    forall i | 0 <= i < |ev.batch| ensures PlainTx(ev.batch[i], q, awaited) {}
    ReadBatchOrder(call, w.buffer, ev.batch, cap, horizon, q, awaited);
    var (hit, b) := ReadBatch(call, w.buffer, ev.batch, cap);
    assert ev.batch != [] ==> ev.batch[0].arrival <= ev.batch[|ev.batch| - 1].arrival;
    if hit.Some? { NewestGiven(w, Given(call, hit.value), b, horizon, q); }
  }

  /** Under every interleaving, the messages of q stay in order exactly until a waiting call overtakes. */
  lemma StepInOrder(w: World, ev: Event, cap: nat, horizon: nat, q: string, awaited: set<string>)
    requires InOrder(w, q) && GivenBefore(w, horizon) && PlainWorld(w, q, awaited) && Tidy(w.buffer, horizon)
    requires Plain(ev, q, awaited) && (ev.Batch? ==> Rising(ev.batch, horizon))
    ensures var w', h := Step(w, ev, cap), if ev.Batch? then After(ev.batch, horizon) else horizon;
            && (InOrder(w', q) <==> !Overtakes(w, ev, cap, q))
            && GivenBefore(w', h) && PlainWorld(w', q, awaited)
  {
    if ev.Begin? {
      BeginInOrder(w, ev, cap, horizon, q, awaited);
    } else if ev.Batch? && ev.waiter < |w.waiters| {
      BatchInOrder(w, ev, cap, horizon, q, awaited);
    } else if ev.Batch? {
      assert ev.batch != [] ==> ev.batch[0].arrival <= ev.batch[|ev.batch| - 1].arrival;
    }
  }

  predicate AlwaysInOrder(events: seq<Event>, cap: nat, q: string) {
    forall n :: 0 <= n <= |events| ==> InOrder(Run(events[..n], cap), q)
  }

  predicate NeverOvertakes(events: seq<Event>, cap: nat, q: string) {
    forall n :: 0 <= n < |events| ==> !Overtakes(Run(events[..n], cap), events[n], cap, q)
  }

  lemma ShorterRun(events: seq<Event>, cap: nat, q: string)
    requires events != []
    ensures var before, last := events[..|events| - 1], events[|events| - 1];
            && (AlwaysInOrder(events, cap, q) <==> AlwaysInOrder(before, cap, q) && InOrder(Run(events, cap), q))
            && (NeverOvertakes(events, cap, q) <==>
                NeverOvertakes(before, cap, q) && !Overtakes(Run(before, cap), last, cap, q))
  {
    hide InOrder, Overtakes, Run;
    var before := events[..|events| - 1];
    assert forall n :: 0 <= n < |events| ==> before[..n] == events[..n];
    assert events[..|events|] == events;
  }

  /** Arrival order, exactly: under every interleaving the messages of a queue are given
      in arrival order at every point of the run, and before every one of them still
      buffered, if and only if no waiting call for the queue ever overtakes. */
  lemma {:induction false} OrderExactly(events: seq<Event>, cap: nat, q: string, awaited: set<string>)
    requires FedInOrder(events)
    requires forall i :: 0 <= i < |events| ==> Plain(events[i], q, awaited)
    ensures AlwaysInOrder(events, cap, q) <==> NeverOvertakes(events, cap, q)
    ensures AlwaysInOrder(events, cap, q) ==>
      GivenBefore(Run(events, cap), Horizon(events)) && PlainWorld(Run(events, cap), q, awaited)
  {
    if events != [] {
      var before, ev := events[..|events| - 1], events[|events| - 1];
      OrderExactly(before, cap, q, awaited);
      EvictsOldest(before, cap);
      ShorterRun(events, cap, q);
      if AlwaysInOrder(before, cap, q) {
        assert before[..|before|] == before;
        StepInOrder(Run(before, cap), ev, cap, Horizon(before), q, awaited);
      }
    }
  }

  /** One transmission a batch: a call overtakes exactly if it is handed a message of its
      queue while one is buffered. */
  lemma SingleOvertakes(w: World, ev: Event, cap: nat, q: string)
    requires ev.Batch? && |ev.batch| == 1 && ev.waiter < |w.waiters|
    ensures Overtakes(w, ev, cap, q) <==>
      w.waiters[ev.waiter].call == ForQueue(Some(q)) && MessageOf(ev.batch[0], q) && !NonePending(w.buffer, q)
  {
    if w.waiters[ev.waiter].call == ForQueue(Some(q)) {
      var tx, b := ev.batch[0], w.buffer;
      assert ev.batch[1..] == [];
      if Judge(ForQueue(Some(q)), tx) == Keep {
        assert ReadBatch(ForQueue(Some(q)), Remember(b, tx, cap), ev.batch[1..], cap).0 == None;
      } else {
        assert ReadBatch(ForQueue(Some(q)), b, ev.batch, cap) == (Some(tx), b.(lost := b.lost + []));
      }
    }
  }

  /** Calls that do not overlap: each begins when the one before has returned. */
  predicate OneAtATime(events: seq<Event>, cap: nat) {
    events == [] ||
    var before := events[..|events| - 1];
    OneAtATime(before, cap) && (events[|events| - 1].Begin? ==> Run(before, cap).waiters == [])
  }

  /** A call that waits alone found nothing of its queue, and keeps it so. */
  predicate WaitsAlone(w: World, q: string) {
    |w.waiters| <= 1 && (|w.waiters| == 1 && w.waiters[0].call == ForQueue(Some(q)) ==> NonePending(w.buffer, q))
  }

  lemma StepAlone(w: World, ev: Event, cap: nat, horizon: nat, q: string, awaited: set<string>)
    requires WaitsAlone(w, q) && PlainWorld(w, q, awaited) && Tidy(w.buffer, horizon)
    requires Plain(ev, q, awaited) && (ev.Begin? ==> w.waiters == []) && (ev.Batch? ==> Rising(ev.batch, horizon))
    ensures WaitsAlone(Step(w, ev, cap), q) && !Overtakes(w, ev, cap, q)
  {
    if ev.Begin? {
      TakenIsOldest(ev.call, w.buffer, horizon, q, awaited);
    } else if ev.Batch? && ev.waiter < |w.waiters| {
      forall i | 0 <= i < |ev.batch| ensures PlainTx(ev.batch[i], q, awaited) {}
      ReadBatchOrder(w.waiters[ev.waiter].call, w.buffer, ev.batch, cap, horizon, q, awaited);
    }
  }

  /** Calls that do not overlap never overtake, so they keep every queue in arrival order. */
  lemma {:induction false} QueueInOrder(events: seq<Event>, cap: nat, q: string, awaited: set<string>)
    requires FedInOrder(events) && OneAtATime(events, cap)
    requires forall i :: 0 <= i < |events| ==> Plain(events[i], q, awaited)
    ensures AlwaysInOrder(events, cap, q) && WaitsAlone(Run(events, cap), q)
  {
    OrderExactly(events, cap, q, awaited);
    if events != [] {
      var before, ev := events[..|events| - 1], events[|events| - 1];
      QueueInOrder(before, cap, q, awaited);
      OrderExactly(before, cap, q, awaited);
      EvictsOldest(before, cap);
      ShorterRun(events, cap, q);
      StepAlone(Run(before, cap), ev, cap, Horizon(before), q, awaited);
    }
  }

  /** A correlation wait reads a message of q while a call for q waits; then a second one comes. */
  function Overlap(q: string, corr: string): seq<Event> {
    [Begin(ForQueue(Some(q)), 25), Begin(ForCorr(corr), 25),
     Batch(1, [Tx(0, Some(""), Some(q), Msg)]), Batch(0, [Tx(1, Some(""), Some(q), Msg)])]
  }

  lemma OverlapRun(q: string, corr: string)
    requires corr != ""
    ensures var m1, m2 := Tx(0, Some(""), Some(q), Msg), Tx(1, Some(""), Some(q), Msg);
            var events := Overlap(q, corr);
            && Run(events, MIN_CAP).given == [Given(ForQueue(Some(q)), m2)]
            && Run(events, MIN_CAP).buffer.pending == [m1]
            && Run(events[..3], MIN_CAP).buffer.pending == [m1]
            && Run(events[..3], MIN_CAP).waiters == [Waiter(ForQueue(Some(q)), 25), Waiter(ForCorr(corr), 24)]
  {
    var m1, m2 := Tx(0, Some(""), Some(q), Msg), Tx(1, Some(""), Some(q), Msg);
    var events := Overlap(q, corr);
    var e0, e1, e2, e3 := events[0], events[1], events[2], events[3];
    assert [e0][..0] == [] && [e0, e1][..1] == [e0] && [e0, e1, e2][..2] == [e0, e1] && events[..3] == [e0, e1, e2];
    assert Run([e0], MIN_CAP).waiters == [Waiter(ForQueue(Some(q)), 25)];
    assert Run([e0, e1], MIN_CAP).waiters == [Waiter(ForQueue(Some(q)), 25), Waiter(ForCorr(corr), 25)];
    var none := Buffer([], [], []);
    assert Remember(none, m1, MIN_CAP) == Buffer([m1], [], []);
    assert [m1][1..] == [] && Judge(ForCorr(corr), m1) == Keep;
    assert ReadBatch(ForCorr(corr), none, [m1], MIN_CAP) == (None, Buffer([m1], [], []));
    assert Run([e0, e1, e2], MIN_CAP).buffer.pending == [m1];
    assert [m2][1..] == [] && Judge(ForQueue(Some(q)), m2) == Take;
    assert Run(events, MIN_CAP) == Step(Run([e0, e1, e2], MIN_CAP), e3, MIN_CAP);
  }

  /** Overlapping calls can overtake: a message that arrived while only the other
      caller was reading stays buffered behind a later one. */
  lemma OverlapReorders(q: string, corr: string)
    requires corr != ""
    ensures var events := Overlap(q, corr);
            && FedInOrder(events) && (forall i :: 0 <= i < |events| ==> Plain(events[i], q, {corr}))
            && Overtakes(Run(events[..3], MIN_CAP), events[3], MIN_CAP, q)
            && !AlwaysInOrder(events, MIN_CAP, q)
  {
    var events := Overlap(q, corr);
    var e0, e1, e2, e3 := events[0], events[1], events[2], events[3];
    OverlapRun(q, corr);
    assert FedInOrder(events) by {
      hide Run;
      assert [e0][..0] == [] && [e0, e1][..1] == [e0] && [e0, e1, e2][..2] == [e0, e1] && events[..3] == [e0, e1, e2];
      assert FedInOrder([e0]) && Horizon([e0]) == 0;
      assert FedInOrder([e0, e1]) && Horizon([e0, e1]) == 0;
      assert FedInOrder([e0, e1, e2]) && Horizon([e0, e1, e2]) == 1;
    }
    hide Run, FedInOrder;
    var w := Run(events[..3], MIN_CAP);
    assert MessageOf(w.buffer.pending[0], q);
    SingleOvertakes(w, e3, MIN_CAP, q);
    OrderExactly(events, MIN_CAP, q, {corr});
  }
}
