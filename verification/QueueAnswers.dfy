/** What a caller of QueueClient is given: the first answer to what it waits for. */
module QueueAnswers {
  import opened Outcomes
  import opened QueueClient

  /** For a correlation wait the response to its request, for a queue a message of it or any
      broker error. */
  predicate Answers(c: Call, tx: Tx) {
    match c
    case ForCorr(corrId) => tx.corrId == Some(corrId)
    case ForQueue(r) => tx.kind.BrokerErr? || (tx.kind.Msg? && (r.None? || tx.queueId.None? || tx.queueId == r))
  }

  /** In the buffer a call for a queue looks for messages only. */
  predicate Awaits(c: Call, tx: Tx) {
    Answers(c, tx) && (c.ForQueue? ==> tx.kind.Msg?)
  }

  function FirstAnswer(c: Call, txs: seq<Tx>): (i: nat)
    ensures i <= |txs| && (i < |txs| ==> Answers(c, txs[i]))
    ensures forall j :: 0 <= j < i ==> !Answers(c, txs[j])
  {
    if txs == [] || Answers(c, txs[0]) then 0 else 1 + FirstAnswer(c, txs[1..])
  }

  function FirstAwaited(c: Call, txs: seq<Tx>): (i: nat)
    ensures i <= |txs| && (i < |txs| ==> Awaits(c, txs[i]))
    ensures forall j :: 0 <= j < i ==> !Awaits(c, txs[j])
  {
    if txs == [] || Awaits(c, txs[0]) then 0 else 1 + FirstAwaited(c, txs[1..])
  }

  /** A correlation wait drops what has no correlation id; all else it passes over is kept. */
  predicate Drops(c: Call, tx: Tx) {
    c.ForCorr? && tx.corrId.None?
  }

  /** What stands before the first answer and is kept. */
  function Kept(c: Call, txs: seq<Tx>): seq<Tx> {
    if txs == [] || Answers(c, txs[0]) then [] else (if Drops(c, txs[0]) then [] else [txs[0]]) + Kept(c, txs[1..])
  }

  /** What stands before the first answer and is dropped, and all behind it. */
  function Lost(c: Call, txs: seq<Tx>): seq<Tx> {
    if txs == [] then []
    else if Answers(c, txs[0]) then txs[1..]
    else (if Drops(c, txs[0]) then [txs[0]] else []) + Lost(c, txs[1..])
  }

  /** The first awaited transmission leaves the buffer, all others stay in order. */
  lemma BeginExactly(c: Call, b: Buffer)
    ensures var (hit, b') := TakeFrom(c, b);
            var i := FirstAwaited(c, b.pending);
            && b'.evicted == b.evicted && b'.lost == b.lost
            && if i < |b.pending| then hit == Some(b.pending[i]) && b'.pending == b.pending[..i] + b.pending[i + 1..]
               else hit == None && b' == b
  {
    assert forall tx :: WantsPending(c, tx) <==> Awaits(c, tx);
    SameFirst(c, b.pending);
    hide FirstWanted, FirstAwaited, WantsPending, Awaits;
  }

  lemma {:induction false} SameFirst(c: Call, txs: seq<Tx>)
    requires forall tx :: WantsPending(c, tx) <==> Awaits(c, tx)
    ensures FirstAwaited(c, txs) == FirstWanted(c, txs)
  {
    hide WantsPending, Awaits;
    if txs != [] { SameFirst(c, txs[1..]); }
  }

  lemma RememberAppends(b: Buffer, tx: Tx, cap: nat)
    requires |b.pending| <= cap
    ensures var b' := Remember(b, tx, cap);
            && b'.evicted + b'.pending == b.evicted + b.pending + [tx] && b'.lost == b.lost
            && |b'.pending| == if |b.pending| < cap then |b.pending| + 1 else cap
  {
    var grown := b.pending + [tx];
    assert b.evicted + b.pending + [tx] == b.evicted + grown;
    if |grown| > cap { assert b.evicted + grown == (b.evicted + grown[..|grown| - cap]) + grown[|grown| - cap..]; }
  }

  lemma {:induction false} BatchGives(c: Call, b: Buffer, batch: seq<Tx>, cap: nat)
    ensures var j := FirstAnswer(c, batch);
            ReadBatch(c, b, batch, cap).0 == if j < |batch| then Some(batch[j]) else None
    decreases batch
  {
    if batch != [] && !Answers(c, batch[0]) {
      var x := batch[0];
      BatchGives(c, if Drops(c, x) then b.(lost := b.lost + [x]) else Remember(b, x, cap), batch[1..], cap);
      hide Remember;
    }
  }

  lemma BatchStep(c: Call, b: Buffer, batch: seq<Tx>, cap: nat)
    requires batch != []
    ensures var x, rest := batch[0], batch[1..];
            ReadBatch(c, b, batch, cap)
            == if Answers(c, x) then (Some(x), b.(lost := b.lost + rest))
               else ReadBatch(c, if Drops(c, x) then b.(lost := b.lost + [x]) else Remember(b, x, cap), rest, cap)
  {
    hide Remember;
  }

  lemma PartsStep(c: Call, batch: seq<Tx>)
    requires batch != []
    ensures var x, rest := batch[0], batch[1..];
            && Kept(c, batch) == (if Answers(c, x) then [] else if Drops(c, x) then Kept(c, rest) else [x] + Kept(c, rest))
            && Lost(c, batch) == (if Answers(c, x) then rest else if Drops(c, x) then [x] + Lost(c, rest) else Lost(c, rest))
  {
    hide Answers, Drops;
  }

  lemma {:induction false} BatchKeeps(c: Call, b: Buffer, batch: seq<Tx>, cap: nat)
    requires |b.pending| <= cap
    ensures var b', kept := ReadBatch(c, b, batch, cap).1, Kept(c, batch);
            b'.evicted + b'.pending == b.evicted + b.pending + kept && b'.lost == b.lost + Lost(c, batch)
    decreases batch
  {
    if batch == [] {
      assert b.evicted + b.pending + [] == b.evicted + b.pending && b.lost + [] == b.lost;
    } else {
      BatchStep(c, b, batch, cap);
      PartsStep(c, batch);
      hide *;
      var x := batch[0];
      if Answers(c, x) {
        assert b.evicted + b.pending + [] == b.evicted + b.pending;
      } else if Drops(c, x) {
        BatchKeeps(c, b.(lost := b.lost + [x]), batch[1..], cap);
        Regroup(b.lost, x, Lost(c, batch[1..]));
      } else {
        RememberAppends(b, x, cap);
        BatchKeeps(c, Remember(b, x, cap), batch[1..], cap);
        Regroup(b.evicted + b.pending, x, Kept(c, batch[1..]));
      }
    }
  }

  lemma {:induction false} BatchFills(c: Call, b: Buffer, batch: seq<Tx>, cap: nat)
    requires |b.pending| <= cap
    ensures var n := |b.pending| + |Kept(c, batch)|; |ReadBatch(c, b, batch, cap).1.pending| == if n < cap then n else cap
    decreases batch
  {
    if batch != [] {
      BatchStep(c, b, batch, cap);
      hide ReadBatch, Answers, Drops, Remember;
      var x := batch[0];
      if !Answers(c, x) {
        RememberAppends(b, x, cap);
        BatchFills(c, if Drops(c, x) then b.(lost := b.lost + [x]) else Remember(b, x, cap), batch[1..], cap);
      }
    }
  }

  lemma Regroup(a: seq<Tx>, x: Tx, rest: seq<Tx>)
    ensures a + [x] + rest == a + ([x] + rest)
  {
  }

  /** A batch, exactly: the first answer in it is given.  What stood before it goes to the
      buffer, which pushes out its oldest past the cap, or is dropped; what stood behind it
      is lost. */
  lemma BatchExactly(c: Call, b: Buffer, batch: seq<Tx>, cap: nat)
    requires |b.pending| <= cap
    ensures var (hit, b') := ReadBatch(c, b, batch, cap);
            var j, kept := FirstAnswer(c, batch), Kept(c, batch);
            && hit == (if j < |batch| then Some(batch[j]) else None)
            && b'.evicted + b'.pending == b.evicted + b.pending + kept && b'.lost == b.lost + Lost(c, batch)
            && |b'.pending| == if |b.pending| + |kept| < cap then |b.pending| + |kept| else cap
  {
    BatchGives(c, b, batch, cap);
    BatchKeeps(c, b, batch, cap);
    BatchFills(c, b, batch, cap);
    hide ReadBatch;
  }

  /** The buffer never holds more than its cap. */
  lemma {:induction false} WithinCap(events: seq<Event>, cap: nat)
    ensures |Run(events, cap).buffer.pending| <= cap
  {
    if events != [] {
      var before, ev := events[..|events| - 1], events[|events| - 1];
      WithinCap(before, cap);
      var w := Run(before, cap);
      if ev.Begin? {
        BeginExactly(ev.call, w.buffer);
      } else if ev.Batch? && ev.waiter < |w.waiters| {
        BatchExactly(w.waiters[ev.waiter].call, w.buffer, ev.batch, cap);
      }
      hide ReadBatch, TakeFrom;
    }
  }

  /** Under every interleaving, whatever a caller was given answers that caller. */
  lemma {:induction false} GivenAnswers(events: seq<Event>, cap: nat)
    ensures forall g :: g in Run(events, cap).given ==> Answers(g.call, g.tx)
  {
    if events != [] {
      var before, ev := events[..|events| - 1], events[|events| - 1];
      GivenAnswers(before, cap);
      WithinCap(before, cap);
      var w := Run(before, cap);
      if ev.Begin? {
        BeginExactly(ev.call, w.buffer);
      } else if ev.Batch? && ev.waiter < |w.waiters| {
        BatchExactly(w.waiters[ev.waiter].call, w.buffer, ev.batch, cap);
      }
      hide ReadBatch, TakeFrom, Answers;
    }
  }

  /** After every run, a call that begins is given the first transmission of the buffer it
      awaits, and waits if there is none. */
  lemma BeginsRight(events: seq<Event>, c: Call, maxBatches: nat, cap: nat)
    requires maxBatches > 0
    ensures var w, w' := Run(events, cap), Run(events + [Begin(c, maxBatches)], cap);
            var i := FirstAwaited(c, w.buffer.pending);
            if i < |w.buffer.pending| then w'.given == w.given + [Given(c, w.buffer.pending[i])] && w'.waiters == w.waiters
            else w' == w.(waiters := w.waiters + [Waiter(c, maxBatches)])
  {
    var all := events + [Begin(c, maxBatches)];
    assert all[..|all| - 1] == events;
    BeginExactly(c, Run(events, cap).buffer);
  }

  /** After every run, a waiting call is given the first answer of its batch; without one it
      waits on, for one batch less, until none is left. */
  lemma WaitsRight(events: seq<Event>, i: nat, batch: seq<Tx>, cap: nat)
    requires i < |Run(events, cap).waiters|
    ensures var w, w' := Run(events, cap), Run(events + [Batch(i, batch)], cap);
            var waiter := w.waiters[i];
            var j := FirstAnswer(waiter.call, batch);
            && w'.given == w.given + (if j < |batch| then [Given(waiter.call, batch[j])] else [])
            && w'.waiters == if j < |batch| || waiter.left <= 1 then w.waiters[..i] + w.waiters[i + 1..]
                             else w.waiters[i := Waiter(waiter.call, waiter.left - 1)]
  {
    var all := events + [Batch(i, batch)];
    assert all[..|all| - 1] == events;
    WithinCap(events, cap);
    BatchExactly(Run(events, cap).waiters[i].call, Run(events, cap).buffer, batch, cap);
    hide ReadBatch;
  }

  /** The first batch with an answer, if one of these has one. */
  function FirstBatch(c: Call, feed: seq<seq<Tx>>): (k: nat)
    ensures k <= |feed|
    ensures k < |feed| ==> FirstAnswer(c, feed[k]) < |feed[k]|
    ensures forall i :: 0 <= i < k ==> FirstAnswer(c, feed[i]) == |feed[i]|
  {
    if feed == [] || FirstAnswer(c, feed[0]) < |feed[0]| then 0 else 1 + FirstBatch(c, feed[1..])
  }

  lemma {:induction false} BatchesExactly(c: Call, b: Buffer, feed: seq<seq<Tx>>, left: nat, cap: nat)
    requires |b.pending| <= cap
    ensures var (reply, b', rest) := ReadBatches(c, b, feed, left, cap);
            var k := FirstBatch(c, feed);
            if k < left && k < |feed| then reply == Got(feed[k][FirstAnswer(c, feed[k])]) && rest == feed[k + 1..]
            else if left <= |feed| then reply == Timeout && rest == feed[left..]
            else reply == TransportFailed && rest == []
    decreases left
  {
    if left > 0 && feed != [] {
      BatchExactly(c, b, feed[0], cap);
      var (hit, b') := ReadBatch(c, b, feed[0], cap);
      hide ReadBatch;
      if hit.None? { BatchesExactly(c, b', feed[1..], left - 1, cap); }
    }
  }

  /** A whole call: the first awaited transmission of the buffer; else the first answer of the
      first batch that has one, if it is among the first `maxBatches`; else a timeout, or the
      fault of a transport that ends before. */
  lemma ReceiveExactly(c: Call, b: Buffer, feed: seq<seq<Tx>>, maxBatches: nat, cap: nat)
    requires |b.pending| <= cap
    ensures var (reply, b', rest) := Receive(c, b, feed, maxBatches, cap);
            var i, k := FirstAwaited(c, b.pending), FirstBatch(c, feed);
            if i < |b.pending| then reply == Got(b.pending[i]) && rest == feed
            else if k < maxBatches && k < |feed| then reply == Got(feed[k][FirstAnswer(c, feed[k])]) && rest == feed[k + 1..]
            else if maxBatches <= |feed| then reply == Timeout && rest == feed[maxBatches..]
            else reply == TransportFailed && rest == []
  {
    BeginExactly(c, b);
    BatchesExactly(c, b, feed, maxBatches, cap);
    hide TakeFrom, ReadBatches;
  }
}
