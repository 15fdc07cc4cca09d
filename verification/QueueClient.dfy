/** Matching broker transmissions to callers (src/browser-simplex-client.mjs).

    One bounded buffer is shared by callers waiting for a correlation id and
    callers waiting for a message of a queue. */
module QueueClient {
  import opened Outcomes

  const MIN_CAP: nat := 16

  datatype Kind = Msg | BrokerErr | Other

  /** `arrival` numbers transmissions in the order the transport yields them. */
  datatype Tx = Tx(arrival: nat, corrId: Option<string>, queueId: Option<string>, kind: Kind)

  datatype Call =
    | ForCorr(corrId: string)
    | ForQueue(rcvId: Option<string>)

  predicate QueueMatches(tx: Tx, rcvId: Option<string>) {
    rcvId.None? || tx.queueId.None? || tx.queueId == rcvId
  }

  /** What takePending looks for when a call starts. */
  predicate WantsPending(c: Call, tx: Tx) {
    match c
    case ForCorr(corrId) => tx.corrId == Some(corrId)
    case ForQueue(rcvId) => tx.kind.Msg? && QueueMatches(tx, rcvId)
  }

  datatype Verdict = Ignore | Take | Keep

  /** What the receive loop does with a transmission that has just arrived.  A call
      for a queue stops at any broker error, whoever it answers. */
  function Judge(c: Call, tx: Tx): Verdict {
    match c
    case ForCorr(corrId) => if tx.corrId.None? then Ignore else if tx.corrId.value == corrId then Take else Keep
    case ForQueue(rcvId) => if tx.kind.BrokerErr? || (tx.kind.Msg? && QueueMatches(tx, rcvId)) then Take else Keep
  }

  /** `evicted` and `lost` record where transmissions that reach no caller went. */
  datatype Buffer = Buffer(pending: seq<Tx>, evicted: seq<Tx>, lost: seq<Tx>)

  function Remember(b: Buffer, tx: Tx, cap: nat): Buffer {
    var grown := b.pending + [tx];
    if |grown| > cap then
      var over := |grown| - cap;
      b.(pending := grown[over..], evicted := b.evicted + grown[..over])
    else b.(pending := grown)
  }

  function FirstWanted(c: Call, pending: seq<Tx>): (i: nat)
    ensures i <= |pending|
    ensures i < |pending| ==> WantsPending(c, pending[i])
    ensures forall j :: 0 <= j < i ==> !WantsPending(c, pending[j])
  {
    if pending == [] || WantsPending(c, pending[0]) then 0 else 1 + FirstWanted(c, pending[1..])
  }

  function TakeFrom(c: Call, b: Buffer): (Option<Tx>, Buffer) {
    var i := FirstWanted(c, b.pending);
    if i < |b.pending| then (Some(b.pending[i]), b.(pending := b.pending[..i] + b.pending[i + 1..])) else (None, b)
  }

  /** One batch: the loop returns at the first transmission it takes, and what the
      batch still held is neither returned nor buffered. */
  function ReadBatch(c: Call, b: Buffer, batch: seq<Tx>, cap: nat): (Option<Tx>, Buffer)
    decreases batch
  {
    if batch == [] then (None, b)
    else
      match Judge(c, batch[0])
      case Ignore => ReadBatch(c, b.(lost := b.lost + [batch[0]]), batch[1..], cap)
      case Take => (Some(batch[0]), b.(lost := b.lost + batch[1..]))
      case Keep => ReadBatch(c, Remember(b, batch[0], cap), batch[1..], cap)
  }

  datatype Reply = Got(tx: Tx) | Timeout | TransportFailed

  /** A whole call: the buffer first, then at most `left` batches of the transport. */
  function ReadBatches(c: Call, b: Buffer, feed: seq<seq<Tx>>, left: nat, cap: nat): (Reply, Buffer, seq<seq<Tx>>)
    decreases left
  {
    if left == 0 then (Timeout, b, feed)
    else if feed == [] then (TransportFailed, b, feed)
    else
      var (hit, b') := ReadBatch(c, b, feed[0], cap);
      if hit.Some? then (Got(hit.value), b', feed[1..]) else ReadBatches(c, b', feed[1..], left - 1, cap)
  }

  function Receive(c: Call, b: Buffer, feed: seq<seq<Tx>>, maxBatches: nat, cap: nat): (Reply, Buffer, seq<seq<Tx>>) {
    var (hit, b') := TakeFrom(c, b);
    if hit.Some? then (Got(hit.value), b', feed) else ReadBatches(c, b, feed, maxBatches, cap)
  }

  class BrowserSimplexClient {
    var pendingTransmissions: seq<Tx>
    const maxPendingTransmissions: nat
    ghost var evicted: seq<Tx>
    ghost var lost: seq<Tx>

    constructor (maxPending: nat)
      ensures Held() == Buffer([], [], []) && maxPendingTransmissions >= MIN_CAP
      ensures maxPending >= MIN_CAP ==> maxPendingTransmissions == maxPending
    {
      pendingTransmissions := [];
      maxPendingTransmissions := if maxPending < MIN_CAP then MIN_CAP else maxPending;
      evicted, lost := [], [];
    }

    ghost function Held(): Buffer
      reads this
    {
      Buffer(pendingTransmissions, evicted, lost)
    }

    method RememberPending(tx: Tx)
      modifies this
      ensures Held() == Remember(old(Held()), tx, maxPendingTransmissions)
    {
      pendingTransmissions := pendingTransmissions + [tx];
      if |pendingTransmissions| > maxPendingTransmissions {
        var over := |pendingTransmissions| - maxPendingTransmissions;
        evicted := evicted + pendingTransmissions[..over];
        pendingTransmissions := pendingTransmissions[over..];
      }
    }

    method TakePending(c: Call) returns (hit: Option<Tx>)
      modifies this
      ensures (hit, Held()) == TakeFrom(c, old(Held()))
    {
      var i := 0;
      while i < |pendingTransmissions| && !WantsPending(c, pendingTransmissions[i])
        invariant i <= |pendingTransmissions|
        invariant forall j :: 0 <= j < i ==> !WantsPending(c, pendingTransmissions[j])
      {
        i := i + 1;
      }
      if i == |pendingTransmissions| { return None; }
      hit := Some(pendingTransmissions[i]);
      pendingTransmissions := pendingTransmissions[..i] + pendingTransmissions[i + 1..];
    }

    /** Both receive methods share this shape; `c` says what they take and keep. */
    method ReceiveFor(c: Call, feed: seq<seq<Tx>>, maxBatches: nat) returns (reply: Reply, rest: seq<seq<Tx>>)
      modifies this
      ensures (reply, Held(), rest) == Receive(c, old(Held()), feed, maxBatches, maxPendingTransmissions)
    {
      ghost var start := Held();
      rest := feed;
      var pending := TakePending(c);
      if pending.Some? { return Got(pending.value), rest; }
      var i := 0;
      while i < maxBatches
        invariant i <= maxBatches
        invariant Receive(c, start, feed, maxBatches, maxPendingTransmissions)
                  == ReadBatches(c, Held(), rest, maxBatches - i, maxPendingTransmissions)
      {
        if rest == [] { return TransportFailed, rest; }
        var batch := rest[0];
        rest := rest[1..];
        ghost var before := Held();
        var j := 0;
        while j < |batch|
          invariant j <= |batch|
          invariant ReadBatch(c, before, batch, maxPendingTransmissions)
                    == ReadBatch(c, Held(), batch[j..], maxPendingTransmissions)
        {
          var tx := batch[j];
          assert batch[j..][0] == tx && batch[j..][1..] == batch[j + 1..];
          match Judge(c, tx) {
            case Ignore => lost := lost + [tx];
            case Take =>
              lost := lost + batch[j + 1..];
              return Got(tx), rest;
            case Keep => RememberPending(tx);
          }
          j := j + 1;
        }
        i := i + 1;
      }
      return Timeout, rest;
    }
  }

  // -------------------------------------- callers interleaving at every await

  datatype Waiter = Waiter(call: Call, left: nat)

  datatype Given = Given(call: Call, tx: Tx)

  datatype World = World(buffer: Buffer, waiters: seq<Waiter>, given: seq<Given>)

  datatype Event =
    | Begin(call: Call, maxBatches: nat)        // runs to the first await
    | Batch(waiter: nat, batch: seq<Tx>)        // the transport answers one waiting call
    | Broken(waiter: nat)                       // the transport throws at one waiting call

  function Without<T>(s: seq<T>, i: nat): seq<T>
    requires i < |s|
  {
    s[..i] + s[i + 1..]
  }

  function Step(w: World, ev: Event, cap: nat): World {
    match ev
    case Begin(call, maxBatches) =>
      var (hit, b) := TakeFrom(call, w.buffer);
      if hit.Some? then w.(buffer := b, given := w.given + [Given(call, hit.value)])
      else if maxBatches == 0 then w
      else w.(waiters := w.waiters + [Waiter(call, maxBatches)])
    case Batch(i, batch) =>
      if i >= |w.waiters| then w
      else
        var waiter := w.waiters[i];
        var (hit, b) := ReadBatch(waiter.call, w.buffer, batch, cap);
        if hit.Some? then World(b, Without(w.waiters, i), w.given + [Given(waiter.call, hit.value)])
        else if waiter.left <= 1 then World(b, Without(w.waiters, i), w.given)
        else World(b, w.waiters[i := waiter.(left := waiter.left - 1)], w.given)
    case Broken(i) => if i >= |w.waiters| then w else w.(waiters := Without(w.waiters, i))
  }

  const EMPTY := World(Buffer([], [], []), [], [])

  function Run(events: seq<Event>, cap: nat): World {
    if events == [] then EMPTY else Step(Run(events[..|events| - 1], cap), events[|events| - 1], cap)
  }

  function Count(s: seq<Tx>, t: Tx): nat {
    multiset(s)[t]
  }

  lemma CountConcat(a: seq<Tx>, b: seq<Tx>, t: Tx)
    ensures Count(a + b, t) == Count(a, t) + Count(b, t)
  {
  }

  function CountHit(hit: Option<Tx>, t: Tx): nat {
    if hit == Some(t) then 1 else 0
  }

  /** How often t reached a waiting call over a run. */
  function Arrived(events: seq<Event>, cap: nat, t: Tx): nat {
    if events == [] then 0
    else
      var w, ev := Run(events[..|events| - 1], cap), events[|events| - 1];
      Arrived(events[..|events| - 1], cap, t)
      + (if ev.Batch? && ev.waiter < |w.waiters| then Count(ev.batch, t) else 0)
  }

  function CountGiven(given: seq<Given>, t: Tx): nat {
    if given == [] then 0
    else CountGiven(given[..|given| - 1], t) + (if given[|given| - 1].tx == t then 1 else 0)
  }

  function InBuffer(b: Buffer, t: Tx): nat {
    Count(b.pending, t) + Count(b.evicted, t) + Count(b.lost, t)
  }

  lemma RememberConserves(b: Buffer, tx: Tx, cap: nat, t: Tx)
    ensures InBuffer(Remember(b, tx, cap), t) == InBuffer(b, t) + Count([tx], t)
  {
    var grown := b.pending + [tx];
    CountConcat(b.pending, [tx], t);
    if |grown| > cap {
      var over := |grown| - cap;
      assert grown == grown[..over] + grown[over..];
      CountConcat(grown[..over], grown[over..], t);
      CountConcat(b.evicted, grown[..over], t);
    }
  }

  lemma {:induction false} ReadBatchConserves(c: Call, b: Buffer, batch: seq<Tx>, cap: nat, t: Tx)
    ensures var r := ReadBatch(c, b, batch, cap);
            InBuffer(r.1, t) + CountHit(r.0, t) == InBuffer(b, t) + Count(batch, t)
    decreases batch
  {
    if batch != [] {
      assert batch == [batch[0]] + batch[1..];
      CountConcat([batch[0]], batch[1..], t);
      match Judge(c, batch[0])
      case Ignore =>
        CountConcat(b.lost, [batch[0]], t);
        ReadBatchConserves(c, b.(lost := b.lost + [batch[0]]), batch[1..], cap, t);
      case Take => CountConcat(b.lost, batch[1..], t);
      case Keep =>
        RememberConserves(b, batch[0], cap, t);
        ReadBatchConserves(c, Remember(b, batch[0], cap), batch[1..], cap, t);
    }
  }

  lemma TakeFromConserves(c: Call, b: Buffer, t: Tx)
    ensures var r := TakeFrom(c, b); InBuffer(r.1, t) + CountHit(r.0, t) == InBuffer(b, t)
  {
    var i := FirstWanted(c, b.pending);
    if i < |b.pending| {
      assert b.pending == b.pending[..i] + [b.pending[i]] + b.pending[i + 1..];
      CountConcat(b.pending[..i] + [b.pending[i]], b.pending[i + 1..], t);
      CountConcat(b.pending[..i], [b.pending[i]], t);
      CountConcat(b.pending[..i], b.pending[i + 1..], t);
    }
  }

  lemma GiveOne(given: seq<Given>, g: Given, t: Tx)
    ensures CountGiven(given + [g], t) == CountGiven(given, t) + CountHit(Some(g.tx), t)
  {
  }

  lemma StepConserves(w: World, ev: Event, cap: nat, t: Tx)
    ensures var w' := Step(w, ev, cap);
            CountGiven(w'.given, t) + InBuffer(w'.buffer, t)
            == CountGiven(w.given, t) + InBuffer(w.buffer, t)
               + (if ev.Batch? && ev.waiter < |w.waiters| then Count(ev.batch, t) else 0)
  {
    hide CountGiven, InBuffer, ReadBatch, TakeFrom, Count;
    if ev.Begin? {
      TakeFromConserves(ev.call, w.buffer, t);
      var hit := TakeFrom(ev.call, w.buffer).0;
      if hit.Some? { GiveOne(w.given, Given(ev.call, hit.value), t); }
    } else if ev.Batch? && ev.waiter < |w.waiters| {
      var call := w.waiters[ev.waiter].call;
      ReadBatchConserves(call, w.buffer, ev.batch, cap, t);
      var hit := ReadBatch(call, w.buffer, ev.batch, cap).0;
      if hit.Some? { GiveOne(w.given, Given(call, hit.value), t); }
    }
  }

  /** Under every interleaving of concurrent calls, each transmission that arrived was
      handed to exactly one caller, or is buffered, or was evicted, or was lost. */
  lemma {:induction false} NothingDuplicated(events: seq<Event>, cap: nat, t: Tx)
    ensures var w := Run(events, cap);
            CountGiven(w.given, t) + Count(w.buffer.pending, t) + Count(w.buffer.evicted, t) + Count(w.buffer.lost, t)
            == Arrived(events, cap, t)
  {
    if events != [] {
      NothingDuplicated(events[..|events| - 1], cap, t);
      StepConserves(Run(events[..|events| - 1], cap), events[|events| - 1], cap, t);
    }
  }

  /** A batch loses something exactly when a transmission without a correlation id reaches
      a correlation wait, or something follows one that the call can take. */
  predicate LosesNone(c: Call, batch: seq<Tx>) {
    match c
    case ForCorr(corrId) =>
      && (forall i :: 0 <= i < |batch| ==> batch[i].corrId.Some?)
      && (forall i :: 0 <= i < |batch| - 1 ==> batch[i].corrId != Some(corrId))
    case ForQueue(r) =>
      forall i :: 0 <= i < |batch| - 1 ==>
        !batch[i].kind.BrokerErr?
        && !(batch[i].kind.Msg? && (r.None? || batch[i].queueId.None? || batch[i].queueId == r))
  }

  lemma LosesNoneLater(c: Call, batch: seq<Tx>)
    requires batch != []
    ensures LosesNone(c, batch)
            <==> match Judge(c, batch[0]) case Ignore => false case Take => |batch| == 1 case Keep => LosesNone(c, batch[1..])
  {
    var rest := batch[1..];
    assert batch == [batch[0]] + rest;
    assert forall i :: 1 <= i < |batch| ==> batch[i] == rest[i - 1];
    assert forall i :: 0 <= i < |rest| ==> rest[i] == batch[i + 1];
    if |batch| > 1 && Judge(c, batch[0]).Keep? && LosesNone(c, batch) { assert LosesNone(c, rest); }
  }

  lemma {:induction false} LostExactly(c: Call, b: Buffer, batch: seq<Tx>, cap: nat)
    ensures b.lost <= ReadBatch(c, b, batch, cap).1.lost
    ensures ReadBatch(c, b, batch, cap).1.lost == b.lost <==> LosesNone(c, batch)
    decreases batch
  {
    if batch != [] {
      LosesNoneLater(c, batch);
      hide LosesNone;
      match Judge(c, batch[0])
      case Ignore => LostExactly(c, b.(lost := b.lost + [batch[0]]), batch[1..], cap);
      case Take =>
      case Keep => LostExactly(c, Remember(b, batch[0], cap), batch[1..], cap);
    }
  }

  /** One transmission a batch, each with its correlation id: nothing is ever lost. */
  lemma {:induction false} SinglesNeverLost(events: seq<Event>, cap: nat)
    requires forall i :: 0 <= i < |events| && events[i].Batch? ==>
        |events[i].batch| == 1 && events[i].batch[0].corrId.Some?
    ensures Run(events, cap).buffer.lost == []
  {
    if events != [] {
      var before, ev := events[..|events| - 1], events[|events| - 1];
      SinglesNeverLost(before, cap);
      var w := Run(before, cap);
      if ev.Batch? && ev.waiter < |w.waiters| { LostExactly(w.waiters[ev.waiter].call, w.buffer, ev.batch, cap); }
    }
  }
}
