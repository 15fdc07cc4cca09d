/** What holds of two ratchets after every run of sends and arrivals. */
module RatchetTheorems {
  import opened Ratchet
  import opened RatchetKeys
  import opened RatchetSession

  lemma StartInv(k: Schedule)
    ensures Inv(k, Start(k))
  {
  }

  lemma SendKeepsInv(k: Schedule, p: Party, q: Party, ev: Event)
    requires ev.Send? && Sound(k, p, q) && Sound(k, q, p)
    ensures Sound(k, SendBy(p, ev), q) && Sound(k, q, SendBy(p, ev)) && SendBy(p, ev).epoch == p.epoch
  {
    SendKeeps(k, p, ev);
    SenderKeepsLink(k, q, p, SendBy(p, ev));
    ReceiverKeepsLink(k, p, SendBy(p, ev), q);
  }

  lemma ArriveKeepsInv(k: Schedule, to: Party, from: Party, index: nat)
    requires k.Valid() && Sound(k, to, from) && Sound(k, from, to) && index < |from.sent|
    ensures var to' := ArriveAt(k, to, from, index);
            && Sound(k, to', from) && Sound(k, from, to') && to'.epoch % 2 == to.epoch % 2
            && if Acceptable(k, to, from.sent[index])
               then to'.received == to.received + [Received(index, from.sent[index].plaintext)]
               else to' == to
  {
    hide Decrypt, StateInStep, SentInOrder, HeldKeysTrue, ReceivedTrue, AtFrontier, NothingForgotten, Acceptable;
    OpensExactly(k, to, from, index);
    if Acceptable(k, to, from.sent[index]) {
      ArrivalReads(k, to, from, index);
      SenderMoves(k, from, to, ArriveAt(k, to, from, index));
    }
  }

  lemma ReloadKeepsLink(k: Schedule, p: Party, q: Party)
    requires Linked(k, p, q)
    ensures Linked(k, ReloadBy(p), q)
  {
  }

  /** Fewer kept keys are still true keys, and a loss of keys is recorded. */
  lemma ReloadKeepsInv(k: Schedule, p: Party, q: Party)
    requires Sound(k, p, q) && Sound(k, q, p)
    ensures Sound(k, ReloadBy(p), q) && Sound(k, q, ReloadBy(p)) && ReloadBy(p).epoch == p.epoch
  {
    hide HeldKeysTrue, ReceivedTrue, AtFrontier, NothingForgotten, Linked;
    ReloadKeepsLink(k, p, q);
    SenderReloads(k, q, p);
  }

  lemma SenderReloads(k: Schedule, to: Party, from: Party)
    requires Linked(k, to, from)
    ensures Linked(k, to, ReloadBy(from))
  {
    hide HeldKeysTrue, ReceivedTrue, AtFrontier, NothingForgotten;
    SenderMoves(k, to, from, ReloadBy(from));
  }

  lemma WithKeeps(k: Schedule, s: Session, side: Side, p': Party)
    requires Inv(k, s) && p'.epoch % 2 == s.At(side).epoch % 2
    requires Sound(k, p', s.At(side.Other())) && Sound(k, s.At(side.Other()), p')
    ensures Inv(k, s.With(side, p'))
  {
  }

  lemma StepKeeps(k: Schedule, s: Session, ev: Event)
    requires k.Valid() && Inv(k, s)
    ensures Inv(k, Step(k, s, ev))
  {
    hide Sound, SendBy, ArriveAt, ReloadBy, Acceptable;
    var p, q := s.At(ev.side), s.At(ev.side.Other());
    assert Sound(k, p, q) && Sound(k, q, p);
    if ev.Reload? {
      ReloadKeepsInv(k, p, q);
      WithKeeps(k, s, ev.side, ReloadBy(p));
    } else if ev.Send? {
      SendKeepsInv(k, p, q, ev);
      WithKeeps(k, s, ev.side, SendBy(p, ev));
    } else if ev.index < |q.sent| {
      ArriveKeepsInv(k, p, q, ev.index);
      WithKeeps(k, s, ev.side, ArriveAt(k, p, q, ev.index));
    }
  }

  /** The far side's link only looks at packets already sent, not at how its peer moves on. */
  lemma SenderMoves(k: Schedule, to: Party, from: Party, from': Party)
    requires Linked(k, to, from) && from'.sent == from.sent
    requires to.epoch == from'.epoch + 1 || from'.epoch == to.epoch + 1
    ensures Linked(k, to, from')
  {
    SenderKeepsLink(k, to, from, from'.(epoch := from.epoch));
    forall j: nat, n: nat ensures WasReceived(to, from', j, n) <==> WasReceived(to, from, j, n) {}
    forall a | 0 <= a < |to.state.skipped| ensures HeldTrue(k, to, from', to.state.skipped[a]) {
      assert HeldTrue(k, to, from, to.state.skipped[a]);
    }
    if to.epoch >= 2 && !to.overflowed {
      forall n: nat | n < to.state.receiveCount ensures Accounted(k, to, from', n) {
        assert Accounted(k, to, from, n);
      }
    }
  }

  lemma {:induction false} RunKeeps(k: Schedule, events: seq<Event>)
    requires k.Valid()
    ensures Inv(k, Run(k, events))
  {
    if events == [] {
      StartInv(k);
    } else {
      RunKeeps(k, events[..|events| - 1]);
      StepKeeps(k, Run(k, events[..|events| - 1]), events[|events| - 1]);
    }
  }

  lemma RunSound(k: Schedule, events: seq<Event>, side: Side)
    requires k.Valid()
    ensures var s := Run(k, events);
            && Sound(k, s.At(side), s.At(side.Other())) && Sound(k, s.At(side.Other()), s.At(side))
            && s.At(side).epoch % 2 != s.At(side.Other()).epoch % 2
  {
    hide Run, StateInStep, SentInOrder, HeldKeysTrue, ReceivedTrue, AtFrontier, NothingForgotten;
    RunKeeps(k, events);
  }

  /** After any run, a packet of the peer opens if and only if its key is held, or it
      is on the current receiving chain or a new epoch with at most MAX_SKIP missing
      before it.  It then opens to its own plaintext; otherwise nothing changes. */
  lemma ArrivalExact(k: Schedule, events: seq<Event>, side: Side, index: nat)
    requires k.Valid() && index < |Run(k, events).At(side.Other()).sent|
    ensures var s := Run(k, events);
            var to, x := s.At(side), s.At(side.Other()).sent[index];
            var s' := Run(k, events + [Arrive(side, index)]);
            if Acceptable(k, to, x)
            then s'.At(side).received == to.received + [Received(index, x.plaintext)]
            else s' == s
  {
    hide Sound, ArriveAt, Acceptable;
    RunSound(k, events, side);
    var s, all := Run(k, events), events + [Arrive(side, index)];
    assert all[..|all| - 1] == events;
    ArriveKeepsInv(k, s.At(side), s.At(side.Other()), index);
  }

  lemma ReadIsRefused(k: Schedule, to: Party, from: Party, d: nat)
    requires k.Valid() && SentInOrder(k, from) && HeldKeysTrue(k, to, from) && ReceivedTrue(to, from)
             && d < |to.received|
    ensures !Acceptable(k, to, from.sent[to.received[d].index])
  {
  }

  /** Nothing is read twice, nothing is read that was not sent, and what has been
      read is refused from then on. */
  lemma ReadAtMostOnce(k: Schedule, events: seq<Event>, side: Side, d: nat)
    requires k.Valid() && d < |Run(k, events).At(side).received|
    ensures var s := Run(k, events);
            var to, from := s.At(side), s.At(side.Other());
            var r := to.received[d];
            && r.index < |from.sent| && r.plaintext == from.sent[r.index].plaintext
            && (forall e :: 0 <= e < |to.received| && e != d ==> to.received[e].index != r.index)
            && !Acceptable(k, to, from.sent[r.index])
  {
    hide Run, Acceptable;
    RunSound(k, events, side);
    ReadIsRefused(k, Run(k, events).At(side), Run(k, events).At(side.Other()), d);
  }

  /** Messages missing between what the receiver has read and this packet. */
  function Gap(to: Party, x: Sent): int {
    if x.epoch + 1 == to.epoch then x.number - to.state.receiveCount else x.number
  }

  predicate NewestSoFar(to: Party, index: nat) {
    forall d :: 0 <= d < |to.received| ==> to.received[d].index < index
  }

  lemma NewestOpens(k: Schedule, to: Party, from: Party, index: nat)
    requires SentInOrder(k, from) && ReceivedTrue(to, from) && AtFrontier(to, from)
    requires to.epoch == from.epoch + 1 || from.epoch == to.epoch + 1
    requires index < |from.sent| && NewestSoFar(to, index) && Gap(to, from.sent[index]) <= MAX_SKIP
    ensures Acceptable(k, to, from.sent[index])
  {
  }

  /** On a channel that loses packets but never reorders them, a packet whose gap is
      at most MAX_SKIP opens, however many DH epochs have passed. */
  lemma InOrderOpens(k: Schedule, events: seq<Event>, side: Side, index: nat)
    requires k.Valid()
    requires var s := Run(k, events);
             index < |s.At(side.Other()).sent| && NewestSoFar(s.At(side), index)
             && Gap(s.At(side), s.At(side.Other()).sent[index]) <= MAX_SKIP
    ensures Acceptable(k, Run(k, events).At(side), Run(k, events).At(side.Other()).sent[index])
  {
    hide Run, Acceptable;
    RunSound(k, events, side);
    NewestOpens(k, Run(k, events).At(side), Run(k, events).At(side.Other()), index);
  }

  predicate NotRead(to: Party, index: nat) {
    forall d :: 0 <= d < |to.received| ==> to.received[d].index != index
  }

  lemma UnreadOpens(k: Schedule, to: Party, from: Party, index: nat)
    requires SentInOrder(k, from) && NothingForgotten(k, to, from)
    requires index < |from.sent| && NotRead(to, index) && !to.overflowed
    requires from.sent[index].epoch + 1 == to.epoch && Gap(to, from.sent[index]) <= MAX_SKIP
    ensures Acceptable(k, to, from.sent[index])
  {
    var x := from.sent[index];
    assert Sealed(k, x);
    if x.number < to.state.receiveCount {
      assert Accounted(k, to, from, x.number);
      forall d | 0 <= d < |to.received| && to.received[d].index < |from.sent|
        ensures from.sent[to.received[d].index].epoch != x.epoch || from.sent[to.received[d].index].number != x.number
      {
        assert to.received[d].index != index;
        assert Before(from.sent[to.received[d].index], x) || Before(x, from.sent[to.received[d].index]);
      }
    }
  }

  /** Within one epoch order does not matter: while the receiver has never had more
      than MAX_SKIP keys to keep, nor stored more than STORED_KEYS, every message of
      the epoch it is reading opens on its first arrival. */
  lemma AnyOrderOpens(k: Schedule, events: seq<Event>, side: Side, index: nat)
    requires k.Valid()
    requires var s := Run(k, events);
             var to := s.At(side);
             && index < |s.At(side.Other()).sent| && NotRead(to, index) && !to.overflowed
             && s.At(side.Other()).sent[index].epoch + 1 == to.epoch
             && Gap(to, s.At(side.Other()).sent[index]) <= MAX_SKIP
    ensures Acceptable(k, Run(k, events).At(side), Run(k, events).At(side.Other()).sent[index])
  {
    hide Run, Acceptable;
    RunSound(k, events, side);
    UnreadOpens(k, Run(k, events).At(side), Run(k, events).At(side.Other()), index);
  }

  lemma DifferentKeys(k: Schedule, p: Party, i: nat, q: Party, i': nat)
    requires SentInOrder(k, p) && SentInOrder(k, q) && i < |p.sent| && i' < |q.sent|
    requires p.epoch % 2 != q.epoch % 2 || (p == q && i != i')
    ensures p.sent[i].packet.box.key != q.sent[i'].packet.box.key
  {
    var x, y := p.sent[i], q.sent[i'];
    assert Sealed(k, x) && Sealed(k, y);
    if p == q { assert Before(x, y) || Before(y, x); }
    if x.packet.box.key == y.packet.box.key { KeyInjective(k, x.epoch, x.number, y.epoch, y.number); }
  }

  /** No message key seals two packets, on either side or across the two. */
  lemma KeysNeverReused(k: Schedule, events: seq<Event>, side: Side, i: nat, side': Side, i': nat)
    requires k.Valid()
    requires i < |Run(k, events).At(side).sent| && i' < |Run(k, events).At(side').sent|
    requires side != side' || i != i'
    ensures Run(k, events).At(side).sent[i].packet.box.key != Run(k, events).At(side').sent[i'].packet.box.key
  {
    hide Run;
    RunSound(k, events, side);
    assert side == side' || side' == side.Other();
    DifferentKeys(k, Run(k, events).At(side), i, Run(k, events).At(side'), i');
  }
}
