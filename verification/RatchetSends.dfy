/** What two browser ratchets can send in a run, and what the headers say. */
module RatchetSends {
  import opened Outcomes
  import opened Ratchet
  import opened RatchetKeys
  import opened RatchetSession
  import T = RatchetTheorems

  /** A side has a sending chain from the start if it is the initiator, and otherwise once
      it has received something. */
  predicate MaySend(side: Side, p: Party) {
    side.Initiator? || p.received != []
  }

  lemma ChainIsThere(k: Schedule, side: Side, p: Party, peer: Party)
    requires Sound(k, p, peer) && SentInOrder(k, peer) && p.epoch % 2 == if side.Initiator? then 1 else 0
    ensures p.state.sendingChain.Some? <==> MaySend(side, p)
  {
    if p.received != [] {
      assert Behind(p, peer.sent[p.received[0].index].epoch, peer.sent[p.received[0].index].number);
      assert Sealed(k, peer.sent[p.received[0].index]);
    }
  }

  lemma ChainInRun(k: Schedule, events: seq<Event>, side: Side)
    requires k.Valid()
    ensures var p := Run(k, events).At(side); p.state.sendingChain.Some? <==> MaySend(side, p)
  {
    T.RunKeeps(k, events);
    T.RunSound(k, events, side);
    var s := Run(k, events);
    hide Run;
    assert SentInOrder(k, s.At(side.Other()));
    hide Sound, SentInOrder;
    ChainIsThere(k, side, s.At(side), s.At(side.Other()));
  }

  /** After every run such a side can send: without a padded length every text of at most
      65533 bytes, in at least 64 bytes, and with one every text that fits. */
  lemma SendsExactly(k: Schedule, events: seq<Event>, side: Side, text: string, nonce: nat, padded: nat)
    requires k.Valid()
    ensures var s, s' := Run(k, events), Run(k, events + [Send(side, text, nonce, padded)]);
            var p, p' := s.At(side), s'.At(side);
            if MaySend(side, p) && if padded == 0 then |text| <= 65533 else |text| + 2 <= padded <= 65535
            then |p'.sent| == |p.sent| + 1 && p'.sent[..|p.sent|] == p.sent
                 && p'.sent[|p.sent|].plaintext == text && p'.sent[|p.sent|].packet.nonce == nonce
                 && p'.sent[|p.sent|].packet.size == (if padded != 0 then padded else if |text| <= 62 then 64 else |text| + 2)
            else s' == s
  {
    var all := events + [Send(side, text, nonce, padded)];
    assert all[..|all| - 1] == events;
    ChainInRun(k, events, side);
    hide Encrypt;
    SealsExactly(Run(k, events).At(side).state, text, nonce, padded);
  }

  /** How many of these packets are of an epoch. */
  function CountIn(sent: seq<Sent>, epoch: int): nat {
    if sent == [] then 0
    else CountIn(sent[..|sent| - 1], epoch) + if sent[|sent| - 1].epoch == epoch then 1 else 0
  }

  /** Counters are what they count: the packets of the current epoch, and of the one before
      that this side sent in; and the header of each packet says both as they were. */
  ghost predicate Counted(p: Party) {
    && p.state.sendCount == CountIn(p.sent, p.epoch) && p.state.previousSendCount == CountIn(p.sent, p.epoch - 2)
    && (forall i :: 0 <= i < |p.sent| ==> HeaderCounts(p.sent, i))
    && (forall i :: 0 <= i < |p.sent| ==> p.sent[i].epoch <= p.epoch)
  }

  ghost predicate HeaderCounts(sent: seq<Sent>, i: nat)
    requires i < |sent|
  {
    && sent[i].packet.header.Some?
    && sent[i].packet.header.value.messageNumber == CountIn(sent[..i], sent[i].epoch)
    && sent[i].packet.header.value.previousSendCount == CountIn(sent[..i], sent[i].epoch - 2)
  }

  lemma {:induction false} NoneLater(sent: seq<Sent>, epoch: int)
    requires forall i :: 0 <= i < |sent| ==> sent[i].epoch < epoch
    ensures CountIn(sent, epoch) == 0
  {
    if sent != [] { NoneLater(sent[..|sent| - 1], epoch); }
  }

  lemma SendCounts(p: Party, ev: Event)
    requires ev.Send? && Counted(p)
    ensures Counted(SendBy(p, ev))
  {
    var p' := SendBy(p, ev);
    if p'.sent != p.sent {
      var n := |p.sent|;
      assert p'.sent[..n] == p.sent;
      forall i | 0 <= i < |p'.sent| ensures HeaderCounts(p'.sent, i) {
        if i < n {
          assert HeaderCounts(p.sent, i) && p'.sent[..i] == p.sent[..i];
        }
      }
    }
  }

  lemma ArriveCounts(k: Schedule, to: Party, from: Party, index: nat)
    requires k.Valid() && StateInStep(k, to) && index < |from.sent| && Counted(to)
    ensures Counted(ArriveAt(k, to, from, index))
  {
    NoneLater(to.sent, to.epoch + 2);
    assert k.epochOf(k.name(to.epoch)) == to.epoch && k.epochOf(k.name(to.epoch + 2)) == to.epoch + 2;
  }

  lemma ReloadCounts(p: Party)
    requires Counted(p)
    ensures Counted(ReloadBy(p))
  {
  }

  /** After every run the counters and all headers are true. */
  lemma {:induction false} HeadersAreTrue(k: Schedule, events: seq<Event>, side: Side)
    requires k.Valid()
    ensures Counted(Run(k, events).At(side))
  {
    if events != [] {
      var before, ev := events[..|events| - 1], events[|events| - 1];
      HeadersAreTrue(k, before, side);
      var s := Run(k, before);
      T.RunSound(k, before, side);
      hide Run, Counted, SendBy, ArriveAt, ReloadBy;
      assert StateInStep(k, s.At(side));
      if ev.side == side {
        match ev
        case Send(_, _, _, _) => SendCounts(s.At(side), ev);
        case Reload(_) => ReloadCounts(s.At(side));
        case Arrive(_, index) => if index < |s.At(side.Other()).sent| { ArriveCounts(k, s.At(side), s.At(side.Other()), index); }
      }
    }
  }
}
