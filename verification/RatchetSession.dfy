/** Two browser ratchets joined by a network that may drop, repeat, delay and
    reorder packets without limit.  Every packet either party ever sealed can be
    handed to the other at any time. */
module RatchetSession {
  import opened Outcomes
  import opened Ratchet
  import opened RatchetKeys

  const STORED_KEYS: nat := 1000

  datatype Side = Initiator | Responder {
    function Other(): Side { if Initiator? then Responder else Initiator }
  }

  datatype Sent = Sent(epoch: nat, number: nat, packet: Packet, plaintext: string)

  datatype Received = Received(index: nat, plaintext: string)

  /** `state` is all the program has.  `epoch`, `sent`, `received` and
      `overflowed` record what happened, for stating properties. */
  datatype Party = Party(
    state: State,
    epoch: nat,
    sent: seq<Sent>,
    received: seq<Received>,
    overflowed: bool
  )

  datatype Session = Session(initiator: Party, responder: Party) {
    function At(side: Side): Party {
      if side.Initiator? then initiator else responder
    }

    function With(side: Side, p: Party): Session {
      if side.Initiator? then this.(initiator := p) else this.(responder := p)
    }
  }

  datatype Event =
    | Send(side: Side, plaintext: string, nonce: nat, paddedLength: nat)
    | Arrive(side: Side, index: nat)       // the other party's packet number `index` reaches `side`
    | Reload(side: Side)                   // `side` stores its state and reads it back

  /** What the contact handshake stores: the requester's ratchet knows the inviter's
      key, the inviter's ratchet is told nothing about the requester. */
  function Start(k: Schedule): Session {
    Session(Party(CreateState(k.root, k.name(1), Some(k.name(0)), true), 1, [], [], false),
            Party(CreateState(k.root, k.name(0), None, false), 0, [], [], false))
  }

  function SendBy(p: Party, ev: Event): Party
    requires ev.Send?
  {
    match Encrypt(p.state, ev.plaintext, ev.nonce, ev.paddedLength)
    case Ok((state, packet)) =>
      p.(state := state, sent := p.sent + [Sent(p.epoch, p.state.sendCount, packet, ev.plaintext)])
    case Err(_) => p
  }

  /** How many keys a packet makes its receiver pass over and keep. */
  function PassedOver(s: State, h: Header): int {
    if FirstIndex(s.skipped, h.dh, h.messageNumber) < |s.skipped| then 0
    else if s.remoteDh == Some(h.dh) then h.messageNumber - s.receiveCount
    else h.messageNumber
  }

  /** A rejected packet throws, so the stored state stays as it was. */
  function ArriveAt(k: Schedule, to: Party, from: Party, index: nat): Party
    requires index < |from.sent|
  {
    var x := from.sent[index];
    match Decrypt(to.state, x.packet, k.name(to.epoch + 2))
    case Ok((state, text)) =>
      Party(state, if state.ownDh != to.state.ownDh then to.epoch + 2 else to.epoch, to.sent,
            to.received + [Received(index, text)],
            to.overflowed || |to.state.skipped| + PassedOver(to.state, x.packet.header.value) > MAX_SKIP)
    case Err(_) => to
  }

  /** The store cuts lists, so of the kept keys only the oldest come back. */
  function Reloaded(s: State): State {
    if |s.skipped| <= STORED_KEYS then s else s.(skipped := s.skipped[..STORED_KEYS])
  }

  function ReloadBy(p: Party): Party {
    p.(state := Reloaded(p.state), overflowed := p.overflowed || |p.state.skipped| > STORED_KEYS)
  }

  function Step(k: Schedule, s: Session, ev: Event): Session {
    match ev
    case Reload(side) => s.With(side, ReloadBy(s.At(side)))
    case Send(side, _, _, _) => s.With(side, SendBy(s.At(side), ev))
    case Arrive(side, index) =>
      if index < |s.At(side.Other()).sent|
      then s.With(side, ArriveAt(k, s.At(side), s.At(side.Other()), index))
      else s
  }

  function Run(k: Schedule, events: seq<Event>): Session {
    if events == [] then Start(k) else Step(k, Run(k, events[..|events| - 1]), events[|events| - 1])
  }

  // ---------------------------------------------------------------- invariant

  ghost predicate StateInStep(k: Schedule, p: Party) {
    var s, e := p.state, p.epoch;
    && s.ownDh == k.name(e)
    && s.rootKey == k.Root(e)
    && s.remoteDh == (if e == 0 then None else Some(k.name(e - 1)))
    && s.sendingChain == (if e == 0 then None else Some(Ratcheted(k.Chain(e), s.sendCount)))
    && s.receivingChain == (if e < 2 then None else Some(Ratcheted(k.Chain(e - 1), s.receiveCount)))
    && |s.skipped| <= MAX_SKIP
  }

  ghost predicate Sealed(k: Schedule, x: Sent) {
    && x.epoch >= 1
    && x.packet.header.Some?
    && x.packet.header.value.dh == k.name(x.epoch)
    && x.packet.header.value.messageNumber == x.number
    && x.packet.box == Box(k.Key(x.epoch, x.number), x.packet.nonce, x.packet.header, x.plaintext)
  }

  predicate Before(x: Sent, y: Sent) {
    x.epoch < y.epoch || (x.epoch == y.epoch && x.number < y.number)
  }

  ghost predicate SentInOrder(k: Schedule, p: Party) {
    && (forall i :: 0 <= i < |p.sent| ==>
          && Sealed(k, p.sent[i])
          && p.sent[i].epoch <= p.epoch
          && p.sent[i].epoch % 2 == p.epoch % 2
          && (p.sent[i].epoch == p.epoch ==> p.sent[i].number < p.state.sendCount))
    && (forall i, j :: 0 <= i < j < |p.sent| ==> Before(p.sent[i], p.sent[j]))
  }

  /** Message n of epoch j is behind the receiver: passed over or already read. */
  predicate Behind(to: Party, j: nat, n: nat) {
    j < to.epoch && (j + 1 == to.epoch ==> n < to.state.receiveCount)
  }

  ghost predicate WasReceived(to: Party, from: Party, j: nat, n: nat) {
    exists d :: 0 <= d < |to.received| && to.received[d].index < |from.sent|
                && from.sent[to.received[d].index].epoch == j && from.sent[to.received[d].index].number == n
  }

  ghost predicate HeldTrue(k: Schedule, to: Party, from: Party, h: SkippedKey) {
    var j := k.epochOf(h.dh);
    && 1 <= j && h.dh == k.name(j)
    && h.key == k.Key(j, h.n)
    && Behind(to, j, h.n)
    && !WasReceived(to, from, j, h.n)
  }

  ghost predicate HeldKeysTrue(k: Schedule, to: Party, from: Party) {
    && (forall i :: 0 <= i < |to.state.skipped| ==>
          HeldTrue(k, to, from, to.state.skipped[i]))
    && (forall i, i' :: 0 <= i < i' < |to.state.skipped| ==>
          to.state.skipped[i].dh != to.state.skipped[i'].dh || to.state.skipped[i].n != to.state.skipped[i'].n)
  }

  ghost predicate ReceivedTrue(to: Party, from: Party) {
    && (forall d :: 0 <= d < |to.received| ==>
          && to.received[d].index < |from.sent|
          && to.received[d].plaintext == from.sent[to.received[d].index].plaintext
          && Behind(to, from.sent[to.received[d].index].epoch, from.sent[to.received[d].index].number))
    && (forall d, d' :: 0 <= d < d' < |to.received| ==> to.received[d].index != to.received[d'].index)
  }

  /** The receiving chain stands just past a message that was read. */
  ghost predicate AtFrontier(to: Party, from: Party) {
    to.epoch >= 2 ==> to.state.receiveCount >= 1 && WasReceived(to, from, to.epoch - 1, to.state.receiveCount - 1)
  }

  ghost predicate Accounted(k: Schedule, to: Party, from: Party, n: nat)
    requires to.epoch >= 1
  {
    Holds(to.state.skipped, k.name(to.epoch - 1), n) || WasReceived(to, from, to.epoch - 1, n)
  }

  ghost predicate NothingForgotten(k: Schedule, to: Party, from: Party) {
    to.epoch >= 2 && !to.overflowed ==>
      forall n: nat :: n < to.state.receiveCount ==> Accounted(k, to, from, n)
  }

  ghost predicate Linked(k: Schedule, to: Party, from: Party) {
    && (to.epoch == from.epoch + 1 || from.epoch == to.epoch + 1)
    && HeldKeysTrue(k, to, from)
    && ReceivedTrue(to, from)
    && AtFrontier(to, from)
    && NothingForgotten(k, to, from)
  }

  ghost predicate Sound(k: Schedule, p: Party, peer: Party) {
    StateInStep(k, p) && SentInOrder(k, p) && Linked(k, p, peer)
  }

  ghost predicate Inv(k: Schedule, s: Session) {
    && s.initiator.epoch % 2 == 1
    && Sound(k, s.initiator, s.responder)
    && Sound(k, s.responder, s.initiator)
  }

  // ------------------------------------------------------- which packets open

  /** What a caller can see before the call: the packet's key is held, or it is on
      the receiving chain at most MAX_SKIP ahead, or it opens a new epoch with at
      most MAX_SKIP messages missing. */
  ghost predicate Acceptable(k: Schedule, to: Party, x: Sent) {
    || Holds(to.state.skipped, k.name(x.epoch), x.number)
    || (x.epoch + 1 == to.epoch && to.state.receiveCount <= x.number <= to.state.receiveCount + MAX_SKIP)
    || (x.epoch == to.epoch + 1 && x.number <= MAX_SKIP)
  }

  lemma FirstIndexHolds(keys: seq<SkippedKey>, dh: nat, n: nat)
    ensures FirstIndex(keys, dh, n) < |keys| <==> Holds(keys, dh, n)
  {
  }

  lemma HeldKeyOpens(k: Schedule, s: State, x: Sent, newDh: nat)
    requires Sealed(k, x) && |s.skipped| <= MAX_SKIP
    requires Holds(s.skipped, k.name(x.epoch), x.number)
    requires var i := FirstIndex(s.skipped, k.name(x.epoch), x.number);
             i < |s.skipped| ==> s.skipped[i].key == k.Key(x.epoch, x.number)
    ensures var i := FirstIndex(s.skipped, k.name(x.epoch), x.number);
            i < |s.skipped| && Decrypt(s, x.packet, newDh)
                               == Ok((s.(skipped := s.skipped[..i] + s.skipped[i + 1..]), x.plaintext))
  {
  }

  lemma CurrentChainOpens(k: Schedule, s: State, x: Sent, newDh: nat)
    requires Sealed(k, x) && |s.skipped| <= MAX_SKIP
    requires !Holds(s.skipped, k.name(x.epoch), x.number)
    requires s.remoteDh == Some(k.name(x.epoch))
    requires s.receivingChain == Some(Ratcheted(k.Chain(x.epoch), s.receiveCount))
    ensures var r := Decrypt(s, x.packet, newDh);
            && (r.Ok? <==> s.receiveCount <= x.number <= s.receiveCount + MAX_SKIP)
            && (r.Ok? ==> r.value == (
                  s.(receivingChain := Some(Ratcheted(k.Chain(x.epoch), x.number + 1)),
                     receiveCount := x.number + 1,
                     skipped := Newest(s.skipped
                                       + ChainKeys(s.receivingChain.value, k.name(x.epoch), s.receiveCount, x.number))),
                  x.plaintext))
  {
    FirstIndexHolds(s.skipped, k.name(x.epoch), x.number);
    var chain, n, count := k.Chain(x.epoch), x.number, s.receiveCount;
    if n < count {
      if k.Key(x.epoch, count) == k.Key(x.epoch, n) { KeyInjective(k, x.epoch, count, x.epoch, n); }
    } else {
      RatchetedTwice(chain, count, n - count);
      assert n == count ==> ChainKeys(s.receivingChain.value, k.name(x.epoch), count, n) == [];
      assert s.skipped + [] == s.skipped;
    }
  }

  lemma NewEpochOpens(k: Schedule, s: State, x: Sent, newDh: nat)
    requires Sealed(k, x) && |s.skipped| <= MAX_SKIP
    requires !Holds(s.skipped, k.name(x.epoch), x.number)
    requires s.ownDh == k.name(x.epoch - 1) && s.rootKey == k.Root(x.epoch - 1)
    requires s.remoteDh != Some(k.name(x.epoch)) && newDh == k.name(x.epoch + 1)
    ensures var r := Decrypt(s, x.packet, newDh);
            && (r.Ok? <==> x.number <= MAX_SKIP)
            && (r.Ok? ==> r.value == (
                  State(k.Root(x.epoch + 1), newDh, Some(k.name(x.epoch)), Some(k.Chain(x.epoch + 1)),
                        Some(Ratcheted(k.Chain(x.epoch), x.number + 1)), 0, x.number + 1, s.sendCount,
                        Newest(s.skipped + ChainKeys(k.Chain(x.epoch), k.name(x.epoch), 0, x.number))),
                  x.plaintext))
  {
    FirstIndexHolds(s.skipped, k.name(x.epoch), x.number);
    assert Dh(k.name(x.epoch + 1), k.name(x.epoch)) == Dh(k.name(x.epoch), k.name(x.epoch + 1));
    assert x.number == 0 ==> ChainKeys(k.Chain(x.epoch), k.name(x.epoch), 0, 0) == [] && s.skipped + [] == s.skipped;
  }

  lemma StaleEpochFails(k: Schedule, s: State, x: Sent, e: nat, newDh: nat)
    requires Sealed(k, x) && x.epoch <= e && s.rootKey == k.Root(e)
    requires |s.skipped| <= MAX_SKIP && !Holds(s.skipped, k.name(x.epoch), x.number)
    requires s.remoteDh != Some(k.name(x.epoch))
    ensures Decrypt(s, x.packet, newDh).Err?
  {
    FirstIndexHolds(s.skipped, k.name(x.epoch), x.number);
    StaleStepMissesKey(k, e, x.epoch, Dh(s.ownDh, k.name(x.epoch)), x.number, x.number);
  }

  /** Exactly the acceptable packets open, and each opens to what was sent in it. */
  lemma OpensExactly(k: Schedule, to: Party, from: Party, i: nat)
    requires k.Valid() && StateInStep(k, to) && SentInOrder(k, from) && Linked(k, to, from) && i < |from.sent|
    ensures var r := Decrypt(to.state, from.sent[i].packet, k.name(to.epoch + 2));
            && (r.Ok? <==> Acceptable(k, to, from.sent[i]))
            && (r.Ok? ==> r.value.1 == from.sent[i].plaintext)
  {
    var x, newDh := from.sent[i], k.name(to.epoch + 2);
    assert Sealed(k, x) && k.epochOf(k.name(x.epoch)) == x.epoch;
    if Holds(to.state.skipped, k.name(x.epoch), x.number) {
      HeldKeyOpens(k, to.state, x, newDh);
    } else if x.epoch + 1 == to.epoch {
      CurrentChainOpens(k, to.state, x, newDh);
    } else {
      assert to.epoch >= 1 ==> k.epochOf(k.name(to.epoch - 1)) == to.epoch - 1;
      if x.epoch == to.epoch + 1 {
        NewEpochOpens(k, to.state, x, newDh);
      } else {
        StaleEpochFails(k, to.state, x, to.epoch, newDh);
      }
    }
  }

  // ------------------------------------------------------ every step keeps it

  lemma WasReceivedAfter(to: Party, to': Party, from: Party, r: Received, j: nat, n: nat)
    requires to'.received == to.received + [r] && r.index < |from.sent|
    ensures WasReceived(to', from, j, n)
            <==> WasReceived(to, from, j, n) || (from.sent[r.index].epoch == j && from.sent[r.index].number == n)
  {
    if WasReceived(to, from, j, n) {
      var d :| 0 <= d < |to.received| && to.received[d].index < |from.sent|
               && from.sent[to.received[d].index].epoch == j && from.sent[to.received[d].index].number == n;
      assert to'.received[d] == to.received[d];
    }
    assert to'.received[|to.received|] == r;
  }

  /** What `to` has read grows by packet `index`. */
  ghost predicate Reads(to: Party, to': Party, from: Party, index: nat) {
    && index < |from.sent|
    && to'.received == to.received + [Received(index, from.sent[index].plaintext)]
    && !WasReceived(to, from, from.sent[index].epoch, from.sent[index].number)
    && Behind(to', from.sent[index].epoch, from.sent[index].number)
    && to.epoch <= to'.epoch
    && (to.epoch == to'.epoch ==> to.state.receiveCount <= to'.state.receiveCount)
  }

  lemma ReadsReceived(to: Party, to': Party, from: Party, index: nat)
    requires Reads(to, to', from, index) && ReceivedTrue(to, from)
    ensures ReceivedTrue(to', from)
    ensures forall j: nat, n: nat :: WasReceived(to', from, j, n)
              <==> WasReceived(to, from, j, n) || (from.sent[index].epoch == j && from.sent[index].number == n)
  {
    forall j: nat, n: nat
      ensures WasReceived(to', from, j, n)
              <==> WasReceived(to, from, j, n) || (from.sent[index].epoch == j && from.sent[index].number == n)
    {
      WasReceivedAfter(to, to', from, to'.received[|to.received|], j, n);
    }
  }

  /** Reading with a kept key: the key goes, everything else stays. */
  ghost predicate ReadsHeld(k: Schedule, to: Party, to': Party, from: Party, index: nat, i: nat) {
    && Reads(to, to', from, index)
    && i < |to.state.skipped|
    && to.state.skipped[i].dh == k.name(from.sent[index].epoch) && to.state.skipped[i].n == from.sent[index].number
    && to'.state.skipped == to.state.skipped[..i] + to.state.skipped[i + 1..]
    && to'.state.receiveCount == to.state.receiveCount
    && to'.epoch == to.epoch && (to.overflowed ==> to'.overflowed)
  }

  lemma ReadsHeldKeys(k: Schedule, to: Party, to': Party, from: Party, index: nat, i: nat)
    requires k.Valid() && Linked(k, to, from) && ReadsHeld(k, to, to', from, index, i)
    ensures HeldKeysTrue(k, to', from)
  {
    ReadsReceived(to, to', from, index);
    var old', new' := to.state.skipped, to'.state.skipped;
    forall a | 0 <= a < |new'| ensures HeldTrue(k, to', from, new'[a]) {
      assert new'[a] == old'[if a < i then a else a + 1];
    }
  }

  lemma HoldsWithout(keys: seq<SkippedKey>, i: nat, dh: nat, n: nat)
    requires i < |keys| && Holds(keys, dh, n) && (keys[i].dh != dh || keys[i].n != n)
    ensures Holds(keys[..i] + keys[i + 1..], dh, n)
  {
    var a :| 0 <= a < |keys| && keys[a].dh == dh && keys[a].n == n;
    assert keys[a] == (keys[..i] + keys[i + 1..])[if a < i then a else a - 1];
  }

  lemma ReadsHeldForgets(k: Schedule, to: Party, to': Party, from: Party, index: nat, i: nat)
    requires k.Valid() && ReceivedTrue(to, from) && NothingForgotten(k, to, from)
             && ReadsHeld(k, to, to', from, index, i)
    ensures NothingForgotten(k, to', from)
  {
    ReadsReceived(to, to', from, index);
    var x := from.sent[index];
    assert k.epochOf(k.name(x.epoch)) == x.epoch;
    if to.epoch >= 2 && !to'.overflowed {
      assert k.epochOf(k.name(to.epoch - 1)) == to.epoch - 1;
      forall n: nat | n < to'.state.receiveCount ensures Accounted(k, to', from, n) {
        assert Accounted(k, to, from, n);
        if x.epoch == to.epoch - 1 && x.number == n {
          assert WasReceived(to', from, to.epoch - 1, n);
        } else if Holds(to.state.skipped, k.name(to.epoch - 1), n) {
          HoldsWithout(to.state.skipped, i, k.name(to.epoch - 1), n);
        }
      }
    }
  }

  /** Reading from a chain: the keys passed over are kept, the newest MAX_SKIP of them. */
  ghost predicate ReadsChain(k: Schedule, to: Party, to': Party, from: Party, index: nat, first: nat) {
    && Reads(to, to', from, index)
    && var x := from.sent[index];
    && x.epoch >= 1 && first <= x.number
    && to'.epoch == x.epoch + 1 && to'.state.receiveCount == x.number + 1
    && (to.epoch == to'.epoch || to'.epoch == to.epoch + 2)
    && first == (if to.epoch == to'.epoch then to.state.receiveCount else 0)
    && to'.state.skipped == Newest(Offered(k, to, x, first))
    && (to'.overflowed <==> to.overflowed || |Offered(k, to, x, first)| > MAX_SKIP)
  }

  ghost function Offered(k: Schedule, to: Party, x: Sent, first: nat): seq<SkippedKey>
    requires x.epoch >= 1 && first <= x.number
  {
    to.state.skipped + ChainKeys(Ratcheted(k.Chain(x.epoch), first), k.name(x.epoch), first, x.number)
  }

  lemma ReadsChainKeys(k: Schedule, to: Party, to': Party, from: Party, index: nat, first: nat)
    requires k.Valid() && Linked(k, to, from) && ReadsChain(k, to, to', from, index, first)
    ensures HeldKeysTrue(k, to', from)
  {
    ReadsReceived(to, to', from, index);
    var x := from.sent[index];
    var all, kept := Offered(k, to, x, first), |to.state.skipped|;
    assert k.epochOf(k.name(x.epoch)) == x.epoch;
    forall a | 0 <= a < |all| ensures HeldTrue(k, to', from, all[a]) {
      if a < kept {
        assert all[a] == to.state.skipped[a] && HeldTrue(k, to, from, all[a]);
      } else {
        RatchetedTwice(k.Chain(x.epoch), first, a - kept);
        assert all[a] == SkippedKey(k.name(x.epoch), first + (a - kept), k.Key(x.epoch, first + (a - kept)));
        NotYetReceived(to, from, x.epoch, first + (a - kept));
      }
    }
    forall a, b | 0 <= a < b < |all| ensures all[a].dh != all[b].dh || all[a].n != all[b].n {
      if a < kept { assert HeldTrue(k, to, from, to.state.skipped[a]); }
    }
    NewestOf(k, to', from, all);
  }

  lemma NotYetReceived(to: Party, from: Party, j: nat, n: nat)
    requires ReceivedTrue(to, from) && !Behind(to, j, n)
    ensures !WasReceived(to, from, j, n)
  {
  }

  lemma NewestOf(k: Schedule, to: Party, from: Party, all: seq<SkippedKey>)
    requires to.state.skipped == Newest(all)
    requires forall a :: 0 <= a < |all| ==> HeldTrue(k, to, from, all[a])
    requires forall a, b :: 0 <= a < b < |all| ==> all[a].dh != all[b].dh || all[a].n != all[b].n
    ensures HeldKeysTrue(k, to, from)
  {
  }

  lemma ReadsChainForgets(k: Schedule, to: Party, to': Party, from: Party, index: nat, first: nat)
    requires k.Valid() && Linked(k, to, from) && ReadsChain(k, to, to', from, index, first)
    ensures AtFrontier(to', from) && NothingForgotten(k, to', from)
  {
    ReadsReceived(to, to', from, index);
    var x := from.sent[index];
    var all := Offered(k, to, x, first);
    if !to'.overflowed {
      forall n: nat | n < to'.state.receiveCount ensures Accounted(k, to', from, n) {
        if n < first {
          assert Accounted(k, to, from, n);
          if Holds(to.state.skipped, k.name(x.epoch), n) {
            var a :| 0 <= a < |to.state.skipped| && to.state.skipped[a].dh == k.name(x.epoch)
                && to.state.skipped[a].n == n;
            assert all[a] == to.state.skipped[a];
          }
        } else if n < x.number {
          assert all[|to.state.skipped| + n - first].n == n;
        }
      }
    }
  }

  lemma SenderKeepsLink(k: Schedule, to: Party, from: Party, from': Party)
    requires Linked(k, to, from) && from'.epoch == from.epoch && from.sent <= from'.sent
    ensures Linked(k, to, from')
  {
    forall j: nat, n: nat ensures WasReceived(to, from', j, n) <==> WasReceived(to, from, j, n) {
      if WasReceived(to, from', j, n) {
        var d :| 0 <= d < |to.received| && to.received[d].index < |from'.sent|
                 && from'.sent[to.received[d].index].epoch == j && from'.sent[to.received[d].index].number == n;
        assert to.received[d].index < |from.sent|;
      }
    }
    forall a | 0 <= a < |to.state.skipped| ensures HeldTrue(k, to, from', to.state.skipped[a]) {
      assert HeldTrue(k, to, from, to.state.skipped[a]);
    }
    if to.epoch >= 2 && !to.overflowed {
      forall n: nat | n < to.state.receiveCount ensures Accounted(k, to, from', n) {
        assert Accounted(k, to, from, n);
      }
    }
  }

  /** What a party has received is not touched by what it sends. */
  lemma ReceiverKeepsLink(k: Schedule, to: Party, to': Party, from: Party)
    requires Linked(k, to, from)
    requires to'.epoch == to.epoch && to'.received == to.received && to'.overflowed == to.overflowed
    requires to'.state.skipped == to.state.skipped && to'.state.receiveCount == to.state.receiveCount
    ensures Linked(k, to', from)
  {
    forall j: nat, n: nat ensures WasReceived(to', from, j, n) <==> WasReceived(to, from, j, n) {}
    forall a | 0 <= a < |to.state.skipped| ensures HeldTrue(k, to', from, to'.state.skipped[a]) {
      assert HeldTrue(k, to, from, to.state.skipped[a]);
    }
    if to.epoch >= 2 && !to.overflowed {
      forall n: nat | n < to.state.receiveCount ensures Accounted(k, to', from, n) {
        assert Accounted(k, to, from, n);
      }
    }
  }

  lemma SendKeeps(k: Schedule, p: Party, ev: Event)
    requires ev.Send? && StateInStep(k, p) && SentInOrder(k, p)
    ensures var p' := SendBy(p, ev);
            && StateInStep(k, p') && SentInOrder(k, p')
            && p'.epoch == p.epoch && p.sent <= p'.sent && p'.received == p.received && p'.overflowed == p.overflowed
            && p'.state.skipped == p.state.skipped && p'.state.receiveCount == p.state.receiveCount
  {
    assert Newest(p.state.skipped) == p.state.skipped;
    var p' := SendBy(p, ev);
    if p'.sent != p.sent {
      assert p.epoch >= 1 && Sealed(k, p'.sent[|p.sent|]);
    }
  }

  lemma HeldArrival(k: Schedule, to: Party, from: Party, index: nat, i: nat)
    requires k.Valid() && StateInStep(k, to) && index < |from.sent| && Sealed(k, from.sent[index])
    requires var x := from.sent[index];
             && Holds(to.state.skipped, k.name(x.epoch), x.number)
             && i == FirstIndex(to.state.skipped, k.name(x.epoch), x.number)
             && (i < |to.state.skipped| ==> to.state.skipped[i].key == k.Key(x.epoch, x.number))
    ensures var x, to' := from.sent[index], ArriveAt(k, to, from, index);
            && i < |to.state.skipped| && (to.overflowed ==> to'.overflowed)
            && to' == Party(to.state.(skipped := to.state.skipped[..i] + to.state.skipped[i + 1..]), to.epoch, to.sent,
                            to.received + [Received(index, x.plaintext)], to'.overflowed)
  {
    hide Decrypt, Holds, FirstIndex, Schedule.Valid;
    HeldKeyOpens(k, to.state, from.sent[index], k.name(to.epoch + 2));
  }

  lemma ArrivalOnHeldKey(k: Schedule, to: Party, from: Party, index: nat) returns (i: nat)
    requires k.Valid() && StateInStep(k, to) && SentInOrder(k, to) && SentInOrder(k, from) && Linked(k, to, from)
    requires index < |from.sent| && Acceptable(k, to, from.sent[index])
    requires Holds(to.state.skipped, k.name(from.sent[index].epoch), from.sent[index].number)
    ensures var to' := ArriveAt(k, to, from, index);
            StateInStep(k, to') && SentInOrder(k, to') && to'.sent == to.sent && ReadsHeld(k, to, to', from, index, i)
  {
    hide WasReceived, ArriveAt;
    var x := from.sent[index];
    assert Sealed(k, x) && k.epochOf(k.name(x.epoch)) == x.epoch;
    FirstIndexHolds(to.state.skipped, k.name(x.epoch), x.number);
    i := FirstIndex(to.state.skipped, k.name(x.epoch), x.number);
    assert HeldTrue(k, to, from, to.state.skipped[i]);
    HeldArrival(k, to, from, index, i);
    hide Holds, FirstIndex, HeldKeysTrue, NothingForgotten, AtFrontier, ReceivedTrue;
  }

  /** A packet that opens moves its receiver in one of two ways. */
  lemma ArrivalReads(k: Schedule, to: Party, from: Party, index: nat)
    requires k.Valid() && StateInStep(k, to) && SentInOrder(k, to) && SentInOrder(k, from) && Linked(k, to, from)
    requires index < |from.sent| && Acceptable(k, to, from.sent[index])
    ensures var to' := ArriveAt(k, to, from, index);
            && StateInStep(k, to') && SentInOrder(k, to') && Linked(k, to', from)
            && to'.sent == to.sent && to'.received == to.received + [Received(index, from.sent[index].plaintext)]
  {
    var x, to' := from.sent[index], ArriveAt(k, to, from, index);
    if Holds(to.state.skipped, k.name(x.epoch), x.number) {
      var i := ArrivalOnHeldKey(k, to, from, index);
      ReadsReceived(to, to', from, index);
      ReadsHeldKeys(k, to, to', from, index, i);
      ReadsHeldForgets(k, to, to', from, index, i);
      hide ArriveAt, StateInStep, SentInOrder, Acceptable, HeldKeysTrue, NothingForgotten, AtFrontier;
    } else {
      ArrivalReadsChain(k, to, from, index);
    }
  }

  ghost predicate Ready(k: Schedule, to: Party, from: Party, index: nat) {
    && k.Valid() && StateInStep(k, to) && SentInOrder(k, to) && SentInOrder(k, from) && Linked(k, to, from)
    && index < |from.sent| && Acceptable(k, to, from.sent[index])
    && !Holds(to.state.skipped, k.name(from.sent[index].epoch), from.sent[index].number)
  }

  lemma ArrivalOnCurrentChain(k: Schedule, to: Party, from: Party, index: nat)
    requires Ready(k, to, from, index) && from.sent[index].epoch + 1 == to.epoch
    ensures var to' := ArriveAt(k, to, from, index);
            StateInStep(k, to') && SentInOrder(k, to') && to'.sent == to.sent
            && ReadsChain(k, to, to', from, index, to.state.receiveCount)
  {
    var x := from.sent[index];
    assert Sealed(k, x);
    FirstIndexHolds(to.state.skipped, k.name(x.epoch), x.number);
    CurrentChainOpens(k, to.state, x, k.name(to.epoch + 2));
    NotYetReceived(to, from, x.epoch, x.number);
  }

  lemma NewEpochArrival(k: Schedule, to: Party, from: Party, index: nat)
    requires k.Valid() && StateInStep(k, to) && index < |from.sent|
    requires var x := from.sent[index];
             Sealed(k, x) && x.epoch == to.epoch + 1 && x.number <= MAX_SKIP
             && !Holds(to.state.skipped, k.name(x.epoch), x.number)
    ensures var x, e := from.sent[index], to.epoch;
            var all := to.state.skipped + ChainKeys(k.Chain(x.epoch), k.name(x.epoch), 0, x.number);
            ArriveAt(k, to, from, index) == Party(
              State(k.Root(e + 2), k.name(e + 2), Some(k.name(e + 1)), Some(k.Chain(e + 2)),
                    Some(Ratcheted(k.Chain(e + 1), x.number + 1)), 0, x.number + 1, to.state.sendCount, Newest(all)),
              e + 2, to.sent, to.received + [Received(index, x.plaintext)], to.overflowed || |all| > MAX_SKIP)
  {
  }

  lemma SentBeforeEpoch(k: Schedule, p: Party, p': Party)
    requires SentInOrder(k, p) && p'.sent == p.sent && p'.epoch == p.epoch + 2
    ensures SentInOrder(k, p')
  {
  }

  lemma ReadyForNewEpoch(k: Schedule, to: Party, from: Party, index: nat)
    requires Ready(k, to, from, index) && from.sent[index].epoch == to.epoch + 1
    ensures Sealed(k, from.sent[index]) && from.sent[index].number <= MAX_SKIP && from.epoch == to.epoch + 1
  {
  }

  lemma ArrivalOfNewEpoch(k: Schedule, to: Party, from: Party, index: nat)
    requires Ready(k, to, from, index) && from.sent[index].epoch == to.epoch + 1
    ensures var to' := ArriveAt(k, to, from, index);
            StateInStep(k, to') && SentInOrder(k, to') && to'.sent == to.sent
            && ReadsChain(k, to, to', from, index, 0)
  {
    var x := from.sent[index];
    ReadyForNewEpoch(k, to, from, index);
    NewEpochArrival(k, to, from, index);
    NotYetReceived(to, from, x.epoch, x.number);
    SentBeforeEpoch(k, to, ArriveAt(k, to, from, index));
    hide ArriveAt, SentInOrder, Linked, ChainKeys, Newest, Acceptable, Holds, Sealed;
  }

  lemma ArrivalReadsChain(k: Schedule, to: Party, from: Party, index: nat)
    requires Ready(k, to, from, index)
    ensures var to' := ArriveAt(k, to, from, index);
            && StateInStep(k, to') && SentInOrder(k, to') && Linked(k, to', from)
            && to'.sent == to.sent && to'.received == to.received + [Received(index, from.sent[index].plaintext)]
  {
    var to', first := ArriveAt(k, to, from, index), 0;
    if from.sent[index].epoch + 1 == to.epoch {
      first := to.state.receiveCount;
      ArrivalOnCurrentChain(k, to, from, index);
    } else {
      ArrivalOfNewEpoch(k, to, from, index);
    }
    ReadsReceived(to, to', from, index);
    ReadsChainKeys(k, to, to', from, index, first);
    ReadsChainForgets(k, to, to', from, index, first);
  }
}
