/** Native SimpleX ratchet with encrypted headers
    (src/browser-simplex-native-ratchet.mjs) and the X3DH agreement that starts it
    (src/browser-simplex-agent.mjs). */
module NativeRatchet {
  import opened Outcomes

  const MAX_PADDED: nat := 0xffff
  const MIN_PADDED: nat := 64

  /** An X448 secret is the unordered pair of the two key names. */
  datatype Agreed = Agreed(lo: nat, hi: nat)

  function Dh(own: nat, remote: nat): Agreed {
    if own <= remote then Agreed(own, remote) else Agreed(remote, own)
  }

  datatype Part = SendHeader | ReceiveNextHeader | RatchetRoot

  datatype Secret =
    | X3dh(dh1: Agreed, dh2: Agreed, dh3: Agreed, part: Part)
    | RootOf(root: Secret, dh: Agreed)
    | ChainOf(root: Secret, dh: Agreed)
    | HeaderOf(root: Secret, dh: Agreed)
    | NextChain(chain: Secret)
    | MessageKey(chain: Secret)
    | MessageIv(chain: Secret)
    | HeaderIv(chain: Secret)

  type AssociatedData = (nat, nat)

  datatype Init = Init(associatedData: AssociatedData, sendHeaderKey: Secret, receiveNextHeaderKey: Secret,
                       ratchetKey: Secret)

  function Agree(ad: AssociatedData, dh1: Agreed, dh2: Agreed, dh3: Agreed): Init {
    Init(ad, X3dh(dh1, dh2, dh3, SendHeader), X3dh(dh1, dh2, dh3, ReceiveNextHeader), X3dh(dh1, dh2, dh3, RatchetRoot))
  }

  /** The joiner holds s1 and s2 and sees the names r1 and r2. */
  function DeriveSender(s1: nat, s2: nat, r1: nat, r2: nat): Init {
    Agree((s1, r1), Dh(s2, r1), Dh(s1, r2), Dh(s2, r2))
  }

  /** The inviter holds r1 and r2 and sees the names s1 and s2. */
  function DeriveReceiver(r1: nat, r2: nat, s1: nat, s2: nat): Init {
    Agree((s1, r1), Dh(r1, s2), Dh(r2, s1), Dh(r2, s2))
  }

  datatype Header = Header(dh: nat, previousSendCount: nat, messageNumber: nat)

  datatype HeaderBox = HeaderBox(key: Secret, iv: Secret, ad: AssociatedData, header: Header)

  datatype SealedHeader = SealedHeader(iv: Secret, box: HeaderBox)

  datatype BodyBox = BodyBox(key: Secret, iv: Secret, ad: AssociatedData, header: SealedHeader, plaintext: string)

  /** The ciphertext of the body has `size` bytes. */
  datatype Packet = Packet(header: SealedHeader, size: nat, body: BodyBox)

  datatype State = State(
    associatedData: AssociatedData,
    ownDh: nat,
    remoteDh: Option<nat>,
    rootKey: Secret,
    sendingChain: Option<Secret>,
    sendingHeaderKey: Option<Secret>,
    nextSendingHeaderKey: Option<Secret>,
    receivingHeaderKey: Option<Secret>,
    nextReceivingHeaderKey: Option<Secret>,
    receivingChain: Option<Secret>,
    sendCount: nat,
    receiveCount: nat,
    previousSendCount: nat
  )

  datatype Fault = NotInitialized | HeaderFailed | BodyFailed | TooLarge

  function CreateSending(init: Init, ownDh: nat, remoteDh: nat): State {
    var dh := Dh(ownDh, remoteDh);
    State(init.associatedData, ownDh, Some(remoteDh), RootOf(init.ratchetKey, dh), Some(ChainOf(init.ratchetKey, dh)),
          Some(init.sendHeaderKey), Some(HeaderOf(init.ratchetKey, dh)), None, Some(init.receiveNextHeaderKey), None, 0, 0, 0)
  }

  function CreateReceiving(init: Init, ownDh: nat): State {
    State(init.associatedData, ownDh, None, init.ratchetKey, None, None, Some(init.receiveNextHeaderKey),
          None, Some(init.sendHeaderKey), None, 0, 0, 0)
  }

  function OpenHeader(key: Option<Secret>, s: State, p: Packet): Option<Header> {
    if key == Some(p.header.box.key) && p.header.iv == p.header.box.iv && s.associatedData == p.header.box.ad
    then Some(p.header.box.header) else None
  }

  function OpenBody(chain: Secret, s: State, p: Packet): Option<string> {
    if p.body.key == MessageKey(chain) && p.body.iv == MessageIv(chain) && p.body.ad == s.associatedData
        && p.body.header == p.header
    then Some(p.body.plaintext) else None
  }

  /** The one sending step: a new key pair against the remembered remote key. */
  function StartSending(s: State, newDh: nat): State
    requires s.remoteDh.Some?
  {
    var dh := Dh(newDh, s.remoteDh.value);
    s.(previousSendCount := s.sendCount, ownDh := newDh, rootKey := RootOf(s.rootKey, dh),
       sendingChain := Some(ChainOf(s.rootKey, dh)), sendingHeaderKey := s.nextSendingHeaderKey,
       nextSendingHeaderKey := Some(HeaderOf(s.rootKey, dh)), sendCount := 0)
  }

  function PaddedSize(length: nat, paddedLength: nat): nat {
    if paddedLength != 0 then paddedLength else if length + 2 < MIN_PADDED then MIN_PADDED else length + 2
  }

  function Encrypt(s0: State, plaintext: string, paddedLength: nat, newDh: nat): Result<(State, Packet), Fault> {
    if s0.sendingChain.None? && (s0.remoteDh.None? || s0.nextSendingHeaderKey.None?) then Err(NotInitialized)
    else
      var s := if s0.sendingChain.None? then StartSending(s0, newDh) else s0;
      if s.sendingHeaderKey.None? then Err(NotInitialized)
      else if !(|plaintext| + 2 <= PaddedSize(|plaintext|, paddedLength) <= MAX_PADDED) then Err(TooLarge)
      else
        var chain := s.sendingChain.value;
        var header := SealedHeader(HeaderIv(chain),
          HeaderBox(s.sendingHeaderKey.value, HeaderIv(chain), s.associatedData,
                    Header(s.ownDh, s.previousSendCount, s.sendCount)));
        Ok((s.(sendingChain := Some(NextChain(chain)), sendCount := s.sendCount + 1),
            Packet(header, PaddedSize(|plaintext|, paddedLength),
                   BodyBox(MessageKey(chain), MessageIv(chain), s.associatedData, header, plaintext))))
  }

  function Decrypt(s0: State, p: Packet): Result<(State, string), Fault> {
    var current := OpenHeader(s0.receivingHeaderKey, s0, p);
    var next := OpenHeader(s0.nextReceivingHeaderKey, s0, p);
    if current.None? && next.None? then Err(HeaderFailed)
    else
      var header := if current.Some? then current.value else next.value;
      var dh := Dh(s0.ownDh, header.dh);
      var s := if s0.receivingChain.Some? && current.Some? then s0
               else s0.(rootKey := RootOf(s0.rootKey, dh), receivingChain := Some(ChainOf(s0.rootKey, dh)),
                        receivingHeaderKey := if current.Some? then s0.receivingHeaderKey else s0.nextReceivingHeaderKey,
                        nextReceivingHeaderKey := Some(HeaderOf(s0.rootKey, dh)), receiveCount := 0);
      var text := OpenBody(s.receivingChain.value, s, p);
      if text.None? then Err(BodyFailed)
      else Ok((s.(receivingChain := Some(NextChain(s.receivingChain.value)), remoteDh := Some(header.dh),
                  receiveCount := s.receiveCount + 1), text.value))
  }

  method EncryptNativeRatchetMessage(s0: State, plaintext: string, paddedLength: nat, newDh: nat)
    returns (r: Result<(State, Packet), Fault>)
    ensures r == Encrypt(s0, plaintext, paddedLength, newDh)
  {
    var state := s0;
    if state.sendingChain.None? {
      if state.remoteDh.None? || state.nextSendingHeaderKey.None? { return Err(NotInitialized); }
      var dh := Dh(newDh, state.remoteDh.value);
      var chain := ChainOf(state.rootKey, dh);
      var nextHeaderKey := HeaderOf(state.rootKey, dh);
      state := state.(previousSendCount := state.sendCount);
      state := state.(ownDh := newDh);
      state := state.(rootKey := RootOf(state.rootKey, dh));
      state := state.(sendingChain := Some(chain));
      state := state.(sendingHeaderKey := state.nextSendingHeaderKey);
      state := state.(nextSendingHeaderKey := Some(nextHeaderKey));
      state := state.(sendCount := 0);
    }
    if state.sendingHeaderKey.None? { return Err(NotInitialized); }
    var chain := state.sendingChain.value;
    var header := SealedHeader(HeaderIv(chain),
                              HeaderBox(state.sendingHeaderKey.value, HeaderIv(chain), state.associatedData,
      Header(state.ownDh, state.previousSendCount, state.sendCount)));
    var size := PaddedSize(|plaintext|, paddedLength);
    if size < 2 || size > MAX_PADDED || size < |plaintext| + 2 { return Err(TooLarge); }
    var body := BodyBox(MessageKey(chain), MessageIv(chain), state.associatedData, header, plaintext);
    state := state.(sendingChain := Some(NextChain(chain)));
    state := state.(sendCount := state.sendCount + 1);
    return Ok((state, Packet(header, size, body)));
  }

  method DecryptNativeRatchetMessage(s0: State, p: Packet) returns (r: Result<(State, string), Fault>)
    ensures r == Decrypt(s0, p)
  {
    var state := s0;
    var attempts: seq<(Secret, bool)> := [];
    if state.receivingHeaderKey.Some? { attempts := attempts + [(state.receivingHeaderKey.value, false)]; }
    if state.nextReceivingHeaderKey.Some? { attempts := attempts + [(state.nextReceivingHeaderKey.value, true)]; }
    var i := 0;
    while i < |attempts| && OpenHeader(Some(attempts[i].0), state, p).None?
      invariant i <= |attempts|
      invariant forall j :: 0 <= j < i ==> OpenHeader(Some(attempts[j].0), state, p).None?
    {
      i := i + 1;
    }
    assert state.receivingHeaderKey.Some? ==> attempts[0].0 == state.receivingHeaderKey.value;
    assert state.nextReceivingHeaderKey.Some? ==> attempts[|attempts| - 1].0 == state.nextReceivingHeaderKey.value;
    if i == |attempts| { return Err(HeaderFailed); }
    var header := OpenHeader(Some(attempts[i].0), state, p).value;
    if state.receivingChain.None? || attempts[i].1 {
      var dh := Dh(state.ownDh, header.dh);
      var nextHeaderKey := HeaderOf(state.rootKey, dh);
      state := state.(receivingChain := Some(ChainOf(state.rootKey, dh)));
      state := state.(rootKey := RootOf(state.rootKey, dh));
      state := state.(receivingHeaderKey := Some(attempts[i].0));
      state := state.(nextReceivingHeaderKey := Some(nextHeaderKey));
      state := state.(receiveCount := 0);
    }
    var text := OpenBody(state.receivingChain.value, state, p);
    if text.None? { return Err(BodyFailed); }
    state := state.(receivingChain := Some(NextChain(state.receivingChain.value)));
    state := state.(remoteDh := Some(header.dh));
    state := state.(receiveCount := state.receiveCount + 1);
    return Ok((state, text.value));
  }

  /** What can be sealed, and under which size. */
  lemma SealsExactly(s: State, text: string, padded: nat, newDh: nat)
    ensures var r := Encrypt(s, text, padded, newDh);
            && (r.Ok? <==>
                  && (if s.sendingChain.Some? then s.sendingHeaderKey.Some?
                      else s.remoteDh.Some? && s.nextSendingHeaderKey.Some?)
                  && if padded == 0 then |text| <= 65533 else |text| + 2 <= padded <= 65535)
            && (r.Ok? ==> r.value.1.body.plaintext == text
                          && r.value.1.size == if padded != 0 then padded else if |text| <= 62 then 64 else |text| + 2)
  {
  }

  // ------------------------------------------------------------- two parties

  /** From opposite private keys both ends reach the same associated data and keys. */
  lemma X3dhAgrees(s1: nat, s2: nat, r1: nat, r2: nat)
    ensures DeriveSender(s1, s2, r1, r2) == DeriveReceiver(r1, r2, s1, s2)
  {
  }

  /** Key names: the joiner's X3DH pair, the inviter's X3DH pair, the joiner's ratchet
      key, and the key the inviter makes when it first sends. */
  datatype Names = Names(s1: nat, s2: nat, r1: nat, r2: nat, joiner: nat, inviter: nat) {
    function Shared(): Init { DeriveSender(s1, s2, r1, r2) }
    function Root(step: nat): Secret {
      var r0 := Shared().ratchetKey;
      var root1 := RootOf(r0, Dh(joiner, r2));
      if step == 0 then r0 else if step == 1 then root1 else RootOf(root1, Dh(inviter, joiner))
    }
    function Chain(joinerSends: bool): Secret {
      if joinerSends then ChainOf(Root(0), Dh(joiner, r2)) else ChainOf(Root(1), Dh(inviter, joiner))
    }
    function HeaderKey(joinerSends: bool): Secret {
      if joinerSends then Shared().sendHeaderKey else Shared().receiveNextHeaderKey
    }
  }

  function Stepped(chain: Secret, k: nat): Secret {
    if k == 0 then chain else NextChain(Stepped(chain, k - 1))
  }

  lemma {:induction false} SteppedInjective(chain: Secret, a: nat, b: nat)
    requires chain.ChainOf? && Stepped(chain, a) == Stepped(chain, b)
    ensures a == b
  {
    if a > 0 && b > 0 { SteppedInjective(chain, a - 1, b - 1); }
  }

  datatype Sent = Sent(packet: Packet, plaintext: string)

  /** `sent` and `read` record what happened. */
  datatype Party = Party(state: State, sent: seq<Sent>, read: seq<string>)

  datatype Session = Session(joiner: Party, inviter: Party)

  datatype Event = Send(byJoiner: bool, plaintext: string, paddedLength: nat) | Arrive(atJoiner: bool, index: nat)

  function Start(n: Names): Session {
    Session(Party(CreateSending(DeriveSender(n.s1, n.s2, n.r1, n.r2), n.joiner, n.r2), [], []),
            Party(CreateReceiving(DeriveReceiver(n.r1, n.r2, n.s1, n.s2), n.r2), [], []))
  }

  function SendBy(n: Names, p: Party, text: string, paddedLength: nat): Party {
    match Encrypt(p.state, text, paddedLength, n.inviter)
    case Ok((state, packet)) => p.(state := state, sent := p.sent + [Sent(packet, text)])
    case Err(_) => p
  }

  function ArriveAt(to: Party, packet: Packet): Party {
    match Decrypt(to.state, packet)
    case Ok((state, text)) => to.(state := state, read := to.read + [text])
    case Err(_) => to
  }

  function Step(n: Names, s: Session, ev: Event): Session {
    match ev
    case Send(byJoiner, text, padded) =>
      if byJoiner then s.(joiner := SendBy(n, s.joiner, text, padded)) else s.(inviter := SendBy(n, s.inviter, text, padded))
    case Arrive(atJoiner, i) =>
      if atJoiner && i < |s.inviter.sent| then s.(joiner := ArriveAt(s.joiner, s.inviter.sent[i].packet))
      else if !atJoiner && i < |s.joiner.sent| then s.(inviter := ArriveAt(s.inviter, s.joiner.sent[i].packet))
      else s
  }

  function Run(n: Names, events: seq<Event>): Session {
    if events == [] then Start(n) else Step(n, Run(n, events[..|events| - 1]), events[|events| - 1])
  }

  ghost predicate SealedAs(n: Names, byJoiner: bool, x: Sent, k: nat) {
    var chain := Stepped(n.Chain(byJoiner), k);
    && x.packet.header.iv == HeaderIv(chain)
    && x.packet.header.box.key == n.HeaderKey(byJoiner)
    && x.packet.header.box.iv == HeaderIv(chain)
    && x.packet.header.box.ad == n.Shared().associatedData
    && x.packet.header.box.header.dh == (if byJoiner then n.joiner else n.inviter)
    && x.packet.header.box.header.messageNumber == k && x.packet.header.box.header.previousSendCount == 0
    && x.packet.body == BodyBox(MessageKey(chain), MessageIv(chain), n.Shared().associatedData, x.packet.header, x.plaintext)
  }

  ghost predicate SentAs(n: Names, byJoiner: bool, p: Party) {
    && p.state.associatedData == n.Shared().associatedData
    && (forall k :: 0 <= k < |p.sent| ==> SealedAs(n, byJoiner, p.sent[k], k))
    && (p.sent != [] || byJoiner ==>
          && p.state.sendCount == |p.sent|
          && p.state.ownDh == (if byJoiner then n.joiner else n.inviter)
          && p.state.sendingChain == Some(Stepped(n.Chain(byJoiner), |p.sent|))
          && p.state.sendingHeaderKey == Some(n.HeaderKey(byJoiner)))
  }

  /** Counters are what they count; one chain each way leaves none before it. */
  ghost predicate Counted(p: Party) {
    && p.state.sendCount == |p.sent| && p.state.receiveCount == |p.read| && p.state.previousSendCount == 0
  }

  ghost predicate ReadAs(to: Party, from: Party) {
    && |to.read| <= |from.sent|
    && (forall k :: 0 <= k < |to.read| ==> to.read[k] == from.sent[k].plaintext)
  }

  ghost predicate JoinerInStep(n: Names, p: Party) {
    if p.read == [] then
      p.state
      == CreateSending(n.Shared(), n.joiner, n.r2).(sendingChain := p.state.sendingChain, sendCount := p.state.sendCount)
    else
      && p.state.ownDh == n.joiner && p.state.remoteDh == Some(n.inviter) && p.state.rootKey == n.Root(2)
      && p.state.receivingChain == Some(Stepped(n.Chain(false), |p.read|))
      && p.state.receivingHeaderKey == Some(n.HeaderKey(false))
  }

  ghost predicate InviterInStep(n: Names, p: Party) {
    if p.read == [] then p.sent == [] && p.state == CreateReceiving(n.Shared(), n.r2)
    else
      && p.state.remoteDh == Some(n.joiner)
      && p.state.receivingChain == Some(Stepped(n.Chain(true), |p.read|))
      && p.state.receivingHeaderKey == Some(n.HeaderKey(true))
      && (if p.sent == [] then
            && p.state.rootKey == n.Root(1) && p.state.sendingChain == None
            && p.state.nextSendingHeaderKey == Some(n.HeaderKey(false))
          else p.state.rootKey == n.Root(2))
  }

  ghost predicate Inv(n: Names, s: Session) {
    && SentAs(n, true, s.joiner) && SentAs(n, false, s.inviter)
    && JoinerInStep(n, s.joiner) && InviterInStep(n, s.inviter)
    && ReadAs(s.joiner, s.inviter) && ReadAs(s.inviter, s.joiner)
    && Counted(s.joiner) && Counted(s.inviter)
  }

  lemma StartInv(n: Names)
    ensures Inv(n, Start(n))
  {
  }

  lemma JoinerSends(n: Names, s: Session, text: string, padded: nat)
    requires Inv(n, s)
    ensures Inv(n, s.(joiner := SendBy(n, s.joiner, text, padded)))
  {
  }

  lemma InviterSends(n: Names, s: Session, text: string, padded: nat)
    requires Inv(n, s)
    ensures Inv(n, s.(inviter := SendBy(n, s.inviter, text, padded)))
  {
    var p' := SendBy(n, s.inviter, text, padded);
    if p'.sent != s.inviter.sent { assert SealedAs(n, false, p'.sent[|s.inviter.sent|], |s.inviter.sent|); }
  }

  /** What the joiner makes of the inviter's packet i, as one equation. */
  lemma JoinerOpens(n: Names, s: Session, i: nat)
    requires Inv(n, s) && i < |s.inviter.sent|
    ensures var p, to := s.joiner, ArriveAt(s.joiner, s.inviter.sent[i].packet);
            if i != |p.read| then to == p
            else
              && to.sent == p.sent && to.read == p.read + [s.inviter.sent[i].plaintext]
              && to.state.associatedData == p.state.associatedData && to.state.sendCount == p.state.sendCount
              && to.state.receiveCount == |to.read| && to.state.previousSendCount == p.state.previousSendCount
              && to.state.sendingChain == p.state.sendingChain && to.state.sendingHeaderKey == p.state.sendingHeaderKey
              && to.state.ownDh == n.joiner && to.state.remoteDh == Some(n.inviter) && to.state.rootKey == n.Root(2)
              && to.state.receivingChain == Some(Stepped(n.Chain(false), |to.read|))
              && to.state.receivingHeaderKey == Some(n.HeaderKey(false))
  {
    assert SealedAs(n, false, s.inviter.sent[i], i);
    assert Dh(n.joiner, n.inviter) == Dh(n.inviter, n.joiner);
    hide SentAs, ReadAs, InviterInStep;
    if Stepped(n.Chain(false), i) == Stepped(n.Chain(false), |s.joiner.read|) {
      SteppedInjective(n.Chain(false), i, |s.joiner.read|);
    }
  }

  lemma JoinerReads(n: Names, s: Session, i: nat)
    requires Inv(n, s) && i < |s.inviter.sent|
    ensures var to := ArriveAt(s.joiner, s.inviter.sent[i].packet);
            && Inv(n, s.(joiner := to))
            && (if i == |s.joiner.read| then to.read == s.joiner.read + [s.inviter.sent[i].plaintext] else to == s.joiner)
  {
    JoinerOpens(n, s, i);
    hide ArriveAt, Stepped, SealedAs, InviterInStep;
  }

  lemma InviterOpens(n: Names, s: Session, i: nat)
    requires Inv(n, s) && i < |s.joiner.sent|
    ensures var p, to := s.inviter, ArriveAt(s.inviter, s.joiner.sent[i].packet);
            if i != |p.read| then to == p
            else
              && to.sent == p.sent && to.read == p.read + [s.joiner.sent[i].plaintext]
              && InviterInStep(n, to) && to.state.associatedData == p.state.associatedData
              && to.state.sendCount == p.state.sendCount && to.state.receiveCount == |to.read|
              && to.state.previousSendCount == p.state.previousSendCount
              && (p.sent != [] ==> to.state.ownDh == p.state.ownDh
                                   && to.state.sendingChain == p.state.sendingChain
                                   && to.state.sendingHeaderKey == p.state.sendingHeaderKey)
  {
    assert SealedAs(n, true, s.joiner.sent[i], i);
    assert Dh(n.joiner, n.r2) == Dh(n.r2, n.joiner);
    hide SentAs, ReadAs, JoinerInStep;
    if Stepped(n.Chain(true), i) == Stepped(n.Chain(true), |s.inviter.read|) {
      SteppedInjective(n.Chain(true), i, |s.inviter.read|);
    }
  }

  lemma InviterReads(n: Names, s: Session, i: nat)
    requires Inv(n, s) && i < |s.joiner.sent|
    ensures var to := ArriveAt(s.inviter, s.joiner.sent[i].packet);
            && Inv(n, s.(inviter := to))
            && (if i == |s.inviter.read| then to.read == s.inviter.read + [s.joiner.sent[i].plaintext] else to == s.inviter)
  {
    InviterOpens(n, s, i);
    hide ArriveAt, Stepped, SealedAs, InviterInStep, JoinerInStep;
  }

  lemma {:induction false} RunKeeps(n: Names, events: seq<Event>)
    ensures Inv(n, Run(n, events))
  {
    if events == [] {
      StartInv(n);
    } else {
      var s, ev := Run(n, events[..|events| - 1]), events[|events| - 1];
      RunKeeps(n, events[..|events| - 1]);
      if ev.Send? { JoinerSends(n, s, ev.plaintext, ev.paddedLength); InviterSends(n, s, ev.plaintext, ev.paddedLength); }
      else if ev.atJoiner && ev.index < |s.inviter.sent| { JoinerReads(n, s, ev.index); }
      else if !ev.atJoiner && ev.index < |s.joiner.sent| { InviterReads(n, s, ev.index); }
    }
  }

  /** After any run over a network that may lose, repeat and reorder, a native packet
      opens if and only if it is the peer's next unread one; it opens to its own
      plaintext, and any other arrival changes nothing. */
  lemma OpensOnlyNext(n: Names, events: seq<Event>, atJoiner: bool, i: nat)
    requires var s := Run(n, events); i < |(if atJoiner then s.inviter else s.joiner).sent|
    ensures var s, s' := Run(n, events), Run(n, events + [Arrive(atJoiner, i)]);
            var to, to' := if atJoiner then s.joiner else s.inviter, if atJoiner then s'.joiner else s'.inviter;
            var from := if atJoiner then s.inviter else s.joiner;
            if i == |to.read| then to'.read == to.read + [from.sent[i].plaintext] else s' == s
  {
    hide Inv, ArriveAt;
    RunKeeps(n, events);
    var all := events + [Arrive(atJoiner, i)];
    assert all[..|all| - 1] == events;
    if atJoiner { JoinerReads(n, Run(n, events), i); } else { InviterReads(n, Run(n, events), i); }
  }

  /** The two ends keep equal chain keys: whoever has read all of the peer's messages
      stands on the key the peer will use next, under the header key the peer uses. */
  lemma ChainsEqual(n: Names, events: seq<Event>)
    ensures var s := Run(n, events);
            && (s.inviter.read != [] && |s.inviter.read| == |s.joiner.sent| ==>
                  && s.inviter.state.receivingChain == s.joiner.state.sendingChain
                  && s.inviter.state.receivingHeaderKey == s.joiner.state.sendingHeaderKey)
            && (s.joiner.read != [] && |s.joiner.read| == |s.inviter.sent| ==>
                  && s.joiner.state.receivingChain == s.inviter.state.sendingChain
                  && s.joiner.state.receivingHeaderKey == s.inviter.state.sendingHeaderKey
                  && s.joiner.state.rootKey == s.inviter.state.rootKey)
  {
    RunKeeps(n, events);
  }

  /** After every run the counters are true, and what was read is what was sent first. */
  lemma CountsAreTrue(n: Names, events: seq<Event>)
    ensures var s := Run(n, events);
            && s.joiner.state.sendCount == |s.joiner.sent| && s.joiner.state.receiveCount == |s.joiner.read|
            && s.inviter.state.sendCount == |s.inviter.sent| && s.inviter.state.receiveCount == |s.inviter.read|
            && |s.joiner.read| <= |s.inviter.sent| && |s.inviter.read| <= |s.joiner.sent|
            && (forall k :: 0 <= k < |s.joiner.read| ==> s.joiner.read[k] == s.inviter.sent[k].plaintext)
            && (forall k :: 0 <= k < |s.inviter.read| ==> s.inviter.read[k] == s.joiner.sent[k].plaintext)
  {
    RunKeeps(n, events);
    hide Run, SentAs, JoinerInStep, InviterInStep;
  }

  /** Once the joiner has read a reply neither root key changes again, whatever is
      sent or arrives: this ratchet makes one DH step each way, not one per turn. */
  lemma RootsSettle(n: Names, events: seq<Event>, later: Event)
    requires Run(n, events).joiner.read != []
    ensures var s, s' := Run(n, events), Run(n, events + [later]);
            s.joiner.state.rootKey == s.inviter.state.rootKey == s'.joiner.state.rootKey == s'.inviter.state.rootKey
  {
    RunKeeps(n, events);
    RunKeeps(n, events + [later]);
    assert (events + [later])[..|events|] == events;
  }

  /** The joiner can always send and the inviter once it has read something: then each text
      that fits its padding is sent, with the number of the messages before it in its header. */
  lemma SendsExactly(n: Names, events: seq<Event>, byJoiner: bool, text: string, padded: nat)
    ensures var s, s' := Run(n, events), Run(n, events + [Send(byJoiner, text, padded)]);
            var p, p' := if byJoiner then s.joiner else s.inviter, if byJoiner then s'.joiner else s'.inviter;
            if (byJoiner || p.read != []) && if padded == 0 then |text| <= 65533 else |text| + 2 <= padded <= 65535
            then |p'.sent| == |p.sent| + 1 && p'.sent[..|p.sent|] == p.sent && p'.sent[|p.sent|].plaintext == text
                 && var h := p'.sent[|p.sent|].packet.header.box.header;
                    h.messageNumber == |p.sent| && h.previousSendCount == 0
            else s' == s
  {
    RunKeeps(n, events);
    RunKeeps(n, events + [Send(byJoiner, text, padded)]);
    var all := events + [Send(byJoiner, text, padded)];
    assert all[..|all| - 1] == events;
    var s, s' := Run(n, events), Run(n, all);
    var p, p' := if byJoiner then s.joiner else s.inviter, if byJoiner then s'.joiner else s'.inviter;
    SealsExactly(p.state, text, padded, n.inviter);
    hide Run, Encrypt, Stepped;
    if |p'.sent| == |p.sent| + 1 { assert SealedAs(n, byJoiner, p'.sent[|p.sent|], |p.sent|); }
  }
}
