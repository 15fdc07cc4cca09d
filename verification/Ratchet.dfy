/** Browser double ratchet (src/browser-simplex-ratchet.mjs).

    Key material is symbolic: KDF outputs are free terms, a DH secret is the
    unordered pair of the two key names, and a sealed box opens only under the
    key, nonce and header it was sealed with.  A character of a text stands for one
    byte of it. */
module Ratchet {
  import opened Outcomes

  const MAX_SKIP: nat := 2000
  const MAX_PADDED: nat := 0xffff
  const MIN_PADDED: nat := 64

  datatype Secret =
    | Root0(id: nat)                       // a root key agreed outside the ratchet
    | Agreed(lo: nat, hi: nat)             // X25519 of two named key pairs
    | RootOf(root: Secret, dh: Secret)     // first half of the root KDF
    | ChainOf(root: Secret, dh: Secret)    // second half of the root KDF
    | NextChain(chain: Secret)             // first half of the chain KDF
    | MessageKey(chain: Secret)            // second half of the chain KDF

  function Dh(own: nat, remote: nat): Secret {
    if own <= remote then Agreed(own, remote) else Agreed(remote, own)
  }

  datatype Header = Header(dh: nat, previousSendCount: nat, messageNumber: nat)

  // The header travels as JSON bytes; None stands for bytes parseRatchetHeader rejects.
  // The ciphertext of the box has `size` bytes.
  datatype Packet = Packet(header: Option<Header>, nonce: nat, size: nat, box: Box)

  datatype Box = Box(key: Secret, nonce: nat, header: Option<Header>, plaintext: string)

  datatype SkippedKey = SkippedKey(dh: nat, n: nat, key: Secret)

  datatype State = State(
    rootKey: Secret,
    ownDh: nat,
    remoteDh: Option<nat>,
    sendingChain: Option<Secret>,
    receivingChain: Option<Secret>,
    sendCount: nat,
    receiveCount: nat,
    previousSendCount: nat,
    skipped: seq<SkippedKey>
  )

  datatype Fault = NoSendingChain | NoReceivingChain | BadHeader | TooManySkipped | TooLarge | Undecipherable

  function Open(key: Secret, p: Packet): Result<string, Fault> {
    if p.box.key == key && p.box.nonce == p.nonce && p.box.header == p.header
    then Ok(p.box.plaintext) else Err(Undecipherable)
  }

  /** The newest MAX_SKIP entries, which is what repeated push-then-shift keeps. */
  function Newest(keys: seq<SkippedKey>): seq<SkippedKey> {
    if |keys| <= MAX_SKIP then keys else keys[|keys| - MAX_SKIP..]
  }

  function Normalize(s: State): State {
    s.(skipped := Newest(s.skipped))
  }

  function CreateState(rootKey: Secret, ownDh: nat, remoteDh: Option<nat>, initializeSending: bool): State {
    var blank := State(rootKey, ownDh, remoteDh, None, None, 0, 0, 0, []);
    if remoteDh.Some? && initializeSending then
      var dh := Dh(ownDh, remoteDh.value);
      blank.(rootKey := RootOf(rootKey, dh), sendingChain := Some(ChainOf(rootKey, dh)))
    else blank
  }

  /** A chain after k chain-KDF steps. */
  function Ratcheted(chain: Secret, k: nat): Secret {
    if k == 0 then chain else NextChain(Ratcheted(chain, k - 1))
  }

  /** The keys a chain gives to message numbers first .. last - 1. */
  function ChainKeys(chain: Secret, dh: nat, first: nat, last: nat): seq<SkippedKey>
    requires first <= last
  {
    seq(last - first, i requires 0 <= i < last - first => SkippedKey(dh, first + i, MessageKey(Ratcheted(chain, i))))
  }

  ghost predicate Holds(keys: seq<SkippedKey>, dh: nat, n: nat) {
    exists i :: 0 <= i < |keys| && keys[i].dh == dh && keys[i].n == n
  }

  /** First index holding the key, or |keys|. */
  function FirstIndex(keys: seq<SkippedKey>, dh: nat, n: nat): (i: nat)
    ensures i <= |keys|
    ensures i < |keys| ==> keys[i].dh == dh && keys[i].n == n
    ensures forall j :: 0 <= j < i ==> keys[j].dh != dh || keys[j].n != n
  {
    if keys == [] || (keys[0].dh == dh && keys[0].n == n) then 0 else 1 + FirstIndex(keys[1..], dh, n)
  }

  function ReceiveStep(s: State, remoteDh: nat, freshDh: nat): State {
    var receiveDh := Dh(s.ownDh, remoteDh);
    var root := RootOf(s.rootKey, receiveDh);
    var sendDh := Dh(freshDh, remoteDh);
    State(RootOf(root, sendDh), freshDh, Some(remoteDh), Some(ChainOf(root, sendDh)),
          Some(ChainOf(s.rootKey, receiveDh)), 0, 0, s.sendCount, s.skipped)
  }

  /** Bring the receiving chain to message number n, keeping the keys passed over. */
  function SkipTo(s: State, dh: nat, n: nat): State
    requires s.receivingChain.Some?
  {
    if n <= s.receiveCount then s
    else s.(receivingChain := Some(Ratcheted(s.receivingChain.value, n - s.receiveCount)),
            receiveCount := n,
            skipped := Newest(s.skipped + ChainKeys(s.receivingChain.value, dh, s.receiveCount, n)))
  }

  function Encrypt(s0: State, plaintext: string, nonce: nat, paddedLength: nat): Result<(State, Packet), Fault> {
    var s := Normalize(s0);
    if s.sendingChain.None? then Err(NoSendingChain)
    else
      var size := PaddedSize(|plaintext|, paddedLength);
      if !(|plaintext| + 2 <= size <= MAX_PADDED) then Err(TooLarge)
      else
        var chain := s.sendingChain.value;
        var header := Some(Header(s.ownDh, s.previousSendCount, s.sendCount));
        Ok((s.(sendingChain := Some(NextChain(chain)), sendCount := s.sendCount + 1),
            Packet(header, nonce, size, Box(MessageKey(chain), nonce, header, plaintext))))
  }

  function PaddedSize(length: nat, paddedLength: nat): nat {
    if paddedLength != 0 then paddedLength else if length + 2 < MIN_PADDED then MIN_PADDED else length + 2
  }

  function Decrypt(s0: State, p: Packet, freshDh: nat): Result<(State, string), Fault> {
    var s := Normalize(s0);
    if p.header.None? then Err(BadHeader)
    else
      var h := p.header.value;
      var i := FirstIndex(s.skipped, h.dh, h.messageNumber);
      if i < |s.skipped| then
        Deliver(s.(skipped := s.skipped[..i] + s.skipped[i + 1..]), s.skipped[i].key, p)
      else
        var t := if s.remoteDh == Some(h.dh) then s else ReceiveStep(s, h.dh, freshDh);
        if h.messageNumber - t.receiveCount > MAX_SKIP then Err(TooManySkipped)
        else if t.receivingChain.None? then Err(NoReceivingChain)
        else
          var u := SkipTo(t, h.dh, h.messageNumber);
          Deliver(u.(receivingChain := Some(NextChain(u.receivingChain.value)), receiveCount := u.receiveCount + 1),
                  MessageKey(u.receivingChain.value), p)
  }

  function Deliver(s: State, key: Secret, p: Packet): Result<(State, string), Fault> {
    var clear := Open(key, p);
    if clear.Ok? then Ok((s, clear.value)) else Err(clear.error)
  }

  /** The copy of a stored state that one encrypt or decrypt call works on in place. */
  class WorkingState {
    var rootKey: Secret
    var ownDh: nat
    var remoteDh: Option<nat>
    var sendingChain: Option<Secret>
    var receivingChain: Option<Secret>
    var sendCount: nat
    var receiveCount: nat
    var previousSendCount: nat
    var skipped: seq<SkippedKey>

    function Value(): State
      reads this
    {
      State(rootKey, ownDh, remoteDh, sendingChain, receivingChain, sendCount, receiveCount, previousSendCount, skipped)
    }

    constructor (s: State)
      ensures Value() == Normalize(s)
    {
      rootKey, ownDh, remoteDh := s.rootKey, s.ownDh, s.remoteDh;
      sendingChain, receivingChain := s.sendingChain, s.receivingChain;
      sendCount, receiveCount, previousSendCount := s.sendCount, s.receiveCount, s.previousSendCount;
      skipped := Newest(s.skipped);
    }

    method AdvanceSending() returns (key: Option<Secret>)
      modifies this
      ensures old(sendingChain).None? ==> key.None? && Value() == old(Value())
      ensures old(sendingChain).Some? ==>
                && key == Some(MessageKey(old(sendingChain).value))
                && Value() == old(Value()).(sendingChain := Some(NextChain(old(sendingChain).value)),
                                            sendCount := old(sendCount) + 1)
    {
      if sendingChain.None? { return None; }
      key := Some(MessageKey(sendingChain.value));
      sendingChain := Some(NextChain(sendingChain.value));
      sendCount := sendCount + 1;
    }

    method AdvanceReceiving() returns (key: Option<Secret>)
      modifies this
      ensures old(receivingChain).None? ==> key.None? && Value() == old(Value())
      ensures old(receivingChain).Some? ==>
                && key == Some(MessageKey(old(receivingChain).value))
                && Value() == old(Value()).(receivingChain := Some(NextChain(old(receivingChain).value)),
                                            receiveCount := old(receiveCount) + 1)
    {
      if receivingChain.None? { return None; }
      key := Some(MessageKey(receivingChain.value));
      receivingChain := Some(NextChain(receivingChain.value));
      receiveCount := receiveCount + 1;
    }

    method SaveSkipped(dh: nat, n: nat, key: Secret)
      requires |skipped| <= MAX_SKIP
      modifies this`skipped
      ensures skipped == Newest(old(skipped) + [SkippedKey(dh, n, key)])
    {
      skipped := skipped + [SkippedKey(dh, n, key)];
      if |skipped| > MAX_SKIP { skipped := skipped[1..]; }
    }

    method TakeSkipped(dh: nat, n: nat) returns (key: Option<Secret>)
      modifies this`skipped
      ensures var i := FirstIndex(old(skipped), dh, n);
              if i < |old(skipped)|
              then key == Some(old(skipped)[i].key) && skipped == old(skipped)[..i] + old(skipped)[i + 1..]
              else key.None? && skipped == old(skipped)
    {
      var index := 0;
      while index < |skipped| && !(skipped[index].dh == dh && skipped[index].n == n)
        invariant index <= |skipped|
        invariant forall j :: 0 <= j < index ==> skipped[j].dh != dh || skipped[j].n != n
      {
        index := index + 1;
      }
      if index == |skipped| { return None; }
      key := Some(skipped[index].key);
      skipped := skipped[..index] + skipped[index + 1..];
    }

    method RatchetReceiveStep(remote: nat, freshDh: nat)
      modifies this
      ensures Value() == ReceiveStep(old(Value()), remote, freshDh)
    {
      previousSendCount := sendCount;
      sendCount, receiveCount := 0, 0;
      remoteDh := Some(remote);
      var dh := Dh(ownDh, remote);
      receivingChain := Some(ChainOf(rootKey, dh));
      rootKey := RootOf(rootKey, dh);
      ownDh := freshDh;
      dh := Dh(ownDh, remote);
      sendingChain := Some(ChainOf(rootKey, dh));
      rootKey := RootOf(rootKey, dh);
    }

    /** The loop that saves one key at a time ends in the closed form SkipTo. */
    method SkipUntil(h: Header) returns (fault: Option<Fault>)
      requires |skipped| <= MAX_SKIP
      modifies this
      ensures h.messageNumber - old(receiveCount) > MAX_SKIP ==> fault == Some(TooManySkipped)
      ensures h.messageNumber - old(receiveCount) <= MAX_SKIP && old(receivingChain).Some? ==>
                fault == None && Value() == SkipTo(old(Value()), h.dh, h.messageNumber)
      ensures h.messageNumber - old(receiveCount) <= MAX_SKIP && old(receivingChain).None? ==>
                receivingChain.None? && (fault == None || fault == Some(NoReceivingChain))
    {
      if h.messageNumber - receiveCount > MAX_SKIP { return Some(TooManySkipped); }
      ghost var start := Value();
      while receiveCount < h.messageNumber
        invariant start.receivingChain.None? ==> Value() == start
        invariant start.receivingChain.Some? ==>
                    && start.receiveCount <= receiveCount
                    && (receiveCount == start.receiveCount || receiveCount <= h.messageNumber)
                    && Value() == SkipTo(start, h.dh, receiveCount)
        invariant |skipped| <= MAX_SKIP
      {
        var n := receiveCount;
        if start.receivingChain.Some? { SkipOneMore(start, h.dh, n); }
        var key := AdvanceReceiving();
        if key.None? { return Some(NoReceivingChain); }
        SaveSkipped(h.dh, n, key.value);
      }
      return None;
    }
  }

  lemma SkipOneMore(s: State, dh: nat, n: nat)
    requires s.receivingChain.Some? && s.receiveCount <= n && |s.skipped| <= MAX_SKIP
    ensures var t := SkipTo(s, dh, n);
            && t.receivingChain.Some?
            && SkipTo(s, dh, n + 1)
               == t.(receivingChain := Some(NextChain(t.receivingChain.value)),
                     receiveCount := n + 1,
                     skipped := Newest(t.skipped + [SkippedKey(dh, n, MessageKey(t.receivingChain.value))]))
  {
    var chain, first := s.receivingChain.value, s.receiveCount;
    var next := [SkippedKey(dh, n, MessageKey(Ratcheted(chain, n - first)))];
    assert ChainKeys(chain, dh, first, n + 1) == ChainKeys(chain, dh, first, n) + next;
    assert s.skipped + ChainKeys(chain, dh, first, n + 1) == (s.skipped + ChainKeys(chain, dh, first, n)) + next;
    assert n == first ==> ChainKeys(chain, dh, first, n) == [] && s.skipped + [] == s.skipped;
  }

  /** Both entry points copy, change the copy in place, and return it. */
  method EncryptRatchetMessage(s: State, plaintext: string, nonce: nat, paddedLength: nat)
    returns (r: Result<(State, Packet), Fault>)
    ensures r == Encrypt(s, plaintext, nonce, paddedLength)
  {
    var state := new WorkingState(s);
    var messageNumber := state.sendCount;
    var key := state.AdvanceSending();
    if key.None? { return Err(NoSendingChain); }
    var header := Some(Header(state.ownDh, state.previousSendCount, messageNumber));
    var size := PaddedSize(|plaintext|, paddedLength);
    if size < 2 || size > MAX_PADDED || size < |plaintext| + 2 { return Err(TooLarge); }
    return Ok((state.Value(), Packet(header, nonce, size, Box(key.value, nonce, header, plaintext))));
  }

  /** What can be sealed, and under which size and nonce: without a padded length every
      text of at most 65533 bytes, in at least 64 bytes; with one, every text that leaves
      room for its length. */
  lemma SealsExactly(s: State, text: string, nonce: nat, padded: nat)
    ensures var r := Encrypt(s, text, nonce, padded);
            && (r.Ok? <==> s.sendingChain.Some? && if padded == 0 then |text| <= 65533 else |text| + 2 <= padded <= 65535)
            && (r.Ok? ==> var x := r.value.1;
                  && x.nonce == nonce == x.box.nonce && x.box.plaintext == text
                  && x.size == if padded != 0 then padded else if |text| <= 62 then 64 else |text| + 2)
            && (r.Err? ==> r.error == if s.sendingChain.None? then NoSendingChain else TooLarge)
  {
  }

  method DecryptRatchetMessage(s: State, p: Packet, freshDh: nat) returns (r: Result<(State, string), Fault>)
    ensures r == Decrypt(s, p, freshDh)
  {
    var state := new WorkingState(s);
    if p.header.None? { return Err(BadHeader); }
    var h := p.header.value;
    var key := state.TakeSkipped(h.dh, h.messageNumber);
    if key.None? {
      if state.remoteDh != Some(h.dh) { state.RatchetReceiveStep(h.dh, freshDh); }
      var fault := state.SkipUntil(h);
      if fault.Some? { return Err(fault.value); }
      key := state.AdvanceReceiving();
      if key.None? { return Err(NoReceivingChain); }
    }
    var clear := Open(key.value, p);
    if clear.Err? { return Err(clear.error); }
    return Ok((state.Value(), clear.value));
  }
}
