/** The byte strings that are headers, received bodies and native agent messages, and that
    the parsers of AgentWire accept these and no others (src/browser-simplex-agent.mjs). */
module AgentGrammar {
  import opened Outcomes
  import opened Bytes
  import opened AgentWire

  // ------------------------------------------------------- headers

  /** Two bytes of version, then '0', or '1' and a small key. */
  predicate IsPublic(b: bytes, h: PublicHeader) {
    && h.version <= 65535
    && match h.key
       case None => b == [h.version / 256, h.version % 256, 0x30]
       case Some(key) => |key| <= 255 && b == [h.version / 256, h.version % 256, 0x31, |key|] + key
  }

  /** '_' or a space, or 'K' and a small key. */
  predicate IsPrivate(b: bytes, h: PrivateHeader) {
    match h
    case NoHeader => b == [0x5f] || b == [0x20]
    case Confirmation(key) => |key| <= 255 && b == [0x4b, |key|] + key
  }

  lemma Behind3(x: byte, y: byte, z: byte, a: bytes, b: bytes)
    ensures b == [x, y, z] + a <==> |b| >= 3 && b[0] == x && b[1] == y && b[2] == z && b[3..] == a
  {
  }

  lemma Behind1(x: byte, a: bytes, b: bytes)
    ensures b == [x] + a <==> b != [] && b[0] == x && b[1..] == a
  {
  }

  lemma PublicForm(h: PublicHeader, rest: bytes, b: bytes)
    ensures (exists a :: IsPublic(a, h) && b == a + rest)
            <==> && |b| >= 3 && DecodeWord16(b) == h.version
                 && if h.key.None? then b[2] == 0x30 && b[3..] == rest
                    else b[2] == 0x31 && |h.key.value| <= 255 && b[3..] == [|h.key.value|] + h.key.value + rest
  {
    if h.version <= 65535 {
      var x, y := h.version / 256, h.version % 256;
      var k := if h.key.Some? then h.key.value else [];
      var a := if h.key.None? then [x, y, 0x30] else [x, y, 0x31, |k| % 256] + k;
      Behind3(x, y, 0x30, rest, b);
      if |k| <= 255 {
        Behind3(x, y, 0x31, [|k|] + k + rest, b);
        assert [x, y, 0x31, |k|] + k + rest == [x, y, 0x31] + ([|k|] + k + rest);
      }
      assert IsPublic(a, h) <==> |k| <= 255;
    }
  }

  /** The public header is read off the front exactly if it stands there. */
  lemma PublicReadExactly(b: bytes, h: PublicHeader, rest: bytes)
    ensures ParsePublic(b) == Ok(Taken(h, rest)) <==> exists a :: IsPublic(a, h) && b == a + rest
  {
    PublicForm(h, rest, b);
    if |b| >= 3 && h.key.Some? { SmallExactly(h.key.value, rest, b[3..]); }
    hide IsPublic, CutSmall;
  }

  lemma PrivateForm(h: PrivateHeader, rest: bytes, b: bytes)
    ensures (exists a :: IsPrivate(a, h) && b == a + rest)
            <==> b != [] && if h.NoHeader? then (b[0] == 0x5f || b[0] == 0x20) && b[1..] == rest
                            else b[0] == 0x4b && |h.senderKey| <= 255 && b[1..] == [|h.senderKey|] + h.senderKey + rest
  {
    Behind1(0x5f, rest, b);
    Behind1(0x20, rest, b);
    if h.NoHeader? {
      assert IsPrivate([0x5f], h) && IsPrivate([0x20], h);
    } else if |h.senderKey| <= 255 {
      var k := h.senderKey;
      var a := [0x4b, |k|] + k;
      Behind1(0x4b, [|k|] + k + rest, b);
      assert a + rest == [0x4b] + ([|k|] + k + rest);
      assert IsPrivate(a, h);
    }
  }

  lemma PrivateReadExactly(b: bytes, h: PrivateHeader, rest: bytes)
    ensures ParsePrivate(b) == Ok(Taken(h, rest)) <==> exists a :: IsPrivate(a, h) && b == a + rest
  {
    PrivateForm(h, rest, b);
    if b != [] && h.Confirmation? { SmallExactly(h.senderKey, rest, b[1..]); }
    hide IsPrivate, CutSmall;
  }

  // ------------------------------------------------------- received bodies

  /** Eight bytes of time, T or F, anything up to the next space, and the body behind it. */
  ghost predicate IsReceived(b: bytes, m: Received) {
    exists time, filler: bytes :: ReceivedParts(b, m, time, filler)
  }

  predicate ReceivedParts(b: bytes, m: Received, time: bytes, filler: bytes) {
    && |time| == 8 && FromBigEndian(time) == m.timestamp && 0x20 !in filler
    && b == time + [if m.notification then 0x54 else 0x46] + (filler + ([0x20] + m.body))
  }

  lemma ReceivedReadExactly(b: bytes, m: Received)
    ensures ParseReceived(b) == Ok(m) <==> IsReceived(b, m)
  {
    if ParseReceived(b) == Ok(m) { ReceivedReads(b, m); }
    if time, filler: bytes :| ReceivedParts(b, m, time, filler) { ReceivedIsRead(b, m, time, filler); }
    hide ParseReceived, ReceivedParts;
  }

  lemma ReceivedReads(b: bytes, m: Received)
    requires ParseReceived(b) == Ok(m)
    ensures IsReceived(b, m)
  {
    hide FromBigEndian;
    var n := ToSpace(b[9..]);
    var time, filler := b[..8], b[9..][..n];
    assert b[9..] == filler + ([b[9 + n]] + m.body);
    assert b == time + [b[8]] + b[9..];
    assert ReceivedParts(b, m, time, filler);
  }

  lemma ReceivedIsRead(b: bytes, m: Received, time: bytes, filler: bytes)
    requires ReceivedParts(b, m, time, filler)
    ensures ParseReceived(b) == Ok(m)
  {
    hide FromBigEndian;
    var n, tail := |filler|, filler + ([0x20] + m.body);
    assert b[..8] == time && b[9..] == tail;
    assert tail[n] == 0x20 && tail[n + 1..] == m.body;
    ToSpaceIs(tail, n);
    assert b[9 + n + 1..] == tail[n + 1..];
  }

  // ------------------------------------------------------- receipts

  predicate IsReceipt(b: bytes, r: Receipt, id: bytes) {
    && |id| == 8 && FromBigEndian(id) == r.agentMsgId && |r.msgHash| <= 255 && |r.info| <= 65535
    && b == id + ([|r.msgHash|] + r.msgHash + ([|r.info| / 256, |r.info| % 256] + r.info))
  }

  function Joined(parts: seq<bytes>): bytes {
    if parts == [] then [] else parts[0] + Joined(parts[1..])
  }

  ghost predicate ReceiptParts(parts: seq<bytes>, ids: seq<bytes>, rs: seq<Receipt>) {
    |parts| == |ids| == |rs| && forall i :: 0 <= i < |rs| ==> IsReceipt(parts[i], rs[i], ids[i])
  }

  /** One after the other. */
  ghost predicate AreReceipts(b: bytes, rs: seq<Receipt>) {
    exists parts, ids :: ReceiptParts(parts, ids, rs) && b == Joined(parts)
  }

  lemma ReceiptReads(b: bytes) returns (first: bytes, id: bytes)
    requires CutReceipt(b).Ok?
    ensures IsReceipt(first, CutReceipt(b).value.value, id) && b == first + CutReceipt(b).value.rest
  {
    var r, rest := CutReceipt(b).value.value, CutReceipt(b).value.rest;
    id := b[..8];
    var hash := CutSmall(b[8..]).value;
    SmallExactly(hash.value, hash.rest, b[8..]);
    LargeExactly(r.info, rest, hash.rest);
    hide FromBigEndian, CutSmall, CutLarge;
    var info := [|r.info| / 256, |r.info| % 256] + r.info;
    first := id + ([|r.msgHash|] + r.msgHash + info);
    assert b == id + b[8..] == id + ([|r.msgHash|] + r.msgHash + (info + rest)) == first + rest;
  }

  lemma ReceiptIsRead(b: bytes, r: Receipt, id: bytes, rest: bytes)
    requires IsReceipt(b, r, id)
    ensures CutReceipt(b + rest) == Ok(Taken(r, rest))
  {
    var info := [|r.info| / 256, |r.info| % 256] + r.info;
    var all, tail := b + rest, [|r.msgHash|] + r.msgHash + (info + rest);
    assert all == id + tail;
    assert all[..8] == id && all[8..] == tail;
    SmallExactly(r.msgHash, info + rest, tail);
    LargeExactly(r.info, rest, info + rest);
    hide FromBigEndian, CutSmall, CutLarge;
  }

  lemma PartsMore(first: bytes, id: bytes, r: Receipt, parts: seq<bytes>, ids: seq<bytes>, rs: seq<Receipt>)
    requires IsReceipt(first, r, id) && ReceiptParts(parts, ids, rs)
    ensures ReceiptParts([first] + parts, [id] + ids, [r] + rs) && Joined([first] + parts) == first + Joined(parts)
  {
    hide IsReceipt;
    var ps, xs, all := [first] + parts, [id] + ids, [r] + rs;
    forall i | 0 <= i < |all| ensures IsReceipt(ps[i], all[i], xs[i]) {
      if i > 0 { assert ps[i] == parts[i - 1] && all[i] == rs[i - 1] && xs[i] == ids[i - 1]; }
    }
    assert ps[1..] == parts;
  }

  lemma ReceiptsStep(b: bytes, count: nat)
    requires count > 0
    ensures CutReceipts(b, count) ==
              match CutReceipt(b) case Err(e) => Err(e) case Ok(one) =>
              match CutReceipts(one.rest, count - 1) case Err(e) => Err(e) case Ok(others) =>
                Ok(Taken([one.value] + others.value, others.rest))
  {
    hide CutReceipt;
  }

  lemma NoneRead(b: bytes)
    ensures CutReceipts(b, 0) == Ok(Taken([], b)) && ReceiptParts([], [], []) && Joined([]) == []
  {
  }

  lemma {:induction false} ReceiptsRead(b: bytes, count: nat) returns (parts: seq<bytes>, ids: seq<bytes>)
    requires CutReceipts(b, count).Ok?
    ensures var t := CutReceipts(b, count).value;
            |t.value| == count && ReceiptParts(parts, ids, t.value) && b == Joined(parts) + t.rest
    decreases count
  {
    hide *;
    if count == 0 {
      parts, ids := [], [];
      NoneRead(b);
      assert [] + b == b;
    } else {
      ReceiptsStep(b, count);
      var one := CutReceipt(b).value;
      var first, id := ReceiptReads(b);
      var others := CutReceipts(one.rest, count - 1).value;
      parts, ids := ReceiptsRead(one.rest, count - 1);
      PartsMore(first, id, one.value, parts, ids, others.value);
      Regroup(first, Joined(parts), others.rest);
      parts, ids := [first] + parts, [id] + ids;
    }
  }

  lemma Regroup(x: bytes, y: bytes, z: bytes)
    ensures x + (y + z) == x + y + z
  {
  }

  lemma {:induction false} ReceiptsAreRead(parts: seq<bytes>, ids: seq<bytes>, rs: seq<Receipt>)
    requires ReceiptParts(parts, ids, rs)
    ensures CutReceipts(Joined(parts), |rs|) == Ok(Taken(rs, []))
    decreases |rs|
  {
    hide CutReceipt, IsReceipt;
    if rs != [] {
      ReceiptIsRead(parts[0], rs[0], ids[0], Joined(parts[1..]));
      ReceiptsAreRead(parts[1..], ids[1..], rs[1..]);
      assert [rs[0]] + rs[1..] == rs;
    }
  }

  ghost predicate ReceiptsForm(b: bytes, rs: seq<Receipt>) {
    1 <= |rs| <= 255 && b != [] && b[0] == |rs| && AreReceipts(b[1..], rs)
  }

  lemma ReceiptsReadExactly(b: bytes, c: Content)
    ensures ParseReceipts(b) == Ok(c) <==> c.Receipts? && ReceiptsForm(b, c.receipts)
  {
    hide CutReceipts, ReceiptParts, Joined;
    if ParseReceipts(b) == Ok(c) {
      var parts, ids := ReceiptsRead(b[1..], b[0]);
      assert Joined(parts) + [] == Joined(parts);
    }
    if c.Receipts? && ReceiptsForm(b, c.receipts) {
      var parts, ids :| ReceiptParts(parts, ids, c.receipts) && b[1..] == Joined(parts);
      ReceiptsAreRead(parts, ids, c.receipts);
    }
  }

  // ------------------------------------------------------- agent messages

  /** 'H' alone, 'M' and a body, or 'V' and receipts. */
  ghost predicate IsContent(b: bytes, c: Content) {
    match c
    case Hello => b == [0x48]
    case Message(body) => b == [0x4d] + body
    case Receipts(rs) => b != [] && b[0] == 0x56 && ReceiptsForm(b[1..], rs)
  }

  /** A bare greeting or bare receipts; or 'M', eight bytes of id, a small hash and a content. */
  ghost predicate IsAgent(b: bytes, m: AgentMessage) {
    match m.framing
    case None => !m.content.Message? && IsContent(b, m.content)
    case Some(f) => exists id, content :: FramedParts(b, f, m.content, id, content)
  }

  ghost predicate FramedParts(b: bytes, f: Framing, c: Content, id: bytes, content: bytes) {
    && |id| == 8 && FromBigEndian(id) == f.sndMsgId && |f.prevMsgHash| <= 255 && IsContent(content, c)
    && b == [0x4d] + id + ([|f.prevMsgHash|] + f.prevMsgHash + content)
  }

  lemma FramedReads(b: bytes, m: AgentMessage)
    requires ParseFramed(b) == Ok(m)
    ensures m.framing.Some? && exists id, content :: FramedParts([0x4d] + b, m.framing.value, m.content, id, content)
  {
    hide FromBigEndian, CutSmall, ParseReceipts, ReceiptsForm;
    var id, hash := b[..8], CutSmall(b[8..]).value;
    SmallExactly(hash.value, hash.rest, b[8..]);
    var content := hash.rest;
    assert content == [content[0]] + content[1..];
    ReceiptsReadExactly(content[1..], m.content);
    assert b == id + b[8..];
    assert [0x4d] + b == [0x4d] + id + ([|hash.value|] + hash.value + content);
    assert FramedParts([0x4d] + b, m.framing.value, m.content, id, content);
  }

  lemma FramedIsRead(b: bytes, f: Framing, c: Content, id: bytes, content: bytes)
    requires FramedParts([0x4d] + b, f, c, id, content)
    ensures ParseFramed(b) == Ok(AgentMessage(Some(f), c))
  {
    hide FromBigEndian, CutSmall, ParseReceipts, ReceiptsForm;
    var tail := [|f.prevMsgHash|] + f.prevMsgHash + content;
    assert [0x4d] + b == [0x4d] + (id + tail);
    assert ([0x4d] + b)[1..] == b && ([0x4d] + (id + tail))[1..] == id + tail;
    assert b[..8] == id && b[8..] == tail;
    SmallExactly(f.prevMsgHash, content, tail);
    ReceiptsReadExactly(content[1..], c);
    assert c.Message? ==> content[1..] == c.body;
  }

  /** The parser of native agent messages accepts exactly the byte strings that are messages,
      and reads each as the message it is. */
  lemma AgentReadExactly(b: bytes, m: AgentMessage)
    ensures ParseAgent(b) == Ok(m) <==> IsAgent(b, m)
  {
    if ParseAgent(b) == Ok(m) { AgentReads(b, m); }
    if IsAgent(b, m) { AgentIsRead(b, m); }
    hide ParseAgent, IsAgent;
  }

  lemma AgentReads(b: bytes, m: AgentMessage)
    requires ParseAgent(b) == Ok(m)
    ensures IsAgent(b, m)
  {
    hide ParseFramed, ParseReceipts, ReceiptsForm, FramedParts;
    assert b == [b[0]] + b[1..];
    if b[0] == 0x4d { FramedReads(b[1..], m); }
    ReceiptsReadExactly(b[1..], m.content);
  }

  lemma AgentIsRead(b: bytes, m: AgentMessage)
    requires IsAgent(b, m)
    ensures ParseAgent(b) == Ok(m)
  {
    hide ParseFramed, ParseReceipts, ReceiptsForm;
    if m.framing.Some? {
      var id, content :| FramedParts(b, m.framing.value, m.content, id, content);
      assert b == [0x4d] + b[1..];
      FramedIsRead(b[1..], m.framing.value, m.content, id, content);
    } else if m.content.Receipts? {
      ReceiptsReadExactly(b[1..], m.content);
    }
  }
}
