/** The layers inside an SMP message body (src/browser-simplex-agent.mjs): the server's
    box with timestamp and flags, the client's box with its two headers, and native
    agent messages with receipts. */
module AgentWire {
  import opened Outcomes
  import opened Bytes
  import opened SecretBox

  const EMPTY_HEADER: byte := 0x5f       // '_'
  const CONFIRMATION: byte := 0x4b       // 'K'
  const H: byte := 0x48
  const V: byte := 0x56
  const MAX_RECEIPT_ID: nat := 0x7fff_ffff_ffff_ffff

  /** A length byte takes the length modulo 256, and no encoder of these two headers
      checks it. */
  function WithLength(b: bytes): bytes {
    [|b| % 0x100] + b
  }

  lemma LengthInverts(b: bytes, rest: bytes)
    ensures CutSmall(WithLength(b) + rest) == Ok(Taken(b, rest)) <==> |b| <= 255
  {
    if |b| <= 255 {
      SmallInverts(b, rest);
      assert WithLength(b) + rest == [|b|] + b + rest;
    }
  }

  // ------------------------------------------------------- client messages

  datatype PublicHeader = PublicHeader(version: nat, key: Option<bytes>)

  datatype PrivateHeader = NoHeader | Confirmation(senderKey: bytes)

  function EncodePublic(h: PublicHeader): bytes
    requires 1 <= h.version <= 0xffff
  {
    EncodeWord16(h.version) + (if h.key.None? then [ZERO] else [ONE] + WithLength(h.key.value))
  }

  function ParsePublic(b: bytes): Result<Taken<PublicHeader>, Fault> {
    if |b| < 3 then Err(Truncated)
    else if b[2] == ZERO then Ok(Taken(PublicHeader(DecodeWord16(b), None), b[3..]))
    else if b[2] != ONE then Err(Syntax)
    else
      match CutSmall(b[3..])
      case Err(e) => Err(e)
      case Ok(t) => Ok(Taken(PublicHeader(DecodeWord16(b), Some(t.value)), t.rest))
  }

  function EncodePrivate(h: PrivateHeader): bytes {
    match h
    case NoHeader => [EMPTY_HEADER]
    case Confirmation(key) => [CONFIRMATION] + WithLength(key)
  }

  function ParsePrivate(b: bytes): Result<Taken<PrivateHeader>, Fault> {
    if b == [] then Err(Truncated)
    else if b[0] == EMPTY_HEADER || b[0] == SPACE then Ok(Taken(NoHeader, b[1..]))
    else if b[0] != CONFIRMATION then Err(Syntax)
    else
      match CutSmall(b[1..])
      case Err(e) => Err(e)
      case Ok(t) => Ok(Taken(Confirmation(t.value), t.rest))
  }

  /** Keys a length byte can count. */
  predicate Countable(h: PublicHeader, p: PrivateHeader) {
    (h.key.Some? ==> |h.key.value| <= 255) && (p.Confirmation? ==> |p.senderKey| <= 255)
  }

  lemma PublicInverts(h: PublicHeader, rest: bytes)
    requires 1 <= h.version <= 0xffff
    ensures ParsePublic(EncodePublic(h) + rest) == Ok(Taken(h, rest)) <==> h.key.Some? ==> |h.key.value| <= 255
  {
    var b := EncodePublic(h) + rest;
    if h.key.Some? {
      assert b[3..] == WithLength(h.key.value) + rest;
      LengthInverts(h.key.value, rest);
    } else {
      assert b[3..] == rest;
    }
  }

  lemma PrivateInverts(h: PrivateHeader, body: bytes)
    ensures ParsePrivate(EncodePrivate(h) + body) == Ok(Taken(h, body)) <==> h.Confirmation? ==> |h.senderKey| <= 255
  {
    var b := EncodePrivate(h) + body;
    if h.Confirmation? {
      assert b[1..] == WithLength(h.senderKey) + body;
      LengthInverts(h.senderKey, body);
    } else {
      assert b[1..] == body;
    }
  }

  datatype ClientMessage = ClientMessage(publicHeader: PublicHeader, privateHeader: PrivateHeader, body: bytes)

  /** `cipher` is the secretbox of the shared secret under each nonce. */
  function SealClient(cipher: bytes -> Cipher, m: ClientMessage, nonce: bytes, paddedLength: nat): Result<bytes, Fault>
    requires 1 <= m.publicHeader.version <= 0xffff && cipher(nonce).Valid()
  {
    if |nonce| != NONCE then Err(Length)
    else
      var sealed := Encrypt(cipher(nonce), EncodePrivate(m.privateHeader) + m.body, paddedLength);
      if sealed.Err? then sealed else Ok(EncodePublic(m.publicHeader) + nonce + sealed.value)
  }

  function OpenClient(cipher: bytes -> Cipher, b: bytes): Result<ClientMessage, Fault>
    requires forall nonce :: cipher(nonce).Valid()
  {
    match ParsePublic(b)
    case Err(e) => Err(e)
    case Ok(header) =>
      if |header.rest| < NONCE then Err(Truncated)
      else
        match Decrypt(cipher(header.rest[..NONCE]), header.rest[NONCE..])
        case Err(e) => Err(e)
        case Ok(clear) =>
          match ParsePrivate(clear)
          case Err(e) => Err(e)
          case Ok(t) => Ok(ClientMessage(header.value, t.value, t.rest))
  }

  lemma ReadKeysAreShort(b: bytes)
    ensures ParsePublic(b).Ok? && ParsePublic(b).value.value.key.Some? ==> |ParsePublic(b).value.value.key.value| <= 255
    ensures ParsePrivate(b).Ok? && ParsePrivate(b).value.value.Confirmation? ==>
        |ParsePrivate(b).value.value.senderKey| <= 255
  {
  }

  lemma OpenedIsCountable(cipher: bytes -> Cipher, b: bytes)
    requires forall n :: cipher(n).Valid()
    ensures var r := OpenClient(cipher, b); r.Ok? ==> Countable(r.value.publicHeader, r.value.privateHeader)
  {
    ReadKeysAreShort(b);
    forall clear ensures ParsePrivate(clear).Ok? ==> Countable(PublicHeader(0, None), ParsePrivate(clear).value.value) {
      ReadKeysAreShort(clear);
    }
    hide ParsePublic, ParsePrivate, Decrypt;
  }

  /** A client message is sealed exactly if it fits its padding, and then opens to itself
      under the same secret if and only if its keys fit their length bytes. */
  lemma ClientInverts(cipher: bytes -> Cipher, m: ClientMessage, nonce: bytes, paddedLength: nat)
    requires forall n :: cipher(n).Valid()
    requires 1 <= m.publicHeader.version <= 0xffff
    ensures var r := SealClient(cipher, m, nonce, paddedLength);
            && (r.Ok? <==> |nonce| == NONCE && |EncodePrivate(m.privateHeader) + m.body| + 2 <= paddedLength <= 0xffff)
            && (r.Ok? ==> (OpenClient(cipher, r.value) == Ok(m) <==> Countable(m.publicHeader, m.privateHeader)))
  {
    hide ParsePublic, ParsePrivate, Encrypt, Decrypt, EncodePublic, EncodePrivate;
    var clear := EncodePrivate(m.privateHeader) + m.body;
    DecryptInverts(cipher(nonce), clear, paddedLength);
    PrivateInverts(m.privateHeader, m.body);
    var r := SealClient(cipher, m, nonce, paddedLength);
    if r.Ok? {
      var box := Encrypt(cipher(nonce), clear, paddedLength).value;
      assert r.value == EncodePublic(m.publicHeader) + (nonce + box);
      PublicInverts(m.publicHeader, nonce + box);
      assert (nonce + box)[..NONCE] == nonce && (nonce + box)[NONCE..] == box;
      OpenedIsCountable(cipher, r.value);
    }
  }

  // ----------------------------------------------------- received messages

  datatype Received = Received(timestamp: nat, notification: bool, body: bytes)

  function EncodeReceived(m: Received): Result<bytes, Fault> {
    if m.timestamp >= Pow256(8) then Err(Range)
    else Ok(BigEndian(m.timestamp, 8) + [if m.notification then T else F, SPACE] + m.body)
  }

  /** Whatever stands between the flag and the next space is skipped. */
  function ParseReceived(b: bytes): Result<Received, Fault> {
    if |b| < 9 then Err(Truncated)
    else if b[8] != T && b[8] != F then Err(Syntax)
    else
      var n := ToSpace(b[9..]);
      if n == |b| - 9 then Err(Syntax) else Ok(Received(FromBigEndian(b[..8]), b[8] == T, b[9 + n + 1..]))
  }

  method ParseRcvMessageBody(b: bytes) returns (r: Result<Received, Fault>)
    ensures r == ParseReceived(b)
  {
    if |b| < 9 { return Err(Truncated); }
    var timestamp := DecodeWord64(b[..8]);
    var flag := b[8];
    if flag != T && flag != F { return Err(Syntax); }
    var offset := 9;
    while offset < |b|
      invariant 9 <= offset <= |b| && forall i :: 9 <= i < offset ==> b[i] != SPACE
    {
      offset := offset + 1;
      if b[offset - 1] == SPACE {
        ToSpaceIs(b[9..], offset - 10);
        return Ok(Received(timestamp, flag == T, b[offset..]));
      }
    }
    ToSpaceIs(b[9..], |b| - 9);
    return Err(Syntax);
  }

  lemma ReceivedInverts(m: Received)
    requires EncodeReceived(m).Ok?
    ensures ParseReceived(EncodeReceived(m).value) == Ok(m)
  {
    var b, time := EncodeReceived(m).value, BigEndian(m.timestamp, 8);
    BigEndianInverts(m.timestamp, 8);
    assert b[..8] == time && b[8] == (if m.notification then T else F) && b[9..] == [SPACE] + m.body && b[10..] == m.body;
    ToSpaceIs(b[9..], 0);
    hide BigEndian, FromBigEndian, Pow256;
  }

  function SealReceived(cipher: bytes -> Cipher, msgId: bytes, m: Received, paddedLength: nat): Result<bytes, Fault>
    requires forall n :: cipher(n).Valid()
  {
    var b := EncodeReceived(m);
    if b.Err? then b else Encrypt(cipher(IdNonce(msgId)), b.value, paddedLength)
  }

  function OpenReceived(cipher: bytes -> Cipher, msgId: bytes, b: bytes): Result<Received, Fault>
    requires forall n :: cipher(n).Valid()
  {
    match Decrypt(cipher(IdNonce(msgId)), b)
    case Err(e) => Err(e)
    case Ok(clear) => ParseReceived(clear)
  }

  /** A message is boxed exactly if its timestamp has 64 bits and it fits its padding, and
      opens to itself under its message id. */
  lemma BoxedInverts(cipher: bytes -> Cipher, msgId: bytes, m: Received, paddedLength: nat)
    requires forall n :: cipher(n).Valid()
    ensures var r := SealReceived(cipher, msgId, m, paddedLength);
            && (r.Ok? <==> m.timestamp <= 0xffff_ffff_ffff_ffff && |m.body| + 12 <= paddedLength <= 65535)
            && (r.Ok? ==> OpenReceived(cipher, msgId, r.value) == Ok(m))
  {
    WideWord();
    var b := EncodeReceived(m);
    if b.Ok? {
      DecryptInverts(cipher(IdNonce(msgId)), b.value, paddedLength);
      ReceivedInverts(m);
    }
    hide Pow256, Encrypt, Decrypt;
  }

  lemma WideWord()
    ensures Pow256(8) == 0x1_0000_0000_0000_0000
  {
    assert Pow256(4) == 0x1_0000_0000;
    assert Pow256(6) == 0x1_0000_0000_0000;
  }

  // -------------------------------------------------- native agent messages

  datatype Receipt = Receipt(agentMsgId: nat, msgHash: bytes, info: bytes)

  datatype Content = Hello | Message(body: bytes) | Receipts(receipts: seq<Receipt>)

  /** `framing` is None for the bare forms that only the parser knows. */
  datatype AgentMessage = AgentMessage(framing: Option<Framing>, content: Content)

  datatype Framing = Framing(sndMsgId: nat, prevMsgHash: bytes)

  predicate ReceiptOk(r: Receipt) {
    r.agentMsgId <= MAX_RECEIPT_ID && |r.msgHash| <= 255 && |r.info| <= 0xffff
  }

  function EncodeReceipt(r: Receipt): bytes
    requires ReceiptOk(r)
  {
    BigEndian(r.agentMsgId, 8) + ([|r.msgHash|] + r.msgHash + (EncodeWord16(|r.info|) + r.info))
  }

  function EncodeReceipts(rs: seq<Receipt>): bytes
    requires forall i :: 0 <= i < |rs| ==> ReceiptOk(rs[i])
  {
    if rs == [] then [] else EncodeReceipt(rs[0]) + EncodeReceipts(rs[1..])
  }

  function EncodeContent(c: Content): Result<bytes, Fault> {
    match c
    case Hello => Ok([H])
    case Message(body) => Ok([M] + body)
    case Receipts(rs) =>
      if rs == [] || |rs| > 255 || exists i :: 0 <= i < |rs| && !ReceiptOk(rs[i]) then Err(Length)
      else Ok([V, |rs|] + EncodeReceipts(rs))
  }

  /** A message id of 0 counts as absent and becomes 1. */
  function SentId(id: nat): nat {
    if id == 0 then 1 else id
  }

  function EncodeAgent(f: Framing, c: Content): Result<bytes, Fault> {
    if EncodeContent(c).Err? then EncodeContent(c)
    else if f.sndMsgId >= Pow256(8) || |f.prevMsgHash| > 255 then Err(Range)
    else Ok([M] + BigEndian(SentId(f.sndMsgId), 8) + ([|f.prevMsgHash|] + f.prevMsgHash + EncodeContent(c).value))
  }

  function CutReceipt(b: bytes): Result<Taken<Receipt>, Fault> {
    match Cut(b, 8) case Err(e) => Err(e) case Ok(id) =>
    match CutSmall(id.rest) case Err(e) => Err(e) case Ok(hash) =>
    match CutLarge(hash.rest) case Err(e) => Err(e) case Ok(info) =>
      Ok(Taken(Receipt(FromBigEndian(id.value), hash.value, info.value), info.rest))
  }

  function CutReceipts(b: bytes, count: nat): Result<Taken<seq<Receipt>>, Fault> {
    if count == 0 then Ok(Taken([], b))
    else
      match CutReceipt(b) case Err(e) => Err(e) case Ok(one) =>
      match CutReceipts(one.rest, count - 1) case Err(e) => Err(e) case Ok(others) =>
        Ok(Taken([one.value] + others.value, others.rest))
  }

  function ParseReceipts(b: bytes): Result<Content, Fault> {
    match CutByte(b) case Err(e) => Err(e) case Ok(count) =>
      if count.value == 0 then Err(Syntax)
      else
        match CutReceipts(count.rest, count.value) case Err(e) => Err(e) case Ok(all) =>
          if all.rest != [] then Err(Syntax) else Ok(Receipts(all.value))
  }

  /** The receipt loop on the reader. */
  method ReadReceipts(reader: ByteReader, count: nat) returns (r: Result<seq<Receipt>, Fault>)
    requires reader.Valid()
    modifies reader
    ensures reader.Valid()
    ensures match CutReceipts(old(reader.Rest()), count)
            case Ok(all) => r == Ok(all.value) && reader.Rest() == all.rest
            case Err(e) => r == Err(e)
  {
    hide CutReceipt;
    var receipts: seq<Receipt>, i := [], 0;
    ghost var result := CutReceipts(reader.Rest(), count);
    assert forall xs: seq<Receipt> :: [] + xs == xs;
    while i < count
      invariant 0 <= i <= count && reader.Valid()
      invariant result == AfterFirst(receipts, CutReceipts(reader.Rest(), count - i))
    {
      var one := ReadReceipt(reader);
      if one.Err? { return Err(one.error); }
      assert forall xs: seq<Receipt> :: receipts + ([one.value] + xs) == receipts + [one.value] + xs;
      receipts, i := receipts + [one.value], i + 1;
    }
    assert receipts + [] == receipts;
    return Ok(receipts);
  }

  method ReadReceipt(reader: ByteReader) returns (r: Result<Receipt, Fault>)
    requires reader.Valid()
    modifies reader
    ensures reader.Valid()
    ensures match CutReceipt(old(reader.Rest()))
            case Ok(t) => r == Ok(t.value) && reader.Rest() == t.rest
            case Err(e) => r == Err(e)
  {
    hide CutSmall, CutLarge, FromBigEndian;
    var id := reader.Take(8);
    if id.Err? { return Err(id.error); }
    var agentMsgId := DecodeWord64(id.value);
    var hash := reader.TakeSmall();
    if hash.Err? { return Err(hash.error); }
    var info := reader.TakeLarge();
    if info.Err? { return Err(info.error); }
    return Ok(Receipt(agentMsgId, hash.value, info.value));
  }

  function AfterFirst(front: seq<Receipt>, r: Result<Taken<seq<Receipt>>, Fault>): Result<Taken<seq<Receipt>>, Fault> {
    match r case Ok(t) => Ok(Taken(front + t.value, t.rest)) case Err(e) => Err(e)
  }

  function ParseFramed(b: bytes): Result<AgentMessage, Fault> {
    match Cut(b, 8) case Err(e) => Err(e) case Ok(id) =>
    match CutSmall(id.rest) case Err(e) => Err(e) case Ok(hash) =>
    match CutByte(hash.rest) case Err(e) => Err(e) case Ok(tag) =>
      var framing := Some(Framing(FromBigEndian(id.value), hash.value));
      if tag.value == H then (if tag.rest == [] then Ok(AgentMessage(framing, Hello)) else Err(Syntax))
      else if tag.value == V then
        match ParseReceipts(tag.rest) case Err(e) => Err(e) case Ok(c) => Ok(AgentMessage(framing, c))
      else if tag.value != M then Err(UnknownTag)
      else Ok(AgentMessage(framing, Message(tag.rest)))
  }

  function ParseAgent(b: bytes): Result<AgentMessage, Fault> {
    match CutByte(b) case Err(e) => Err(e) case Ok(tag) =>
      if tag.value == H then (if tag.rest == [] then Ok(AgentMessage(None, Hello)) else Err(Syntax))
      else if tag.value == M then ParseFramed(tag.rest)
      else if tag.value == V then
        match ParseReceipts(tag.rest) case Err(e) => Err(e) case Ok(c) => Ok(AgentMessage(None, c))
      else Err(UnknownTag)
  }

  lemma ReceiptInverts(r: Receipt, rest: bytes)
    requires ReceiptOk(r)
    ensures CutReceipt(EncodeReceipt(r) + rest) == Ok(Taken(r, rest))
  {
    var id := BigEndian(r.agentMsgId, 8);
    var tail := EncodeWord16(|r.info|) + r.info + rest;
    var b := EncodeReceipt(r) + rest;
    assert b[..8] == id && b[8..] == [|r.msgHash|] + r.msgHash + tail;
    assert Pow256(8) > MAX_RECEIPT_ID by { assert Pow256(4) == 0x1_0000_0000; assert Pow256(6) == 0x1_0000_0000_0000; }
    BigEndianInverts(r.agentMsgId, 8);
    SmallInverts(r.msgHash, tail);
    LargeInverts(r.info, rest);
    hide BigEndian, FromBigEndian, Pow256, CutSmall, CutLarge, EncodeReceipt;
  }

  lemma FirstReceipt(r: Receipt, rest: bytes, others: seq<Receipt>)
    requires ReceiptOk(r) && CutReceipts(rest, |others|) == Ok(Taken(others, []))
    ensures CutReceipts(EncodeReceipt(r) + rest, 1 + |others|) == Ok(Taken([r] + others, []))
  {
    ReceiptInverts(r, rest);
    hide CutReceipt, EncodeReceipt, ReceiptOk;
  }

  lemma {:induction false} ReceiptsInvert(rs: seq<Receipt>)
    requires forall i :: 0 <= i < |rs| ==> ReceiptOk(rs[i])
    ensures CutReceipts(EncodeReceipts(rs), |rs|) == Ok(Taken(rs, []))
  {
    hide CutReceipt, EncodeReceipt, ReceiptOk, CutReceipts;
    if rs == [] {
      NoReceipts();
    } else {
      ReceiptsInvert(rs[1..]);
      FirstReceipt(rs[0], EncodeReceipts(rs[1..]), rs[1..]);
      assert [rs[0]] + rs[1..] == rs;
    }
  }

  lemma NoReceipts()
    ensures CutReceipts([], 0) == Ok(Taken([], []))
  {
  }

  /** An id of 64 bits, a hash with a length byte, and no receipts or 1 to 255, whose ids have
      63 bits and whose parts fit their lengths. */
  predicate Fits(f: Framing, c: Content) {
    && f.sndMsgId <= 0xffff_ffff_ffff_ffff && |f.prevMsgHash| <= 255
    && (c.Receipts? ==>
          && 1 <= |c.receipts| <= 255
          && forall i :: 0 <= i < |c.receipts| ==>
               && c.receipts[i].agentMsgId <= 0x7fff_ffff_ffff_ffff
               && |c.receipts[i].msgHash| <= 255 && |c.receipts[i].info| <= 65535)
  }

  /** Exactly such agent messages are encoded, and read back, with an id of 0 as 1. */
  lemma AgentInverts(f: Framing, c: Content)
    ensures EncodeAgent(f, c).Ok? <==> Fits(f, c)
    ensures EncodeAgent(f, c).Ok? ==>
              ParseAgent(EncodeAgent(f, c).value)
              == Ok(AgentMessage(Some(Framing(if f.sndMsgId == 0 then 1 else f.sndMsgId, f.prevMsgHash)), c))
  {
    EncodesExactly(f, c);
    if EncodeAgent(f, c).Ok? { AgentReads(f, c); }
    hide EncodeAgent, ParseAgent;
  }

  lemma EncodesExactly(f: Framing, c: Content)
    ensures EncodeAgent(f, c).Ok? <==> Fits(f, c)
  {
    WideWord();
    hide Pow256;
  }

  lemma AgentReads(f: Framing, c: Content)
    requires EncodeAgent(f, c).Ok?
    ensures ParseAgent(EncodeAgent(f, c).value)
            == Ok(AgentMessage(Some(Framing(if f.sndMsgId == 0 then 1 else f.sndMsgId, f.prevMsgHash)), c))
  {
    var b, content := EncodeAgent(f, c).value, EncodeContent(c).value;
    var id := BigEndian(SentId(f.sndMsgId), 8);
    var framed := b[1..];
    assert framed[..8] == id && framed[8..] == [|f.prevMsgHash|] + f.prevMsgHash + content;
    WideWord();
    BigEndianInverts(SentId(f.sndMsgId), 8);
    SmallInverts(f.prevMsgHash, content);
    ContentInverts(c);
    hide BigEndian, FromBigEndian, CutSmall, EncodeContent, ParseReceipts, Pow256;
  }

  lemma ContentInverts(c: Content)
    requires EncodeContent(c).Ok?
    ensures var b := EncodeContent(c).value;
            && b != []
            && (c.Hello? ==> b[0] == H && b[1..] == [])
            && (c.Message? ==> b[0] == M && b[1..] == c.body)
            && (c.Receipts? ==> b[0] == V && ParseReceipts(b[1..]) == Ok(c))
  {
    if c.Receipts? {
      ReceiptsInvert(c.receipts);
      var b := EncodeContent(c).value;
      assert b[1..][1..] == EncodeReceipts(c.receipts);
    }
  }
}
