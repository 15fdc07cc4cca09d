/** Signed SMP transmissions and the padded blocks that carry batches of them
    (src/browser-smp-core.mjs). */
module SmpTransmission {
  import opened Outcomes
  import opened Bytes
  import opened SmpCommands

  datatype Transmission = Transmission(sessionId: bytes, corrId: bytes, queueId: bytes, command: bytes)

  datatype Parsed = Parsed(signature: bytes, signed: bytes, sessionId: bytes, corrId: bytes, queueId: bytes,
                           command: bytes)

  datatype Kind = FromClient | FromBroker | Raw

  /** What the command bytes of a transmission say. */
  datatype Content = Commanded(command: Command) | Answered(message: BrokerMessage) | Unread

  function Body(t: Transmission): Result<bytes, Fault> {
    Join(Join(EncodeSmall(t.corrId), EncodeSmall(t.queueId)), Ok(t.command))
  }

  /** From version 7 the session id is signed but no longer sent. */
  function WireBody(v: nat, t: Transmission): Result<bytes, Fault> {
    if v >= 7 then Body(t) else Join(EncodeSmall(t.sessionId), Body(t))
  }

  /** The bytes the sender signs: for every version the session id and the body. */
  function SignedRegion(v: nat, t: Transmission): Result<bytes, Fault> {
    if v >= 7 then Join(EncodeSmall(t.sessionId), WireBody(v, t)) else WireBody(v, t)
  }

  function EncodeSigned(v: nat, t: Transmission, signature: bytes): Result<bytes, Fault> {
    if SignedRegion(v, t).Err? then SignedRegion(v, t) else Join(EncodeSmall(signature), WireBody(v, t))
  }

  /** Whether what follows the correlation id starts with "ERR " or "PONG", as a broker
      message sent without a queue id would. */
  predicate LooksBare(rest: bytes) {
    && |rest| >= 4
    && ((rest[0] == 0x45 && rest[1] == 0x52 && rest[2] == 0x52 && rest[3] == 0x20)
        || (rest[0] == 0x50 && rest[1] == 0x4f && rest[2] == 0x4e && rest[3] == 0x47))
  }

  function CutQueueId(kind: Kind, rest: bytes): Result<Taken<bytes>, Fault> {
    if kind == FromBroker && LooksBare(rest) then Ok(Taken([], rest)) else CutSmall(rest)
  }

  function ParseSigned(v: nat, b: bytes, sessionId: bytes, kind: Kind): Result<Parsed, Fault> {
    match CutSmall(b) case Err(e) => Err(e) case Ok(sig) =>
      var prefix := if v >= 7 then EncodeSmall(sessionId) else Ok([]);
      if prefix.Err? then Err(prefix.error)
      else
        match (if v < 7 then CutSmall(sig.rest) else Ok(Taken(sessionId, sig.rest)))
        case Err(e) => Err(e) case Ok(session) =>
        match CutSmall(session.rest) case Err(e) => Err(e) case Ok(corr) =>
        match CutQueueId(kind, corr.rest) case Err(e) => Err(e) case Ok(queue) =>
          Ok(Parsed(sig.value, prefix.value + sig.rest, session.value, corr.value, queue.value, queue.rest))
  }

  function ParseContent(v: nat, command: bytes, kind: Kind): Result<Content, Fault> {
    match kind
    case FromClient => (match ParseCommand(v, command) case Err(e) => Err(e) case Ok(c) => Ok(Commanded(c)))
    case FromBroker => (match ParseBroker(v, command) case Err(e) => Err(e) case Ok(m) => Ok(Answered(m)))
    case Raw => Ok(Unread)
  }

  /** The parts and, last, what the command bytes say. */
  function ParseWhole(v: nat, b: bytes, sessionId: bytes, kind: Kind): Result<(Parsed, Content), Fault> {
    match ParseSigned(v, b, sessionId, kind) case Err(e) => Err(e) case Ok(parsed) =>
    match ParseContent(v, parsed.command, kind) case Err(e) => Err(e) case Ok(content) => Ok((parsed, content))
  }

  /** parseSignedTransmission on its reader's offset, up to the command bytes. */
  method ParseParts(v: nat, b: bytes, sessionId: bytes, kind: Kind) returns (r: Result<Parsed, Fault>)
    ensures r == ParseSigned(v, b, sessionId, kind)
  {
    var reader := new ByteReader(b);
    var signature := reader.TakeSmall();
    if signature.Err? { return Err(signature.error); }
    var wireBody := reader.Rest();
    var prefix: Result<bytes, Fault> := if v >= 7 then EncodeSmall(sessionId) else Ok([]);
    if prefix.Err? { return Err(prefix.error); }
    var signedReader := new ByteReader(wireBody);
    var session := sessionId;
    if v < 7 {
      var taken := signedReader.TakeSmall();
      if taken.Err? { return Err(taken.error); }
      session := taken.value;
    }
    var corrId := signedReader.TakeSmall();
    if corrId.Err? { return Err(corrId.error); }
    var rest := signedReader.Rest();
    if kind == FromBroker && LooksBare(rest) {
      return Ok(Parsed(signature.value, prefix.value + wireBody, session, corrId.value, [], rest));
    }
    var queueId := signedReader.TakeSmall();
    if queueId.Err? { return Err(queueId.error); }
    return Ok(Parsed(signature.value, prefix.value + wireBody, session, corrId.value, queueId.value, signedReader.Rest()));
  }

  method ParseSignedTransmission(v: nat, b: bytes, sessionId: bytes, kind: Kind)
    returns (r: Result<(Parsed, Content), Fault>)
    ensures r == ParseWhole(v, b, sessionId, kind)
  {
    hide ParseSigned, ParseCommand, ParseBroker;
    var parsed := ParseParts(v, b, sessionId, kind);
    if parsed.Err? { return Err(parsed.error); }
    var content := ParseContent(v, parsed.value.command, kind);
    return if content.Ok? then Ok((parsed.value, content.value)) else Err(content.error);
  }

  /** A queue id the broker parser takes for the start of a message: one of 69 bytes that
      starts with "RR ", or one of 80 bytes that starts with "ONG". */
  predicate Misread(queueId: bytes) {
    || (|queueId| == 69 && queueId[0] == 0x52 && queueId[1] == 0x52 && queueId[2] == 0x20)
    || (|queueId| == 80 && queueId[0] == 0x4f && queueId[1] == 0x4e && queueId[2] == 0x47)
  }

  lemma MisreadLooksBare(queueId: bytes, rest: bytes)
    requires |queueId| <= 255
    ensures LooksBare([|queueId|] + queueId + rest) <==> Misread(queueId)
  {
  }

  /** Parsing from the correlation id on. */
  lemma BodyInverts(t: Transmission, kind: Kind)
    requires Body(t).Ok?
    ensures EncodeSmall(t.corrId).Ok? && EncodeSmall(t.queueId).Ok?
    ensures var tail := EncodeSmall(t.queueId).value + t.command;
            && CutSmall(Body(t).value) == Ok(Taken(t.corrId, tail))
            && var r := CutQueueId(kind, tail);
               r.Ok? && (r.value == Taken(t.queueId, t.command) <==> kind != FromBroker || !Misread(t.queueId))
  {
    var tail := EncodeSmall(t.queueId).value + t.command;
    assert Body(t).value == EncodeSmall(t.corrId).value + tail;
    SmallFirst(t.corrId, tail);
    SmallFirst(t.queueId, t.command);
    MisreadLooksBare(t.queueId, t.command);
    hide CutSmall, Misread, LooksBare;
    assert |tail| == 1 + |t.queueId| + |t.command|;
  }

  /** Every part of a signed transmission comes back, for client transmissions always and
      for broker ones exactly if the queue id is not misread; and for every version the
      signed region rebuilt by the receiver is the one the sender signed. */
  lemma SignedInverts(v: nat, t: Transmission, signature: bytes, kind: Kind)
    requires EncodeSigned(v, t, signature).Ok?
    ensures var r := ParseSigned(v, EncodeSigned(v, t, signature).value, t.sessionId, kind);
            && r.Ok? && r.value.signature == signature && r.value.signed == SignedRegion(v, t).value
            && r.value.sessionId == t.sessionId && r.value.corrId == t.corrId
            && (r.value.queueId == t.queueId && r.value.command == t.command <==> kind != FromBroker || !Misread(t.queueId))
  {
    hide CutSmall, Cut, EncodeSmall, CutQueueId, Body, Misread;
    var body := WireBody(v, t).value;
    SmallFirst(signature, body);
    BodyInverts(t, kind);
    if v < 7 {
      SmallFirst(t.sessionId, Body(t).value);
      assert [] + body == body;
    }
  }

  /** A transmission as its receiver should see it. */
  function Seen(v: nat, t: Transmission, signature: bytes, content: Content): (Parsed, Content)
    requires SignedRegion(v, t).Ok?
  {
    (Parsed(signature, SignedRegion(v, t).value, t.sessionId, t.corrId, t.queueId, t.command), content)
  }

  /** A client transmission that carries an encoded command is read as sent: every part,
      and of the command what the version keeps. */
  lemma CommandArrives(v: nat, t: Transmission, signature: bytes, c: Command)
    requires EncodeSigned(v, t, signature).Ok? && EncodeCommand(v, c) == Ok(t.command)
    ensures ParseWhole(v, EncodeSigned(v, t, signature).value, t.sessionId, FromClient)
            == Ok(Seen(v, t, signature, Commanded(CanonicalCommand(v, c))))
  {
    SignedInverts(v, t, signature, FromClient);
    CommandInverts(v, c);
    hide ParseSigned, EncodeSigned, SignedRegion, ParseCommand, EncodeCommand, CanonicalCommand;
  }

  /** A broker transmission is read as sent exactly if its queue id is not misread and its
      message survives the trimming of texts. */
  lemma AnswerArrives(v: nat, t: Transmission, signature: bytes, m: BrokerMessage)
    requires 1 <= v && EncodeSigned(v, t, signature).Ok? && EncodeBroker(v, m) == Ok(t.command)
    ensures var r := ParseWhole(v, EncodeSigned(v, t, signature).value, t.sessionId, FromBroker);
            r == Ok(Seen(v, t, signature, Answered(CanonicalBroker(v, m)))) <==> !Misread(t.queueId) && Plain(m)
  {
    SignedInverts(v, t, signature, FromBroker);
    BrokerInverts(v, m);
    hide ParseSigned, EncodeSigned, SignedRegion, ParseBroker, EncodeBroker, CanonicalBroker, Plain, Misread;
  }

  // ---------------------------------------------------------------- blocks

  /** Large strings one after the other. */
  function Frames(transmissions: seq<bytes>): Result<bytes, Fault> {
    if transmissions == [] then Ok([])
    else Join(Frames(transmissions[..|transmissions| - 1]), EncodeLarge(transmissions[|transmissions| - 1]))
  }

  function EncodeBlock(v: nat, transmissions: seq<bytes>): Result<bytes, Fault> {
    if transmissions == [] then Err(BadBlock)
    else if v >= 4 then
      if |transmissions| > 255 then Err(BadBlock)
      else
        var body := Join(Ok([|transmissions|]), Frames(transmissions));
        if body.Err? then body else Pad(body.value, BLOCK_SIZE)
    else if |transmissions| != 1 then Err(BadBlock)
    else Pad(transmissions[0], BLOCK_SIZE)
  }

  /** `count` transmissions from the front of b, each parsed as it is cut. */
  function ParseBatch<X>(b: bytes, count: nat, parse: bytes -> Result<X, Fault>): Result<(seq<X>, bytes), Fault> {
    if count == 0 then Ok(([], b))
    else
      match CutLarge(b) case Err(e) => Err(e) case Ok(t) =>
      match parse(t.value) case Err(e) => Err(e) case Ok(first) =>
      match ParseBatch(t.rest, count - 1, parse)
      case Err(e) => Err(e) case Ok((others, rest)) => Ok(([first] + others, rest))
  }

  function DecodeBlock<X>(v: nat, block: bytes, parse: bytes -> Result<X, Fault>): Result<seq<X>, Fault> {
    match UnpadBlock(block, BLOCK_SIZE) case Err(e) => Err(e) case Ok(body) =>
      if v < 4 then (match parse(body) case Ok(x) => Ok([x]) case Err(e) => Err(e))
      else
        match CutByte(body) case Err(e) => Err(e) case Ok(count) =>
          if count.value < 1 then Err(BadBlock)
          else match ParseBatch(count.rest, count.value, parse)
               case Err(e) => Err(e)
               case Ok((all, rest)) => Done(all, rest)
  }

  /** The loop over the batch. */
  method TakeBatch<X>(reader: ByteReader, count: nat, parse: bytes -> Result<X, Fault>)
    returns (r: Result<seq<X>, Fault>)
    requires reader.Valid()
    modifies reader
    ensures reader.Valid()
    ensures match ParseBatch(old(reader.Rest()), count, parse)
            case Ok((all, rest)) => r == Ok(all) && reader.Rest() == rest
            case Err(e) => r == Err(e)
  {
    hide CutLarge;
    var transmissions, i := [], 0;
    ghost var result := ParseBatch(reader.Rest(), count, parse);
    NothingBefore(result);
    while i < count
      invariant 0 <= i <= count && reader.Valid()
      invariant Prepended(transmissions, ParseBatch(reader.Rest(), count - i, parse)) == result
    {
      var one := reader.TakeLarge();
      if one.Err? { return Err(one.error); }
      var parsed := parse(one.value);
      if parsed.Err? { return Err(parsed.error); }
      PrependedTwice(transmissions, parsed.value, ParseBatch(reader.Rest(), count - i - 1, parse));
      transmissions := transmissions + [parsed.value];
      i := i + 1;
    }
    assert transmissions + [] == transmissions;
    return Ok(transmissions);
  }

  /** decodeTransportBlock on its reader. */
  method DecodeTransportBlock<X>(v: nat, block: bytes, parse: bytes -> Result<X, Fault>)
    returns (r: Result<seq<X>, Fault>)
    ensures r == DecodeBlock(v, block, parse)
  {
    hide ParseBatch, UnpadBlock;
    var body := UnpadBlockLoop(block, BLOCK_SIZE);
    if body.Err? { return Err(body.error); }
    if v < 4 {
      var only := parse(body.value);
      return if only.Ok? then Ok([only.value]) else Err(only.error);
    }
    var reader := new ByteReader(body.value);
    var count := reader.TakeByte();
    if count.Err? { return Err(count.error); }
    if count.value < 1 { return Err(BadBlock); }
    var batch := TakeBatch(reader, count.value, parse);
    if batch.Err? { return Err(batch.error); }
    if reader.Rest() != [] { return Err(Syntax); }
    return batch;
  }

  lemma NothingBefore<X>(r: Result<(seq<X>, bytes), Fault>)
    ensures Prepended([], r) == r
  {
    if r.Ok? { assert [] + r.value.0 == r.value.0; }
  }

  function Prepended<X>(front: seq<X>, r: Result<(seq<X>, bytes), Fault>): Result<(seq<X>, bytes), Fault> {
    if r.Err? then r else Ok((front + r.value.0, r.value.1))
  }

  lemma PrependedTwice<X>(front: seq<X>, x: X, r: Result<(seq<X>, bytes), Fault>)
    ensures Prepended(front, Prepended([x], r)) == Prepended(front + [x], r)
  {
    if r.Ok? { assert front + ([x] + r.value.0) == front + [x] + r.value.0; }
  }

  function ParseAll<X>(transmissions: seq<bytes>, parse: bytes -> Result<X, Fault>): Result<seq<X>, Fault> {
    if transmissions == [] then Ok([])
    else
      match parse(transmissions[0]) case Err(e) => Err(e) case Ok(x) =>
      match ParseAll(transmissions[1..], parse) case Err(e) => Err(e) case Ok(xs) => Ok([x] + xs)
  }

  lemma {:induction false} FramesFirst(transmissions: seq<bytes>)
    requires transmissions != [] && Frames(transmissions).Ok?
    ensures |transmissions[0]| <= 0xffff && Frames(transmissions[1..]).Ok?
    ensures Frames(transmissions).value == EncodeLarge(transmissions[0]).value + Frames(transmissions[1..]).value
  {
    var n := |transmissions|;
    if n > 1 {
      FramesFirst(transmissions[..n - 1]);
      assert transmissions[..n - 1][1..] == transmissions[1..][..n - 2];
    }
  }

  lemma {:induction false} BatchInverts<X>(transmissions: seq<bytes>, parse: bytes -> Result<X, Fault>)
    requires Frames(transmissions).Ok?
    ensures ParseBatch(Frames(transmissions).value, |transmissions|, parse)
            == match ParseAll(transmissions, parse) case Ok(xs) => Ok((xs, [])) case Err(e) => Err(e)
    decreases |transmissions|
  {
    if transmissions != [] {
      FramesFirst(transmissions);
      LargeInverts(transmissions[0], Frames(transmissions[1..]).value);
      BatchInverts(transmissions[1..], parse);
    }
  }

  /** A block gives back what parsing each of its transmissions gives, in order: for one
      to 255 of them from version 4 on, for exactly one before. */
  lemma BlockInverts<X>(v: nat, transmissions: seq<bytes>, parse: bytes -> Result<X, Fault>)
    requires EncodeBlock(v, transmissions).Ok?
    ensures DecodeBlock(v, EncodeBlock(v, transmissions).value, parse) == ParseAll(transmissions, parse)
  {
    if v >= 4 {
      var frames := Frames(transmissions).value;
      UnpadInverts([|transmissions|] + frames, BLOCK_SIZE);
      assert ([|transmissions|] + frames)[1..] == frames;
      BatchInverts(transmissions, parse);
    } else {
      UnpadInverts(transmissions[0], BLOCK_SIZE);
      assert transmissions[1..] == [];
      var only := parse(transmissions[0]);
      if only.Ok? { assert [only.value] + [] == [only.value]; }
    }
  }

  function TotalLength(transmissions: seq<bytes>): nat {
    if transmissions == [] then 0
    else TotalLength(transmissions[..|transmissions| - 1]) + 2 + |transmissions[|transmissions| - 1]|
  }

  lemma {:induction false} FramesFit(transmissions: seq<bytes>)
    ensures TotalLength(transmissions) <= 0xffff ==> Frames(transmissions).Ok?
    ensures Frames(transmissions).Ok? ==> |Frames(transmissions).value| == TotalLength(transmissions)
  {
    if transmissions != [] { FramesFit(transmissions[..|transmissions| - 1]); }
  }

  /** Which batches make a block. */
  lemma BlockFits(v: nat, transmissions: seq<bytes>)
    ensures EncodeBlock(v, transmissions).Ok? <==>
              if v >= 4 then 1 <= |transmissions| <= 255 && 1 + TotalLength(transmissions) <= BLOCK_SIZE - 2
              else |transmissions| == 1 && |transmissions[0]| <= BLOCK_SIZE - 2
  {
    FramesFit(transmissions);
  }

  /** What one side sends: a transmission and what its command bytes say. */
  datatype Signed = Signed(t: Transmission, signature: bytes, content: Content)

  predicate Sendable(v: nat, kind: Kind, sessionId: bytes, s: Signed) {
    && EncodeSigned(v, s.t, s.signature).Ok? && s.t.sessionId == sessionId
    && match kind
       case FromClient => s.content.Commanded? && EncodeCommand(v, s.content.command) == Ok(s.t.command)
       case FromBroker => s.content.Answered? && EncodeBroker(v, s.content.message) == Ok(s.t.command)
       case Raw => s.content.Unread?
  }

  /** What version v keeps of it. */
  function Canonical(v: nat, c: Content): Content {
    match c
    case Commanded(command) => Commanded(CanonicalCommand(v, command))
    case Answered(message) => Answered(CanonicalBroker(v, message))
    case Unread => Unread
  }

  /** It is read as sent: always but for a broker's misread queue ids and trimmed texts. */
  predicate Arrives(kind: Kind, s: Signed) {
    kind == FromBroker && s.content.Answered? ==> !Misread(s.t.queueId) && Plain(s.content.message)
  }

  lemma OneArrives(v: nat, kind: Kind, sessionId: bytes, s: Signed)
    requires 1 <= v && Sendable(v, kind, sessionId, s)
    ensures SignedRegion(v, s.t).Ok?
    ensures var r := ParseWhole(v, EncodeSigned(v, s.t, s.signature).value, sessionId, kind);
            r == Ok(Seen(v, s.t, s.signature, Canonical(v, s.content))) <==> Arrives(kind, s)
  {
    match kind
    case FromClient =>
      CommandArrives(v, s.t, s.signature, s.content.command);
    case FromBroker =>
      AnswerArrives(v, s.t, s.signature, s.content.message);
    case Raw =>
      SignedInverts(v, s.t, s.signature, Raw);
      hide ParseSigned;
  }

  function EncodeAll(v: nat, all: seq<Signed>): seq<bytes>
    requires forall s :: s in all ==> EncodeSigned(v, s.t, s.signature).Ok?
  {
    if all == [] then [] else [EncodeSigned(v, all[0].t, all[0].signature).value] + EncodeAll(v, all[1..])
  }

  function SeenAll(v: nat, all: seq<Signed>): seq<(Parsed, Content)>
    requires forall s :: s in all ==> SignedRegion(v, s.t).Ok?
  {
    if all == [] then []
    else [Seen(v, all[0].t, all[0].signature, Canonical(v, all[0].content))] + SeenAll(v, all[1..])
  }

  lemma ConsEqual<X>(x: X, xs: seq<X>, y: X, ys: seq<X>)
    ensures [x] + xs == [y] + ys <==> x == y && xs == ys
  {
    assert ([x] + xs)[0] == x && ([x] + xs)[1..] == xs && ([y] + ys)[0] == y && ([y] + ys)[1..] == ys;
  }

  lemma {:induction false} AllArrive(v: nat, kind: Kind, sessionId: bytes, all: seq<Signed>)
    requires 1 <= v && forall s :: s in all ==> EncodeSigned(v, s.t, s.signature).Ok? && Sendable(v, kind, sessionId, s)
    ensures forall s :: s in all ==> SignedRegion(v, s.t).Ok?
    ensures var r := ParseAll(EncodeAll(v, all), b => ParseWhole(v, b, sessionId, kind));
            r == Ok(SeenAll(v, all)) <==> forall s :: s in all ==> Arrives(kind, s)
  {
    if all != [] {
      OneArrives(v, kind, sessionId, all[0]);
      AllArrive(v, kind, sessionId, all[1..]);
      hide ParseWhole, EncodeSigned, SignedRegion, Arrives, Canonical, Seen;
      assert EncodeAll(v, all)[1..] == EncodeAll(v, all[1..]);
      var parse := b => ParseWhole(v, b, sessionId, kind);
      var first, rest := parse(EncodeAll(v, all)[0]), ParseAll(EncodeAll(v, all[1..]), parse);
      if first.Ok? && rest.Ok? {
        ConsEqual(first.value, rest.value, SeenAll(v, all)[0], SeenAll(v, all[1..]));
      }
      assert forall s :: s in all <==> s == all[0] || s in all[1..];
    }
  }

  /** A block of signed transmissions of one session, commands or broker messages or raw, is
      received as it was sent: every part and content, in order, with the signed regions
      the senders signed; for broker messages exactly if each of them arrives. */
  lemma SignedBatchInverts(v: nat, kind: Kind, sessionId: bytes, all: seq<Signed>)
    requires 1 <= v && forall s :: s in all ==> EncodeSigned(v, s.t, s.signature).Ok? && Sendable(v, kind, sessionId, s)
    requires EncodeBlock(v, EncodeAll(v, all)).Ok?
    ensures forall s :: s in all ==> SignedRegion(v, s.t).Ok?
    ensures var r := DecodeBlock(v, EncodeBlock(v, EncodeAll(v, all)).value, b => ParseWhole(v, b, sessionId, kind));
            r == Ok(SeenAll(v, all)) <==> forall s :: s in all ==> Arrives(kind, s)
  {
    hide EncodeBlock, DecodeBlock, ParseWhole, EncodeSigned, Arrives;
    BlockInverts(v, EncodeAll(v, all), b => ParseWhole(v, b, sessionId, kind));
    AllArrive(v, kind, sessionId, all);
  }
}
