/** The WebSocket side of the native relay (src/browser-smp-native-tls-relay.mjs):
    how buffered bytes become frames, blocks and actions.  Frames are those of
    section 5.2 of RFC 6455. */
module Relay {
  import opened Outcomes
  import opened Bytes

  datatype Frame = Frame(final: bool, opcode: nat, payload: bytes)

  datatype RelayFault = FrameTooLarge | NotMasked

  /** None while more bytes are needed. */
  datatype Decoded = NeedMore | Decoded(frame: Frame, rest: bytes)

  function Unmask(payload: bytes, mask: bytes): bytes
    requires |mask| == 4
  {
    seq(|payload|, i requires 0 <= i < |payload| => Xor(payload[i], mask[i % 4]))
  }

  /** Length field and the offset behind it, once enough bytes are there. */
  function FrameLength(b: bytes): Result<Option<(nat, nat)>, RelayFault>
    requires |b| >= 2
  {
    var short := b[1] % 0x80;
    if short == 126 then
      if |b| < 4 then Ok(None) else Ok(Some((DecodeWord16(b[2..4]), 4)))
    else if short == 127 then
      if |b| < 10 then Ok(None)
      else if FromBigEndian(b[2..10]) > MAX_SAFE then Err(FrameTooLarge)
      else Ok(Some((FromBigEndian(b[2..10]), 10)))
    else Ok(Some((short, 2)))
  }

  function Decode(b: bytes): Result<Decoded, RelayFault> {
    if |b| < 2 then Ok(NeedMore)
    else
      match FrameLength(b)
      case Err(e) => Err(e)
      case Ok(None) => Ok(NeedMore)
      case Ok(Some((length, offset))) =>
        if b[1] < 0x80 then Err(NotMasked)
        else if |b| < offset + 4 + length then Ok(NeedMore)
        else Ok(Decoded(Frame(b[0] >= 0x80, b[0] % 0x10, Unmask(b[offset + 4..offset + 4 + length], b[offset..offset + 4])),
                        b[offset + 4 + length..]))
  }

  /** The source unmasks a copy of the payload in place. */
  method DecodeClientFrame(b: bytes) returns (r: Result<Decoded, RelayFault>)
    ensures r == Decode(b)
  {
    if |b| < 2 { return Ok(NeedMore); }
    var length: nat, offset: nat := b[1] % 0x80, 2;
    if length == 126 {
      if |b| < offset + 2 { return Ok(NeedMore); }
      length := DecodeWord16(b[offset..offset + 2]);
      offset := offset + 2;
    } else if length == 127 {
      if |b| < offset + 8 { return Ok(NeedMore); }
      var wide := FromBigEndian(b[offset..offset + 8]);
      if wide > MAX_SAFE { return Err(FrameTooLarge); }
      length := wide;
      offset := offset + 8;
    }
    if b[1] < 0x80 { return Err(NotMasked); }
    if |b| < offset + 4 + length { return Ok(NeedMore); }
    var mask := b[offset..offset + 4];
    offset := offset + 4;
    var masked := b[offset..offset + length];
    var payload := UnmaskInPlace(masked, mask);
    return Ok(Decoded(Frame(b[0] >= 0x80, b[0] % 0x10, payload), b[offset + length..]));
  }

  /** The unmasking loop over the copied payload. */
  method UnmaskInPlace(masked: bytes, mask: bytes) returns (r: bytes)
    requires |mask| == 4
    ensures r == Unmask(masked, mask)
  {
    hide Xor;
    var payload: array<byte> := new byte[|masked|](i requires 0 <= i < |masked| => masked[i]);
    for i := 0 to |masked|
      invariant forall k :: 0 <= k < i ==> payload[k] == Xor(masked[k], mask[k % 4])
      invariant forall k :: i <= k < |masked| ==> payload[k] == masked[k]
    {
      payload[i] := Xor(payload[i], mask[i % 4]);
    }
    return payload[..];
  }

  function FrameHead(f: Frame): (head: bytes)
    requires f.opcode < 0x10 && |f.payload| <= MAX_SAFE
    ensures |head| == if |f.payload| < 126 then 2 else if |f.payload| <= 0xffff then 4 else 10
  {
    var n := |f.payload|;
    [f.opcode + (if f.final then 0x80 else 0)]
    + (if n < 126 then [0x80 + n]
       else if n <= 0xffff then [0x80 + 126] + EncodeWord16(n)
       else [0x80 + 127] + BigEndian(n, 8))
  }

  /** A client frame as the RFC writes it, with the shortest length form. */
  function ClientFrame(f: Frame, mask: bytes): bytes
    requires f.opcode < 0x10 && |mask| == 4 && |f.payload| <= MAX_SAFE
  {
    FrameHead(f) + mask + Unmask(f.payload, mask)
  }

  lemma FrameParts(head: bytes, mask: bytes, masked: bytes, rest: bytes)
    ensures var b, m, n := head + mask + masked + rest, |head|, |head| + |mask|;
            && b[m..n] == mask && b[n..n + |masked|] == masked && b[n + |masked|..] == rest
  {
  }

  lemma UnmaskTwice(payload: bytes, mask: bytes)
    requires |mask| == 4
    ensures Unmask(Unmask(payload, mask), mask) == payload
  {
    forall i | 0 <= i < |payload| ensures Unmask(Unmask(payload, mask), mask)[i] == payload[i] {
      XorTwice(payload[i], mask[i % 4]);
    }
  }

  /** A frame a client may send is read back, with whatever follows it untouched. */
  lemma DecodeInverts(f: Frame, mask: bytes, rest: bytes)
    requires f.opcode < 0x10 && |mask| == 4 && |f.payload| <= MAX_SAFE
    ensures Decode(ClientFrame(f, mask) + rest) == Ok(Decoded(f, rest))
  {
    var n, b := |f.payload|, ClientFrame(f, mask) + rest;
    var offset := if n < 126 then 2 else if n <= 0xffff then 4 else 10;
    LengthReads(f, mask, rest);
    UnmaskTwice(f.payload, mask);
    FrameParts(FrameHead(f), mask, Unmask(f.payload, mask), rest);
    hide FrameLength, FrameHead, Unmask;
  }

  lemma LengthReads(f: Frame, mask: bytes, rest: bytes)
    requires f.opcode < 0x10 && |mask| == 4 && |f.payload| <= MAX_SAFE
    ensures var n, b := |f.payload|, ClientFrame(f, mask) + rest;
            && |b| >= 2 && b[0] == f.opcode + (if f.final then 0x80 else 0) && b[1] >= 0x80
            && FrameLength(b) == Ok(Some((n, if n < 126 then 2 else if n <= 0xffff then 4 else 10)))
  {
    hide Unmask;
    var n, b := |f.payload|, ClientFrame(f, mask) + rest;
    if n > 0xffff {
      assert b[2..10] == BigEndian(n, 8);
      assert Pow256(8) >= 0x1_0000_0000_0000_0000 by {
        assert Pow256(4) == 0x1_0000_0000;
        assert Pow256(6) == 0x1_0000_0000_0000;
      }
      BigEndianInverts(n, 8);
    } else if n >= 126 {
      assert b[2..4] == EncodeWord16(n);
    }
  }

  lemma DecodeConsumes(b: bytes)
    ensures var r := Decode(b); r.Ok? && r.value.Decoded? ==> |r.value.rest| < |b|
  {
  }

  /** More bytes behind a frame, or behind a fault, change nothing about it. */
  lemma DecodeExtends(b: bytes, more: bytes)
    ensures match Decode(b)
            case Err(e) => Decode(b + more) == Err(e)
            case Ok(Decoded(frame, rest)) => Decode(b + more) == Ok(Decoded(frame, rest + more))
            case Ok(NeedMore) => true
  {
    if |b| >= 2 {
      var all := b + more;
      assert |b| >= 4 ==> all[2..4] == b[2..4];
      assert |b| >= 10 ==> all[2..10] == b[2..10];
      match FrameLength(b)
      case Ok(Some((length, offset))) =>
        if |b| >= offset + 4 + length {
          assert all[offset..offset + 4] == b[offset..offset + 4];
          assert all[offset + 4..offset + 4 + length] == b[offset + 4..offset + 4 + length];
          assert all[offset + 4 + length..] == b[offset + 4 + length..] + more;
        }
      case _ =>
    }
  }

  // ---------------------------------------------------- the data handler

  datatype Action = Forward(block: bytes) | Pong(payload: bytes) | Close(code: nat)

  /** The connection as the handler keeps it; a closed one ignores later data. */
  datatype Connection = Connection(buffer: bytes, open: bool, actions: seq<Action>)

  function Act(f: Frame): Action {
    if f.opcode == 0x8 then Close(1000)
    else if f.opcode == 0x9 then Pong(f.payload)
    else if !f.final || f.opcode != 0x2 || |f.payload| != BLOCK_SIZE then Close(1003)
    else Forward(f.payload)
  }

  function Drain(c: Connection): Connection
    decreases |c.buffer|
  {
    if !c.open then c
    else
      match Decode(c.buffer)
      case Err(_) => Connection([], false, c.actions + [Close(1002)])
      case Ok(NeedMore) => c
      case Ok(Decoded(f, rest)) =>
        DecodeConsumes(c.buffer);
        if Act(f).Close? then Connection([], false, c.actions + [Act(f)])
        else Drain(Connection(rest, true, c.actions + [Act(f)]))
  }

  function OnData(c: Connection, chunk: bytes): Connection {
    if !c.open then c else Drain(c.(buffer := c.buffer + chunk))
  }

  method HandleData(c: Connection, chunk: bytes) returns (r: Connection)
    ensures r == OnData(c, chunk)
  {
    if !c.open { return c; }
    r := c.(buffer := c.buffer + chunk);
    while true
      invariant r.open && Drain(r) == OnData(c, chunk)
      decreases |r.buffer|
    {
      var d := DecodeClientFrame(r.buffer);
      DecodeConsumes(r.buffer);
      if d.Err? { return Connection([], false, r.actions + [Close(1002)]); }
      if d.value.NeedMore? { return r; }
      var action := Act(d.value.frame);
      if action.Close? { return Connection([], false, r.actions + [action]); }
      r := Connection(d.value.rest, true, r.actions + [action]);
    }
  }

  function Feed(c: Connection, chunks: seq<bytes>): Connection
    decreases |chunks|
  {
    if chunks == [] then c else Feed(OnData(c, chunks[0]), chunks[1..])
  }

  function Flatten(chunks: seq<bytes>): bytes {
    if chunks == [] then [] else chunks[0] + Flatten(chunks[1..])
  }

  lemma {:induction false} DrainThenMore(c: Connection, more: bytes)
    ensures OnData(Drain(c), more) == OnData(c, more)
    decreases |c.buffer|
  {
    if c.open {
      DecodeExtends(c.buffer, more);
      match Decode(c.buffer)
      case Ok(Decoded(f, rest)) =>
        DecodeConsumes(c.buffer);
        if !Act(f).Close? { DrainThenMore(Connection(rest, true, c.actions + [Act(f)]), more); }
      case _ =>
    }
  }

  lemma OnDataTwice(c: Connection, a: bytes, b: bytes)
    ensures OnData(OnData(c, a), b) == OnData(c, a + b)
  {
    hide Drain;
    if c.open {
      DrainThenMore(c.(buffer := c.buffer + a), b);
      assert (c.buffer + a) + b == c.buffer + (a + b);
    }
  }

  /** However the byte stream is cut into data events, the same frames are extracted:
      the same actions in the same order, the same bytes left, open or closed alike. */
  lemma {:induction false} CutsDoNotMatter(c: Connection, chunks: seq<bytes>)
    ensures chunks != [] ==> Feed(c, chunks) == OnData(c, Flatten(chunks))
    decreases |chunks|
  {
    if |chunks| == 1 {
      assert Flatten(chunks) == chunks[0] + [] == chunks[0];
    } else if chunks != [] {
      CutsDoNotMatter(OnData(c, chunks[0]), chunks[1..]);
      OnDataTwice(c, chunks[0], Flatten(chunks[1..]));
    }
  }

  /** What one frame is answered with: binary messages of one block are forwarded, pings
      answered, and all else ends the connection. */
  predicate Suits(f: Frame, a: Action) {
    if f.opcode == 8 then a == Close(1000)
    else if f.opcode == 9 then a == Pong(f.payload)
    else if f.final && f.opcode == 2 && |f.payload| == 16384 then a == Forward(f.payload)
    else a == Close(1003)
  }

  predicate Ends(f: Frame) {
    f.opcode != 9 && !(f.final && f.opcode == 2 && |f.payload| == 16384)
  }

  /** A frame and the mask its sender chose. */
  datatype Masked = Masked(frame: Frame, mask: bytes) {
    predicate Sendable() {
      frame.opcode < 0x10 && |mask| == 4 && |frame.payload| <= MAX_SAFE
    }
  }

  /** The first `n` frames have been answered, and the last of them alone may have ended
      the connection. */
  ghost predicate AnsweredFirst(frames: seq<Masked>, n: nat, c: Connection, r: Connection) {
    && n <= |frames| && c.actions <= r.actions && |r.actions| == |c.actions| + n && r.buffer == []
    && (forall k :: 0 <= k < n ==> Suits(frames[k].frame, r.actions[|c.actions| + k]))
    && (forall k :: 0 <= k < n - 1 ==> !Ends(frames[k].frame))
    && (r.open <==> n == 0 || !Ends(frames[n - 1].frame))
    && (r.open ==> n == |frames|)
  }

  function Stream(frames: seq<Masked>): bytes
    requires forall k :: 0 <= k < |frames| ==> frames[k].Sendable()
  {
    if frames == [] then []
    else
      assert frames[0].Sendable();
      ClientFrame(frames[0].frame, frames[0].mask) + Stream(frames[1..])
  }

  lemma FrameDrains(c: Connection, f: Frame, mask: bytes, rest: bytes)
    requires c.open && Masked(f, mask).Sendable() && c.buffer == ClientFrame(f, mask) + rest
    ensures Drain(c) == if Ends(f) then Connection([], false, c.actions + [Act(f)])
                        else Drain(Connection(rest, true, c.actions + [Act(f)]))
    ensures Suits(f, Act(f))
  {
    DecodeInverts(f, mask, rest);
    hide Decode, ClientFrame;
  }

  lemma AnsweredOneMore(frames: seq<Masked>, n: nat, c: Connection, a: Action, r: Connection)
    requires frames != [] && Suits(frames[0].frame, a) && !Ends(frames[0].frame)
    requires AnsweredFirst(frames[1..], n, Connection([], true, c.actions + [a]), r)
    ensures AnsweredFirst(frames, n + 1, c, r)
  {
    hide Suits, Ends;
    var tail := frames[1..];
    forall k | 0 <= k < n + 1 ensures Suits(frames[k].frame, r.actions[|c.actions| + k]) {
      if k > 0 { assert tail[k - 1] == frames[k]; }
    }
    forall k | 0 <= k < n ensures !Ends(frames[k].frame) {
      if k > 0 { assert tail[k - 1] == frames[k]; }
    }
    if n > 0 { assert tail[n - 1] == frames[n]; }
  }

  lemma EndsAtOnce(frames: seq<Masked>, c: Connection, a: Action)
    requires frames != [] && Suits(frames[0].frame, a) && Ends(frames[0].frame)
    ensures AnsweredFirst(frames, 1, c, Connection([], false, c.actions + [a]))
  {
  }

  /** Of any frames a client sends each is answered as it should be, in order, up to the
      first that ends the connection. */
  lemma {:induction false} FramesAnswered(c: Connection, frames: seq<Masked>) returns (n: nat)
    requires c.open && c.buffer == [] && forall k :: 0 <= k < |frames| ==> frames[k].Sendable()
    ensures AnsweredFirst(frames, n, c, OnData(c, Stream(frames)))
    decreases |frames|
  {
    if frames == [] {
      n := 0;
      assert c.buffer + [] == [];
    } else {
      hide ClientFrame, Act, Suits, Drain, AnsweredFirst;
      assert frames[0].Sendable();
      var f, rest := frames[0].frame, Stream(frames[1..]);
      assert c.buffer + Stream(frames) == ClientFrame(f, frames[0].mask) + rest;
      FrameDrains(c.(buffer := Stream(frames)), f, frames[0].mask, rest);
      var next := Connection([], true, c.actions + [Act(f)]);
      assert next.buffer + rest == rest;
      if Ends(f) {
        n := 1;
        EndsAtOnce(frames, c, Act(f));
      } else {
        n := FramesAnswered(next, frames[1..]);
        AnsweredOneMore(frames, n, c, Act(f), OnData(next, rest));
        n := n + 1;
      }
    }
  }

  /** A frame without a mask, or one longer than a number can say, ends the connection as
      soon as its length is there, whatever has been answered before. */
  lemma BadFrameEnds(c: Connection, chunk: bytes)
    requires c.open
    requires var b := c.buffer + chunk;
             || (|b| >= 10 && (b[1] < 128 || (b[1] == 255 && FromBigEndian(b[2..10]) > 9007199254740991)))
             || (|b| >= 2 && b[1] < 126)
    ensures OnData(c, chunk) == Connection([], false, c.actions + [Close(1002)])
  {
  }

  // ------------------------------------------------ blocks of the native stream

  /** A native block keeps the browser payload but fills with zero bytes. */
  function NativeFromBrowser(block: bytes): Result<bytes, Fault> {
    var body := UnpadBlock(block, BLOCK_SIZE);
    if body.Err? then body
    else Ok(EncodeWord16(|body.value|) + body.value + Repeat(0, BLOCK_SIZE - 2 - |body.value|))
  }

  function BrowserFromNative(block: bytes): Result<bytes, Fault> {
    if |block| != BLOCK_SIZE then Err(BadBlock)
    else
      var n := DecodeWord16(block);
      if n < 5 || n > |block| - 2 then Err(BadBlock) else Pad(block[2..2 + n], BLOCK_SIZE)
  }

  /** A block crosses the relay and back unchanged exactly when its payload has at
      least the five bytes the native side demands. */
  lemma BlockThereAndBack(block: bytes)
    requires UnpadBlock(block, BLOCK_SIZE).Ok?
    ensures var native := NativeFromBrowser(block);
            && native.Ok?
            && (BrowserFromNative(native.value) == Ok(block) <==> |UnpadBlock(block, BLOCK_SIZE).value| >= 5)
  {
    var body, native := UnpadBlock(block, BLOCK_SIZE).value, NativeFromBrowser(block).value;
    PadInverts(block, BLOCK_SIZE);
    assert DecodeWord16(native) == |body|;
    assert native[2..2 + |body|] == body;
  }

  /** The two forms of a block.  The native one: the payload's length, high byte first, the
      payload, and zeros; and only its length is looked at on the way back. */
  lemma NativeForm(block: bytes, payload: bytes, native: bytes)
    requires UnpadBlock(block, BLOCK_SIZE) == Ok(payload) && |native| == 16384
    ensures NativeFromBrowser(block) == Ok(native)
            <==> && native[0] as int * 256 + native[1] == |payload| && native[2..2 + |payload|] == payload
                 && forall i :: 2 + |payload| <= i < 16384 ==> native[i] == 0
    ensures BrowserFromNative(native) == Ok(block)
            <==> native[0] as int * 256 + native[1] == |payload| && native[2..2 + |payload|] == payload && |payload| >= 5
  {
    PadInverts(block, BLOCK_SIZE);
    FilledForm(payload, 0, BLOCK_SIZE, native);
    BackForm(block, payload, native);
  }

  lemma BackForm(block: bytes, payload: bytes, native: bytes)
    requires UnpadBlock(block, BLOCK_SIZE) == Ok(payload) && |native| == 16384
    ensures BrowserFromNative(native) == Ok(block)
            <==> native[0] as int * 256 + native[1] == |payload| && native[2..2 + |payload|] == payload && |payload| >= 5
  {
    PadInverts(block, BLOCK_SIZE);
    var back := BrowserFromNative(native);
    if back.Ok? { UnpadInverts(native[2..2 + DecodeWord16(native)], BLOCK_SIZE); }
  }

  /** The native side as its handler keeps it: bytes not yet handled, blocks written to the
      browser, and how many data events ended in a throw. */
  datatype Native = Native(buffer: bytes, written: seq<bytes>, throws: nat)

  predicate Convertible(block: bytes) {
    BrowserFromNative(block).Ok?
  }

  /** The block is taken off the buffer before it is converted; a block that does not
      convert ends the event and leaves all behind it buffered. */
  function CutBlocks(s: Native): Native
    decreases |s.buffer|
  {
    if |s.buffer| < BLOCK_SIZE then s
    else
      match BrowserFromNative(s.buffer[..BLOCK_SIZE])
      case Err(_) => Native(s.buffer[BLOCK_SIZE..], s.written, s.throws + 1)
      case Ok(block) => CutBlocks(Native(s.buffer[BLOCK_SIZE..], s.written + [block], s.throws))
  }

  function Arrived(s: Native, chunk: bytes): Native {
    CutBlocks(s.(buffer := s.buffer + chunk))
  }

  method OnNativeData(s: Native, chunk: bytes) returns (r: Native)
    ensures r == Arrived(s, chunk)
  {
    r := s.(buffer := s.buffer + chunk);
    while |r.buffer| >= BLOCK_SIZE
      invariant CutBlocks(r) == Arrived(s, chunk)
      decreases |r.buffer|
    {
      var block := r.buffer[..BLOCK_SIZE];
      var converted := BrowserFromNative(block);
      r := r.(buffer := r.buffer[BLOCK_SIZE..]);
      if converted.Err? { return r.(throws := r.throws + 1); }
      r := r.(written := r.written + [converted.value]);
    }
  }

  function FeedNative(s: Native, chunks: seq<bytes>): Native
    decreases |chunks|
  {
    if chunks == [] then s else FeedNative(Arrived(s, chunks[0]), chunks[1..])
  }

  /** Every whole block converts, but for the last one perhaps. */
  predicate Smooth(stream: bytes) {
    |stream| < 2 * BLOCK_SIZE || (Convertible(stream[..BLOCK_SIZE]) && Smooth(stream[BLOCK_SIZE..]))
  }

  lemma {:induction false} CutThenMore(s: Native, more: bytes)
    requires Smooth(s.buffer + more)
    ensures Arrived(CutBlocks(s), more) == Arrived(s, more) && Smooth(CutBlocks(s).buffer + more)
    decreases |s.buffer|
  {
    if |s.buffer| >= BLOCK_SIZE {
      var all := s.buffer + more;
      assert all[BLOCK_SIZE..] == s.buffer[BLOCK_SIZE..] + more && all[..BLOCK_SIZE] == s.buffer[..BLOCK_SIZE];
      match BrowserFromNative(s.buffer[..BLOCK_SIZE])
      case Err(_) =>
      case Ok(block) => CutThenMore(Native(s.buffer[BLOCK_SIZE..], s.written + [block], s.throws), more);
    }
  }

  lemma {:induction false} SmoothFeeds(s: Native, chunks: seq<bytes>)
    requires chunks != [] && Smooth(s.buffer + Flatten(chunks))
    ensures FeedNative(s, chunks) == Arrived(s, Flatten(chunks))
    decreases |chunks|
  {
    var first := s.(buffer := s.buffer + chunks[0]);
    if |chunks| == 1 {
      assert Flatten(chunks) == chunks[0] + [] == chunks[0];
      assert FeedNative(s, chunks) == FeedNative(Arrived(s, chunks[0]), []);
    } else {
      assert first.buffer + Flatten(chunks[1..]) == s.buffer + Flatten(chunks);
      CutThenMore(first, Flatten(chunks[1..]));
      SmoothFeeds(CutBlocks(first), chunks[1..]);
    }
  }

  /** The end of the first block that does not convert. */
  function BadEnd(stream: bytes): (e: nat)
    requires !Smooth(stream)
    ensures BLOCK_SIZE <= e <= |stream| - BLOCK_SIZE
  {
    if !Convertible(stream[..BLOCK_SIZE]) then BLOCK_SIZE else BLOCK_SIZE + BadEnd(stream[BLOCK_SIZE..])
  }

  lemma {:induction false} CutBlocksConsumes(s: Native)
    requires |s.buffer| >= BLOCK_SIZE
    ensures |CutBlocks(s).buffer| < |s.buffer|
    decreases |s.buffer|
  {
    var rest := s.buffer[BLOCK_SIZE..];
    match BrowserFromNative(s.buffer[..BLOCK_SIZE])
    case Err(_) =>
    case Ok(block) => if |rest| >= BLOCK_SIZE { CutBlocksConsumes(Native(rest, s.written + [block], s.throws)); }
  }

  lemma FirstBlock(s: Native)
    requires |s.buffer| >= BLOCK_SIZE
    ensures var rest := s.buffer[BLOCK_SIZE..];
            CutBlocks(s) == match BrowserFromNative(s.buffer[..BLOCK_SIZE])
                            case Err(_) => Native(rest, s.written, s.throws + 1)
                            case Ok(block) => CutBlocks(Native(rest, s.written + [block], s.throws))
  {
  }

  /** A data event that ends with the bad block lets the next one go on behind it. */
  lemma {:induction false} CutMatters(s: Native)
    requires !Smooth(s.buffer)
    ensures var e := BadEnd(s.buffer);
            Arrived(CutBlocks(s.(buffer := s.buffer[..e])), s.buffer[e..]) != CutBlocks(s)
    decreases |s.buffer|
  {
    var b, e, rest := s.buffer, BadEnd(s.buffer), s.buffer[BLOCK_SIZE..];
    FirstBlock(s);
    FirstBlock(s.(buffer := b[..e]));
    assert b[..e][..BLOCK_SIZE] == b[..BLOCK_SIZE] && b[..e][BLOCK_SIZE..] == rest[..e - BLOCK_SIZE];
    match BrowserFromNative(b[..BLOCK_SIZE])
    case Err(_) =>
      hide CutBlocks, BrowserFromNative;
      assert e == BLOCK_SIZE && [] + b[e..] == rest;
      CutBlocksConsumes(Native(rest, s.written, s.throws + 1));
    case Ok(block) =>
      hide CutBlocks, BrowserFromNative;
      assert b[e..] == rest[e - BLOCK_SIZE..];
      CutMatters(Native(rest, s.written + [block], s.throws));
  }

  lemma TwoEvents(s: Native, a: bytes, b: bytes)
    ensures FeedNative(s, [a, b]) == Arrived(Arrived(s, a), b) && Flatten([a, b]) == a + b
  {
    hide CutBlocks, Arrived;
    assert [a, b][1..] == [b] && FeedNative(Arrived(s, a), [b]) == FeedNative(Arrived(Arrived(s, a), b), [b][1..]);
    assert Flatten([b]) == b + [] == b;
  }

  lemma BadCut(s: Native, stream: bytes) returns (c0: bytes, c1: bytes)
    requires |s.buffer| < BLOCK_SIZE && !Smooth(s.buffer + stream)
    ensures c0 != [] && c1 != [] && Flatten([c0, c1]) == stream
    ensures FeedNative(s, [c0, c1]) != Arrived(s, stream)
  {
    var all := s.buffer + stream;
    var e := BadEnd(all);
    c0, c1 := stream[..e - |s.buffer|], stream[e - |s.buffer|..];
    CutMatters(s.(buffer := all));
    TwoEvents(s, c0, c1);
    hide CutBlocks, Smooth, FeedNative, Flatten, BadEnd;
    assert c0 + c1 == stream && all[..e] == s.buffer + c0 && all[e..] == c1;
    assert s.(buffer := all).(buffer := all[..e]) == s.(buffer := s.buffer + c0);
  }

  /** However the native stream is cut into data events, the same blocks are written, the
      same bytes kept and the same number of events throws, if and only if every whole
      block before the last converts. */
  lemma NativeCutsMatterExactly(s: Native, stream: bytes)
    requires |s.buffer| < BLOCK_SIZE
    ensures (forall chunks: seq<bytes> :: chunks != [] && [] !in chunks && Flatten(chunks) == stream ==>
               FeedNative(s, chunks) == Arrived(s, stream))
            <==> Smooth(s.buffer + stream)
  {
    var all := s.buffer + stream;
    if Smooth(all) {
      forall chunks: seq<bytes> | chunks != [] && [] !in chunks && Flatten(chunks) == stream
        ensures FeedNative(s, chunks) == Arrived(s, stream)
      {
        SmoothFeeds(s, chunks);
      }
    } else {
      var c0, c1 := BadCut(s, stream);
      hide CutBlocks, Arrived, Smooth, FeedNative, Flatten;
      assert FeedNative(s, [c0, c1]) != Arrived(s, stream);
    }
  }

  predicate AllConvert(stream: bytes) {
    |stream| < BLOCK_SIZE || (Convertible(stream[..BLOCK_SIZE]) && AllConvert(stream[BLOCK_SIZE..]))
  }

  function Converted(stream: bytes): seq<bytes>
    requires AllConvert(stream)
  {
    if |stream| < BLOCK_SIZE then []
    else [BrowserFromNative(stream[..BLOCK_SIZE]).value] + Converted(stream[BLOCK_SIZE..])
  }

  /** No event throws exactly if every whole block converts, and then every one of them is
      written, in order, and less than a block stays buffered. */
  lemma {:induction false} AllWritten(s: Native)
    ensures s.throws <= CutBlocks(s).throws
    ensures CutBlocks(s).throws == s.throws <==> AllConvert(s.buffer)
    ensures AllConvert(s.buffer) ==>
      CutBlocks(s).written == s.written + Converted(s.buffer) && |CutBlocks(s).buffer| == |s.buffer| % BLOCK_SIZE
    decreases |s.buffer|
  {
    if |s.buffer| >= BLOCK_SIZE {
      match BrowserFromNative(s.buffer[..BLOCK_SIZE])
      case Err(_) =>
      case Ok(block) => AllWritten(Native(s.buffer[BLOCK_SIZE..], s.written + [block], s.throws));
    }
  }
}
