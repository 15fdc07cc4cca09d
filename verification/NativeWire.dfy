/** Bytes of a native ratchet packet (src/browser-simplex-native-ratchet.mjs).  The
    length of a part takes one byte below version 3 and two from it on, and the reader
    guesses which from the first byte. */
module NativeWire {
  import opened Outcomes
  import opened Bytes

  const IV: nat := 16
  const TAG: nat := 16

  function MaybeLarge(version: nat, b: bytes): Result<bytes, Fault> {
    if version >= 3 then EncodeLarge(b) else EncodeSmall(b)
  }

  /** slice: ends past the input are cut. */
  function Slice(b: bytes, from: nat, to: nat): bytes {
    var hi := if to <= |b| then to else |b|;
    if from < hi then b[from..hi] else []
  }

  datatype Part = Part(value: bytes, next: nat)

  /** Past the end of the input nothing is read that any caller accepts. */
  function ReadMaybeLarge(b: bytes, offset: nat): Result<Part, Fault> {
    if offset >= |b| then Err(Truncated)
    else if b[offset] < 32 then
      if offset + 2 > |b| then Err(Truncated)
      else
        var length := b[offset] as int * 0x100 + b[offset + 1];
        Ok(Part(Slice(b, offset + 2, offset + 2 + length), offset + 2 + length))
    else Ok(Part(Slice(b, offset + 1, offset + 1 + b[offset]), offset + 1 + b[offset]))
  }

  /** A part is read back, with the position after it, exactly if a one-byte length is at
      least 32 or a two-byte length is below 8192. */
  lemma PartInverts(version: nat, before: bytes, b: bytes, rest: bytes)
    requires MaybeLarge(version, b).Ok?
    ensures var part := MaybeLarge(version, b).value;
            ReadMaybeLarge(before + part + rest, |before|) == Ok(Part(b, |before| + |part|))
            <==> if version >= 3 then |b| < 8192 else |b| >= 32
  {
    var part, o := MaybeLarge(version, b).value, |before|;
    var all := before + part + rest;
    assert all[o] == part[0];
    if version >= 3 {
      assert all[o + 1] == part[1];
      assert all[o + 2..o + 2 + |b|] == b;
    } else if |b| > 0 {
      assert all[o + 1] == part[1] == b[0];
      assert all[o + 1..o + 1 + |b|] == b;
    }
  }

  datatype Sealed = Sealed(version: nat, iv: bytes, tag: bytes, body: bytes)

  function EncodeSealed(s: Sealed): Result<bytes, Fault>
    requires s.version <= 0xffff
  {
    var body := MaybeLarge(s.version, s.body);
    if body.Err? then body else Ok(EncodeWord16(s.version) + s.iv + s.tag + body.value)
  }

  function ParseSealed(b: bytes): Result<Sealed, Fault> {
    if |b| < 34 then Err(Truncated)
    else
      match ReadMaybeLarge(b, 34)
      case Err(e) => Err(e)
      case Ok(part) =>
        if part.next != |b| then Err(Syntax) else Ok(Sealed(DecodeWord16(b), b[2..18], b[18..34], part.value))
  }

  datatype Packet = Packet(header: Sealed, tag: bytes, body: bytes)

  function EncodePacket(p: Packet): Result<bytes, Fault>
    requires p.header.version <= 0xffff
  {
    var header := EncodeSealed(p.header);
    if header.Err? then header
    else
      var part := MaybeLarge(p.header.version, header.value);
      if part.Err? then part else Ok(part.value + p.tag + p.body)
  }

  function ParsePacket(b: bytes): Result<Packet, Fault> {
    match ReadMaybeLarge(b, 0)
    case Err(e) => Err(e)
    case Ok(part) =>
      match ParseSealed(part.value)
      case Err(e) => Err(e)
      case Ok(header) =>
        Ok(Packet(header, Slice(b, part.next, part.next + TAG), Slice(b, part.next + TAG, |b|)))
  }

  lemma SealedInverts(s: Sealed)
    requires s.version <= 0xffff && |s.iv| == IV && |s.tag| == TAG && EncodeSealed(s).Ok?
    requires if s.version >= 3 then |s.body| < 8192 else |s.body| >= 32
    ensures ParseSealed(EncodeSealed(s).value) == Ok(s)
  {
    var head := EncodeWord16(s.version) + s.iv + s.tag;
    var b := EncodeSealed(s).value;
    PartInverts(s.version, head, s.body, []);
    assert head + MaybeLarge(s.version, s.body).value + [] == b;
    assert b[2..18] == s.iv && b[18..34] == s.tag;
  }

  lemma SealedLength(s: Sealed)
    requires s.version <= 0xffff && |s.iv| == IV && |s.tag| == TAG && EncodeSealed(s).Ok?
    ensures |s.body| + 35 <= |EncodeSealed(s).value| <= |s.body| + 36
  {
  }

  /** A packet of this program, whose sealed header text has a fixed length from 32 to
      8000 bytes, is read back part by part in every version, whatever its body. */
  lemma PacketInverts(p: Packet)
    requires p.header.version <= 0xffff && |p.header.iv| == IV && |p.header.tag| == TAG && |p.tag| == TAG
    requires 32 <= |p.header.body| <= 8000 && EncodePacket(p).Ok?
    ensures ParsePacket(EncodePacket(p).value) == Ok(p)
  {
    hide ParseSealed, EncodeSealed, ReadMaybeLarge, MaybeLarge, Slice;
    var header := EncodeSealed(p.header).value;
    var part := MaybeLarge(p.header.version, header).value;
    SealedLength(p.header);
    SealedInverts(p.header);
    PartInverts(p.header.version, [], header, p.tag + p.body);
    TailSlices(part, p.tag, p.body);
    PacketShape(part, p.tag, p.body);
  }

  lemma PacketShape(part: bytes, tag: bytes, body: bytes)
    ensures part + tag + body == part + (tag + body) == [] + part + (tag + body)
  {
  }

  lemma TailSlices(part: bytes, tag: bytes, body: bytes)
    requires |tag| == TAG
    ensures var b := part + (tag + body);
            Slice(b, |part|, |part| + TAG) == tag && Slice(b, |part| + TAG, |b|) == body
  {
  }

  // ------------------------------------------------------ which bytes are packets

  /** A length: two bytes below 8192, or one byte from 32 on. */
  predicate LengthForm(b: bytes, n: nat) {
    (n < 8192 && b == [n / 256, n % 256]) || (32 <= n <= 255 && b == [n])
  }

  /** At `o` stands a length of `k` bytes that says `n`. */
  predicate LengthAt(b: bytes, o: nat, k: nat, n: nat) {
    o + k <= |b| && LengthForm(b[o..o + k], n)
  }

  lemma PartReads(b: bytes, o: nat) returns (k: nat, n: nat)
    requires ReadMaybeLarge(b, o).Ok?
    ensures LengthAt(b, o, k, n) && ReadMaybeLarge(b, o).value == Part(Slice(b, o + k, o + k + n), o + k + n)
  {
    if b[o] < 32 {
      k, n := 2, b[o] as int * 256 + b[o + 1];
      assert b[o..o + 2] == [n / 256, n % 256];
    } else {
      k, n := 1, b[o];
      assert b[o..o + 1] == [n];
    }
  }

  lemma PartIsRead(b: bytes, o: nat, k: nat, n: nat)
    requires LengthAt(b, o, k, n)
    ensures ReadMaybeLarge(b, o) == Ok(Part(Slice(b, o + k, o + k + n), o + k + n))
  {
    var form := b[o..o + k];
    assert form[0] == b[o] && (|form| == 2 ==> form[1] == b[o + 1]);
  }

  /** A sealed header is its version, 16 bytes, 16 more, and a text with its length. */
  ghost predicate IsSealed(b: bytes, s: Sealed) {
    && s.version <= 65535 && |s.iv| == 16 && |s.tag| == 16
    && exists length :: LengthForm(length, |s.body|)
                        && b == [s.version / 256, s.version % 256] + s.iv + s.tag + (length + s.body)
  }

  lemma SealedReads(b: bytes, s: Sealed)
    requires ParseSealed(b) == Ok(s)
    ensures IsSealed(b, s)
  {
    var k, n := PartReads(b, 34);
    var length := b[34..34 + k];
    assert s.body == b[34 + k..] && |s.body| == n;
    assert b[..2] == [s.version / 256, s.version % 256];
    assert b == b[..2] + b[2..18] + b[18..34] + (length + b[34 + k..]);
  }

  lemma SealedIsRead(b: bytes, s: Sealed, length: bytes)
    requires s.version <= 65535 && |s.iv| == 16 && |s.tag| == 16 && LengthForm(length, |s.body|)
    requires b == [s.version / 256, s.version % 256] + s.iv + s.tag + (length + s.body)
    ensures ParseSealed(b) == Ok(s)
  {
    var k, head := |length|, [s.version / 256, s.version % 256] + s.iv + s.tag;
    HeadApart(s.version, s.iv, s.tag, length + s.body);
    assert b[34..] == length + s.body && b[34..34 + k] == length && b[34 + k..] == s.body;
    PartIsRead(b, 34, k, |s.body|);
    WholeSlice(b, 34 + k);
    hide ReadMaybeLarge, LengthForm, Slice;
  }

  lemma WholeSlice(b: bytes, from: nat)
    requires from <= |b|
    ensures Slice(b, from, |b|) == b[from..]
  {
  }

  lemma HeadApart(version: nat, iv: bytes, tag: bytes, rest: bytes)
    requires version <= 65535 && |iv| == 16 && |tag| == 16
    ensures var b := [version / 256, version % 256] + iv + tag + rest;
            DecodeWord16(b) == version && b[2..18] == iv && b[18..34] == tag && b[34..] == rest
  {
  }

  /** The header parser accepts exactly the byte strings that are sealed headers. */
  lemma SealedReadExactly(b: bytes, s: Sealed)
    ensures ParseSealed(b) == Ok(s) <==> IsSealed(b, s)
  {
    if ParseSealed(b) == Ok(s) { SealedReads(b, s); }
    if IsSealed(b, s) {
      var length :| LengthForm(length, |s.body|)
                    && b == [s.version / 256, s.version % 256] + s.iv + s.tag + (length + s.body);
      SealedIsRead(b, s, length);
    }
    hide ParseSealed, LengthForm;
  }

  /** A packet is a sealed header with its length, a tag of 16 bytes and a body.  A packet may
      end early behind its header, or in its tag, or inside a header that is whole all the same. */
  ghost predicate IsPacket(b: bytes, p: Packet) {
    && |p.tag| <= 16 && (|p.tag| < 16 ==> p.body == [])
    && exists length, header, n: nat :: PacketParts(b, p, length, header, n)
  }

  ghost predicate PacketParts(b: bytes, p: Packet, length: bytes, header: bytes, n: nat) {
    && LengthForm(length, n) && IsSealed(header, p.header) && b == length + header + (p.tag + p.body)
    && |header| <= n && (|header| < n ==> p.tag == [])
  }

  /** The packet parser accepts exactly those. */
  lemma PacketReadExactly(b: bytes, p: Packet)
    ensures ParsePacket(b) == Ok(p) <==> IsPacket(b, p)
  {
    if ParsePacket(b) == Ok(p) { PacketReads(b, p); }
    if IsPacket(b, p) {
      var length, header, n: nat :| PacketParts(b, p, length, header, n);
      PacketIsRead(b, p, length, header, n);
    }
    hide ParsePacket, PacketParts;
  }

  /** The tag and the body behind a header that ends at `next`, perhaps past the end. */
  lemma TailReads(b: bytes, next: nat)
    ensures var tag, body := Slice(b, next, next + TAG), Slice(b, next + TAG, |b|);
            && |tag| <= 16 && (|tag| < 16 ==> body == [])
            && tag + body == if next <= |b| then b[next..] else []
  {
  }

  lemma HeadReads(b: bytes, k: nat, n: nat)
    requires k <= |b|
    ensures var header := Slice(b, k, k + n);
            && |header| == (if k + n <= |b| then n else |b| - k)
            && b == b[..k] + header + if k + n <= |b| then b[k + n..] else []
  {
    var header := Slice(b, k, k + n);
    assert header == b[k..k + |header|];
  }

  lemma Splits(b: bytes, k: nat, n: nat)
    requires k <= |b|
    ensures var header, tag, body := Slice(b, k, k + n), Slice(b, k + n, k + n + TAG), Slice(b, k + n + TAG, |b|);
            && b == b[..k] + header + (tag + body) && |header| <= n && (|header| < n ==> tag == [])
            && |tag| <= 16 && (|tag| < 16 ==> body == [])
  {
    hide Slice;
    TailReads(b, k + n);
    HeadReads(b, k, n);
    if k + n > |b| {
      var tag, body := Slice(b, k + n, k + n + TAG), Slice(b, k + n + TAG, |b|);
      assert |tag + body| == 0;
    }
  }

  lemma FirstPart(b: bytes) returns (k: nat, n: nat)
    requires ReadMaybeLarge(b, 0).Ok?
    ensures k <= |b| && LengthForm(b[..k], n) && ReadMaybeLarge(b, 0).value == Part(Slice(b, k, k + n), k + n)
  {
    k, n := PartReads(b, 0);
    assert b[0..0 + k] == b[..k];
    hide ReadMaybeLarge, LengthForm;
  }

  lemma PacketReads(b: bytes, p: Packet)
    requires ParsePacket(b) == Ok(p)
    ensures IsPacket(b, p)
  {
    hide ReadMaybeLarge, ParseSealed, LengthForm, IsSealed, Slice;
    var k, n := FirstPart(b);
    Splits(b, k, n);
    SealedReadExactly(Slice(b, k, k + n), p.header);
    assert PacketParts(b, p, b[..k], Slice(b, k, k + n), n);
  }

  lemma PacketIsRead(b: bytes, p: Packet, length: bytes, header: bytes, n: nat)
    requires |p.tag| <= 16 && (|p.tag| < 16 ==> p.body == []) && PacketParts(b, p, length, header, n)
    ensures ParsePacket(b) == Ok(p)
  {
    var k := |length|;
    PartIsRead(b, 0, k, n) by { PartsStand(b, length, header, p.tag + p.body); }
    SealedReadExactly(header, p.header);
    PartsStand(b, length, header, p.tag + p.body);
    hide ReadMaybeLarge, ParseSealed, LengthForm, IsSealed;
    if |header| == n { TailIs(b, k + n, p.tag, p.body); }
  }

  lemma PartsStand(b: bytes, length: bytes, header: bytes, tail: bytes)
    requires b == length + header + tail
    ensures var k, m := |length|, |header|;
            && k + m <= |b| && b[0..0 + k] == b[..k] == length && b[k..k + m] == header && b[k + m..] == tail
  {
  }

  lemma TailIs(b: bytes, next: nat, tag: bytes, body: bytes)
    requires next <= |b| && b[next..] == tag + body && |tag| <= 16 && (|tag| < 16 ==> body == [])
    ensures Slice(b, next, next + TAG) == tag && Slice(b, next + TAG, |b|) == body
  {
    assert b[next..][..|tag|] == tag && b[next..][|tag|..] == body;
  }
}
