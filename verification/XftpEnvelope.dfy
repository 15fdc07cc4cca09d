/** File header and encrypted envelope of an XFTP web file
    (src/browser-xftp-web-client.mjs). */
module XftpEnvelope {
  import opened Outcomes
  import opened Bytes
  import opened SecretBox
  import opened XftpPlan

  const SIZE_PREFIX: nat := 8
  const TAG_SIZE: nat := 16

  /** UTF-8 as an inverse pair on well-formed text. */
  datatype Utf8 = Utf8(encode: string -> bytes, decode: bytes -> Option<string>) {
    ghost predicate Valid() {
      forall s :: decode(encode(s)) == Some(s)
    }
  }

  /** Three bytes for each character: one encoding of that kind. */
  function Wide(s: string): bytes {
    if s == "" then [] else [s[0] as int / 0x1_0000, s[0] as int / 0x100 % 0x100, s[0] as int % 0x100] + Wide(s[1..])
  }

  function Narrow(b: bytes): string {
    if |b| < 3 then ""
    else
      var code := b[0] as int * 0x1_0000 + b[1] as int * 0x100 + b[2];
      [if code < 0xd800 || 0xe000 <= code < 0x11_0000 then code as char else ' '] + Narrow(b[3..])
  }

  lemma {:induction false} NarrowWide(s: string)
    ensures Narrow(Wide(s)) == s
  {
    if s != "" {
      NarrowWide(s[1..]);
      assert Wide(s)[3..] == Wide(s[1..]);
    }
  }

  lemma Utf8Holds()
    ensures exists u: Utf8 :: u.Valid() && forall s :: u.encode(s) == [] <==> s == ""
  {
    var u := Utf8(Wide, b => Some(Narrow(b)));
    forall s ensures u.decode(u.encode(s)) == Some(s) { NarrowWide(s); }
    assert u.Valid();
  }

  datatype FileFault = BadFileName | TooLong | BadUtf8 | BadHeader | BadSize | BadDigest | CannotOpen | CutShort | BadFill

  datatype Header = Header(fileName: string, fileExtra: Option<string>)

  predicate NameChar(c: char) {
    c as int >= 0x20 && c as int != 0x7f && c != '/' && c != '\\'
  }

  predicate NameChars(n: string) {
    forall i :: 0 <= i < |n| ==> NameChar(n[i])
  }

  function SafeName(u: Utf8, name: string): Result<string, FileFault> {
    var n := if name == "" then "file" else name;
    if !NameChars(n) || |u.encode(n)| > 255 then Err(BadFileName) else Ok(n)
  }

  function EncodeText(u: Utf8, s: string): Result<bytes, FileFault> {
    if |u.encode(s)| > 255 then Err(TooLong) else Ok([|u.encode(s)|] + u.encode(s))
  }

  function EncodeHeader(u: Utf8, h: Header): Result<bytes, FileFault> {
    match SafeName(u, h.fileName)
    case Err(e) => Err(e)
    case Ok(name) =>
      var first := EncodeText(u, name);
      if first.Err? then first
      else if h.fileExtra.None? then Ok(first.value + ['0' as int])
      else
        var extra := EncodeText(u, h.fileExtra.value);
        if extra.Err? then extra else Ok(first.value + ['1' as int] + extra.value)
  }

  function DecodeText(u: Utf8, b: bytes): Result<(string, bytes), FileFault> {
    match CutSmall(b)
    case Err(_) => Err(BadUtf8)
    case Ok(t) =>
      match u.decode(t.value)
      case None => Err(BadUtf8)
      case Some(s) => Ok((s, t.rest))
  }

  /** The header and what follows it, which is the file content. */
  function DecodeHeader(u: Utf8, b: bytes): Result<(Header, bytes), FileFault> {
    match DecodeText(u, b)
    case Err(e) => Err(e)
    case Ok((name, rest)) =>
      if rest == [] then Err(BadHeader)
      else if rest[0] == '0' as int then Ok((Header(name, None), rest[1..]))
      else if rest[0] == '1' as int then
        match DecodeText(u, rest[1..])
        case Err(e) => Err(e)
        case Ok((extra, content)) => Ok((Header(name, Some(extra)), content))
      else Err(BadHeader)
  }

  /** What the envelope keeps of a header: an empty name becomes "file". */
  function Kept(h: Header): Header {
    h.(fileName := if h.fileName == "" then "file" else h.fileName)
  }

  lemma KeptIsSafe(u: Utf8, h: Header)
    requires EncodeHeader(u, h).Ok?
    ensures SafeName(u, Kept(h).fileName) == Ok(Kept(h).fileName)
  {
  }

  lemma TextInverts(u: Utf8, s: string, rest: bytes)
    requires u.Valid() && EncodeText(u, s).Ok?
    ensures DecodeText(u, EncodeText(u, s).value + rest) == Ok((s, rest))
  {
    SmallInverts(u.encode(s), rest);
  }

  lemma HeaderInverts(u: Utf8, h: Header, content: bytes)
    requires u.Valid() && EncodeHeader(u, h).Ok?
    ensures DecodeHeader(u, EncodeHeader(u, h).value + content) == Ok((Kept(h), content))
  {
    var name, all := Kept(h).fileName, EncodeHeader(u, h).value + content;
    var first := EncodeText(u, name).value;
    if h.fileExtra.None? {
      var tail: bytes := ['0' as int] + content;
      assert all == first + tail;
      TextInverts(u, name, tail);
      assert tail[1..] == content;
    } else {
      var extra := EncodeText(u, h.fileExtra.value).value;
      var tail: bytes := ['1' as int] + (extra + content);
      assert all == first + tail;
      TextInverts(u, name, tail);
      assert tail[1..] == extra + content;
      TextInverts(u, h.fileExtra.value, content);
    }
  }

  function PayloadSize(clearSize: nat): nat {
    clearSize + SIZE_PREFIX + TAG_SIZE
  }

  /** Bytes of '#' between the content and the tag; PlanIsTight makes it non-negative. */
  function FillLength(clearSize: nat): (n: nat)
    ensures PayloadSize(clearSize) + n == Sum(ChunkSizes(PayloadSize(clearSize)))
  {
    PlanIsTight(PayloadSize(clearSize));
    Sum(ChunkSizes(PayloadSize(clearSize))) - PayloadSize(clearSize)
  }

  function ClearEnvelope(clear: bytes): bytes {
    BigEndian(|clear|, 8) + clear + Repeat(PADDING, FillLength(|clear|))
  }

  function SealFile(u: Utf8, c: Cipher, h: Header, content: bytes): Result<bytes, FileFault>
    requires c.Valid()
  {
    match EncodeHeader(u, h)
    case Err(e) => Err(e)
    case Ok(header) =>
      var clear := header + content;
      if PayloadSize(|clear|) > MAX_SAFE then Err(BadSize) else Ok(c.SealTail(ClearEnvelope(clear)))
  }

  function OpenClear(u: Utf8, plaintext: bytes): Result<(Header, bytes), FileFault> {
    if |plaintext| < 8 then Err(CutShort)
    else
      var length := FromBigEndian(plaintext[..8]);
      if length > MAX_SAFE then Err(BadSize)
      else if 8 + length > |plaintext| then Err(CutShort)
      else if !AllPadding(plaintext[8 + length..]) then Err(BadFill)
      else DecodeHeader(u, plaintext[8..8 + length])
  }

  function OpenFile(u: Utf8, c: Cipher, hash: bytes -> bytes, encrypted: bytes, size: nat,
                    digest: bytes): Result<(Header, bytes), FileFault>
    requires c.Valid()
  {
    if |encrypted| != size then Err(BadSize)
    else if hash(encrypted) != digest then Err(BadDigest)
    else
      match c.OpenTail(encrypted)
      case Err(_) => Err(CannotOpen)
      case Ok(plaintext) => OpenClear(u, plaintext)
  }

  lemma OpenClearInverts(u: Utf8, h: Header, content: bytes)
    requires u.Valid() && EncodeHeader(u, h).Ok?
    requires |EncodeHeader(u, h).value + content| <= MAX_SAFE
    ensures OpenClear(u, ClearEnvelope(EncodeHeader(u, h).value + content)) == Ok((Kept(h), content))
  {
    var clear := EncodeHeader(u, h).value + content;
    var plaintext, n := ClearEnvelope(clear), |clear|;
    assert Pow256(8) >= 0x1_0000_0000_0000_0000 by {
      assert Pow256(4) == 0x1_0000_0000;
      assert Pow256(6) == 0x1_0000_0000_0000;
    }
    BigEndianInverts(n, 8);
    assert plaintext[..8] == BigEndian(n, 8);
    assert plaintext[8..8 + n] == clear;
    assert plaintext[8 + n..] == Repeat(PADDING, FillLength(n));
    HeaderInverts(u, h, content);
  }

  /** An envelope fills its chunk plan exactly and opens to the header and content sealed
      in it. */
  lemma OpenInvertsSealFile(u: Utf8, c: Cipher, hash: bytes -> bytes, h: Header, content: bytes)
    requires u.Valid() && c.Valid() && SealFile(u, c, h, content).Ok?
    ensures var encrypted := SealFile(u, c, h, content).value;
            && OpenFile(u, c, hash, encrypted, |encrypted|, hash(encrypted)) == Ok((Kept(h), content))
            && |encrypted| == Sum(ChunkSizes(PayloadSize(|EncodeHeader(u, h).value + content|)))
  {
    var clear := EncodeHeader(u, h).value + content;
    TailIsSameBox(c, ClearEnvelope(clear));
    TailOpensExactly(c, ClearEnvelope(clear), c.SealTail(ClearEnvelope(clear)));
    OpenClearInverts(u, h, content);
  }

  /** A name without control characters, slashes and backslashes; an empty one counts as "file". */
  predicate GoodName(u: Utf8, name: string) {
    && |u.encode(Kept(Header(name, None)).fileName)| <= 255
    && forall c :: c in name ==> 32 <= c as int && c as int != 127 && c != '/' && c != '\\'
  }

  lemma NameExactly(u: Utf8, name: string)
    ensures SafeName(u, name) == if GoodName(u, name) then Ok(if name == "" then "file" else name) else Err(BadFileName)
  {
    if NameChars(name) {
      forall c | c in name ensures NameChar(c) { var i :| 0 <= i < |name| && name[i] == c; }
    } else {
      var i :| 0 <= i < |name| && !NameChar(name[i]);
      assert name[i] in name;
    }
  }

  /** How many bytes a header takes: a length byte and the name, one byte, and with an extra
      text its length byte and its bytes. */
  function HeaderSize(u: Utf8, h: Header): nat {
    |u.encode(if h.fileName == "" then "file" else h.fileName)| + 2
    + if h.fileExtra.Some? then |u.encode(h.fileExtra.value)| + 1 else 0
  }

  lemma HeaderExactly(u: Utf8, h: Header)
    ensures EncodeHeader(u, h).Ok? <==>
              GoodName(u, h.fileName) && (h.fileExtra.Some? ==> |u.encode(h.fileExtra.value)| <= 255)
    ensures EncodeHeader(u, h).Ok? ==> |EncodeHeader(u, h).value| == HeaderSize(u, h)
  {
    NameExactly(u, h.fileName);
    hide SafeName;
  }

  /** A file is sealed if and only if its name and extra text are good and short enough, and
      its size with header, length and tag is a number JavaScript can count. */
  lemma SealsExactly(u: Utf8, c: Cipher, h: Header, content: bytes)
    requires c.Valid()
    ensures SealFile(u, c, h, content).Ok? <==>
              && GoodName(u, h.fileName) && (h.fileExtra.Some? ==> |u.encode(h.fileExtra.value)| <= 255)
              && HeaderSize(u, h) + |content| + 24 <= 9007199254740991
  {
    HeaderExactly(u, h);
    hide EncodeHeader, GoodName, Cipher.SealTail, ClearEnvelope;
  }
}
