/** The text form of a file description: its printer, its parser, and that one undoes
    the other (src/browser-xftp-web-client.mjs). */
module XftpText {
  import opened Outcomes
  import opened Bytes
  import opened XftpPlan
  import opened XftpEnvelope
  import opened XftpDescription

  const MAX_TEXT: nat := 1024 * 1024

  /** Library codecs: UTF-8, padded base64url, and the server address check. */
  datatype Codecs = Codecs(u: Utf8, encode64: bytes -> string, decode64: string -> Option<bytes>,
                           addressOk: string -> bool)
  {
    ghost predicate Valid() {
      && u.Valid()
      && (forall b :: decode64(encode64(b)) == (if b == [] then None else Some(b)))
      && (forall b :: |encode64(b)| % 4 == 0 && OneLine(encode64(b)))
      && (forall s :: u.encode(s) == [] <==> s == "")
      && (forall s :: addressOk(s) ==> OneLine(s))
    }
  }

  predicate OneLine(s: string) {
    forall i :: 0 <= i < |s| ==> s[i] != '\n' && s[i] != '\r'
  }

  function Quads(b: bytes): string {
    if b == [] then "" else ['A' + b[0] as char, 'A', 'A', 'A'] + Quads(b[1..])
  }

  function UnQuads(s: string): bytes {
    if |s| < 4 then [] else [if 'A' <= s[0] < 'A' + 0x100 as char then s[0] as int - 'A' as int else 0] + UnQuads(s[4..])
  }

  lemma {:induction false} UnQuadsQuads(b: bytes)
    ensures UnQuads(Quads(b)) == b && |Quads(b)| == 4 * |b| && OneLine(Quads(b))
  {
    if b != [] {
      UnQuadsQuads(b[1..]);
      assert Quads(b)[4..] == Quads(b[1..]);
    }
  }

  lemma CodecsHold()
    ensures exists c: Codecs :: c.Valid()
  {
    hide Quads, UnQuads, OneLine, Utf8.Valid;
    Utf8Holds();
    var u: Utf8 :| u.Valid() && forall s :: u.encode(s) == [] <==> s == "";
    var c := Codecs(u, Quads, (s: string) => if s == "" then None else Some(UnQuads(s)), (s: string) => OneLine(s));
    forall b ensures c.decode64(c.encode64(b)) == if b == [] then None else Some(b) {
      UnQuadsQuads(b);
      assert b == [] <==> Quads(b) == "";
    }
    forall b ensures |c.encode64(b)| % 4 == 0 && OneLine(c.encode64(b)) { UnQuadsQuads(b); }
    assert c.Valid();
  }

  // --------------------------------------------------------------- numbers

  function Digit(d: nat): char
    requires d < 10
  {
    '0' + d as char
  }

  function Decimal(n: nat): string {
    if n < 10 then [Digit(n)] else Decimal(n / 10) + [Digit(n % 10)]
  }

  predicate IsDigit(c: char) {
    '0' <= c <= '9'
  }

  predicate AllDigits(s: string) {
    s != "" && forall i :: 0 <= i < |s| ==> IsDigit(s[i])
  }

  function DigitsValue(s: string): nat
    requires forall i :: 0 <= i < |s| ==> IsDigit(s[i])
  {
    if s == "" then 0
    else
      assert IsDigit(s[|s| - 1]);
      DigitsValue(s[..|s| - 1]) * 10 + (s[|s| - 1] as int - '0' as int)
  }

  function FromDecimal(s: string, limit: nat): Option<nat> {
    if AllDigits(s) && DigitsValue(s) <= limit then Some(DigitsValue(s)) else None
  }

  lemma {:induction false} DecimalInverts(n: nat)
    ensures AllDigits(Decimal(n)) && DigitsValue(Decimal(n)) == n
  {
    if n >= 10 {
      DecimalInverts(n / 10);
      assert Decimal(n)[..|Decimal(n)| - 1] == Decimal(n / 10);
    } else {
      assert [Digit(n)][..0] == "";
      assert DigitsValue("") == 0;
    }
  }

  function FormatSize(n: nat): string {
    if n >= 4 * MB && n % (4 * MB) == 0 then Decimal(n / (4 * MB) * 4) + "mb"
    else if n >= MB && n % MB == 0 then Decimal(n / MB) + "mb"
    else if n >= KB && n % KB == 0 then Decimal(n / KB) + "kb"
    else Decimal(n)
  }

  function Lower(c: char): char {
    if 'A' <= c <= 'Z' then c - 'A' + 'a' else c
  }

  /** The multiplier a two-letter suffix stands for. */
  function Multiplier(s: string): Option<nat> {
    if |s| != 2 || Lower(s[1]) != 'b' then None
    else if Lower(s[0]) == 'k' then Some(KB)
    else if Lower(s[0]) == 'm' then Some(MB)
    else if Lower(s[0]) == 'g' then Some(1024 * MB)
    else None
  }

  function ParseSize(s: string): Option<nat> {
    var suffixed := |s| > 2 && Multiplier(s[|s| - 2..]).Some?;
    var digits := if suffixed then s[..|s| - 2] else s;
    if !AllDigits(digits) then None
    else
      var n := DigitsValue(digits) * (if suffixed then Multiplier(s[|s| - 2..]).value else 1);
      if n <= MAX_SAFE then Some(n) else None
  }

  lemma SuffixRead(k: nat, suffix: string)
    requires Multiplier(suffix).Some? && k * Multiplier(suffix).value <= MAX_SAFE
    ensures ParseSize(Decimal(k) + suffix) == Some(k * Multiplier(suffix).value)
  {
    DecimalInverts(k);
    var s := Decimal(k) + suffix;
    assert s[|s| - 2..] == suffix && s[..|s| - 2] == Decimal(k);
  }

  lemma PlainRead(n: nat)
    requires n <= MAX_SAFE
    ensures ParseSize(Decimal(n)) == Some(n)
  {
    DecimalInverts(n);
    var s := Decimal(n);
    if |s| > 2 { assert IsDigit(s[|s| - 1]) && s[|s| - 2..][1] == s[|s| - 1]; }
  }

  /** Every size is read as it was written, whatever suffix it got. */
  lemma SizeInverts(n: nat)
    requires n <= MAX_SAFE
    ensures ParseSize(FormatSize(n)) == Some(n)
  {
    SizeArithmetic(n);
    hide ParseSize, Decimal;
    if n >= 4 * MB && n % (4 * MB) == 0 {
      SuffixRead(n / (4 * MB) * 4, "mb");
    } else if n >= MB && n % MB == 0 {
      SuffixRead(n / MB, "mb");
    } else if n >= KB && n % KB == 0 {
      SuffixRead(n / KB, "kb");
    } else {
      PlainRead(n);
    }
  }

  lemma SizeArithmetic(n: nat)
    ensures n % (4 * MB) == 0 ==> n / (4 * MB) * 4 * MB == n
    ensures n % MB == 0 ==> n / MB * MB == n
    ensures n % KB == 0 ==> n / KB * KB == n
  {
  }

  // ----------------------------------------------------------------- lines

  function JoinLines(lines: seq<string>): string {
    if lines == [] then "" else lines[0] + "\n" + JoinLines(lines[1..])
  }

  /** Up to the next line feed, and what follows it. */
  function LineLength(text: string): (n: nat)
    ensures n <= |text| && (n < |text| ==> text[n] == '\n') && forall i :: 0 <= i < n ==> text[i] != '\n'
  {
    if text == "" || text[0] == '\n' then 0 else 1 + LineLength(text[1..])
  }

  function DropReturn(line: string): string {
    if line != "" && line[|line| - 1] == '\r' then line[..|line| - 1] else line
  }

  /** split(/\r?\n/): a line feed, with a carriage return before it if there is one, ends a line. */
  function SplitLines(text: string): seq<string>
    decreases |text|
  {
    var n := LineLength(text);
    if n == |text| then [text] else [DropReturn(text[..n])] + SplitLines(text[n + 1..])
  }

  /** White space as trim() and \s take it. */
  predicate IsBlank(c: char) {
    || c == ' ' || '\t' <= c <= '\r' || '\U{2000}' <= c <= '\U{200A}'
    || c in {'\U{A0}', '\U{1680}', '\U{2028}', '\U{2029}', '\U{202F}', '\U{205F}', '\U{3000}', '\U{FEFF}'}
  }

  /** Where the white space at the front of a line ends. */
  function Indent(line: string): (n: nat)
    ensures n <= |line| && (n < |line| ==> !IsBlank(line[n])) && forall i :: 0 <= i < n ==> IsBlank(line[i])
  {
    if line == "" || !IsBlank(line[0]) then 0 else 1 + Indent(line[1..])
  }

  /** Blank lines and comments are skipped. */
  predicate Meaningful(line: string) {
    Indent(line) < |line| && line[Indent(line)] != '#'
  }

  function Kept(lines: seq<string>): seq<string> {
    if lines == [] then [] else (if Meaningful(lines[0]) then [lines[0]] else []) + Kept(lines[1..])
  }

  predicate Written(lines: seq<string>) {
    forall i :: 0 <= i < |lines| ==> Meaningful(lines[i]) && OneLine(lines[i])
  }

  lemma LineEnds(line: string, rest: string)
    requires OneLine(line)
    ensures var text := line + "\n" + rest;
            SplitLines(text) == [line] + SplitLines(rest)
  {
    var text := line + "\n" + rest;
    assert text[|line|] == '\n' && text[..|line|] == line && text[|line| + 1..] == rest;
    assert forall i :: 0 <= i < |line| ==> text[i] != '\n';
    LineLengthIs(text, |line|);
  }

  lemma LineLengthIs(text: string, n: nat)
    requires n <= |text| && (n < |text| ==> text[n] == '\n') && forall i :: 0 <= i < n ==> text[i] != '\n'
    ensures LineLength(text) == n
  {
  }

  lemma {:induction false} LinesComeBack(lines: seq<string>)
    requires Written(lines)
    ensures Kept(SplitLines(JoinLines(lines))) == lines
  {
    if lines == [] {
      assert SplitLines("") == [""] && Kept([""][1..]) == [];
    } else {
      LineEnds(lines[0], JoinLines(lines[1..]));
      LinesComeBack(lines[1..]);
      KeptFirst(lines[0], SplitLines(JoinLines(lines[1..])));
      hide SplitLines, Kept, OneLine;
      assert [lines[0]] + lines[1..] == lines;
    }
  }

  lemma KeptFirst(line: string, rest: seq<string>)
    requires Meaningful(line)
    ensures Kept([line] + rest) == [line] + Kept(rest)
  {
  }

  lemma LabelMeaningful(lead: string, value: string, indent: nat)
    requires IsLabel(lead, indent) && OneLine(value)
    ensures Meaningful(lead + value) && OneLine(lead + value)
  {
    var line := lead + value;
    assert line[indent] == lead[indent] && forall i :: 0 <= i < indent ==> line[i] == ' ';
    var n := Indent(line);
    assert n == indent;
  }

  // -------------------------------------------------------------- printing

  const MARKER: string := "simplexWebXftpDescription: 1"
  const PARTY: string := "party: "
  const SIZE: string := "size: "
  const DIGEST: string := "digest: "
  const KEY: string := "key: "
  const NONCE: string := "nonce: "
  const CHUNK_SIZE: string := "chunkSize: "
  const FILE_NAME: string := "fileName: "
  const FILE_EXTRA: string := "fileExtra: "
  const CHUNKS: string := "chunks:"
  const CHUNK_NO: string := "  - chunkNo: "
  const OFFSET: string := "    offset: "
  const EACH_SIZE: string := "    chunkSize: "
  const EACH_DIGEST: string := "    digest: "
  const REPLICAS: string := "    replicas:"
  const SERVER: string := "      - server: "
  const REPLICA_ID: string := "        replicaId: "
  const REPLICA_KEY: string := "        replicaKey: "

  function PartyName(p: Party): string {
    if p.Recipient? then "recipient" else "sender"
  }

  function MaybeText(c: Codecs, s: Option<string>): string {
    if s.None? then "-" else c.encode64(c.u.encode(s.value))
  }

  function TopLines(c: Codecs, d: Description): seq<string> {
    [MARKER, PARTY + PartyName(d.party), SIZE + FormatSize(d.size), DIGEST + c.encode64(d.digest), KEY + c.encode64(d.key),
     NONCE + c.encode64(d.nonce)]
  }

  function NameLines(c: Codecs, d: Description): seq<string> {
    [CHUNK_SIZE + FormatSize(d.chunkSize), FILE_NAME + MaybeText(c, Some(d.fileName)),
     FILE_EXTRA + MaybeText(c, d.fileExtra), CHUNKS]
  }

  function ReplicaLines(c: Codecs, r: Replica): seq<string> {
    [SERVER + r.server, REPLICA_ID + c.encode64(r.replicaId), REPLICA_KEY + c.encode64(r.replicaKey)]
  }

  function AllReplicaLines(c: Codecs, rs: seq<Replica>): seq<string> {
    if rs == [] then [] else ReplicaLines(c, rs[0]) + AllReplicaLines(c, rs[1..])
  }

  function ChunkHead(c: Codecs, x: Chunk): seq<string> {
    [CHUNK_NO + Decimal(x.chunkNo), OFFSET + Decimal(x.offset), EACH_SIZE + FormatSize(x.chunkSize),
     EACH_DIGEST + c.encode64(x.digest), REPLICAS]
  }

  function ChunkLines(c: Codecs, xs: seq<Chunk>): seq<string> {
    if xs == [] then [] else ChunkHead(c, xs[0]) + AllReplicaLines(c, xs[0].replicas) + ChunkLines(c, xs[1..])
  }

  function Lines(c: Codecs, d: Description): seq<string> {
    TopLines(c, d) + (NameLines(c, d) + ChunkLines(c, ByNumber(d.chunks)))
  }

  /** encodeXftpWebFileDescription. */
  function Print(c: Codecs, description: Description): Option<string> {
    match Normalize(c.u, c.addressOk, description)
    case None => None
    case Some(d) => Some(JoinLines(Lines(c, d)))
  }

  // --------------------------------------------------------------- parsing

  datatype Read<T> = Read(value: T, rest: seq<string>)

  /** The value after its lead on the next line. */
  function ReadLine(lines: seq<string>, lead: string): Option<Read<string>> {
    if lines == [] || !(lead <= lines[0]) then None else Some(Read(lines[0][|lead|..], lines[1..]))
  }

  function ReadBytes(c: Codecs, lines: seq<string>, lead: string): Option<Read<bytes>> {
    match ReadLine(lines, lead) case None => None case Some(t) =>
    match c.decode64(t.value) case None => None case Some(b) => Some(Read(b, t.rest))
  }

  /** Equal but for the case of letters a to z. */
  predicate SameLetters(a: string, b: string) {
    |a| == |b| && forall i :: 0 <= i < |a| ==> Lower(a[i]) == Lower(b[i])
  }

  /** A size line may have its lead in either case. */
  function ReadSize(lines: seq<string>, lead: string): Option<Read<nat>> {
    if lines == [] || |lines[0]| < |lead| || !SameLetters(lines[0][..|lead|], lead) then None
    else
      match ParseSize(lines[0][|lead|..]) case None => None case Some(n) => Some(Read(n, lines[1..]))
  }

  function ReadNumber(lines: seq<string>, lead: string, limit: nat): Option<Read<nat>> {
    match ReadLine(lines, lead) case None => None case Some(t) =>
    match FromDecimal(t.value, limit) case None => None case Some(n) => Some(Read(n, t.rest))
  }

  function ReadMaybe(c: Codecs, lines: seq<string>, lead: string): Option<Read<Option<string>>> {
    match ReadLine(lines, lead) case None => None case Some(t) =>
      if t.value == "-" then Some(Read(None, t.rest))
      else
        match c.decode64(t.value) case None => None case Some(b) =>
        match c.u.decode(b) case None => None case Some(s) => Some(Read(Some(s), t.rest))
  }

  function ReadMark(lines: seq<string>, mark: string): Option<seq<string>> {
    if lines == [] || lines[0] != mark then None else Some(lines[1..])
  }

  function ReadReplica(c: Codecs, lines: seq<string>): Option<Read<Replica>> {
    match ReadLine(lines, SERVER) case None => None case Some(server) =>
      if !c.addressOk(server.value) then None
      else
        match ReadBytes(c, server.rest, REPLICA_ID) case None => None case Some(id) =>
        match ReadBytes(c, id.rest, REPLICA_KEY) case None => None case Some(key) =>
          Some(Read(Replica(server.value, id.value, key.value), key.rest))
  }

  lemma ReadShorter(c: Codecs, lines: seq<string>)
    ensures ReadReplica(c, lines).Some? ==> |ReadReplica(c, lines).value.rest| < |lines|
  {
  }

  /** Replicas as long as the next line names a server. */
  function ReadReplicas(c: Codecs, lines: seq<string>): (r: Option<Read<seq<Replica>>>)
    ensures r.Some? ==> |r.value.rest| <= |lines|
    decreases |lines|
  {
    if lines == [] || !(SERVER <= lines[0]) then Some(Read([], lines))
    else
      match ReadReplica(c, lines) case None => None case Some(one) =>
        ReadShorter(c, lines);
        match ReadReplicas(c, one.rest) case None => None case Some(others) =>
          Some(Read([one.value] + others.value, others.rest))
  }

  function ReadChunk(c: Codecs, lines: seq<string>): (r: Option<Read<Chunk>>)
    ensures r.Some? ==> |r.value.rest| < |lines|
  {
    match ReadNumber(lines, CHUNK_NO, MAX_WORD32) case None => None case Some(no) =>
      if no.value < 1 then None
      else
        match ReadNumber(no.rest, OFFSET, MAX_SAFE) case None => None case Some(offset) =>
        match ReadSize(offset.rest, EACH_SIZE) case None => None case Some(size) =>
        match ReadBytes(c, size.rest, EACH_DIGEST) case None => None case Some(digest) =>
          if |digest.value| != 32 then None
          else
            match ReadMark(digest.rest, REPLICAS) case None => None case Some(rest) =>
            match ReadReplicas(c, rest) case None => None case Some(rs) =>
              Some(Read(Chunk(no.value, offset.value, size.value, digest.value, rs.value), rs.rest))
  }

  function ReadChunks(c: Codecs, lines: seq<string>): Option<seq<Chunk>>
    decreases |lines|
  {
    if lines == [] then Some([])
    else
      match ReadChunk(c, lines) case None => None case Some(one) =>
      match ReadChunks(c, one.rest) case None => None case Some(others) => Some([one.value] + others)
  }

  function ReadParty(lines: seq<string>): Option<Read<Party>> {
    match ReadLine(lines, PARTY) case None => None case Some(t) =>
      if t.value == "recipient" then Some(Read(Recipient, t.rest))
      else if t.value == "sender" then Some(Read(Sender, t.rest)) else None
  }

  datatype Top = Top(party: Party, size: nat, digest: bytes, key: bytes, nonce: bytes)

  function ReadTop(c: Codecs, lines: seq<string>): Option<Read<Top>> {
    match ReadMark(lines, MARKER) case None => None case Some(l0) =>
    match ReadParty(l0) case None => None case Some(party) =>
    match ReadSize(party.rest, SIZE) case None => None case Some(size) =>
    match ReadBytes(c, size.rest, DIGEST) case None => None case Some(digest) =>
    match ReadBytes(c, digest.rest, KEY) case None => None case Some(key) =>
    match ReadBytes(c, key.rest, NONCE) case None => None case Some(nonce) =>
      if |digest.value| != 64 || |key.value| != 32 || |nonce.value| != 24 then None
      else Some(Read(Top(party.value, size.value, digest.value, key.value, nonce.value), nonce.rest))
  }

  datatype Names = Names(chunkSize: nat, fileName: Option<string>, fileExtra: Option<string>)

  function ReadNames(c: Codecs, lines: seq<string>): Option<Read<Names>> {
    match ReadSize(lines, CHUNK_SIZE) case None => None case Some(chunkSize) =>
    match ReadMaybe(c, chunkSize.rest, FILE_NAME) case None => None case Some(name) =>
    match ReadMaybe(c, name.rest, FILE_EXTRA) case None => None case Some(extra) =>
    match ReadMark(extra.rest, CHUNKS) case None => None case Some(rest) =>
      Some(Read(Names(chunkSize.value, name.value, extra.value), rest))
  }

  /** The ten lines before the chunks. */
  function ReadHead(c: Codecs, lines: seq<string>): Option<Read<Description>> {
    match ReadTop(c, lines) case None => None case Some(top) =>
    match ReadNames(c, top.rest) case None => None case Some(names) =>
      var t, n := top.value, names.value;
      Some(Read(Description(t.party, t.size, t.digest, t.key, t.nonce, n.chunkSize,
                            if n.fileName.Some? then n.fileName.value else "", n.fileExtra, []), names.rest))
  }

  /** decodeXftpWebFileDescription. */
  function Parse(c: Codecs, text: string): Option<Description> {
    if text == "" || |text| > MAX_TEXT then None
    else
      match ReadHead(c, Kept(SplitLines(text))) case None => None case Some(head) =>
      match ReadChunks(c, head.rest) case None => None case Some(chunks) =>
        Normalize(c.u, c.addressOk, head.value.(chunks := chunks))
  }

  /** The inner loop: `rest` is the line list from the index on. */
  method ParseReplicas(c: Codecs, lines: seq<string>) returns (r: Option<Read<seq<Replica>>>)
    ensures r == ReadReplicas(c, lines)
  {
    hide ReadReplica;
    var replicas: seq<Replica>, rest := [], lines;
    assert forall xs: seq<Replica> :: [] + xs == xs;
    while rest != [] && SERVER <= rest[0]
      invariant ReadReplicas(c, lines) == AfterReplicas(replicas, ReadReplicas(c, rest))
      decreases |rest|
    {
      ReadShorter(c, rest);
      var one := ReadReplica(c, rest);
      if one.None? { return None; }
      assert forall xs: seq<Replica> :: replicas + ([one.value.value] + xs) == replicas + [one.value.value] + xs;
      replicas, rest := replicas + [one.value.value], one.value.rest;
    }
    assert replicas + [] == replicas;
    return Some(Read(replicas, rest));
  }

  function AfterReplicas(front: seq<Replica>, r: Option<Read<seq<Replica>>>): Option<Read<seq<Replica>>> {
    if r.None? then None else Some(Read(front + r.value.value, r.value.rest))
  }

  method ParseChunk(c: Codecs, lines: seq<string>) returns (r: Option<Read<Chunk>>)
    ensures r == ReadChunk(c, lines)
  {
    hide ReadNumber, ReadSize, ReadBytes, ReadReplicas;
    var no := ReadNumber(lines, CHUNK_NO, MAX_WORD32);
    if no.None? || no.value.value < 1 { return None; }
    var offset := ReadNumber(no.value.rest, OFFSET, MAX_SAFE);
    if offset.None? { return None; }
    var size := ReadSize(offset.value.rest, EACH_SIZE);
    if size.None? { return None; }
    var digest := ReadBytes(c, size.value.rest, EACH_DIGEST);
    if digest.None? || |digest.value.value| != 32 { return None; }
    var rest := ReadMark(digest.value.rest, REPLICAS);
    if rest.None? { return None; }
    var replicas := ParseReplicas(c, rest.value);
    if replicas.None? { return None; }
    var chunk := Chunk(no.value.value, offset.value.value, size.value.value, digest.value.value, replicas.value.value);
    return Some(Read(chunk, replicas.value.rest));
  }

  /** The outer loop, to the last line. */
  method ParseChunks(c: Codecs, lines: seq<string>) returns (r: Option<seq<Chunk>>)
    ensures r == ReadChunks(c, lines)
  {
    hide ReadChunk;
    var chunks: seq<Chunk>, rest := [], lines;
    assert forall xs: seq<Chunk> :: [] + xs == xs;
    while rest != []
      invariant ReadChunks(c, lines) == AfterChunks(chunks, ReadChunks(c, rest))
      decreases |rest|
    {
      var one := ParseChunk(c, rest);
      if one.None? { return None; }
      assert forall xs: seq<Chunk> :: chunks + ([one.value.value] + xs) == chunks + [one.value.value] + xs;
      chunks, rest := chunks + [one.value.value], one.value.rest;
    }
    assert chunks + [] == chunks;
    return Some(chunks);
  }

  function AfterChunks(front: seq<Chunk>, r: Option<seq<Chunk>>): Option<seq<Chunk>> {
    if r.None? then None else Some(front + r.value)
  }

  // -------------------------------------------------------- one undoes the other

  lemma LineReads(lead: string, value: string, rest: seq<string>)
    ensures ReadLine([lead + value] + rest, lead) == Some(Read(value, rest))
  {
  }

  lemma BytesRead(c: Codecs, lead: string, b: bytes, rest: seq<string>)
    requires c.Valid() && b != []
    ensures ReadBytes(c, [lead + c.encode64(b)] + rest, lead) == Some(Read(b, rest))
  {
  }

  lemma SizeRead(lead: string, n: nat, rest: seq<string>)
    requires n <= MAX_SAFE
    ensures ReadSize([lead + FormatSize(n)] + rest, lead) == Some(Read(n, rest))
  {
    var line := lead + FormatSize(n);
    assert line[..|lead|] == lead && line[|lead|..] == FormatSize(n) && ([line] + rest)[1..] == rest;
    SizeInverts(n);
    hide FormatSize, ParseSize;
  }

  lemma NumberRead(lead: string, n: nat, limit: nat, rest: seq<string>)
    requires n <= limit
    ensures ReadNumber([lead + Decimal(n)] + rest, lead, limit) == Some(Read(n, rest))
  {
    LineReads(lead, Decimal(n), rest);
    DecimalInverts(n);
  }

  /** A text comes back if it is absent or not empty; an empty one is rejected. */
  lemma MaybeRead(c: Codecs, lead: string, s: Option<string>, rest: seq<string>)
    requires c.Valid()
    ensures ReadMaybe(c, [lead + MaybeText(c, s)] + rest, lead) == if s == Some("") then None else Some(Read(s, rest))
  {
  }

  lemma MarkRead(mark: string, rest: seq<string>)
    ensures ReadMark([mark] + rest, mark) == Some(rest)
  {
  }

  lemma ReplicaReads(c: Codecs, r: Replica, rest: seq<string>)
    requires c.Valid() && ReplicaOk(c.addressOk, r)
    ensures ReadReplica(c, ReplicaLines(c, r) + rest) == Some(Read(r, rest))
  {
  }

  /** What comes after the replicas of a chunk names no server. */
  predicate EndsReplicas(rest: seq<string>) {
    rest == [] || !(SERVER <= rest[0])
  }

  lemma {:induction false} ReplicasRead(c: Codecs, rs: seq<Replica>, rest: seq<string>)
    requires c.Valid() && EndsReplicas(rest) && forall i :: 0 <= i < |rs| ==> ReplicaOk(c.addressOk, rs[i])
    ensures ReadReplicas(c, AllReplicaLines(c, rs) + rest) == Some(Read(rs, rest))
  {
    if rs == [] {
      assert [] + rest == rest;
    } else {
      var others := AllReplicaLines(c, rs[1..]) + rest;
      assert AllReplicaLines(c, rs) + rest == ReplicaLines(c, rs[0]) + others;
      assert ReplicaOk(c.addressOk, rs[0]);
      hide ReadReplicas, ReplicaOk, EndsReplicas, AllReplicaLines, ReplicaLines;
      ReplicasRead(c, rs[1..], rest);
      FirstReplicaRead(c, rs[0], others);
      assert [rs[0]] + rs[1..] == rs;
    }
  }

  lemma FirstReplicaRead(c: Codecs, r: Replica, others: seq<string>)
    requires c.Valid() && ReplicaOk(c.addressOk, r)
    ensures ReadReplicas(c, ReplicaLines(c, r) + others)
            == match ReadReplicas(c, others) case None => None case Some(t) => Some(Read([r] + t.value, t.rest))
  {
    ReplicaReads(c, r, others);
    assert (ReplicaLines(c, r) + others)[0] == SERVER + r.server && SERVER <= SERVER + r.server;
    hide ReadReplica, ReplicaOk, ReplicaLines;
  }

  lemma ChunkReads(c: Codecs, x: Chunk, rest: seq<string>)
    requires c.Valid() && ChunkOk(c.addressOk, x) && EndsReplicas(rest)
    ensures ReadChunk(c, ChunkHead(c, x) + AllReplicaLines(c, x.replicas) + rest) == Some(Read(x, rest))
  {
    hide ReadNumber, ReadSize, ReadBytes, ReadMark, ReadReplicas, Decimal, FormatSize, EndsReplicas, ReplicaOk;
    var l5 := AllReplicaLines(c, x.replicas) + rest;
    var l4 := [REPLICAS] + l5;
    var l3 := [EACH_DIGEST + c.encode64(x.digest)] + l4;
    var l2 := [EACH_SIZE + FormatSize(x.chunkSize)] + l3;
    var l1 := [OFFSET + Decimal(x.offset)] + l2;
    assert ChunkHead(c, x) + AllReplicaLines(c, x.replicas) + rest == [CHUNK_NO + Decimal(x.chunkNo)] + l1;
    NumberRead(CHUNK_NO, x.chunkNo, MAX_WORD32, l1);
    NumberRead(OFFSET, x.offset, MAX_SAFE, l2);
    SizeRead(EACH_SIZE, x.chunkSize, l3);
    BytesRead(c, EACH_DIGEST, x.digest, l4);
    MarkRead(REPLICAS, l5);
    ReplicasRead(c, x.replicas, rest);
  }

  lemma ChunksEndReplicas(c: Codecs, xs: seq<Chunk>)
    ensures EndsReplicas(ChunkLines(c, xs))
  {
    if xs != [] {
      var first := ChunkLines(c, xs)[0];
      assert first == CHUNK_NO + Decimal(xs[0].chunkNo) && first[2] == CHUNK_NO[2] == '-' && SERVER[2] == ' ';
    }
  }

  lemma {:induction false} ChunksRead(c: Codecs, xs: seq<Chunk>)
    requires c.Valid() && forall i :: 0 <= i < |xs| ==> ChunkOk(c.addressOk, xs[i])
    ensures ReadChunks(c, ChunkLines(c, xs)) == Some(xs)
  {
    if xs != [] {
      assert |ChunkLines(c, xs)| > 0 && [xs[0]] + xs[1..] == xs;
      ChunksEndReplicas(c, xs[1..]);
      hide ReadChunk, ChunkHead, AllReplicaLines, ChunkOk, EndsReplicas;
      ChunkReads(c, xs[0], ChunkLines(c, xs[1..]));
      ChunksRead(c, xs[1..]);
    }
  }

  /** A description that Normalize gave, apart from its chunks. */
  predicate HeadOk(d: Description) {
    d.size <= MAX_SAFE && d.chunkSize <= MAX_SAFE && |d.digest| == 64 && |d.key| == 32 && |d.nonce| == 24
    && d.fileName != ""
  }

  lemma PartyReads(p: Party, rest: seq<string>)
    ensures ReadParty([PARTY + PartyName(p)] + rest) == Some(Read(p, rest))
  {
  }

  lemma TopReads(c: Codecs, d: Description, rest: seq<string>)
    requires c.Valid() && HeadOk(d)
    ensures ReadTop(c, TopLines(c, d) + rest) == Some(Read(Top(d.party, d.size, d.digest, d.key, d.nonce), rest))
  {
    hide ReadParty, ReadSize, ReadBytes, ReadMark, FormatSize;
    var l5 := [NONCE + c.encode64(d.nonce)] + rest;
    var l4 := [KEY + c.encode64(d.key)] + l5;
    var l3 := [DIGEST + c.encode64(d.digest)] + l4;
    var l2 := [SIZE + FormatSize(d.size)] + l3;
    var l1 := [PARTY + PartyName(d.party)] + l2;
    assert TopLines(c, d) + rest == [MARKER] + l1;
    MarkRead(MARKER, l1);
    PartyReads(d.party, l2);
    SizeRead(SIZE, d.size, l3);
    BytesRead(c, DIGEST, d.digest, l4);
    BytesRead(c, KEY, d.key, l5);
    BytesRead(c, NONCE, d.nonce, rest);
  }

  /** An empty fileExtra prints as an empty value, which the reader rejects. */
  lemma NamesRead(c: Codecs, d: Description, rest: seq<string>)
    requires c.Valid() && HeadOk(d)
    ensures ReadNames(c, NameLines(c, d) + rest)
            == if d.fileExtra == Some("") then None
               else Some(Read(Names(d.chunkSize, Some(d.fileName), d.fileExtra), rest))
  {
    hide ReadSize, ReadMaybe, ReadMark, FormatSize, MaybeText;
    var l3 := [CHUNKS] + rest;
    var l2 := [FILE_EXTRA + MaybeText(c, d.fileExtra)] + l3;
    var l1 := [FILE_NAME + MaybeText(c, Some(d.fileName))] + l2;
    assert NameLines(c, d) + rest == [CHUNK_SIZE + FormatSize(d.chunkSize)] + l1;
    SizeRead(CHUNK_SIZE, d.chunkSize, l1);
    MaybeRead(c, FILE_NAME, Some(d.fileName), l2);
    MaybeRead(c, FILE_EXTRA, d.fileExtra, l3);
    MarkRead(CHUNKS, rest);
  }

  // ------------------------------------------------------- printed lines are lines

  lemma DigitsOneLine(n: nat, suffix: string)
    requires OneLine(suffix)
    ensures OneLine(Decimal(n) + suffix) && OneLine(Decimal(n))
  {
  }

  lemma SizeOneLine(n: nat)
    ensures OneLine(FormatSize(n))
  {
    DigitsOneLine(n / (4 * MB) * 4, "mb");
    DigitsOneLine(n / MB, "mb");
    DigitsOneLine(n / KB, "kb");
    DigitsOneLine(n, "");
    hide Decimal, OneLine;
  }

  /** A label: white space, then ink that is no comment sign. */
  predicate IsLabel(lead: string, indent: nat) {
    && indent < |lead| && !IsBlank(lead[indent]) && lead[indent] != '#' && OneLine(lead)
    && forall i :: 0 <= i < indent ==> lead[i] == ' '
  }

  lemma TopLabels()
    ensures IsLabel(MARKER, 0) && IsLabel(PARTY, 0) && IsLabel(SIZE, 0) && IsLabel(DIGEST, 0) && IsLabel(KEY, 0)
            && IsLabel(NONCE, 0)
  {
  }

  lemma NameLabels()
    ensures IsLabel(CHUNK_SIZE, 0) && IsLabel(FILE_NAME, 0) && IsLabel(FILE_EXTRA, 0) && IsLabel(CHUNKS, 0)
  {
  }

  lemma ChunkLabels()
    ensures IsLabel(CHUNK_NO, 2) && IsLabel(OFFSET, 4) && IsLabel(EACH_SIZE, 4) && IsLabel(EACH_DIGEST, 4)
            && IsLabel(REPLICAS, 4)
  {
  }

  lemma ReplicaLabels()
    ensures IsLabel(SERVER, 6) && IsLabel(REPLICA_ID, 8) && IsLabel(REPLICA_KEY, 8)
  {
  }

  lemma TopWritten(c: Codecs, d: Description)
    requires c.Valid()
    ensures Written(TopLines(c, d))
  {
    hide Meaningful, OneLine, FormatSize, IsLabel;
    TopLabels();
    MarkOneLine();
    SizeOneLine(d.size);
    LabelMeaningful(MARKER, "", 0);
    assert MARKER + "" == MARKER;
    LabelMeaningful(PARTY, PartyName(d.party), 0);
    LabelMeaningful(SIZE, FormatSize(d.size), 0);
    LabelMeaningful(DIGEST, c.encode64(d.digest), 0);
    LabelMeaningful(KEY, c.encode64(d.key), 0);
    LabelMeaningful(NONCE, c.encode64(d.nonce), 0);
  }

  lemma MarkOneLine()
    ensures OneLine("") && OneLine("-") && forall p :: OneLine(PartyName(p))
  {
  }

  lemma NamesWritten(c: Codecs, d: Description)
    requires c.Valid()
    ensures Written(NameLines(c, d))
  {
    hide Meaningful, OneLine, FormatSize, IsLabel;
    NameLabels();
    MarkOneLine();
    SizeOneLine(d.chunkSize);
    LabelMeaningful(CHUNK_SIZE, FormatSize(d.chunkSize), 0);
    LabelMeaningful(FILE_NAME, MaybeText(c, Some(d.fileName)), 0);
    LabelMeaningful(FILE_EXTRA, MaybeText(c, d.fileExtra), 0);
    LabelMeaningful(CHUNKS, "", 0);
    assert CHUNKS + "" == CHUNKS;
  }

  lemma ChunkHeadWritten(c: Codecs, x: Chunk)
    requires c.Valid()
    ensures Written(ChunkHead(c, x))
  {
    hide Meaningful, OneLine, FormatSize, Decimal, IsLabel;
    ChunkLabels();
    MarkOneLine();
    SizeOneLine(x.chunkSize);
    DigitsOneLine(x.chunkNo, "");
    DigitsOneLine(x.offset, "");
    LabelMeaningful(CHUNK_NO, Decimal(x.chunkNo), 2);
    LabelMeaningful(OFFSET, Decimal(x.offset), 4);
    LabelMeaningful(EACH_SIZE, FormatSize(x.chunkSize), 4);
    LabelMeaningful(EACH_DIGEST, c.encode64(x.digest), 4);
    LabelMeaningful(REPLICAS, "", 4);
    assert REPLICAS + "" == REPLICAS;
  }

  lemma {:induction false} ReplicasWritten(c: Codecs, rs: seq<Replica>)
    requires c.Valid() && forall i :: 0 <= i < |rs| ==> ReplicaOk(c.addressOk, rs[i])
    ensures Written(AllReplicaLines(c, rs))
  {
    if rs != [] {
      ReplicasWritten(c, rs[1..]);
      ReplicaLabels();
      assert ReplicaOk(c.addressOk, rs[0]);
      hide Meaningful, OneLine, IsLabel;
      LabelMeaningful(SERVER, rs[0].server, 6);
      LabelMeaningful(REPLICA_ID, c.encode64(rs[0].replicaId), 8);
      LabelMeaningful(REPLICA_KEY, c.encode64(rs[0].replicaKey), 8);
    }
  }

  lemma WrittenBoth(a: seq<string>, b: seq<string>)
    requires Written(a) && Written(b)
    ensures Written(a + b)
  {
  }

  lemma {:induction false} ChunksWritten(c: Codecs, xs: seq<Chunk>)
    requires c.Valid() && forall i :: 0 <= i < |xs| ==> ChunkOk(c.addressOk, xs[i])
    ensures Written(ChunkLines(c, xs))
  {
    if xs != [] {
      assert ChunkOk(c.addressOk, xs[0]);
      ChunksWritten(c, xs[1..]);
      ChunkHeadWritten(c, xs[0]);
      ReplicasWritten(c, xs[0].replicas);
      hide Written, ChunkHead, AllReplicaLines;
      WrittenBoth(ChunkHead(c, xs[0]), AllReplicaLines(c, xs[0].replicas));
      WrittenBoth(ChunkHead(c, xs[0]) + AllReplicaLines(c, xs[0].replicas), ChunkLines(c, xs[1..]));
    }
  }

  /** Printed and parsed again, a description is the same with its chunks sorted, if and
      only if its fileExtra is absent or not empty. */
  lemma ParseInverts(c: Codecs, description: Description)
    requires c.Valid() && Print(c, description).Some? && |Print(c, description).value| <= MAX_TEXT
    ensures var d := Normalize(c.u, c.addressOk, description).value;
            Parse(c, Print(c, description).value) == Some(d.(chunks := ByNumber(d.chunks))) <==> d.fileExtra != Some("")
  {
    var d := Normalize(c.u, c.addressOk, description).value;
    var sorted := d.(chunks := ByNumber(d.chunks));
    SortedIsNormal(c.u, c.addressOk, description);
    NormalHead(c, description);
    hide HeadOk, PlanOk, ChunkOk, SafeName, Written;
    PrintedReads(c, d, sorted.chunks);
    hide Normalize, ByNumber, Lines, ReadHead, ReadChunks, SplitLines, Kept;
    assert Print(c, description).value != "" by { NotEmpty(c, d); }
  }

  lemma NormalHead(c: Codecs, description: Description)
    requires Normalize(c.u, c.addressOk, description).Some?
    ensures HeadOk(Normalize(c.u, c.addressOk, description).value)
  {
  }

  lemma NotEmpty(c: Codecs, d: Description)
    ensures JoinLines(Lines(c, d)) != ""
  {
  }

  lemma PrintedReads(c: Codecs, d: Description, sorted: seq<Chunk>)
    requires c.Valid() && HeadOk(d) && sorted == ByNumber(d.chunks)
    requires forall i :: 0 <= i < |sorted| ==> ChunkOk(c.addressOk, sorted[i])
    ensures var lines := Kept(SplitLines(JoinLines(Lines(c, d))));
            && lines == Lines(c, d)
            && (d.fileExtra == Some("") ==> ReadHead(c, lines).None?)
            && (d.fileExtra != Some("") ==>
                  ReadHead(c, lines) == Some(Read(d.(chunks := []), ChunkLines(c, sorted)))
                      && ReadChunks(c, ChunkLines(c, sorted)) == Some(sorted))
  {
    hide Written, TopLines, NameLines, ChunkLines, ReadTop, ReadNames, ReadChunks;
    hide SplitLines, Kept, JoinLines, ByNumber, ChunkOk;
    TopWritten(c, d);
    NamesWritten(c, d);
    ChunksWritten(c, sorted);
    var chunks := ChunkLines(c, sorted);
    WrittenBoth(NameLines(c, d), chunks);
    WrittenBoth(TopLines(c, d), NameLines(c, d) + chunks);
    LinesComeBack(Lines(c, d));
    TopReads(c, d, NameLines(c, d) + chunks);
    NamesRead(c, d, chunks);
    ChunksRead(c, sorted);
  }
}
