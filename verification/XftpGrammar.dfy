/** Which texts are file descriptions: the parser of XftpText accepts exactly these
    (src/browser-xftp-web-client.mjs). */
module XftpGrammar {
  import opened Outcomes
  import opened Bytes
  import opened XftpDescription
  import opened XftpText

  // ------------------------------------------------------------------ lines

  predicate White(c: char) {
    var n := c as int;
    || 9 <= n <= 13 || n == 32 || n == 160 || n == 5760 || 8192 <= n <= 8202
    || n == 8232 || n == 8233 || n == 8239 || n == 8287 || n == 12288 || n == 65279
  }

  /** A line that says something: its first character that is not white space is not '#'. */
  ghost predicate Speaks(line: string) {
    exists i :: 0 <= i < |line| && !White(line[i]) && line[i] != '#' && forall j :: 0 <= j < i ==> White(line[j])
  }

  lemma MeaningfulSpeaks(line: string)
    ensures Meaningful(line) <==> Speaks(line)
  {
    assert forall i :: 0 <= i < |line| ==> (IsBlank(line[i]) <==> White(line[i]));
    var n := Indent(line);
    if i :| 0 <= i < |line| && !White(line[i]) && line[i] != '#' && forall j :: 0 <= j < i ==> White(line[j]) {
      assert n == i;
    }
  }

  lemma KeptStep(lines: seq<string>)
    requires lines != []
    ensures Kept(lines) == (if Meaningful(lines[0]) then [lines[0]] else []) + Kept(lines[1..])
  {
  }

  lemma Regrouped(a: seq<string>, b: seq<string>, c: seq<string>)
    ensures a + (b + c) == (a + b) + c
  {
  }

  lemma TailOfBoth(a: seq<string>, b: seq<string>)
    requires a != []
    ensures (a + b)[0] == a[0] && (a + b)[1..] == a[1..] + b
  {
  }

  lemma {:induction false} KeptConcat(a: seq<string>, b: seq<string>)
    ensures Kept(a + b) == Kept(a) + Kept(b)
  {
    if a == [] {
      hide Meaningful;
      assert a + b == b;
    } else {
      hide *;
      var head := if Meaningful(a[0]) then [a[0]] else [];
      KeptConcat(a[1..], b);
      KeptStep(a);
      KeptStep(a + b);
      TailOfBoth(a, b);
      Regrouped(head, Kept(a[1..]), Kept(b));
    }
  }

  /** The lines that say something are kept, in order, and no others. */
  lemma KeptExactly(before: seq<string>, line: string, after: seq<string>)
    ensures Kept(before + [line] + after) == Kept(before) + (if Speaks(line) then [line] else []) + Kept(after)
  {
    MeaningfulSpeaks(line);
    KeptConcat(before + [line], after);
    KeptConcat(before, [line]);
    hide Meaningful, Speaks;
    assert [line][1..] == [];
  }

  /** Lines behind each other, each but the last ended by a line feed, with a carriage return
      before it where `crlf` says so. */
  function Joined(lines: seq<string>, crlf: seq<bool>): string
    requires |lines| == |crlf| + 1
  {
    if crlf == [] then lines[0] else lines[0] + (if crlf[0] then "\r\n" else "\n") + Joined(lines[1..], crlf[1..])
  }

  /** No line holds a line feed, and a line before a bare line feed does not end in a carriage return. */
  ghost predicate Separate(lines: seq<string>, crlf: seq<bool>) {
    && |lines| == |crlf| + 1 && (forall i :: 0 <= i < |lines| ==> '\n' !in lines[i])
    && forall i :: 0 <= i < |crlf| && !crlf[i] && lines[i] != "" ==> lines[i][|lines[i]| - 1] != '\r'
  }

  /** Every text has one division into lines, and split finds it. */
  lemma SplitExactly(text: string, lines: seq<string>)
    ensures SplitLines(text) == lines <==> exists crlf :: Separate(lines, crlf) && Joined(lines, crlf) == text
  {
    var found := Divided(text);
    if crlf :| Separate(lines, crlf) && Joined(lines, crlf) == text { SplitJoined(lines, crlf); }
  }

  lemma DropsReturn(line: string, crlf: bool)
    requires !crlf && line != "" ==> line[|line| - 1] != '\r'
    ensures DropReturn(line + (if crlf then "\r" else "")) == line
  {
  }

  lemma {:induction false} SplitJoined(lines: seq<string>, crlf: seq<bool>)
    requires Separate(lines, crlf)
    ensures SplitLines(Joined(lines, crlf)) == lines
  {
    var line := lines[0];
    if crlf == [] {
      LineLengthIs(line, |line|);
    } else {
      SeparateRest(lines, crlf);
      SplitJoined(lines[1..], crlf[1..]);
      var shown := line + (if crlf[0] then "\r" else "");
      DropsReturn(line, crlf[0]);
      hide Separate, DropReturn, SplitLines;
      assert Joined(lines, crlf) == shown + "\n" + Joined(lines[1..], crlf[1..]);
      FirstLine(shown, Joined(lines[1..], crlf[1..]));
      assert lines == [line] + lines[1..];
    }
  }

  lemma SeparateRest(lines: seq<string>, crlf: seq<bool>)
    requires |lines| == |crlf| + 1 && crlf != []
    ensures Separate(lines, crlf) <==>
              && '\n' !in lines[0] && (!crlf[0] && lines[0] != "" ==> lines[0][|lines[0]| - 1] != '\r')
              && Separate(lines[1..], crlf[1..])
  {
    var ls, cs := lines[1..], crlf[1..];
    assert forall i :: 0 < i < |lines| ==> lines[i] == ls[i - 1];
    assert forall i :: 0 < i < |crlf| ==> crlf[i] == cs[i - 1];
  }

  lemma FirstLine(line: string, rest: string)
    requires '\n' !in line
    ensures SplitLines(line + "\n" + rest) == [DropReturn(line)] + SplitLines(rest)
  {
    var text := line + "\n" + rest;
    assert text[|line|] == '\n' && text[..|line|] == line && text[|line| + 1..] == rest;
    assert forall i :: 0 <= i < |line| ==> text[i] == line[i] && line[i] != '\n';
    LineLengthIs(text, |line|);
  }

  lemma {:induction false} Divided(text: string) returns (crlf: seq<bool>)
    ensures Separate(SplitLines(text), crlf) && Joined(SplitLines(text), crlf) == text
    decreases |text|
  {
    var n := LineLength(text);
    if n == |text| {
      crlf := [];
    } else {
      hide Separate, Joined, SplitLines, DropReturn;
      var line, rest := text[..n], text[n + 1..];
      var tail := Divided(rest);
      assert text == line + "\n" + rest;
      assert '\n' !in line;
      FirstLine(line, rest);
      crlf := [DropReturn(line) != line] + tail;
      DividedMore(line, SplitLines(rest), tail);
    }
  }

  lemma DividedMore(line: string, lines: seq<string>, crlf: seq<bool>)
    requires '\n' !in line && Separate(lines, crlf)
    ensures var all, ends := [DropReturn(line)] + lines, [DropReturn(line) != line] + crlf;
            Separate(all, ends) && Joined(all, ends) == line + "\n" + Joined(lines, crlf)
  {
    var kept := DropReturn(line);
    var all, ends := [kept] + lines, [kept != line] + crlf;
    assert all[1..] == lines && ends[1..] == crlf;
    SeparateRest(all, ends);
    assert line == kept + (if ends[0] then "\r" else "");
    hide Separate;
    assert "\r\n" == "\r" + "\n";
  }

  // ---------------------------------------------------------------- values

  /** Equal but for the case of letters. */
  ghost predicate EitherCase(a: string, b: string) {
    |a| == |b| && forall i :: 0 <= i < |a| ==>
      || a[i] == b[i]
      || (97 <= a[i] as int <= 122 && b[i] as int == a[i] as int - 32)
      || (97 <= b[i] as int <= 122 && a[i] as int == b[i] as int - 32)
  }

  lemma SameIsEither(a: string, b: string)
    ensures SameLetters(a, b) <==> EitherCase(a, b)
  {
  }

  /** Decimal digits, alone or before a unit in either case. */
  ghost predicate SizeText(t: string, n: nat) {
    || (AllDigits(t) && n == DigitsValue(t))
    || (exists k, unit, size: nat :: t == k + unit && AllDigits(k) && Unit(unit, size) && n == DigitsValue(k) * size)
  }

  ghost predicate Unit(unit: string, size: nat) {
    || (EitherCase(unit, "kb") && size == 1024)
    || (EitherCase(unit, "mb") && size == 1048576)
    || (EitherCase(unit, "gb") && size == 1073741824)
  }

  lemma UnitIs(unit: string, size: nat)
    ensures Unit(unit, size) <==> Multiplier(unit) == Some(size)
  {
    SameIsEither(unit, "kb");
    SameIsEither(unit, "mb");
    SameIsEither(unit, "gb");
    hide EitherCase;
  }

  lemma UnitAt(t: string, k: string, unit: string, size: nat)
    requires t == k + unit && k != "" && Unit(unit, size)
    ensures |t| > 2 && k == t[..|t| - 2] && Multiplier(t[|t| - 2..]) == Some(size) && !AllDigits(t)
  {
    UnitIs(unit, size);
    hide Unit;
    assert t[|t| - 2..] == unit && t[|t| - 1] == unit[1];
  }

  lemma SizeTextRead(t: string, n: nat)
    requires SizeText(t, n) && n <= 9007199254740991
    ensures ParseSize(t) == Some(n)
  {
    if AllDigits(t) && n == DigitsValue(t) {
      assert IsDigit(t[|t| - 1]);
      if |t| > 2 { assert t[|t| - 2..][1] == t[|t| - 1]; }
    } else {
      var k, unit, size: nat :| t == k + unit && AllDigits(k) && Unit(unit, size) && n == DigitsValue(k) * size;
      UnitAt(t, k, unit, size);
      hide Unit, Multiplier;
    }
  }

  lemma ReadSizeText(t: string, n: nat)
    requires ParseSize(t) == Some(n)
    ensures SizeText(t, n) && n <= 9007199254740991
  {
    if |t| > 2 && Multiplier(t[|t| - 2..]).Some? {
      var k, unit, size := t[..|t| - 2], t[|t| - 2..], Multiplier(t[|t| - 2..]).value;
      UnitIs(unit, size);
      hide Unit, Multiplier;
      assert t == k + unit;
    }
  }

  /** Which texts are sizes, and of how many bytes. */
  lemma SizeExactly(t: string, n: nat)
    ensures ParseSize(t) == Some(n) <==> n <= 9007199254740991 && SizeText(t, n)
  {
    hide *;
    if ParseSize(t) == Some(n) { ReadSizeText(t, n); }
    if n <= 9007199254740991 && SizeText(t, n) { SizeTextRead(t, n); }
  }

  /** A size is written in whole megabytes if it can be, else in whole kilobytes, else in bytes. */
  lemma FormatExactly(n: nat)
    ensures FormatSize(n) == if n > 0 && n % 1048576 == 0 then Decimal(n / 1048576) + "mb"
                             else if n > 0 && n % 1024 == 0 then Decimal(n / 1024) + "kb" else Decimal(n)
  {
    hide Decimal;
  }

  // ---------------------------------------------------------------- grammar

  ghost predicate SizeLine(line: string, lead: string, n: nat) {
    && n <= 9007199254740991
    && exists l, t :: line == l + t && EitherCase(l, lead) && SizeText(t, n)
  }

  ghost predicate NumberLine(line: string, lead: string, n: nat) {
    exists t :: line == lead + t && AllDigits(t) && DigitsValue(t) == n
  }

  ghost predicate BytesLine(c: Codecs, line: string, lead: string, b: bytes) {
    exists t :: line == lead + t && c.decode64(t) == Some(b)
  }

  ghost predicate TextLine(c: Codecs, line: string, lead: string, s: Option<string>) {
    if s.None? then line == lead + "-"
    else exists t, b :: line == lead + t && t != "-" && c.decode64(t) == Some(b) && c.u.decode(b) == s
  }

  lemma SizeLineReads(lines: seq<string>, lead: string, n: nat, rest: seq<string>)
    ensures ReadSize(lines, lead) == Some(Read(n, rest)) <==>
              lines != [] && SizeLine(lines[0], lead, n) && rest == lines[1..]
  {
    if lines != [] && |lines[0]| >= |lead| {
      var line := lines[0];
      assert line == line[..|lead|] + line[|lead|..];
      SizeExactly(line[|lead|..], n);
      SameIsEither(line[..|lead|], lead);
      forall l, t | line == l + t && EitherCase(l, lead) ensures l == line[..|lead|] && t == line[|lead|..] {}
    }
    hide SizeText, ParseSize, SameLetters;
  }

  lemma LeadSplits(line: string, lead: string)
    ensures forall t {:trigger lead + t} :: line == lead + t <==> lead <= line && t == line[|lead|..]
  {
    if lead <= line { assert line == lead + line[|lead|..]; }
    forall t ensures line == lead + t <==> lead <= line && t == line[|lead|..] {
      if line == lead + t { assert line[|lead|..] == t; }
    }
  }

  lemma NumberLineReads(lines: seq<string>, lead: string, limit: nat, n: nat, rest: seq<string>)
    ensures ReadNumber(lines, lead, limit) == Some(Read(n, rest)) <==>
              lines != [] && NumberLine(lines[0], lead, n) && n <= limit && rest == lines[1..]
  {
    if lines != [] { LeadSplits(lines[0], lead); }
    hide AllDigits, DigitsValue;
  }

  lemma BytesLineReads(c: Codecs, lines: seq<string>, lead: string, b: bytes, rest: seq<string>)
    ensures ReadBytes(c, lines, lead) == Some(Read(b, rest)) <==>
              lines != [] && BytesLine(c, lines[0], lead, b) && rest == lines[1..]
  {
    if lines != [] { LeadSplits(lines[0], lead); }
  }

  lemma TextLineReads(c: Codecs, lines: seq<string>, lead: string, s: Option<string>, rest: seq<string>)
    ensures ReadMaybe(c, lines, lead) == Some(Read(s, rest)) <==>
              lines != [] && TextLine(c, lines[0], lead, s) && rest == lines[1..]
  {
    if lines != [] { LeadSplits(lines[0], lead); }
  }

  ghost predicate TopForm(c: Codecs, lines: seq<string>, t: Top) {
    && |lines| >= 6 && lines[0] == "simplexWebXftpDescription: 1"
    && lines[1] == (if t.party == Sender then "party: sender" else "party: recipient")
    && SizeLine(lines[2], "size: ", t.size)
    && BytesLine(c, lines[3], "digest: ", t.digest) && |t.digest| == 64
    && BytesLine(c, lines[4], "key: ", t.key) && |t.key| == 32
    && BytesLine(c, lines[5], "nonce: ", t.nonce) && |t.nonce| == 24
  }

  ghost predicate NamesForm(c: Codecs, lines: seq<string>, n: Names) {
    && |lines| >= 4 && SizeLine(lines[0], "chunkSize: ", n.chunkSize)
    && TextLine(c, lines[1], "fileName: ", n.fileName) && TextLine(c, lines[2], "fileExtra: ", n.fileExtra)
    && lines[3] == "chunks:"
  }

  /** The ten lines before the chunks; a file without a name has the empty one. */
  ghost predicate HeadForm(c: Codecs, lines: seq<string>, d: Description) {
    && |lines| == 10 && TopForm(c, lines, Top(d.party, d.size, d.digest, d.key, d.nonce))
    && exists name :: NamesForm(c, lines[6..], Names(d.chunkSize, name, d.fileExtra))
                      && d.fileName == if name == None then "" else name.value
  }

  ghost predicate ReplicaForm(c: Codecs, lines: seq<string>, r: Replica) {
    && |lines| == 3 && lines[0] == "      - server: " + r.server && c.addressOk(r.server)
    && BytesLine(c, lines[1], "        replicaId: ", r.replicaId)
    && BytesLine(c, lines[2], "        replicaKey: ", r.replicaKey)
  }

  ghost predicate ReplicasForm(c: Codecs, lines: seq<string>, rs: seq<Replica>) {
    if rs == [] then lines == []
    else |lines| >= 3 && ReplicaForm(c, lines[..3], rs[0]) && ReplicasForm(c, lines[3..], rs[1..])
  }

  /** The five lines of a chunk before its replicas. */
  ghost predicate ChunkTop(c: Codecs, lines: seq<string>, x: Chunk) {
    && |lines| >= 5
    && NumberLine(lines[0], "  - chunkNo: ", x.chunkNo) && 1 <= x.chunkNo <= 4294967295
    && NumberLine(lines[1], "    offset: ", x.offset) && x.offset <= 9007199254740991
    && SizeLine(lines[2], "    chunkSize: ", x.chunkSize)
    && BytesLine(c, lines[3], "    digest: ", x.digest) && |x.digest| == 32
    && lines[4] == "    replicas:"
  }

  ghost predicate ChunkForm(c: Codecs, lines: seq<string>, x: Chunk) {
    ChunkTop(c, lines, x) && ReplicasForm(c, lines[5..], x.replicas)
  }

  /** The lines of the chunks one behind the other: five, and three for each replica. */
  ghost predicate ChunksForm(c: Codecs, lines: seq<string>, xs: seq<Chunk>) {
    if xs == [] then lines == []
    else
      var n := 5 + 3 * |xs[0].replicas|;
      n <= |lines| && ChunkForm(c, lines[..n], xs[0]) && ChunksForm(c, lines[n..], xs[1..])
  }

  // ----------------------------------------------------------------- parser

  lemma ReplicaReads(c: Codecs, lines: seq<string>, r: Replica, rest: seq<string>)
    ensures ReadReplica(c, lines) == Some(Read(r, rest)) <==>
              |lines| >= 3 && ReplicaForm(c, lines[..3], r) && rest == lines[3..]
  {
    if lines != [] {
      LeadSplits(lines[0], SERVER);
      var l1 := lines[1..];
      BytesLinesRead(c, l1, REPLICA_ID);
      if l1 != [] {
        BytesLinesRead(c, l1[1..], REPLICA_KEY);
        assert l1[1..] == lines[2..];
        if |lines| > 2 { assert l1[1..][1..] == lines[3..]; }
      }
    }
    hide BytesLine, ReadBytes;
  }

  lemma BytesLinesRead(c: Codecs, lines: seq<string>, lead: string)
    ensures forall b, rest {:trigger Read(b, rest)} :: ReadBytes(c, lines, lead) == Some(Read(b, rest)) <==>
              lines != [] && BytesLine(c, lines[0], lead, b) && rest == lines[1..]
    ensures lines == [] ==> ReadBytes(c, lines, lead) == None
  {
    forall b, rest ensures ReadBytes(c, lines, lead) == Some(Read(b, rest)) <==>
                             lines != [] && BytesLine(c, lines[0], lead, b) && rest == lines[1..]
    {
      BytesLineReads(c, lines, lead, b, rest);
    }
  }

  predicate NoServer(lines: seq<string>) {
    lines == [] || !(SERVER <= lines[0])
  }

  /** The lines of these replicas, and then no further one. */
  ghost predicate ReplicasAhead(c: Codecs, lines: seq<string>, rs: seq<Replica>, rest: seq<string>) {
    var n := 3 * |rs|;
    n <= |lines| && ReplicasForm(c, lines[..n], rs) && rest == lines[n..] && NoServer(rest)
  }

  lemma AheadStep(c: Codecs, lines: seq<string>, rs: seq<Replica>, rest: seq<string>)
    requires rs != []
    ensures ReplicasAhead(c, lines, rs, rest) <==>
              |lines| >= 3 && ReplicaForm(c, lines[..3], rs[0]) && ReplicasAhead(c, lines[3..], rs[1..], rest)
  {
    var n := 3 * |rs|;
    if n <= |lines| {
      assert lines[..n][..3] == lines[..3] && lines[..n][3..] == lines[3..][..n - 3] && lines[n..] == lines[3..][n - 3..];
    }
    hide ReplicaForm, NoServer;
  }

  lemma {:induction false} ReplicasRead(c: Codecs, lines: seq<string>, rs: seq<Replica>, rest: seq<string>)
    ensures ReadReplicas(c, lines) == Some(Read(rs, rest)) <==> ReplicasAhead(c, lines, rs, rest)
    decreases |lines|
  {
    if rs == [] {
      NoneAhead(c, lines, rest);
    } else {
      AheadStep(c, lines, rs, rest);
      if |lines| >= 3 { ReplicasRead(c, lines[3..], rs[1..], rest); }
      hide ReplicasAhead;
      MoreRead(c, lines, rs, rest);
    }
  }

  lemma NoneAhead(c: Codecs, lines: seq<string>, rest: seq<string>)
    ensures ReadReplicas(c, lines) == Some(Read([], rest)) <==> ReplicasAhead(c, lines, [], rest)
  {
    assert lines[..0] == [] && lines[0..] == lines;
    hide ReadReplica;
  }

  lemma MoreRead(c: Codecs, lines: seq<string>, rs: seq<Replica>, rest: seq<string>)
    requires rs != []
    ensures ReadReplicas(c, lines) == Some(Read(rs, rest)) <==>
              && |lines| >= 3 && ReplicaForm(c, lines[..3], rs[0])
              && ReadReplicas(c, lines[3..]) == Some(Read(rs[1..], rest))
  {
    ReplicaReads(c, lines, rs[0], if |lines| >= 3 then lines[3..] else []);
    if |lines| >= 3 && ReplicaForm(c, lines[..3], rs[0]) {
      assert lines[..3][0] == SERVER + rs[0].server && SERVER <= lines[0];
    }
    if ReadReplicas(c, lines) == Some(Read(rs, rest)) {
      var one := ReadReplica(c, lines).value;
      ReplicaReads(c, lines, one.value, one.rest);
      hide ReadReplica, ReplicaForm;
      assert rs == [one.value] + ReadReplicas(c, one.rest).value.value;
    }
    hide ReadReplica, ReplicaForm;
    assert rs == [rs[0]] + rs[1..];
  }

  lemma ChunkIsRead(c: Codecs, lines: seq<string>, x: Chunk, rest: seq<string>)
    requires ChunkTop(c, lines, x) && ReplicasAhead(c, lines[5..], x.replicas, rest)
    ensures ReadChunk(c, lines) == Some(Read(x, rest))
  {
    hide ReadNumber, ReadSize, ReadBytes, ReadReplicas, NumberLine, SizeLine, BytesLine, ReplicasAhead;
    NumberLineReads(lines, CHUNK_NO, MAX_WORD32, x.chunkNo, lines[1..]);
    NumberLineReads(lines[1..], OFFSET, MAX_SAFE, x.offset, lines[2..]);
    SizeLineReads(lines[2..], EACH_SIZE, x.chunkSize, lines[3..]);
    BytesLineReads(c, lines[3..], EACH_DIGEST, x.digest, lines[4..]);
    assert ReadMark(lines[4..], REPLICAS) == Some(lines[5..]);
    ReplicasRead(c, lines[5..], x.replicas, rest);
  }

  lemma ReadIsChunk(c: Codecs, lines: seq<string>, x: Chunk, rest: seq<string>)
    requires ReadChunk(c, lines) == Some(Read(x, rest))
    ensures ChunkTop(c, lines, x) && ReplicasAhead(c, lines[5..], x.replicas, rest)
  {
    hide ReadNumber, ReadSize, ReadBytes, ReadReplicas, NumberLine, SizeLine, BytesLine, ReplicasAhead;
    var l1 := ReadNumber(lines, CHUNK_NO, MAX_WORD32).value.rest;
    var l2 := ReadNumber(l1, OFFSET, MAX_SAFE).value.rest;
    var l3 := ReadSize(l2, EACH_SIZE).value.rest;
    var l4 := ReadBytes(c, l3, EACH_DIGEST).value.rest;
    NumberLineReads(lines, CHUNK_NO, MAX_WORD32, x.chunkNo, l1);
    NumberLineReads(l1, OFFSET, MAX_SAFE, x.offset, l2);
    SizeLineReads(l2, EACH_SIZE, x.chunkSize, l3);
    BytesLineReads(c, l3, EACH_DIGEST, x.digest, l4);
    ReplicasRead(c, l4[1..], x.replicas, rest);
    assert l4[1..] == lines[5..];
  }

  lemma ChunkAhead(c: Codecs, lines: seq<string>, x: Chunk, rest: seq<string>)
    ensures ChunkTop(c, lines, x) && ReplicasAhead(c, lines[5..], x.replicas, rest) <==>
              var n := 5 + 3 * |x.replicas|;
              n <= |lines| && ChunkForm(c, lines[..n], x) && rest == lines[n..] && NoServer(rest)
  {
    var n := 5 + 3 * |x.replicas|;
    if n <= |lines| {
      assert lines[..n][5..] == lines[5..][..n - 5] && lines[n..] == lines[5..][n - 5..];
      assert ChunkTop(c, lines[..n], x) <==> ChunkTop(c, lines, x);
    }
    hide ChunkTop, ReplicasForm, NoServer;
  }

  lemma LeadDiffers(line: string, n: nat)
    requires NumberLine(line, "  - chunkNo: ", n)
    ensures !(SERVER <= line)
  {
    var t :| line == "  - chunkNo: " + t;
    assert line[2] == '-' && SERVER[2] == ' ';
  }

  lemma ChunkFirst(c: Codecs, lines: seq<string>, xs: seq<Chunk>)
    requires ChunksForm(c, lines, xs)
    ensures NoServer(lines)
  {
    if xs != [] {
      hide SizeLine, BytesLine, ReplicasForm;
      LeadDiffers(lines[0], xs[0].chunkNo);
      hide NumberLine;
    }
  }

  lemma {:induction false} ChunksRead(c: Codecs, lines: seq<string>, xs: seq<Chunk>)
    ensures ReadChunks(c, lines) == Some(xs) <==> ChunksForm(c, lines, xs)
    decreases |lines|
  {
    hide ReadChunk, ChunkForm, ChunkTop, ReplicasAhead, NoServer;
    if lines != [] {
      if ReadChunks(c, lines) == Some(xs) {
        var one := ReadChunk(c, lines).value;
        assert xs == [one.value] + ReadChunks(c, one.rest).value;
        ReadIsChunk(c, lines, one.value, one.rest);
        ChunkAhead(c, lines, one.value, one.rest);
        ChunksRead(c, one.rest, xs[1..]);
      }
      if ChunksForm(c, lines, xs) {
        var rest := lines[5 + 3 * |xs[0].replicas|..];
        ChunkFirst(c, rest, xs[1..]);
        ChunkAhead(c, lines, xs[0], rest);
        ChunkIsRead(c, lines, xs[0], rest);
        ChunksRead(c, rest, xs[1..]);
        assert xs == [xs[0]] + xs[1..];
      }
    }
  }

  lemma TopIsRead(c: Codecs, lines: seq<string>, t: Top)
    requires TopForm(c, lines, t)
    ensures ReadTop(c, lines) == Some(Read(t, lines[6..]))
  {
    hide ReadSize, ReadBytes, SizeLine, BytesLine, ReadParty;
    assert ReadMark(lines, MARKER) == Some(lines[1..]);
    PartyReads(t.party, lines[2..]);
    assert PARTY + "sender" == "party: sender" && PARTY + "recipient" == "party: recipient";
    assert lines[1..] == [PARTY + PartyName(t.party)] + lines[2..];
    SizeLineReads(lines[2..], SIZE, t.size, lines[3..]);
    BytesLineReads(c, lines[3..], DIGEST, t.digest, lines[4..]);
    BytesLineReads(c, lines[4..], KEY, t.key, lines[5..]);
    BytesLineReads(c, lines[5..], XftpText.NONCE, t.nonce, lines[6..]);
  }

  lemma NamesAreRead(c: Codecs, lines: seq<string>, n: Names)
    requires NamesForm(c, lines, n)
    ensures ReadNames(c, lines) == Some(Read(n, lines[4..]))
  {
    hide ReadSize, ReadMaybe, SizeLine, TextLine;
    SizeLineReads(lines, CHUNK_SIZE, n.chunkSize, lines[1..]);
    TextLineReads(c, lines[1..], FILE_NAME, n.fileName, lines[2..]);
    TextLineReads(c, lines[2..], FILE_EXTRA, n.fileExtra, lines[3..]);
    assert ReadMark(lines[3..], CHUNKS) == Some(lines[4..]);
  }

  lemma HeadIsRead(c: Codecs, lines: seq<string>, d: Description)
    requires |lines| >= 10 && HeadForm(c, lines[..10], d)
    ensures ReadHead(c, lines) == Some(Read(d.(chunks := []), lines[10..]))
  {
    var t := Top(d.party, d.size, d.digest, d.key, d.nonce);
    var name :| NamesForm(c, lines[..10][6..], Names(d.chunkSize, name, d.fileExtra))
                && d.fileName == if name == None then "" else name.value;
    var n := Names(d.chunkSize, name, d.fileExtra);
    hide SizeLine, BytesLine, TextLine, ReadTop, ReadNames;
    assert NamesForm(c, lines[6..], n) && TopForm(c, lines, t);
    TopIsRead(c, lines, t);
    NamesAreRead(c, lines[6..], n);
    assert lines[6..][4..] == lines[10..];
  }

  lemma ReadIsTop(c: Codecs, lines: seq<string>, t: Top, rest: seq<string>)
    requires ReadTop(c, lines) == Some(Read(t, rest))
    ensures TopForm(c, lines, t) && rest == lines[6..]
  {
    hide ReadSize, ReadBytes, SizeLine, BytesLine, ReadParty;
    var l1 := ReadMark(lines, MARKER).value;
    var l2 := ReadParty(l1).value.rest;
    var l3 := ReadSize(l2, SIZE).value.rest;
    var l4 := ReadBytes(c, l3, DIGEST).value.rest;
    var l5 := ReadBytes(c, l4, KEY).value.rest;
    PartyIsRead(l1, t.party, l2);
    SizeLineReads(l2, SIZE, t.size, l3);
    BytesLineReads(c, l3, DIGEST, t.digest, l4);
    BytesLineReads(c, l4, KEY, t.key, l5);
    BytesLineReads(c, l5, XftpText.NONCE, t.nonce, rest);
  }

  lemma PartyIsRead(lines: seq<string>, p: Party, rest: seq<string>)
    requires ReadParty(lines) == Some(Read(p, rest))
    ensures lines != [] && lines[0] == (if p == Sender then "party: sender" else "party: recipient") && rest == lines[1..]
  {
    LeadSplits(lines[0], PARTY);
    assert PARTY + "sender" == "party: sender" && PARTY + "recipient" == "party: recipient";
  }

  lemma ReadIsNames(c: Codecs, lines: seq<string>, n: Names, rest: seq<string>)
    requires ReadNames(c, lines) == Some(Read(n, rest))
    ensures NamesForm(c, lines, n) && rest == lines[4..]
  {
    hide ReadSize, ReadMaybe, SizeLine, TextLine;
    var l1 := ReadSize(lines, CHUNK_SIZE).value.rest;
    var l2 := ReadMaybe(c, l1, FILE_NAME).value.rest;
    var l3 := ReadMaybe(c, l2, FILE_EXTRA).value.rest;
    SizeLineReads(lines, CHUNK_SIZE, n.chunkSize, l1);
    TextLineReads(c, l1, FILE_NAME, n.fileName, l2);
    TextLineReads(c, l2, FILE_EXTRA, n.fileExtra, l3);
  }

  lemma ReadIsHead(c: Codecs, lines: seq<string>, d: Description, rest: seq<string>)
    requires ReadHead(c, lines) == Some(Read(d, rest))
    ensures |lines| >= 10 && HeadForm(c, lines[..10], d) && rest == lines[10..] && d.chunks == []
  {
    hide TopForm, NamesForm, HeadForm, ReadTop, ReadNames;
    var top := ReadTop(c, lines).value;
    var names := ReadNames(c, top.rest).value;
    ReadIsTop(c, lines, top.value, top.rest);
    ReadIsNames(c, top.rest, names.value, names.rest);
    HeadFromParts(c, lines, top.value, names.value, d);
  }

  lemma HeadFromParts(c: Codecs, lines: seq<string>, t: Top, n: Names, d: Description)
    requires TopForm(c, lines, t) && NamesForm(c, lines[6..], n)
    requires d == Description(t.party, t.size, t.digest, t.key, t.nonce, n.chunkSize,
                              if n.fileName.Some? then n.fileName.value else "", n.fileExtra, [])
    ensures |lines| >= 10 && HeadForm(c, lines[..10], d) && lines[6..][4..] == lines[10..]
  {
    hide SizeLine, BytesLine, TextLine;
    assert NamesForm(c, lines[..10][6..], n);
  }

  /** A text is read as a description if and only if it is not empty nor over a mebibyte, and
      the lines that say something are the head and the chunks of one that is accepted. */
  lemma ParseExactly(c: Codecs, text: string, d: Description)
    ensures Parse(c, text) == Some(d) <==>
              && 1 <= |text| <= 1048576
              && var lines := Kept(SplitLines(text));
                 |lines| >= 10 && exists read: Description ::
                   && HeadForm(c, lines[..10], read) && ChunksForm(c, lines[10..], read.chunks)
                   && Normalize(c.u, c.addressOk, read) == Some(d)
  {
    hide ReadHead, ReadChunks, HeadForm, ChunksForm, Normalize, Kept, SplitLines;
    var lines := Kept(SplitLines(text));
    if Parse(c, text) == Some(d) {
      var head := ReadHead(c, lines).value;
      var chunks := ReadChunks(c, head.rest).value;
      ReadIsHead(c, lines, head.value, head.rest);
      ChunksRead(c, head.rest, chunks);
      HeadOnly(c, lines[..10], head.value, chunks);
    }
    if |lines| >= 10 {
      forall read: Description | HeadForm(c, lines[..10], read) && ChunksForm(c, lines[10..], read.chunks)
        ensures ReadHead(c, lines) == Some(Read(read.(chunks := []), lines[10..]))
                && ReadChunks(c, lines[10..]) == Some(read.chunks)
      {
        HeadIsRead(c, lines, read);
        ChunksRead(c, lines[10..], read.chunks);
      }
    }
  }

  lemma HeadOnly(c: Codecs, lines: seq<string>, d: Description, chunks: seq<Chunk>)
    ensures HeadForm(c, lines, d) <==> HeadForm(c, lines, d.(chunks := chunks))
  {
    hide SizeLine, BytesLine, TextLine;
  }
}
