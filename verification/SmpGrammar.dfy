/** The byte strings that are commands and broker messages, and that the parsers of
    SmpCommands accept these and no others (src/browser-smp-core.mjs). */
module SmpGrammar {
  import opened Outcomes
  import opened Bytes
  import opened SmpCommands

  function Ascii(text: string): bytes
    requires forall i :: 0 <= i < |text| ==> text[i] < '\U{0080}'
  {
    seq(|text|, i requires 0 <= i < |text| && text[i] < '\U{0080}' => text[i] as int)
  }

  // ---------------------------------------------------------------- pieces

  /** A length byte and as many bytes. */
  predicate Small(b: bytes, x: bytes) {
    |x| <= 255 && b == [|x|] + x
  }

  /** '0', or '1' and a small string. */
  predicate MaybeForm(b: bytes, x: Option<bytes>) {
    match x
    case None => b == [0x30]
    case Some(value) => |value| <= 255 && b == [0x31, |value|] + value
  }

  /** The queue mode of NEW: none before version 9, "sender can secure" as T or F before 15,
      and then '0', or '1' with M or C and a '0' for no link data. */
  predicate NewMode(v: nat, b: bytes, mode: Option<QueueMode>) {
    if v < 9 then b == [] && mode.None?
    else if v < 15 then mode.Some? && b == [if mode.value.Messaging? then 0x54 else 0x46]
    else match mode
         case None => b == [0x30]
         case Some(m) => b == [0x31, if m.Messaging? then 0x4d else 0x43, 0x30]
  }

  /** And of IDS, without the link data. */
  predicate IdsMode(v: nat, b: bytes, mode: Option<QueueMode>) {
    if v < 15 then NewMode(v, b, mode)
    else match mode
         case None => b == [0x30]
         case Some(m) => b == [0x31, if m.Messaging? then 0x4d else 0x43]
  }

  predicate SubForm(v: nat, b: bytes, sub: Option<SubMode>) {
    if v < 6 then b == [] && sub.None? else sub.Some? && b == [if sub.value.Subscribe? then 0x53 else 0x43]
  }

  predicate AuthForm(v: nat, b: bytes, auth: Option<bytes>) {
    if v < 7 then b == [] && auth.None? else MaybeForm(b, auth)
  }

  // -------------------------------------------------------------- commands

  function CommandName(c: Command): string {
    match c
    case New(_, _, _, _, _) => "NEW" case Sub => "SUB" case Key(_) => "KEY" case SKey(_) => "SKEY" case NKey(_, _) => "NKEY"
    case NDel => "NDEL" case Get => "GET" case Ack(_) => "ACK" case Off => "OFF" case Del => "DEL"
    case Send(_, _) => "SEND" case Ping => "PING" case NSub => "NSUB"
  }

  /** What may stand behind the name.  Between the flag of SEND and the space before its body
      any bytes but spaces may stand. */
  ghost predicate CommandForm(v: nat, c: Command, p: bytes) {
    match c
    case New(k, dh, auth, sub, mode) =>
      exists a, s, m :: NewForm(v, c, p, a, s, m)
    case Key(k) => Small(p, k)
    case SKey(k) => Small(p, k)
    case NKey(k, dh) => |k| <= 255 && |dh| <= 255 && p == [|k|] + k + ([|dh|] + dh)
    case Ack(m) => if v == 1 then p == [] && m == [] else Small(p, m)
    case Send(n, body) =>
      exists filler: bytes :: 0x20 !in filler && p == [if n then 0x54 else 0x46] + filler + [0x20] + body
    case _ => p == []
  }

  predicate NewForm(v: nat, c: Command, p: bytes, a: bytes, s: bytes, m: bytes)
    requires c.New?
  {
    && |c.verifyKey| <= 255 && |c.dhKey| <= 255
    && AuthForm(v, a, c.auth) && SubForm(v, s, c.sub) && NewMode(v, m, c.mode)
    && p == [|c.verifyKey|] + c.verifyKey + ([|c.dhKey|] + c.dhKey + (a + (s + m)))
  }

  /** A name, and behind a space what belongs to it; with nothing there the space may be left out. */
  predicate Behind(b: bytes, name: bytes, p: bytes) {
    b == name + [0x20] + p || (p == [] && b == name)
  }

  // --------------------------------------------------- the pieces are read exactly

  lemma CutTagExactly(b: bytes, tag: bytes, p: bytes)
    requires IsTag(tag)
    ensures CutTag(b) == Ok(Tagged(tag, p)) <==> Behind(b, tag, p)
  {
    if Behind(b, tag, p) { TagCut(tag, p); }
    var n := ToSpace(b);
    if n < |b| { assert b == b[..n] + [SPACE] + b[n + 1..]; }
  }

  lemma CutTagIsTag(b: bytes)
    ensures CutTag(b).Ok? ==> IsTag(CutTag(b).value.tag)
  {
  }

  lemma {:induction false} FindTagExactly(b: bytes, tags: seq<Tag>, t: Tag)
    requires t in tags
    ensures FindTag(b, tags) == Some(t) <==> b == Spelling(t)
  {
    hide Spelling;
    if b == Spelling(tags[0]) {
      SpellingsDiffer(t, tags[0]);
    } else if t in tags[1..] {
      FindTagExactly(b, tags[1..], t);
    } else {
      FoundIsThere(b, tags[1..]);
    }
  }

  lemma {:induction false} FoundIsThere(b: bytes, tags: seq<Tag>)
    ensures FindTag(b, tags).Some? ==> FindTag(b, tags).value in tags
  {
    hide Spelling;
    if tags != [] { FoundIsThere(b, tags[1..]); }
  }

  lemma MaybeExactly(b: bytes, x: Option<bytes>, rest: bytes)
    ensures CutMaybe(b) == Ok(Taken(x, rest)) <==> exists a :: MaybeForm(a, x) && b == a + rest
  {
    var a := if x.None? then [0x30] else [0x31, |x.value| % 256] + x.value;
    MaybeIs(b, x, rest, a);
    assert forall a' :: MaybeForm(a', x) ==> a' == a;
    hide CutMaybe, MaybeForm;
  }

  lemma MaybeIs(b: bytes, x: Option<bytes>, rest: bytes, a: bytes)
    requires a == if x.None? then [0x30] else [0x31, |x.value| % 256] + x.value
    ensures CutMaybe(b) == Ok(Taken(x, rest)) <==> MaybeForm(a, x) && b == a + rest
  {
    if b == [] {
      assert a + rest != [];
    } else {
      var tail := b[1..];
      assert b == [b[0]] + tail;
      if x.None? {
        NothingIs(b[0], tail, rest);
      } else {
        SomethingIs(b[0], tail, x.value, rest);
      }
    }
    hide CutSmall;
  }

  lemma NothingIs(first: byte, tail: bytes, rest: bytes)
    ensures [first] + tail == [0x30] + rest <==> first == 0x30 && tail == rest
  {
    assert ([first] + tail)[0] == first && ([first] + tail)[1..] == tail && ([0x30] + rest)[1..] == rest;
  }

  lemma SomethingIs(first: byte, tail: bytes, x: bytes, rest: bytes)
    ensures |x| <= 255 ==> ([first] + tail == [0x31, |x|] + x + rest <==> first == 0x31 && tail == [|x|] + x + rest)
    ensures CutSmall(tail) == Ok(Taken(x, rest)) <==> |x| <= 255 && tail == [|x|] + x + rest
  {
    SmallExactly(x, rest, tail);
    if |x| <= 255 {
      assert [0x31, |x|] + x + rest == [0x31] + ([|x|] + x + rest);
      assert ([first] + tail)[0] == first && ([first] + tail)[1..] == tail;
      assert ([0x31] + ([|x|] + x + rest))[1..] == [|x|] + x + rest;
    }
    hide CutSmall;
  }

  lemma SubExactly(v: nat, b: bytes, sub: Option<SubMode>, rest: bytes)
    ensures (if v >= 6 then CutSome(CutSub(b)) else Ok(Taken(None, b))) == Ok(Taken(sub, rest))
            <==> exists s :: SubForm(v, s, sub) && b == s + rest
  {
    var s: bytes := if v < 6 then [] else if sub.Some? && sub.value.Subscribe? then [0x53] else [0x43];
    if v >= 6 && b != [] { assert b == [b[0]] + b[1..]; }
    if b == s + rest { assert v >= 6 ==> b[1..] == rest; }
    assert [] + rest == rest;
    assert SubForm(v, s, sub) ==> forall s' :: SubForm(v, s', sub) ==> s' == s;
    assert SubForm(v, s, sub) || forall s' :: !SubForm(v, s', sub);
  }

  lemma NewModeExactly(v: nat, b: bytes, mode: Option<QueueMode>)
    ensures (if v >= 15 then CutMode(b, true) else if v >= 9 then CutOldMode(b) else Ok(Taken(None, b))) == Ok(Taken(mode, []))
            <==> NewMode(v, b, mode)
  {
    if v >= 15 && |b| >= 3 { assert b == [b[0], b[1], b[2]] + b[3..]; }
    if v >= 9 && b != [] { assert b == [b[0]] + b[1..]; }
  }

  function AuthCut(v: nat, b: bytes): Result<Taken<Option<bytes>>, Fault> {
    if v >= 7 then CutMaybe(b) else Ok(Taken(None, b))
  }

  function SubCut(v: nat, b: bytes): Result<Taken<Option<SubMode>>, Fault> {
    if v >= 6 then CutSome(CutSub(b)) else Ok(Taken(None, b))
  }

  function ModeCut(v: nat, b: bytes): Result<Taken<Option<QueueMode>>, Fault> {
    if v >= 15 then CutMode(b, true) else if v >= 9 then CutOldMode(b) else Ok(Taken(None, b))
  }

  /** The parts of NEW one after the other. */
  lemma NewInParts(v: nat, p: bytes)
    ensures ParseNew(v, p) ==
              match CutSmall(p) case Err(e) => Err(e) case Ok(verify) =>
              match CutSmall(verify.rest) case Err(e) => Err(e) case Ok(dh) =>
              match AuthCut(v, dh.rest) case Err(e) => Err(e) case Ok(auth) =>
              match SubCut(v, auth.rest) case Err(e) => Err(e) case Ok(sub) =>
              match ModeCut(v, sub.rest) case Err(e) => Err(e) case Ok(mode) =>
                Done(New(verify.value, dh.value, auth.value, sub.value, mode.value), mode.rest)
  {
    hide CutSmall, CutMaybe, CutSub, CutMode, CutOldMode, Done;
  }

  lemma AuthExactly(v: nat, b: bytes, auth: Option<bytes>, rest: bytes)
    ensures AuthCut(v, b) == Ok(Taken(auth, rest)) <==> exists a :: AuthForm(v, a, auth) && b == a + rest
  {
    MaybeExactly(b, auth, rest);
    if v < 7 {
      assert [] + rest == rest;
      if auth.None? && b == rest { assert AuthForm(v, [], auth) && b == [] + rest; }
    }
    hide CutMaybe;
  }

  lemma NewReads(v: nat, p: bytes, c: Command)
    requires ParseNew(v, p) == Ok(c)
    ensures c.New? && exists a, s, m :: NewForm(v, c, p, a, s, m)
  {
    NewInParts(v, p);
    hide ParseNew, CutSmall, AuthCut, SubCut, ModeCut, AuthForm, SubForm, NewMode;
    var verify := CutSmall(p).value;
    var dh := CutSmall(verify.rest).value;
    var auth := AuthCut(v, dh.rest).value;
    var sub := SubCut(v, auth.rest).value;
    var mode := ModeCut(v, sub.rest).value;
    SmallExactly(verify.value, verify.rest, p);
    SmallExactly(dh.value, dh.rest, verify.rest);
    AuthExactly(v, dh.rest, auth.value, auth.rest);
    SubCutExactly(v, auth.rest, sub.value, sub.rest);
    ModeCutExactly(v, sub.rest, mode.value);
    var a :| AuthForm(v, a, auth.value) && dh.rest == a + auth.rest;
    var s :| SubForm(v, s, sub.value) && auth.rest == s + sub.rest;
    assert NewForm(v, c, p, a, s, sub.rest);
  }

  lemma SubCutExactly(v: nat, b: bytes, sub: Option<SubMode>, rest: bytes)
    ensures SubCut(v, b) == Ok(Taken(sub, rest)) <==> exists s :: SubForm(v, s, sub) && b == s + rest
  {
    SubExactly(v, b, sub, rest);
    hide CutSub;
  }

  lemma ModeCutExactly(v: nat, b: bytes, mode: Option<QueueMode>)
    ensures ModeCut(v, b) == Ok(Taken(mode, [])) <==> NewMode(v, b, mode)
  {
    NewModeExactly(v, b, mode);
    hide CutMode, CutOldMode;
  }

  lemma NewIsRead(v: nat, p: bytes, c: Command, a: bytes, s: bytes, m: bytes)
    requires c.New? && NewForm(v, c, p, a, s, m)
    ensures ParseNew(v, p) == Ok(c)
  {
    NewInParts(v, p);
    hide ParseNew, CutSmall, AuthCut, SubCut, ModeCut, AuthForm, SubForm, NewMode;
    var rest2, rest1 := a + (s + m), [|c.dhKey|] + c.dhKey + (a + (s + m));
    SmallExactly(c.verifyKey, rest1, p);
    SmallExactly(c.dhKey, rest2, rest1);
    AuthExactly(v, rest2, c.auth, s + m);
    SubCutExactly(v, s + m, c.sub, m);
    ModeCutExactly(v, m, c.mode);
  }

  lemma KeyExactly(p: bytes, k: bytes)
    ensures ParseKey(p) == Ok(k) <==> Small(p, k)
  {
    SmallExactly(k, [], p);
    assert |k| <= 255 ==> [|k|] + k + [] == [|k|] + k;
    if CutSmall(p).Ok? { SmallExactly(CutSmall(p).value.value, CutSmall(p).value.rest, p); }
    hide CutSmall;
  }

  lemma PairExactly(p: bytes, x: bytes, y: bytes)
    ensures ParsePair(p) == Ok((x, y)) <==> |x| <= 255 && |y| <= 255 && p == [|x|] + x + ([|y|] + y)
  {
    hide CutSmall;
    if ParsePair(p) == Ok((x, y)) {
      var a := CutSmall(p).value;
      SmallExactly(x, a.rest, p);
      SmallExactly(y, [], a.rest);
      assert |y| <= 255 ==> [|y|] + y + [] == [|y|] + y;
    }
    if |x| <= 255 && |y| <= 255 && p == [|x|] + x + ([|y|] + y) {
      SmallExactly(x, [|y|] + y, p);
      SmallExactly(y, [], [|y|] + y);
      assert [|y|] + y + [] == [|y|] + y;
    }
  }

  ghost predicate SendForm(p: bytes, n: bool, body: bytes) {
    exists filler: bytes :: 0x20 !in filler && p == [if n then 0x54 else 0x46] + filler + [0x20] + body
  }

  lemma SendExactly(p: bytes, n: bool, body: bytes)
    ensures ParseSend(p) == Ok(Send(n, body)) <==> SendForm(p, n, body)
  {
    if ParseSend(p) == Ok(Send(n, body)) {
      var k := ToSpace(p[1..]);
      var filler := p[1..][..k];
      assert 0x20 !in filler && p == [p[0]] + filler + [p[k + 1]] + p[k + 2..];
      assert SendForm(p, n, body);
    }
    if filler: bytes :| 0x20 !in filler && p == [if n then 0x54 else 0x46] + filler + [0x20] + body {
      SendIsRead(p, n, filler, body);
    }
  }

  lemma SendIsRead(p: bytes, n: bool, filler: bytes, body: bytes)
    requires 0x20 !in filler && p == [if n then 0x54 else 0x46] + filler + [0x20] + body
    ensures ParseSend(p) == Ok(Send(n, body))
  {
    var k := |filler|;
    assert p[1..] == filler + [0x20] + body;
    ToSpaceIs(p[1..], k);
    assert p[k + 2..] == body;
  }

  lemma ParamsRead(v: nat, t: Tag, p: bytes)
    ensures var r := ParseParams(v, t, p); r.Ok? ==> TagOf(r.value) == t && CommandForm(v, r.value, p)
  {
    hide ParseNew, ParseKey, ParsePair, ParseSend, NewForm, Small;
    match t
    case NEW => if ParseNew(v, p).Ok? { NewReads(v, p, ParseNew(v, p).value); }
    case KEY => if ParseKey(p).Ok? { KeyExactly(p, ParseKey(p).value); }
    case SKEY => if ParseKey(p).Ok? { KeyExactly(p, ParseKey(p).value); }
    case NKEY => if ParsePair(p).Ok? { PairExactly(p, ParsePair(p).value.0, ParsePair(p).value.1); }
    case ACK => if ParseKey(p).Ok? { KeyExactly(p, ParseKey(p).value); }
    case SEND =>
      SendsOnly(p);
      if ParseSend(p).Ok? { SendExactly(p, ParseSend(p).value.notification, ParseSend(p).value.body); }
    case _ =>
  }

  lemma ParamsAreRead(v: nat, p: bytes, c: Command)
    requires CommandForm(v, c, p)
    ensures ParseParams(v, TagOf(c), p) == Ok(c)
  {
    hide ParseNew, ParseKey, ParsePair, ParseSend, NewForm, Small;
    match c
    case New(_, _, _, _, _) => if a, s, m :| NewForm(v, c, p, a, s, m) { NewIsRead(v, p, c, a, s, m); }
    case Key(k) => KeyExactly(p, k);
    case SKey(k) => KeyExactly(p, k);
    case NKey(k, dh) => PairExactly(p, k, dh);
    case Ack(m) => KeyExactly(p, m);
    case Send(n, body) => SendExactly(p, n, body);
    case _ =>
  }

  lemma ParamsExactly(v: nat, t: Tag, p: bytes, c: Command)
    ensures ParseParams(v, t, p) == Ok(c) <==> TagOf(c) == t && CommandForm(v, c, p)
  {
    hide ParseParams, CommandForm, TagOf;
    ParamsRead(v, t, p);
    if CommandForm(v, c, p) { ParamsAreRead(v, p, c); }
  }

  lemma SendsOnly(p: bytes)
    ensures ParseSend(p).Ok? ==> ParseSend(p).value.Send?
  {
  }

  // ------------------------------------------------------ the theorem on commands

  /** A byte string that is this command in version v. */
  ghost predicate IsCommand(v: nat, b: bytes, c: Command) {
    exists p :: CommandForm(v, c, p) && Behind(b, Ascii(CommandName(c)), p)
  }

  lemma NamesSpelt(c: Command)
    ensures Spelling(TagOf(c)) == Ascii(CommandName(c))
  {
  }

  /** In every version the parser accepts exactly the byte strings that are commands, and
      reads each as the command it is. */
  lemma CommandReadExactly(v: nat, b: bytes, c: Command)
    ensures ParseCommand(v, b) == Ok(c) <==> IsCommand(v, b, c)
  {
    NamesSpelt(c);
    SpellingsDiffer(TagOf(c), TagOf(c));
    EveryTag(TagOf(c));
    hide CutTag, FindTag, ParseParams, CommandForm, Spelling, Behind, TagOf, IsTag;
    if ParseCommand(v, b) == Ok(c) {
      CommandReads(v, b, c);
    }
    if p :| CommandForm(v, c, p) && Behind(b, Ascii(CommandName(c)), p) {
      CutTagExactly(b, Spelling(TagOf(c)), p);
      FindTagExactly(Spelling(TagOf(c)), ALL_TAGS, TagOf(c));
      ParamsExactly(v, TagOf(c), p, c);
    }
  }

  lemma CommandReads(v: nat, b: bytes, c: Command)
    requires ParseCommand(v, b) == Ok(c)
    ensures IsCommand(v, b, c)
  {
    hide CutTag, FindTag, ParseParams, CommandForm, Spelling, Behind, TagOf, IsTag;
    var t := CutTag(b).value;
    var tag := FindTag(t.tag, ALL_TAGS).value;
    ParamsExactly(v, tag, t.params, c);
    EveryTag(tag);
    FindTagExactly(t.tag, ALL_TAGS, tag);
    CutTagIsTag(b);
    CutTagExactly(b, t.tag, t.params);
    NamesSpelt(c);
    assert CommandForm(v, c, t.params) && Behind(b, Ascii(CommandName(c)), t.params);
  }

  // ------------------------------------------------------- broker messages

  function BrokerName(m: BrokerMessage): string {
    match m
    case Ids(_, _, _, _, _) => "IDS" case Msg(_, _, _, _) => "MSG" case Nid(_, _) => "NID" case NMsg(_, _) => "NMSG"
    case End => "END" case Okay => "OK" case ErrorText(_) => "ERR" case CommandError(_) => "ERR" case Pong => "PONG"
  }

  /** White space that trim removes from an ASCII text. */
  predicate White(b: byte) {
    b == 32 || 9 <= b <= 13
  }

  predicate AllWhite(b: bytes) {
    forall i :: 0 <= i < |b| ==> White(b[i])
  }

  /** A text that is not empty and has no white space at its ends. */
  predicate Trimmed(text: bytes) {
    text != [] && !White(text[0]) && !White(text[|text| - 1])
  }

  ghost predicate Padded(p: bytes, left: bytes, text: bytes, right: bytes) {
    AllWhite(left) && Trimmed(text) && AllWhite(right) && p == left + text + right
  }

  predicate LinkForm(v: nat, b: bytes, link: Option<bytes>) {
    if v < 15 then b == [] && link.None? else MaybeForm(b, link)
  }

  predicate IdsForm(v: nat, m: BrokerMessage, p: bytes, mode: bytes, link: bytes)
    requires m.Ids?
  {
    && |m.rcvId| <= 255 && |m.sndId| <= 255 && |m.serverDhKey| <= 255
    && IdsMode(v, mode, m.mode) && LinkForm(v, link, m.linkId)
    && p == [|m.rcvId|] + m.rcvId + ([|m.sndId|] + m.sndId + ([|m.serverDhKey|] + m.serverDhKey + (mode + link)))
  }

  /** Eight bytes of time in versions 1 and 2, and a flag in version 2. */
  predicate MsgForm(v: nat, m: BrokerMessage, p: bytes, time: bytes)
    requires m.Msg?
  {
    && |m.msgId| <= 255
    && (if v <= 2 then |time| == 8 && FromBigEndian(time) == m.timestamp else time == [] && m.timestamp == 0)
    && (v != 2 ==> !m.notification)
    && p == [|m.msgId|] + m.msgId + (time + ((if v == 2 then [if m.notification then 0x54 else 0x46, 0x20] else []) + m.body))
  }

  ghost predicate BrokerForm(v: nat, m: BrokerMessage, p: bytes) {
    match m
    case Ids(_, _, _, _, _) => exists mode, link :: IdsForm(v, m, p, mode, link)
    case Msg(_, _, _, _) => exists time :: MsgForm(v, m, p, time)
    case Nid(id, key) => |id| <= 255 && |key| <= 255 && p == [|id|] + id + ([|key|] + key)
    case NMsg(nonce, meta) => |nonce| == 24 && |meta| <= 255 && p == nonce + ([|meta|] + meta)
    case ErrorText(text) => IsError(p, text) && !(Ascii("CMD ") <= text)
    case CommandError(code) => CodeForm(p, code)
    case _ => p == []
  }

  /** An ASCII text with this text in it and white space around it. */
  ghost predicate IsError(p: bytes, text: bytes) {
    IsPlain(p) && exists left, right :: Padded(p, left, text, right)
  }

  predicate IsPlain(b: bytes) {
    forall i :: 0 <= i < |b| ==> b[i] < 128
  }

  lemma WhiteJoins(a: bytes, b: bytes)
    requires AllWhite(a) && AllWhite(b)
    ensures AllWhite(a + b)
  {
  }

  lemma {:induction false} TrimLeftExactly(b: bytes) returns (left: bytes)
    ensures AllWhite(left) && b == left + TrimLeft(b) && (TrimLeft(b) != [] ==> !Blank(TrimLeft(b)[0]))
  {
    if b != [] && Blank(b[0]) {
      var first, tail := [b[0]], b[1..];
      var rest := TrimLeftExactly(tail);
      assert AllWhite(first);
      WhiteJoins(first, rest);
      hide AllWhite, Blank;
      left := first + rest;
      assert b == first + tail == first + (rest + TrimLeft(tail)) == left + TrimLeft(tail);
    } else {
      left := [];
    }
  }

  lemma {:induction false} TrimRightExactly(b: bytes) returns (right: bytes)
    ensures AllWhite(right) && b == TrimRight(b) + right
    ensures TrimRight(b) != [] ==> !Blank(TrimRight(b)[|TrimRight(b)| - 1]) && TrimRight(b)[0] == b[0]
  {
    if b != [] && Blank(b[|b| - 1]) {
      var front, last := b[..|b| - 1], [b[|b| - 1]];
      var rest := TrimRightExactly(front);
      assert AllWhite(last);
      WhiteJoins(rest, last);
      hide AllWhite, Blank;
      right := rest + last;
      assert b == front + last == TrimRight(front) + rest + last == TrimRight(front) + right;
    } else {
      right := [];
    }
  }

  lemma {:induction false} TrimsLeft(left: bytes, b: bytes)
    requires AllWhite(left) && (b == [] || !Blank(b[0]))
    ensures TrimLeft(left + b) == b
  {
    if left == [] {
      assert left + b == b;
    } else {
      TrimsLeft(left[1..], b);
      assert (left + b)[1..] == left[1..] + b;
    }
  }

  lemma {:induction false} TrimsRight(b: bytes, right: bytes)
    requires AllWhite(right) && (b == [] || !Blank(b[|b| - 1]))
    ensures TrimRight(b + right) == b
  {
    if right == [] {
      assert b + right == b;
    } else {
      var n := |right| - 1;
      TrimsRight(b, right[..n]);
      assert (b + right)[..|b| + n] == b + right[..n];
    }
  }

  lemma TrimSplits(b: bytes) returns (left: bytes, right: bytes)
    requires Trim(b) != []
    ensures Padded(b, left, Trim(b), right)
  {
    left := TrimLeftExactly(b);
    right := TrimRightExactly(TrimLeft(b));
    assert b == left + (Trim(b) + right) == left + Trim(b) + right;
    hide AllWhite, TrimLeft, TrimRight;
  }

  lemma PaddedTrims(b: bytes, left: bytes, text: bytes, right: bytes)
    requires Padded(b, left, text, right)
    ensures Trim(b) == text
  {
    assert !Blank(text[0]) && !Blank(text[|text| - 1]);
    hide AllWhite, TrimLeft, TrimRight;
    assert b == left + (text + right);
    TrimsLeft(left, text + right);
    TrimsRight(text, right);
  }

  lemma TrimExactly(b: bytes, text: bytes)
    requires text != []
    ensures Trim(b) == text <==> exists left, right :: Padded(b, left, text, right)
  {
    hide Trim, Padded;
    if Trim(b) == text { var left, right := TrimSplits(b); }
    if left, right :| Padded(b, left, text, right) { PaddedTrims(b, left, text, right); }
  }

  lemma GapSplits(code: bytes) returns (gap: bytes)
    requires code != [] && !Blank(code[|code| - 1])
    ensures AllWhite(gap) && Trimmed(Trim(code)) && code == gap + Trim(code)
  {
    gap := TrimLeftExactly(code);
    TrimLeftIs(code);
    TrimRightIs(TrimLeft(code));
    assert AllWhite(code) ==> White(code[|code| - 1]);
    hide TrimLeft, TrimRight;
  }

  /** "CMD " and white space before a code. */
  ghost predicate CodeForm(p: bytes, code: bytes) {
    Trimmed(code) && exists gap :: AllWhite(gap) && IsError(p, Ascii("CMD ") + gap + code)
  }

  lemma CmdSpelt()
    ensures Ascii("CMD ") == CMD_SPACE
  {
  }

  lemma TrimmedText(p: bytes)
    ensures IsPlain(p) && Trim(p) != [] ==> IsError(p, Trim(p))
    ensures Edged(Trim(p))
  {
    TrimIs(p);
    if Trim(p) != [] { TrimExactly(p, Trim(p)); }
    hide Trim;
  }

  lemma ErrorReads(p: bytes)
    requires ParseError(p).Ok?
    ensures match ParseError(p).value
            case ErrorText(text) => IsError(p, text) && !(Ascii("CMD ") <= text)
            case CommandError(code) => CodeForm(p, code)
            case _ => false
  {
    hide Trim, IsError, CodeForm, Trimmed;
    CmdSpelt();
    TrimmedText(p);
    if CMD_SPACE <= Trim(p) { CodeReads(p, Trim(p)); }
  }

  lemma CodeReads(p: bytes, text: bytes)
    requires IsError(p, text) && CMD_SPACE <= text && Edged(text)
    ensures Trim(text[4..]) != [] && CodeForm(p, Trim(text[4..]))
  {
    hide Trim, IsError;
    CmdSpelt();
    assert text == CMD_SPACE + text[4..] && CMD_SPACE[3] == 0x20;
    var gap := GapSplits(text[4..]);
    assert CMD_SPACE + gap + Trim(text[4..]) == CMD_SPACE + (gap + Trim(text[4..])) == text;
  }

  lemma ErrorIsRead(p: bytes, text: bytes)
    requires IsError(p, text)
    ensures Trim(p) == text && IsAscii(p) && text != []
  {
    TrimExactly(p, text);
    hide Trim;
  }

  lemma TextIsRead(p: bytes, text: bytes)
    requires IsError(p, text) && !(Ascii("CMD ") <= text)
    ensures ParseError(p) == Ok(ErrorText(text))
  {
    CmdSpelt();
    ErrorIsRead(p, text);
    hide Trim;
  }

  lemma CodeIsRead(p: bytes, code: bytes)
    requires CodeForm(p, code)
    ensures ParseError(p) == Ok(CommandError(code))
  {
    CmdSpelt();
    var gap :| AllWhite(gap) && IsError(p, Ascii("CMD ") + gap + code);
    var text := CMD_SPACE + gap + code;
    ErrorIsRead(p, text);
    assert text[4..] == gap + code + [];
    assert Padded(text[4..], gap, code, []);
    TrimExactly(text[4..], code);
    hide Trim;
  }

  function IdsModeCut(v: nat, b: bytes): Result<Taken<Option<QueueMode>>, Fault> {
    if v >= 15 then CutMode(b, false) else if v >= 9 then CutOldMode(b) else Ok(Taken(None, b))
  }

  function LinkCut(v: nat, b: bytes): Result<Taken<Option<bytes>>, Fault> {
    if v >= 15 then CutMaybe(b) else Ok(Taken(None, b))
  }

  /** The parts of IDS one after the other. */
  lemma IdsInParts(v: nat, p: bytes)
    ensures ParseIds(v, p) ==
              match CutSmall(p) case Err(e) => Err(e) case Ok(rcv) =>
              match CutSmall(rcv.rest) case Err(e) => Err(e) case Ok(snd) =>
              match CutSmall(snd.rest) case Err(e) => Err(e) case Ok(dh) =>
              match IdsModeCut(v, dh.rest) case Err(e) => Err(e) case Ok(mode) =>
              match LinkCut(v, mode.rest) case Err(e) => Err(e) case Ok(link) =>
                Done(Ids(rcv.value, snd.value, dh.value, mode.value, link.value), link.rest)
  {
    hide CutSmall, CutMaybe, CutMode, CutOldMode, Done;
  }

  function IdsModeBytes(v: nat, mode: Option<QueueMode>): bytes {
    if v < 9 then []
    else if v < 15 then [if mode.Some? && mode.value.Messaging? then 0x54 else 0x46]
    else if mode.None? then [0x30] else [0x31, if mode.value.Messaging? then 0x4d else 0x43]
  }

  lemma OneIdsMode(v: nat, m: bytes, mode: Option<QueueMode>)
    ensures IdsMode(v, m, mode) <==> m == IdsModeBytes(v, mode) && (v < 9 ==> mode.None?) && (9 <= v < 15 ==> mode.Some?)
  {
  }

  lemma IdsModeIs(v: nat, b: bytes, mode: Option<QueueMode>, rest: bytes)
    ensures IdsModeCut(v, b) == Ok(Taken(mode, rest))
            <==> b == IdsModeBytes(v, mode) + rest && (v < 9 ==> mode.None?) && (9 <= v < 15 ==> mode.Some?)
  {
    var m := IdsModeBytes(v, mode);
    if v >= 9 && b != [] { assert b == [b[0]] + b[1..]; }
    if v >= 15 && |b| >= 2 { assert b == [b[0], b[1]] + b[2..]; }
    if b == m + rest { assert b[|m|..] == rest; }
    if v < 9 { assert m + rest == rest; }
  }

  lemma IdsModeExactly(v: nat, b: bytes, mode: Option<QueueMode>, rest: bytes)
    ensures IdsModeCut(v, b) == Ok(Taken(mode, rest)) <==> exists m :: IdsMode(v, m, mode) && b == m + rest
  {
    IdsModeIs(v, b, mode, rest);
    OneIdsMode(v, IdsModeBytes(v, mode), mode);
    forall m | IdsMode(v, m, mode) ensures m == IdsModeBytes(v, mode) { OneIdsMode(v, m, mode); }
    hide IdsModeCut, IdsMode, IdsModeBytes;
  }

  lemma LinkExactly(v: nat, b: bytes, link: Option<bytes>)
    ensures LinkCut(v, b) == Ok(Taken(link, [])) <==> LinkForm(v, b, link)
  {
    MaybeExactly(b, link, []);
    if v >= 15 && MaybeForm(b, link) { assert b == b + []; }
    if v >= 15 && LinkCut(v, b) == Ok(Taken(link, [])) {
      var a :| MaybeForm(a, link) && b == a + [];
      assert b == a;
    }
    hide CutMaybe, MaybeForm;
  }

  lemma IdsReads(v: nat, p: bytes, m: BrokerMessage)
    requires ParseIds(v, p) == Ok(m)
    ensures m.Ids? && exists mode, link :: IdsForm(v, m, p, mode, link)
  {
    IdsInParts(v, p);
    hide ParseIds, CutSmall, IdsModeCut, LinkCut, IdsMode, LinkForm;
    var rcv := CutSmall(p).value;
    var snd := CutSmall(rcv.rest).value;
    var dh := CutSmall(snd.rest).value;
    var mode := IdsModeCut(v, dh.rest).value;
    var link := LinkCut(v, mode.rest).value;
    SmallExactly(rcv.value, rcv.rest, p);
    SmallExactly(snd.value, snd.rest, rcv.rest);
    SmallExactly(dh.value, dh.rest, snd.rest);
    IdsModeExactly(v, dh.rest, mode.value, mode.rest);
    LinkExactly(v, mode.rest, link.value);
    var a :| IdsMode(v, a, mode.value) && dh.rest == a + mode.rest;
    assert IdsForm(v, m, p, a, mode.rest);
  }

  lemma IdsIsRead(v: nat, p: bytes, m: BrokerMessage, mode: bytes, link: bytes)
    requires m.Ids? && IdsForm(v, m, p, mode, link)
    ensures ParseIds(v, p) == Ok(m)
  {
    IdsInParts(v, p);
    hide ParseIds, CutSmall, IdsModeCut, LinkCut, IdsMode, LinkForm;
    var rest2 := [|m.serverDhKey|] + m.serverDhKey + (mode + link);
    var rest1 := [|m.sndId|] + m.sndId + rest2;
    SmallExactly(m.rcvId, rest1, p);
    SmallExactly(m.sndId, rest2, rest1);
    SmallExactly(m.serverDhKey, mode + link, rest2);
    IdsModeExactly(v, mode + link, m.mode, link);
    LinkExactly(v, link, m.linkId);
  }

  /** What stands behind the id and the time of MSG. */
  function MsgRest(v: nat, m: BrokerMessage): bytes
    requires m.Msg?
  {
    (if v == 2 then [if m.notification then 0x54 else 0x46, 0x20] else []) + m.body
  }

  lemma MsgReads(v: nat, p: bytes)
    requires 1 <= v && ParseMsg(v, p).Ok?
    ensures var m := ParseMsg(v, p).value; m.Msg? && exists time :: MsgForm(v, m, p, time)
  {
    hide CutSmall, FromBigEndian;
    var m, id := ParseMsg(v, p).value, CutSmall(p).value;
    SmallExactly(id.value, id.rest, p);
    var time := if v <= 2 then id.rest[..8] else [];
    assert id.rest == time + id.rest[|time|..];
    if v == 2 {
      var b := id.rest[8..];
      assert b == [b[0], b[1]] + b[2..];
    } else {
      assert [] + m.body == m.body;
    }
    assert MsgForm(v, m, p, time);
  }

  lemma MsgIsRead(v: nat, p: bytes, m: BrokerMessage, time: bytes)
    requires 1 <= v && m.Msg? && MsgForm(v, m, p, time)
    ensures ParseMsg(v, p) == Ok(m)
  {
    hide CutSmall, FromBigEndian;
    var rest := time + MsgRest(v, m);
    SmallExactly(m.msgId, rest, p);
    assert rest[..|time|] == time && rest[|time|..] == MsgRest(v, m);
    if v == 2 {
      assert MsgRest(v, m)[2..] == m.body;
    } else {
      assert MsgRest(v, m) == m.body;
    }
  }

  lemma NMsgExactly(p: bytes, nonce: bytes, meta: bytes)
    ensures ParseNMsg(p) == Ok(NMsg(nonce, meta)) <==> |nonce| == 24 && |meta| <= 255 && p == nonce + ([|meta|] + meta)
  {
    hide CutSmall;
    if ParseNMsg(p) == Ok(NMsg(nonce, meta)) {
      SmallExactly(meta, [], p[24..]);
      assert p == p[..24] + p[24..] && (|meta| <= 255 ==> [|meta|] + meta + [] == [|meta|] + meta);
    }
    if |nonce| == 24 && |meta| <= 255 && p == nonce + ([|meta|] + meta) {
      assert p[..24] == nonce && p[24..] == [|meta|] + meta == [|meta|] + meta + [];
      SmallExactly(meta, [], p[24..]);
    }
  }

  lemma NMsgOnly(p: bytes)
    ensures ParseNMsg(p).Ok? ==> ParseNMsg(p).value.NMsg?
  {
    hide CutSmall;
  }

  lemma BrokerParamsRead(v: nat, t: Tag, p: bytes)
    requires 1 <= v
    ensures var r := ParseBrokerParams(v, t, p); r.Ok? ==> BrokerTag(r.value) == t && BrokerForm(v, r.value, p)
  {
    hide ParseIds, ParseMsg, ParsePair, ParseNMsg, ParseError, IdsForm, MsgForm, CodeForm, IsError;
    match t
    case IDS => if ParseIds(v, p).Ok? { IdsReads(v, p, ParseIds(v, p).value); }
    case MSG => if ParseMsg(v, p).Ok? { MsgReads(v, p); }
    case NID => if ParsePair(p).Ok? { PairExactly(p, ParsePair(p).value.0, ParsePair(p).value.1); }
    case NMSG =>
      NMsgOnly(p);
      if ParseNMsg(p).Ok? { NMsgExactly(p, ParseNMsg(p).value.nonce, ParseNMsg(p).value.meta); }
    case ERR => if ParseError(p).Ok? { ErrorReads(p); }
    case _ =>
  }

  lemma BrokerParamsAreRead(v: nat, p: bytes, m: BrokerMessage)
    requires 1 <= v && BrokerForm(v, m, p)
    ensures ParseBrokerParams(v, BrokerTag(m), p) == Ok(m)
  {
    hide ParseIds, ParseMsg, ParsePair, ParseNMsg, ParseError, IdsForm, MsgForm, CodeForm, IsError;
    match m
    case Ids(_, _, _, _, _) => if mode, link :| IdsForm(v, m, p, mode, link) { IdsIsRead(v, p, m, mode, link); }
    case Msg(_, _, _, _) => if time :| MsgForm(v, m, p, time) { MsgIsRead(v, p, m, time); }
    case Nid(id, key) => PairExactly(p, id, key);
    case NMsg(nonce, meta) => NMsgExactly(p, nonce, meta);
    case ErrorText(text) => TextIsRead(p, text);
    case CommandError(code) => CodeIsRead(p, code);
    case _ =>
  }

  lemma BrokerParamsExactly(v: nat, t: Tag, p: bytes, m: BrokerMessage)
    requires 1 <= v
    ensures ParseBrokerParams(v, t, p) == Ok(m) <==> BrokerTag(m) == t && BrokerForm(v, m, p)
  {
    hide ParseBrokerParams, BrokerForm, BrokerTag;
    BrokerParamsRead(v, t, p);
    if BrokerForm(v, m, p) { BrokerParamsAreRead(v, p, m); }
  }

  /** A byte string that is this broker message in version v. */
  ghost predicate IsBroker(v: nat, b: bytes, m: BrokerMessage) {
    exists p :: BrokerForm(v, m, p) && Behind(b, Ascii(BrokerName(m)), p)
  }

  lemma BrokerNamesSpelt(m: BrokerMessage)
    ensures Spelling(BrokerTag(m)) == Ascii(BrokerName(m))
  {
  }

  /** In every version the parser accepts exactly the byte strings that are broker messages,
      and reads each as the message it is. */
  lemma BrokerReadExactly(v: nat, b: bytes, m: BrokerMessage)
    requires 1 <= v
    ensures ParseBroker(v, b) == Ok(m) <==> IsBroker(v, b, m)
  {
    BrokerNamesSpelt(m);
    SpellingsDiffer(BrokerTag(m), BrokerTag(m));
    EveryTag(BrokerTag(m));
    hide CutTag, FindTag, ParseBrokerParams, BrokerForm, Spelling, Behind, BrokerTag, IsTag;
    if ParseBroker(v, b) == Ok(m) {
      BrokerReads(v, b, m);
    }
    if p :| BrokerForm(v, m, p) && Behind(b, Ascii(BrokerName(m)), p) {
      CutTagExactly(b, Spelling(BrokerTag(m)), p);
      FindTagExactly(Spelling(BrokerTag(m)), ALL_TAGS, BrokerTag(m));
      BrokerParamsExactly(v, BrokerTag(m), p, m);
    }
  }

  lemma BrokerReads(v: nat, b: bytes, m: BrokerMessage)
    requires 1 <= v && ParseBroker(v, b) == Ok(m)
    ensures IsBroker(v, b, m)
  {
    hide CutTag, FindTag, ParseBrokerParams, BrokerForm, Spelling, Behind, BrokerTag, IsTag;
    var t := CutTag(b).value;
    var tag := FindTag(t.tag, ALL_TAGS).value;
    BrokerParamsExactly(v, tag, t.params, m);
    EveryTag(tag);
    FindTagExactly(t.tag, ALL_TAGS, tag);
    CutTagIsTag(b);
    CutTagExactly(b, t.tag, t.params);
    BrokerNamesSpelt(m);
    assert BrokerForm(v, m, t.params) && Behind(b, Ascii(BrokerName(m)), t.params);
  }
}
