/** SMP commands and broker messages of every protocol version
    (src/browser-smp-core.mjs). */
module SmpCommands {
  import opened Outcomes
  import opened Bytes

  const C: byte := 0x43
  const S: byte := 0x53

  datatype QueueMode = Messaging | ContactAddress
  datatype SubMode = Subscribe | OnlyCreate

  datatype Command =
    | New(verifyKey: bytes, dhKey: bytes, auth: Option<bytes>, sub: Option<SubMode>, mode: Option<QueueMode>)
    | Sub | Key(senderKey: bytes) | SKey(senderKey: bytes) | NKey(notifierKey: bytes, notifierDhKey: bytes)
    | NDel | Get | Ack(msgId: bytes) | Off | Del | Send(notification: bool, body: bytes) | Ping | NSub

  /** ErrorText is a plain error, CommandError the part after "CMD ". */
  datatype BrokerMessage =
    | Ids(rcvId: bytes, sndId: bytes, serverDhKey: bytes, mode: Option<QueueMode>, linkId: Option<bytes>)
    | Msg(msgId: bytes, timestamp: nat, notification: bool, body: bytes)
    | Nid(notifierId: bytes, serverDhKey: bytes)
    | NMsg(nonce: bytes, meta: bytes)
    | End | Okay | ErrorText(text: bytes) | CommandError(text: bytes) | Pong

  datatype Tag =
    | NEW | SUB | KEY | SKEY | NKEY | NDEL | GET | ACK | OFF | DEL | SEND | PING | NSUB
    | IDS | MSG | NID | NMSG | END | OK | ERR | PONG

  function Spelling(t: Tag): bytes {
    match t
    case NEW => [0x4e, 0x45, 0x57]
    case SUB => [0x53, 0x55, 0x42]
    case KEY => [0x4b, 0x45, 0x59]
    case SKEY => [0x53, 0x4b, 0x45, 0x59]
    case NKEY => [0x4e, 0x4b, 0x45, 0x59]
    case NDEL => [0x4e, 0x44, 0x45, 0x4c]
    case GET => [0x47, 0x45, 0x54]
    case ACK => [0x41, 0x43, 0x4b]
    case OFF => [0x4f, 0x46, 0x46]
    case DEL => [0x44, 0x45, 0x4c]
    case SEND => [0x53, 0x45, 0x4e, 0x44]
    case PING => [0x50, 0x49, 0x4e, 0x47]
    case NSUB => [0x4e, 0x53, 0x55, 0x42]
    case IDS => [0x49, 0x44, 0x53]
    case MSG => [0x4d, 0x53, 0x47]
    case NID => [0x4e, 0x49, 0x44]
    case NMSG => [0x4e, 0x4d, 0x53, 0x47]
    case END => [0x45, 0x4e, 0x44]
    case OK => [0x4f, 0x4b]
    case ERR => [0x45, 0x52, 0x52]
    case PONG => [0x50, 0x4f, 0x4e, 0x47]
  }

  const ALL_TAGS: seq<Tag> :=
    [NEW, SUB, KEY, SKEY, NKEY, NDEL, GET, ACK, OFF, DEL, SEND, PING, NSUB, IDS, MSG, NID, NMSG, END, OK, ERR, PONG]

  function FindTag(b: bytes, tags: seq<Tag>): Option<Tag> {
    if tags == [] then None else if b == Spelling(tags[0]) then Some(tags[0]) else FindTag(b, tags[1..])
  }

  /** Four letters as one number; three-letter tags end in 0. */
  function Code(b: bytes): nat {
    (if |b| > 0 then b[0] else 0) as int * 0x1000000 + (if |b| > 1 then b[1] else 0) as int * 0x10000
    + (if |b| > 2 then b[2] else 0) as int * 0x100 + (if |b| > 3 then b[3] else 0)
  }

  function TagCode(t: Tag): nat {
    match t
    case NEW => 0x4e455700 case SUB => 0x53554200 case KEY => 0x4b455900 case SKEY => 0x534b4559 case NKEY => 0x4e4b4559
    case NDEL => 0x4e44454c case GET => 0x47455400 case ACK => 0x41434b00 case OFF => 0x4f464600 case DEL => 0x44454c00
    case SEND => 0x53454e44 case PING => 0x50494e47 case NSUB => 0x4e535542 case IDS => 0x49445300 case MSG => 0x4d534700
    case NID => 0x4e494400 case NMSG => 0x4e4d5347 case END => 0x454e4400 case OK => 0x4f4b0000 case ERR => 0x45525200
    case PONG => 0x504f4e47
  }

  lemma TagCoded(t: Tag)
    ensures Code(Spelling(t)) == TagCode(t) && IsTag(Spelling(t))
  {
  }

  lemma CodesDiffer(t: Tag, u: Tag)
    ensures TagCode(t) == TagCode(u) <==> t == u
  {
  }

  lemma SpellingsDiffer(t: Tag, u: Tag)
    ensures Spelling(t) == Spelling(u) <==> t == u
    ensures IsTag(Spelling(t))
  {
    TagCoded(t);
    TagCoded(u);
    CodesDiffer(t, u);
    hide Spelling, TagCode, Code;
  }

  lemma {:induction false} TagFound(t: Tag, tags: seq<Tag>)
    requires t in tags
    ensures FindTag(Spelling(t), tags) == Some(t)
  {
    SpellingsDiffer(t, tags[0]);
    if t != tags[0] { TagFound(t, tags[1..]); }
  }

  const CMD_SPACE: bytes := [0x43, 0x4d, 0x44, 0x20]
  const SYNTAX: bytes := [0x53, 0x59, 0x4e, 0x54, 0x41, 0x58]

  // ---------------------------------------------------------------- pieces

  function Flag(b: bool): byte { if b then T else F }

  function ModeByte(m: QueueMode): byte { if m.Messaging? then M else C }

  function SubByte(m: SubMode): byte { if m.Subscribe? then S else C }

  function Join(a: Result<bytes, Fault>, b: Result<bytes, Fault>): Result<bytes, Fault> {
    if a.Err? then a else if b.Err? then b else Ok(a.value + b.value)
  }

  function MaybeSmall(b: Option<bytes>): Result<bytes, Fault> {
    if b.None? then Ok([ZERO]) else Join(Ok([ONE]), EncodeSmall(b.value))
  }

  function CutFlag(b: bytes): Result<Taken<bool>, Fault> {
    if b == [] then Err(Truncated)
    else if b[0] == T || b[0] == F then Ok(Taken(b[0] == T, b[1..]))
    else Err(BadBool)
  }

  function CutMaybe(b: bytes): Result<Taken<Option<bytes>>, Fault> {
    if b == [] then Err(Truncated)
    else if b[0] == ZERO then Ok(Taken(None, b[1..]))
    else if b[0] != ONE then Err(BadMaybe)
    else match CutSmall(b[1..])
         case Ok(t) => Ok(Taken(Some(t.value), t.rest))
         case Err(e) => Err(e)
  }

  function CutSub(b: bytes): Result<Taken<SubMode>, Fault> {
    if b == [] then Err(Truncated)
    else if b[0] == S then Ok(Taken(Subscribe, b[1..]))
    else if b[0] == C then Ok(Taken(OnlyCreate, b[1..]))
    else Err(BadMode)
  }

  /** Maybe a queue mode; in NEW a '0' for the short-link data follows it. */
  function CutMode(b: bytes, linkData: bool): Result<Taken<Option<QueueMode>>, Fault> {
    if b == [] then Err(Truncated)
    else if b[0] == ZERO then Ok(Taken(None, b[1..]))
    else if b[0] != ONE then Err(BadMode)
    else if |b| == 1 then Err(Truncated)
    else if b[1] != M && b[1] != C then Err(BadMode)
    else if !linkData then Ok(Taken(Some(if b[1] == M then Messaging else ContactAddress), b[2..]))
    else if |b| == 2 then Err(Truncated)
    else if b[2] != ZERO then Err(BadMode)
    else Ok(Taken(Some(if b[1] == M then Messaging else ContactAddress), b[3..]))
  }

  function Done<X>(x: X, rest: bytes): Result<X, Fault> {
    if rest == [] then Ok(x) else Err(Syntax)
  }

  // ------------------------------------------------------------------ tags

  datatype Tagged = Tagged(tag: bytes, params: bytes)

  function CutTag(b: bytes): Result<Tagged, Fault> {
    var n := ToSpace(b);
    if n == 0 || exists i :: 0 <= i < n && b[i] > 0x7f then Err(Syntax)
    else Ok(Tagged(b[..n], if n == |b| then [] else b[n + 1..]))
  }

  /** takeToken and the space after it, on the reader's offset. */
  method ParseCommandTag(b: bytes) returns (r: Result<Tagged, Fault>)
    ensures r == CutTag(b)
  {
    var offset := 0;
    while offset < |b| && b[offset] != SPACE
      invariant 0 <= offset <= |b| && forall i :: 0 <= i < offset ==> b[i] != SPACE
    {
      offset := offset + 1;
    }
    ToSpaceIs(b, offset);
    if offset == 0 { return Err(Syntax); }
    for i := 0 to offset
      invariant forall j :: 0 <= j < i ==> b[j] <= 0x7f
    {
      if b[i] > 0x7f { return Err(Syntax); }
    }
    return Ok(Tagged(b[..offset], if offset == |b| then [] else b[offset + 1..]));
  }

  predicate IsTag(tag: bytes) {
    tag != [] && forall i :: 0 <= i < |tag| ==> tag[i] != SPACE && tag[i] <= 0x7f
  }

  lemma TagCut(tag: bytes, params: bytes)
    requires IsTag(tag)
    ensures CutTag(tag) == Ok(Tagged(tag, []))
    ensures CutTag(tag + [SPACE] + params) == Ok(Tagged(tag, params))
  {
    var b := tag + [SPACE] + params;
    ToSpaceIs(tag, |tag|);
    ToSpaceIs(b, |tag|);
    assert b[..|tag|] == tag && b[|tag| + 1..] == params && tag[..|tag|] == tag;
  }

  // -------------------------------------------------------------- commands

  function NewParams(v: nat, c: Command): Result<bytes, Fault>
    requires c.New?
  {
    var keys := Join(EncodeSmall(c.verifyKey), EncodeSmall(c.dhKey));
    var auth := if v >= 7 then MaybeSmall(c.auth) else Ok([]);
    var sub := if v >= 6 then [SubByte(if c.sub.Some? then c.sub.value else Subscribe)] else [];
    var mode := if c.mode.Some? then c.mode.value else Messaging;
    var queue := if v >= 15 then [ONE, ModeByte(mode), ZERO] else if v >= 9 then [Flag(mode.Messaging?)] else [];
    Join(Join(keys, auth), Ok(sub + queue))
  }

  function TagOf(c: Command): Tag {
    match c
    case New(_, _, _, _, _) => NEW
    case Sub => SUB
    case Key(_) => KEY
    case SKey(_) => SKEY
    case NKey(_, _) => NKEY
    case NDel => NDEL
    case Get => GET
    case Ack(_) => ACK
    case Off => OFF
    case Del => DEL
    case Send(_, _) => SEND
    case Ping => PING
    case NSub => NSUB
  }

  /** The parameters after the tag, if the command has any. */
  function Params(v: nat, c: Command): Option<Result<bytes, Fault>> {
    match c
    case New(_, _, _, _, _) => Some(NewParams(v, c))
    case Key(k) => Some(EncodeSmall(k))
    case SKey(k) => Some(EncodeSmall(k))
    case NKey(k, dh) => Some(Join(EncodeSmall(k), EncodeSmall(dh)))
    case Ack(m) => if v == 1 then None else Some(EncodeSmall(m))
    case Send(n, body) => Some(Ok([Flag(n), SPACE] + body))
    case _ => None
  }

  function WithTag(tag: Tag, params: Option<Result<bytes, Fault>>): Result<bytes, Fault> {
    if params.None? then Result.Ok(Spelling(tag)) else Join(Result.Ok(Spelling(tag) + [SPACE]), params.value)
  }

  function EncodeCommand(v: nat, c: Command): Result<bytes, Fault> {
    WithTag(TagOf(c), Params(v, c))
  }

  function ParseNew(v: nat, p: bytes): Result<Command, Fault> {
    match CutSmall(p) case Err(e) => Err(e) case Ok(verify) =>
    match CutSmall(verify.rest) case Err(e) => Err(e) case Ok(dh) =>
    match (if v >= 7 then CutMaybe(dh.rest) else Ok(Taken(None, dh.rest))) case Err(e) => Err(e) case Ok(auth) =>
    match (if v >= 6 then CutSome(CutSub(auth.rest)) else Ok(Taken(None, auth.rest))) case Err(e) => Err(e) case Ok(sub) =>
    match (if v >= 15 then CutMode(sub.rest, true) else if v >= 9 then CutOldMode(sub.rest) else Ok(Taken(None, sub.rest)))
    case Err(e) => Err(e) case Ok(mode) =>
      Done(New(verify.value, dh.value, auth.value, sub.value, mode.value), mode.rest)
  }

  function CutSome<X>(t: Result<Taken<X>, Fault>): Result<Taken<Option<X>>, Fault> {
    match t case Ok(x) => Ok(Taken(Some(x.value), x.rest)) case Err(e) => Err(e)
  }

  /** From v9 to v14 the mode is the flag "sender can secure". */
  function CutOldMode(b: bytes): Result<Taken<Option<QueueMode>>, Fault> {
    match CutFlag(b)
    case Ok(t) => Ok(Taken(Some(if t.value then Messaging else ContactAddress), t.rest))
    case Err(e) => Err(e)
  }

  function ParseKey(p: bytes): Result<bytes, Fault> {
    match CutSmall(p) case Err(e) => Err(e) case Ok(k) => Done(k.value, k.rest)
  }

  function ParsePair(p: bytes): Result<(bytes, bytes), Fault> {
    match CutSmall(p) case Err(e) => Err(e) case Ok(a) =>
    match CutSmall(a.rest) case Err(e) => Err(e) case Ok(b) => Done((a.value, b.value), b.rest)
  }

  /** SEND flags: a T or F, then anything up to the next space, which is skipped. */
  function ParseSend(p: bytes): Result<Command, Fault> {
    if p == [] then Err(Truncated)
    else if p[0] != T && p[0] != F then Err(Syntax)
    else
      var n := ToSpace(p[1..]);
      if n == |p| - 1 then Err(Syntax) else Ok(Send(p[0] == T, p[n + 2..]))
  }

  method ParseMsgFlags(p: bytes) returns (r: Result<Command, Fault>)
    ensures r == ParseSend(p)
  {
    if p == [] { return Err(Truncated); }
    if p[0] != T && p[0] != F { return Err(Syntax); }
    var offset := 1;
    while offset < |p|
      invariant 1 <= offset <= |p| && forall i :: 1 <= i < offset ==> p[i] != SPACE
    {
      if p[offset] == SPACE {
        ToSpaceIs(p[1..], offset - 1);
        return Ok(Send(p[0] == T, p[offset + 1..]));
      }
      offset := offset + 1;
    }
    ToSpaceIs(p[1..], |p| - 1);
    return Err(Syntax);
  }

  function ParseParams(v: nat, t: Tag, p: bytes): Result<Command, Fault> {
    match t
    case NEW => ParseNew(v, p)
    case SUB => Done(Sub, p)
    case KEY => (match ParseKey(p) case Ok(k) => Ok(Key(k)) case Err(e) => Err(e))
    case SKEY => (match ParseKey(p) case Ok(k) => Ok(SKey(k)) case Err(e) => Err(e))
    case NKEY => (match ParsePair(p) case Ok(k) => Ok(NKey(k.0, k.1)) case Err(e) => Err(e))
    case NDEL => Done(NDel, p)
    case GET => Done(Get, p)
    case ACK => if v == 1 then Done(Ack([]), p) else (match ParseKey(p) case Ok(m) => Ok(Ack(m)) case Err(e) => Err(e))
    case OFF => Done(Off, p)
    case DEL => Done(Del, p)
    case SEND => ParseSend(p)
    case PING => Done(Ping, p)
    case NSUB => Done(NSub, p)
    case _ => Err(UnknownTag)
  }

  function ParseCommand(v: nat, b: bytes): Result<Command, Fault> {
    match CutTag(b) case Err(e) => Err(e) case Ok(t) =>
    match FindTag(t.tag, ALL_TAGS) case None => Err(UnknownTag) case Some(tag) => ParseParams(v, tag, t.params)
  }

  /** What version v keeps of a command: fields it has no place for are lost, and absent
      modes become the defaults. */
  function CanonicalCommand(v: nat, c: Command): Command {
    match c
    case New(k, dh, auth, sub, mode) =>
      New(k, dh, if v >= 7 then auth else None,
          if v < 6 then None else if sub.Some? then sub else Some(Subscribe),
          if v < 9 then None else if mode.Some? then mode else Some(Messaging))
    case Ack(m) => if v == 1 then Ack([]) else c
    case _ => c
  }

  lemma MaybeInverts(b: Option<bytes>, rest: bytes)
    requires MaybeSmall(b).Ok?
    ensures CutMaybe(MaybeSmall(b).value + rest) == Ok(Taken(b, rest))
  {
    var all := MaybeSmall(b).value + rest;
    if b.Some? {
      assert all[1..] == [|b.value|] + b.value + rest;
      SmallInverts(b.value, rest);
    } else {
      assert all[1..] == rest;
    }
  }

  lemma NewModesInvert(v: nat, sub: SubMode, mode: QueueMode)
    ensures var tail := if v >= 15 then [ONE, ModeByte(mode), ZERO] else if v >= 9 then [Flag(mode.Messaging?)] else [];
            && CutSub([SubByte(sub)] + tail) == Ok(Taken(sub, tail))
            && (v >= 15 ==> CutMode(tail, true) == Ok(Taken(Some(mode), [])))
            && (9 <= v < 15 ==> CutOldMode(tail) == Ok(Taken(Some(mode), [])))
  {
    assert v >= 15 ==> [ONE, ModeByte(mode), ZERO][3..] == [];
    assert [Flag(mode.Messaging?)][1..] == [];
  }

  /** The bytes after the two keys of NEW. */
  function NewTail(v: nat, c: Command): bytes
    requires c.New? && MaybeSmall(c.auth).Ok?
  {
    (if v >= 7 then MaybeSmall(c.auth).value else []) + NewModes(v, c)
  }

  function NewModes(v: nat, c: Command): bytes
    requires c.New?
  {
    var sub, mode := (if c.sub.Some? then c.sub.value else Subscribe), (if c.mode.Some? then c.mode.value else Messaging);
    (if v >= 6 then [SubByte(sub)] else [])
    + (if v >= 15 then [ONE, ModeByte(mode), ZERO] else if v >= 9 then [Flag(mode.Messaging?)] else [])
  }

  lemma NewShape(v: nat, c: Command)
    requires c.New? && NewParams(v, c).Ok? && MaybeSmall(c.auth).Ok?
    ensures EncodeSmall(c.verifyKey).Ok? && EncodeSmall(c.dhKey).Ok?
    ensures NewParams(v, c).value == EncodeSmall(c.verifyKey).value + (EncodeSmall(c.dhKey).value + NewTail(v, c))
  {
  }

  lemma NewInverts(v: nat, c0: Command)
    requires c0.New? && NewParams(v, c0).Ok?
    ensures ParseNew(v, NewParams(v, c0).value) == Ok(CanonicalCommand(v, c0))
  {
    var c := if v >= 7 then c0 else c0.(auth := None);
    assert NewParams(v, c) == NewParams(v, c0);
    NewShape(v, c);
    hide CutSmall, CutMaybe, CutSub, CutMode, CutOldMode, MaybeSmall, NewParams, Cut, EncodeSmall;
    SmallFirst(c.verifyKey, EncodeSmall(c.dhKey).value + NewTail(v, c));
    SmallFirst(c.dhKey, NewTail(v, c));
    NewModesInvert(v, if c.sub.Some? then c.sub.value else Subscribe, if c.mode.Some? then c.mode.value else Messaging);
    if v >= 7 { MaybeInverts(c.auth, NewModes(v, c)); }
  }

  lemma SmallFirst(b: bytes, rest: bytes)
    requires EncodeSmall(b).Ok?
    ensures CutSmall(EncodeSmall(b).value + rest) == Result.Ok(Taken(b, rest))
  {
    SmallInverts(b, rest);
  }

  lemma KeyInverts(k: bytes)
    requires EncodeSmall(k).Ok?
    ensures ParseKey(EncodeSmall(k).value) == Ok(k)
  {
    SmallInverts(k, []);
    assert EncodeSmall(k).value + [] == EncodeSmall(k).value;
  }

  lemma PairInverts(a: bytes, b: bytes)
    requires Join(EncodeSmall(a), EncodeSmall(b)).Ok?
    ensures ParsePair(Join(EncodeSmall(a), EncodeSmall(b)).value) == Ok((a, b))
  {
    SmallInverts(a, EncodeSmall(b).value);
    SmallInverts(b, []);
    assert EncodeSmall(b).value + [] == EncodeSmall(b).value;
  }

  lemma SendInverts(n: bool, body: bytes)
    ensures ParseSend([Flag(n), SPACE] + body) == Ok(Send(n, body))
  {
  }

  /** A tag and its parameters come apart as they were put together. */
  lemma TagInverts(t: Tag, params: Option<Result<bytes, Fault>>)
    requires WithTag(t, params).Ok? && t in ALL_TAGS
    ensures CutTag(WithTag(t, params).value) == Ok(Tagged(Spelling(t), if params.None? then [] else params.value.value))
    ensures FindTag(Spelling(t), ALL_TAGS) == Some(t)
  {
    SpellingsDiffer(t, t);
    TagFound(t, ALL_TAGS);
    TagCut(Spelling(t), if params.None? then [] else params.value.value);
  }

  lemma EveryTag(t: Tag)
    ensures t in ALL_TAGS
  {
  }

  lemma ParamsInvert(v: nat, c: Command)
    requires Params(v, c).Some? ==> Params(v, c).value.Ok?
    ensures ParseParams(v, TagOf(c), if Params(v, c).None? then [] else Params(v, c).value.value)
            == Ok(CanonicalCommand(v, c))
  {
    hide ParseNew, NewParams, ParseKey, ParsePair, ParseSend, EncodeSmall;
    match c
    case New(_, _, _, _, _) => NewInverts(v, c);
    case Key(k) => KeyInverts(k);
    case SKey(k) => KeyInverts(k);
    case NKey(k, dh) => PairInverts(k, dh);
    case Ack(m) => if v != 1 { KeyInverts(m); }
    case Send(n, body) => SendInverts(n, body);
    case _ =>
  }

  /** For every version, parsing what was encoded gives what that version keeps of the
      command: the command itself if and only if it is canonical. */
  lemma CommandInverts(v: nat, c: Command)
    requires EncodeCommand(v, c).Ok?
    ensures ParseCommand(v, EncodeCommand(v, c).value) == Ok(CanonicalCommand(v, c))
  {
    hide ParseParams, CutTag, FindTag, Spelling;
    EveryTag(TagOf(c));
    TagInverts(TagOf(c), Params(v, c));
    ParamsInvert(v, c);
  }

  // ------------------------------------------------------- broker messages

  function IdsParams(v: nat, m: BrokerMessage): Result<bytes, Fault>
    requires m.Ids?
  {
    var ids := Join(Join(EncodeSmall(m.rcvId), EncodeSmall(m.sndId)), EncodeSmall(m.serverDhKey));
    var mode := if m.mode.Some? then m.mode.value else Messaging;
    var tail := if v >= 15 then Join(Ok([ONE, ModeByte(mode)]), MaybeSmall(m.linkId))
                else if v >= 9 then Ok([Flag(mode.Messaging?)]) else Ok([]);
    Join(ids, tail)
  }

  /** Version 1 has no flags, version 2 has all, later ones keep only id and body. */
  function MsgParams(v: nat, m: BrokerMessage): Result<bytes, Fault>
    requires m.Msg?
  {
    if v <= 2 && m.timestamp >= Pow256(8) then Err(Range)
    else
      Join(EncodeSmall(m.msgId),
           Ok((if v <= 2 then BigEndian(m.timestamp, 8) else [])
              + (if v == 2 then [Flag(m.notification), SPACE] else []) + m.body))
  }

  function BrokerTag(m: BrokerMessage): Tag {
    match m
    case Ids(_, _, _, _, _) => IDS
    case Msg(_, _, _, _) => MSG
    case Nid(_, _) => NID
    case NMsg(_, _) => NMSG
    case End => END
    case Okay => OK
    case ErrorText(_) => ERR
    case CommandError(_) => ERR
    case Pong => PONG
  }

  function BrokerParams(v: nat, m: BrokerMessage): Option<Result<bytes, Fault>> {
    match m
    case Ids(_, _, _, _, _) => Some(IdsParams(v, m))
    case Msg(_, _, _, _) => Some(MsgParams(v, m))
    case Nid(n, dh) => Some(Join(EncodeSmall(n), EncodeSmall(dh)))
    case NMsg(nonce, meta) => Some(Join(Ok(nonce), EncodeSmall(meta)))
    case ErrorText(text) => Some(if IsAscii(text) then Ok(text) else Err(Syntax))
    case CommandError(text) =>
      Some(if IsAscii(text) then Ok(CMD_SPACE + (if text == [] then SYNTAX else text)) else Err(Syntax))
    case _ => None
  }

  function EncodeBroker(v: nat, m: BrokerMessage): Result<bytes, Fault> {
    WithTag(BrokerTag(m), BrokerParams(v, m))
  }

  predicate IsAscii(b: bytes) {
    forall i :: 0 <= i < |b| ==> b[i] <= 0x7f
  }

  /** White space among ASCII characters. */
  predicate Blank(b: byte) {
    b == SPACE || 9 <= b <= 13
  }

  function TrimLeft(b: bytes): bytes {
    if b != [] && Blank(b[0]) then TrimLeft(b[1..]) else b
  }

  function TrimRight(b: bytes): bytes {
    if b != [] && Blank(b[|b| - 1]) then TrimRight(b[..|b| - 1]) else b
  }

  function Trim(b: bytes): bytes {
    TrimRight(TrimLeft(b))
  }

  function ParseError(p: bytes): Result<BrokerMessage, Fault> {
    if !IsAscii(p) then Err(Syntax)
    else
      var text := Trim(p);
      if text == [] then Err(Syntax)
      else if CMD_SPACE <= text then
        var code := Trim(text[4..]);
        Ok(CommandError(if code == [] then SYNTAX else code))
      else Ok(ErrorText(text))
  }

  function ParseIds(v: nat, p: bytes): Result<BrokerMessage, Fault> {
    match CutSmall(p) case Err(e) => Err(e) case Ok(rcv) =>
    match CutSmall(rcv.rest) case Err(e) => Err(e) case Ok(snd) =>
    match CutSmall(snd.rest) case Err(e) => Err(e) case Ok(dh) =>
    match (if v >= 15 then CutMode(dh.rest, false) else if v >= 9 then CutOldMode(dh.rest) else Ok(Taken(None, dh.rest)))
    case Err(e) => Err(e) case Ok(mode) =>
    match (if v >= 15 then CutMaybe(mode.rest) else Ok(Taken(None, mode.rest))) case Err(e) => Err(e) case Ok(link) =>
      Done(Ids(rcv.value, snd.value, dh.value, mode.value, link.value), link.rest)
  }

  function ParseMsg(v: nat, p: bytes): Result<BrokerMessage, Fault> {
    match CutSmall(p) case Err(e) => Err(e) case Ok(id) =>
      if v > 2 then Ok(Msg(id.value, 0, false, id.rest))
      else
        match Cut(id.rest, 8) case Err(e) => Err(e) case Ok(time) =>
          var b := time.rest;
          if v == 1 then Ok(Msg(id.value, FromBigEndian(time.value), false, b))
          else if b == [] then Err(Truncated)
          else if b[0] != T && b[0] != F then Err(Syntax)
          else if |b| == 1 then Err(Truncated)
          else if b[1] != SPACE then Err(Syntax)
          else Ok(Msg(id.value, FromBigEndian(time.value), b[0] == T, b[2..]))
  }

  function ParseNMsg(p: bytes): Result<BrokerMessage, Fault> {
    match Cut(p, 24) case Err(e) => Err(e) case Ok(nonce) =>
    match CutSmall(nonce.rest) case Err(e) => Err(e) case Ok(meta) => Done(NMsg(nonce.value, meta.value), meta.rest)
  }

  function ParseBrokerParams(v: nat, t: Tag, p: bytes): Result<BrokerMessage, Fault> {
    match t
    case IDS => ParseIds(v, p)
    case MSG => ParseMsg(v, p)
    case NID => (match ParsePair(p) case Ok(k) => Ok(Nid(k.0, k.1)) case Err(e) => Err(e))
    case NMSG => ParseNMsg(p)
    case END => Done(End, p)
    case OK => Done(Okay, p)
    case ERR => ParseError(p)
    case PONG => Done(Pong, p)
    case _ => Err(UnknownTag)
  }

  function ParseBroker(v: nat, b: bytes): Result<BrokerMessage, Fault> {
    match CutTag(b) case Err(e) => Err(e) case Ok(t) =>
    match FindTag(t.tag, ALL_TAGS) case None => Err(UnknownTag) case Some(tag) => ParseBrokerParams(v, tag, t.params)
  }

  /** What version v keeps of a broker message. */
  function CanonicalBroker(v: nat, m: BrokerMessage): BrokerMessage {
    match m
    case Ids(r, s, dh, mode, link) =>
      Ids(r, s, dh, if v < 9 then None else if mode.Some? then mode else Some(Messaging), if v >= 15 then link else None)
    case Msg(id, time, n, body) => Msg(id, if v <= 2 then time else 0, v == 2 && n, body)
    case CommandError(text) => CommandError(if text == [] then SYNTAX else text)
    case _ => m
  }

  /** Texts that survive the trimming and the "CMD " test, and nonces of the length the
      parser reads. */
  predicate Plain(m: BrokerMessage) {
    match m
    case NMsg(nonce, _) => |nonce| == 24
    case ErrorText(text) => text != [] && Edged(text) && !(CMD_SPACE <= text)
    case CommandError(text) => text == [] || Edged(text)
    case _ => true
  }

  /** No white space at either end. */
  predicate Edged(b: bytes) {
    b != [] ==> !Blank(b[0]) && !Blank(b[|b| - 1])
  }

  lemma IdsTailInverts(v: nat, mode: QueueMode, link: Option<bytes>)
    requires MaybeSmall(link).Ok?
    ensures var tail: bytes := if v >= 15 then [ONE, ModeByte(mode)] + MaybeSmall(link).value
                               else if v >= 9 then [Flag(mode.Messaging?)] else [];
            && (v >= 15 ==> CutMode(tail, false) == Ok(Taken(Some(mode), MaybeSmall(link).value)))
            && (9 <= v < 15 ==> CutOldMode(tail) == Ok(Taken(Some(mode), [])))
            && CutMaybe(MaybeSmall(link).value) == Ok(Taken(link, []))
  {
    var tail: bytes := [ONE, ModeByte(mode)] + MaybeSmall(link).value;
    assert tail[2..] == MaybeSmall(link).value && [Flag(mode.Messaging?)][1..] == [];
    MaybeInverts(link, []);
    assert MaybeSmall(link).value + [] == MaybeSmall(link).value;
  }

  lemma IdsInverts(v: nat, m: BrokerMessage)
    requires m.Ids? && IdsParams(v, m).Ok?
    ensures ParseIds(v, IdsParams(v, m).value) == Ok(CanonicalBroker(v, m))
  {
    IdsShape(v, m);
    hide CutSmall, CutMaybe, CutMode, CutOldMode, MaybeSmall, IdsParams, Cut, EncodeSmall;
    var tail := IdsTail(v, m);
    var b, c := EncodeSmall(m.sndId).value, EncodeSmall(m.serverDhKey).value;
    SmallFirst(m.rcvId, b + (c + tail));
    SmallFirst(m.sndId, c + tail);
    SmallFirst(m.serverDhKey, tail);
    IdsTailInverts(v, if m.mode.Some? then m.mode.value else Messaging, if v >= 15 then m.linkId else None);
  }

  /** The bytes after the three ids and keys of IDS. */
  function IdsTail(v: nat, m: BrokerMessage): bytes
    requires m.Ids? && (v >= 15 ==> MaybeSmall(m.linkId).Ok?)
  {
    var mode := if m.mode.Some? then m.mode.value else Messaging;
    if v >= 15 then [ONE, ModeByte(mode)] + MaybeSmall(m.linkId).value else if v >= 9 then [Flag(mode.Messaging?)] else []
  }

  lemma IdsShape(v: nat, m: BrokerMessage)
    requires m.Ids? && IdsParams(v, m).Ok?
    ensures EncodeSmall(m.rcvId).Ok? && EncodeSmall(m.sndId).Ok? && EncodeSmall(m.serverDhKey).Ok?
    ensures v >= 15 ==> MaybeSmall(m.linkId).Ok?
    ensures MaybeSmall(if v >= 15 then m.linkId else None).Ok?
    ensures IdsParams(v, m).value
            == EncodeSmall(m.rcvId).value + (EncodeSmall(m.sndId).value + (EncodeSmall(m.serverDhKey).value + IdsTail(v, m)))
  {
  }

  function MsgTail(v: nat, m: BrokerMessage): bytes
    requires m.Msg?
  {
    (if v == 2 then [Flag(m.notification), SPACE] else []) + m.body
  }

  lemma MsgShape(v: nat, m: BrokerMessage)
    requires m.Msg? && MsgParams(v, m).Ok?
    ensures EncodeSmall(m.msgId).Ok?
    ensures MsgParams(v, m).value
            == EncodeSmall(m.msgId).value + ((if v <= 2 then BigEndian(m.timestamp, 8) else []) + MsgTail(v, m))
  {
  }

  lemma MsgInverts(v: nat, m: BrokerMessage)
    requires 1 <= v && m.Msg? && MsgParams(v, m).Ok?
    ensures ParseMsg(v, MsgParams(v, m).value) == Ok(CanonicalBroker(v, m))
  {
    MsgShape(v, m);
    var time, rest := (if v <= 2 then BigEndian(m.timestamp, 8) else []), MsgTail(v, m);
    if v <= 2 { BigEndianInverts(m.timestamp, 8); }
    hide CutSmall, EncodeSmall, BigEndian, FromBigEndian, MsgParams, Pow256;
    SmallFirst(m.msgId, time + rest);
    if v <= 2 {
      assert (time + rest)[..8] == time && (time + rest)[8..] == rest;
      if v == 2 {
        assert rest[0] == Flag(m.notification) && rest[1] == SPACE && rest[2..] == m.body;
      } else {
        assert rest == m.body;
      }
    } else {
      assert time + rest == m.body;
    }
  }

  lemma NMsgInverts(nonce: bytes, meta: bytes)
    requires EncodeSmall(meta).Ok?
    ensures ParseNMsg(nonce + EncodeSmall(meta).value) == Ok(NMsg(nonce, meta)) <==> |nonce| == 24
  {
    var p := nonce + EncodeSmall(meta).value;
    if |nonce| == 24 {
      assert p[..24] == nonce && p[24..] == EncodeSmall(meta).value + [];
      SmallFirst(meta, []);
    }
  }

  lemma {:induction false} TrimLeftIs(b: bytes)
    ensures var r := TrimLeft(b);
            && (r != [] ==> !Blank(r[0]) && b != [] && r[|r| - 1] == b[|b| - 1])
            && (b == [] || !Blank(b[0]) ==> r == b)
  {
    if b != [] && Blank(b[0]) { TrimLeftIs(b[1..]); }
  }

  lemma {:induction false} TrimRightIs(b: bytes)
    ensures var r := TrimRight(b);
            && (r != [] ==> !Blank(r[|r| - 1]) && b != [] && r[0] == b[0])
            && (b == [] || !Blank(b[|b| - 1]) ==> r == b)
  {
    if b != [] && Blank(b[|b| - 1]) { TrimRightIs(b[..|b| - 1]); }
  }

  lemma TrimIs(b: bytes)
    ensures Edged(Trim(b)) && (Trim(b) == b <==> Edged(b))
  {
    TrimLeftIs(b);
    TrimRightIs(TrimLeft(b));
  }

  /** A parsed error has no white space at its ends. */
  lemma ErrorsAreEdged(p: bytes)
    requires ParseError(p).Ok?
    ensures var m := ParseError(p).value;
            (m.ErrorText? || m.CommandError?) && Edged(m.text) && m.text != []
                && (m.ErrorText? ==> !(CMD_SPACE <= m.text))
  {
    TrimIs(p);
    if CMD_SPACE <= Trim(p) { TrimIs(Trim(p)[4..]); }
    hide Trim;
    assert SYNTAX[0] == 0x53 && SYNTAX[5] == 0x58;
  }

  lemma CommandErrorKept(code: bytes)
    requires IsAscii(code) && code != [] && Edged(code)
    ensures ParseError(CMD_SPACE + code) == Ok(CommandError(code))
  {
  }

  lemma ErrorInverts(m: BrokerMessage)
    requires (m.ErrorText? || m.CommandError?) && IsAscii(m.text)
    ensures ParseError(BrokerParams(1, m).value.value) == Ok(CanonicalBroker(1, m)) <==> Plain(m)
  {
    var p := BrokerParams(1, m).value.value;
    TrimIs(p);
    if ParseError(p).Ok? { ErrorsAreEdged(p); }
    if m.CommandError? && Plain(m) { CommandErrorKept(if m.text == [] then SYNTAX else m.text); }
    hide Trim;
  }

  /** For every version, parsing a broker message that was encoded gives what that version
      keeps of it, if and only if its texts survive trimming and its nonce has 24 bytes. */
  lemma BrokerInverts(v: nat, m: BrokerMessage)
    requires 1 <= v && EncodeBroker(v, m).Ok?
    ensures ParseBroker(v, EncodeBroker(v, m).value) == Ok(CanonicalBroker(v, m)) <==> Plain(m)
  {
    hide ParseBrokerParams, CutTag, FindTag, Spelling;
    EveryTag(BrokerTag(m));
    TagInverts(BrokerTag(m), BrokerParams(v, m));
    BrokerParamsInvert(v, m);
  }

  lemma BrokerParamsInvert(v: nat, m: BrokerMessage)
    requires 1 <= v && (BrokerParams(v, m).Some? ==> BrokerParams(v, m).value.Ok?)
    ensures Plain(m) <==>
              ParseBrokerParams(v, BrokerTag(m), if BrokerParams(v, m).None? then [] else BrokerParams(v, m).value.value)
              == Ok(CanonicalBroker(v, m))
  {
    hide ParseIds, IdsParams, ParseMsg, MsgParams, ParseNMsg, ParsePair, ParseError, EncodeSmall, Trim;
    match m
    case Ids(_, _, _, _, _) => IdsInverts(v, m);
    case Msg(_, _, _, _) => MsgInverts(v, m);
    case Nid(n, dh) => PairInverts(n, dh);
    case NMsg(nonce, meta) => NMsgInverts(nonce, meta);
    case ErrorText(_) => ErrorInverts(m);
    case CommandError(_) => ErrorInverts(m);
    case _ =>
  }
}
