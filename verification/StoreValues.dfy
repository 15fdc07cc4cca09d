/** What encodeValue and decodeValue make of a record
    (src/browser-simplex-store.mjs).  Base64url and decimal texts are inverse
    pairs; the base64 reader rejects the empty text. */
module StoreValues {
  import opened Outcomes
  import opened Base64
  import opened Bytes

  const MAX_ITEMS: nat := 1000
  const MAX_TEXT: nat := 8192
  const MAX_NAME: nat := 80

  /** A JavaScript value a record can hold; Number(None) is NaN or an infinity. */
  datatype Value =
    | Binary(data: bytes)
    | Big(int)
    | Number(finite: Option<real>)
    | Flag(bool)
    | Null
    | Text(text: string)
    | Array(items: Items)
    | Object(fields: Fields)

  datatype Items = NoItem | Item(first: Value, rest: Items)
  datatype Fields = NoField | Field(name: string, value: Value, rest: Fields)

  datatype Json =
    | JNumber(real)
    | JFlag(bool)
    | JNull
    | JText(text: string)
    | JArray(items: Elements)
    | JObject(members: Members)

  datatype Elements = NoElement | Element(first: Json, rest: Elements)
  datatype Members = NoMember | Member(name: string, value: Json, rest: Members)

  datatype Texts = Texts(toBase64: bytes -> string, fromBase64: string -> Option<bytes>,
                         toDecimal: int -> string, fromDecimal: string -> Option<int>) {
    ghost predicate Valid() {
      && (forall b :: fromBase64(toBase64(b)) == if b == [] then None else Some(b))
      && (forall n :: fromDecimal(toDecimal(n)) == Some(n))
    }
  }

  /** As many signs as the number is big: one numeral system. */
  function Unary(n: int): string {
    if n < 0 then seq(-n, _ => '-') else seq(n, _ => '1')
  }

  function FromUnary(s: string): int {
    if s != "" && s[0] == '-' then -|s| else |s|
  }

  lemma UnaryInverts(n: int)
    ensures FromUnary(Unary(n)) == n
  {
  }

  lemma TextsHold()
    ensures exists t: Texts :: t.Valid()
  {
    hide EncodeUrl, ReadUrl, Unary, FromUnary;
    var t := Texts(EncodeUrl, (s: string) => if s == "" then None else Some(ReadUrl(s)), Unary, s => Some(FromUnary(s)));
    forall b ensures t.fromBase64(t.toBase64(b)) == if b == [] then None else Some(b) {
      ReadInverts(b);
      assert b == [] <==> EncodeUrl(b) == "" by { assert |EncodeUrl(b)| == (4 * |b| + 2) / 3; }
    }
    forall n ensures t.fromDecimal(t.toDecimal(n)) == Some(n) { UnaryInverts(n); }
    assert t.Valid();
  }

  predicate NameChar(c: char) {
    'A' <= c <= 'Z' || 'a' <= c <= 'z' || '0' <= c <= '9' || c == '_' || c == '$' || c == '.' || c == '-'
  }

  predicate SafeName(name: string) {
    1 <= |name| <= MAX_NAME && forall i :: 0 <= i < |name| ==> NameChar(name[i])
  }

  function Prefix(s: string, n: nat): string {
    if |s| <= n then s else s[..n]
  }

  function Encode(t: Texts, v: Value): Json
    decreases v
  {
    match v
    case Binary(data) => JObject(Member("$bytes", JText(t.toBase64(data)), NoMember))
    case Big(n) => JObject(Member("$bigint", JText(t.toDecimal(n)), NoMember))
    case Number(finite) => JNumber(if finite.Some? then finite.value else 0.0)
    case Flag(b) => JFlag(b)
    case Null => JNull
    case Text(text) => JText(Prefix(text, MAX_TEXT))
    case Array(items) => JArray(EncodeItems(t, items, MAX_ITEMS))
    case Object(fields) => JObject(EncodeFields(t, fields))
  }

  /** The first `room` items. */
  function EncodeItems(t: Texts, items: Items, room: nat): Elements
    decreases items
  {
    if items.NoItem? || room == 0 then NoElement
    else Element(Encode(t, items.first), EncodeItems(t, items.rest, room - 1))
  }

  function EncodeFields(t: Texts, fields: Fields): Members
    decreases fields
  {
    match fields
    case NoField => NoMember
    case Field(name, value, rest) =>
      if SafeName(name) then Member(name, Encode(t, value), EncodeFields(t, rest)) else EncodeFields(t, rest)
  }

  /** The text of the named member, if there is one and it is text. */
  function TextMember(members: Members, name: string): Option<string> {
    match members
    case NoMember => None
    case Member(n, value, rest) => if n == name && value.JText? then Some(value.text) else TextMember(rest, name)
  }

  function Decode(t: Texts, j: Json): Option<Value>
    decreases j
  {
    match j
    case JNumber(n) => Some(Number(Some(n)))
    case JFlag(b) => Some(Flag(b))
    case JNull => Some(Null)
    case JText(text) => Some(Text(text))
    case JArray(items) =>
      var r := DecodeItems(t, items);
      if r.None? then None else Some(Array(r.value))
    case JObject(members) =>
      var binary, big := TextMember(members, "$bytes"), TextMember(members, "$bigint");
      if binary.Some? then
        var data := t.fromBase64(binary.value);
        if data.None? then None else Some(Binary(data.value))
      else if big.Some? then
        var n := t.fromDecimal(big.value);
        if n.None? then None else Some(Big(n.value))
      else
        var r := DecodeMembers(t, members);
        if r.None? then None else Some(Object(r.value))
  }

  function DecodeItems(t: Texts, items: Elements): Option<Items>
    decreases items
  {
    match items
    case NoElement => Some(NoItem)
    case Element(first, rest) =>
      var a, b := Decode(t, first), DecodeItems(t, rest);
      if a.None? || b.None? then None else Some(Item(a.value, b.value))
  }

  function DecodeMembers(t: Texts, members: Members): Option<Fields>
    decreases members
  {
    match members
    case NoMember => Some(NoField)
    case Member(name, value, rest) =>
      var a, b := Decode(t, value), DecodeMembers(t, rest);
      if a.None? || b.None? then None else Some(Field(name, a.value, b.value))
  }

  // ---------------------------------------------------- what survives a store

  function Count(items: Items): nat {
    if items.NoItem? then 0 else 1 + Count(items.rest)
  }

  predicate HasText(fields: Fields, name: string) {
    fields.Field? && ((fields.name == name && fields.value.Text?) || HasText(fields.rest, name))
  }

  /** No empty bytes, no NaN, texts and lists within their caps, field names of the
      accepted form, and no text field that reads as a tag. */
  predicate Stable(v: Value)
    decreases v
  {
    match v
    case Binary(data) => data != []
    case Number(finite) => finite.Some?
    case Text(text) => |text| <= MAX_TEXT
    case Array(items) => Count(items) <= MAX_ITEMS && StableItems(items)
    case Object(fields) => StableFields(fields) && !HasText(fields, "$bytes") && !HasText(fields, "$bigint")
    case _ => true
  }

  predicate StableItems(items: Items)
    decreases items
  {
    items.Item? ==> Stable(items.first) && StableItems(items.rest)
  }

  predicate StableFields(fields: Fields)
    decreases fields
  {
    fields.Field? ==> SafeName(fields.name) && Stable(fields.value) && StableFields(fields.rest)
  }

  function FieldCount(fields: Fields): nat {
    if fields.NoField? then 0 else 1 + FieldCount(fields.rest)
  }

  lemma {:induction false} NeverLonger(t: Texts, fields: Fields)
    ensures var r := DecodeMembers(t, EncodeFields(t, fields));
            r.Some? ==> FieldCount(r.value) <= FieldCount(fields)
  {
    if fields.Field? { NeverLonger(t, fields.rest); }
  }

  lemma {:induction false} TagsSeen(t: Texts, fields: Fields, name: string)
    requires SafeName(name)
    ensures TextMember(EncodeFields(t, fields), name).Some? <==> HasText(fields, name)
  {
    if fields.Field? { TagsSeen(t, fields.rest, name); }
  }

  lemma TagNames()
    ensures SafeName("$bytes") && SafeName("$bigint")
  {
  }

  /** A value comes back from the store exactly if it is stable. */
  lemma {:induction false} ComesBackExactly(t: Texts, v: Value)
    requires t.Valid()
    ensures Decode(t, Encode(t, v)) == Some(v) <==> Stable(v)
    decreases v
  {
    match v
    case Array(items) => ItemsComeBack(t, items, MAX_ITEMS);
    case Object(fields) =>
      TagNames();
      TagsSeen(t, fields, "$bytes");
      TagsSeen(t, fields, "$bigint");
      FieldsComeBack(t, fields);
    case Binary(data) =>
      assert TextMember(Encode(t, v).members, "$bytes") == Some(t.toBase64(data));
    case Big(n) =>
      assert "$bigint"[2] == 'i' != "$bytes"[2];
      assert TextMember(Encode(t, v).members, "$bytes") == None;
      assert TextMember(Encode(t, v).members, "$bigint") == Some(t.toDecimal(n));
    case Text(text) => assert |text| > MAX_TEXT ==> |Prefix(text, MAX_TEXT)| != |text|;
    case _ =>
  }

  lemma {:induction false} ItemsComeBack(t: Texts, items: Items, room: nat)
    requires t.Valid()
    ensures DecodeItems(t, EncodeItems(t, items, room)) == Some(items) <==> Count(items) <= room && StableItems(items)
    decreases items
  {
    if items.Item? && room > 0 {
      ComesBackExactly(t, items.first);
      ItemsComeBack(t, items.rest, room - 1);
    }
  }

  lemma {:induction false} FieldsComeBack(t: Texts, fields: Fields)
    requires t.Valid()
    ensures DecodeMembers(t, EncodeFields(t, fields)) == Some(fields) <==> StableFields(fields)
    decreases fields
  {
    if fields.Field? {
      ComesBackExactly(t, fields.value);
      FieldsComeBack(t, fields.rest);
      NeverLonger(t, fields.rest);
    }
  }

  /** 1 to 80 letters, digits and "_$.-". */
  predicate PlainField(name: string) {
    && 1 <= |name| <= 80
    && forall c :: c in name ==> 'A' <= c <= 'Z' || 'a' <= c <= 'z' || '0' <= c <= '9' || c in {'_', '$', '.', '-'}
  }

  /** What becomes of values that do not come back: a long text is cut to 8192 characters, a
      long list to its first 1000 items, NaN is read as 0, a field of another name is
      dropped, and empty bytes cannot be read at all. */
  lemma OthersComeBackAs(t: Texts, text: string, name: string, v: Value)
    requires t.Valid()
    ensures Decode(t, Encode(t, Text(text))) == Some(Text(if |text| <= 8192 then text else text[..8192]))
    ensures Decode(t, Encode(t, Number(None))) == Some(Number(Some(0.0)))
    ensures Decode(t, Encode(t, Binary([]))) == None
    ensures !PlainField(name) <==> Encode(t, Object(Field(name, v, NoField))) == Encode(t, Object(NoField))
    ensures Stable(Array(NoItem)) && forall items :: Stable(Array(items)) ==> Count(items) <= 1000
  {
    FieldIsSafe(name);
    assert TextMember(Encode(t, Binary([])).members, "$bytes") == Some(t.toBase64([]));
  }

  lemma FieldIsSafe(name: string)
    ensures PlainField(name) <==> SafeName(name)
  {
    if SafeName(name) {
      forall c | c in name ensures NameChar(c) { var i :| 0 <= i < |name| && name[i] == c; }
    }
    if PlainField(name) {
      forall i | 0 <= i < |name| ensures NameChar(name[i]) { assert name[i] in name; }
    }
  }

  // ------------------------------------------------------- long lists are cut

  /** Stable but for the length of its lists. */
  predicate NearlyStable(v: Value)
    decreases v
  {
    match v
    case Binary(data) => data != []
    case Number(finite) => finite.Some?
    case Text(text) => |text| <= MAX_TEXT
    case Array(items) => NearlyStableItems(items)
    case Object(fields) => NearlyStableFields(fields) && !HasText(fields, "$bytes") && !HasText(fields, "$bigint")
    case _ => true
  }

  predicate NearlyStableItems(items: Items)
    decreases items
  {
    items.Item? ==> NearlyStable(items.first) && NearlyStableItems(items.rest)
  }

  predicate NearlyStableFields(fields: Fields)
    decreases fields
  {
    fields.Field? ==> SafeName(fields.name) && NearlyStable(fields.value) && NearlyStableFields(fields.rest)
  }

  /** Every list in the value keeps its first MAX_ITEMS. */
  function CutLists(v: Value): Value
    decreases v
  {
    match v
    case Array(items) => Array(CutItems(items, MAX_ITEMS))
    case Object(fields) => Object(CutFields(fields))
    case _ => v
  }

  function CutItems(items: Items, room: nat): Items
    decreases items
  {
    if items.NoItem? || room == 0 then NoItem else Item(CutLists(items.first), CutItems(items.rest, room - 1))
  }

  function CutFields(fields: Fields): Fields
    decreases fields
  {
    match fields
    case NoField => NoField
    case Field(name, value, rest) => Field(name, CutLists(value), CutFields(rest))
  }

  /** A value that is stable but for long lists comes back with those lists cut, without
      an error. */
  lemma {:induction false} LongListsAreCut(t: Texts, v: Value)
    requires t.Valid() && NearlyStable(v)
    ensures Decode(t, Encode(t, v)) == Some(CutLists(v))
    decreases v
  {
    match v
    case Array(items) => ItemsAreCut(t, items, MAX_ITEMS);
    case Object(fields) =>
      TagNames();
      TagsSeen(t, fields, "$bytes");
      TagsSeen(t, fields, "$bigint");
      FieldsAreCut(t, fields);
    case _ => ComesBackExactly(t, v);
  }

  lemma {:induction false} ItemsAreCut(t: Texts, items: Items, room: nat)
    requires t.Valid() && NearlyStableItems(items)
    ensures DecodeItems(t, EncodeItems(t, items, room)) == Some(CutItems(items, room))
    decreases items
  {
    if items.Item? && room > 0 {
      LongListsAreCut(t, items.first);
      ItemsAreCut(t, items.rest, room - 1);
    }
  }

  lemma {:induction false} FieldsAreCut(t: Texts, fields: Fields)
    requires t.Valid() && NearlyStableFields(fields)
    ensures DecodeMembers(t, EncodeFields(t, fields)) == Some(CutFields(fields))
    decreases fields
  {
    if fields.Field? {
      LongListsAreCut(t, fields.value);
      FieldsAreCut(t, fields.rest);
    }
  }
}
