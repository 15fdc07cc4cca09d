/** The stored form of a browser ratchet and what comes back of it
    (src/browser-simplex-ratchet.mjs:64-80, src/browser-simplex-store.mjs:50-84). */
module RatchetRecord {
  import opened Outcomes
  import opened Bytes
  import opened StoreValues
  import R = Ratchet
  import S = RatchetSession

  /** Key material and key ids as bytes and text; a DH key pair has four byte forms. */
  datatype Spelling = Spelling(
    secret: R.Secret -> bytes, dh: nat -> bytes, dhSecret: nat -> bytes, publicDer: nat -> bytes, privateDer: nat -> bytes,
    skippedId: (nat, nat) -> string)
  {
    ghost predicate Valid() {
      && (forall k :: secret(k) != []) && (forall n :: dh(n) != [] && dhSecret(n) != [])
      && (forall n :: publicDer(n) != [] && privateDer(n) != [])
      && (forall n, m :: |skippedId(n, m)| <= MAX_TEXT)
    }
  }

  lemma SpellingHolds()
    ensures exists p: Spelling :: p.Valid()
  {
    var p := Spelling(_ => [0], _ => [0], _ => [0], _ => [0], _ => [0], (_, _) => "id");
    assert p.Valid();
  }

  function Key(p: Spelling, k: Option<R.Secret>): Value {
    if k.Some? then Binary(p.secret(k.value)) else Null
  }

  function Count(n: nat): Value {
    Number(Some(n as real))
  }

  function SkippedItems(p: Spelling, keys: seq<R.SkippedKey>): Items {
    if keys == [] then NoItem
    else Item(Entry(p, keys[0]), SkippedItems(p, keys[1..]))
  }

  function Entry(p: Spelling, k: R.SkippedKey): Value {
    Object(Field("id", Text(p.skippedId(k.dh, k.n)), Field("key", Binary(p.secret(k.key)), NoField)))
  }

  /** The record normalizeState builds, as the store is given it. */
  function RatchetValue(p: Spelling, s: R.State): Value {
    Object(Field("version", Count(1), KeyFields(p, s)))
  }

  function OwnKeyFields(p: Spelling, n: nat): Fields {
    Field("algorithm", Text("X25519"),
      Field("secretKey", Binary(p.dhSecret(n)),
        Field("publicKey", Binary(p.dh(n)),
          Field("publicKeyDer", Binary(p.publicDer(n)),
            Field("privateKeyDer", Binary(p.privateDer(n)), NoField)))))
  }

  function KeyFields(p: Spelling, s: R.State): Fields {
    Field("rootKey", Binary(p.secret(s.rootKey)),
      Field("ownDhKey", Object(OwnKeyFields(p, s.ownDh)),
        Field("remoteDhPublicKey", if s.remoteDh.Some? then Binary(p.dh(s.remoteDh.value)) else Null,
          Field("sendingChainKey", Key(p, s.sendingChain),
            Field("receivingChainKey", Key(p, s.receivingChain), CountFields(p, s))))))
  }

  function CountFields(p: Spelling, s: R.State): Fields {
    Field("sendCount", Count(s.sendCount),
      Field("receiveCount", Count(s.receiveCount),
        Field("previousSendCount", Count(s.previousSendCount),
          Field("skipped", Array(SkippedItems(p, s.skipped)), NoField))))
  }

  /** Names of the record's fields are plain and no tags. */
  predicate PlainName(name: string) {
    SafeName(name) && name != "$bytes" && name != "$bigint"
  }

  lemma EntryNames()
    ensures PlainName("id") && PlainName("key") && PlainName("version")
  {
    assert "$bytes"[0] == '$' && "$bigint"[0] == '$';
  }

  lemma KeyNames()
    ensures PlainName("rootKey") && PlainName("ownDhKey") && PlainName("remoteDhPublicKey")
    ensures PlainName("sendingChainKey") && PlainName("receivingChainKey")
  {
    assert "$bytes"[0] == '$' && "$bigint"[0] == '$';
  }

  lemma OwnKeyNames()
    ensures PlainName("algorithm") && PlainName("secretKey") && PlainName("publicKey")
    ensures PlainName("publicKeyDer") && PlainName("privateKeyDer")
  {
    assert "$bytes"[0] == '$' && "$bigint"[0] == '$';
  }

  lemma CountNames()
    ensures PlainName("sendCount") && PlainName("receiveCount") && PlainName("previousSendCount")
            && PlainName("skipped")
  {
    assert "$bytes"[0] == '$' && "$bigint"[0] == '$';
  }

  /** Fields that come back, with the lists in them cut, as `cut`. */
  ghost predicate Good(fields: Fields, cut: Fields) {
    NearlyStableFields(fields) && !HasText(fields, "$bytes") && !HasText(fields, "$bigint") && CutFields(fields) == cut
  }

  lemma NoFields()
    ensures Good(NoField, NoField)
  {
  }

  lemma GoodField(name: string, value: Value, kept: Value, rest: Fields, cut: Fields)
    requires PlainName(name) && NearlyStable(value) && CutLists(value) == kept && Good(rest, cut)
    ensures Good(Field(name, value, rest), Field(name, kept, cut))
  {
  }

  lemma GoodObject(fields: Fields, cut: Fields)
    requires Good(fields, cut)
    ensures NearlyStable(Object(fields)) && CutLists(Object(fields)) == Object(cut)
  {
  }

  lemma KeyGood(p: Spelling, k: Option<R.Secret>)
    requires p.Valid()
    ensures NearlyStable(Key(p, k)) && CutLists(Key(p, k)) == Key(p, k)
  {
  }

  lemma EntryGood(p: Spelling, k: R.SkippedKey)
    requires p.Valid()
    ensures NearlyStable(Entry(p, k)) && CutLists(Entry(p, k)) == Entry(p, k)
  {
    EntryNames();
    var key := Field("key", Binary(p.secret(k.key)), NoField);
    hide SafeName, Good;
    NoFields();
    GoodField("key", Binary(p.secret(k.key)), Binary(p.secret(k.key)), NoField, NoField);
    GoodField("id", Text(p.skippedId(k.dh, k.n)), Text(p.skippedId(k.dh, k.n)), key, key);
    GoodObject(Entry(p, k).fields, Entry(p, k).fields);
  }

  lemma {:induction false} SkippedGood(p: Spelling, keys: seq<R.SkippedKey>, room: nat)
    requires p.Valid()
    ensures NearlyStableItems(SkippedItems(p, keys))
    ensures CutItems(SkippedItems(p, keys), room) == SkippedItems(p, if |keys| <= room then keys else keys[..room])
  {
    if keys != [] {
      EntryGood(p, keys[0]);
      SkippedGood(p, keys[1..], if room > 0 then room - 1 else 0);
      assert room > 0 && |keys| > room ==> keys[..room][1..] == keys[1..][..room - 1];
    }
  }

  lemma OwnKeyGood(p: Spelling, n: nat)
    requires p.Valid()
    ensures Good(OwnKeyFields(p, n), OwnKeyFields(p, n))
  {
    OwnKeyNames();
    hide SafeName, Good, PlainName;
    NoFields();
    var der := Field("privateKeyDer", Binary(p.privateDer(n)), NoField);
    var ders := Field("publicKeyDer", Binary(p.publicDer(n)), der);
    var public := Field("publicKey", Binary(p.dh(n)), ders);
    var secret := Field("secretKey", Binary(p.dhSecret(n)), public);
    GoodField("privateKeyDer", Binary(p.privateDer(n)), Binary(p.privateDer(n)), NoField, NoField);
    GoodField("publicKeyDer", Binary(p.publicDer(n)), Binary(p.publicDer(n)), der, der);
    GoodField("publicKey", Binary(p.dh(n)), Binary(p.dh(n)), ders, ders);
    GoodField("secretKey", Binary(p.dhSecret(n)), Binary(p.dhSecret(n)), public, public);
    GoodField("algorithm", Text("X25519"), Text("X25519"), secret, secret);
  }

  lemma CountsGood(p: Spelling, s: R.State)
    requires p.Valid()
    ensures Good(CountFields(p, s), CountFields(p, S.Reloaded(s)))
  {
    CountNames();
    SkippedGood(p, s.skipped, MAX_ITEMS);
    hide SafeName, Good, PlainName;
    var all, kept := Array(SkippedItems(p, s.skipped)), Array(SkippedItems(p, S.Reloaded(s).skipped));
    var sent, received, previous := Count(s.sendCount), Count(s.receiveCount), Count(s.previousSendCount);
    NoFields();
    var f3, g3 := Field("skipped", all, NoField), Field("skipped", kept, NoField);
    var f2, g2 := Field("previousSendCount", previous, f3), Field("previousSendCount", previous, g3);
    var f1, g1 := Field("receiveCount", received, f2), Field("receiveCount", received, g2);
    GoodField("skipped", all, kept, NoField, NoField);
    GoodField("previousSendCount", previous, previous, f3, g3);
    GoodField("receiveCount", received, received, f2, g2);
    GoodField("sendCount", sent, sent, f1, g1);
  }

  lemma KeysGood(p: Spelling, s: R.State)
    requires p.Valid()
    ensures Good(KeyFields(p, s), KeyFields(p, S.Reloaded(s)))
  {
    KeyNames();
    CountsGood(p, s);
    OwnKeyGood(p, s.ownDh);
    KeyGood(p, s.receivingChain);
    KeyGood(p, s.sendingChain);
    hide SafeName, Good, PlainName, CountFields, Key, OwnKeyFields;
    var receiving, sending, root := Key(p, s.receivingChain), Key(p, s.sendingChain), Binary(p.secret(s.rootKey));
    var own, remote := OwnKeyFields(p, s.ownDh), if s.remoteDh.Some? then Binary(p.dh(s.remoteDh.value)) else Null;
    var f5, g5 := CountFields(p, s), CountFields(p, S.Reloaded(s));
    var f4, g4 := Field("receivingChainKey", receiving, f5), Field("receivingChainKey", receiving, g5);
    var f3, g3 := Field("sendingChainKey", sending, f4), Field("sendingChainKey", sending, g4);
    var f2, g2 := Field("remoteDhPublicKey", remote, f3), Field("remoteDhPublicKey", remote, g3);
    var f1, g1 := Field("ownDhKey", Object(own), f2), Field("ownDhKey", Object(own), g2);
    GoodField("receivingChainKey", receiving, receiving, f5, g5);
    GoodField("sendingChainKey", sending, sending, f4, g4);
    GoodField("remoteDhPublicKey", remote, remote, f3, g3);
    GoodObject(own, own);
    GoodField("ownDhKey", Object(own), Object(own), f2, g2);
    GoodField("rootKey", root, root, f1, g1);
  }

  /** A stored ratchet comes back whole but for its kept keys, of which the oldest 1000
      come back: this is the reload of RatchetSession. */
  lemma StoredIsReloaded(t: Texts, p: Spelling, s: R.State)
    requires t.Valid() && p.Valid()
    ensures Decode(t, Encode(t, RatchetValue(p, s))) == Some(RatchetValue(p, S.Reloaded(s)))
  {
    EntryNames();
    KeysGood(p, s);
    hide SafeName, Good, PlainName, KeyFields, Decode, Encode;
    GoodField("version", Count(1), Count(1), KeyFields(p, s), KeyFields(p, S.Reloaded(s)));
    GoodObject(RatchetValue(p, s).fields, RatchetValue(p, S.Reloaded(s)).fields);
    LongListsAreCut(t, RatchetValue(p, s));
  }

  /** record[name], as normalizeState reads it; absent fields are undefined. */
  function Lookup(fields: Fields, name: string): Option<Value> {
    match fields
    case NoField => None
    case Field(n, value, rest) => if n == name then Some(value) else Lookup(rest, name)
  }

  function ListOf(items: Items): seq<Value> {
    match items
    case NoItem => []
    case Item(value, rest) => [value] + ListOf(rest)
  }

  /** Each field of the record, by the name the code reads it under. */
  ghost predicate Reads(p: Spelling, v: Value, s: R.State) {
    && v.Object?
    && Lookup(v.fields, "version") == Some(Number(Some(1.0)))
    && Lookup(v.fields, "rootKey") == Some(Binary(p.secret(s.rootKey)))
    && (exists own :: Lookup(v.fields, "ownDhKey") == Some(Object(own)) && ReadsOwnKey(p, own, s.ownDh))
    && Lookup(v.fields, "remoteDhPublicKey") == Some(if s.remoteDh.Some? then Binary(p.dh(s.remoteDh.value)) else Null)
    && Lookup(v.fields, "sendingChainKey")
       == Some(if s.sendingChain.Some? then Binary(p.secret(s.sendingChain.value)) else Null)
    && Lookup(v.fields, "receivingChainKey")
       == Some(if s.receivingChain.Some? then Binary(p.secret(s.receivingChain.value)) else Null)
    && Lookup(v.fields, "sendCount") == Some(Number(Some(s.sendCount as real)))
    && Lookup(v.fields, "receiveCount") == Some(Number(Some(s.receiveCount as real)))
    && Lookup(v.fields, "previousSendCount") == Some(Number(Some(s.previousSendCount as real)))
    && (exists items :: Lookup(v.fields, "skipped") == Some(Array(items)) && ReadsSkipped(p, ListOf(items), s.skipped))
  }

  ghost predicate ReadsOwnKey(p: Spelling, own: Fields, n: nat) {
    && Lookup(own, "secretKey") == Some(Binary(p.dhSecret(n))) && Lookup(own, "publicKey") == Some(Binary(p.dh(n)))
    && Lookup(own, "publicKeyDer") == Some(Binary(p.publicDer(n)))
    && Lookup(own, "privateKeyDer") == Some(Binary(p.privateDer(n)))
  }

  ghost predicate ReadsSkipped(p: Spelling, entries: seq<Value>, keys: seq<R.SkippedKey>) {
    && |entries| == |keys|
    && forall i :: 0 <= i < |keys| ==>
         && entries[i].Object?
         && Lookup(entries[i].fields, "id") == Some(Text(p.skippedId(keys[i].dh, keys[i].n)))
         && Lookup(entries[i].fields, "key") == Some(Binary(p.secret(keys[i].key)))
  }

  lemma {:induction false} SkippedReads(p: Spelling, keys: seq<R.SkippedKey>)
    ensures ReadsSkipped(p, ListOf(SkippedItems(p, keys)), keys)
  {
    if keys != [] {
      SkippedReads(p, keys[1..]);
      assert forall i :: 0 < i < |keys| ==> keys[i] == keys[1..][i - 1];
      assert Lookup(Entry(p, keys[0]).fields.rest, "key") == Some(Binary(p.secret(keys[0].key)));
    }
  }

  /** The names of a record differ where these letters stand. */
  lemma FieldNamesDiffer()
    ensures "version" != "rootKey" && "version" != "skipped" && "rootKey" != "skipped"
    ensures "remoteDhPublicKey" != "receivingChainKey" && "remoteDhPublicKey" != "previousSendCount"
    ensures "receivingChainKey" != "previousSendCount"
  {
    assert "version"[0] == 'v' && "rootKey"[0] == 'r' && "skipped"[0] == 's';
    assert "remoteDhPublicKey"[2] == 'm' && "receivingChainKey"[2] == 'c' && "previousSendCount"[2] == 'e';
  }

  lemma CountsRead(p: Spelling, s: R.State)
    ensures var f := CountFields(p, s);
            && Lookup(f, "sendCount") == Some(Count(s.sendCount))
            && Lookup(f, "receiveCount") == Some(Count(s.receiveCount))
            && Lookup(f, "previousSendCount") == Some(Count(s.previousSendCount))
            && Lookup(f, "skipped") == Some(Array(SkippedItems(p, s.skipped)))
  {
    var f := CountFields(p, s);
    var f1, f2, f3 := f.rest, f.rest.rest, f.rest.rest.rest;
    assert Lookup(f, "previousSendCount") == Lookup(f1, "previousSendCount") == Lookup(f2, "previousSendCount");
    assert Lookup(f, "skipped") == Lookup(f1, "skipped") == Lookup(f2, "skipped") == Lookup(f3, "skipped");
  }

  lemma OwnKeyReads(p: Spelling, n: nat)
    ensures ReadsOwnKey(p, OwnKeyFields(p, n), n)
  {
    var f := OwnKeyFields(p, n);
    var f1, f2, f3, f4 := f.rest, f.rest.rest, f.rest.rest.rest, f.rest.rest.rest.rest;
    assert "algorithm"[0] == 'a' && "secretKey"[0] == 's' && "publicKey"[0] == 'p';
    assert Lookup(f, "publicKey") == Lookup(f1, "publicKey") == Lookup(f2, "publicKey");
    assert Lookup(f, "publicKeyDer") == Lookup(f1, "publicKeyDer") == Lookup(f2, "publicKeyDer") == Lookup(f3, "publicKeyDer");
    assert Lookup(f, "privateKeyDer") == Lookup(f1, "privateKeyDer") == Lookup(f2, "privateKeyDer")
        == Lookup(f3, "privateKeyDer") == Lookup(f4, "privateKeyDer");
  }

  /** A name that is none of the first five is looked up behind them. */
  lemma PastKeys(p: Spelling, s: R.State, name: string)
    requires name != "version" && name != "rootKey" && name != "ownDhKey" && name != "remoteDhPublicKey"
             && name != "sendingChainKey" && name != "receivingChainKey"
    ensures Lookup(RatchetValue(p, s).fields, name) == Lookup(CountFields(p, s), name)
  {
    hide CountFields;
    var f := KeyFields(p, s);
    assert Lookup(RatchetValue(p, s).fields, name) == Lookup(f, name) == Lookup(f.rest, name) == Lookup(f.rest.rest, name)
        == Lookup(f.rest.rest.rest, name) == Lookup(f.rest.rest.rest.rest, name) == Lookup(CountFields(p, s), name);
  }

  lemma KeysRead(p: Spelling, s: R.State)
    ensures var f := RatchetValue(p, s).fields;
            && Lookup(f, "version") == Some(Count(1)) && Lookup(f, "rootKey") == Some(Binary(p.secret(s.rootKey)))
            && Lookup(f, "ownDhKey") == Some(Object(OwnKeyFields(p, s.ownDh)))
            && Lookup(f, "remoteDhPublicKey") == Some(if s.remoteDh.Some? then Binary(p.dh(s.remoteDh.value)) else Null)
            && Lookup(f, "sendingChainKey") == Some(Key(p, s.sendingChain))
            && Lookup(f, "receivingChainKey") == Some(Key(p, s.receivingChain))
  {
    FieldNamesDiffer();
    hide CountFields, OwnKeyFields, Key;
    var f0, f := RatchetValue(p, s).fields, KeyFields(p, s);
    var f1, f2, f3, f4 := f.rest, f.rest.rest, f.rest.rest.rest, f.rest.rest.rest.rest;
    assert Lookup(f0, "rootKey") == Lookup(f, "rootKey");
    assert Lookup(f0, "ownDhKey") == Lookup(f, "ownDhKey") == Lookup(f1, "ownDhKey");
    assert Lookup(f0, "remoteDhPublicKey") == Lookup(f, "remoteDhPublicKey") == Lookup(f1, "remoteDhPublicKey")
        == Lookup(f2, "remoteDhPublicKey");
    assert Lookup(f0, "sendingChainKey") == Lookup(f, "sendingChainKey") == Lookup(f1, "sendingChainKey")
        == Lookup(f2, "sendingChainKey") == Lookup(f3, "sendingChainKey");
    assert Lookup(f0, "receivingChainKey") == Lookup(f, "receivingChainKey") == Lookup(f1, "receivingChainKey")
        == Lookup(f2, "receivingChainKey") == Lookup(f3, "receivingChainKey") == Lookup(f4, "receivingChainKey");
  }

  lemma RecordReads(p: Spelling, s: R.State)
    ensures Reads(p, RatchetValue(p, s), s)
  {
    FieldNamesDiffer();
    KeysRead(p, s);
    CountsRead(p, s);
    OwnKeyReads(p, s.ownDh);
    SkippedReads(p, s.skipped);
    PastKeys(p, s, "sendCount");
    PastKeys(p, s, "receiveCount");
    PastKeys(p, s, "previousSendCount");
    PastKeys(p, s, "skipped");
    hide Lookup, ReadsOwnKey, ReadsSkipped, OwnKeyFields, CountFields, KeyFields, SkippedItems;
  }

  /** Under its own name each part of the state is what comes back of it; of the kept keys
      the oldest 1000. */
  lemma StoredFields(t: Texts, p: Spelling, s: R.State)
    requires t.Valid() && p.Valid()
    ensures var v := Decode(t, Encode(t, RatchetValue(p, s)));
            v.Some? && Reads(p, v.value, s.(skipped := if |s.skipped| <= 1000 then s.skipped else s.skipped[..1000]))
  {
    StoredIsReloaded(t, p, s);
    RecordReads(p, S.Reloaded(s));
    hide Reads, RatchetValue, Decode, Encode;
  }
}
