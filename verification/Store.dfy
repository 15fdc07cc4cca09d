/** Durable store over a Storage-like key space (src/browser-simplex-store.mjs).

    A cell holds what deserialize finds in the stored text: a record, a list of
    ids, or text it rejects.  What encodeValue and the size limit make of a record
    is the parameter `trip`; StoreValues says what it is. */
module Store {
  import opened Outcomes

  const PREFIX: string := "simplex-web-v1"
  const MAX_LIST_ITEMS: nat := 1000
  const MAX_PART: nat := 160

  datatype Cell<V> = Stored(value: V) | Index(ids: seq<string>) | Junk

  /** What comes back of a saved value: a value, unreadable text, or no save at all. */
  datatype Trip<V> = Kept(value: V) | Unreadable | TooLarge

  datatype StoreFault = BadKey | TooBig | Malformed

  predicate SafeChar(c: char) {
    'A' <= c <= 'Z' || 'a' <= c <= 'z' || '0' <= c <= '9' || c == '_' || c == '.' || c == ':' || c == '-'
  }

  predicate SafePart(text: string) {
    1 <= |text| <= MAX_PART && forall i :: 0 <= i < |text| ==> SafeChar(text[i])
  }

  function SafeParts(ids: seq<string>): (r: seq<string>)
    ensures |r| <= |ids| && forall id :: id in r <==> id in ids && SafePart(id)
  {
    if ids == [] then [] else (if SafePart(ids[0]) then [ids[0]] else []) + SafeParts(ids[1..])
  }

  function Without(ids: seq<string>, id: string): (r: seq<string>)
    ensures |r| <= |ids| && forall x :: x in r <==> x in ids && x != id
  {
    if ids == [] then [] else (if ids[0] == id then [] else [ids[0]]) + Without(ids[1..], id)
  }

  /** Each id once, where it stands last. */
  function Distinct(ids: seq<string>): (r: seq<string>)
    ensures |r| <= |ids| && forall x :: x in r <==> x in ids
  {
    if ids == [] then []
    else if ids[0] in ids[1..] then Distinct(ids[1..])
    else [ids[0]] + Distinct(ids[1..])
  }

  function Newest(ids: seq<string>): seq<string> {
    if |ids| <= MAX_LIST_ITEMS then ids else ids[|ids| - MAX_LIST_ITEMS..]
  }

  /** The contents of one namespace of the key space, with the operations as functions. */
  datatype Shelf<!V> = Shelf(ns: string, trip: V -> Trip<V>, cells: map<string, Cell<V>>) {
    function Prefix(kind: string): string {
      PREFIX + ":" + ns + ":" + kind + ":"
    }

    function Key(kind: string, id: string): string {
      Prefix(kind) + id
    }

    function ListKey(kind: string): string {
      PREFIX + ":" + ns + ":list:" + kind
    }

    function Listed(kind: string): (ids: seq<string>)
      ensures forall id :: id in ids ==> SafePart(id)
    {
      if ListKey(kind) in cells && cells[ListKey(kind)].Index? then SafeParts(cells[ListKey(kind)].ids) else []
    }

    function Load(kind: string, id: string): Result<Option<V>, StoreFault> {
      if !SafePart(kind) || !SafePart(id) then Err(BadKey) else LoadKey(Key(kind, id))
    }

    function LoadKey(key: string): Result<Option<V>, StoreFault> {
      if key !in cells then Ok(None)
      else match cells[key]
           case Stored(value) => Ok(Some(value))
           case Index(_) => Ok(None)
           case Junk => Err(Malformed)
    }

    function Relisted(kind: string, ids: seq<string>): Shelf<V> {
      this.(cells := cells[ListKey(kind) := Index(Newest(Distinct(ids)))])
    }

    function Save(kind: string, id: string, value: V): Result<Shelf<V>, StoreFault> {
      if !SafePart(kind) || !SafePart(id) then Err(BadKey)
      else if trip(value).TooLarge? then Err(TooBig)
      else
        var cell := if trip(value).Kept? then Stored(trip(value).value) else Junk;
        var saved := this.(cells := cells[Key(kind, id) := cell]);
        Ok(if id in saved.Listed(kind) then saved else saved.Relisted(kind, saved.Listed(kind) + [id]))
    }

    function Delete(kind: string, id: string): Shelf<V> {
      var gone := this.(cells := cells - {Key(kind, id)});
      gone.Relisted(kind, Without(gone.Listed(kind), id))
    }
  }

  // ------------------------------------------------------------------ keys

  predicate ColonFree(s: string) {
    forall i :: 0 <= i < |s| ==> s[i] != ':'
  }

  /** Two keys of one namespace are the same only for the same kind and id, when the
      kinds have no colon of their own. */
  lemma KeysDiffer<V>(s: Shelf<V>, kind: string, id: string, kind': string, id': string)
    requires ColonFree(kind) && ColonFree(kind')
    ensures s.Key(kind, id) == s.Key(kind', id') <==> kind == kind' && id == id'
    ensures kind != "list" ==> s.Key(kind, id) != s.ListKey(kind')
  {
    var head := PREFIX + ":" + s.ns + ":";
    assert s.Key(kind, id) == head + (kind + ":" + id);
    assert s.Key(kind', id') == head + (kind' + ":" + id');
    assert s.ListKey(kind') == head + ("list" + ":" + kind');
    AfterHead(head, kind + ":" + id, kind' + ":" + id');
    AfterHead(head, kind + ":" + id, "list" + ":" + kind');
    ColonSplits(kind, id, kind', id');
    assert ColonFree("list");
    ColonSplits(kind, id, "list", kind');
  }

  lemma AfterHead(head: string, a: string, b: string)
    ensures head + a == head + b <==> a == b
  {
    assert (head + a)[|head|..] == a && (head + b)[|head|..] == b;
  }

  function FirstColon(s: string): (i: nat)
    ensures i <= |s| && (i < |s| ==> s[i] == ':') && ColonFree(s[..i])
  {
    if s == [] || s[0] == ':' then 0 else 1 + FirstColon(s[1..])
  }

  lemma FirstColonAt(a: string, x: string)
    requires ColonFree(a)
    ensures var s := a + ":" + x; FirstColon(s) == |a| && s[..|a|] == a && s[|a| + 1..] == x
  {
    var s, i := a + ":" + x, FirstColon(a + ":" + x);
    assert s[|a|] == ':' && s[..|a|] == a && s[|a| + 1..] == x;
    assert forall j :: 0 <= j < |a| ==> s[j] != ':';
    assert forall j :: 0 <= j < i ==> s[..i][j] == s[j] && s[j] != ':';
  }

  lemma ColonSplits(a: string, x: string, b: string, y: string)
    requires ColonFree(a) && ColonFree(b)
    ensures a + ":" + x == b + ":" + y <==> a == b && x == y
  {
    FirstColonAt(a, x);
    FirstColonAt(b, y);
  }

  lemma ColonTextsMeet(k: string, id: string, k': string, id': string)
    requires |k'| < |k| && k + ":" + id == k' + ":" + id'
    ensures exists t :: k == k' + ":" + t && id' == t + ":" + id
  {
    var text, t := k + ":" + id, k[|k'| + 1..];
    assert text[..|k|] == k && text[..|k'|] == k' && text[|k'|] == ':' && k[..|k'|] == k';
    assert k == k' + ":" + t;
    assert text[|k'| + 1..] == id' && text[|k'| + 1..] == t + ":" + id;
  }

  /** Exactly when two records of a namespace have one key, for kinds of any text: the same
      kind and id, or the longer kind continues the shorter behind a colon and its id says so. */
  lemma KeysMeet<V>(s: Shelf<V>, k: string, id: string, k': string, id': string)
    requires |k'| <= |k|
    ensures s.Key(k, id) == s.Key(k', id') <==>
      (k == k' && id == id') || (exists t :: k == k' + ":" + t && id' == t + ":" + id)
  {
    var head := PREFIX + ":" + s.ns + ":";
    assert s.Key(k, id) == head + (k + ":" + id) && s.Key(k', id') == head + (k' + ":" + id');
    AfterHead(head, k + ":" + id, k' + ":" + id');
    if k + ":" + id == k' + ":" + id' {
      if |k'| < |k| {
        ColonTextsMeet(k, id, k', id');
      } else {
        assert (k + ":" + id)[..|k|] == k && (k' + ":" + id')[..|k|] == k';
        AfterHead(k + ":", id, id');
      }
    }
    if t :| k == k' + ":" + t && id' == t + ":" + id {
      assert k' + ":" + t + ":" + id == k' + ":" + (t + ":" + id);
    }
  }

  /** The id list of a kind stands where a record of the kind "list" with that kind as its
      id would; no other kind without a colon meets a list. */
  lemma ListKeysMeet<V>(s: Shelf<V>, k: string, id: string, listed: string)
    ensures s.ListKey(listed) == s.Key("list", listed)
    ensures s.Key(k, id) == s.ListKey(listed) <==>
      (k == "list" && id == listed) || (exists t :: k == "list" + ":" + t && listed == t + ":" + id)
  {
    assert s.ListKey(listed) == PREFIX + ":" + s.ns + ":" + ("list" + ":" + listed);
    assert s.Key("list", listed) == PREFIX + ":" + s.ns + ":" + ("list" + ":" + listed);
    if |k| >= 4 {
      KeysMeet(s, k, id, "list", listed);
    } else {
      KeysMeet(s, "list", listed, k, id);
      forall t ensures "list" != k + ":" + t { assert (k + ":" + t)[|k|] == ':'; }
    }
  }

  /** So a record of the kind "list" wipes out the id list of the kind it is named after. */
  lemma ListRecordWipes<V>(s: Shelf<V>, kind: string, value: V)
    requires SafePart(kind) && kind != "list" && !s.trip(value).TooLarge?
    ensures s.Save("list", kind, value).Ok? && s.Save("list", kind, value).value.Listed(kind) == []
  {
    ListKeysMeet(s, "list", kind, kind);
    ListKeysMeet(s, "list", kind, "list");
  }

  /** 1 to 160 letters, digits and "_.:-". */
  predicate Plain(text: string) {
    && 1 <= |text| <= 160
    && forall c :: c in text ==> 'A' <= c <= 'Z' || 'a' <= c <= 'z' || '0' <= c <= '9' || c in {'_', '.', ':', '-'}
  }

  /** Saves and loads refuse exactly the keys that are not plain. */
  lemma PlainKeysTaken<V>(s: Shelf<V>, kind: string, id: string, value: V)
    ensures s.Load(kind, id) == Err(BadKey) <==> !Plain(kind) || !Plain(id)
    ensures s.Save(kind, id, value) == Err(BadKey) <==> !Plain(kind) || !Plain(id)
  {
    PlainIsSafe(kind);
    PlainIsSafe(id);
    hide SafePart, Plain, Shelf.Listed, Shelf.Relisted;
  }

  lemma PlainIsSafe(text: string)
    ensures Plain(text) <==> SafePart(text)
  {
    if SafePart(text) {
      forall c | c in text ensures SafeChar(c) { var i :| 0 <= i < |text| && text[i] == c; }
    }
    if Plain(text) {
      forall i | 0 <= i < |text| ensures SafeChar(text[i]) { assert text[i] in text; }
    }
  }

  // ------------------------------------------- what a save or delete leaves

  lemma RelistedLoads<V>(s: Shelf<V>, kind: string, ids: seq<string>, key: string)
    requires key != s.ListKey(kind)
    ensures var t := s.Relisted(kind, ids); t.ns == s.ns && t.trip == s.trip && t.LoadKey(key) == s.LoadKey(key)
  {
  }

  /** A record key is untouched by writes to other records and by all list writes. */
  lemma SaveLoads<V>(s: Shelf<V>, kind: string, id: string, value: V, kind': string, id': string)
    requires ColonFree(kind) && ColonFree(kind') && kind' != "list" && s.Save(kind, id, value).Ok?
    ensures var t := s.Save(kind, id, value).value;
            && t.ns == s.ns && t.trip == s.trip
            && t.Load(kind', id') ==
                 if kind == kind' && id == id'
                 then (if s.trip(value).Kept? then Ok(Some(s.trip(value).value)) else Err(Malformed))
                 else s.Load(kind', id')
  {
    hide Shelf.Relisted, Shelf.Listed, SafePart, ColonFree, PREFIX, SafeParts, Distinct, Newest;
    KeysDiffer(s, kind', id', kind, id);
    KeysDiffer(s, kind', id', kind, "");
    var cell := if s.trip(value).Kept? then Stored(s.trip(value).value) else Junk;
    var saved := s.(cells := s.cells[s.Key(kind, id) := cell]);
    RelistedLoads(saved, kind, saved.Listed(kind) + [id], s.Key(kind', id'));
  }

  lemma SaveLists<V>(s: Shelf<V>, kind: string, id: string, value: V, kind': string)
    requires ColonFree(kind) && kind != "list" && kind' != kind && s.Save(kind, id, value).Ok?
    ensures s.Save(kind, id, value).value.Listed(kind') == s.Listed(kind')
  {
    KeysDiffer(s, kind, id, kind, "");
    var head := PREFIX + ":" + s.ns + ":list:";
    assert s.ListKey(kind) == head + kind && s.ListKey(kind') == head + kind';
    AfterHead(head, kind, kind');
    assert s.Key(kind, id) != s.ListKey(kind') by { NotListKey(s, kind, id, kind'); }
  }

  lemma NotListKey<V>(s: Shelf<V>, kind: string, id: string, kind': string)
    requires ColonFree(kind) && kind != "list"
    ensures s.Key(kind, id) != s.ListKey(kind')
  {
    var head := PREFIX + ":" + s.ns + ":";
    assert s.Key(kind, id) == head + (kind + ":" + id);
    assert s.ListKey(kind') == head + ("list" + ":" + kind');
    AfterHead(head, kind + ":" + id, "list" + ":" + kind');
    assert ColonFree("list");
    ColonSplits(kind, id, "list", kind');
  }

  lemma DeleteLoads<V>(s: Shelf<V>, kind: string, id: string, kind': string, id': string)
    requires ColonFree(kind) && ColonFree(kind') && kind' != "list" && SafePart(kind') && SafePart(id')
    ensures var t := s.Delete(kind, id);
            && t.ns == s.ns && t.trip == s.trip
            && t.Load(kind', id') == if kind == kind' && id == id' then Ok(None) else s.Load(kind', id')
  {
    KeysDiffer(s, kind', id', kind, id);
    KeysDiffer(s, kind', id', kind, "");
  }

  predicate NoRepeat(ids: seq<string>) {
    forall i, j :: 0 <= i < j < |ids| ==> ids[i] != ids[j]
  }

  lemma {:induction false} DistinctNoRepeat(ids: seq<string>)
    ensures NoRepeat(Distinct(ids))
    ensures NoRepeat(ids) ==> Distinct(ids) == ids
  {
    if ids != [] {
      DistinctNoRepeat(ids[1..]);
      if NoRepeat(ids) {
        assert forall i :: 0 <= i < |ids| - 1 ==> ids[1..][i] == ids[i + 1];
      }
    }
  }

  lemma {:induction false} AllSafe(ids: seq<string>)
    requires forall i :: 0 <= i < |ids| ==> SafePart(ids[i])
    ensures SafeParts(ids) == ids
  {
    if ids != [] { AllSafe(ids[1..]); }
  }

  /** The index of a kind stays free of repeats and within its cap; a new id goes to
      the end and pushes out the oldest. */
  lemma SaveIndexes<V>(s: Shelf<V>, kind: string, id: string, value: V)
    requires ColonFree(kind) && kind != "list" && s.Save(kind, id, value).Ok?
    requires NoRepeat(s.Listed(kind))
    ensures var t := s.Save(kind, id, value).value;
            && NoRepeat(t.Listed(kind)) && id in t.Listed(kind)
            && t.Listed(kind) == if id in s.Listed(kind) then s.Listed(kind) else Newest(s.Listed(kind) + [id])
  {
    hide SafePart, Distinct, SafeParts, NoRepeat, Newest, ColonFree;
    KeysDiffer(s, kind, id, kind, "");
    if id !in s.Listed(kind) { NewestIndexed(s.Listed(kind), id); }
  }

  lemma {:induction false} WithoutAt(ids: seq<string>, i: nat)
    requires NoRepeat(ids) && i < |ids|
    ensures Without(ids, ids[i]) == ids[..i] + ids[i + 1..]
  {
    assert NoRepeat(ids[1..]);
    if i == 0 {
      WithoutNone(ids[1..], ids[0]);
    } else {
      WithoutAt(ids[1..], i - 1);
      assert ids[1..][..i - 1] == ids[..i][1..] && ids[1..][i..] == ids[i + 1..];
    }
  }

  lemma {:induction false} WithoutNone(ids: seq<string>, id: string)
    requires id !in ids
    ensures Without(ids, id) == ids
  {
    if ids != [] { WithoutNone(ids[1..], id); }
  }

  /** A deletion takes its own id off the index of its kind and leaves all others listed, in
      order; the indexes of other kinds are untouched. */
  lemma DeleteIndexes<V>(s: Shelf<V>, kind: string, id: string, kind': string)
    requires ColonFree(kind) && kind != "list" && NoRepeat(s.Listed(kind)) && |s.Listed(kind)| <= 1000
    ensures var listed, left := s.Listed(kind), s.Delete(kind, id).Listed(kind);
            && (id !in listed ==> left == listed)
            && (forall i :: 0 <= i < |listed| && listed[i] == id ==> left == listed[..i] + listed[i + 1..])
    ensures kind' != kind ==> s.Delete(kind, id).Listed(kind') == s.Listed(kind')
  {
    var listed := s.Listed(kind);
    DeleteLists(s, kind, id, kind');
    IndexWithout(listed, id);
    if id !in listed { WithoutNone(listed, id); }
    forall i | 0 <= i < |listed| && listed[i] == id ensures Without(listed, id) == listed[..i] + listed[i + 1..] {
      WithoutAt(listed, i);
    }
    hide SafeParts, Distinct, Without, NoRepeat, SafePart, Newest, Shelf.Listed, Shelf.Delete;
  }

  lemma IndexWithout(listed: seq<string>, id: string)
    requires NoRepeat(listed) && |listed| <= 1000 && forall x :: x in listed ==> SafePart(x)
    ensures SafeParts(Newest(Distinct(Without(listed, id)))) == Without(listed, id)
  {
    hide SafePart, Distinct, SafeParts, Without, NoRepeat;
    var rest := Without(listed, id);
    WithoutNoRepeat(listed, id);
    DistinctNoRepeat(rest);
    AllSafe(rest);
  }

  lemma WithoutNoRepeat(listed: seq<string>, id: string)
    requires NoRepeat(listed)
    ensures NoRepeat(Without(listed, id))
  {
    if i :| 0 <= i < |listed| && listed[i] == id {
      WithoutAt(listed, i);
    } else {
      WithoutNone(listed, id);
    }
    hide Without;
  }

  lemma DeleteLists<V>(s: Shelf<V>, kind: string, id: string, kind': string)
    requires ColonFree(kind) && kind != "list"
    ensures s.Delete(kind, id).Listed(kind) == SafeParts(Newest(Distinct(Without(s.Listed(kind), id))))
    ensures kind' != kind ==> s.Delete(kind, id).Listed(kind') == s.Listed(kind')
  {
    hide SafeParts, Distinct, Without, Newest;
    NotListKey(s, kind, id, kind);
    NotListKey(s, kind, id, kind');
    var head := PREFIX + ":" + s.ns + ":list:";
    assert s.ListKey(kind) == head + kind && s.ListKey(kind') == head + kind';
    AfterHead(head, kind, kind');
  }

  lemma AppendNoRepeat(listed: seq<string>, id: string)
    requires NoRepeat(listed) && id !in listed
    ensures NoRepeat(listed + [id])
  {
  }

  lemma NewestKeeps(ids: seq<string>)
    requires NoRepeat(ids) && ids != []
    ensures NoRepeat(Newest(ids)) && ids[|ids| - 1] in Newest(ids)
    ensures forall x :: x in Newest(ids) ==> x in ids
  {
  }

  lemma NewestIndexed(listed: seq<string>, id: string)
    requires NoRepeat(listed) && id !in listed && SafePart(id) && forall x :: x in listed ==> SafePart(x)
    ensures var r := Newest(listed + [id]);
            SafeParts(Newest(Distinct(listed + [id]))) == r && NoRepeat(r) && id in r
  {
    hide SafePart, Distinct, NoRepeat;
    var ids := listed + [id];
    AppendNoRepeat(listed, id);
    DistinctNoRepeat(ids);
    NewestKeeps(ids);
    AllSafe(Newest(ids));
  }

  // ------------------------------------------------------------ the class

  class BrowserSimplexStore<!V> {
    const ns: string
    const trip: V -> Trip<V>
    const scannable: bool                  // the backend offers key(i) and length
    var cells: map<string, Cell<V>>
    var keys: seq<string>                  // key(0), key(1), ...

    ghost predicate Valid()
      reads this
    {
      forall k :: k in keys <==> k in cells
    }

    function Contents(): Shelf<V>
      reads this
    {
      Shelf(ns, trip, cells)
    }

    constructor (ns: string, trip: V -> Trip<V>, scannable: bool)
      ensures Valid() && Contents() == Shelf(ns, trip, map[]) && this.scannable == scannable
    {
      this.ns, this.trip, this.scannable := ns, trip, scannable;
      cells, keys := map[], [];
    }

    method SetItem(key: string, cell: Cell<V>)
      requires Valid()
      modifies this
      ensures Valid() && cells == old(cells)[key := cell]
    {
      if key !in cells { keys := keys + [key]; }
      cells := cells[key := cell];
    }

    method RemoveItem(key: string)
      requires Valid()
      modifies this
      ensures Valid() && cells == old(cells) - {key}
    {
      keys, cells := Without(keys, key), cells - {key};
    }

    /** From the newest id back, until the cap is reached. */
    method WriteList(kind: string, ids: seq<string>)
      requires Valid()
      modifies this
      ensures Valid() && Contents() == old(Contents()).Relisted(kind, ids)
    {
      var clean: seq<string>, i := [], |ids|;
      assert ids[i..] == [];
      while i > 0 && |clean| < MAX_LIST_ITEMS
        invariant 0 <= i <= |ids|
        invariant clean == Newest(Distinct(ids[i..]))
      {
        i := i - 1;
        assert ids[i..][1..] == ids[i + 1..];
        if ids[i] !in clean { clean := [ids[i]] + clean; }
      }
      DistinctSuffix(ids, i);
      SetItem(Contents().ListKey(kind), Index(clean));
    }

    method Save(kind: string, id: string, value: V) returns (fault: Option<StoreFault>)
      requires Valid()
      modifies this
      ensures Valid()
      ensures var r := old(Contents()).Save(kind, id, value);
              if r.Ok? then fault == None && Contents() == r.value else fault == Some(r.error) && cells == old(cells)
    {
      if !SafePart(kind) || !SafePart(id) { return Some(BadKey); }
      var kept := trip(value);
      if kept.TooLarge? { return Some(TooBig); }
      SetItem(Contents().Key(kind, id), if kept.Kept? then Stored(kept.value) else Junk);
      var ids := Contents().Listed(kind);
      if id !in ids { WriteList(kind, ids + [id]); }
      return None;
    }

    method Load(kind: string, id: string) returns (r: Result<Option<V>, StoreFault>)
      ensures r == Contents().Load(kind, id)
    {
      return Contents().Load(kind, id);
    }

    method Delete(kind: string, id: string) returns (fault: Option<StoreFault>)
      requires Valid()
      modifies this
      ensures Valid()
      ensures if SafePart(kind) && SafePart(id) then fault == None && Contents() == old(Contents()).Delete(kind, id)
              else fault == Some(BadKey) && Contents() == old(Contents())
    {
      if !SafePart(kind) || !SafePart(id) { return Some(BadKey); }
      RemoveItem(Contents().Key(kind, id));
      WriteList(kind, Without(Contents().Listed(kind), id));
      return None;
    }

    /** Ids of every physical record of a kind, listed or not. */
    method ScanStorageIds(kind: string) returns (ids: seq<string>)
      requires Valid()
      ensures forall id :: id in ids <==> scannable && SafePart(id) && Contents().Key(kind, id) in cells
    {
      if !scannable { return []; }
      var prefix := Contents().Prefix(kind);
      ids := [];
      for i := 0 to |keys|
        invariant forall id :: id in ids <==> SafePart(id) && prefix + id in keys[..i]
      {
        assert keys[..i + 1] == keys[..i] + [keys[i]];
        if prefix <= keys[i] {
          var id := keys[i][|prefix|..];
          assert prefix + id == keys[i];
          assert forall x :: prefix + x == keys[i] ==> x == id by { OnlyRest(prefix, keys[i]); }
          if SafePart(id) { ids := ids + [id]; }
        } else {
          assert forall x :: prefix + x != keys[i] by { OnlyRest(prefix, keys[i]); }
        }
      }
      assert keys[..|keys|] == keys;
    }

    method UniqueIds(ids: seq<string>) returns (seen: seq<string>)
      ensures NoRepeat(seen) && forall id :: id in seen <==> id in ids
    {
      seen := [];
      for i := 0 to |ids|
        invariant NoRepeat(seen) && forall id :: id in seen <==> id in ids[..i]
      {
        assert ids[..i + 1] == ids[..i] + [ids[i]];
        if ids[i] !in seen { seen := seen + [ids[i]]; }
      }
      assert ids[..|ids|] == ids;
    }

    /** Deletes every record of a kind that the test picks or, if asked, that cannot be
        read; with a scannable backend also those the capped list no longer names. */
    method DeleteWhere(kind: string, test: V -> bool, deleteMalformed: bool)
      requires Valid() && SafePart(kind) && ColonFree(kind) && kind != "list"
      modifies this
      ensures Valid()
      ensures forall key :: key != Contents().ListKey(kind) ==>
                (key in cells <==> key in old(cells) && !Doomed(old(Contents()), scannable, kind, test, deleteMalformed, key))
                && (key in cells ==> cells[key] == old(cells)[key])
      ensures forall id :: id in Contents().Listed(kind) ==> id in old(Contents()).Listed(kind)
      ensures |old(Contents()).Listed(kind)| <= 1000 ==> forall id :: id in old(Contents()).Listed(kind) ==>
                (id in Contents().Listed(kind) <==> !Picked(old(Contents()), kind, test, deleteMalformed, id))
    {
      ghost var before := Contents();
      var scanned := ScanStorageIds(kind);
      var ids := UniqueIds(Contents().Listed(kind) + scanned);
      hide Doomed, Picked, Swept, SafePart, ColonFree, NoRepeat;
      forall i | 0 <= i < |ids| ensures SafePart(ids[i]) { assert ids[i] in ids; }
      SweepNothing(before, kind, test, deleteMalformed);
      for i := 0 to |ids|
        invariant Valid()
        invariant Swept(before, Contents(), kind, test, deleteMalformed, ids[..i])
      {
        SweepOne(before, Contents(), kind, test, deleteMalformed, ids, i);
        if Picked(Contents(), kind, test, deleteMalformed, ids[i]) { var _ := Delete(kind, ids[i]); }
      }
      assert ids[..|ids|] == ids;
      SweepDooms(before, Contents(), scannable, kind, test, deleteMalformed, ids);
    }
  }

  lemma OnlyRest(prefix: string, key: string)
    ensures forall x :: prefix + x == key ==> prefix <= key && x == key[|prefix|..]
  {
  }

  lemma {:induction false} DistinctSuffix(ids: seq<string>, i: nat)
    requires i <= |ids| && (i == 0 || |Distinct(ids[i..])| >= MAX_LIST_ITEMS)
    ensures Newest(Distinct(ids)) == Newest(Distinct(ids[i..]))
  {
    if i == 0 {
      assert ids[0..] == ids;
    } else {
      assert ids[i - 1..][1..] == ids[i..];
      DistinctSuffix(ids, i - 1);
    }
  }

  // ------------------------------------------------------------- sweeping

  predicate Condemned<V>(cell: Cell<V>, test: V -> bool, deleteMalformed: bool) {
    match cell
    case Stored(value) => test(value)
    case Index(_) => false
    case Junk => deleteMalformed
  }

  predicate Picked<V>(s: Shelf<V>, kind: string, test: V -> bool, deleteMalformed: bool, id: string) {
    s.Key(kind, id) in s.cells && Condemned(s.cells[s.Key(kind, id)], test, deleteMalformed)
  }

  /** What DeleteWhere deletes: condemned records with a safe id, all of them if the
      backend can be scanned, else the listed ones. */
  ghost predicate Doomed<V>(s: Shelf<V>, scannable: bool, kind: string, test: V -> bool, deleteMalformed: bool,
                            key: string)
  {
    exists id ::
      && key == s.Key(kind, id) && SafePart(id) && (scannable || id in s.Listed(kind))
      && Picked(s, kind, test, deleteMalformed, id)
  }

  /** The picked ids of a list are gone, the rest is as before. */
  ghost predicate Swept<V>(s: Shelf<V>, t: Shelf<V>, kind: string, test: V -> bool, deleteMalformed: bool,
                           ids: seq<string>)
  {
    && t.ns == s.ns && t.trip == s.trip
    && (forall id :: id in ids && Picked(s, kind, test, deleteMalformed, id) ==> s.Key(kind, id) !in t.cells)
    && (forall key :: key != s.ListKey(kind) ==>
          && (key in t.cells ==> key in s.cells && t.cells[key] == s.cells[key])
          && (key in s.cells && key !in t.cells ==>
                exists id :: id in ids && key == s.Key(kind, id) && Picked(s, kind, test, deleteMalformed, id)))
    && (forall id :: id in t.Listed(kind) ==> id in s.Listed(kind))
    && (|s.Listed(kind)| <= 1000 ==>
          && |t.Listed(kind)| <= 1000
          && forall id :: id in s.Listed(kind) ==>
               (id in t.Listed(kind) <==> !(id in ids && Picked(s, kind, test, deleteMalformed, id))))
  }

  lemma SweepNothing<V>(s: Shelf<V>, kind: string, test: V -> bool, deleteMalformed: bool)
    ensures Swept(s, s, kind, test, deleteMalformed, [])
  {
  }

  lemma SweepOne<V>(s: Shelf<V>, t: Shelf<V>, kind: string, test: V -> bool, deleteMalformed: bool, ids: seq<string>,
                    i: nat)
    requires ColonFree(kind) && kind != "list" && NoRepeat(ids) && i < |ids|
    requires Swept(s, t, kind, test, deleteMalformed, ids[..i])
    ensures Picked(t, kind, test, deleteMalformed, ids[i]) <==> Picked(s, kind, test, deleteMalformed, ids[i])
    ensures Swept(s, if Picked(t, kind, test, deleteMalformed, ids[i]) then t.Delete(kind, ids[i]) else t,
                  kind, test, deleteMalformed, ids[..i + 1])
  {
    hide Picked, Swept, NoRepeat, ColonFree, Shelf.Delete, Shelf.Key, Shelf.ListKey, Shelf.Listed;
    var id := ids[i];
    assert ids[..i + 1] == ids[..i] + [id];
    PickedSame(s, t, kind, test, deleteMalformed, ids, i);
    if Picked(t, kind, test, deleteMalformed, id) {
      DeleteCells(t, kind, id);
      SweptNs(s, t, kind, test, deleteMalformed, ids[..i]);
      SweptMore(s, t, t.Delete(kind, id), kind, test, deleteMalformed, ids[..i], id);
    } else {
      SweptSame(s, t, kind, test, deleteMalformed, ids[..i], id);
    }
  }

  lemma SweptNs<V>(s: Shelf<V>, t: Shelf<V>, kind: string, test: V -> bool, deleteMalformed: bool, ids: seq<string>)
    requires Swept(s, t, kind, test, deleteMalformed, ids)
    ensures t.ns == s.ns && t.trip == s.trip
    ensures forall k, id :: t.Key(k, id) == s.Key(k, id) && t.ListKey(k) == s.ListKey(k)
  {
  }

  lemma PickedSame<V>(s: Shelf<V>, t: Shelf<V>, kind: string, test: V -> bool, deleteMalformed: bool, ids: seq<string>,
                      i: nat)
    requires ColonFree(kind) && kind != "list" && NoRepeat(ids) && i < |ids|
    requires Swept(s, t, kind, test, deleteMalformed, ids[..i])
    ensures Picked(t, kind, test, deleteMalformed, ids[i]) <==> Picked(s, kind, test, deleteMalformed, ids[i])
  {
    var key := s.Key(kind, ids[i]);
    KeysDiffer(s, kind, ids[i], kind, "");
    forall x | x in ids[..i] ensures s.Key(kind, x) != key { KeysDiffer(s, kind, ids[i], kind, x); }
    assert key in s.cells ==> key in t.cells;
  }

  lemma SweptSame<V>(s: Shelf<V>, t: Shelf<V>, kind: string, test: V -> bool, deleteMalformed: bool, ids: seq<string>,
                     id: string)
    requires Swept(s, t, kind, test, deleteMalformed, ids) && !Picked(s, kind, test, deleteMalformed, id)
    ensures Swept(s, t, kind, test, deleteMalformed, ids + [id])
  {
    hide Picked, Shelf.Listed;
    forall key | key != s.ListKey(kind) && key in s.cells && key !in t.cells
      ensures exists x :: x in ids + [id] && key == s.Key(kind, x) && Picked(s, kind, test, deleteMalformed, x)
    {
      var x :| x in ids && key == s.Key(kind, x) && Picked(s, kind, test, deleteMalformed, x);
      assert x in ids + [id];
    }
  }

  lemma DeleteCells<V>(s: Shelf<V>, kind: string, id: string)
    requires ColonFree(kind) && kind != "list"
    ensures var t := s.Delete(kind, id);
            && t.ns == s.ns && t.trip == s.trip && s.Key(kind, id) !in t.cells
            && (forall key :: key != s.ListKey(kind) && key != s.Key(kind, id) ==>
                  (key in t.cells <==> key in s.cells) && (key in t.cells ==> t.cells[key] == s.cells[key]))
            && (forall x :: x in t.Listed(kind) ==> x in s.Listed(kind))
            && (|s.Listed(kind)| <= 1000 ==>
                  |t.Listed(kind)| <= 1000 && forall x :: x in s.Listed(kind) ==> (x in t.Listed(kind) <==> x != id))
  {
    KeysDiffer(s, kind, id, kind, "");
    DeleteLists(s, kind, id, kind);
  }

  lemma SweptMore<V>(s: Shelf<V>, t: Shelf<V>, u: Shelf<V>, kind: string, test: V -> bool, deleteMalformed: bool,
                     ids: seq<string>, id: string)
    requires Swept(s, t, kind, test, deleteMalformed, ids) && Picked(s, kind, test, deleteMalformed, id)
    requires u.ns == s.ns && u.trip == s.trip && s.Key(kind, id) !in u.cells && ColonFree(kind) && kind != "list"
    requires forall key :: key != s.ListKey(kind) && key != s.Key(kind, id) ==>
               (key in u.cells <==> key in t.cells) && (key in u.cells ==> u.cells[key] == t.cells[key])
    requires forall x :: x in u.Listed(kind) ==> x in t.Listed(kind)
    requires |t.Listed(kind)| <= 1000 ==>
               |u.Listed(kind)| <= 1000 && forall x :: x in t.Listed(kind) ==> (x in u.Listed(kind) <==> x != id)
    ensures Swept(s, u, kind, test, deleteMalformed, ids + [id])
  {
    hide Picked, Shelf.Listed;
    forall x ensures s.Key(kind, x) != s.ListKey(kind) { KeysDiffer(s, kind, x, kind, ""); }
    forall k | k != s.ListKey(kind) && k in s.cells && k !in u.cells
      ensures exists x :: x in ids + [id] && k == s.Key(kind, x) && Picked(s, kind, test, deleteMalformed, x)
    {
      if k == s.Key(kind, id) {
        assert id in ids + [id];
      } else {
        var x :| x in ids && k == s.Key(kind, x) && Picked(s, kind, test, deleteMalformed, x);
        assert x in ids + [id];
      }
    }
  }

  lemma SweepDooms<V>(s: Shelf<V>, t: Shelf<V>, scannable: bool, kind: string, test: V -> bool, deleteMalformed: bool,
                      ids: seq<string>)
    requires ColonFree(kind) && kind != "list" && Swept(s, t, kind, test, deleteMalformed, ids)
    requires forall id :: id in ids <==> id in s.Listed(kind) || (scannable && SafePart(id) && s.Key(kind, id) in s.cells)
    ensures forall key :: key != s.ListKey(kind) ==>
              (key in t.cells <==> key in s.cells && !Doomed(s, scannable, kind, test, deleteMalformed, key))
  {
  }

  /** The record of this id is one DeleteWhere deletes. */
  ghost predicate Goes<V>(s: Shelf<V>, scannable: bool, kind: string, test: V -> bool, deleteMalformed: bool,
                          id: string)
  {
    && SafePart(id) && (scannable || id in s.Listed(kind))
    && match s.Load(kind, id)
       case Ok(None) => false
       case Ok(Some(value)) => test(value)
       case Err(_) => deleteMalformed
  }

  ghost predicate SweptLoads<V>(s: Shelf<V>, t: Shelf<V>, scannable: bool, kind: string, test: V -> bool,
                                deleteMalformed: bool)
  {
    forall kind', id' :: ColonFree(kind') && kind' != "list" ==>
      t.Load(kind', id')
      == if kind' == kind && Goes(s, scannable, kind, test, deleteMalformed, id') then Ok(None) else s.Load(kind', id')
  }

  /** A sweep in terms of loads: the condemned records of its kind are gone, and no other
      record of any kind has changed. */
  lemma SweepLoads<V>(s: Shelf<V>, t: Shelf<V>, scannable: bool, kind: string, test: V -> bool, deleteMalformed: bool)
    requires t.ns == s.ns && t.trip == s.trip && SafePart(kind) && ColonFree(kind) && kind != "list"
    requires forall key :: key != s.ListKey(kind) ==>
               (key in t.cells <==> key in s.cells && !Doomed(s, scannable, kind, test, deleteMalformed, key))
               && (key in t.cells ==> t.cells[key] == s.cells[key])
    ensures SweptLoads(s, t, scannable, kind, test, deleteMalformed)
  {
    forall kind', id' | ColonFree(kind') && kind' != "list"
      ensures t.Load(kind', id')
      == if kind' == kind && Goes(s, scannable, kind, test, deleteMalformed, id') then Ok(None) else s.Load(kind', id')
    {
      KeysDiffer(s, kind', id', kind, "");
      DoomedIs(s, scannable, kind, test, deleteMalformed, kind', id');
      hide Doomed, Goes, SafePart, ColonFree, Shelf.Key, Shelf.ListKey;
    }
  }

  lemma DoomedIs<V>(s: Shelf<V>, scannable: bool, kind: string, test: V -> bool, deleteMalformed: bool, kind': string,
                    id': string)
    requires ColonFree(kind) && ColonFree(kind') && SafePart(kind)
    ensures Doomed(s, scannable, kind, test, deleteMalformed, s.Key(kind', id'))
            <==> kind' == kind && Goes(s, scannable, kind, test, deleteMalformed, id')
  {
    hide Shelf.Listed, Shelf.ListKey, SafeParts;
    forall id ensures s.Key(kind', id') == s.Key(kind, id) <==> kind' == kind && id' == id {
      KeysDiffer(s, kind', id', kind, id);
    }
    hide Shelf.Key, SafePart, ColonFree;
  }
}
