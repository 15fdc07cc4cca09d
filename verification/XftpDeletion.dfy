/** Deletion of an uploaded file by its sender description
    (src/browser-xftp-web-client.mjs). */
module XftpDeletion {
  import opened Outcomes
  import opened Bytes
  import opened XftpPlan
  import opened XftpDescription
  import opened XftpTransfer

  /** What sortUploadedXftpWebDeleteChunks lets through; a missing party will do. */
  predicate Deletable(party: Option<Party>, chunks: seq<Chunk>) {
    && party != Some(Recipient) && chunks != []
    && forall i :: 0 <= i < |chunks| ==> 1 <= chunks[i].chunkNo <= MAX_WORD32 && IdsOk(chunks[i])
  }

  predicate IdsOk(c: Chunk) {
    forall j :: 0 <= j < |c.replicas| ==> 1 <= |c.replicas[j].replicaId| <= 255
  }

  /** What is refused before any FDEL is sent. */
  lemma RefusedExactly(party: Option<Party>, chunks: seq<Chunk>)
    ensures !Deletable(party, chunks) <==>
              || party == Some(Recipient) || chunks == []
              || (exists i :: 0 <= i < |chunks| && (chunks[i].chunkNo == 0 || chunks[i].chunkNo > 4294967295))
              || (exists i, r :: 0 <= i < |chunks| && r in chunks[i].replicas && (r.replicaId == [] || |r.replicaId| > 255))
  {
    if i :| 0 <= i < |chunks| && !IdsOk(chunks[i]) {
      var j :| 0 <= j < |chunks[i].replicas| && !(1 <= |chunks[i].replicas[j].replicaId| <= 255);
      assert chunks[i].replicas[j] in chunks[i].replicas;
    }
  }

  /** The file and the key an FDEL for this chunk names, if its first replica is on this server. */
  function Target(c: Chunk, address: string): Option<(bytes, bytes)> {
    if c.replicas == [] || c.replicas[0].server != address then None
    else match SeedOf(c.replicas[0].replicaKey)
         case None => None
         case Some(seed) => Some((c.replicas[0].replicaId, seed))
  }

  /** Whether a deletion got through, what it leaves, and how many FDELs it sent. */
  datatype Deletion = Deletion(ok: bool, files: map<bytes, Stored>, sent: nat)

  /** One chunk after the other, until one fails. */
  function Deleting(s: Setting, clock: nat, files: map<bytes, Stored>, chunks: seq<Chunk>): Deletion
    decreases |chunks|
  {
    if chunks == [] then Deletion(true, files, 0)
    else
      match Target(chunks[0], s.address)
      case None => Deletion(false, files, 0)
      case Some((id, seed)) =>
        var there := id in files && files[id].sndSeed == seed;
        var left := if there && s.delFate(clock) != Refused then files - {id} else files;
        if !there || s.delFate(clock) != Served then Deletion(false, left, 1)
        else
          var rest := Deleting(s, clock + 1, left, chunks[1..]);
          rest.(sent := rest.sent + 1)
  }

  function FirstId(c: Chunk): bytes {
    if c.replicas == [] then [] else c.replicas[0].replicaId
  }

  /** The first replica of the chunk is on this server, there, named with the key that deletes
      it, and the server answers. */
  predicate Erases(s: Setting, clock: nat, files: map<bytes, Stored>, c: Chunk) {
    && c.replicas != [] && c.replicas[0].server == s.address && FirstId(c) in files
    && SeedOf(c.replicas[0].replicaKey) == Some(files[FirstId(c)].sndSeed) && s.delFate(clock) == Served
  }

  /** Every chunk erases a file of its own. */
  ghost predicate EachErases(s: Setting, clock: nat, files: map<bytes, Stored>, chunks: seq<Chunk>) {
    && (forall k :: 0 <= k < |chunks| ==> Erases(s, clock + k, files, chunks[k]))
    && (forall j, k :: 0 <= j < k < |chunks| ==> FirstId(chunks[j]) != FirstId(chunks[k]))
  }

  lemma ErasesLess(s: Setting, clock: nat, files: map<bytes, Stored>, id: bytes, c: Chunk)
    ensures Erases(s, clock, files - {id}, c) <==> Erases(s, clock, files, c) && FirstId(c) != id
  {
  }

  lemma EachErasesFirst(s: Setting, clock: nat, files: map<bytes, Stored>, chunks: seq<Chunk>)
    requires chunks != []
    ensures EachErases(s, clock, files, chunks) <==>
              && Erases(s, clock, files, chunks[0])
              && EachErases(s, clock + 1, files - {FirstId(chunks[0])}, chunks[1..])
  {
    var id, rest := FirstId(chunks[0]), chunks[1..];
    assert forall k :: 0 < k < |chunks| ==> chunks[k] == rest[k - 1];
    forall k | 0 <= k < |rest|
      ensures Erases(s, clock + 1 + k, files - {id}, rest[k])
              <==> Erases(s, clock + (k + 1), files, chunks[k + 1]) && FirstId(chunks[k + 1]) != id
    {
      ErasesLess(s, clock + 1 + k, files, id, rest[k]);
    }
    hide Erases, FirstId;
    assert clock + 0 == clock;
  }

  lemma DeletingFirst(s: Setting, clock: nat, files: map<bytes, Stored>, chunks: seq<Chunk>)
    requires chunks != []
    ensures var d, rest := Deleting(s, clock, files, chunks),
                           Deleting(s, clock + 1, files - {FirstId(chunks[0])}, chunks[1..]);
            if Erases(s, clock, files, chunks[0]) then d == Deletion(rest.ok, rest.files, rest.sent + 1) else !d.ok
  {
    hide SeedOf;
  }

  function FirstIds(chunks: seq<Chunk>): set<bytes> {
    set c | c in chunks :: FirstId(c)
  }

  /** A deletion gets through if and only if every chunk names a file of its own that its FDEL
      erases; then these files are gone and no others. */
  lemma {:induction false} DeletesExactly(s: Setting, clock: nat, files: map<bytes, Stored>, chunks: seq<Chunk>)
    ensures Deleting(s, clock, files, chunks).ok <==> EachErases(s, clock, files, chunks)
    ensures Deleting(s, clock, files, chunks).ok ==>
              && Deleting(s, clock, files, chunks).files == files - FirstIds(chunks)
              && Deleting(s, clock, files, chunks).sent == |chunks|
    decreases |chunks|
  {
    if chunks != [] {
      EachErasesFirst(s, clock, files, chunks);
      DeletingFirst(s, clock, files, chunks);
      DeletesExactly(s, clock + 1, files - {FirstId(chunks[0])}, chunks[1..]);
      hide Deleting, EachErases, Erases, FirstId;
      assert FirstIds(chunks) == {FirstId(chunks[0])} + FirstIds(chunks[1..]) by {
        assert forall c :: c in chunks <==> c == chunks[0] || c in chunks[1..];
      }
    }
  }

  method DeleteUploadedXftpWebFile(server: XftpServer, party: Option<Party>, chunks: seq<Chunk>) returns (ok: bool)
    requires server.Valid()
    modifies server
    ensures server.Valid() && server.routes == old(server.routes) && server.returned == old(server.returned)
    ensures if !Deletable(party, chunks)
            then !ok && server.clock == old(server.clock) && server.files == old(server.files)
            else var r := Deleting(server.s, old(server.clock), old(server.files), ByNumber(chunks));
                 ok == r.ok && server.files == r.files && server.clock == old(server.clock) + r.sent
  {
    if party == Some(Recipient) || chunks == [] { return false; }
    for i := 0 to |chunks|
      invariant forall k :: 0 <= k < i ==> 1 <= chunks[k].chunkNo <= MAX_WORD32 && IdsOk(chunks[k])
    {
      if chunks[i].chunkNo < 1 || chunks[i].chunkNo > MAX_WORD32 || !IdsOk(chunks[i]) { return false; }
    }
    hide Deleting, ByNumber;
    ok := DeleteChunks(server, ByNumber(chunks));
  }

  /** The chunk loop of deleteUploadedXftpWebFile. */
  method DeleteChunks(server: XftpServer, chunks: seq<Chunk>) returns (ok: bool)
    requires server.Valid()
    modifies server
    ensures server.Valid() && server.routes == old(server.routes) && server.returned == old(server.returned)
    ensures var r := Deleting(server.s, old(server.clock), old(server.files), chunks);
            ok == r.ok && server.files == r.files && server.clock == old(server.clock) + r.sent
  {
    hide Target, SeedOf, XftpServer.Valid;
    ghost var all := Deleting(server.s, server.clock, server.files, chunks);
    var i := 0;
    assert chunks[0..] == chunks;
    while i < |chunks|
      invariant 0 <= i <= |chunks| && server.Valid() && server.clock == old(server.clock) + i
      invariant server.routes == old(server.routes) && server.returned == old(server.returned)
      invariant var rest := Deleting(server.s, server.clock, server.files, chunks[i..]);
                all.ok == rest.ok && all.files == rest.files && all.sent == rest.sent + i
    {
      assert chunks[i..][0] == chunks[i] && chunks[i..][1..] == chunks[i + 1..];
      ok := DeleteChunk(server, chunks[i]);
      if !ok { return; }
      i := i + 1;
    }
    return true;
  }

  method DeleteChunk(server: XftpServer, c: Chunk) returns (ok: bool)
    requires server.Valid()
    modifies server
    ensures server.Valid() && server.routes == old(server.routes) && server.returned == old(server.returned)
    ensures match Target(c, server.s.address)
            case None => !ok && server.clock == old(server.clock) && server.files == old(server.files)
            case Some((id, seed)) =>
              var there := id in old(server.files) && old(server.files)[id].sndSeed == seed;
              && server.clock == old(server.clock) + 1
              && (ok <==> there && server.s.delFate(old(server.clock)) == Served)
              && server.files == if there && server.s.delFate(old(server.clock)) != Refused
                                 then old(server.files) - {id} else old(server.files)
  {
    if c.replicas == [] { return false; }
    ok := DeleteUploaded(server, c);
  }

  function IdsOf(chunks: seq<Chunk>, n: nat): set<bytes>
    requires n <= |chunks|
  {
    set i | 0 <= i < n :: SidOf(chunks[i])
  }

  /** Each chunk names a file of its own, with its key. */
  ghost predicate NamesFiles(chunks: seq<Chunk>, files: map<bytes, Stored>, address: string) {
    && (forall i :: 0 <= i < |chunks| ==> NamesFile(chunks[i], files, address))
    && (forall i, j :: 0 <= i < j < |chunks| ==> SidOf(chunks[i]) != SidOf(chunks[j]))
  }

  ghost predicate NamesFile(c: Chunk, files: map<bytes, Stored>, address: string) {
    && Target(c, address).Some? && Target(c, address).value.0 == SidOf(c)
    && SidOf(c) in files && files[SidOf(c)].sndSeed == Target(c, address).value.1
  }

  lemma NamesRest(chunks: seq<Chunk>, files: map<bytes, Stored>, address: string)
    requires chunks != [] && NamesFiles(chunks, files, address)
    ensures NamesFile(chunks[0], files, address)
    ensures NamesFiles(chunks[1..], files - {SidOf(chunks[0])}, address)
  {
    hide Target;
    forall i | 0 <= i < |chunks| - 1 ensures NamesFile(chunks[1..][i], files - {SidOf(chunks[0])}, address) {
      assert NamesFile(chunks[i + 1], files, address);
    }
  }

  lemma IdsAfter(chunks: seq<Chunk>, n: nat)
    requires 0 < n <= |chunks|
    ensures IdsOf(chunks, n) == {SidOf(chunks[0])} + IdsOf(chunks[1..], n - 1)
  {
    assert forall i :: 1 <= i < n ==> chunks[i] == chunks[1..][i - 1];
  }

  /** How many FDELs from this time on are served in a row, of these many. */
  function ServedInRow(s: Setting, clock: nat, most: nat): (n: nat)
    ensures n <= most && (forall k :: clock <= k < clock + n ==> s.delFate(k) == Served)
    ensures n < most ==> s.delFate(clock + n) != Served
    decreases most
  {
    if most == 0 || s.delFate(clock) != Served then 0 else 1 + ServedInRow(s, clock + 1, most - 1)
  }

  lemma DeletesFirst(s: Setting, clock: nat, files: map<bytes, Stored>, chunks: seq<Chunk>)
    requires chunks != [] && NamesFile(chunks[0], files, s.address)
    ensures var r, left := Deleting(s, clock, files, chunks), files - {SidOf(chunks[0])};
            match s.delFate(clock)
            case Served => var rest := Deleting(s, clock + 1, left, chunks[1..]); r == Deletion(rest.ok, rest.files, rest.sent + 1)
            case Refused => r == Deletion(false, files, 1)
            case ReplyLost => r == Deletion(false, left, 1)
  {
    hide SeedOf;
  }

  /** The files left after the first `n` of these served deletions, and one whose reply was lost. */
  function Gone(s: Setting, clock: nat, chunks: seq<Chunk>): set<bytes> {
    var n := ServedInRow(s, clock, |chunks|);
    IdsOf(chunks, if n < |chunks| && s.delFate(clock + n) == ReplyLost then n + 1 else n)
  }

  lemma GoneFirst(s: Setting, clock: nat, chunks: seq<Chunk>)
    requires chunks != []
    ensures Gone(s, clock, chunks) == match s.delFate(clock)
                                      case Served => {SidOf(chunks[0])} + Gone(s, clock + 1, chunks[1..])
                                      case Refused => {}
                                      case ReplyLost => {SidOf(chunks[0])}
  {
    var n := ServedInRow(s, clock, |chunks|);
    match s.delFate(clock)
    case Served =>
      IdsAfter(chunks, n);
      if n < |chunks| { IdsAfter(chunks, n + 1); }
      hide IdsOf;
    case Refused =>
    case ReplyLost =>
  }

  lemma {:induction false} DeletesInTurn(s: Setting, clock: nat, files: map<bytes, Stored>, chunks: seq<Chunk>)
    requires NamesFiles(chunks, files, s.address)
    ensures var r, n := Deleting(s, clock, files, chunks), ServedInRow(s, clock, |chunks|);
            && (r.ok <==> n == |chunks|) && r.sent == (if n == |chunks| then n else n + 1)
            && r.files == files - Gone(s, clock, chunks)
    decreases |chunks|
  {
    hide *;
    if chunks == [] {
      DeletesNone(s, clock, files);
    } else {
      var id := SidOf(chunks[0]);
      NamesRest(chunks, files, s.address);
      DeletesFirst(s, clock, files, chunks);
      GoneFirst(s, clock, chunks);
      RowFirst(s, clock, |chunks|);
      if s.delFate(clock) == Served {
        DeletesInTurn(s, clock + 1, files - {id}, chunks[1..]);
        TakeTwice(files, {id}, Gone(s, clock + 1, chunks[1..]));
      }
    }
  }

  lemma DeletesNone(s: Setting, clock: nat, files: map<bytes, Stored>)
    ensures Deleting(s, clock, files, []) == Deletion(true, files, 0) && ServedInRow(s, clock, 0) == 0
    ensures files - Gone(s, clock, []) == files
  {
  }

  lemma RowFirst(s: Setting, clock: nat, most: nat)
    requires most > 0
    ensures ServedInRow(s, clock, most)
            == if s.delFate(clock) == Served then 1 + ServedInRow(s, clock + 1, most - 1) else 0
  {
  }

  lemma TakeTwice(files: map<bytes, Stored>, a: set<bytes>, b: set<bytes>)
    ensures files - a - b == files - (a + b)
  {
  }

  lemma SentNames(files: map<bytes, Stored>, before: map<bytes, Stored>, d: Description, recipient: Description,
                  address: string, seeds: Seeds)
    requires seeds.Valid() && SenderDescribes(files, before, d, recipient, address, seeds)
    ensures NamesFiles(d.chunks, files, address)
    ensures forall i :: 0 <= i < |d.chunks| ==> IdsOk(d.chunks[i])
    ensures files - IdsOf(d.chunks, |d.chunks|) == before
  {
    forall i | 0 <= i < |d.chunks| ensures NamesFile(d.chunks[i], files, address) && IdsOk(d.chunks[i]) {
      assert HoldsSent(files, d.chunks[i], address, seeds, i);
      SeedOfInverts(seeds.sender(i));
    }
    assert IdsOf(d.chunks, |d.chunks|) == Sids(d.chunks);
    forall x | x in before ensures x !in Sids(d.chunks) {
    }
  }

  lemma SentInOrder(d: Description, recipient: Description, total: nat)
    requires OwnReplicas(d.chunks, recipient.chunks) && Tiles(Specs(recipient.chunks), total)
    ensures forall i :: 0 <= i < |d.chunks| ==> d.chunks[i].chunkNo == i + 1
    ensures ByNumber(d.chunks) == d.chunks
  {
    forall i | 0 <= i < |d.chunks| ensures d.chunks[i].chunkNo == i + 1 {
      assert Specs(recipient.chunks)[i].chunkNo == i + 1;
    }
    NumberedIsSorted(d.chunks);
  }

  lemma RowExactly(s: Setting, clock: nat, most: nat)
    ensures ServedInRow(s, clock, most) == most <==> forall k :: clock <= k < clock + most ==> s.delFate(k) == Served
  {
    var n := ServedInRow(s, clock, most);
    if n < most { assert s.delFate(clock + n) != Served; }
    hide ServedInRow;
  }

  lemma SentDeletable(d: Description)
    requires d.party == Sender && 1 <= |d.chunks| <= MAX_WORD32
    requires forall i :: 0 <= i < |d.chunks| ==> d.chunks[i].chunkNo == i + 1
    requires forall i :: 0 <= i < |d.chunks| ==> IdsOk(d.chunks[i])
    ensures Deletable(Some(d.party), d.chunks)
  {
    hide IdsOk;
  }

  /** Deleting by the sender description of an upload is let through, and undoes the upload if
      and only if every FDEL is served.  Else it stops at the first that is not: the files of
      the chunks before that one are gone, its own too if only the reply was lost, and no
      other file has changed. */
  lemma DeleteUndoesUpload(s: Setting, clock: nat, files: map<bytes, Stored>, before: map<bytes, Stored>,
                           d: Description, recipient: Description, total: nat, seeds: Seeds)
    requires seeds.Valid() && SenderDescribes(files, before, d, recipient, s.address, seeds)
    requires Tiles(Specs(recipient.chunks), total) && 1 <= |d.chunks| <= MAX_WORD32
    ensures Deletable(Some(d.party), d.chunks)
    ensures var r, n := Deleting(s, clock, files, ByNumber(d.chunks)), ServedInRow(s, clock, |d.chunks|);
            && (r.ok <==> forall k :: clock <= k < clock + |d.chunks| ==> s.delFate(k) == Served)
            && (r.ok ==> r.files == before && r.sent == |d.chunks|)
            && (!r.ok ==> n < |d.chunks| && r.sent == n + 1 && r.files == files - Gone(s, clock, d.chunks))
  {
    SentNames(files, before, d, recipient, s.address, seeds);
    SentInOrder(d, recipient, total);
    SentDeletable(d);
    hide *;
    DeletesInTurn(s, clock, files, d.chunks);
    RowExactly(s, clock, |d.chunks|);
    GoneAll(s, clock, d.chunks);
  }

  lemma GoneAll(s: Setting, clock: nat, chunks: seq<Chunk>)
    ensures ServedInRow(s, clock, |chunks|) == |chunks| ==> Gone(s, clock, chunks) == IdsOf(chunks, |chunks|)
  {
    hide ServedInRow, IdsOf;
  }
}
