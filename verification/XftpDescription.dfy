/** File descriptions: what is accepted, and that accepted chunks cut the file into
    pieces that neither overlap nor leave a gap (src/browser-xftp-web-client.mjs). */
module XftpDescription {
  import opened Outcomes
  import opened Bytes
  import opened XftpPlan
  import opened XftpEnvelope

  const MAX_CHUNKS: nat := 4096
  const MAX_REPLICAS: nat := 16
  const MAX_WORD32: nat := 0xffff_ffff
  const SEED_PREFIX: bytes :=
    [0x30, 0x2e, 0x02, 0x01, 0x00, 0x30, 0x05, 0x06, 0x03, 0x2b, 0x65, 0x70, 0x04, 0x22, 0x04, 0x20]

  datatype Party = Recipient | Sender

  datatype Replica = Replica(server: string, replicaId: bytes, replicaKey: bytes)

  datatype Chunk = Chunk(chunkNo: nat, offset: nat, chunkSize: nat, digest: bytes, replicas: seq<Replica>)

  datatype Description = Description(
    party: Party, size: nat, digest: bytes, key: bytes, nonce: bytes, chunkSize: nat,
    fileName: string, fileExtra: Option<string>, chunks: seq<Chunk>)

  /** A private key is stored behind its fixed DER prefix; bare seeds are read too. */
  function KeyDer(seed: bytes): bytes {
    SEED_PREFIX + seed
  }

  function SeedOf(key: bytes): Option<bytes> {
    if |key| == 32 then Some(key)
    else if |key| != 48 || key[..16] != SEED_PREFIX then None
    else Some(key[16..])
  }

  lemma SeedOfInverts(seed: bytes)
    requires |seed| == 32
    ensures SeedOf(KeyDer(seed)) == Some(seed)
  {
  }

  /** A seed as it is, or behind the 16 bytes of the PKCS #8 form of an Ed25519 key. */
  lemma SeedOfExactly(key: bytes, seed: bytes)
    ensures SeedOf(key) == Some(seed) <==>
              && |seed| == 32
              && (key == seed
                  || key == [0x30, 0x2e, 0x02, 0x01, 0x00, 0x30, 0x05, 0x06, 0x03, 0x2b, 0x65, 0x70, 0x04, 0x22, 0x04, 0x20] + seed)
  {
    if |key| == 48 { assert key == key[..16] + key[16..]; }
  }

  function Insert(c: Chunk, sorted: seq<Chunk>): seq<Chunk> {
    if sorted == [] || c.chunkNo < sorted[0].chunkNo then [c] + sorted
    else [sorted[0]] + Insert(c, sorted[1..])
  }

  /** Chunks by number, equal numbers in their given order. */
  function ByNumber(chunks: seq<Chunk>): seq<Chunk> {
    if chunks == [] then [] else Insert(chunks[|chunks| - 1], ByNumber(chunks[..|chunks| - 1]))
  }

  function Specs(chunks: seq<Chunk>): seq<ChunkSpec> {
    seq(|chunks|, i requires 0 <= i < |chunks| => ChunkSpec(chunks[i].chunkNo, chunks[i].offset, chunks[i].chunkSize))
  }

  predicate PlanOk(chunks: seq<Chunk>, size: nat) {
    Tiles(Specs(ByNumber(chunks)), size)
  }

  method ValidateChunkPlan(chunks: seq<Chunk>, size: nat) returns (ok: bool)
    ensures ok <==> PlanOk(chunks, size)
  {
    var expectedOffset: nat, sorted := 0, ByNumber(chunks);
    ghost var specs := Specs(sorted);
    for index := 0 to |sorted|
      invariant Tiles(specs[..index], expectedOffset)
    {
      if sorted[index].chunkNo != index + 1 {
        assert specs[index].chunkNo != index + 1;
        return false;
      }
      if sorted[index].offset != expectedOffset {
        assert index > 0 ==> specs[..index][index - 1] == specs[index - 1];
        return false;
      }
      expectedOffset := expectedOffset + sorted[index].chunkSize;
      assert specs[..index + 1] == specs[..index] + [specs[index]];
    }
    assert specs[..|sorted|] == specs;
    return expectedOffset == size;
  }

  predicate ReplicaOk(addressOk: string -> bool, r: Replica) {
    addressOk(r.server) && 1 <= |r.replicaId| <= 255 && (|r.replicaKey| == 32 || |r.replicaKey| == 48)
  }

  predicate ChunkOk(addressOk: string -> bool, c: Chunk) {
    && 1 <= |c.replicas| <= MAX_REPLICAS
    && 1 <= c.chunkNo <= MAX_WORD32 && c.offset <= MAX_SAFE && 1 <= c.chunkSize <= MAX_WORD32
    && |c.digest| == 32
    && forall i :: 0 <= i < |c.replicas| ==> ReplicaOk(addressOk, c.replicas[i])
  }

  /** normalizeXftpWebDescription: a chunkSize of 0 stands for an absent one. */
  function Normalize(u: Utf8, addressOk: string -> bool, d: Description): Option<Description> {
    if d.chunks == [] || |d.chunks| > MAX_CHUNKS || d.size > MAX_SAFE then None
    else
      var chunkSize := if d.chunkSize == 0 then d.chunks[0].chunkSize else d.chunkSize;
      var name := SafeName(u, d.fileName);
      if !(1 <= chunkSize <= MAX_WORD32) || name.Err? then None
      else if |d.digest| != 64 || |d.key| != 32 || |d.nonce| != 24 then None
      else if exists i :: 0 <= i < |d.chunks| && !ChunkOk(addressOk, d.chunks[i]) then None
      else if !PlanOk(d.chunks, d.size) then None
      else Some(d.(chunkSize := chunkSize, fileName := name.value))
  }

  /** What a replica and a chunk of an accepted description look like. */
  predicate GoodReplica(addressOk: string -> bool, r: Replica) {
    addressOk(r.server) && r.replicaId != [] && |r.replicaId| < 256 && |r.replicaKey| in {32, 48}
  }

  predicate GoodChunk(addressOk: string -> bool, c: Chunk) {
    && c.replicas != [] && |c.replicas| <= 16 && (forall r :: r in c.replicas ==> GoodReplica(addressOk, r))
    && 0 < c.chunkNo <= 4294967295 && 0 < c.chunkSize <= 4294967295 && c.offset <= 9007199254740991 && |c.digest| == 32
  }

  lemma GoodChunkIsOk(addressOk: string -> bool, c: Chunk)
    ensures GoodChunk(addressOk, c) <==> ChunkOk(addressOk, c)
  {
    if ChunkOk(addressOk, c) {
      forall r | r in c.replicas ensures GoodReplica(addressOk, r) {
        var i :| 0 <= i < |c.replicas| && c.replicas[i] == r;
        assert ReplicaOk(addressOk, c.replicas[i]);
      }
    }
    if GoodChunk(addressOk, c) {
      forall i | 0 <= i < |c.replicas| ensures ReplicaOk(addressOk, c.replicas[i]) {
        assert c.replicas[i] in c.replicas;
      }
    }
  }

  /** A description is accepted if and only if it has 1 to 4096 good chunks that make a plan of
      its size, a good name, a digest, key and nonce of 64, 32 and 24 bytes, and a chunk size
      of 32 bits; nothing but the name and an absent chunk size is changed. */
  lemma AcceptedExactly(u: Utf8, addressOk: string -> bool, d: Description)
    ensures Normalize(u, addressOk, d).Some? <==>
              && 1 <= |d.chunks| <= 4096 && (forall c :: c in d.chunks ==> GoodChunk(addressOk, c))
              && PlanOk(d.chunks, d.size) && d.size <= 9007199254740991 && d.chunkSize <= 4294967295
              && GoodName(u, d.fileName) && |d.digest| == 64 && |d.key| == 32 && |d.nonce| == 24
    ensures Normalize(u, addressOk, d).Some? ==>
              Normalize(u, addressOk, d).value
              == d.(fileName := if d.fileName == "" then "file" else d.fileName,
                    chunkSize := if d.chunkSize == 0 then d.chunks[0].chunkSize else d.chunkSize)
  {
    NameExactly(u, d.fileName);
    forall c ensures GoodChunk(addressOk, c) <==> ChunkOk(addressOk, c) { GoodChunkIsOk(addressOk, c); }
    hide SafeName, GoodName, ChunkOk, PlanOk;
    if d.chunks != [] { assert d.chunks[0] in d.chunks; }
    assert forall i :: 0 <= i < |d.chunks| ==> d.chunks[i] in d.chunks;
  }

  /** Accepted as it stands. */
  lemma NormalAlready(u: Utf8, addressOk: string -> bool, d: Description)
    requires d.chunks != [] && |d.chunks| <= MAX_CHUNKS && d.size <= MAX_SAFE && 1 <= d.chunkSize <= MAX_WORD32
    requires SafeName(u, d.fileName) == Ok(d.fileName) && |d.digest| == 64 && |d.key| == 32 && |d.nonce| == 24
    requires PlanOk(d.chunks, d.size) && forall i :: 0 <= i < |d.chunks| ==> ChunkOk(addressOk, d.chunks[i])
    ensures Normalize(u, addressOk, d) == Some(d)
  {
    hide SafeName, PlanOk, ChunkOk;
  }

  // ------------------------------------------------------- tiling

  predicate CoversByte(c: Chunk, p: nat) {
    c.offset <= p < c.offset + c.chunkSize
  }

  /** How many chunks contain byte p of the file. */
  function CoverCount(chunks: seq<Chunk>, p: nat): nat {
    if chunks == [] then 0
    else CoverCount(chunks[..|chunks| - 1], p) + (if CoversByte(chunks[|chunks| - 1], p) then 1 else 0)
  }

  lemma {:induction false} CoverCountConcat(a: seq<Chunk>, b: seq<Chunk>, p: nat)
    ensures CoverCount(a + b, p) == CoverCount(a, p) + CoverCount(b, p)
  {
    if b == [] {
      assert a + b == a;
    } else {
      assert (a + b)[..|a + b| - 1] == a + b[..|b| - 1];
      CoverCountConcat(a, b[..|b| - 1], p);
    }
  }

  lemma {:induction false} CoverCountInsert(c: Chunk, sorted: seq<Chunk>, p: nat)
    ensures CoverCount(Insert(c, sorted), p) == CoverCount(sorted, p) + CoverCount([c], p)
  {
    if sorted == [] || c.chunkNo < sorted[0].chunkNo {
      CoverCountConcat([c], sorted, p);
    } else {
      CoverCountInsert(c, sorted[1..], p);
      CoverCountConcat([sorted[0]], Insert(c, sorted[1..]), p);
      CoverCountConcat([sorted[0]], sorted[1..], p);
      assert sorted == [sorted[0]] + sorted[1..];
    }
  }

  lemma {:induction false} CoverCountSorted(chunks: seq<Chunk>, p: nat)
    ensures CoverCount(ByNumber(chunks), p) == CoverCount(chunks, p)
  {
    if chunks != [] {
      var last := chunks[|chunks| - 1];
      CoverCountInsert(last, ByNumber(chunks[..|chunks| - 1]), p);
      CoverCountSorted(chunks[..|chunks| - 1], p);
      assert [last][..0] == [];
    }
  }

  lemma {:induction false} CoverCountTiles(chunks: seq<Chunk>, total: nat, p: nat)
    requires Tiles(Specs(chunks), total)
    ensures CoverCount(chunks, p) == if p < total then 1 else 0
  {
    if chunks != [] {
      var front, last := chunks[..|chunks| - 1], chunks[|chunks| - 1];
      assert Specs(front) == Specs(chunks)[..|front|];
      assert Specs(chunks)[|front|] == ChunkSpec(last.chunkNo, last.offset, last.chunkSize);
      assert Tiles(Specs(front), last.offset);
      CoverCountTiles(front, last.offset, p);
    }
  }

  /** In every accepted description each byte of the file lies in exactly one chunk, and
      no chunk reaches past the end. */
  lemma AcceptedTiles(u: Utf8, addressOk: string -> bool, d: Description, p: nat)
    requires Normalize(u, addressOk, d).Some?
    ensures CoverCount(d.chunks, p) == if p < d.size then 1 else 0
  {
    CoverCountSorted(d.chunks, p);
    CoverCountTiles(ByNumber(d.chunks), d.size, p);
  }

  /** A list already numbered 1, 2, ... is left alone by sorting. */
  lemma {:induction false} InsertLast(c: Chunk, sorted: seq<Chunk>)
    requires forall i :: 0 <= i < |sorted| ==> sorted[i].chunkNo <= c.chunkNo
    ensures Insert(c, sorted) == sorted + [c]
  {
    if sorted != [] { InsertLast(c, sorted[1..]); }
  }

  lemma {:induction false} NumberedIsSorted(chunks: seq<Chunk>)
    requires forall i :: 0 <= i < |chunks| ==> chunks[i].chunkNo == i + 1
    ensures ByNumber(chunks) == chunks
  {
    if chunks != [] {
      NumberedIsSorted(chunks[..|chunks| - 1]);
      InsertLast(chunks[|chunks| - 1], chunks[..|chunks| - 1]);
    }
  }

  lemma {:induction false} InsertKeeps(c: Chunk, sorted: seq<Chunk>)
    ensures |Insert(c, sorted)| == |sorted| + 1 && forall x :: x in Insert(c, sorted) <==> x == c || x in sorted
  {
    if sorted != [] && c.chunkNo >= sorted[0].chunkNo { InsertKeeps(c, sorted[1..]); }
  }

  lemma {:induction false} SortKeeps(chunks: seq<Chunk>)
    ensures |ByNumber(chunks)| == |chunks| && forall x :: x in ByNumber(chunks) <==> x in chunks
  {
    if chunks != [] {
      var last := chunks[|chunks| - 1];
      SortKeeps(chunks[..|chunks| - 1]);
      InsertKeeps(last, ByNumber(chunks[..|chunks| - 1]));
      assert chunks == chunks[..|chunks| - 1] + [last];
    }
  }

  lemma SafeTwice(u: Utf8, name: string)
    requires SafeName(u, name).Ok?
    ensures SafeName(u, SafeName(u, name).value) == SafeName(u, name) && SafeName(u, name).value != ""
  {
  }

  /** An accepted description with its chunks sorted is accepted as it stands. */
  lemma SortedIsNormal(u: Utf8, addressOk: string -> bool, description: Description)
    requires Normalize(u, addressOk, description).Some?
    ensures var d := Normalize(u, addressOk, description).value;
            var sorted := d.(chunks := ByNumber(d.chunks));
            && Normalize(u, addressOk, sorted) == Some(sorted)
            && sorted.chunks != [] && forall i :: 0 <= i < |sorted.chunks| ==> ChunkOk(addressOk, sorted.chunks[i])
  {
    var d := Normalize(u, addressOk, description).value;
    var chunks := ByNumber(d.chunks);
    SortKeeps(d.chunks);
    SafeTwice(u, description.fileName);
    forall i | 0 <= i < |chunks| ensures ChunkOk(addressOk, chunks[i]) && chunks[i].chunkNo == i + 1 {
      assert chunks[i] in d.chunks;
      assert Specs(chunks)[i].chunkNo == i + 1;
    }
    NumberedIsSorted(chunks);
    hide ChunkOk, SafeName, ByNumber, Specs;
  }
}
