/** Upload with rollback, deletion and download of an XFTP web file against a server
    that may refuse any command or lose any reply (src/browser-xftp-web-client.mjs). */
module XftpTransfer {
  import opened Outcomes
  import opened Bytes
  import opened SecretBox
  import opened XftpPlan
  import opened XftpEnvelope
  import opened XftpDescription

  /** How the server treats a command: does it, refuses it, or does it while the reply
      is lost.  The client sees the last two alike, as an error. */
  datatype Fate = Served | Refused | ReplyLost

  datatype Stored = Stored(sndSeed: bytes, rcvSeed: bytes, body: Option<bytes>)

  /** What both sides of one upload agree on beforehand. */
  datatype Setting = Setting(
    address: string,                       // of the server the client is connected to
    newFate: nat -> Fate, putFate: nat -> Fate, delFate: nat -> Fate, getFate: nat -> Fate,
    capacity: nat,                         // how many ids the server can make
    id: nat -> bytes,                      // ids the server makes, all different
    number: bytes -> nat
  ) {
    ghost predicate Valid() {
      forall k: nat :: k < capacity ==> 1 <= |id(k)| <= 255 && number(id(k)) == k
    }

    /** A server that has no two ids left refuses to create a file. */
    function CreateFate(clock: nat): Fate {
      if 2 * clock + 1 < capacity then newFate(clock) else Refused
    }
  }

  /** Eight-byte ids: a setting for every address, every behaviour and 2^64 ids. */
  lemma SettingHolds(address: string, newFate: nat -> Fate, putFate: nat -> Fate, delFate: nat -> Fate, getFate: nat -> Fate)
    ensures exists s: Setting :: s.Valid() && s.capacity == Pow256(8) && s.address == address
              && s.newFate == newFate && s.putFate == putFate && s.delFate == delFate && s.getFate == getFate
  {
    var s := Setting(address, newFate, putFate, delFate, getFate, Pow256(8),
                     (k: nat) => BigEndian(k, 8), (b: bytes) => FromBigEndian(b));
    forall k: nat | k < s.capacity ensures 1 <= |s.id(k)| <= 255 && s.number(s.id(k)) == k {
      BigEndianInverts(k, 8);
    }
    assert s.Valid();
  }

  class XftpServer {
    const s: Setting
    var clock: nat
    var files: map<bytes, Stored>          // by sender id
    var routes: map<bytes, bytes>          // recipient id to sender id
    ghost var returned: seq<bytes>         // sender ids whose FNEW reply reached the client
    ghost var deletesSent: set<bytes>      // sender ids the client sent FDEL for

    ghost predicate Valid()
      reads this
    {
      && s.Valid()
      && (forall k :: 2 * clock <= k < s.capacity ==> s.id(k) !in files && s.id(k) !in routes)
    }

    constructor (setting: Setting)
      requires setting.Valid()
      ensures Valid() && s == setting && files == map[] && routes == map[] && returned == [] && deletesSent == {}
    {
      s := setting;
      clock := 0;
      files, routes := map[], map[];
      returned, deletesSent := [], {};
    }

    method Fnew(sndSeed: bytes, rcvSeed: bytes) returns (r: Option<(bytes, bytes)>)
      requires Valid()
      modifies this
      ensures Valid() && clock == old(clock) + 1 && deletesSent == old(deletesSent)
      ensures var sid, rid, fate := s.id(2 * old(clock)), s.id(2 * old(clock) + 1), s.CreateFate(old(clock));
              && (fate != Refused ==> sid !in old(files) && rid !in old(routes) && 1 <= |sid| <= 255 && 1 <= |rid| <= 255)
              && (if fate == Refused then files == old(files) && routes == old(routes)
                  else files == old(files)[sid := Stored(sndSeed, rcvSeed, None)] && routes == old(routes)[rid := sid])
              && (if fate == Served then r == Some((sid, rid)) && returned == old(returned) + [sid]
                  else r == None && returned == old(returned))
    {
      var fate, sid, rid := s.CreateFate(clock), s.id(2 * clock), s.id(2 * clock + 1);
      assert fate != Refused ==> s.number(sid) == 2 * clock && s.number(rid) == 2 * clock + 1;
      assert forall k :: 2 * (clock + 1) <= k < s.capacity ==> s.number(s.id(k)) == k;
      clock := clock + 1;
      if fate != Refused {
        files, routes := files[sid := Stored(sndSeed, rcvSeed, None)], routes[rid := sid];
      }
      if fate == Served {
        returned := returned + [sid];
        return Some((sid, rid));
      }
      return None;
    }

    method Fput(sndSeed: bytes, sid: bytes, body: bytes) returns (ok: bool)
      requires Valid()
      modifies this
      ensures Valid() && clock == old(clock) + 1 && routes == old(routes)
      ensures returned == old(returned) && deletesSent == old(deletesSent)
      ensures files == old(files) || (sid in old(files) && files == old(files)[sid := old(files)[sid].(body := Some(body))])
      ensures ok <==> s.putFate(old(clock)) == Served && sid in old(files) && old(files)[sid].sndSeed == sndSeed
      ensures ok ==> sid in files && files[sid].body == Some(body)
    {
      var fate := s.putFate(clock);
      clock := clock + 1;
      if fate == Refused || sid !in files || files[sid].sndSeed != sndSeed { return false; }
      files := files[sid := files[sid].(body := Some(body))];
      return fate == Served;
    }

    method Fdel(sndSeed: bytes, sid: bytes) returns (ok: bool)
      requires Valid()
      modifies this
      ensures Valid() && clock == old(clock) + 1 && routes == old(routes) && returned == old(returned)
      ensures deletesSent == old(deletesSent) + {sid}
      ensures ok <==> s.delFate(old(clock)) == Served && sid in old(files) && old(files)[sid].sndSeed == sndSeed
      ensures files == (if s.delFate(old(clock)) != Refused && sid in old(files) && old(files)[sid].sndSeed == sndSeed
                        then old(files) - {sid} else old(files))
    {
      var fate := s.delFate(clock);
      clock := clock + 1;
      deletesSent := deletesSent + {sid};
      if fate == Refused || sid !in files || files[sid].sndSeed != sndSeed { return false; }
      files := files - {sid};
      return fate == Served;
    }

    method Fget(rcvSeed: bytes, rid: bytes) returns (r: Option<bytes>)
      modifies this`clock
      ensures clock == old(clock) + 1
      ensures s.getFate(old(clock)) == Served ==> r == Body(files, routes, rcvSeed, rid)
      ensures r.Some? ==> r == Body(files, routes, rcvSeed, rid)
    {
      var fate := s.getFate(clock);
      clock := clock + 1;
      if fate != Served { return None; }
      return Body(files, routes, rcvSeed, rid);
    }
  }

  function Body(files: map<bytes, Stored>, routes: map<bytes, bytes>, rcvSeed: bytes, rid: bytes): Option<bytes> {
    if rid in routes && routes[rid] in files && files[routes[rid]].rcvSeed == rcvSeed then files[routes[rid]].body else None
  }

  datatype TransferFault =
    | NotSealed(fault: FileFault) | CommandFailed | WrongServer | BadDescription | BadKey | SizeMismatch | DigestMismatch

  /** Seeds of the fresh key pairs, one of each for every chunk. */
  datatype Seeds = Seeds(sender: nat -> bytes, recipient: nat -> bytes) {
    ghost predicate Valid() {
      forall k :: |sender(k)| == 32 && |recipient(k)| == 32
    }
  }

  /** A client deletes only on the server it is connected to. */
  method DeleteUploaded(server: XftpServer, record: Chunk) returns (ok: bool)
    requires server.Valid() && record.replicas != []
    modifies server
    ensures server.Valid() && server.routes == old(server.routes) && server.returned == old(server.returned)
    ensures var r := record.replicas[0];
            if r.server == server.s.address && SeedOf(r.replicaKey).Some? then
              && server.clock == old(server.clock) + 1
              && server.deletesSent == old(server.deletesSent) + {r.replicaId}
              && server.files == (if server.s.delFate(old(server.clock)) != Refused && r.replicaId in old(server.files)
                                     && old(server.files)[r.replicaId].sndSeed == SeedOf(r.replicaKey).value
                                  then old(server.files) - {r.replicaId} else old(server.files))
              && (ok <==> server.s.delFate(old(server.clock)) == Served && r.replicaId in old(server.files)
                          && old(server.files)[r.replicaId].sndSeed == SeedOf(r.replicaKey).value)
            else !ok && server.clock == old(server.clock) && server.deletesSent == old(server.deletesSent)
                 && server.files == old(server.files)
  {
    var replica := record.replicas[0];
    if replica.server != server.s.address { return false; }
    var seed := SeedOf(replica.replicaKey);
    if seed.None? { return false; }
    ok := server.Fdel(seed.value, replica.replicaId);
  }

  /** What the server holds for chunk record i of an upload. */
  ghost predicate HoldsSent(files: map<bytes, Stored>, c: Chunk, address: string, seeds: Seeds, i: nat) {
    && |c.replicas| == 1 && c.replicas[0].server == address
    && c.replicas[0].replicaKey == KeyDer(seeds.sender(i))
    && 1 <= |c.replicas[0].replicaId| <= 255
    && c.replicas[0].replicaId in files && files[c.replicas[0].replicaId].sndSeed == seeds.sender(i)
  }

  function SidOf(c: Chunk): bytes {
    if c.replicas == [] then [] else c.replicas[0].replicaId
  }

  function Sids(records: seq<Chunk>): set<bytes> {
    set i | 0 <= i < |records| :: SidOf(records[i])
  }

  ghost predicate WellSent(records: seq<Chunk>, files: map<bytes, Stored>, before: map<bytes, Stored>, address: string,
                           seeds: Seeds)
  {
    && (forall i :: 0 <= i < |records| ==>
          HoldsSent(files, records[i], address, seeds, i) && SidOf(records[i]) !in before)
    && (forall i, j :: 0 <= i < j < |records| ==> SidOf(records[i]) != SidOf(records[j]))
  }

  /** The files of before, one for each record, and nothing else. */
  ghost predicate OnlyAdds(records: seq<Chunk>, files: map<bytes, Stored>, before: map<bytes, Stored>) {
    && files.Keys == before.Keys + Sids(records)
    && (forall x :: x in before ==> x in files && files[x] == before[x])
  }

  /** No FNEW reply is lost and no FDEL is refused. */
  ghost predicate Cooperative(s: Setting) {
    forall t :: s.CreateFate(t) != ReplyLost && s.delFate(t) != Refused
  }

  /** Removing the newest record's file leaves the older records as they were. */
  lemma OneLess(records: seq<Chunk>, files: map<bytes, Stored>, files': map<bytes, Stored>, before: map<bytes, Stored>,
                address: string, seeds: Seeds)
    requires records != [] && WellSent(records, files, before, address, seeds)
    requires files' == files || files' == files - {SidOf(records[|records| - 1])}
    ensures WellSent(records[..|records| - 1], files', before, address, seeds)
    ensures OnlyAdds(records, files, before) && files' == files - {SidOf(records[|records| - 1])}
            ==> OnlyAdds(records[..|records| - 1], files', before)
  {
    var front, last := records[..|records| - 1], records[|records| - 1];
    assert HoldsSent(files, last, address, seeds, |records| - 1);
    forall i | 0 <= i < |front| ensures HoldsSent(files', front[i], address, seeds, i)
        && SidOf(front[i]) != SidOf(last) {
      assert HoldsSent(files, records[i], address, seeds, i) && front[i] == records[i];
    }
    assert records == front + [last];
    SidsAppend(front, last);
  }

  lemma SidsAppend(records: seq<Chunk>, last: Chunk)
    ensures Sids(records + [last]) == Sids(records) + {SidOf(last)}
  {
    var all := records + [last];
    assert forall i :: 0 <= i < |records| ==> all[i] == records[i];
    assert all[|records|] == last;
  }

  lemma SidsFrom(records: seq<Chunk>, i: nat)
    requires i < |records|
    ensures Sids(records[i..]) == {SidOf(records[i])} + Sids(records[i + 1..])
  {
  }

  method RollBackOne(server: XftpServer, record: Chunk, ghost records: seq<Chunk>, ghost before: map<bytes, Stored>,
                     ghost address: string, ghost seeds: Seeds)
    requires server.Valid() && seeds.Valid() && WellSent(records, server.files, before, address, seeds)
    requires records != [] && record == records[|records| - 1]
    modifies server
    ensures server.Valid() && server.returned == old(server.returned)
    ensures WellSent(records[..|records| - 1], server.files, before, address, seeds)
    ensures address == server.s.address ==> server.deletesSent == old(server.deletesSent) + {SidOf(record)}
    ensures address == server.s.address && Cooperative(server.s) && OnlyAdds(records, old(server.files), before)
            ==> OnlyAdds(records[..|records| - 1], server.files, before)
  {
    assert HoldsSent(server.files, record, address, seeds, |records| - 1);
    SeedOfInverts(seeds.sender(|records| - 1));
    hide WellSent, OnlyAdds, Sids, KeyDer, SeedOf;
    var _ := DeleteUploaded(server, record);
    OneLess(records, old(server.files), server.files, before, address, seeds);
  }

  /** The rollback: newest first, each failure swallowed. */
  method RollBack(server: XftpServer, records: seq<Chunk>, ghost before: map<bytes, Stored>, ghost address: string,
                  ghost seeds: Seeds)
    requires server.Valid() && seeds.Valid() && WellSent(records, server.files, before, address, seeds)
    modifies server
    ensures server.Valid() && server.returned == old(server.returned)
    ensures address == server.s.address ==> server.deletesSent == old(server.deletesSent) + Sids(records)
    ensures address == server.s.address && Cooperative(server.s) && OnlyAdds(records, old(server.files), before)
            ==> server.files == before
  {
    var i := |records|;
    assert records[..i] == records && records[i..] == [];
    while i > 0
      invariant 0 <= i <= |records|
      invariant server.Valid() && server.returned == old(server.returned)
      invariant WellSent(records[..i], server.files, before, address, seeds)
      invariant address == server.s.address ==> server.deletesSent == old(server.deletesSent) + Sids(records[i..])
      invariant address == server.s.address && Cooperative(server.s) && OnlyAdds(records, old(server.files), before)
                ==> OnlyAdds(records[..i], server.files, before)
    {
      hide WellSent, OnlyAdds, Sids, SidOf, Cooperative, XftpServer.Valid;
      i := i - 1;
      assert records[..i + 1][..i] == records[..i];
      SidsFrom(records, i);
      RollBackOne(server, records[i], records[..i + 1], before, address, seeds);
    }
    assert records[0..] == records && records[..0] == [];
  }

  // ---------------------------------------------------------------- upload

  /** The cipher of every file key and nonce, and the two hashes. */
  datatype Suite = Suite(cipher: (bytes, bytes) -> Cipher, hashes: Hashes) {
    ghost predicate Valid() {
      hashes.Valid() && forall key, nonce :: cipher(key, nonce).Valid()
    }
  }

  /** SHA-256 of a chunk, SHA-512 of the whole envelope. */
  datatype Hashes = Hashes(sha256: bytes -> bytes, sha512: bytes -> bytes) {
    ghost predicate Valid() {
      forall b :: |sha256(b)| == 32 && |sha512(b)| == 64
    }
  }

  lemma SuiteHolds()
    ensures exists suite: Suite :: suite.Valid()
    ensures exists seeds: Seeds :: seeds.Valid()
  {
    CipherHolds();
    var c: Cipher :| c.Valid();
    var suite := Suite((_, _) => c, Hashes(_ => Repeat(0, 32), _ => Repeat(0, 64)));
    var seeds := Seeds(_ => Repeat(0, 32), _ => Repeat(1, 32));
    assert suite.Valid() && seeds.Valid();
  }

  function Slice(encrypted: bytes, spec: ChunkSpec): bytes
    requires spec.offset + spec.chunkSize <= |encrypted|
  {
    encrypted[spec.offset..spec.offset + spec.chunkSize]
  }

  function Record(spec: ChunkSpec, digest: bytes, address: string, id: bytes, seed: bytes): Chunk {
    Chunk(spec.chunkNo, spec.offset, spec.chunkSize, digest, [Replica(address, id, KeyDer(seed))])
  }

  /** The FNEW and the FPUT of a chunk that starts at this time are done and answered. */
  predicate ServesChunk(s: Setting, clock: nat) {
    s.CreateFate(clock) == Served && s.putFate(clock + 1) == Served
  }

  predicate ServesChunks(s: Setting, clock: nat, count: nat) {
    forall i: nat :: i < count ==> ServesChunk(s, clock + 2 * i)
  }

  lemma ServesOneMore(s: Setting, clock: nat, i: nat, count: nat)
    requires i < count && ServesChunks(s, clock, i)
    ensures ServesChunk(s, clock + 2 * i) ==> ServesChunks(s, clock, i + 1)
    ensures ServesChunks(s, clock, count) ==> ServesChunk(s, clock + 2 * i)
  {
    hide ServesChunk;
    forall k: nat | k < i + 1 && ServesChunk(s, clock + 2 * i) ensures ServesChunk(s, clock + 2 * k) {
      if k < i { assert ServesChunk(s, clock + 2 * k); }
    }
  }

  /** One chunk: FNEW, then FPUT, and FDEL if that fails. */
  method UploadChunk(server: XftpServer, spec: ChunkSpec, data: bytes, digest: bytes, address: string, sndSeed: bytes,
                     rcvSeed: bytes)
    returns (r: Result<(Chunk, Chunk), TransferFault>)
    requires server.Valid() && |sndSeed| == 32
    modifies server
    ensures server.Valid()
    ensures r.Ok? <==> ServesChunk(server.s, old(server.clock))
    ensures r.Ok? ==> server.clock == old(server.clock) + 2
    ensures var sid, rid := server.s.id(2 * old(server.clock)), server.s.id(2 * old(server.clock) + 1);
            && (forall x :: x in old(server.files) ==> x in server.files && server.files[x] == old(server.files)[x])
            && (if r.Ok? then
                  && sid !in old(server.files) && rid !in old(server.routes) && 1 <= |sid| <= 255 && 1 <= |rid| <= 255
                  && server.files == old(server.files)[sid := Stored(sndSeed, rcvSeed, Some(data))]
                  && server.routes == old(server.routes)[rid := sid]
                  && server.returned == old(server.returned) + [sid] && server.deletesSent == old(server.deletesSent)
                  && r.value == (Record(spec, digest, address, sid, sndSeed), Record(spec, digest, address, rid, rcvSeed))
                else
                  && old(server.deletesSent) <= server.deletesSent
                  && (server.returned == old(server.returned)
                      || (server.returned == old(server.returned) + [sid]
                          && (address == server.s.address ==> sid in server.deletesSent)))
                  && (address == server.s.address && Cooperative(server.s) ==> server.files == old(server.files)))
  {
    var created := server.Fnew(sndSeed, rcvSeed);
    if created.None? { return Err(CommandFailed); }
    var (sid, rid) := created.value;
    var sent := Record(spec, digest, address, sid, sndSeed);
    var put := server.Fput(sndSeed, sid, data);
    if !put {
      SeedOfInverts(sndSeed);
      var _ := DeleteUploaded(server, sent);
      return Err(CommandFailed);
    }
    return Ok((sent, Record(spec, digest, address, rid, rcvSeed)));
  }

  /** Chunk i of the recipient description leads to slice i of the envelope. */
  ghost predicate Leads(files: map<bytes, Stored>, routes: map<bytes, bytes>, c: Chunk, encrypted: bytes,
                        address: string, seeds: Seeds, hashes: Hashes, i: nat) {
    && c.offset + c.chunkSize <= |encrypted|
    && c.digest == hashes.sha256(encrypted[c.offset..c.offset + c.chunkSize])
    && |c.replicas| == 1 && c.replicas[0].server == address && 1 <= |c.replicas[0].replicaId| <= 255
    && c.replicas[0].replicaKey == KeyDer(seeds.recipient(i))
    && Body(files, routes, seeds.recipient(i), c.replicas[0].replicaId) == Some(encrypted[c.offset..c.offset + c.chunkSize])
  }

  ghost predicate AllLead(files: map<bytes, Stored>, routes: map<bytes, bytes>, chunks: seq<Chunk>, encrypted: bytes,
                          address: string, seeds: Seeds, hashes: Hashes) {
    forall i :: 0 <= i < |chunks| ==> Leads(files, routes, chunks[i], encrypted, address, seeds, hashes, i)
  }

  /** Sender ids returned since `from`. */
  ghost function Since(returned: seq<bytes>, from: nat): set<bytes> {
    set k | from <= k < |returned| :: returned[k]
  }

  /** Everything the loop of uploadXftpWebFile keeps. */
  ghost predicate Underway(server: XftpServer, sent: seq<Chunk>, received: seq<Chunk>, specs: seq<ChunkSpec>,
                           encrypted: bytes,
                           before: map<bytes, Stored>, n0: nat, address: string, seeds: Seeds, hashes: Hashes)
    reads server
  {
    && server.Valid() && n0 <= |server.returned|
    && |sent| == |received| <= |specs|
    && WellSent(sent, server.files, before, address, seeds)
    && AllLead(server.files, server.routes, received, encrypted, address, seeds, hashes)
    && Specs(received) == specs[..|received|]
    && (forall x :: x in before ==> x in server.files && server.files[x] == before[x])
    && Since(server.returned, n0) == Sids(sent)
    && OnlyAdds(sent, server.files, before) && OwnReplicas(sent, received)
  }

  /** Chunk by chunk the same, but for where it is stored and under which key. */
  predicate OwnReplicas(sent: seq<Chunk>, received: seq<Chunk>) {
    && |sent| == |received|
    && forall i :: 0 <= i < |sent| ==> sent[i] == received[i].(replicas := sent[i].replicas)
  }

  lemma OneMore(sent: seq<Chunk>, record: Chunk, files: map<bytes, Stored>, files': map<bytes, Stored>,
                before: map<bytes, Stored>,
                address: string, seeds: Seeds, sid: bytes, stored: Stored)
    requires WellSent(sent, files, before, address, seeds) && sid !in files && before.Keys <= files.Keys
    requires 1 <= |sid| <= 255
    requires files' == files[sid := stored] && stored.sndSeed == seeds.sender(|sent|)
    requires record.replicas == [Replica(address, sid, KeyDer(seeds.sender(|sent|)))]
    ensures WellSent(sent + [record], files', before, address, seeds)
    ensures OnlyAdds(sent, files, before) ==> OnlyAdds(sent + [record], files', before)
  {
    var all := sent + [record];
    forall i | 0 <= i < |sent| ensures HoldsSent(files', all[i], address, seeds, i) && SidOf(all[i]) != sid {
      assert HoldsSent(files, sent[i], address, seeds, i) && all[i] == sent[i];
    }
    SidsAppend(sent, record);
  }

  lemma OneMoreLeads(files: map<bytes, Stored>, routes: map<bytes, bytes>, chunks: seq<Chunk>, record: Chunk,
                     encrypted: bytes,
                     address: string, seeds: Seeds, hashes: Hashes, sid: bytes, rid: bytes, stored: Stored)
    requires AllLead(files, routes, chunks, encrypted, address, seeds, hashes) && sid !in files && rid !in routes
    requires Leads(files[sid := stored], routes[rid := sid], record, encrypted, address, seeds, hashes, |chunks|)
    ensures AllLead(files[sid := stored], routes[rid := sid], chunks + [record], encrypted, address, seeds, hashes)
  {
  }

  lemma SpecsAppend(chunks: seq<Chunk>, record: Chunk, specs: seq<ChunkSpec>)
    requires |chunks| < |specs| && Specs(chunks) == specs[..|chunks|]
    requires ChunkSpec(record.chunkNo, record.offset, record.chunkSize) == specs[|chunks|]
    ensures Specs(chunks + [record]) == specs[..|chunks| + 1]
  {
  }

  lemma SinceAppend(returned: seq<bytes>, sid: bytes, from: nat)
    requires from <= |returned|
    ensures Since(returned + [sid], from) == Since(returned, from) + {sid}
  {
    var all := returned + [sid];
    assert forall k :: 0 <= k < |returned| ==> all[k] == returned[k];
    assert all[|returned|] == sid;
  }

  /** A chunk of the plan lies inside the envelope. */
  lemma {:induction false} SpecInside(specs: seq<ChunkSpec>, total: nat, i: nat)
    requires Tiles(specs, total) && i < |specs|
    ensures specs[i].offset + specs[i].chunkSize <= total
    decreases |specs| - i
  {
    if i + 1 < |specs| { SpecInside(specs, total, i + 1); }
  }

  /** Chunk i uploaded: both descriptions grow by it. */
  method UploadNext(server: XftpServer, spec: ChunkSpec, encrypted: bytes, address: string, seeds: Seeds,
                    hashes: Hashes, i: nat,
                    ghost sent: seq<Chunk>, ghost received: seq<Chunk>, ghost specs: seq<ChunkSpec>,
                    ghost before: map<bytes, Stored>, ghost n0: nat)
    returns (r: Result<(Chunk, Chunk), TransferFault>)
    requires seeds.Valid() && Underway(server, sent, received, specs, encrypted, before, n0, address, seeds, hashes)
    requires |sent| == i < |specs| && spec == specs[i] && spec.offset + spec.chunkSize <= |encrypted|
    modifies server
    ensures server.Valid()
    ensures r.Ok? <==> ServesChunk(server.s, old(server.clock))
    ensures r.Ok? ==> server.deletesSent == old(server.deletesSent) && server.clock == old(server.clock) + 2
                      && Underway(server, sent + [r.value.0], received + [r.value.1], specs, encrypted,
                                  before, n0, address, seeds, hashes)
    ensures r.Err? ==>
              && WellSent(sent, server.files, before, address, seeds)
              && old(server.deletesSent) <= server.deletesSent && |server.returned| >= n0
              && (address == server.s.address ==> Since(server.returned, n0) <= Sids(sent) + server.deletesSent)
              && (address == server.s.address && Cooperative(server.s) ==> OnlyAdds(sent, server.files, before))
  {
    ghost var sid, rid := server.s.id(2 * server.clock), server.s.id(2 * server.clock + 1);
    ghost var files, routes, returned := server.files, server.routes, server.returned;
    var data := Slice(encrypted, spec);
    r := UploadChunk(server, spec, data, hashes.sha256(data), address, seeds.sender(i), seeds.recipient(i));
    SinceAppend(returned, sid, n0);
    if r.Ok? {
      ghost var stored := Stored(seeds.sender(i), seeds.recipient(i), Some(data));
      OneMore(sent, r.value.0, files, server.files, before, address, seeds, sid, stored);
      OneMoreLeads(files, routes, received, r.value.1, encrypted, address, seeds, hashes, sid, rid, stored);
      SidsAppend(sent, r.value.0);
      SpecsAppend(received, r.value.1, specs);
    } else {
      StillSent(sent, files, server.files, before, address, seeds);
    }
  }

  lemma StillSent(sent: seq<Chunk>, files: map<bytes, Stored>, files': map<bytes, Stored>, before: map<bytes, Stored>,
                  address: string, seeds: Seeds)
    requires WellSent(sent, files, before, address, seeds)
    requires forall x :: x in files ==> x in files' && files'[x] == files[x]
    ensures WellSent(sent, files', before, address, seeds)
  {
  }

  /** Every chunk of a plan has between 64 KiB and 4 MiB. */
  predicate Modest(specs: seq<ChunkSpec>) {
    forall i :: 0 <= i < |specs| ==> 64 * KB <= specs[i].chunkSize <= 4 * MB
  }

  lemma UnderwayStart(server: XftpServer, specs: seq<ChunkSpec>, encrypted: bytes, address: string, seeds: Seeds,
                      hashes: Hashes)
    requires server.Valid()
    ensures Underway(server, [], [], specs, encrypted, server.files, |server.returned|, address, seeds, hashes)
  {
    hide XftpServer.Valid, Cooperative;
  }

  lemma UnderwayDone(server: XftpServer, sent: seq<Chunk>, received: seq<Chunk>, specs: seq<ChunkSpec>,
                     encrypted: bytes, before: map<bytes, Stored>, n0: nat, address: string, seeds: Seeds,
                     hashes: Hashes)
    requires Underway(server, sent, received, specs, encrypted, before, n0, address, seeds, hashes)
    requires |sent| == |specs|
    ensures Specs(received) == specs && server.Valid()
    ensures WellSent(sent, server.files, before, address, seeds) && OnlyAdds(sent, server.files, before)
    ensures OwnReplicas(sent, received)
    ensures AllLead(server.files, server.routes, received, encrypted, address, seeds, hashes)
  {
    hide XftpServer.Valid, Cooperative, AllLead, WellSent;
    assert specs[..|specs|] == specs;
  }

  datatype Uploaded = Uploaded(recipient: Description, sender: Description, encrypted: bytes)

  /** The chunk loop and its rollback. */
  method UploadChunks(server: XftpServer, specs: seq<ChunkSpec>, encrypted: bytes, hashes: Hashes, address: string,
                      seeds: Seeds)
    returns (r: Result<(seq<Chunk>, seq<Chunk>), TransferFault>)
    requires server.Valid() && seeds.Valid() && Tiles(specs, |encrypted|)
    modifies server
    ensures server.Valid()
    ensures r.Ok? <==> ServesChunks(server.s, old(server.clock), |specs|)
    ensures r.Err? ==> r.error == CommandFailed
    ensures r.Err? && address == server.s.address ==>
              && |old(server.returned)| <= |server.returned|
              && Since(server.returned, |old(server.returned)|) <= server.deletesSent
    ensures r.Err? && address == server.s.address && Cooperative(server.s) ==> server.files == old(server.files)
    ensures r.Ok? ==> Specs(r.value.1) == specs && |r.value.0| == |specs|
                      && AllLead(server.files, server.routes, r.value.1, encrypted, address, seeds, hashes)
                      && WellSent(r.value.0, server.files, old(server.files), address, seeds)
                      && OnlyAdds(r.value.0, server.files, old(server.files)) && OwnReplicas(r.value.0, r.value.1)
  {
    hide Underway, WellSent, OnlyAdds, OwnReplicas, Cooperative, Sids, Since, AllLead, Specs, XftpServer.Valid, ServesChunk;
    ghost var before, n0 := server.files, |server.returned|;
    var sent: seq<Chunk>, received: seq<Chunk> := [], [];
    UnderwayStart(server, specs, encrypted, address, seeds, hashes);
    var i := 0;
    while i < |specs|
      invariant 0 <= i <= |specs| && |sent| == i
      invariant server.deletesSent == old(server.deletesSent) && server.clock == old(server.clock) + 2 * i
      invariant ServesChunks(server.s, old(server.clock), i)
      invariant Underway(server, sent, received, specs, encrypted, before, n0, address, seeds, hashes)
    {
      SpecInside(specs, |encrypted|, i);
      ServesOneMore(server.s, old(server.clock), i, |specs|);
      hide ServesChunks, Tiles;
      var next := UploadNext(server, specs[i], encrypted, address, seeds, hashes, i, sent, received, specs, before, n0);
      if next.Err? {
        RollBack(server, sent, before, address, seeds);
        return Err(CommandFailed);
      }
      sent, received := sent + [next.value.0], received + [next.value.1];
      i := i + 1;
    }
    UnderwayDone(server, sent, received, specs, encrypted, before, n0, address, seeds, hashes);
    return Ok((sent, received));
  }

  /** How many chunks a file is uploaded in. */
  function ChunkCount(u: Utf8, h: Header, content: bytes): nat
    requires EncodeHeader(u, h).Ok?
  {
    |ChunkSizes(PayloadSize(|EncodeHeader(u, h).value + content|))|
  }

  /** The upload succeeds exactly if the file can be sealed and every FNEW and FPUT is
      served.  If any command of the upload throws, every file whose FNEW came back has been sent
      FDEL; and if no FNEW reply is lost and no FDEL refused, the server is as before. */
  method UploadXftpWebFile(server: XftpServer, u: Utf8, suite: Suite, h: Header, content: bytes,
                           address: string, key: bytes, nonce: bytes, seeds: Seeds)
    returns (r: Result<Uploaded, TransferFault>)
    requires server.Valid() && suite.Valid() && seeds.Valid()
    modifies server
    ensures server.Valid()
    ensures r.Err? && address == server.s.address ==>
              && |old(server.returned)| <= |server.returned|
              && Since(server.returned, |old(server.returned)|) <= server.deletesSent
    ensures r.Err? && address == server.s.address && Cooperative(server.s) ==> server.files == old(server.files)
    ensures SealFile(u, suite.cipher(key, nonce), h, content).Err? <==> r.Err? && r.error.NotSealed?
    ensures r.Ok? <==> SealFile(u, suite.cipher(key, nonce), h, content).Ok?
                       && ServesChunks(server.s, old(server.clock), ChunkCount(u, h, content))
    ensures r.Ok? ==>
              && SealFile(u, suite.cipher(key, nonce), h, content) == Ok(r.value.encrypted)
              && Describes(server.files, server.routes, r.value.recipient, h, r.value.encrypted,
                           address, key, nonce, seeds, suite.hashes)
              && SenderDescribes(server.files, old(server.files), r.value.sender, r.value.recipient, address, seeds)
  {
    var hashes := suite.hashes;
    var envelope := SealFile(u, suite.cipher(key, nonce), h, content);
    if envelope.Err? { return Err(NotSealed(envelope.error)); }
    var encrypted := envelope.value;
    var clear := EncodeHeader(u, h).value + content;
    TailIsSameBox(suite.cipher(key, nonce), ClearEnvelope(clear));
    var specs := ChunkSpecs(PayloadSize(|clear|));
    EnvelopePlanned(specs, |clear|);
    assert Tiles(specs, |encrypted|) && Modest(specs);
    hide *;
    var chunks := UploadChunks(server, specs, encrypted, hashes, address, seeds);
    if chunks.Err? { return Err(chunks.error); }
    var (sent, received) := chunks.value;
    var base := Description(Recipient, |encrypted|, hashes.sha512(encrypted), key, nonce,
                            if received == [] then 0 else received[0].chunkSize, Kept(h).fileName, h.fileExtra, received);
    DescribesAll(server.files, server.routes, base, h, encrypted, address, key, nonce, seeds, hashes);
    var senderDescription := base.(party := Sender, chunks := sent);
    SenderDescribed(server.files, old(server.files), senderDescription, base, address, seeds);
    return Ok(Uploaded(base, senderDescription, encrypted));
  }

  /** A sender description of the same file: each chunk names the file created for it, which
      was not there before, and the key to delete it; and nothing else was created. */
  ghost predicate SenderDescribes(files: map<bytes, Stored>, before: map<bytes, Stored>, d: Description,
                                  recipient: Description, address: string, seeds: Seeds)
  {
    && d == recipient.(party := Sender, chunks := d.chunks) && OwnReplicas(d.chunks, recipient.chunks)
    && WellSent(d.chunks, files, before, address, seeds) && OnlyAdds(d.chunks, files, before)
  }

  lemma SenderDescribed(files: map<bytes, Stored>, before: map<bytes, Stored>, d: Description,
                        recipient: Description, address: string, seeds: Seeds)
    requires d == recipient.(party := Sender, chunks := d.chunks) && OwnReplicas(d.chunks, recipient.chunks)
    requires WellSent(d.chunks, files, before, address, seeds) && OnlyAdds(d.chunks, files, before)
    ensures SenderDescribes(files, before, d, recipient, address, seeds)
  {
  }

  /** The plan of an envelope: as long as the envelope, no chunk over 4 MiB. */
  lemma EnvelopePlanned(specs: seq<ChunkSpec>, clearSize: nat)
    requires var sizes := ChunkSizes(PayloadSize(clearSize));
             |specs| == |sizes| && forall i :: 0 <= i < |specs| ==> specs[i].chunkSize == sizes[i]
    ensures Modest(specs)
    ensures Sum(ChunkSizes(PayloadSize(clearSize))) == 8 + clearSize + FillLength(clearSize) + 16
  {
    PlanIsTight(PayloadSize(clearSize));
    hide ChunkSizes, Sum;
  }

  lemma DescribesAll(files: map<bytes, Stored>, routes: map<bytes, bytes>, d: Description, h: Header, encrypted: bytes,
                     address: string, key: bytes, nonce: bytes, seeds: Seeds, hashes: Hashes)
    requires d == Description(Recipient, |encrypted|, hashes.sha512(encrypted), key, nonce,
                              if d.chunks == [] then 0 else d.chunks[0].chunkSize, Kept(h).fileName, h.fileExtra, d.chunks)
    requires Tiles(Specs(d.chunks), |encrypted|) && Modest(Specs(d.chunks))
    requires AllLead(files, routes, d.chunks, encrypted, address, seeds, hashes)
    ensures Describes(files, routes, d, h, encrypted, address, key, nonce, seeds, hashes)
  {
  }

  /** A recipient description that leads, chunk by chunk, to a whole envelope. */
  ghost predicate Describes(files: map<bytes, Stored>, routes: map<bytes, bytes>, d: Description, h: Header,
                            encrypted: bytes,
                            address: string, key: bytes, nonce: bytes, seeds: Seeds, hashes: Hashes) {
    && d == Description(Recipient, |encrypted|, hashes.sha512(encrypted), key, nonce,
                        if d.chunks == [] then 0 else d.chunks[0].chunkSize, Kept(h).fileName, h.fileExtra, d.chunks)
    && Tiles(Specs(d.chunks), |encrypted|) && Modest(Specs(d.chunks))
    && AllLead(files, routes, d.chunks, encrypted, address, seeds, hashes)
  }

  // -------------------------------------------------------------- download

  function Fetch(files: map<bytes, Stored>, routes: map<bytes, bytes>, address: string, hashes: Hashes,
                 c: Chunk): Result<bytes, TransferFault>
  {
    if c.replicas == [] then Err(BadDescription)
    else if c.replicas[0].server != address then Err(WrongServer)
    else
      var seed := SeedOf(c.replicas[0].replicaKey);
      if seed.None? then Err(BadKey)
      else
        var body := Body(files, routes, seed.value, c.replicas[0].replicaId);
        if body.None? then Err(CommandFailed)
        else if hashes.sha256(body.value) != c.digest then Err(DigestMismatch)
        else if |body.value| != c.chunkSize then Err(SizeMismatch)
        else Ok(body.value)
  }

  function FetchAll(files: map<bytes, Stored>, routes: map<bytes, bytes>, address: string, hashes: Hashes,
                    chunks: seq<Chunk>): Result<bytes, TransferFault>
  {
    if chunks == [] then Ok([])
    else
      var front := FetchAll(files, routes, address, hashes, chunks[..|chunks| - 1]);
      var last := Fetch(files, routes, address, hashes, chunks[|chunks| - 1]);
      if front.Err? then front else if last.Err? then last else Ok(front.value + last.value)
  }

  function Finish(u: Utf8, suite: Suite, d: Description, encrypted: bytes): Result<(Header, bytes), TransferFault>
    requires suite.cipher(d.key, d.nonce).Valid()
  {
    if |encrypted| != d.size then Err(SizeMismatch)
    else
      match OpenFile(u, suite.cipher(d.key, d.nonce), suite.hashes.sha512, encrypted, d.size, d.digest)
      case Ok(v) => Ok(v)
      case Err(e) => Err(NotSealed(e))
  }

  /** What a download gives when the server answers every FGET. */
  ghost function Download(files: map<bytes, Stored>, routes: map<bytes, bytes>, address: string, u: Utf8, suite: Suite,
                          addressOk: string -> bool, description: Description): Result<(Header, bytes), TransferFault>
    requires suite.Valid()
  {
    match Normalize(u, addressOk, description)
    case None => Err(BadDescription)
    case Some(d) =>
      if d.party != Recipient then Err(BadDescription)
      else
        var all := FetchAll(files, routes, address, suite.hashes, ByNumber(d.chunks));
        if all.Err? then Err(all.error) else Finish(u, suite, d, all.value)
  }

  method DownloadXftpWebFile(server: XftpServer, u: Utf8, suite: Suite, addressOk: string -> bool,
                             description: Description)
    returns (r: Result<(Header, bytes), TransferFault>)
    requires suite.Valid()
    modifies server`clock
    ensures var expected := Download(server.files, server.routes, server.s.address, u, suite, addressOk, description);
            && (r.Ok? ==> r == expected)
            && ((forall t :: server.s.getFate(t) == Served) ==> r == expected)
  {
    var normalized := Normalize(u, addressOk, description);
    if normalized.None? { return Err(BadDescription); }
    var d := normalized.value;
    if d.party != Recipient { return Err(BadDescription); }
    var all := FetchChunks(server, suite.hashes, ByNumber(d.chunks));
    if all.Err? { return Err(all.error); }
    return Finish(u, suite, d, all.value);
  }

  /** The chunk loop of downloadXftpWebFile. */
  method FetchChunks(server: XftpServer, hashes: Hashes, chunks: seq<Chunk>) returns (r: Result<bytes, TransferFault>)
    modifies server`clock
    ensures var expected := FetchAll(server.files, server.routes, server.s.address, hashes, chunks);
            && (r.Ok? ==> r == expected)
            && ((forall t :: server.s.getFate(t) == Served) ==> r == expected)
  {
    hide Fetch, SeedOf, Body;
    var encrypted: bytes := [];
    ghost var address := server.s.address;
    var i := 0;
    while i < |chunks|
      invariant i <= |chunks|
      invariant FetchAll(server.files, server.routes, address, hashes, chunks[..i]) == Ok(encrypted)
    {
      assert chunks[..i + 1][..i] == chunks[..i];
      var one := FetchChunk(server, hashes, chunks[i]);
      if one.Err? {
        if forall t :: server.s.getFate(t) == Served {
          FetchFails(server.files, server.routes, address, hashes, chunks, i);
        }
        return Err(one.error);
      }
      encrypted := encrypted + one.value;
      i := i + 1;
    }
    assert chunks[..|chunks|] == chunks;
    return Ok(encrypted);
  }

  method FetchChunk(server: XftpServer, hashes: Hashes, c: Chunk) returns (r: Result<bytes, TransferFault>)
    modifies server`clock
    ensures var expected := Fetch(server.files, server.routes, server.s.address, hashes, c);
            && (r.Ok? ==> r == expected)
            && ((forall t :: server.s.getFate(t) == Served) ==> r == expected)
  {
    if c.replicas == [] { return Err(BadDescription); }
    var replica := c.replicas[0];
    if replica.server != server.s.address { return Err(WrongServer); }
    var seed := SeedOf(replica.replicaKey);
    if seed.None? { return Err(BadKey); }
    var body := server.Fget(seed.value, replica.replicaId);
    if body.None? { return Err(CommandFailed); }
    if hashes.sha256(body.value) != c.digest { return Err(DigestMismatch); }
    if |body.value| != c.chunkSize { return Err(SizeMismatch); }
    return Ok(body.value);
  }

  /** The first chunk that fails decides the error. */
  lemma {:induction false} FetchFails(files: map<bytes, Stored>, routes: map<bytes, bytes>, address: string,
                                      hashes: Hashes, chunks: seq<Chunk>, i: nat)
    requires i < |chunks| && FetchAll(files, routes, address, hashes, chunks[..i]).Ok?
    requires Fetch(files, routes, address, hashes, chunks[i]).Err?
    ensures FetchAll(files, routes, address, hashes, chunks) == Err(Fetch(files, routes, address, hashes, chunks[i]).error)
    decreases |chunks|
  {
    if i + 1 < |chunks| {
      var front := chunks[..|chunks| - 1];
      assert front[..i] == chunks[..i];
      FetchFails(files, routes, address, hashes, front, i);
    }
  }

  /** A chunk that leads to its slice is fetched as that slice. */
  lemma LeadsFetches(files: map<bytes, Stored>, routes: map<bytes, bytes>, c: Chunk, encrypted: bytes,
                     address: string, seeds: Seeds, hashes: Hashes, i: nat)
    requires seeds.Valid() && Leads(files, routes, c, encrypted, address, seeds, hashes, i)
    ensures Fetch(files, routes, address, hashes, c) == Ok(encrypted[c.offset..c.offset + c.chunkSize])
  {
  }

  lemma LeadPrefix(files: map<bytes, Stored>, routes: map<bytes, bytes>, chunks: seq<Chunk>, encrypted: bytes,
                   address: string, seeds: Seeds, hashes: Hashes)
    requires chunks != [] && AllLead(files, routes, chunks, encrypted, address, seeds, hashes)
    ensures AllLead(files, routes, chunks[..|chunks| - 1], encrypted, address, seeds, hashes)
    ensures Leads(files, routes, chunks[|chunks| - 1], encrypted, address, seeds, hashes, |chunks| - 1)
  {
  }

  lemma {:induction false} FetchesEnvelope(files: map<bytes, Stored>, routes: map<bytes, bytes>, chunks: seq<Chunk>,
                                           encrypted: bytes,
                                           total: nat, address: string, seeds: Seeds, hashes: Hashes)
    requires seeds.Valid() && total <= |encrypted|
    requires AllLead(files, routes, chunks, encrypted, address, seeds, hashes) && Tiles(Specs(chunks), total)
    ensures FetchAll(files, routes, address, hashes, chunks) == Ok(encrypted[..total])
    decreases |chunks|
  {
    hide Leads, AllLead, Fetch;
    if chunks != [] {
      var front, last := chunks[..|chunks| - 1], chunks[|chunks| - 1];
      assert Specs(front) == Specs(chunks)[..|front|];
      assert Specs(chunks)[|front|] == ChunkSpec(last.chunkNo, last.offset, last.chunkSize);
      LeadPrefix(files, routes, chunks, encrypted, address, seeds, hashes);
      assert Tiles(Specs(front), last.offset);
      FetchesEnvelope(files, routes, front, encrypted, last.offset, address, seeds, hashes);
      LeadsFetches(files, routes, last, encrypted, address, seeds, hashes, |front|);
      assert encrypted[..last.offset] + encrypted[last.offset..total] == encrypted[..total];
    }
  }

  lemma {:induction false} PlanTotal(specs: seq<ChunkSpec>, total: nat)
    requires Tiles(specs, total) && Modest(specs)
    ensures total <= 4 * MB * |specs|
    decreases |specs|
  {
    if specs != [] {
      var front, last := specs[..|specs| - 1], specs[|specs| - 1];
      assert Tiles(front, last.offset);
      PlanTotal(front, last.offset);
    }
  }

  lemma DescriptionAccepted(u: Utf8, suite: Suite, addressOk: string -> bool, files: map<bytes, Stored>,
                            routes: map<bytes, bytes>,
                            d: Description, h: Header, encrypted: bytes, address: string,
                            key: bytes, nonce: bytes, seeds: Seeds)
    requires suite.Valid() && seeds.Valid() && addressOk(address) && |key| == 32 && |nonce| == 24
    requires Describes(files, routes, d, h, encrypted, address, key, nonce, seeds, suite.hashes)
    requires EncodeHeader(u, h).Ok? && 1 <= |d.chunks| <= MAX_CHUNKS
    ensures Normalize(u, addressOk, d) == Some(d) && ByNumber(d.chunks) == d.chunks
  {
    hide Leads, AllLead, ChunkOk, SafeName, EncodeHeader, ByNumber, Modest, Normalize, Tiles, Specs, KeyDer;
    PlanTotal(Specs(d.chunks), |encrypted|);
    FirstModest(d.chunks);
    KeptIsSafe(u, h);
    forall i | 0 <= i < |d.chunks| ensures ChunkOk(addressOk, d.chunks[i]) && d.chunks[i].chunkNo == i + 1 {
      LeadsAccepted(files, routes, addressOk, d.chunks, encrypted, address, seeds, suite.hashes, i);
    }
    NumberedIsSorted(d.chunks);
    NormalAlready(u, addressOk, d);
  }

  lemma FirstModest(chunks: seq<Chunk>)
    requires chunks != [] && Modest(Specs(chunks))
    ensures |Specs(chunks)| == |chunks| && 1 <= chunks[0].chunkSize <= MAX_WORD32
  {
    assert Specs(chunks)[0].chunkSize == chunks[0].chunkSize;
  }

  lemma LeadsAccepted(files: map<bytes, Stored>, routes: map<bytes, bytes>, addressOk: string -> bool,
                      chunks: seq<Chunk>, encrypted: bytes,
                      address: string, seeds: Seeds, hashes: Hashes, i: nat)
    requires seeds.Valid() && hashes.Valid() && addressOk(address) && i < |chunks| <= MAX_CHUNKS
    requires AllLead(files, routes, chunks, encrypted, address, seeds, hashes)
    requires Tiles(Specs(chunks), |encrypted|) && Modest(Specs(chunks)) && |encrypted| <= MAX_SAFE
    ensures ChunkOk(addressOk, chunks[i]) && chunks[i].chunkNo == i + 1
  {
    var specs, c := Specs(chunks), chunks[i];
    assert Leads(files, routes, c, encrypted, address, seeds, hashes, i);
    assert specs[i] == ChunkSpec(c.chunkNo, c.offset, c.chunkSize);
    SpecInside(specs, |encrypted|, i);
    assert ReplicaOk(addressOk, c.replicas[0]);
  }

  /** Downloading the recipient description of an upload gives back its header and
      content, for every file of at most MAX_CHUNKS chunks. */
  lemma DownloadInvertsUpload(u: Utf8, suite: Suite, addressOk: string -> bool, files: map<bytes, Stored>,
                              routes: map<bytes, bytes>,
                              h: Header, content: bytes, up: Uploaded, address: string,
                              key: bytes, nonce: bytes, seeds: Seeds)
    requires u.Valid() && suite.Valid() && seeds.Valid() && addressOk(address) && |key| == 32 && |nonce| == 24
    requires SealFile(u, suite.cipher(key, nonce), h, content) == Ok(up.encrypted)
    requires Describes(files, routes, up.recipient, h, up.encrypted, address, key, nonce, seeds, suite.hashes)
    requires |up.recipient.chunks| <= MAX_CHUNKS
    ensures Download(files, routes, address, u, suite, addressOk, up.recipient) == Ok((Kept(h), content))
  {
    var d := up.recipient;
    OpenInvertsSealFile(u, suite.cipher(key, nonce), suite.hashes.sha512, h, content);
    TailIsSameBox(suite.cipher(key, nonce), ClearEnvelope(EncodeHeader(u, h).value + content));
    DescriptionAccepted(u, suite, addressOk, files, routes, d, h, up.encrypted, address, key, nonce, seeds);
    FetchesEnvelope(files, routes, d.chunks, up.encrypted, |up.encrypted|, address, seeds, suite.hashes);
    assert up.encrypted[..|up.encrypted|] == up.encrypted;
  }
}
