/** Chunk plan of an XFTP web file (src/browser-xftp-web-client.mjs). */
module XftpPlan {
  const KB: nat := 1024
  const MB: nat := 1024 * 1024

  datatype Bands = Bands(small: nat, big: nat)

  function ThreeQuarter(n: nat): nat {
    n * 3 / 4
  }

  function ChooseBands(payload: nat): Bands {
    if payload > ThreeQuarter(4 * MB) then Bands(MB, 4 * MB)
    else if payload > ThreeQuarter(MB) then Bands(256 * KB, MB)
    else Bands(64 * KB, 256 * KB)
  }

  function Copies(n: nat, count: nat): seq<nat> {
    seq(count, _ => n)
  }

  function SizeList(size: nat, bands: Bands): seq<nat>
    requires 0 < bands.small && 0 < bands.big
    decreases size
  {
    if size == 0 then []
    else if size >= bands.big then Copies(bands.big, size / bands.big) + SizeList(size % bands.big, bands)
    else if size > ThreeQuarter(bands.big) then [bands.big]
    else Copies(bands.small, size / bands.small + (if size % bands.small == 0 then 0 else 1))
  }

  function ChunkSizes(payload: nat): seq<nat> {
    SizeList(payload, ChooseBands(payload))
  }

  datatype ChunkSpec = ChunkSpec(chunkNo: nat, offset: nat, chunkSize: nat)

  function Sum(sizes: seq<nat>): nat {
    if sizes == [] then 0 else Sum(sizes[..|sizes| - 1]) + sizes[|sizes| - 1]
  }

  lemma {:induction false} SumConcat(a: seq<nat>, b: seq<nat>)
    ensures Sum(a + b) == Sum(a) + Sum(b)
  {
    if b == [] {
      assert a + b == a;
    } else {
      assert (a + b)[..|a + b| - 1] == a + b[..|b| - 1];
      SumConcat(a, b[..|b| - 1]);
    }
  }

  lemma {:induction false} SumCopies(n: nat, count: nat)
    ensures Sum(Copies(n, count)) == n * count
  {
    if count > 0 {
      assert Copies(n, count)[..count - 1] == Copies(n, count - 1);
      SumCopies(n, count - 1);
    }
  }

  function CountOf(sizes: seq<nat>, n: nat): nat {
    multiset(sizes)[n]
  }

  lemma {:induction false} CountCopies(n: nat, count: nat, m: nat)
    ensures CountOf(Copies(n, count), m) == if m == n then count else 0
  {
    if count > 0 {
      assert Copies(n, count) == Copies(n, count - 1) + [n];
      CountCopies(n, count - 1, m);
    }
  }

  predicate NonIncreasing(s: seq<nat>) {
    forall i, j :: 0 <= i < j < |s| ==> s[i] >= s[j]
  }

  /** Arithmetic is done for one small size at a time, so that it stays linear. */
  predicate Known(bands: Bands) {
    bands == Bands(64 * KB, 256 * KB) || bands == Bands(256 * KB, MB) || bands == Bands(MB, 4 * MB)
  }

  predicate Covers(sizes: seq<nat>, size: nat, bands: Bands)
    requires bands.small > 0
  {
    && Sum(sizes) % bands.small == 0 && size <= Sum(sizes) < size + bands.small
    && NonIncreasing(sizes) && (forall i :: 0 <= i < |sizes| ==> sizes[i] == bands.small || sizes[i] == bands.big)
    && CountOf(sizes, bands.small) <= 3
  }

  lemma SmallCount(size: nat, small: nat, count: nat)
    requires small == 64 * KB || small == 256 * KB || small == MB
    requires count == size / small + (if size % small == 0 then 0 else 1)
    ensures (small * count) % small == 0 && size <= small * count < size + small
    ensures size <= ThreeQuarter(4 * small) ==> count <= 3
  {
  }

  lemma BigArithmetic(size: nat, small: nat, tail: nat)
    requires small == 64 * KB || small == 256 * KB || small == MB
    requires tail % small == 0
    ensures var q := size / (4 * small);
            && size == 4 * small * q + size % (4 * small)
            && (4 * small * q + tail) % small == 0
            && (ThreeQuarter(4 * small) < size < 4 * small ==> (4 * small) % small == 0 && 4 * small < size + small)
  {
    var q := size / (4 * small);
    MultipleAdded(small, 4 * q, tail);
  }

  lemma MultipleAdded(small: nat, k: nat, tail: nat)
    requires small == 64 * KB || small == 256 * KB || small == MB
    requires tail % small == 0
    ensures (small * k + tail) % small == 0
  {
  }

  lemma SmallsCover(size: nat, bands: Bands)
    requires Known(bands) && 0 < size <= ThreeQuarter(bands.big)
    ensures Covers(Copies(bands.small, size / bands.small + (if size % bands.small == 0 then 0 else 1)), size, bands)
  {
    var small, count := bands.small, size / bands.small + (if size % bands.small == 0 then 0 else 1);
    SmallCount(size, small, count);
    SumCopies(small, count);
    CountCopies(small, count, small);
    hide Sum, ThreeQuarter;
  }

  lemma OneBigCovers(size: nat, bands: Bands)
    requires Known(bands) && ThreeQuarter(bands.big) < size < bands.big
    ensures Covers([bands.big], size, bands)
  {
    BigArithmetic(size, bands.small, 0);
    assert [bands.big][..0] == [];
    assert Sum([bands.big]) == bands.big;
  }

  /** The part of the plan below one big chunk. */
  lemma TailCovers(size: nat, bands: Bands)
    requires Known(bands) && size < bands.big
    ensures Covers(SizeList(size, bands), size, bands)
  {
    hide Covers, ThreeQuarter, Copies;
    if size == 0 {
      NothingCovers(bands);
    } else if size <= ThreeQuarter(bands.big) {
      SmallsCover(size, bands);
    } else {
      OneBigCovers(size, bands);
    }
  }

  lemma NothingCovers(bands: Bands)
    requires Known(bands)
    ensures Covers([], 0, bands)
  {
  }

  lemma BigFirst(q: nat, tail: seq<nat>, bands: Bands)
    requires bands.small <= bands.big && NonIncreasing(tail)
    requires forall i :: 0 <= i < |tail| ==> tail[i] == bands.small || tail[i] == bands.big
    ensures var s := Copies(bands.big, q) + tail;
            NonIncreasing(s) && forall i :: 0 <= i < |s| ==> s[i] == bands.small || s[i] == bands.big
  {
  }

  lemma SizeListCovers(size: nat, bands: Bands)
    requires Known(bands)
    ensures Covers(SizeList(size, bands), size, bands)
  {
    if size < bands.big {
      TailCovers(size, bands);
    } else {
      TailCovers(size % bands.big, bands);
      HeadCovers(size, bands, SizeList(size % bands.big, bands));
    }
  }

  /** Big chunks in front of a plan for the rest. */
  lemma HeadCovers(size: nat, bands: Bands, tail: seq<nat>)
    requires Known(bands) && Covers(tail, size % bands.big, bands)
    ensures Covers(Copies(bands.big, size / bands.big) + tail, size, bands)
  {
    var head := Copies(bands.big, size / bands.big);
    BigFirst(size / bands.big, tail, bands);
    HeadSum(size, bands, tail);
    CountCopies(bands.big, size / bands.big, bands.small);
    assert CountOf(head + tail, bands.small) == CountOf(head, bands.small) + CountOf(tail, bands.small);
    hide Sum, Copies, NonIncreasing, ThreeQuarter;
  }

  lemma HeadSum(size: nat, bands: Bands, tail: seq<nat>)
    requires Known(bands) && Sum(tail) % bands.small == 0
             && size % bands.big <= Sum(tail) < size % bands.big + bands.small
    ensures var s := Copies(bands.big, size / bands.big) + tail;
            Sum(s) % bands.small == 0 && size <= Sum(s) < size + bands.small
  {
    hide Sum, Copies, ThreeQuarter;
    SumCopies(bands.big, size / bands.big);
    SumConcat(Copies(bands.big, size / bands.big), tail);
    BigArithmetic(size, bands.small, Sum(tail));
  }

  /** The band is the smallest of the three whose payload fits in three big chunks, and the last
      one otherwise. The planned total is the least multiple of the band's small size that
      covers the payload; chunks do not grow, and at most three are small. */
  lemma PlanIsTight(payload: nat)
    ensures var s, small := ChunkSizes(payload), ChooseBands(payload).small;
            && small in [65536, 262144, 1048576]
            && (small < 1048576 ==> payload <= 12 * small) && (small > 65536 ==> payload > 3 * small)
            && Sum(s) % small == 0 && payload <= Sum(s) < payload + small
            && NonIncreasing(s) && CountOf(s, small) <= 3
            && (forall i :: 0 <= i < |s| ==> s[i] == small || s[i] == 4 * small)
  {
    SizeListCovers(payload, ChooseBands(payload));
  }

  /** A bigger payload never gets a smaller plan, also across the band limits. */
  lemma PlanMonotone(p: nat, q: nat)
    requires p <= q
    ensures Sum(ChunkSizes(p)) <= Sum(ChunkSizes(q))
  {
    hide ChunkSizes, Sum, NonIncreasing, CountOf;
    PlanIsTight(p);
    PlanIsTight(q);
  }

  /** Chunk i starts where the chunks before it end. */
  predicate Tiles(specs: seq<ChunkSpec>, total: nat) {
    && (forall i :: 0 <= i < |specs| ==> specs[i].chunkNo == i + 1)
    && (forall i :: 0 < i < |specs| ==> specs[i].offset == specs[i - 1].offset + specs[i - 1].chunkSize)
    && (if specs == [] then total == 0
        else specs[0].offset == 0 && total == specs[|specs| - 1].offset + specs[|specs| - 1].chunkSize)
  }

  lemma TilesAppend(specs: seq<ChunkSpec>, total: nat, size: nat)
    requires Tiles(specs, total)
    ensures Tiles(specs + [ChunkSpec(|specs| + 1, total, size)], total + size)
  {
  }

  lemma NoChunks()
    ensures Tiles([], 0) && Sum([]) == 0
  {
  }

  lemma SumNext(sizes: seq<nat>, i: nat)
    requires i < |sizes|
    ensures Sum(sizes[..i + 1]) == Sum(sizes[..i]) + sizes[i]
  {
    assert sizes[..i + 1][..i] == sizes[..i];
  }

  /** The running offset over the planned sizes. */
  method SpecsOf(sizes: seq<nat>) returns (specs: seq<ChunkSpec>)
    ensures Tiles(specs, Sum(sizes)) && |specs| == |sizes|
    ensures forall i :: 0 <= i < |specs| ==> specs[i].chunkSize == sizes[i]
  {
    hide Tiles, Sum;
    var offset := 0;
    specs := [];
    NoChunks();
    for index := 0 to |sizes|
      invariant Tiles(specs, offset) && offset == Sum(sizes[..index])
      invariant |specs| == index && forall i :: 0 <= i < index ==> specs[i].chunkSize == sizes[i]
    {
      TilesAppend(specs, offset, sizes[index]);
      specs := specs + [ChunkSpec(index + 1, offset, sizes[index])];
      offset := offset + sizes[index];
      SumNext(sizes, index);
    }
    assert sizes[..|sizes|] == sizes;
  }

  method ChunkSpecs(payload: nat) returns (specs: seq<ChunkSpec>)
    ensures Tiles(specs, Sum(ChunkSizes(payload)))
    ensures |specs| == |ChunkSizes(payload)| && forall i :: 0 <= i < |specs| ==>
        specs[i].chunkSize == ChunkSizes(payload)[i]
  {
    specs := SpecsOf(ChunkSizes(payload));
  }
}
