/** Bytes and the fixed-width, length-prefixed and padded encodings every wire format
    of the repository is built from (src/browser-smp-core.mjs). */
module Bytes {
  import opened Outcomes

  type byte = b: int | 0 <= b < 0x100
  type bytes = seq<byte>

  const SPACE: byte := 0x20
  const PADDING: byte := 0x23            // '#'
  const T: byte := 0x54                  // flags and Maybe tags are ASCII letters and digits
  const F: byte := 0x46
  const ZERO: byte := 0x30
  const ONE: byte := 0x31
  const M: byte := 0x4d
  const MAX_SAFE: nat := 0x1f_ffff_ffff_ffff
  const BLOCK_SIZE: nat := 16384

  datatype Fault =
    | Truncated | Syntax | Range | Length | BadBool | BadMaybe | BadMode | UnknownTag | LargeMessage | BadBlock
    | DecryptFailed | BadPadding

  // ------------------------------------------------------------------- XOR

  function Pow2(k: nat): (p: nat)
    ensures p >= 1
  {
    if k == 0 then 1 else 2 * Pow2(k - 1)
  }

  lemma DoubleSplits(bit: nat, high: nat)
    requires bit < 2
    ensures (bit + 2 * high) % 2 == bit && (bit + 2 * high) / 2 == high
  {
  }

  /** XOR of the lowest bits. */
  function XorBit(a: nat, b: nat): (r: nat)
    ensures r < 2
  {
    if a % 2 == b % 2 then 0 else 1
  }

  /** XOR of the low k bits. */
  function XorBits(a: nat, b: nat, k: nat): (r: nat)
    ensures r < Pow2(k)
  {
    if k == 0 then 0 else XorBit(a, b) + 2 * XorBits(a / 2, b / 2, k - 1)
  }

  lemma XorBitTwice(a: nat, b: nat, x: nat)
    requires x % 2 == XorBit(a, b)
    ensures XorBit(x, b) == a % 2
  {
  }

  lemma {:induction false} XorBitsTwice(a: nat, b: nat, k: nat)
    requires a < Pow2(k)
    ensures XorBits(XorBits(a, b, k), b, k) == a
  {
    if k > 0 {
      var high := XorBits(a / 2, b / 2, k - 1);
      DoubleSplits(XorBit(a, b), high);
      XorBitTwice(a, b, XorBits(a, b, k));
      XorBitsTwice(a / 2, b / 2, k - 1);
      hide XorBit;
    }
  }

  lemma Pow2Of8()
    ensures Pow2(8) == 0x100
  {
  }

  function Xor(a: byte, b: byte): byte {
    Pow2Of8();
    XorBits(a, b, 8)
  }

  lemma XorTwice(a: byte, b: byte)
    ensures Xor(Xor(a, b), b) == a
  {
    Pow2Of8();
    XorBitsTwice(a, b, 8);
  }

  lemma {:induction false} XorBitsAt(a: nat, b: nat, k: nat, i: nat)
    requires i < k
    ensures XorBits(a, b, k) / Pow2(i) % 2 == 1 <==> a / Pow2(i) % 2 != b / Pow2(i) % 2
  {
    var high := XorBits(a / 2, b / 2, k - 1);
    DoubleSplits(XorBit(a, b), high);
    if i > 0 {
      XorBitsAt(a / 2, b / 2, k - 1, i - 1);
      HalfFirst(a, Pow2(i - 1));
      HalfFirst(b, Pow2(i - 1));
      HalfFirst(XorBits(a, b, k), Pow2(i - 1));
    }
  }

  lemma HalfFirst(a: nat, p: nat)
    requires p > 0
    ensures a / (2 * p) == a / 2 / p
  {
    var h, q := a / 2, a / 2 / p;
    var r := h - q * p;
    assert h == q * p + r && 0 <= r < p by { DivRest(h, p); }
    assert a == 2 * h + a % 2;
    var rest := 2 * r + a % 2;
    assert a == q * (2 * p) + rest && 0 <= rest < 2 * p;
    DivOf(a, q, 2 * p, rest);
  }

  lemma DivRest(h: nat, p: nat)
    requires p > 0
    ensures var r := h - h / p * p; 0 <= r < p
  {
  }

  lemma DivOf(a: nat, q: nat, p: nat, r: nat)
    requires p > 0 && a == q * p + r && r < p
    ensures a / p == q
  {
    DivRest(a, p);
    var q' := a / p;
    TimesGrows(q' + 1, q, p);
    TimesGrows(q + 1, q', p);
  }

  lemma TimesGrows(x: nat, y: nat, p: nat)
    ensures x <= y ==> x * p <= y * p
  {
  }

  /** A bit of the XOR is set exactly where the two bytes differ. */
  lemma XorAt(a: byte, b: byte, i: nat)
    requires i < 8
    ensures Xor(a, b) / Pow2(i) % 2 == 1 <==> a / Pow2(i) % 2 != b / Pow2(i) % 2
  {
    XorBitsAt(a, b, 8, i);
  }

  // ------------------------------------------------------------ word codecs

  function EncodeWord16(n: nat): (r: bytes)
    requires n <= 0xffff
    ensures |r| == 2
  {
    [n / 0x100, n % 0x100]
  }

  function DecodeWord16(b: bytes): nat
    requires |b| >= 2
  {
    b[0] as int * 0x100 + b[1]
  }

  /** Big-endian in k bytes: the value wraps at 2^(8k), as a shift out of a fixed width does. */
  function BigEndian(n: nat, k: nat): (r: bytes)
    ensures |r| == k
  {
    if k == 0 then [] else BigEndian(n / 0x100, k - 1) + [n % 0x100]
  }

  function FromBigEndian(b: bytes): nat {
    if b == [] then 0 else FromBigEndian(b[..|b| - 1]) * 0x100 + b[|b| - 1]
  }

  function Pow256(k: nat): (p: nat)
    ensures p >= 1
  {
    if k == 0 then 1 else 0x100 * Pow256(k - 1)
  }

  lemma {:induction false} BigEndianInverts(n: nat, k: nat)
    requires n < Pow256(k)
    ensures FromBigEndian(BigEndian(n, k)) == n
  {
    if k > 0 {
      BigEndianInverts(n / 0x100, k - 1);
      assert BigEndian(n, k)[..k - 1] == BigEndian(n / 0x100, k - 1);
    }
  }

  /** The shift loop of encodeWord64, filling the buffer from its last byte. */
  method EncodeWord64(value: nat) returns (r: Result<bytes, Fault>)
    ensures value < Pow256(8) ==> r == Ok(BigEndian(value, 8))
    ensures value >= Pow256(8) ==> r == Err(Range)
  {
    assert Pow256(8) == 0x1_0000_0000_0000_0000 by {
      assert Pow256(4) == 0x1_0000_0000;
      assert Pow256(6) == 0x1_0000_0000_0000;
    }
    if value > 0xffff_ffff_ffff_ffff { return Err(Range); }
    var out: array<byte> := new byte[8];
    var n, i := value, 8;
    ghost var full := BigEndian(value, 8);
    while i > 0
      invariant 0 <= i <= 8
      invariant full == BigEndian(n, i) + out[i..]
    {
      i := i - 1;
      out[i] := n % 0x100;
      n := n / 0x100;
      assert out[i..] == [out[i]] + out[i + 1..];
    }
    assert full == out[..];
    return Ok(out[..]);
  }

  method DecodeWord64(b: bytes) returns (n: nat)
    requires |b| == 8
    ensures n == FromBigEndian(b)
  {
    n := 0;
    for i := 0 to 8
      invariant n == FromBigEndian(b[..i])
    {
      n := n * 0x100 + b[i];
      assert b[..i + 1][..i] == b[..i];
    }
    assert b[..8] == b;
  }

  // ------------------------------------------------------ prefixed strings

  function EncodeSmall(b: bytes): Result<bytes, Fault> {
    if |b| > 255 then Err(Length) else Ok([|b|] + b)
  }

  function EncodeLarge(b: bytes): Result<bytes, Fault> {
    if |b| > 0xffff then Err(Length) else Ok(EncodeWord16(|b|) + b)
  }

  /** What a reader takes from the front, and what it leaves. */
  datatype Taken<T> = Taken(value: T, rest: bytes)

  function Cut(b: bytes, n: nat): Result<Taken<bytes>, Fault> {
    if n > |b| then Err(Truncated) else Ok(Taken(b[..n], b[n..]))
  }

  function CutByte(b: bytes): Result<Taken<byte>, Fault> {
    if b == [] then Err(Truncated) else Ok(Taken(b[0], b[1..]))
  }

  function CutSmall(b: bytes): Result<Taken<bytes>, Fault> {
    if b == [] then Err(Truncated) else Cut(b[1..], b[0])
  }

  function CutLarge(b: bytes): Result<Taken<bytes>, Fault> {
    if |b| < 2 then Err(Truncated) else Cut(b[2..], DecodeWord16(b))
  }

  /** Strings behind their length, exactly: what is encoded, and what is read. */
  lemma SmallExactly(x: bytes, rest: bytes, b: bytes)
    ensures EncodeSmall(x) == Ok(b) <==> |x| <= 255 && b == [|x|] + x
    ensures CutSmall(b) == Ok(Taken(x, rest)) <==> |x| <= 255 && b == [|x|] + x + rest
  {
    if b != [] && b[0] as int <= |b| - 1 { assert b == [b[0]] + b[1..][..b[0]] + b[1..][b[0]..]; }
    if |x| <= 255 && b == [|x|] + x + rest { assert b[1..][..|x|] == x && b[1..][|x|..] == rest; }
  }

  lemma LargeExactly(x: bytes, rest: bytes, b: bytes)
    ensures EncodeLarge(x) == Ok(b) <==> |x| <= 65535 && b == [|x| / 256, |x| % 256] + x
    ensures CutLarge(b) == Ok(Taken(x, rest)) <==> |x| <= 65535 && b == [|x| / 256, |x| % 256] + x + rest
  {
    if |b| >= 2 && DecodeWord16(b) <= |b| - 2 {
      var n := DecodeWord16(b);
      assert b == [b[0], b[1]] + b[2..][..n] + b[2..][n..] && b[0] as int == n / 256 && b[1] as int == n % 256;
    }
    if |x| <= 65535 && b == [|x| / 256, |x| % 256] + x + rest {
      assert DecodeWord16(b) == |x| && b[2..][..|x|] == x && b[2..][|x|..] == rest;
    }
  }

  /** How many bytes stand before the first space. */
  function ToSpace(b: bytes): (n: nat)
    ensures n <= |b| && (n < |b| ==> b[n] == SPACE) && forall i :: 0 <= i < n ==> b[i] != SPACE
  {
    if b == [] || b[0] == SPACE then 0 else 1 + ToSpace(b[1..])
  }

  lemma ToSpaceIs(b: bytes, n: nat)
    requires n <= |b| && (n < |b| ==> b[n] == SPACE) && forall i :: 0 <= i < n ==> b[i] != SPACE
    ensures ToSpace(b) == n
  {
  }

  lemma SmallInverts(b: bytes, rest: bytes)
    requires |b| <= 255
    ensures CutSmall([|b|] + b + rest) == Ok(Taken(b, rest))
  {
    var all: bytes := [|b|] + b + rest;
    assert all[1..] == b + rest;
    assert (b + rest)[..|b|] == b && (b + rest)[|b|..] == rest;
  }

  lemma LargeInverts(b: bytes, rest: bytes)
    requires |b| <= 0xffff
    ensures CutLarge(EncodeWord16(|b|) + b + rest) == Ok(Taken(b, rest))
  {
    var all := EncodeWord16(|b|) + b + rest;
    assert all[2..] == b + rest;
    assert (b + rest)[..|b|] == b && (b + rest)[|b|..] == rest;
  }

  /** The cursor over one buffer: the fields and steps of the source's ByteReader.
      `Rest` is what has not been read. */
  class ByteReader {
    const data: bytes
    var offset: nat

    ghost predicate Valid()
      reads this
    {
      offset <= |data|
    }

    function Rest(): bytes
      reads this
      requires Valid()
    {
      data[offset..]
    }

    constructor (b: bytes)
      ensures Valid() && Rest() == b && data == b
    {
      data := b;
      offset := 0;
    }

    method Take(n: nat) returns (r: Result<bytes, Fault>)
      requires Valid()
      modifies this
      ensures Valid()
      ensures match Cut(old(Rest()), n)
              case Ok(t) => r == Ok(t.value) && Rest() == t.rest
              case Err(e) => r == Err(e) && Rest() == old(Rest())
    {
      if offset + n > |data| { return Err(Truncated); }
      assert data[offset..][..n] == data[offset..offset + n] && data[offset..][n..] == data[offset + n..];
      r := Ok(data[offset..offset + n]);
      offset := offset + n;
    }

    method TakeByte() returns (r: Result<byte, Fault>)
      requires Valid()
      modifies this
      ensures Valid()
      ensures match CutByte(old(Rest()))
              case Ok(t) => r == Ok(t.value) && Rest() == t.rest
              case Err(e) => r == Err(e) && Rest() == old(Rest())
    {
      if offset >= |data| { return Err(Truncated); }
      r := Ok(data[offset]);
      offset := offset + 1;
    }

    method TakeSmall() returns (r: Result<bytes, Fault>)
      requires Valid()
      modifies this
      ensures Valid()
      ensures match CutSmall(old(Rest()))
              case Ok(t) => r == Ok(t.value) && Rest() == t.rest
              case Err(e) => r == Err(e)
    {
      var length := TakeByte();
      if length.Err? { return Err(length.error); }
      r := Take(length.value);
    }

    method TakeLarge() returns (r: Result<bytes, Fault>)
      requires Valid()
      modifies this
      ensures Valid()
      ensures match CutLarge(old(Rest()))
              case Ok(t) => r == Ok(t.value) && Rest() == t.rest
              case Err(e) => r == Err(e)
    {
      var length := Take(2);
      if length.Err? { return Err(length.error); }
      r := Take(DecodeWord16(length.value));
    }
  }

  // ------------------------------------------------------- padded blocks

  function Repeat(b: byte, n: nat): bytes {
    seq(n, _ => b)
  }

  const NONCE: nat := 24

  /** The nonce of a message id: longer ids are cut, shorter ones filled with zeros. */
  function IdNonce(id: bytes): (n: bytes)
    ensures |n| == NONCE
  {
    if |id| >= NONCE then id[..NONCE] else id + Repeat(0, NONCE - |id|)
  }

  lemma IdNonceForm(id: bytes, i: nat)
    requires i < 24
    ensures |IdNonce(id)| == 24 && IdNonce(id)[i] == if i < |id| then id[i] else 0
  {
    var fill := Repeat(0, if |id| < 24 then 24 - |id| else 0);
    assert forall k :: 0 <= k < |fill| ==> fill[k] == 0;
  }

  function Pad(payload: bytes, size: nat): Result<bytes, Fault> {
    if size < 2 || size > 0xffff then Err(Range)
    else if |payload| + 2 > size then Err(LargeMessage)
    else Ok(EncodeWord16(|payload|) + payload + Repeat(PADDING, size - 2 - |payload|))
  }

  predicate AllPadding(b: bytes) {
    forall i :: 0 <= i < |b| ==> b[i] == PADDING
  }

  /** unpadMessage: the length inside decides; the caller does not fix the size. */
  function UnpadMessage(b: bytes): Result<bytes, Fault> {
    if |b| < 2 then Err(BadBlock)
    else if DecodeWord16(b) > |b| - 2 then Err(BadBlock)
    else if !AllPadding(b[2 + DecodeWord16(b)..]) then Err(BadBlock)
    else Ok(b[2..2 + DecodeWord16(b)])
  }

  function UnpadBlock(b: bytes, size: nat): Result<bytes, Fault> {
    if size < 2 || size > 0xffff then Err(Range)
    else if |b| != size then Err(BadBlock)
    else UnpadMessage(b)
  }

  method PadBlock(payload: bytes, size: nat) returns (r: Result<bytes, Fault>)
    ensures r == Pad(payload, size)
  {
    if size < 2 || size > 0xffff { return Err(Range); }
    if size < |payload| + 2 { return Err(LargeMessage); }
    var out: array<byte> := new byte[size](_ => 0);
    out[0], out[1] := |payload| / 0x100, |payload| % 0x100;
    forall i | 0 <= i < |payload| { out[2 + i] := payload[i]; }
    forall i | 2 + |payload| <= i < size { out[i] := PADDING; }
    assert out[..] == EncodeWord16(|payload|) + payload + Repeat(PADDING, size - 2 - |payload|);
    return Ok(out[..]);
  }

  method UnpadBlockLoop(b: bytes, size: nat) returns (r: Result<bytes, Fault>)
    ensures r == UnpadBlock(b, size)
  {
    if size < 2 || size > 0xffff { return Err(Range); }
    if |b| != size { return Err(BadBlock); }
    var length := DecodeWord16(b);
    if length > |b| - 2 { return Err(BadBlock); }
    var i := 2 + length;
    while i < |b|
      invariant 2 + length <= i <= |b|
      invariant forall j :: 2 + length <= j < i ==> b[j] == PADDING
    {
      if b[i] != PADDING {
        assert b[2 + length..][i - 2 - length] == b[i];
        return Err(BadBlock);
      }
      i := i + 1;
    }
    return Ok(b[2..2 + length]);
  }

  lemma FilledForm(payload: bytes, fill: byte, size: nat, b: bytes)
    requires |payload| + 2 <= size <= 65535
    ensures b == EncodeWord16(|payload|) + payload + Repeat(fill, size - 2 - |payload|)
            <==> && |b| == size && b[0] as int * 256 + b[1] == |payload| && b[2..2 + |payload|] == payload
                 && forall i :: 2 + |payload| <= i < size ==> b[i] == fill
  {
    var head, tail := EncodeWord16(|payload|), Repeat(fill, size - 2 - |payload|);
    if b == head + payload + tail {
      assert forall i :: 2 + |payload| <= i < size ==> b[i] == tail[i - 2 - |payload|];
    }
    if |b| == size && b[0] as int * 256 + b[1] == |payload| && b[2..2 + |payload|] == payload
       && forall i :: 2 + |payload| <= i < size ==> b[i] == fill {
      assert b[..2] == head && b[2 + |payload|..] == tail;
      assert b == b[..2] + b[2..2 + |payload|] + b[2 + |payload|..];
    }
  }

  /** A padded block: the length, high byte first, the payload, and '#' up to the size. */
  lemma PadForm(payload: bytes, size: nat, b: bytes)
    ensures Pad(payload, size) == Ok(b)
            <==> && |payload| + 2 <= size == |b| <= 65535
                 && b[0] as int * 256 + b[1] == |payload| && b[2..2 + |payload|] == payload
                 && forall i :: 2 + |payload| <= i < size ==> b[i] == 35
  {
    if |payload| + 2 <= size <= 65535 { FilledForm(payload, PADDING, size, b); }
  }

  lemma UnpadInverts(payload: bytes, size: nat)
    requires Pad(payload, size).Ok?
    ensures |Pad(payload, size).value| == size
    ensures UnpadBlock(Pad(payload, size).value, size) == Ok(payload)
    ensures UnpadMessage(Pad(payload, size).value) == Ok(payload)
  {
  }

  /** An accepted block is the only block its payload pads to. */
  lemma PadInverts(b: bytes, size: nat)
    requires UnpadBlock(b, size).Ok?
    ensures Pad(UnpadBlock(b, size).value, size) == Ok(b)
  {
    var payload := UnpadBlock(b, size).value;
    assert b[..2] == EncodeWord16(|payload|);
    assert b[2 + |payload|..] == Repeat(PADDING, size - 2 - |payload|);
    assert b == b[..2] + b[2..2 + |payload|] + b[2 + |payload|..];
  }
}
