/** Unpadded base64url texts (src/browser-smp-core.mjs; section 5 of RFC 4648). */
module Base64 {
  import opened Bytes

  predicate UrlChar(c: char) {
    'A' <= c <= 'Z' || 'a' <= c <= 'z' || '0' <= c <= '9' || c == '-' || c == '_'
  }

  function Symbol(v: nat): (c: char)
    requires v < 64
    ensures UrlChar(c) && Value(c) == v
  {
    if v < 26 then 'A' + v as char
    else if v < 52 then 'a' + (v - 26) as char
    else if v < 62 then '0' + (v - 52) as char
    else if v == 62 then '-'
    else '_'
  }

  function Value(c: char): (v: nat)
    ensures v < 64
  {
    if 'A' <= c <= 'Z' then c as int - 'A' as int
    else if 'a' <= c <= 'z' then 26 + c as int - 'a' as int
    else if '0' <= c <= '9' then 52 + c as int - '0' as int
    else if c == '-' then 62
    else 63
  }

  /** encodeBase64Url: three bytes in four symbols, and no padding behind the rest. */
  function EncodeUrl(b: bytes): (s: string)
    ensures |s| == (4 * |b| + 2) / 3
    ensures forall i :: 0 <= i < |s| ==> UrlChar(s[i])
  {
    if |b| == 0 then ""
    else if |b| == 1 then [Symbol(b[0] / 4), Symbol(b[0] % 4 * 16)]
    else if |b| == 2 then [Symbol(b[0] / 4), Symbol(b[0] % 4 * 16 + b[1] / 16), Symbol(b[1] % 16 * 4)]
    else
      [Symbol(b[0] / 4), Symbol(b[0] % 4 * 16 + b[1] / 16), Symbol(b[1] % 16 * 4 + b[2] / 64), Symbol(b[2] % 64)]
      + EncodeUrl(b[3..])
  }

  /** The bytes that symbols stand for. */
  function ReadUrl(s: string): bytes {
    if |s| < 2 then []
    else
      var first := Value(s[0]) * 4 + Value(s[1]) / 16;
      if |s| == 2 then [first]
      else
        var second := Value(s[1]) % 16 * 16 + Value(s[2]) / 4;
        if |s| == 3 then [first, second]
        else [first, second, Value(s[2]) % 4 * 64 + Value(s[3])] + ReadUrl(s[4..])
  }

  lemma BitsMeet(x: byte, y: byte, z: byte)
    ensures x / 4 * 4 + (x % 4 * 16 + y / 16) / 16 == x
    ensures (x % 4 * 16 + y / 16) % 16 * 16 + (y % 16 * 4 + z / 64) / 4 == y
    ensures (y % 16 * 4 + z / 64) % 4 * 64 + z % 64 == z
  {
  }

  /** The bytes can be read off their text, so no two byte strings share one. */
  lemma {:induction false} ReadInverts(b: bytes)
    ensures ReadUrl(EncodeUrl(b)) == b
    decreases |b|
  {
    hide Symbol, Value, UrlChar;
    if |b| == 1 {
      BitsMeet(b[0], 0, 0);
    } else if |b| == 2 {
      BitsMeet(b[0], b[1], 0);
    } else if |b| >= 3 {
      BitsMeet(b[0], b[1], b[2]);
      ReadInverts(b[3..]);
      assert EncodeUrl(b)[4..] == EncodeUrl(b[3..]);
    }
  }

  /** A byte of the string, or zero behind its end. */
  function At(b: bytes, i: nat): byte {
    if i < |b| then b[i] else 0
  }

  /** Three bytes as one number. */
  function Word24(b: bytes, i: nat): nat {
    At(b, i) as int * 65536 + At(b, i + 1) as int * 256 + At(b, i + 2)
  }

  function Shift(j: nat): (n: nat)
    requires j < 4
    ensures n > 0
  {
    if j == 0 then 262144 else if j == 1 then 4096 else if j == 2 then 64 else 1
  }

  lemma Digits(a: nat, b: nat, c: nat, d: nat)
    requires a < 64 && b < 64 && c < 64 && d < 64
    ensures var w := a * 262144 + b * 4096 + c * 64 + d;
            w / 262144 % 64 == a && w / 4096 % 64 == b && w / 64 % 64 == c && w / 1 % 64 == d
  {
    var w := a * 262144 + b * 4096 + c * 64 + d;
    assert w / 4096 == a * 64 + b;
    assert w / 64 == (a * 64 + b) * 64 + c;
  }

  lemma SixBits(x: byte, y: byte, z: byte)
    ensures var w := x as int * 65536 + y as int * 256 + z;
            && w / 262144 % 64 == x / 4 && w / 4096 % 64 == x % 4 * 16 + y / 16
            && w / 64 % 64 == y % 16 * 4 + z / 64 && w / 1 % 64 == z % 64
  {
    var a: nat, p: nat, c: nat, q: nat, e: nat, f: nat := x / 4, x % 4, y / 16, y % 16, z / 64, z % 64;
    assert x == a * 4 + p && y == c * 16 + q && z == e * 64 + f;
    Digits(a, p * 16 + c, q * 4 + e, f);
  }

  lemma WordLater(b: bytes, i: nat)
    requires |b| > 3
    ensures Word24(b[3..], i) == Word24(b, i + 3)
  {
  }

  lemma FirstBits(b: bytes, k: nat)
    requires k < 4 && k < |EncodeUrl(b)|
    ensures EncodeUrl(b)[k] == Symbol(Word24(b, 0) / Shift(k) % 64)
  {
    hide Symbol, Value, UrlChar;
    var x, y, z := At(b, 0), At(b, 1), At(b, 2);
    SixBits(x, y, z);
    var w := Word24(b, 0);
    assert w == x as int * 65536 + y as int * 256 + z;
    assert EncodeUrl(b)[k] == Symbol(if k == 0 then x / 4 else if k == 1 then x % 4 * 16 + y / 16
                                     else if k == 2 then y % 16 * 4 + z / 64 else z % 64);
  }

  /** Each symbol stands for its six bits of the bytes, taken three at a time, high bits
      first; behind the last byte there are zeros. */
  lemma {:induction false} TextBits(b: bytes, k: nat)
    requires k < |EncodeUrl(b)|
    ensures EncodeUrl(b)[k] == Symbol(Word24(b, 3 * (k / 4)) / Shift(k % 4) % 64)
    decreases |b|
  {
    hide Symbol, Value, UrlChar;
    if |b| > 3 && k >= 4 {
      hide Word24, At, Shift;
      WordLater(b, 3 * ((k - 4) / 4));
      TextBits(b[3..], k - 4);
      assert EncodeUrl(b)[k] == EncodeUrl(b[3..])[k - 4];
      var i := 3 * ((k - 4) / 4);
      assert 3 * (k / 4) == i + 3 && k % 4 == (k - 4) % 4;
    } else {
      FirstBits(b, k);
    }
  }

  /** The order of the alphabet of section 5 of RFC 4648. */
  lemma Alphabet(v: nat)
    requires v < 64
    ensures Symbol(0) == 'A' && Symbol(26) == 'a' && Symbol(52) == '0' && Symbol(62) == '-' && Symbol(63) == '_'
    ensures v > 0 && v !in {26, 52, 62, 63} ==> Symbol(v) as int == Symbol(v - 1) as int + 1
  {
  }
}
