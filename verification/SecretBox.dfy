/** The XSalsa20-Poly1305 box of src/browser-smp-core.mjs and the tag-last form of
    src/browser-xftp-web-client.mjs.  The Salsa20 block function and Poly1305 for one
    key and nonce are parameters. */
module SecretBox {
  import opened Outcomes
  import opened Bytes

  datatype Cipher = Cipher(block: nat -> bytes, mac: (bytes, bytes) -> bytes) {
    ghost predicate Valid() {
      && (forall i :: |block(i)| == 64)
      && (forall key, text :: |mac(key, text)| == 16)
    }

    /** Byte i of the block stream. */
    function StreamByte(i: nat): byte
      requires Valid()
    {
      block(i / 64)[i % 64]
    }

    function AuthKey(): bytes
      requires Valid()
    {
      block(0)[..32]
    }

    /** The data XORed with the stream from its byte 32 on. */
    function Stream(data: bytes): bytes
      requires Valid()
    {
      seq(|data|, i requires 0 <= i < |data| => Xor(data[i], StreamByte(32 + i)))
    }

    function Tag(ciphertext: bytes): bytes
      requires Valid()
    {
      mac(AuthKey(), ciphertext)
    }

    function Seal(plaintext: bytes): bytes
      requires Valid()
    {
      Tag(Stream(plaintext)) + Stream(plaintext)
    }

    function Open(packet: bytes): Result<bytes, Fault>
      requires Valid()
    {
      if |packet| < 16 then Err(DecryptFailed)
      else if packet[..16] != Tag(packet[16..]) then Err(DecryptFailed)
      else Ok(Stream(packet[16..]))
    }

    function SealTail(plaintext: bytes): bytes
      requires Valid()
    {
      Stream(plaintext) + Tag(Stream(plaintext))
    }

    function OpenTail(packet: bytes): Result<bytes, Fault>
      requires Valid()
    {
      if |packet| < 16 then Err(DecryptFailed)
      else
        var text := packet[..|packet| - 16];
        if packet[|packet| - 16..] != Tag(text) then Err(DecryptFailed) else Ok(Stream(text))
    }
  }

  lemma CipherHolds()
    ensures exists c: Cipher :: c.Valid()
  {
    var c := Cipher(_ => Repeat(0, 64), (_, _) => Repeat(0, 16));
    assert c.Valid();
  }

  /** A box byte by byte: the tag under the first half of block 0, then the plaintext XORed
      with the stream behind it. */
  lemma SealForm(c: Cipher, plaintext: bytes, packet: bytes)
    requires c.Valid()
    ensures packet == c.Seal(plaintext)
            <==> && |packet| == |plaintext| + 16 && packet[..16] == c.mac(c.block(0)[..32], packet[16..])
                 && forall i :: 0 <= i < |plaintext| ==>
                      packet[16..][i] == Xor(plaintext[i], c.block((32 + i) / 64)[(32 + i) % 64])
  {
    hide Xor;
    var text := c.Stream(plaintext);
    if packet == c.Seal(plaintext) {
      assert packet[16..] == text && packet[..16] == c.Tag(text);
    }
    if |packet| == |plaintext| + 16 && packet[..16] == c.mac(c.block(0)[..32], packet[16..])
       && forall i :: 0 <= i < |plaintext| ==>
            packet[16..][i] == Xor(plaintext[i], c.block((32 + i) / 64)[(32 + i) % 64]) {
      assert packet[16..] == text;
      assert packet == packet[..16] + packet[16..];
    }
  }

  /** Half of block 0, then whole blocks 1, 2, ..., the last one cut short. */
  method XorLoop(c: Cipher, data: bytes) returns (r: bytes)
    requires c.Valid()
    ensures r == c.Stream(data)
  {
    hide Xor;
    var out: array<byte> := new byte[|data|](_ => 0);
    var firstBytes := c.block(0)[32..];
    var firstCount := if |data| < |firstBytes| then |data| else |firstBytes|;
    for i := 0 to firstCount
      invariant forall k :: 0 <= k < i ==> out[k] == Xor(data[k], c.StreamByte(32 + k))
    {
      out[i] := Xor(data[i], firstBytes[i]);
    }
    var offset, counter := firstCount, 1;
    while offset < |data|
      invariant firstCount <= offset <= |data|
      invariant offset < |data| ==> offset == 64 * counter - 32
      invariant forall k :: 0 <= k < offset ==> out[k] == Xor(data[k], c.StreamByte(32 + k))
    {
      var length := if |data| - offset < 64 then |data| - offset else 64;
      var stream := c.block(counter);
      for j := 0 to length
        invariant forall k :: 0 <= k < offset + j ==> out[k] == Xor(data[k], c.StreamByte(32 + k))
      {
        BlockPosition(counter, j);
        out[offset + j] := Xor(data[offset + j], stream[j]);
      }
      offset := offset + length;
      counter := counter + 1;
    }
    return out[..];
  }

  lemma BlockPosition(counter: nat, j: nat)
    requires j < 64
    ensures (64 * counter + j) / 64 == counter && (64 * counter + j) % 64 == j
  {
  }

  lemma StreamTwice(c: Cipher, data: bytes)
    requires c.Valid()
    ensures c.Stream(c.Stream(data)) == data
  {
    forall i | 0 <= i < |data| ensures c.Stream(c.Stream(data))[i] == data[i] {
      XorTwice(data[i], c.StreamByte(32 + i));
    }
  }

  /** Opening inverts sealing, and a packet opens only if it is the seal of what it opens to. */
  lemma OpenInvertsSeal(c: Cipher, plaintext: bytes, packet: bytes)
    requires c.Valid()
    ensures c.Open(packet) == Ok(plaintext) <==> packet == c.Seal(plaintext)
  {
    StreamTwice(c, plaintext);
    if packet == c.Seal(plaintext) {
      assert packet[16..] == c.Stream(plaintext);
    }
    if c.Open(packet) == Ok(plaintext) {
      StreamTwice(c, packet[16..]);
      assert packet == packet[..16] + packet[16..];
    }
  }

  /** The XFTP form is the same ciphertext and the same tag, the other way round. */
  lemma TailIsSameBox(c: Cipher, plaintext: bytes)
    requires c.Valid()
    ensures c.SealTail(plaintext) == c.Seal(plaintext)[16..] + c.Seal(plaintext)[..16]
    ensures |c.SealTail(plaintext)| == |plaintext| + 16
  {
  }

  lemma TailOpensExactly(c: Cipher, plaintext: bytes, packet: bytes)
    requires c.Valid()
    ensures c.OpenTail(packet) == Ok(plaintext) <==> packet == c.SealTail(plaintext)
  {
    StreamTwice(c, plaintext);
    if packet == c.SealTail(plaintext) {
      assert packet[..|packet| - 16] == c.Stream(plaintext);
    }
    if c.OpenTail(packet) == Ok(plaintext) {
      StreamTwice(c, packet[..|packet| - 16]);
      assert packet == packet[..|packet| - 16] + packet[|packet| - 16..];
    }
  }

  /** The two secretbox entry points pad first and unpad last. */
  function Encrypt(c: Cipher, plaintext: bytes, paddedLength: nat): Result<bytes, Fault>
    requires c.Valid()
  {
    var padded := Pad(plaintext, paddedLength);
    if padded.Err? then padded else Ok(c.Seal(padded.value))
  }

  function Decrypt(c: Cipher, packet: bytes): Result<bytes, Fault>
    requires c.Valid()
  {
    var padded := c.Open(packet);
    if padded.Err? then padded else UnpadMessage(padded.value)
  }

  /** A message is encrypted if and only if it fits its padding, and then comes back;
      the packet's length tells the padding only. */
  lemma DecryptInverts(c: Cipher, plaintext: bytes, paddedLength: nat)
    requires c.Valid()
    ensures var r := Encrypt(c, plaintext, paddedLength);
            && (r.Ok? <==> |plaintext| + 2 <= paddedLength <= 0xffff)
            && (r.Ok? ==> Decrypt(c, r.value) == Ok(plaintext) && |r.value| == paddedLength + 16)
  {
    var padded := Pad(plaintext, paddedLength);
    if padded.Ok? {
      UnpadInverts(plaintext, paddedLength);
      OpenInvertsSeal(c, padded.value, c.Seal(padded.value));
    }
  }
}
