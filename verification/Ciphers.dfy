/** The two body ciphers of internal/baichuan/crypto.go. */
module Ciphers {
  import opened Bytes
  import opened Bits

  // The BC cipher of the handshake

  const XML_KEY: bytes := [0x1f, 0x2d, 0x3c, 0x4b, 0x5a, 0x69, 0x78, 0xff]

  function BCByte(offset: u32, i: nat, c: byte): byte {
    Xor(Xor(c, XML_KEY[(offset % 8 + i) % 8]), (offset % 256) as byte)
  }

  function BC(offset: u32, b: bytes): (r: bytes)
    ensures |r| == |b|
  {
    seq(|b|, i requires 0 <= i < |b| => BCByte(offset, i, b[i]))
  }

  /** The same call encrypts and decrypts. */
  lemma {:induction false} BCInvolution(offset: u32, b: bytes)
    ensures BC(offset, BC(offset, b)) == b
  {
    hide Xor;
    var k := (offset % 256) as byte;
    forall i | 0 <= i < |b|
      ensures BC(offset, BC(offset, b))[i] == b[i]
    {
      var w := XML_KEY[(offset % 8 + i) % 8];
      XorMiddle(b[i], w, k);
    }
  }

  /** Each byte meets the key rotated by the offset, and the offset's low byte. */
  lemma BCAt(offset: u32, b: bytes, i: nat)
    requires i < |b|
    ensures BC(offset, b)[i] == Xor(b[i], Xor(XML_KEY[(offset + i) % 8], (offset % 256) as byte))
  {
    hide XorBits;
    var w, k := XML_KEY[(offset % 8 + i) % 8], (offset % 256) as byte;
    assert Pow2(8) == 0x100;
    XorBitsAssoc(b[i] as nat, w as nat, k as nat, 8);
    assert (offset % 8 + i) % 8 == (offset + i) % 8;
  }

  lemma XorMiddle(c: byte, w: byte, k: byte)
    ensures Xor(Xor(Xor(Xor(c, w), k), w), k) == c
  {
    hide Xor;
    var cw := Xor(c, w);
    XorSwap(cw, k, w);
    XorCancel(c, w);
    XorCancel(c, k);
  }

  lemma XorSwap(a: byte, b: byte, c: byte)
    ensures Xor(Xor(a, b), c) == Xor(Xor(a, c), b)
  {
    hide XorBits;
    assert Pow2(8) == 0x100;
    XorBitsAssoc(a as nat, b as nat, c as nat, 8);
    XorBitsComm(b as nat, c as nat, 8);
    XorBitsAssoc(a as nat, c as nat, b as nat, 8);
  }

  method BCCrypt(offset: u32, buf: bytes) returns (out: array<byte>)
    ensures fresh(out) && out[..] == BC(offset, buf)
  {
    hide Xor;
    out := new byte[|buf|](i => 0);
    var off, ob := offset % 8, (offset % 256) as byte;
    var i := 0;
    while i < |buf|
      invariant 0 <= i <= |buf|
      invariant forall j :: 0 <= j < i ==> out[j] == BCByte(offset, j, buf[j])
    {
      out[i] := Xor(Xor(buf[i], XML_KEY[(off + i) % 8]), ob);
      i := i + 1;
    }
  }

  // Cipher feedback over any block function, section 6.3 of NIST SP 800-38A

  const BLOCK := 16

  /** Byte i of what the block function makes of a register. */
  type BlockFunction = (bytes, nat) -> byte

  function Mask(e: BlockFunction, reg: bytes, b: bytes): (r: bytes)
    ensures |r| == |b|
  {
    seq(|b|, i requires 0 <= i < |b| => Xor(b[i], e(reg, i)))
  }

  function Encrypt(e: BlockFunction, reg: bytes, p: bytes): (c: bytes)
    ensures |c| == |p|
    decreases |p|
  {
    if |p| <= BLOCK then Mask(e, reg, p) else
    var c := Mask(e, reg, p[..BLOCK]);
    c + Encrypt(e, c, p[BLOCK..])
  }

  function Decrypt(e: BlockFunction, reg: bytes, c: bytes): (p: bytes)
    ensures |p| == |c|
    decreases |c|
  {
    if |c| <= BLOCK then Mask(e, reg, c) else Mask(e, reg, c[..BLOCK]) + Decrypt(e, c[..BLOCK], c[BLOCK..])
  }

  lemma {:induction false} MaskTwice(e: BlockFunction, reg: bytes, b: bytes)
    ensures Mask(e, reg, Mask(e, reg, b)) == b
  {
    hide Xor;
    forall i | 0 <= i < |b|
      ensures Mask(e, reg, Mask(e, reg, b))[i] == b[i]
    {
      XorCancel(b[i], e(reg, i));
    }
  }

  /** Decryption undoes encryption, whatever the block function and the length. */
  lemma {:induction false} DecryptEncrypt(e: BlockFunction, reg: bytes, p: bytes)
    ensures Decrypt(e, reg, Encrypt(e, reg, p)) == p
    decreases |p|
  {
    hide Mask;
    if |p| <= BLOCK {
      MaskTwice(e, reg, p);
    } else {
      var c, rest := Mask(e, reg, p[..BLOCK]), p[BLOCK..];
      var all := Encrypt(e, reg, p);
      assert all[..BLOCK] == c && all[BLOCK..] == Encrypt(e, c, rest);
      MaskTwice(e, reg, p[..BLOCK]);
      DecryptEncrypt(e, c, rest);
      assert p == p[..BLOCK] + rest;
    }
  }

  lemma {:induction false} EncryptDecrypt(e: BlockFunction, reg: bytes, c: bytes)
    ensures Encrypt(e, reg, Decrypt(e, reg, c)) == c
    decreases |c|
  {
    hide Mask;
    if |c| <= BLOCK {
      MaskTwice(e, reg, c);
    } else {
      var all := Decrypt(e, reg, c);
      assert all[..BLOCK] == Mask(e, reg, c[..BLOCK]) && all[BLOCK..] == Decrypt(e, c[..BLOCK], c[BLOCK..]);
      MaskTwice(e, reg, c[..BLOCK]);
      EncryptDecrypt(e, c[..BLOCK], c[BLOCK..]);
      assert c == c[..BLOCK] + c[BLOCK..];
    }
  }

  /** Decrypting a prefix gives a prefix, cut anywhere. */
  lemma {:induction false} DecryptPrefix(e: BlockFunction, reg: bytes, c: bytes, k: nat)
    requires k <= |c|
    ensures Decrypt(e, reg, c[..k]) == Decrypt(e, reg, c)[..k]
    decreases |c|
  {
    if |c| > BLOCK {
      if k <= BLOCK {
        assert c[..k] == c[..BLOCK][..k];
      } else {
        DecryptPrefix(e, c[..BLOCK], c[BLOCK..], k - BLOCK);
        assert c[..k][..BLOCK] == c[..BLOCK] && c[..k][BLOCK..] == c[BLOCK..][..k - BLOCK];
      }
    }
  }

  /** The register a byte is masked under: the initial one, then the ciphertext block before. */
  function Register(iv: bytes, c: bytes, block: nat): bytes
    requires BLOCK * block <= |c|
  {
    if block == 0 then iv else c[BLOCK * (block - 1)..BLOCK * block]
  }

  /** Encryption meets the standard's equation at every byte, in a partial last block too. */
  lemma {:induction false} EncryptAt(e: BlockFunction, iv: bytes, p: bytes, j: nat)
    requires j < |p|
    ensures var c := Encrypt(e, iv, p);
            c[j] == Xor(p[j], e(Register(iv, c, j / BLOCK), j % BLOCK))
    decreases |p|
  {
    hide Xor;
    if |p| > BLOCK && j >= BLOCK {
      var c, rest := Mask(e, iv, p[..BLOCK]), p[BLOCK..];
      var all, tail := Encrypt(e, iv, p), Encrypt(e, c, rest);
      EncryptAt(e, c, rest, j - BLOCK);
      var block := (j - BLOCK) / BLOCK;
      assert j / BLOCK == block + 1 && (j - BLOCK) % BLOCK == j % BLOCK;
      assert all == c + tail;
      assert Register(iv, all, block + 1) == Register(c, tail, block);
    }
  }
}
