/** Two-key triple DES in cipher block chaining mode (ultralight_3des.c), as Ultralight C uses it
    for its three-pass authentication. */
module TripleDes {
  import opened Words
  import Des
  import Fips46

  // ---------- one block ----------

  function Encrypted(key: seq<bv8>, block: seq<bv8>): (r: seq<bv8>)
    requires |key| == 16 && |block| == 8
    ensures |r| == 8
  { Des.EncryptBlock(key[..8], Des.DecryptBlock(key[8..], Des.EncryptBlock(key[..8], block))) }

  function Decrypted(key: seq<bv8>, block: seq<bv8>): (r: seq<bv8>)
    requires |key| == 16 && |block| == 8
    ensures |r| == 8
  { Des.DecryptBlock(key[..8], Des.EncryptBlock(key[8..], Des.DecryptBlock(key[..8], block))) }

  lemma DecryptedEncrypted(key: seq<bv8>, block: seq<bv8>)
    requires |key| == 16 && |block| == 8
    ensures Decrypted(key, Encrypted(key, block)) == block
  {
    hide Des.EncryptBlock, Des.DecryptBlock;
    var b1 := Des.EncryptBlock(key[..8], block);
    Des.DecryptEncrypt(key[..8], Des.DecryptBlock(key[8..], b1));
    Des.EncryptDecrypt(key[8..], b1);
    Des.DecryptEncrypt(key[..8], block);
  }

  lemma EncryptedDecrypted(key: seq<bv8>, block: seq<bv8>)
    requires |key| == 16 && |block| == 8
    ensures Encrypted(key, Decrypted(key, block)) == block
  {
    hide Des.EncryptBlock, Des.DecryptBlock;
    var b1 := Des.DecryptBlock(key[..8], block);
    Des.EncryptDecrypt(key[..8], Des.EncryptBlock(key[8..], b1));
    Des.DecryptEncrypt(key[8..], b1);
    Des.EncryptDecrypt(key[..8], block);
  }

  /** With both halves of the key equal, triple DES is DES. */
  lemma OneKeyIsDes(key: seq<bv8>, block: seq<bv8>)
    requires |key| == 8 && |block| == 8
    ensures Encrypted(key + key, block) == Des.EncryptBlock(key, block)
  {
    hide Des.EncryptBlock, Des.DecryptBlock;
    assert (key + key)[..8] == key && (key + key)[8..] == key;
    Des.DecryptEncrypt(key, block);
  }

  /** One block is encryption, decryption and encryption of FIPS 46-3, the outer two under the first
      key; and back. */
  lemma BlockAsStandard(key: seq<bv8>, block: seq<bv8>)
    requires |key| == 16 && |block| == 8
    ensures var k1, k2, b := Des.BlockOf(key[..8]), Des.BlockOf(key[8..]), Des.BlockOf(block);
            Encrypted(key, block) == Des.BlockBytes(Fips46.Encrypt(k1, Fips46.Decrypt(k2, Fips46.Encrypt(k1, b))))
    ensures var k1, k2, b := Des.BlockOf(key[..8]), Des.BlockOf(key[8..]), Des.BlockOf(block);
            Decrypted(key, block) == Des.BlockBytes(Fips46.Decrypt(k1, Fips46.Encrypt(k2, Fips46.Decrypt(k1, b))))
  {
    hide Des.EncryptBlock, Des.DecryptBlock, Des.BlockOf, Des.BlockBytes, Fips46.Encrypt, Fips46.Decrypt;
    var k1, k2 := key[..8], key[8..];
    var b := Des.BlockOf(block);
    var e1, d1 := Fips46.Encrypt(Des.BlockOf(k1), b), Fips46.Decrypt(Des.BlockOf(k1), b);
    var e2, d2 := Fips46.Decrypt(Des.BlockOf(k2), e1), Fips46.Encrypt(Des.BlockOf(k2), d1);
    Des.BytesAsStandard(k1, block);
    Des.BlockOfBytes(e1); Des.BlockOfBytes(d1);
    Des.BytesAsStandard(k2, Des.BlockBytes(e1)); Des.BytesAsStandard(k2, Des.BlockBytes(d1));
    Des.BlockOfBytes(e2); Des.BlockOfBytes(d2);
    Des.BytesAsStandard(k1, Des.BlockBytes(e2)); Des.BytesAsStandard(k1, Des.BlockBytes(d2));
  }

  // ---------- chaining ----------

  lemma Blocks(data: seq<bv8>)
    requires |data| % 8 == 0 && data != []
    ensures |data| >= 8 && |data[..8]| == 8 && |data[8..]| == |data| - 8 && (|data| - 8) % 8 == 0
  {
  }

  function CbcEncrypted(key: seq<bv8>, iv: seq<bv8>, data: seq<bv8>): (r: seq<bv8>)
    requires |key| == 16 && |iv| == 8 && |data| % 8 == 0
    ensures |r| == |data|
    decreases |data|
  {
    if data == [] then []
    else Blocks(data); var c := Encrypted(key, XorBytes(data[..8], iv)); c + CbcEncrypted(key, c, data[8..])
  }

  function CbcDecrypted(key: seq<bv8>, iv: seq<bv8>, data: seq<bv8>): (r: seq<bv8>)
    requires |key| == 16 && |iv| == 8 && |data| % 8 == 0
    ensures |r| == |data|
    decreases |data|
  {
    if data == [] then []
    else Blocks(data); XorBytes(Decrypted(key, data[..8]), iv) + CbcDecrypted(key, data[..8], data[8..])
  }

  function BlockAt(s: seq<bv8>, i: nat): (b: seq<bv8>)
    requires 8 * i + 8 <= |s|
    ensures |b| == 8
  { s[8 * i..8 * i + 8] }

  /** Chaining, block by block: every block is added to the one encrypted before it, the first to the
      vector. */
  lemma {:induction false} CbcBlocks(key: seq<bv8>, iv: seq<bv8>, data: seq<bv8>, i: nat, e: seq<bv8>, before: seq<bv8>)
    requires |key| == 16 && |iv| == 8 && |data| % 8 == 0 && 8 * i + 8 <= |data| && e == CbcEncrypted(key, iv, data)
    requires before == if i == 0 then iv else BlockAt(e, i - 1)
    ensures BlockAt(e, i) == Encrypted(key, XorBytes(BlockAt(data, i), before))
    decreases i
  {
    hide Encrypted, XorBytes;
    Blocks(data);
    var c, rest := Encrypted(key, XorBytes(data[..8], iv)), data[8..];
    assert e[..8] == c && e[8..] == CbcEncrypted(key, c, rest);
    if i > 0 {
      assert BlockAt(e[8..], i - 1) == BlockAt(e, i) && BlockAt(rest, i - 1) == BlockAt(data, i);
      if i > 1 { assert BlockAt(e[8..], i - 2) == BlockAt(e, i - 1); }
      CbcBlocks(key, c, rest, i - 1, e[8..], before);
    }
  }

  lemma XorBack(a: seq<bv8>, b: seq<bv8>)
    requires |a| == |b|
    ensures XorBytes(XorBytes(a, b), b) == a
  {
    hide Xor;
    forall i | 0 <= i < |a| ensures Xor(Xor(a[i], b[i]), b[i]) == a[i] {
      XorSymmetric(a[i], b[i]); XorXor(b[i], a[i]); XorSymmetric(Xor(a[i], b[i]), b[i]);
    }
  }

  /** Decrypting undoes encrypting, for every key, every initial vector and any number of blocks. */
  lemma {:induction false} CbcRoundTrip(key: seq<bv8>, iv: seq<bv8>, data: seq<bv8>)
    requires |key| == 16 && |iv| == 8 && |data| % 8 == 0
    ensures CbcDecrypted(key, iv, CbcEncrypted(key, iv, data)) == data
    decreases |data|
  {
    hide Encrypted, Decrypted, XorBytes;
    if data != [] {
      var x := XorBytes(data[..8], iv);
      var c := Encrypted(key, x);
      var rest := CbcEncrypted(key, c, data[8..]);
      assert (c + rest)[..8] == c && (c + rest)[8..] == rest;
      DecryptedEncrypted(key, x);
      XorBack(data[..8], iv);
      CbcRoundTrip(key, c, data[8..]);
      assert data == data[..8] + data[8..];
    }
  }

  lemma {:induction false} CbcRoundTripBack(key: seq<bv8>, iv: seq<bv8>, data: seq<bv8>)
    requires |key| == 16 && |iv| == 8 && |data| % 8 == 0
    ensures CbcEncrypted(key, iv, CbcDecrypted(key, iv, data)) == data
    decreases |data|
  {
    hide Encrypted, Decrypted, XorBytes;
    if data != [] {
      var c := data[..8];
      var d := Decrypted(key, c);
      var x := XorBytes(d, iv);
      var rest := CbcDecrypted(key, c, data[8..]);
      assert (x + rest)[..8] == x && (x + rest)[8..] == rest;
      EncryptedDecrypted(key, c);
      XorBack(d, iv);
      CbcRoundTripBack(key, c, data[8..]);
      assert data == c + data[8..];
    }
  }

  /** The vector in force after some cipher text: its last block. */
  function Chained(iv: seq<bv8>, cipher: seq<bv8>): (r: seq<bv8>)
    requires |iv| == 8 && |cipher| % 8 == 0
    ensures |r| == 8
  { if cipher == [] then iv else Blocks(cipher); cipher[|cipher| - 8..] }

  lemma ChainedOn(iv: seq<bv8>, first: seq<bv8>, rest: seq<bv8>)
    requires |iv| == 8 && |first| == 8 && |rest| % 8 == 0
    ensures Chained(first, rest) == Chained(iv, first + rest)
  {
    if rest == [] { assert first + rest == first; }
    else { Blocks(rest); assert (first + rest)[|rest|..] == rest[|rest| - 8..]; }
  }

  lemma ChainedLast(iv: seq<bv8>, first: seq<bv8>, block: seq<bv8>)
    requires |iv| == 8 && |first| % 8 == 0 && |block| == 8
    ensures Chained(iv, first + block) == block && Chained(iv, []) == iv
  {
  }

  lemma Single(block: seq<bv8>)
    requires |block| == 8
    ensures [] + block == block && block + [] == block && block[..8] == block && block[8..] == []
  {
  }

  lemma HeadTail(data: seq<bv8>, block: seq<bv8>)
    requires |data| >= 8
    ensures (data + block)[..8] == data[..8] && (data + block)[8..] == data[8..] + block
    ensures data[..8] + data[8..] == data
  {
  }

  lemma {:induction false} CbcAppend(key: seq<bv8>, iv: seq<bv8>, data: seq<bv8>, block: seq<bv8>)
    requires |key| == 16 && |iv| == 8 && |data| % 8 == 0 && |block| == 8
    ensures CbcEncrypted(key, iv, data + block) ==
            CbcEncrypted(key, iv, data) + Encrypted(key, XorBytes(block, Chained(iv, CbcEncrypted(key, iv, data))))
    decreases |data|
  {
    hide Encrypted, XorBytes;
    if data == [] {
      Single(block);
      Single(Encrypted(key, XorBytes(block, iv)));
    } else {
      Blocks(data);
      HeadTail(data, block);
      var c := Encrypted(key, XorBytes(data[..8], iv));
      CbcAppend(key, c, data[8..], block);
      ChainedOn(iv, c, CbcEncrypted(key, c, data[8..]));
    }
  }

  lemma {:induction false} CbcDecryptedAppend(key: seq<bv8>, iv: seq<bv8>, data: seq<bv8>, block: seq<bv8>)
    requires |key| == 16 && |iv| == 8 && |data| % 8 == 0 && |block| == 8
    ensures CbcDecrypted(key, iv, data + block) ==
            CbcDecrypted(key, iv, data) + XorBytes(Decrypted(key, block), Chained(iv, data))
    decreases |data|
  {
    hide Decrypted, XorBytes;
    if data == [] {
      Single(block);
      Single(XorBytes(Decrypted(key, block), iv));
    } else {
      Blocks(data);
      HeadTail(data, block);
      CbcDecryptedAppend(key, data[..8], data[8..], block);
      ChainedOn(iv, data[..8], data[8..]);
    }
  }

  // ---------- the code ----------

  /** tdes2_block: encrypt, decrypt, encrypt with the outer key used twice. */
  method Block(key: seq<bv8>, input: array<bv8>, out: array<bv8>, decrypt: bool)
    requires |key| == 16 && input.Length == out.Length == 8
    modifies out
    ensures out[..] == if decrypt then Decrypted(key, old(input[..])) else Encrypted(key, old(input[..]))
  {
    hide Des.CryptBlock, Des.EncWords, Des.DecWords;
    var ctx := new Des.Context();
    var tmp := new bv8[8];
    if !decrypt {
      ctx.SetKey(key[..8]);
      ctx.CryptEcb(input, tmp);
      ctx.SetKeyDec(key[8..]);
      ctx.CryptEcb(tmp, tmp);
      ctx.SetKey(key[..8]);
      ctx.CryptEcb(tmp, out);
      return;
    }
    ctx.SetKeyDec(key[..8]);
    ctx.CryptEcb(input, tmp);
    ctx.SetKey(key[8..]);
    ctx.CryptEcb(tmp, tmp);
    ctx.SetKeyDec(key[..8]);
    ctx.CryptEcb(tmp, out);
  }

  /** A buffer and where in it the data starts; the two buffers of a call may be one, as long as
      what is written never runs ahead of what is read. */
  predicate Fits(input: array<bv8>, inOff: nat, length: nat, out: array<bv8>, outOff: nat) {
    inOff + length <= input.Length && outOff + length <= out.Length &&
    (input != out || outOff <= inOff || inOff + length <= outOff)
  }

  lemma XorBlock(x: seq<bv8>, a: seq<bv8>, b: seq<bv8>)
    requires |x| == |a| == |b|
    requires forall i :: 0 <= i < |x| ==> x[i] == Xor(a[i], b[i])
    ensures x == XorBytes(a, b)
  {
    hide Xor;
  }

  lemma EmptyData(key: seq<bv8>, iv: seq<bv8>)
    requires |key| == 16 && |iv| == 8
    ensures CbcEncrypted(key, iv, []) == [] && CbcDecrypted(key, iv, []) == []
  {
  }

  /** The output buffer once some bytes are done. */
  function Written(before: seq<bv8>, at: nat, done: seq<bv8>): (r: seq<bv8>)
    requires at + |done| <= |before|
    ensures |r| == |before|
  { before[..at] + done + before[at + |done|..] }

  lemma WrittenMore(before: seq<bv8>, at: nat, done: seq<bv8>, more: seq<bv8>)
    requires at + |done| + |more| <= |before|
    ensures Written(Written(before, at, done), at + |done|, more) == Written(before, at, done + more)
  {
  }

  /** Bytes not yet read are as they were, though the buffers be one. */
  lemma Unread(src: seq<bv8>, now: seq<bv8>, before: seq<bv8>, at: nat, done: seq<bv8>, from: nat)
    requires at + |done| <= |before| && from + 8 <= |src|
    requires now == src || (src == before && now == Written(before, at, done) && (at + |done| <= from || from + 8 <= at))
    ensures |now| == |src| && now[from..from + 8] == src[from..from + 8]
  {
  }

  lemma Grows(s: seq<bv8>, a: nat, b: nat, c: nat)
    requires a <= b <= c <= |s|
    ensures s[a..b] + s[b..c] == s[a..c]
  {
  }

  lemma WrittenNothing(before: seq<bv8>, at: nat)
    requires at <= |before|
    ensures Written(before, at, []) == before
  {
  }

  /** One turn of the encryption loop: the block at one place of the input to one of the output. */
  method EncryptStep(key: seq<bv8>, iv: seq<bv8>, input: array<bv8>, from: nat, out: array<bv8>, to: nat)
    returns (cipher: seq<bv8>)
    requires |key| == 16 && |iv| == 8 && from + 8 <= input.Length && to + 8 <= out.Length
    modifies out
    ensures |cipher| == 8 && cipher == Encrypted(key, XorBytes(old(input[from..from + 8]), iv))
    ensures out[..] == Written(old(out[..]), to, cipher)
  {
    hide Encrypted, XorBytes, Xor;
    var block := new bv8[8];
    ghost var plain := input[from..from + 8];
    forall i | 0 <= i < 8 { block[i] := Xor(input[from + i], iv[i]); }
    XorBlock(block[..], plain, iv);
    Block(key, block, block, false);
    cipher := block[..];
    forall i | 0 <= i < 8 { out[to + i] := block[i]; }
  }

  /** ultralight_3des_encrypt. */
  method Encrypt(key: seq<bv8>, iv: seq<bv8>, input: array<bv8>, inOff: nat, length: nat, out: array<bv8>, outOff: nat)
    requires |key| == 16 && |iv| == 8 && length % 8 == 0 && Fits(input, inOff, length, out, outOff)
    modifies out
    ensures out[..] == Written(old(out[..]), outOff, CbcEncrypted(key, iv, old(input[inOff..inOff + length])))
  {
    hide Encrypted, XorBytes, CbcEncrypted, Written, Chained;
    ghost var src, before, done := input[..], out[..], [];
    var ivMut, off := iv, 0;
    EmptyData(key, iv);
    ChainedLast(iv, [], iv);
    WrittenNothing(before, outOff);
    while off < length
      invariant 0 <= off <= length && off % 8 == 0 && |done| == off
      invariant input != out ==> input[..] == src
      invariant done == CbcEncrypted(key, iv, src[inOff..inOff + off])
      invariant ivMut == Chained(iv, done)
      invariant out[..] == Written(before, outOff, done)
    {
      ghost var plain, now := src[inOff + off..inOff + off + 8], input[..];
      Unread(src, now, before, outOff, done, inOff + off);
      assert input[inOff + off..inOff + off + 8] == now[inOff + off..inOff + off + 8];
      var cipher := EncryptStep(key, ivMut, input, inOff + off, out, outOff + off);
      CbcAppend(key, iv, src[inOff..inOff + off], plain);
      Grows(src, inOff, inOff + off, inOff + off + 8);
      ChainedLast(iv, done, cipher);
      WrittenMore(before, outOff, done, cipher);
      done := done + cipher;
      ivMut := cipher;
      off := off + 8;
    }
  }

  /** One turn of the decryption loop. */
  method DecryptStep(key: seq<bv8>, iv: seq<bv8>, input: array<bv8>, from: nat, out: array<bv8>, to: nat)
    returns (cipher: seq<bv8>)
    requires |key| == 16 && |iv| == 8 && from + 8 <= input.Length && to + 8 <= out.Length
    modifies out
    ensures cipher == old(input[from..from + 8])
    ensures out[..] == Written(old(out[..]), to, XorBytes(Decrypted(key, cipher), iv))
  {
    hide Decrypted, XorBytes, Xor;
    var block, plain := new bv8[8], new bv8[8];
    forall i | 0 <= i < 8 { block[i] := input[from + i]; }
    cipher := block[..];
    Block(key, block, plain, true);
    ghost var p := plain[..];
    forall i | 0 <= i < 8 { out[to + i] := Xor(plain[i], iv[i]); }
    XorBlock(out[to..to + 8], p, iv);
  }

  /** ultralight_3des_decrypt. */
  method Decrypt(key: seq<bv8>, iv: seq<bv8>, input: array<bv8>, inOff: nat, length: nat, out: array<bv8>, outOff: nat)
    requires |key| == 16 && |iv| == 8 && length % 8 == 0 && Fits(input, inOff, length, out, outOff)
    modifies out
    ensures out[..] == Written(old(out[..]), outOff, CbcDecrypted(key, iv, old(input[inOff..inOff + length])))
  {
    hide Decrypted, XorBytes, CbcDecrypted, Written, Chained;
    ghost var src, before, done := input[..], out[..], [];
    var ivMut, off := iv, 0;
    EmptyData(key, iv);
    ChainedLast(iv, [], iv);
    WrittenNothing(before, outOff);
    while off < length
      invariant 0 <= off <= length && off % 8 == 0 && |done| == off
      invariant input != out ==> input[..] == src
      invariant done == CbcDecrypted(key, iv, src[inOff..inOff + off])
      invariant ivMut == Chained(iv, src[inOff..inOff + off])
      invariant out[..] == Written(before, outOff, done)
    {
      ghost var cipher, now := src[inOff + off..inOff + off + 8], input[..];
      Unread(src, now, before, outOff, done, inOff + off);
      assert input[inOff + off..inOff + off + 8] == now[inOff + off..inOff + off + 8];
      ghost var plain := XorBytes(Decrypted(key, cipher), ivMut);
      ivMut := DecryptStep(key, ivMut, input, inOff + off, out, outOff + off);
      CbcDecryptedAppend(key, iv, src[inOff..inOff + off], cipher);
      Grows(src, inOff, inOff + off, inOff + off + 8);
      ChainedLast(iv, src[inOff..inOff + off], cipher);
      WrittenMore(before, outOff, done, plain);
      done := done + plain;
      off := off + 8;
    }
  }
}
