/** MIFARE Classic authentication as it goes over the air, in terms of the card image and of the
    CRYPTO1 register only: what the card sends, which answer it accepts and what it answers then. */
module ClassicAir {
  import opened Words
  import opened Octets
  import opened Crypto1
  import opened Crypto1Register
  import opened Classic

  // ---------- bytes as bits ----------

  function Sum(a: seq<bool>, b: seq<bool>): (s: seq<bool>)
    requires |a| == |b|
    ensures |s| == |a|
  { seq(|a|, i requires 0 <= i < |a| => a[i] != b[i]) }

  function Falses(n: nat): (s: seq<bool>)
    ensures |s| == n
  { seq(n, i => false) }

  lemma {:induction false} DataLength(data: seq<bv8>)
    ensures |DataBits(data)| == 8 * |data|
    decreases |data|
  {
    if data != [] { DataLength(data[..|data| - 1]); }
  }

  lemma XorBits0(a: bv8, b: bv8)
    ensures BitAt(Xor(a, b), 0) == (BitAt(a, 0) != BitAt(b, 0))
    ensures BitAt(Xor(a, b), 1) == (BitAt(a, 1) != BitAt(b, 1))
    ensures BitAt(Xor(a, b), 2) == (BitAt(a, 2) != BitAt(b, 2))
    ensures BitAt(Xor(a, b), 3) == (BitAt(a, 3) != BitAt(b, 3))
  {
  }

  lemma XorBits4(a: bv8, b: bv8)
    ensures BitAt(Xor(a, b), 4) == (BitAt(a, 4) != BitAt(b, 4))
    ensures BitAt(Xor(a, b), 5) == (BitAt(a, 5) != BitAt(b, 5))
    ensures BitAt(Xor(a, b), 6) == (BitAt(a, 6) != BitAt(b, 6))
    ensures BitAt(Xor(a, b), 7) == (BitAt(a, 7) != BitAt(b, 7))
  {
  }

  lemma XorBit(a: bv8, b: bv8, i: nat)
    requires i < 8
    ensures BitAt(Xor(a, b), i) == (BitAt(a, i) != BitAt(b, i))
  {
    hide BitAt, Xor;
    if i < 4 { XorBits0(a, b); } else { XorBits4(a, b); }
  }

  lemma XorByteBits(a: bv8, b: bv8)
    ensures ByteBits(Xor(a, b), 8) == Sum(ByteBits(a, 8), ByteBits(b, 8))
  {
    hide BitAt, Xor;
    forall i | 0 <= i < 8 ensures ByteBits(Xor(a, b), 8)[i] == Sum(ByteBits(a, 8), ByteBits(b, 8))[i] { XorBit(a, b, i); }
  }

  lemma SumConcat(a: seq<bool>, b: seq<bool>, c: seq<bool>, d: seq<bool>)
    requires |a| == |b| && |c| == |d|
    ensures Sum(a + c, b + d) == Sum(a, b) + Sum(c, d)
  {
  }

  lemma {:induction false} XorDataBits(a: seq<bv8>, b: seq<bv8>)
    requires |a| == |b|
    ensures |DataBits(a)| == |DataBits(b)| && DataBits(XorBytes(a, b)) == Sum(DataBits(a), DataBits(b))
    decreases |a|
  {
    hide ByteBits, Xor;
    DataLength(a);
    DataLength(b);
    if a != [] {
      var n := |a| - 1;
      XorDataBits(a[..n], b[..n]);
      XorByteBits(a[n], b[n]);
      assert XorBytes(a, b)[..n] == XorBytes(a[..n], b[..n]) && XorBytes(a, b)[n] == Xor(a[n], b[n]);
      SumConcat(DataBits(a[..n]), DataBits(b[..n]), ByteBits(a[n], 8), ByteBits(b[n], 8));
    }
  }

  lemma SameByte(a: bv8, b: bv8)
    requires BitAt(a, 0) == BitAt(b, 0) && BitAt(a, 1) == BitAt(b, 1) && BitAt(a, 2) == BitAt(b, 2) && BitAt(a, 3) == BitAt(b, 3)
    requires BitAt(a, 4) == BitAt(b, 4) && BitAt(a, 5) == BitAt(b, 5) && BitAt(a, 6) == BitAt(b, 6) && BitAt(a, 7) == BitAt(b, 7)
    ensures a == b
  {
  }

  lemma SameByteBits(a: bv8, b: bv8)
    requires ByteBits(a, 8) == ByteBits(b, 8)
    ensures a == b
  {
    hide BitAt;
    var x, y := ByteBits(a, 8), ByteBits(b, 8);
    assert x[0] == y[0] && x[1] == y[1] && x[2] == y[2] && x[3] == y[3] && x[4] == y[4] && x[5] == y[5] && x[6] == y[6] && x[7] == y[7];
    SameByte(a, b);
  }

  lemma {:induction false} SameDataBits(a: seq<bv8>, b: seq<bv8>)
    requires |a| == |b| && DataBits(a) == DataBits(b)
    ensures a == b
    decreases |a|
  {
    hide ByteBits;
    if a != [] {
      var n := |a| - 1;
      DataLength(a[..n]);
      DataLength(b[..n]);
      assert DataBits(a)[..8 * n] == DataBits(a[..n]) && DataBits(b)[..8 * n] == DataBits(b[..n]);
      assert DataBits(a)[8 * n..] == ByteBits(a[n], 8) && DataBits(b)[8 * n..] == ByteBits(b[n], 8);
      SameByteBits(a[n], b[n]);
      SameDataBits(a[..n], b[..n]);
      assert a == a[..n] + [a[n]] && b == b[..n] + [b[n]];
    }
  }

  lemma ZeroByteBits()
    ensures ByteBits(0, 8) == Falses(8)
  {
  }

  lemma {:induction false} ZeroDataBits(n: nat)
    ensures DataBits(Zeros(n)) == Falses(8 * n)
  {
    if n > 0 {
      ZeroDataBits(n - 1);
      ZeroByteBits();
      assert Zeros(n)[..n - 1] == Zeros(n - 1);
    }
  }

  // ---------- the key ----------

  function SixBytes(k0: bv8, k1: bv8, k2: bv8, k3: bv8, k4: bv8, k5: bv8): bv64 {
    ((((((((((k0 as bv64) << 8) | (k1 as bv64)) << 8) | (k2 as bv64)) << 8) | (k3 as bv64)) << 8) | (k4 as bv64)) << 8) | (k5 as bv64)
  }

  lemma KeyByte0(k0: bv8, k1: bv8, k2: bv8, k3: bv8, k4: bv8, k5: bv8, key: bv64)
    requires key == SixBytes(k0, k1, k2, k3, k4, k5)
    ensures BitAt64(key, 40) == BitAt(k0, 0)
    ensures BitAt64(key, 41) == BitAt(k0, 1)
    ensures BitAt64(key, 42) == BitAt(k0, 2)
    ensures BitAt64(key, 43) == BitAt(k0, 3)
    ensures BitAt64(key, 44) == BitAt(k0, 4)
    ensures BitAt64(key, 45) == BitAt(k0, 5)
    ensures BitAt64(key, 46) == BitAt(k0, 6)
    ensures BitAt64(key, 47) == BitAt(k0, 7)
  {
  }

  lemma KeyByte1(k0: bv8, k1: bv8, k2: bv8, k3: bv8, k4: bv8, k5: bv8, key: bv64)
    requires key == SixBytes(k0, k1, k2, k3, k4, k5)
    ensures BitAt64(key, 32) == BitAt(k1, 0)
    ensures BitAt64(key, 33) == BitAt(k1, 1)
    ensures BitAt64(key, 34) == BitAt(k1, 2)
    ensures BitAt64(key, 35) == BitAt(k1, 3)
    ensures BitAt64(key, 36) == BitAt(k1, 4)
    ensures BitAt64(key, 37) == BitAt(k1, 5)
    ensures BitAt64(key, 38) == BitAt(k1, 6)
    ensures BitAt64(key, 39) == BitAt(k1, 7)
  {
  }

  lemma KeyByte2(k0: bv8, k1: bv8, k2: bv8, k3: bv8, k4: bv8, k5: bv8, key: bv64)
    requires key == SixBytes(k0, k1, k2, k3, k4, k5)
    ensures BitAt64(key, 24) == BitAt(k2, 0)
    ensures BitAt64(key, 25) == BitAt(k2, 1)
    ensures BitAt64(key, 26) == BitAt(k2, 2)
    ensures BitAt64(key, 27) == BitAt(k2, 3)
    ensures BitAt64(key, 28) == BitAt(k2, 4)
    ensures BitAt64(key, 29) == BitAt(k2, 5)
    ensures BitAt64(key, 30) == BitAt(k2, 6)
    ensures BitAt64(key, 31) == BitAt(k2, 7)
  {
  }

  lemma KeyByte3(k0: bv8, k1: bv8, k2: bv8, k3: bv8, k4: bv8, k5: bv8, key: bv64)
    requires key == SixBytes(k0, k1, k2, k3, k4, k5)
    ensures BitAt64(key, 16) == BitAt(k3, 0)
    ensures BitAt64(key, 17) == BitAt(k3, 1)
    ensures BitAt64(key, 18) == BitAt(k3, 2)
    ensures BitAt64(key, 19) == BitAt(k3, 3)
    ensures BitAt64(key, 20) == BitAt(k3, 4)
    ensures BitAt64(key, 21) == BitAt(k3, 5)
    ensures BitAt64(key, 22) == BitAt(k3, 6)
    ensures BitAt64(key, 23) == BitAt(k3, 7)
  {
  }

  lemma KeyByte4(k0: bv8, k1: bv8, k2: bv8, k3: bv8, k4: bv8, k5: bv8, key: bv64)
    requires key == SixBytes(k0, k1, k2, k3, k4, k5)
    ensures BitAt64(key, 8) == BitAt(k4, 0)
    ensures BitAt64(key, 9) == BitAt(k4, 1)
    ensures BitAt64(key, 10) == BitAt(k4, 2)
    ensures BitAt64(key, 11) == BitAt(k4, 3)
    ensures BitAt64(key, 12) == BitAt(k4, 4)
    ensures BitAt64(key, 13) == BitAt(k4, 5)
    ensures BitAt64(key, 14) == BitAt(k4, 6)
    ensures BitAt64(key, 15) == BitAt(k4, 7)
  {
  }

  lemma KeyByte5(k0: bv8, k1: bv8, k2: bv8, k3: bv8, k4: bv8, k5: bv8, key: bv64)
    requires key == SixBytes(k0, k1, k2, k3, k4, k5)
    ensures BitAt64(key, 0) == BitAt(k5, 0)
    ensures BitAt64(key, 1) == BitAt(k5, 1)
    ensures BitAt64(key, 2) == BitAt(k5, 2)
    ensures BitAt64(key, 3) == BitAt(k5, 3)
    ensures BitAt64(key, 4) == BitAt(k5, 4)
    ensures BitAt64(key, 5) == BitAt(k5, 5)
    ensures BitAt64(key, 6) == BitAt(k5, 6)
    ensures BitAt64(key, 7) == BitAt(k5, 7)
  {
  }

  lemma SixPushed(k0: bv8, k1: bv8, k2: bv8, k3: bv8, k4: bv8, k5: bv8)
    ensures Pushed(Pushed(Pushed(Pushed(Pushed(Pushed(0, k0), k1), k2), k3), k4), k5) == SixBytes(k0, k1, k2, k3, k4, k5)
  {
  }

  lemma KeyFromSix(k: seq<bv8>)
    requires |k| == 6
    ensures KeyFromBytes(k) == SixBytes(k[0], k[1], k[2], k[3], k[4], k[5])
  {
    hide Pushed, SixBytes;
    SixPushed(k[0], k[1], k[2], k[3], k[4], k[5]);
    NextByte(k, 1); NextByte(k, 2); NextByte(k, 3); NextByte(k, 4); NextByte(k, 5); NextByte(k, 6);
    assert k[..6] == k && k[..0] == [];
  }

  lemma NextByte(k: seq<bv8>, n: nat)
    requires 0 < n <= |k|
    ensures KeyFromBytes(k[..n]) == Pushed(KeyFromBytes(k[..n - 1]), k[n - 1])
  {
    hide Pushed;
    assert k[..n][..n - 1] == k[..n - 1];
  }

  lemma KeyBits(k: seq<bv8>, i: nat, t: nat)
    requires |k| == 6 && i < 6 && t < 8
    ensures BitAt64(KeyFromBytes(k), 8 * (5 - i) + t) == BitAt(k[i], t)
  {
    hide BitAt64, BitAt, SixBytes, KeyFromBytes;
    KeyFromSix(k);
    var key := KeyFromBytes(k);
    if i == 0 { KeyByte0(k[0], k[1], k[2], k[3], k[4], k[5], key); }
    else if i == 1 { KeyByte1(k[0], k[1], k[2], k[3], k[4], k[5], key); }
    else if i == 2 { KeyByte2(k[0], k[1], k[2], k[3], k[4], k[5], key); }
    else if i == 3 { KeyByte3(k[0], k[1], k[2], k[3], k[4], k[5], key); }
    else if i == 4 { KeyByte4(k[0], k[1], k[2], k[3], k[4], k[5], key); }
    else { KeyByte5(k[0], k[1], k[2], k[3], k[4], k[5], key); }
  }

  lemma {:induction false} DataBitsAt(data: seq<bv8>, m: nat)
    requires m < 8 * |data|
    ensures |DataBits(data)| == 8 * |data| && DataBits(data)[m] == BitAt(data[m / 8], m % 8)
    decreases |data|
  {
    hide BitAt;
    var n := |data| - 1;
    DataLength(data);
    DataLength(data[..n]);
    if m < 8 * n { DataBitsAt(data[..n], m); }
  }

  /** Six key bytes are the register they are loaded into, bit for bit in the order of the air. */
  lemma KeyBytesLoaded(k: seq<bv8>)
    requires |k| == 6
    ensures Bits(KeyState(KeyFromBytes(k))) == DataBits(k)
  {
    hide BitAt, BitAt64, KeyState, KeyFromBytes, Bits, DataBits;
    DataLength(k);
    forall m | 0 <= m < 48 ensures Bits(KeyState(KeyFromBytes(k)))[m] == DataBits(k)[m] {
      KeyLoaded(KeyFromBytes(k), m);
      KeyBits(k, m / 8, m % 8);
      DataBitsAt(k, m);
    }
  }

  // ---------- the first pass ----------

  /** The last block of the sector that holds a block. */
  function TrailerOf(block: nat): (t: nat)
    requires block < 256
    ensures t < 256
  { if block < 128 then block / 4 * 4 + 3 else block / 16 * 16 + 15 }

  /** Sectors of four blocks up to block 127, of sixteen from there on. */
  function SectorNumber(block: nat): (n: nat)
    requires block < 256
    ensures n < 40
  { if block < 128 then block / 4 else 32 + (block - 128) / 16 }

  /** The UID bytes in play: the last four of seven, or the first four. */
  function UidPart(m: Data): (u: seq<bv8>)
    requires Classic.WellFormed(m)
    ensures |u| == 4
  { if m.uidLen == 7 then [m.uid[3], m.uid[4], m.uid[5], m.uid[6]] else [m.uid[0], m.uid[1], m.uid[2], m.uid[3]] }

  function NonceOf(block: nat): (nt: seq<bv8>)
    requires block < 256
    ensures |nt| == 4
  { [0x10, 0x00, 0x00, Octet(SectorNumber(block))] }

  /** The register both sides should hold once the nonce is sent: key A, then the nonce with the UID. */
  function Seeded(m: Data, block: nat): Register
    requires Classic.WellFormed(m) && block < 256
  {
    DataLength(m.blocks[TrailerOf(block)][..6]);
    Run(DataBits(m.blocks[TrailerOf(block)][..6]), DataBits(XorBytes(NonceOf(block), UidPart(m))), false)
  }

  /** The default key is six bytes FF: a sector has it exactly when its trailer begins with them. */
  lemma DefaultKeyIff(m: Data, block: nat)
    requires Classic.WellFormed(m) && block < 256
    ensures KeyA(m, block) == DefaultKey <==> forall i :: 0 <= i < 6 ==> m.blocks[TrailerOf(block)][i] == 0xFF
  {
    hide KeyFromBytes, SectorOf, FirstBlock, BlocksIn, TrailerOf, BitAt, BitAt64, SixBytes;
    Places(block);
    var k := m.blocks[TrailerOf(block)][..6];
    assert KeyA(m, block) == KeyFromBytes(k);
    if KeyFromBytes(k) == DefaultKey {
      forall i | 0 <= i < 6 ensures k[i] == 0xFF {
        forall t | 0 <= t < 8 ensures BitAt(k[i], t) {
          KeyBits(k, i, t);
          KeyOnes(8 * (5 - i) + t);
        }
        AllSet(k[i]);
      }
    }
    if forall i :: 0 <= i < 6 ==> m.blocks[TrailerOf(block)][i] == 0xFF {
      KeyFromSix(k);
      SixFull();
    }
  }

  lemma SixFull()
    ensures SixBytes(0xFF, 0xFF, 0xFF, 0xFF, 0xFF, 0xFF) == 0xFFFFFFFFFFFF
  {
  }

  lemma Places(block: nat)
    requires block < 256
    ensures SectorOf(block) == SectorNumber(block)
    ensures FirstBlock(SectorOf(block)) + BlocksIn(SectorOf(block)) - 1 == TrailerOf(block)
  {
    if block < 128 {
      var q := block / 4;
      assert (4 * q + 3) / 4 == q;
    } else {
      var q := block / 16;
      assert (16 * q + 15 - 128) / 16 == q - 8;
      assert (block - 128) / 16 == q - 8;
    }
  }

  lemma CuidIs(m: Data)
    requires Classic.WellFormed(m)
    ensures CuidOf(m.uid, m.uidLen) == WordOf(UidPart(m))
  {
    hide WordOf;
    if m.uidLen == 7 { assert m.uid[3..7] == UidPart(m); } else { assert m.uid[..4] == UidPart(m); }
  }

  lemma OpenedIs(key: seq<bv8>, nt: seq<bv8>, uid: seq<bv8>)
    requires |key| == 6 && |nt| == |uid| == 4
    ensures |DataBits(key)| == 48
    ensures Bits(Opened(KeyFromBytes(key), WordOf(uid), WordOf(nt))) == Run(DataBits(key), DataBits(XorBytes(nt, uid)), false)
  {
    hide Bits, KeyState, KeyFromBytes, WordOf, BytesOf, WordRun, Absorb, Stream, Run, DataBits, XorBytes, KeyStream;
    DataLength(key);
    var s, w := KeyState(KeyFromBytes(key)), WordOf(XorBytes(nt, uid));
    XorWord(nt, uid);
    XorIs(WordOf(nt), WordOf(uid));
    WordIsFourBytes(s, w, false);
    BytesOfWordOf(XorBytes(nt, uid));
    StreamIsKeyStream(s, XorBytes(nt, uid), false);
    KeyBytesLoaded(key);
  }

  lemma XorIs(a: bv32, b: bv32)
    ensures a ^ b == Xor32(a, b)
  {
  }

  /** The first pass, with either key selector: the card sends its nonce, and its register is the
      seeded one. */
  lemma FirstPass(c: Card, block: nat, selector: bv8)
    requires ValidCard(c) && block < 256 && BlockValid(c.model, block) && (selector == 0x60 || selector == 0x61)
    ensures var (d, rx) := TagCmd(c, [selector, Octet(block)]);
            rx == NonceOf(block) && d.nt == rx && Bits(d.cipher) == Seeded(c.model, block) && d.pending && !d.complete
            && d.authBlock == block && d.model == c.model
  {
    hide Bits, Opened, WordOf, KeyFromBytes, Run, DataBits, XorBytes, SectorOf, FirstBlock, BlocksIn, Num, Octet, CuidOf;
    Places(block);
    CuidIs(c.model);
    OpenedIs(c.model.blocks[TrailerOf(block)][..6], NonceOf(block), UidPart(c.model));
  }

  // ---------- the second pass ----------

  lemma HeardIs(s: Lfsr, tx: seq<bv8>)
    requires |tx| == 8
    ensures Bits(CardHeard(s, tx)) == Run(Bits(s), DataBits(tx[..4]), true)
  {
    hide Bits, WordOf, BytesOf, WordRun, WordOut, Absorb, Stream, Run, KeyStream, DataBits;
    WordIsFourBytes(s, WordOf(tx[..4]), true);
    BytesOfWordOf(tx[..4]);
    StreamIsKeyStream(s, tx[..4], true);
  }

  lemma ZeroWord(s: Lfsr)
    ensures WordOut(s, 0, false, 32) == WordOf(Stream(s, Zeros(4), false))
    ensures Bits(WordRun(s, 0, false, 32)) == Run(Bits(s), Falses(32), false)
    ensures DataBits(Stream(s, Zeros(4), false)) == KeyStream(Bits(s), Falses(32), false)
  {
    hide Bits, WordOf, BytesOf, WordRun, WordOut, Absorb, Stream, Run, KeyStream, DataBits, Zeros, Falses;
    WordIsFourBytes(s, 0, false);
    BytesOfZero();
    ZeroDataBits(4);
    StreamIsKeyStream(s, Zeros(4), false);
  }

  lemma AcceptedIs(s: Lfsr, nt: bv32, tx: seq<bv8>)
    requires |tx| == 8
    ensures |DataBits(tx[4..])| == 32
    ensures CardAccepts(s, nt, tx) <==>
            Sum(DataBits(tx[4..]), KeyStream(Bits(CardHeard(s, tx)), Falses(32), false)) == DataBits(BytesOf(Successor(nt, 64)))
  {
    hide Bits, WordOf, BytesOf, WordOut, Stream, KeyStream, DataBits, XorBytes, Xor32, Successor, CardHeard, Sum;
    var heard, answer, want := CardHeard(s, tx), tx[4..], Successor(nt, 64);
    var stream := Stream(heard, Zeros(4), false);
    DataLength(answer);
    ZeroWord(heard);
    XorWord(answer, stream);
    XorDataBits(answer, stream);
    BytesOfWordOf(XorBytes(answer, stream));
    WordOfBytesOf(want);
    if DataBits(XorBytes(answer, stream)) == DataBits(BytesOf(want)) { SameDataBits(XorBytes(answer, stream), BytesOf(want)); }
  }

  lemma AnswerIs(s: Lfsr, key: seq<bv8>)
    requires |key| == 4
    ensures var rx := XorBytes(Stream(s, Zeros(4), false), key);
            |DataBits(rx)| == 32 && Sum(DataBits(rx), KeyStream(Bits(s), Falses(32), false)) == DataBits(key)
  {
    hide Bits, WordOf, WordOut, WordRun, Run, Stream, KeyStream, DataBits, XorBytes;
    var stream := Stream(s, Zeros(4), false);
    DataLength(key);
    DataLength(XorBytes(stream, key));
    ZeroWord(s);
    XorDataBits(stream, key);
    Twice(DataBits(key), DataBits(stream));
  }

  lemma Twice(a: seq<bool>, b: seq<bool>)
    requires |a| == |b|
    ensures Sum(Sum(b, a), b) == a
  {
  }

  /** What a card with register x expects and answers: the frame's first half is the encrypted reader
      nonce, the second the 64th successor of the card's under the key stream that follows; the answer
      is the 96th under the next. */
  lemma SecondPass(c: Card, tx: seq<bv8>)
    requires ValidCard(c) && c.pending && |tx| == 8
    ensures var heard := Run(Bits(c.cipher), DataBits(tx[..4]), true);
            var (d, rx) := TagCmd(c, tx);
            && |DataBits(tx[4..])| == 32 && (|rx| == 4 || rx == [])
            && (|rx| == 4 <==> Sum(DataBits(tx[4..]), KeyStream(heard, Falses(32), false))
                               == DataBits(BytesOf(Successor(WordOf(c.nt), 64))))
            && d.complete == (|rx| == 4)
    ensures var heard := Run(Bits(c.cipher), DataBits(tx[..4]), true);
            var rx := TagCmd(c, tx).1;
            |rx| == 4 ==> |DataBits(rx)| == 32 &&
                          Sum(DataBits(rx), KeyStream(Run(heard, Falses(32), false), Falses(32), false))
                          == DataBits(BytesOf(Successor(WordOf(c.nt), 96)))
  {
    hide Bits, WordOf, BytesOf, WordRun, WordOut, Absorb, Stream, Run, KeyStream, DataBits, XorBytes, Xor32, Successor, Falses, Sum;
    hide CardHeard, CardAccepts;
    HeardIs(c.cipher, tx);
    AcceptedIs(c.cipher, WordOf(c.nt), tx);
    ZeroWord(CardHeard(c.cipher, tx));
    AnswerIs(WordRun(CardHeard(c.cipher, tx), 0, false, 32), BytesOf(Successor(WordOf(c.nt), 96)));
  }
}
