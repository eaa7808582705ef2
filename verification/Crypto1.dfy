/** The CRYPTO1 stream cipher of MIFARE Classic (crypto1.c): two 24-bit half registers held in
    32-bit words, a filter for the key stream and a nonce generator.

    A cipher is used in two ways that must agree.  The reader absorbs plain nonces a byte at a
    time; the card absorbs the encrypted nonce as one word, feeding the key stream back.  The
    main lemmas say that a word is four bytes, that absorbing an encrypted byte with feedback is
    absorbing the plain byte without, and that the bytes the reader draws from the nonce
    generator are the bytes of the card's expected answer. */
module Crypto1 {
  import opened Words

  // ---------- the cipher ----------

  /** struct crypto1 as a value. */
  datatype Lfsr = Lfsr(odd: bv32, even: bv32)

  const PolyOdd: bv32 := 0x29CE5C
  const PolyEven: bv32 := 0x870804

  /** Two folds, then a table over the low nibble. */
  function Parity(data: bv32): bv32 { NibbleParity(Folded(data)) }

  function Folded(data: bv32): bv32 {
    var a := data ^ (data >> 16);
    a ^ (a >> 8)
  }

  function NibbleParity(x: bv32): bv32 { (0x6996 >> (x & 0xF)) & 1 }

  /** The five groups of four bits the filter looks at. */
  function Group0(x: bv32): bv32 { (0xF22C0 >> (x & 0xF)) & 16 }
  function Group1(x: bv32): bv32 { (0x6C9C0 >> ((x >> 4) & 0xF)) & 8 }
  function Group2(x: bv32): bv32 { (0x3C8B0 >> ((x >> 8) & 0xF)) & 4 }
  function Group3(x: bv32): bv32 { (0x1E458 >> ((x >> 12) & 0xF)) & 2 }
  function Group4(x: bv32): bv32 { (0x0D938 >> ((x >> 16) & 0xF)) & 1 }

  function Chosen(a: bv32, b: bv32, c: bv32, d: bv32, e: bv32): bv32
    requires a | b | c | d | e < 32
  { (0xEC57E80A >> (a | b | c | d | e)) & 1 }

  function Filter(x: bv32): bv32 { Chosen(Group0(x), Group1(x), Group2(x), Group3(x), Group4(x)) }

  /** The next key stream bit. */
  function Ks(s: Lfsr): bool { Filter(s.odd) != 0 }

  /** One clock: the register absorbs the input bit, with the key stream fed back when the input
      is encrypted. */
  function Next(s: Lfsr, input: bool, encrypted: bool): Lfsr {
    Lfsr(FeedIn(s.odd, s.even, Xor32(Flag32(Ks(s) && encrypted), Flag32(input))), s.odd)
  }

  /** The half register that takes the feedback bit; the halves then change places. */
  function FeedIn(odd: bv32, even: bv32, feed: bv32): bv32 { ShiftIn(even, Parity(Tapped(odd, even, feed))) }

  function Tapped(odd: bv32, even: bv32, feed: bv32): bv32 { feed ^ (PolyOdd & odd) ^ (PolyEven & even) }

  function ShiftIn(x: bv32, bit: bv32): bv32 { (x << 1) | bit }

  /** Feeding the key stream back turns an encrypted input bit into the plain one. */
  lemma NextEncrypted(s: Lfsr, plain: bool)
    ensures Next(s, plain != Ks(s), true) == Next(s, plain, false)
  {
    hide FeedIn, Ks;
  }

  function ByteRun(s: Lfsr, b: bv8, encrypted: bool, n: nat): Lfsr
    requires n <= 8
  {
    if n == 0 then s else Next(ByteRun(s, b, encrypted, n - 1), BitAt(b, n - 1), encrypted)
  }

  function ByteOut(s: Lfsr, b: bv8, encrypted: bool, n: nat): bv8
    requires n <= 8
  {
    if n == 0 then 0
    else Or8(ByteOut(s, b, encrypted, n - 1), At8(Ks(ByteRun(s, b, encrypted, n - 1)), n - 1))
  }

  function WordRun(s: Lfsr, w: bv32, encrypted: bool, n: nat): Lfsr
    requires n <= 32
  {
    if n == 0 then s else Next(WordRun(s, w, encrypted, n - 1), BitAt32(w, BeIndex(n - 1)), encrypted)
  }

  function WordOut(s: Lfsr, w: bv32, encrypted: bool, n: nat): bv32
    requires n <= 32
  {
    if n == 0 then 0
    else Or(WordOut(s, w, encrypted, n - 1), At32(Ks(WordRun(s, w, encrypted, n - 1)), BeIndex(n - 1)))
  }

  /** The register after absorbing bytes one at a time. */
  function Absorb(s: Lfsr, data: seq<bv8>, encrypted: bool): Lfsr {
    if data == [] then s
    else ByteRun(Absorb(s, data[..|data| - 1], encrypted), data[|data| - 1], encrypted, 8)
  }

  /** The key stream bytes produced meanwhile. */
  function Stream(s: Lfsr, data: seq<bv8>, encrypted: bool): (out: seq<bv8>)
    ensures |out| == |data|
  {
    if data == [] then []
    else Stream(s, data[..|data| - 1], encrypted)
         + [ByteOut(Absorb(s, data[..|data| - 1], encrypted), data[|data| - 1], encrypted, 8)]
  }

  // ---------- the parity helper ----------

  /** The parity of all 32 bits needs one fold more. */
  function FullParity(data: bv32): bv32 { NibbleParity(FoldNibble(Folded(data))) }

  function FoldNibble(x: bv32): bv32 { x ^ (x >> 4) }

  lemma FoldedMask(data: bv32)
    ensures Folded(data & 0xF0F0F0F0) & 0xFF == Folded(data) & 0xF0
  {
  }

  lemma NibblesXor(x: bv8)
    ensures NibbleParity(x as bv32) == NibbleParity((x as bv32) ^ ((x as bv32) >> 4)) <==>
            NibbleParity((x as bv32) >> 4) == 0
  {
  }

  lemma NibbleParityXor(x: bv32, m: bv32)
    requires m & 0xFF == x & 0xF0
    ensures NibbleParity(x) == NibbleParity(FoldNibble(x)) <==> NibbleParity(FoldNibble(m)) == 0
  {
    var y := (x & 0xFF) as bv8;
    NibblesXor(y);
    assert NibbleParity(x) == NibbleParity(y as bv32);
    assert NibbleParity(FoldNibble(x)) == NibbleParity((y as bv32) ^ ((y as bv32) >> 4));
    assert NibbleParity(FoldNibble(m)) == NibbleParity((y as bv32) >> 4);
  }

  /** The exclusive or of all bits of a word. */
  function XorOfBits(w: bv32): bv32
    decreases w
  { if w == 0 then 0 else Xor32(w & 1, XorOfBits(w >> 1)) }

  /** The low nibble of y is that of x turned by one place, with the lowest bit of w taken out. */
  predicate TurnedOut(x: bv32, y: bv32, w: bv32) { y & 0xF == ((x >> 1) & 7) | (((x ^ w) & 1) << 3) }

  /** Shifting a word by one bit turns its fold. */
  lemma FoldShift(w: bv32)
    ensures TurnedOut(FoldNibble(Folded(w)), FoldNibble(Folded(w >> 1)), w)
  {
  }

  /** And the table counts the bit that went. */
  lemma TableShift(x: bv32, y: bv32, w: bv32)
    requires TurnedOut(x, y, w)
    ensures NibbleParity(x) == Xor32(w & 1, NibbleParity(y))
  {
  }

  lemma FullParityStep(w: bv32)
    ensures FullParity(w) == Xor32(w & 1, FullParity(w >> 1))
  {
    hide NibbleParity, FoldNibble, Folded, TurnedOut, Xor32;
    FoldShift(w);
    TableShift(FoldNibble(Folded(w)), FoldNibble(Folded(w >> 1)), w);
  }

  lemma FullParityZero() ensures FullParity(0) == 0 {}

  /** With its last fold the helper is the exclusive or of the 32 bits. */
  lemma {:induction false} FullParityIsXor(w: bv32)
    ensures FullParity(w) == XorOfBits(w)
    decreases w
  {
    hide FullParity, Xor32;
    if w == 0 {
      FullParityZero();
    } else {
      FullParityStep(w);
      FullParityIsXor(w >> 1);
    }
  }

  /** The helper leaves that fold out: it is the exclusive or of its word exactly when the bits it leaves
      out, the high nibble of every byte, have an even number of ones. */
  lemma ParityIffHighNibblesEven(data: bv32)
    ensures Parity(data) == XorOfBits(data) <==> XorOfBits(data & 0xF0F0F0F0) == 0
  {
    hide Folded, NibbleParity, FoldNibble;
    FoldedMask(data);
    NibbleParityXor(Folded(data), Folded(data & 0xF0F0F0F0));
    FullParityIsXor(data);
    FullParityIsXor(data & 0xF0F0F0F0);
  }

  /** A single bit of a high nibble is not seen at all. */
  lemma ParityMissesBit4()
    ensures Parity(0x10) == 0 && XorOfBits(0x10) == 1
  {
    FullParityIsXor(0x10);
  }

  // ---------- a word is four bytes ----------

  lemma OrAssociative(x: bv32, y: bv32, z: bv32) ensures Or(Or(x, y), z) == Or(x, Or(y, z)) {}

  lemma PlaceOr24(x: bv8, y: bv8) ensures Place(Or8(x, y), 24) == Or(Place(x, 24), Place(y, 24)) {}
  lemma PlaceOr16(x: bv8, y: bv8) ensures Place(Or8(x, y), 16) == Or(Place(x, 16), Place(y, 16)) {}
  lemma PlaceOr8(x: bv8, y: bv8) ensures Place(Or8(x, y), 8) == Or(Place(x, 8), Place(y, 8)) {}
  lemma PlaceOr0(x: bv8, y: bv8) ensures Place(Or8(x, y), 0) == Or(Place(x, 0), Place(y, 0)) {}

  lemma PlaceOr(x: bv8, y: bv8, m: nat)
    requires m == 0 || m == 8 || m == 16 || m == 24
    ensures Place(Or8(x, y), m) == Or(Place(x, m), Place(y, m))
  {
    hide *;
    PlaceOr24(x, y);
    PlaceOr16(x, y);
    PlaceOr8(x, y);
    PlaceOr0(x, y);
  }

  lemma PlaceAt24(v: bool)
    ensures Place(At8(v, 0), 24) == At32(v, 24)
    ensures Place(At8(v, 1), 24) == At32(v, 25)
    ensures Place(At8(v, 2), 24) == At32(v, 26)
    ensures Place(At8(v, 3), 24) == At32(v, 27)
    ensures Place(At8(v, 4), 24) == At32(v, 28)
    ensures Place(At8(v, 5), 24) == At32(v, 29)
    ensures Place(At8(v, 6), 24) == At32(v, 30)
    ensures Place(At8(v, 7), 24) == At32(v, 31)
  {
  }

  lemma PlaceAt16(v: bool)
    ensures Place(At8(v, 0), 16) == At32(v, 16)
    ensures Place(At8(v, 1), 16) == At32(v, 17)
    ensures Place(At8(v, 2), 16) == At32(v, 18)
    ensures Place(At8(v, 3), 16) == At32(v, 19)
    ensures Place(At8(v, 4), 16) == At32(v, 20)
    ensures Place(At8(v, 5), 16) == At32(v, 21)
    ensures Place(At8(v, 6), 16) == At32(v, 22)
    ensures Place(At8(v, 7), 16) == At32(v, 23)
  {
  }

  lemma PlaceAt8(v: bool)
    ensures Place(At8(v, 0), 8) == At32(v, 8)
    ensures Place(At8(v, 1), 8) == At32(v, 9)
    ensures Place(At8(v, 2), 8) == At32(v, 10)
    ensures Place(At8(v, 3), 8) == At32(v, 11)
    ensures Place(At8(v, 4), 8) == At32(v, 12)
    ensures Place(At8(v, 5), 8) == At32(v, 13)
    ensures Place(At8(v, 6), 8) == At32(v, 14)
    ensures Place(At8(v, 7), 8) == At32(v, 15)
  {
  }

  lemma PlaceAt0(v: bool)
    ensures Place(At8(v, 0), 0) == At32(v, 0)
    ensures Place(At8(v, 1), 0) == At32(v, 1)
    ensures Place(At8(v, 2), 0) == At32(v, 2)
    ensures Place(At8(v, 3), 0) == At32(v, 3)
    ensures Place(At8(v, 4), 0) == At32(v, 4)
    ensures Place(At8(v, 5), 0) == At32(v, 5)
    ensures Place(At8(v, 6), 0) == At32(v, 6)
    ensures Place(At8(v, 7), 0) == At32(v, 7)
  {
  }

  lemma PlaceBit(v: bool, m: nat, k: nat)
    requires m == 0 || m == 8 || m == 16 || m == 24
    requires k < 8
    ensures Place(At8(v, k), m) == At32(v, m + k)
  {
    hide At8, At32, Place;
    if m == 0 { PlaceAt0(v); }
    else if m == 8 { PlaceAt8(v); }
    else if m == 16 { PlaceAt16(v); }
    else { PlaceAt24(v); }
  }

  lemma PlaceStep(h: bv32, x: bv8, v: bool, m: nat, k: nat)
    requires m == 0 || m == 8 || m == 16 || m == 24
    requires k < 8
    ensures Or(Or(h, Place(x, m)), At32(v, m + k)) == Or(h, Place(Or8(x, At8(v, k)), m))
  {
    hide At8, At32, Or8, Place, Or;
    OrAssociative(h, Place(x, m), At32(v, m + k));
    PlaceOr(x, At8(v, k), m);
    PlaceBit(v, m, k);
  }

  lemma ByteStep(s: Lfsr, b: bv8, encrypted: bool, n: nat)
    requires 0 < n <= 8
    ensures var t := ByteRun(s, b, encrypted, n - 1);
            ByteRun(s, b, encrypted, n) == Next(t, BitAt(b, n - 1), encrypted) &&
            ByteOut(s, b, encrypted, n) == Or8(ByteOut(s, b, encrypted, n - 1), At8(Ks(t), n - 1))
  {
  }

  lemma WordStep(s: Lfsr, w: bv32, encrypted: bool, base: nat, n: nat)
    requires base == 0 || base == 8 || base == 16 || base == 24
    requires 0 < n <= 8
    ensures var t := WordRun(s, w, encrypted, base + n - 1); var i := 24 - base + (n - 1);
            WordRun(s, w, encrypted, base + n) == Next(t, BitAt32(w, i), encrypted) &&
            WordOut(s, w, encrypted, base + n) == Or(WordOut(s, w, encrypted, base + n - 1), At32(Ks(t), i))
  {
    hide Next, Ks, BitAt32, At32, Or;
    assert BeIndex(base + n - 1) == 24 - base + (n - 1);
  }

  /** Steps base to base + n of a word are the first n steps of the byte at that place. */
  lemma {:induction false} WordGroup(s: Lfsr, w: bv32, encrypted: bool, base: nat, n: nat)
    requires base == 0 || base == 8 || base == 16 || base == 24
    requires n <= 8
    ensures var m := 24 - base; var t := WordRun(s, w, encrypted, base);
            WordRun(s, w, encrypted, base + n) == ByteRun(t, Window(w, m), encrypted, n) &&
            WordOut(s, w, encrypted, base + n) ==
              Or(WordOut(s, w, encrypted, base), Place(ByteOut(t, Window(w, m), encrypted, n), m))
  {
    hide *;
    var m := 24 - base;
    var t := WordRun(s, w, encrypted, base);
    if n == 0 {
      ByteStart(t, Window(w, m), encrypted);
      OrZero(WordOut(s, w, encrypted, base), m);
    } else {
      WordGroup(s, w, encrypted, base, n - 1);
      WordStep(s, w, encrypted, base, n);
      ByteStep(t, Window(w, m), encrypted, n);
      BitOfWindow(w, m, n - 1);
      PlaceStep(WordOut(s, w, encrypted, base), ByteOut(t, Window(w, m), encrypted, n - 1),
                Ks(ByteRun(t, Window(w, m), encrypted, n - 1)), m, n - 1);
    }
  }

  lemma ByteStart(s: Lfsr, b: bv8, encrypted: bool)
    ensures ByteRun(s, b, encrypted, 0) == s && ByteOut(s, b, encrypted, 0) == 0
  {
  }

  lemma OrZero(x: bv32, m: nat)
    requires m <= 24
    ensures Or(x, Place(0, m)) == x
  {
    assert (0 as bv32) << m == 0;
  }

  lemma OrPlaces(b0: bv8, b1: bv8, b2: bv8, b3: bv8)
    ensures Or(Or(Or(Or(0, Place(b0, 24)), Place(b1, 16)), Place(b2, 8)), Place(b3, 0)) == Join(b0, b1, b2, b3)
  {
    assert Place(b3, 0) == b3 as bv32;
  }

  lemma Snoc(s: Lfsr, data: seq<bv8>, b: bv8, encrypted: bool)
    ensures Absorb(s, data + [b], encrypted) == ByteRun(Absorb(s, data, encrypted), b, encrypted, 8)
    ensures Stream(s, data + [b], encrypted) ==
            Stream(s, data, encrypted) + [ByteOut(Absorb(s, data, encrypted), b, encrypted, 8)]
  {
    hide ByteRun, ByteOut;
    assert (data + [b])[..|data|] == data;
  }

  lemma OneByte(s: Lfsr, b: bv8, encrypted: bool)
    ensures Absorb(s, [b], encrypted) == ByteRun(s, b, encrypted, 8)
    ensures Stream(s, [b], encrypted) == [ByteOut(s, b, encrypted, 8)]
  {
    hide ByteRun, ByteOut;
  }

  lemma FourBytes(s: Lfsr, b0: bv8, b1: bv8, b2: bv8, b3: bv8, encrypted: bool)
    ensures var s1 := ByteRun(s, b0, encrypted, 8);
            var s2 := ByteRun(s1, b1, encrypted, 8);
            var s3 := ByteRun(s2, b2, encrypted, 8);
            Absorb(s, [b0, b1, b2, b3], encrypted) == ByteRun(s3, b3, encrypted, 8) &&
            Stream(s, [b0, b1, b2, b3], encrypted) ==
              [ByteOut(s, b0, encrypted, 8), ByteOut(s1, b1, encrypted, 8),
               ByteOut(s2, b2, encrypted, 8), ByteOut(s3, b3, encrypted, 8)]
  {
    hide *;
    var s1 := ByteRun(s, b0, encrypted, 8);
    var s2 := ByteRun(s1, b1, encrypted, 8);
    var s3 := ByteRun(s2, b2, encrypted, 8);
    OneByte(s, b0, encrypted);
    Snoc(s, [b0], b1, encrypted);
    assert [b0] + [b1] == [b0, b1];
    assert Stream(s, [b0, b1], encrypted) == [ByteOut(s, b0, encrypted, 8), ByteOut(s1, b1, encrypted, 8)];
    Snoc(s, [b0, b1], b2, encrypted);
    assert [b0, b1] + [b2] == [b0, b1, b2];
    Snoc(s, [b0, b1, b2], b3, encrypted);
    assert [b0, b1, b2] + [b3] == [b0, b1, b2, b3];
  }

  /** Absorbing a word is absorbing its four bytes, most significant first, and the key stream
      word is made of the four key stream bytes. */
  lemma WordIsFourBytes(s: Lfsr, w: bv32, encrypted: bool)
    ensures WordRun(s, w, encrypted, 32) == Absorb(s, BytesOf(w), encrypted)
    ensures WordOut(s, w, encrypted, 32) == WordOf(Stream(s, BytesOf(w), encrypted))
  {
    hide ByteRun, ByteOut, WordRun, WordOut, Window, Place, Or, Join, Absorb, Stream;
    WordStart(s, w, encrypted);
    WordGroup(s, w, encrypted, 0, 8);
    WordGroup(s, w, encrypted, 8, 8);
    WordGroup(s, w, encrypted, 16, 8);
    WordGroup(s, w, encrypted, 24, 8);
    FourBytes(s, Window(w, 24), Window(w, 16), Window(w, 8), Window(w, 0), encrypted);
    var out := Stream(s, BytesOf(w), encrypted);
    OrPlaces(out[0], out[1], out[2], out[3]);
  }

  lemma WordStart(s: Lfsr, w: bv32, encrypted: bool)
    ensures WordRun(s, w, encrypted, 0) == s && WordOut(s, w, encrypted, 0) == 0
  {
  }

  // ---------- encrypted absorption is plain absorption ----------

  function Pack(v0: bool, v1: bool, v2: bool, v3: bool, v4: bool, v5: bool, v6: bool, v7: bool): bv8 {
    Or8(Or8(Or8(Or8(Or8(Or8(Or8(Or8(0, At8(v0, 0)), At8(v1, 1)), At8(v2, 2)), At8(v3, 3)),
                        At8(v4, 4)), At8(v5, 5)), At8(v6, 6)), At8(v7, 7))
  }

  lemma BitsOfPack(v0: bool, v1: bool, v2: bool, v3: bool, v4: bool, v5: bool, v6: bool, v7: bool)
    ensures var b := Pack(v0, v1, v2, v3, v4, v5, v6, v7);
            && BitAt(b, 0) == v0 && BitAt(b, 1) == v1 && BitAt(b, 2) == v2 && BitAt(b, 3) == v3
            && BitAt(b, 4) == v4 && BitAt(b, 5) == v5 && BitAt(b, 6) == v6 && BitAt(b, 7) == v7
  {
  }

  /** Bit k of a key stream byte is the key stream after k steps. */
  lemma BitOfByteOut(s: Lfsr, b: bv8, encrypted: bool, k: nat)
    requires k < 8
    ensures BitAt(ByteOut(s, b, encrypted, 8), k) == Ks(ByteRun(s, b, encrypted, k))
  {
    hide *;
    ByteStart(s, b, encrypted);
    ByteStep(s, b, encrypted, 1);
    ByteStep(s, b, encrypted, 2);
    ByteStep(s, b, encrypted, 3);
    ByteStep(s, b, encrypted, 4);
    ByteStep(s, b, encrypted, 5);
    ByteStep(s, b, encrypted, 6);
    ByteStep(s, b, encrypted, 7);
    ByteStep(s, b, encrypted, 8);
    var v0, v1 := Ks(ByteRun(s, b, encrypted, 0)), Ks(ByteRun(s, b, encrypted, 1));
    var v2, v3 := Ks(ByteRun(s, b, encrypted, 2)), Ks(ByteRun(s, b, encrypted, 3));
    var v4, v5 := Ks(ByteRun(s, b, encrypted, 4)), Ks(ByteRun(s, b, encrypted, 5));
    var v6, v7 := Ks(ByteRun(s, b, encrypted, 6)), Ks(ByteRun(s, b, encrypted, 7));
    PackIs(v0, v1, v2, v3, v4, v5, v6, v7);
    BitsOfPack(v0, v1, v2, v3, v4, v5, v6, v7);
  }

  lemma PackIs(v0: bool, v1: bool, v2: bool, v3: bool, v4: bool, v5: bool, v6: bool, v7: bool)
    ensures Pack(v0, v1, v2, v3, v4, v5, v6, v7) ==
            Or8(Or8(Or8(Or8(Or8(Or8(Or8(Or8(0, At8(v0, 0)), At8(v1, 1)), At8(v2, 2)), At8(v3, 3)),
                                At8(v4, 4)), At8(v5, 5)), At8(v6, 6)), At8(v7, 7))
  {
    hide Or8, At8;
  }

  /** Absorbing, with feedback, the byte that encrypts b goes through the states that b goes through
      without feedback. */
  lemma {:induction false} EncryptedByte(s: Lfsr, b: bv8, n: nat)
    requires n <= 8
    ensures var e := Xor(ByteOut(s, b, false, 8), b);
            ByteRun(s, e, true, n) == ByteRun(s, b, false, n) &&
            ByteOut(s, e, true, n) == ByteOut(s, b, false, n)
  {
    hide *;
    var e := Xor(ByteOut(s, b, false, 8), b);
    if n == 0 {
      ByteStart(s, e, true);
      ByteStart(s, b, false);
    } else {
      EncryptedByte(s, b, n - 1);
      ByteStep(s, e, true, n);
      ByteStep(s, b, false, n);
      XorBit(ByteOut(s, b, false, 8), b, n - 1);
      BitOfByteOut(s, b, false, n - 1);
      NextEncrypted(ByteRun(s, b, false, n - 1), BitAt(b, n - 1));
    }
  }

  /** The same the other way round: what b decrypts to, absorbed plain, goes through its states. */
  lemma {:induction false} DecryptedByte(s: Lfsr, e: bv8, n: nat)
    requires n <= 8
    ensures var b := Xor(ByteOut(s, e, true, 8), e);
            ByteRun(s, b, false, n) == ByteRun(s, e, true, n) &&
            ByteOut(s, b, false, n) == ByteOut(s, e, true, n)
  {
    hide *;
    var b := Xor(ByteOut(s, e, true, 8), e);
    if n == 0 {
      ByteStart(s, e, true);
      ByteStart(s, b, false);
    } else {
      DecryptedByte(s, e, n - 1);
      ByteStep(s, e, true, n);
      ByteStep(s, b, false, n);
      XorBit(ByteOut(s, e, true, 8), e, n - 1);
      BitOfByteOut(s, e, true, n - 1);
      NextEncrypted(ByteRun(s, b, false, n - 1), BitAt(b, n - 1));
    }
  }

  /** What a sender puts on the air for data it also absorbs. */
  function Encrypted(s: Lfsr, data: seq<bv8>): (e: seq<bv8>)
    ensures |e| == |data|
  { XorBytes(Stream(s, data, false), data) }

  lemma EncryptedSnoc(s: Lfsr, data: seq<bv8>, b: bv8)
    ensures Encrypted(s, data + [b]) ==
            Encrypted(s, data) + [Xor(ByteOut(Absorb(s, data, false), b, false, 8), b)]
  {
    hide ByteOut, Absorb, Stream, Xor;
    Snoc(s, data, b, false);
  }

  lemma {:induction false} EncryptedAbsorption(s: Lfsr, data: seq<bv8>)
    ensures Absorb(s, Encrypted(s, data), true) == Absorb(s, data, false)
  {
    hide ByteRun, ByteOut, Xor, Encrypted, Stream;
    if data == [] {
      assert Encrypted(s, data) == [];
    } else {
      var init, b := data[..|data| - 1], data[|data| - 1];
      assert data == init + [b];
      EncryptedAbsorption(s, init);
      EncryptedSnoc(s, init, b);
      EncryptedByte(Absorb(s, init, false), b, 8);
      Snoc(s, Encrypted(s, init), Xor(ByteOut(Absorb(s, init, false), b, false, 8), b), true);
      Snoc(s, init, b, false);
    }
  }

  /** The plaintext of received data, absorbed as it arrives with feedback. */
  function Decrypted(s: Lfsr, e: seq<bv8>): (data: seq<bv8>)
    ensures |data| == |e|
  { XorBytes(Stream(s, e, true), e) }

  lemma DecryptedSnoc(s: Lfsr, e: seq<bv8>, b: bv8)
    ensures Decrypted(s, e + [b]) == Decrypted(s, e) + [Xor(ByteOut(Absorb(s, e, true), b, true, 8), b)]
  {
    hide ByteOut, Absorb, Stream, Xor;
    Snoc(s, e, b, true);
  }

  /** Every received byte string is the encryption of exactly the data it decrypts to. */
  lemma {:induction false} DecryptedEncrypts(s: Lfsr, e: seq<bv8>)
    ensures Encrypted(s, Decrypted(s, e)) == e
    ensures Absorb(s, Decrypted(s, e), false) == Absorb(s, e, true)
  {
    hide ByteRun, ByteOut, Xor, Encrypted, Decrypted, Stream;
    if e == [] {
      assert Decrypted(s, e) == [] && Encrypted(s, []) == [];
    } else {
      var init, b := e[..|e| - 1], e[|e| - 1];
      assert e == init + [b];
      DecryptedEncrypts(s, init);
      var t := Absorb(s, init, true);
      var ks := ByteOut(t, b, true, 8);
      DecryptedSnoc(s, init, b);
      DecryptedByte(t, b, 8);
      EncryptedSnoc(s, Decrypted(s, init), Xor(ks, b));
      XorXor(ks, b);
      Snoc(s, Decrypted(s, init), Xor(ks, b), false);
      Snoc(s, init, b, true);
    }
  }

  /** Decryption undoes encryption. */
  lemma {:induction false} EncryptedDecrypts(s: Lfsr, data: seq<bv8>)
    ensures Decrypted(s, Encrypted(s, data)) == data
  {
    hide ByteRun, ByteOut, Xor, Encrypted, Decrypted, Stream;
    if data == [] {
      assert Encrypted(s, data) == [] && Decrypted(s, []) == [];
    } else {
      var init, b := data[..|data| - 1], data[|data| - 1];
      assert data == init + [b];
      EncryptedDecrypts(s, init);
      EncryptedAbsorption(s, init);
      var t := Absorb(s, init, false);
      var ks := ByteOut(t, b, false, 8);
      EncryptedSnoc(s, init, b);
      EncryptedByte(t, b, 8);
      DecryptedSnoc(s, Encrypted(s, init), Xor(ks, b));
      XorXor(ks, b);
    }
  }

  // ---------- the nonce generator ----------

  /** SWAPENDIAN. */
  function Swap(x: bv32): bv32 {
    var y := ((x >> 8) & 0x00FF00FF) | ((x & 0x00FF00FF) << 8);
    (y >> 16) | (y << 16)
  }

  function PrngStep(x: bv32): bv32 {
    (x >> 1) | (((x >> 16) ^ (x >> 18) ^ (x >> 19) ^ (x >> 21)) << 31)
  }

  function Prng(x: bv32, n: nat): bv32 {
    if n == 0 then x else PrngStep(Prng(x, n - 1))
  }

  function Successor(x: bv32, n: nat): bv32 { Swap(Prng(Swap(x), n)) }

  lemma SwapTwice(x: bv32) ensures Swap(Swap(x)) == x {}

  lemma WindowsOfSwap(x: bv32, y: bv32)
    requires y == (var z := ((x >> 8) & 0x00FF00FF) | ((x & 0x00FF00FF) << 8); (z >> 16) | (z << 16))
    ensures Window(y, 24) == Window(x, 0) && Window(y, 16) == Window(x, 8)
    ensures Window(y, 8) == Window(x, 16) && Window(y, 0) == Window(x, 24)
  {
  }

  lemma SwapWindows(x: bv32)
    ensures Window(Swap(x), 24) == Window(x, 0) && Window(Swap(x), 16) == Window(x, 8)
    ensures Window(Swap(x), 8) == Window(x, 16) && Window(Swap(x), 0) == Window(x, 24)
  {
    hide Window;
    WindowsOfSwap(x, Swap(x));
  }

  lemma {:induction false} PrngAdd(x: bv32, a: nat, b: nat)
    ensures Prng(Prng(x, a), b) == Prng(x, a + b)
  {
    hide PrngStep;
    if b > 0 { PrngAdd(x, a, b - 1); }
  }

  /** Asking for the successor in steps is asking for it at once. */
  lemma SuccessorAdd(x: bv32, a: nat, b: nat)
    ensures Successor(Successor(x, a), b) == Successor(x, a + b)
  {
    hide Swap, Prng;
    SwapTwice(Prng(Swap(x), a));
    PrngAdd(Swap(x), a, b);
  }

  lemma SlideFrom0(x: bv32)
    ensures Window(PrngStep(x), 0) == Window(x, 1)
    ensures Window(PrngStep(x), 1) == Window(x, 2)
    ensures Window(PrngStep(x), 2) == Window(x, 3)
    ensures Window(PrngStep(x), 3) == Window(x, 4)
    ensures Window(PrngStep(x), 4) == Window(x, 5)
    ensures Window(PrngStep(x), 5) == Window(x, 6)
    ensures Window(PrngStep(x), 6) == Window(x, 7)
    ensures Window(PrngStep(x), 7) == Window(x, 8)
  {
  }

  lemma SlideFrom8(x: bv32)
    ensures Window(PrngStep(x), 8) == Window(x, 9)
    ensures Window(PrngStep(x), 9) == Window(x, 10)
    ensures Window(PrngStep(x), 10) == Window(x, 11)
    ensures Window(PrngStep(x), 11) == Window(x, 12)
    ensures Window(PrngStep(x), 12) == Window(x, 13)
    ensures Window(PrngStep(x), 13) == Window(x, 14)
    ensures Window(PrngStep(x), 14) == Window(x, 15)
    ensures Window(PrngStep(x), 15) == Window(x, 16)
  {
  }

  lemma SlideFrom16(x: bv32)
    ensures Window(PrngStep(x), 16) == Window(x, 17)
    ensures Window(PrngStep(x), 17) == Window(x, 18)
    ensures Window(PrngStep(x), 18) == Window(x, 19)
    ensures Window(PrngStep(x), 19) == Window(x, 20)
    ensures Window(PrngStep(x), 20) == Window(x, 21)
    ensures Window(PrngStep(x), 21) == Window(x, 22)
    ensures Window(PrngStep(x), 22) == Window(x, 23)
    ensures Window(PrngStep(x), 23) == Window(x, 24)
  {
  }

  lemma Slide(x: bv32, m: nat)
    requires 0 < m <= 24
    ensures Window(PrngStep(x), m - 1) == Window(x, m)
  {
    hide Window, PrngStep;
    SlideFrom0(x);
    SlideFrom8(x);
    SlideFrom16(x);
  }

  lemma {:induction false} SlideMany(x: bv32, m: nat, n: nat)
    requires n <= m <= 24
    ensures Window(Prng(x, n), m - n) == Window(x, m)
  {
    hide Window, PrngStep;
    if n > 0 {
      SlideMany(x, m, n - 1);
      Slide(Prng(x, n - 1), m - n + 1);
    }
  }

  /** The low byte of the (40 + 8j)-th successor is the j-th byte of the 64th: the reader draws
      the answer the card expects byte by byte. */
  lemma DrawnByte(nt: bv32, j: nat)
    requires j < 4
    ensures Window(Successor(nt, 40 + 8 * j), 0) == BytesOf(Successor(nt, 64))[j]
  {
    hide Window, Swap, Prng;
    var y := Swap(nt);
    var v := Prng(y, 40 + 8 * j);
    PrngAdd(y, 40 + 8 * j, 24 - 8 * j);
    SlideMany(v, 24, 24 - 8 * j);
    SwapWindows(v);
    SwapWindows(Prng(y, 64));
  }

  // ---------- three-pass authentication ----------

  function KeyIndex(i: nat): (k: nat)
    requires i < 48
    ensures k < 48
  { i / 8 * 8 + (7 - i % 8) }

  function KeyBit(key: bv64, k: nat): bv32
    requires k < 48
  { ((key >> k) & 1) as bv32 }

  /** crypto1_init after n turns of its loop. */
  function KeyRun(key: bv64, n: nat): Lfsr
    requires n <= 24
  {
    if n == 0 then Lfsr(0, 0)
    else
      var p := KeyRun(key, n - 1);
      Lfsr(ShiftIn(p.odd, KeyBit(key, KeyIndex(48 - 2 * n))), ShiftIn(p.even, KeyBit(key, KeyIndex(49 - 2 * n))))
  }

  function KeyState(key: bv64): Lfsr { KeyRun(key, 24) }

  /** Both sides after the card's nonce. */
  function Opened(key: bv64, cuid: bv32, nt: bv32): Lfsr {
    WordRun(KeyState(key), nt ^ cuid, false, 32)
  }

  /** The reader's answer: its encrypted nonce, then the encrypted 64th successor of the card's. */
  function ReaderFrame(s: Lfsr, nt: bv32, nr: seq<bv8>): (tx: seq<bv8>)
    requires |nr| == 4
    ensures |tx| == 8
  {
    Encrypted(s, nr) + XorBytes(Stream(Absorb(s, nr, false), Zeros(4), false), BytesOf(Successor(nt, 64)))
  }

  /** The card after absorbing the encrypted reader nonce. */
  function CardHeard(s: Lfsr, tx: seq<bv8>): Lfsr
    requires |tx| == 8
  { WordRun(s, WordOf(tx[..4]), true, 32) }

  /** The card's test of the reader's answer. */
  predicate CardAccepts(s: Lfsr, nt: bv32, tx: seq<bv8>)
    requires |tx| == 8
  { Xor32(WordOf(tx[4..]), WordOut(CardHeard(s, tx), 0, false, 32)) == Successor(nt, 64) }

  lemma BytesOfZero()
    ensures BytesOf(0) == Zeros(4)
  {
  }

  lemma CardHearsNonce(s: Lfsr, nt: bv32, nr: seq<bv8>)
    requires |nr| == 4
    ensures CardHeard(s, ReaderFrame(s, nt, nr)) == Absorb(s, nr, false)
  {
    hide Encrypted, WordOf, BytesOf, Absorb, Stream, WordRun, Successor;
    var e := Encrypted(s, nr);
    assert ReaderFrame(s, nt, nr)[..4] == e;
    WordIsFourBytes(s, WordOf(e), true);
    BytesOfWordOf(e);
    EncryptedAbsorption(s, nr);
  }

  lemma Xor32Left(a: bv32, b: bv32) ensures Xor32(Xor32(a, b), b) == a {}
  lemma Xor32Right(b: bv32, c: bv32) ensures Xor32(Xor32(b, c), b) == c {}
  lemma Xor32Swap(a: bv32, b: bv32) ensures Xor32(a, b) == Xor32(b, a) {}

  /** The card accepts exactly the frames a reader with the same opened cipher can build: for the
      nonce a frame decrypts to there is one acceptable answer, and it is the reader's. */
  lemma CardAcceptsIff(s: Lfsr, nt: bv32, tx: seq<bv8>)
    requires |tx| == 8
    ensures CardAccepts(s, nt, tx) <==> tx == ReaderFrame(s, nt, Decrypted(s, tx[..4]))
    ensures CardHeard(s, tx) == Absorb(s, Decrypted(s, tx[..4]), false)
  {
    hide *;
    AcceptsUnfolded(s, nt, tx);
    var ks := Stream(CardHeard(s, tx), Zeros(4), false);
    var ar := XorBytes(ks, BytesOf(Successor(nt, 64)));
    WordIsFourBytes(CardHeard(s, tx), 0, false);
    BytesOfZero();
    WordOfBytesOf(Successor(nt, 64));
    XorWord(ks, BytesOf(Successor(nt, 64)));
    Xor32Left(WordOf(tx[4..]), WordOf(ks));
    Xor32Right(WordOf(ks), Successor(nt, 64));
    Xor32Swap(Successor(nt, 64), WordOf(ks));
    BytesOfWordOf(ar);
    BytesOfWordOf(tx[4..]);
    assert tx == tx[..4] + tx[4..];
  }

  lemma AcceptsUnfolded(s: Lfsr, nt: bv32, tx: seq<bv8>)
    requires |tx| == 8
    ensures CardAccepts(s, nt, tx) <==>
            Xor32(WordOf(tx[4..]), WordOut(CardHeard(s, tx), 0, false, 32)) == Successor(nt, 64)
    ensures CardHeard(s, tx) == Absorb(s, Decrypted(s, tx[..4]), false)
    ensures ReaderFrame(s, nt, Decrypted(s, tx[..4])) ==
            tx[..4] + XorBytes(Stream(CardHeard(s, tx), Zeros(4), false), BytesOf(Successor(nt, 64)))
  {
    hide Encrypted, Decrypted, WordOf, Absorb, Stream, WordRun, Xor32, WordOut, BytesOf, Successor;
    DecryptedEncrypts(s, tx[..4]);
    WordIsFourBytes(s, WordOf(tx[..4]), true);
    BytesOfWordOf(tx[..4]);
  }

  /** Completeness: whatever nonce the reader picks, the card accepts. */
  lemma ReaderFrameAccepted(s: Lfsr, nt: bv32, nr: seq<bv8>)
    requires |nr| == 4
    ensures CardAccepts(s, nt, ReaderFrame(s, nt, nr))
  {
    hide Encrypted, Decrypted, CardAccepts, CardHeard, Stream, Absorb, Successor, BytesOf;
    var tx := ReaderFrame(s, nt, nr);
    assert tx[..4] == Encrypted(s, nr);
    EncryptedDecrypts(s, nr);
    CardAcceptsIff(s, nt, tx);
  }


  // ---------- the code ----------

  lemma FilterIsFlag(x: bv32)
    ensures Filter(x) == Flag32(Filter(x) != 0)
  {
    LowBit(Filter(x));
  }

  lemma LowBit(v: bv32)
    ensures v & 1 == 0 || v & 1 == 1
  {
  }

  lemma ZerosSnoc(n: nat)
    ensures Zeros(n) + [0] == Zeros(n + 1)
  {
  }

  method PrngSuccessor(x: bv32, n: nat) returns (y: bv32)
    ensures y == Successor(x, n)
  {
    hide Swap, PrngStep;
    y := Swap(x);
    for i := 0 to n
      invariant y == Prng(Swap(x), i)
    {
      y := PrngStep(y);
    }
    y := Swap(y);
  }

  class Cipher {
    var odd: bv32
    var even: bv32

    function State(): Lfsr
      reads this
    { Lfsr(odd, even) }

    constructor ()
      ensures State() == Lfsr(0, 0)
    {
      odd, even := 0, 0;
    }

    method Reset()
      modifies this
      ensures State() == Lfsr(0, 0)
    {
      odd, even := 0, 0;
    }

    method Init(key: bv64)
      modifies this
      ensures State() == KeyState(key)
    {
      hide KeyBit, KeyIndex, ShiftIn;
      even := 0;
      odd := 0;
      for n := 0 to 24
        invariant State() == KeyRun(key, n)
      {
        var i := 47 - 2 * n;
        odd := ShiftIn(odd, KeyBit(key, KeyIndex(i - 1)));
        even := ShiftIn(even, KeyBit(key, KeyIndex(i)));
      }
    }

    method Bit(input: bv8, encrypted: bool) returns (out: bv8)
      modifies this
      ensures out == Flag8(Ks(old(State())))
      ensures State() == Next(old(State()), input != 0, encrypted)
    {
      hide Filter, FeedIn, Xor32;
      var f := Filter(odd);
      FilterIsFlag(odd);
      out := Flag8(f != 0);
      var feed := Xor32(if encrypted then f else 0, Flag32(input != 0));
      even := FeedIn(odd, even, feed);
      var t := odd;
      odd := even;
      even := t;
    }

    method Byte(input: bv8, encrypted: bool) returns (out: bv8)
      modifies this
      ensures out == ByteOut(old(State()), input, encrypted, 8)
      ensures State() == ByteRun(old(State()), input, encrypted, 8)
    {
      hide Next, Ks, BitAt, At8, Or8;
      out := 0;
      for i := 0 to 8
        invariant out == ByteOut(old(State()), input, encrypted, i)
        invariant State() == ByteRun(old(State()), input, encrypted, i)
      {
        var bit := Bit(Flag8(BitAt(input, i)), encrypted);
        out := Or8(out, At8(bit != 0, i));
      }
    }

    method Word(input: bv32, encrypted: bool) returns (out: bv32)
      modifies this
      ensures out == WordOut(old(State()), input, encrypted, 32)
      ensures State() == WordRun(old(State()), input, encrypted, 32)
    {
      hide Next, Ks, BitAt32, At32, Or, BeIndex;
      out := 0;
      for i := 0 to 32
        invariant out == WordOut(old(State()), input, encrypted, i)
        invariant State() == WordRun(old(State()), input, encrypted, i)
      {
        var bit := Bit(Flag8(BitAt32(input, BeIndex(i))), encrypted);
        out := Or(out, At32(bit != 0, BeIndex(i)));
      }
    }

    /** crypto1_encrypt: each byte of its key stream argument is fed to the register. */
    method EncryptFeeding(feed: seq<bv8>, data: seq<bv8>) returns (out: seq<bv8>)
      requires |feed| == |data|
      modifies this
      ensures out == XorBytes(Stream(old(State()), feed, false), data)
      ensures State() == Absorb(old(State()), feed, false)
    {
      hide ByteRun, ByteOut, Xor, Absorb, Stream;
      ghost var s := State();
      out := [];
      AbsorbNothing(s);
      for i := 0 to |data|
        invariant out == XorBytes(Stream(s, feed[..i], false), data[..i])
        invariant State() == Absorb(s, feed[..i], false)
      {
        assert feed[..i + 1] == feed[..i] + [feed[i]];
        Snoc(s, feed[..i], feed[i], false);
        var ks := Byte(feed[i], false);
        out := out + [Xor(ks, data[i])];
      }
      assert data[..|data|] == data && feed[..|data|] == feed;
    }

    /** crypto1_encrypt without that argument, and crypto1_decrypt: they are the same. */
    method Crypt(data: seq<bv8>) returns (out: seq<bv8>)
      modifies this
      ensures out == XorBytes(Stream(old(State()), Zeros(|data|), false), data)
      ensures State() == Absorb(old(State()), Zeros(|data|), false)
    {
      hide ByteRun, ByteOut, Xor, Absorb, Stream, XorBytes;
      out := EncryptFeeding(Zeros(|data|), data);
    }

    /** crypto1_encrypt_reader_nonce. */
    method EncryptReaderNonce(key: bv64, cuid: bv32, nt: seq<bv8>, nr: seq<bv8>) returns (tx: seq<bv8>)
      requires |nt| == 4 && |nr| == 4
      modifies this
      ensures tx == ReaderFrame(Opened(key, cuid, WordOf(nt)), WordOf(nt), nr)
      ensures State() == Absorb(Absorb(Opened(key, cuid, WordOf(nt)), nr, false), Zeros(4), false)
    {
      hide KeyState, WordOf, WordRun, WordOut, Encrypted, Absorb, Stream, Successor, BytesOf, XorBytes;
      Init(key);
      var _ := Word(WordOf(nt) ^ cuid, false);
      var head := EncryptNonce(nr);
      var tail := EncryptAnswer(WordOf(nt));
      tx := head + tail;
    }

    /** Its first loop: the reader's nonce, encrypted while it is absorbed. */
    method EncryptNonce(nr: seq<bv8>) returns (out: seq<bv8>)
      modifies this
      ensures out == Encrypted(old(State()), nr)
      ensures State() == Absorb(old(State()), nr, false)
    {
      hide *;
      ghost var s := State();
      AbsorbNothing(s);
      out := [];
      for i := 0 to |nr|
        invariant out == Encrypted(s, nr[..i])
        invariant State() == Absorb(s, nr[..i], false)
      {
        assert nr[..i + 1] == nr[..i] + [nr[i]];
        Snoc(s, nr[..i], nr[i], false);
        EncryptedSnoc(s, nr[..i], nr[i]);
        var ks := Byte(nr[i], false);
        out := out + [Xor(ks, nr[i])];
      }
      assert nr[..|nr|] == nr;
    }

    /** Its second loop: the card's nonce run forward, a byte drawn every eight steps. */
    method EncryptAnswer(nt: bv32) returns (out: seq<bv8>)
      modifies this
      ensures out == XorBytes(Stream(old(State()), Zeros(4), false), BytesOf(Successor(nt, 64)))
      ensures State() == Absorb(old(State()), Zeros(4), false)
    {
      hide Absorb, Stream, Xor, Successor, BytesOf, Window, ByteRun, ByteOut;
      ghost var s := State();
      ghost var answer := BytesOf(Successor(nt, 64));
      AbsorbNothing(s);
      var n := PrngSuccessor(nt, 32);
      out := [];
      for i := 0 to 4
        invariant n == Successor(nt, 32 + 8 * i)
        invariant State() == Absorb(s, Zeros(i), false)
        invariant out == XorBytes(Stream(s, Zeros(i), false), answer[..i])
      {
        ZerosSnoc(i);
        Snoc(s, Zeros(i), 0, false);
        SuccessorAdd(nt, 32 + 8 * i, 8);
        DrawnByte(nt, i);
        n := PrngSuccessor(n, 8);
        var ks := Byte(0, false);
        out := out + [Xor(ks, Window(n, 0))];
      }
      assert answer[..4] == answer;
    }
  }

  lemma AbsorbNothing(s: Lfsr)
    ensures Absorb(s, [], false) == s && Stream(s, [], false) == []
    ensures Absorb(s, Zeros(0), false) == s && Stream(s, Zeros(0), false) == []
    ensures Encrypted(s, []) == []
  {
    assert Zeros(0) == [];
  }
}
