/** CRYPTO1 as a 48-bit shift register, written over single bits as Garcia, de Koning Gans, Muijrers,
    van Rossum, Verdult, Wichers Schreur and Jacobs publish it in "Dismantling MIFARE Classic"
    (ESORICS 2008), and the code of crypto1.c measured against it.

    The filter, the loading of the key and the nonce generator are the published ones, and the code's
    key stream is that of such a register at any length.  Its feedback is not the published one: six
    of eighteen taps are lost in the parity helper. */
module Crypto1Register {
  import opened Words
  import opened Crypto1

  // ---------- the register ----------

  /** The bits of the register, oldest first. */
  type Register = x: seq<bool> | |x| == 48 witness seq(48, i => false)

  predicate Fa(a: bool, b: bool, c: bool, d: bool) { ((a || b) != (a && d)) != (c && ((a != b) || d)) }

  predicate Fb(a: bool, b: bool, c: bool, d: bool) { ((a && b) || c) != ((a != b) && (c || d)) }

  predicate Fc(a: bool, b: bool, c: bool, d: bool, e: bool) {
    (a || ((b || e) && (d != e))) != ((a != (b && d)) && ((c != d) || (b && e)))
  }

  /** The filter: twenty of the bits, in five groups. */
  predicate Filtered(x: Register) {
    Fc(Fa(x[9], x[11], x[13], x[15]), Fb(x[17], x[19], x[21], x[23]), Fb(x[25], x[27], x[29], x[31]),
       Fa(x[33], x[35], x[37], x[39]), Fb(x[41], x[43], x[45], x[47]))
  }

  predicate Xor4(a: bool, b: bool, c: bool, d: bool) { (a != b) != (c != d) }

  predicate Xor6(a: bool, b: bool, c: bool, d: bool, e: bool, f: bool) { Xor4(a, b, c, d) != (e != f) }

  /** The feedback as published. */
  predicate Published(x: Register) {
    Xor6(x[0], x[5], x[9], x[10], x[12], x[14]) !=
    (Xor6(x[15], x[17], x[19], x[24], x[25], x[27]) != Xor6(x[29], x[35], x[39], x[41], x[42], x[43]))
  }

  /** The feedback of the code. */
  predicate Built(x: Register) {
    Xor6(x[9], x[10], x[12], x[14], x[15], x[24]) != Xor6(x[25], x[27], x[29], x[41], x[42], x[43])
  }

  /** One clock with a given feedback. */
  function Clock(x: Register, feedback: bool, input: bool, encrypted: bool): Register {
    x[1..] + [feedback != (input != (encrypted && Filtered(x)))]
  }

  function Run(x: Register, inputs: seq<bool>, encrypted: bool): Register {
    if inputs == [] then x
    else
      var y := Run(x, inputs[..|inputs| - 1], encrypted);
      Clock(y, Built(y), inputs[|inputs| - 1], encrypted)
  }

  /** The key stream while the inputs go in. */
  function KeyStream(x: Register, inputs: seq<bool>, encrypted: bool): (out: seq<bool>)
    ensures |out| == |inputs|
  {
    if inputs == [] then []
    else KeyStream(x, inputs[..|inputs| - 1], encrypted) + [Filtered(Run(x, inputs[..|inputs| - 1], encrypted))]
  }

  /** The code's clock is the published one exactly when the lost taps cancel. */
  lemma ClockIff(x: Register, input: bool, encrypted: bool)
    ensures Clock(x, Built(x), input, encrypted) == Clock(x, Published(x), input, encrypted)
            <==> !Xor6(x[0], x[5], x[17], x[19], x[35], x[39])
  {
    hide Filtered;
    var f := input != (encrypted && Filtered(x));
    var a, b := x[1..] + [Built(x) != f], x[1..] + [Published(x) != f];
    assert a[47] == (Built(x) != f) && b[47] == (Published(x) != f);
    TapsSplit(x);
    hide Built, Published, Xor6;
  }

  lemma TapsSplit(x: Register)
    ensures Published(x) == (Built(x) != Xor6(x[0], x[5], x[17], x[19], x[35], x[39]))
  {
  }

  /** With only the oldest bit set they differ. */
  lemma ClockDiffers()
    ensures var x: Register := [true] + seq(47, i => false);
            Clock(x, Built(x), false, false) != Clock(x, Published(x), false, false)
  {
    var x: Register := [true] + seq(47, i => false);
    ClockIff(x, false, false);
  }

  // ---------- the code's two words as a register ----------

  function Bits(s: Lfsr): Register {
    seq(48, m requires 0 <= m < 48 => BitAt32(if m % 2 == 1 then s.odd else s.even, (47 - m) / 2))
  }

  // the filter

  lemma Nibble0(x: bv32)
    ensures Group0(x) ==
            if Fb(BitAt32(x, 3), BitAt32(x, 2), BitAt32(x, 1), BitAt32(x, 0)) then 16 else 0
  {
  }

  lemma Nibble1(x: bv32)
    ensures Group1(x) ==
            if Fa(BitAt32(x, 7), BitAt32(x, 6), BitAt32(x, 5), BitAt32(x, 4)) then 8 else 0
  {
  }

  lemma Nibble2(x: bv32)
    ensures Group2(x) ==
            if Fb(BitAt32(x, 11), BitAt32(x, 10), BitAt32(x, 9), BitAt32(x, 8)) then 4 else 0
  {
  }

  lemma Nibble3(x: bv32)
    ensures Group3(x) ==
            if Fb(BitAt32(x, 15), BitAt32(x, 14), BitAt32(x, 13), BitAt32(x, 12)) then 2 else 0
  {
  }

  lemma Nibble4(x: bv32)
    ensures Group4(x) ==
            if Fa(BitAt32(x, 19), BitAt32(x, 18), BitAt32(x, 17), BitAt32(x, 16)) then 1 else 0
  {
  }

  lemma LastTable(a: bool, b: bool, c: bool, d: bool, e: bool)
    ensures var v: bv32, w: bv32, x: bv32, y: bv32, z: bv32 :=
              if e then 16 else 0, if d then 8 else 0, if c then 4 else 0, if b then 2 else 0, if a then 1 else 0;
            v | w | x | y | z < 32 && Chosen(v, w, x, y, z) == Flag32(Fc(a, b, c, d, e))
  {
  }

  lemma FilterBits(x: bv32)
    ensures Filter(x) == Flag32(Fc(Fa(BitAt32(x, 19), BitAt32(x, 18), BitAt32(x, 17), BitAt32(x, 16)),
                                   Fb(BitAt32(x, 15), BitAt32(x, 14), BitAt32(x, 13), BitAt32(x, 12)),
                                   Fb(BitAt32(x, 11), BitAt32(x, 10), BitAt32(x, 9), BitAt32(x, 8)),
                                   Fa(BitAt32(x, 7), BitAt32(x, 6), BitAt32(x, 5), BitAt32(x, 4)),
                                   Fb(BitAt32(x, 3), BitAt32(x, 2), BitAt32(x, 1), BitAt32(x, 0))))
  {
    hide Fa, Fb, Fc, BitAt32, Group0, Group1, Group2, Group3, Group4, Chosen, Flag32;
    Nibble0(x); Nibble1(x); Nibble2(x); Nibble3(x); Nibble4(x);
    LastTable(Fa(BitAt32(x, 19), BitAt32(x, 18), BitAt32(x, 17), BitAt32(x, 16)),
              Fb(BitAt32(x, 15), BitAt32(x, 14), BitAt32(x, 13), BitAt32(x, 12)),
              Fb(BitAt32(x, 11), BitAt32(x, 10), BitAt32(x, 9), BitAt32(x, 8)),
              Fa(BitAt32(x, 7), BitAt32(x, 6), BitAt32(x, 5), BitAt32(x, 4)),
              Fb(BitAt32(x, 3), BitAt32(x, 2), BitAt32(x, 1), BitAt32(x, 0)));
  }

  /** The bits the filter takes, by name. */
  lemma ChoiceOf(s: Lfsr)
    ensures Fa(Bits(s)[9], Bits(s)[11], Bits(s)[13], Bits(s)[15]) == Fa(BitAt32(s.odd, 19), BitAt32(s.odd, 18), BitAt32(s.odd, 17), BitAt32(s.odd, 16))
    ensures Fb(Bits(s)[17], Bits(s)[19], Bits(s)[21], Bits(s)[23]) == Fb(BitAt32(s.odd, 15), BitAt32(s.odd, 14), BitAt32(s.odd, 13), BitAt32(s.odd, 12))
    ensures Fb(Bits(s)[25], Bits(s)[27], Bits(s)[29], Bits(s)[31]) == Fb(BitAt32(s.odd, 11), BitAt32(s.odd, 10), BitAt32(s.odd, 9), BitAt32(s.odd, 8))
    ensures Fa(Bits(s)[33], Bits(s)[35], Bits(s)[37], Bits(s)[39]) == Fa(BitAt32(s.odd, 7), BitAt32(s.odd, 6), BitAt32(s.odd, 5), BitAt32(s.odd, 4))
    ensures Fb(Bits(s)[41], Bits(s)[43], Bits(s)[45], Bits(s)[47]) == Fb(BitAt32(s.odd, 3), BitAt32(s.odd, 2), BitAt32(s.odd, 1), BitAt32(s.odd, 0))
  {
    hide BitAt32;
  }

  /** The key stream bit of the code is the published filter. */
  lemma KsIsFiltered(s: Lfsr)
    ensures Ks(s) == Filtered(Bits(s))
  {
    hide Fa, Fb, BitAt32, Filter, Bits;
    FilterBits(s.odd);
    ChoiceOf(s);
  }

  // the feedback

  lemma NibbleXor(x: bv32)
    ensures NibbleParity(x) == if Xor4(BitAt32(x, 0), BitAt32(x, 1), BitAt32(x, 2), BitAt32(x, 3)) then 1 else 0
  {
  }

  lemma FoldedBits(d: bv32)
    ensures BitAt32(Folded(d), 0) == Xor4(BitAt32(d, 0), BitAt32(d, 8), BitAt32(d, 16), BitAt32(d, 24))
    ensures BitAt32(Folded(d), 1) == Xor4(BitAt32(d, 1), BitAt32(d, 9), BitAt32(d, 17), BitAt32(d, 25))
    ensures BitAt32(Folded(d), 2) == Xor4(BitAt32(d, 2), BitAt32(d, 10), BitAt32(d, 18), BitAt32(d, 26))
    ensures BitAt32(Folded(d), 3) == Xor4(BitAt32(d, 3), BitAt32(d, 11), BitAt32(d, 19), BitAt32(d, 27))
  {
  }

  /** What the parity helper sums: the low nibble of every byte. */
  lemma ParityBits(d: bv32)
    ensures Parity(d) == if Xor4(Xor4(BitAt32(d, 0), BitAt32(d, 8), BitAt32(d, 16), BitAt32(d, 24)),
                                 Xor4(BitAt32(d, 1), BitAt32(d, 9), BitAt32(d, 17), BitAt32(d, 25)),
                                 Xor4(BitAt32(d, 2), BitAt32(d, 10), BitAt32(d, 18), BitAt32(d, 26)),
                                 Xor4(BitAt32(d, 3), BitAt32(d, 11), BitAt32(d, 19), BitAt32(d, 27))) then 1 else 0
  {
    NibbleXor(Folded(d));
    FoldedBits(d);
    hide Xor4, BitAt32, Folded, NibbleParity;
  }

  lemma TappedLow(odd: bv32, even: bv32, f: bool)
    ensures var d := Tapped(odd, even, Flag32(f));
            && BitAt32(d, 0) == f && !BitAt32(d, 1) && BitAt32(d, 2) == (BitAt32(odd, 2) != BitAt32(even, 2))
            && BitAt32(d, 3) == BitAt32(odd, 3) && !BitAt32(d, 8) && BitAt32(d, 9) == BitAt32(odd, 9)
            && BitAt32(d, 10) == BitAt32(odd, 10) && BitAt32(d, 11) == (BitAt32(odd, 11) != BitAt32(even, 11))
  {
  }

  lemma TappedHigh(odd: bv32, even: bv32, f: bool)
    ensures var d := Tapped(odd, even, Flag32(f));
            && BitAt32(d, 16) == (BitAt32(odd, 16) != BitAt32(even, 16)) && BitAt32(d, 17) == BitAt32(even, 17)
            && BitAt32(d, 18) == BitAt32(even, 18) && BitAt32(d, 19) == BitAt32(odd, 19)
            && !BitAt32(d, 24) && !BitAt32(d, 25) && !BitAt32(d, 26) && !BitAt32(d, 27)
  {
  }

  /** The taps by name. */
  lemma TapsOf(s: Lfsr)
    ensures var x, o, e := Bits(s), s.odd, s.even;
            && x[9] == BitAt32(o, 19) && x[10] == BitAt32(e, 18) && x[12] == BitAt32(e, 17) && x[14] == BitAt32(e, 16)
            && x[15] == BitAt32(o, 16) && x[24] == BitAt32(e, 11) && x[25] == BitAt32(o, 11) && x[27] == BitAt32(o, 10)
            && x[29] == BitAt32(o, 9) && x[41] == BitAt32(o, 3) && x[42] == BitAt32(e, 2) && x[43] == BitAt32(o, 2)
  {
    hide BitAt32;
  }

  lemma FeedbackIs(s: Lfsr, f: bool)
    ensures Parity(Tapped(s.odd, s.even, Flag32(f))) == Flag32(Built(Bits(s)) != f)
  {
    var d := Tapped(s.odd, s.even, Flag32(f));
    TappedLow(s.odd, s.even, f);
    TappedHigh(s.odd, s.even, f);
    ParityBits(d);
    hide BitAt32, Parity, Tapped;
    TapsOf(s);
  }

  // the shift

  lemma ShiftBits0(e: bv32, v: bool)
    ensures BitAt32(ShiftIn(e, Flag32(v)), 0) == v
    ensures BitAt32(ShiftIn(e, Flag32(v)), 1) == BitAt32(e, 0)
    ensures BitAt32(ShiftIn(e, Flag32(v)), 2) == BitAt32(e, 1)
    ensures BitAt32(ShiftIn(e, Flag32(v)), 3) == BitAt32(e, 2)
    ensures BitAt32(ShiftIn(e, Flag32(v)), 4) == BitAt32(e, 3)
    ensures BitAt32(ShiftIn(e, Flag32(v)), 5) == BitAt32(e, 4)
  {
  }

  lemma ShiftBits6(e: bv32, v: bool)
    ensures BitAt32(ShiftIn(e, Flag32(v)), 6) == BitAt32(e, 5)
    ensures BitAt32(ShiftIn(e, Flag32(v)), 7) == BitAt32(e, 6)
    ensures BitAt32(ShiftIn(e, Flag32(v)), 8) == BitAt32(e, 7)
    ensures BitAt32(ShiftIn(e, Flag32(v)), 9) == BitAt32(e, 8)
    ensures BitAt32(ShiftIn(e, Flag32(v)), 10) == BitAt32(e, 9)
    ensures BitAt32(ShiftIn(e, Flag32(v)), 11) == BitAt32(e, 10)
  {
  }

  lemma ShiftBits12(e: bv32, v: bool)
    ensures BitAt32(ShiftIn(e, Flag32(v)), 12) == BitAt32(e, 11)
    ensures BitAt32(ShiftIn(e, Flag32(v)), 13) == BitAt32(e, 12)
    ensures BitAt32(ShiftIn(e, Flag32(v)), 14) == BitAt32(e, 13)
    ensures BitAt32(ShiftIn(e, Flag32(v)), 15) == BitAt32(e, 14)
    ensures BitAt32(ShiftIn(e, Flag32(v)), 16) == BitAt32(e, 15)
    ensures BitAt32(ShiftIn(e, Flag32(v)), 17) == BitAt32(e, 16)
  {
  }

  lemma ShiftBits18(e: bv32, v: bool)
    ensures BitAt32(ShiftIn(e, Flag32(v)), 18) == BitAt32(e, 17)
    ensures BitAt32(ShiftIn(e, Flag32(v)), 19) == BitAt32(e, 18)
    ensures BitAt32(ShiftIn(e, Flag32(v)), 20) == BitAt32(e, 19)
    ensures BitAt32(ShiftIn(e, Flag32(v)), 21) == BitAt32(e, 20)
    ensures BitAt32(ShiftIn(e, Flag32(v)), 22) == BitAt32(e, 21)
    ensures BitAt32(ShiftIn(e, Flag32(v)), 23) == BitAt32(e, 22)
  {
  }

  lemma ShiftBit(e: bv32, v: bool, j: nat)
    requires j < 24
    ensures BitAt32(ShiftIn(e, Flag32(v)), j) == if j == 0 then v else BitAt32(e, j - 1)
  {
    hide BitAt32, ShiftIn, Flag32;
    if j < 6 { ShiftBits0(e, v); }
    else if j < 12 { ShiftBits6(e, v); }
    else if j < 18 { ShiftBits12(e, v); }
    else { ShiftBits18(e, v); }
  }

  lemma ShiftedBits(s: Lfsr, v: bool)
    ensures Bits(Lfsr(ShiftIn(s.even, Flag32(v)), s.odd)) == Bits(s)[1..] + [v]
  {
    var y := Bits(Lfsr(ShiftIn(s.even, Flag32(v)), s.odd));
    hide ShiftIn, BitAt32, Flag32;
    forall m | 0 <= m < 48 ensures y[m] == (Bits(s)[1..] + [v])[m] {
      if m % 2 == 1 { ShiftBit(s.even, v, (47 - m) / 2); }
    }
  }

  /** One clock of the code is one clock of the register. */
  lemma NextIsClock(s: Lfsr, input: bool, encrypted: bool)
    ensures Bits(Next(s, input, encrypted)) == Clock(Bits(s), Built(Bits(s)), input, encrypted)
  {
    var x, y := Bits(s), Bits(Next(s, input, encrypted));
    var f := input != (encrypted && Filtered(x));
    KsIsFiltered(s);
    FeedFlag(Ks(s) && encrypted, input);
    FeedbackIs(s, f);
    var p := Flag32(Built(x) != f);
    hide ShiftIn, Parity, Tapped, BitAt32, Xor32, Bits, Ks, Filtered, Built;
    assert Next(s, input, encrypted) == Lfsr(ShiftIn(s.even, p), s.odd);
    ShiftedBits(s, Built(x) != f);
  }

  lemma FeedFlag(a: bool, b: bool)
    ensures Xor32(Flag32(a), Flag32(b)) == Flag32(a != b)
  {
  }

  // ---------- the key ----------

  predicate BitAt64(w: bv64, i: nat)
    requires i < 48
  { (w >> i) & 1 != 0 }

  lemma KeyBitFlag(key: bv64, k: nat)
    requires k < 48
    ensures KeyBit(key, k) == Flag32(BitAt64(key, k))
  {
    OneBit(key >> k);
  }

  lemma OneBit(v: bv64)
    ensures (v & 1) as bv32 == Flag32(v & 1 != 0)
  {
  }

  /** Bits of the half registers after some turns of the loading loop. */
  lemma {:induction false} KeyRunBit(key: bv64, n: nat, j: nat)
    requires j < n <= 24
    ensures BitAt32(KeyRun(key, n).odd, j) == BitAt64(key, KeyIndex(48 - 2 * (n - j)))
    ensures BitAt32(KeyRun(key, n).even, j) == BitAt64(key, KeyIndex(49 - 2 * (n - j)))
    decreases n
  {
    hide BitAt32, BitAt64, ShiftIn, Flag32, KeyIndex, KeyBit;
    var p := KeyRun(key, n - 1);
    KeyBitFlag(key, KeyIndex(48 - 2 * n));
    KeyBitFlag(key, KeyIndex(49 - 2 * n));
    ShiftBit(p.odd, BitAt64(key, KeyIndex(48 - 2 * n)), j);
    ShiftBit(p.even, BitAt64(key, KeyIndex(49 - 2 * n)), j);
    if j > 0 { KeyRunBit(key, n - 1, j - 1); }
  }

  /** The key fills the register byte by byte, each byte from its least significant bit. */
  lemma KeyLoaded(key: bv64, m: nat)
    requires m < 48
    ensures Bits(KeyState(key))[m] == BitAt64(key, 8 * (5 - m / 8) + m % 8)
  {
    hide BitAt32, BitAt64, KeyRun, KeyIndex;
    var s, j := KeyState(key), (47 - m) / 2;
    assert Bits(s)[m] == BitAt32(if m % 2 == 1 then s.odd else s.even, j);
    hide Bits;
    KeyPlace(m);
    KeyRunBit(key, 24, j);
    if m % 2 == 1 {
      assert 48 - 2 * (24 - j) == 47 - m;
    } else {
      assert 49 - 2 * (24 - j) == 47 - m;
    }
  }

  lemma KeyPlace(m: nat)
    requires m < 48
    ensures KeyIndex(47 - m) == 8 * (5 - m / 8) + m % 8
    ensures 47 - m == if m % 2 == 1 then 2 * ((47 - m) / 2) else 2 * ((47 - m) / 2) + 1
  {
    var q, r := m / 8, m % 8;
    assert 47 - m == 8 * (5 - q) + (7 - r);
  }

  // ---------- key streams of any length ----------

  function ByteBits(b: bv8, n: nat): (bits: seq<bool>)
    requires n <= 8
    ensures |bits| == n
  { seq(n, i requires 0 <= i < n => BitAt(b, i)) }

  /** Bytes as they go over the air: least significant bit first. */
  function DataBits(data: seq<bv8>): seq<bool> {
    if data == [] then [] else DataBits(data[..|data| - 1]) + ByteBits(data[|data| - 1], 8)
  }

  lemma {:induction false} RunConcat(x: Register, a: seq<bool>, b: seq<bool>, encrypted: bool)
    ensures Run(x, a + b, encrypted) == Run(Run(x, a, encrypted), b, encrypted)
    ensures KeyStream(x, a + b, encrypted) == KeyStream(x, a, encrypted) + KeyStream(Run(x, a, encrypted), b, encrypted)
    decreases |b|
  {
    hide Clock, Filtered, Built;
    if b == [] {
      assert a + b == a;
    } else {
      var n := |b| - 1;
      RunConcat(x, a, b[..n], encrypted);
      assert (a + b)[..|a + b| - 1] == a + b[..n];
    }
  }

  lemma {:induction false} KeyStreamAt(x: Register, inputs: seq<bool>, encrypted: bool, k: nat)
    requires k < |inputs|
    ensures KeyStream(x, inputs, encrypted)[k] == Filtered(Run(x, inputs[..k], encrypted))
    decreases |inputs|
  {
    hide Clock, Filtered, Built;
    var n := |inputs| - 1;
    if k < n {
      KeyStreamAt(x, inputs[..n], encrypted, k);
      assert inputs[..n][..k] == inputs[..k];
    }
  }

  lemma {:induction false} ByteRunIsRun(s: Lfsr, b: bv8, encrypted: bool, n: nat)
    requires n <= 8
    ensures Bits(ByteRun(s, b, encrypted, n)) == Run(Bits(s), ByteBits(b, n), encrypted)
  {
    hide Next, BitAt, Clock, Bits, Built;
    if n > 0 {
      ByteRunIsRun(s, b, encrypted, n - 1);
      NextIsClock(ByteRun(s, b, encrypted, n - 1), BitAt(b, n - 1), encrypted);
      assert ByteBits(b, n)[..n - 1] == ByteBits(b, n - 1);
    }
  }

  lemma ByteOutIsKeyStream(s: Lfsr, b: bv8, encrypted: bool)
    ensures ByteBits(ByteOut(s, b, encrypted, 8), 8) == KeyStream(Bits(s), ByteBits(b, 8), encrypted)
  {
    hide ByteOut, ByteRun, BitAt, Bits, KeyStream, Run, Filtered, Ks;
    var out := KeyStream(Bits(s), ByteBits(b, 8), encrypted);
    forall k | 0 <= k < 8 ensures BitAt(ByteOut(s, b, encrypted, 8), k) == out[k] {
      BitOfByteOut(s, b, encrypted, k);
      KsIsFiltered(ByteRun(s, b, encrypted, k));
      ByteRunIsRun(s, b, encrypted, k);
      KeyStreamAt(Bits(s), ByteBits(b, 8), encrypted, k);
      assert ByteBits(b, 8)[..k] == ByteBits(b, k);
    }
  }

  /** Whatever goes in, plain or encrypted and at any length, the code's key stream and state are the
      register's. */
  lemma {:induction false} StreamIsKeyStream(s: Lfsr, data: seq<bv8>, encrypted: bool)
    ensures Bits(Absorb(s, data, encrypted)) == Run(Bits(s), DataBits(data), encrypted)
    ensures DataBits(Stream(s, data, encrypted)) == KeyStream(Bits(s), DataBits(data), encrypted)
    decreases |data|
  {
    hide ByteRun, ByteOut, Bits, ByteBits, Run, KeyStream;
    if data == [] {
      NothingRuns(Bits(s), encrypted);
    } else {
      var n := |data| - 1;
      var front, last := data[..n], data[n];
      StreamIsKeyStream(s, front, encrypted);
      var mid := Absorb(s, front, encrypted);
      ByteRunIsRun(mid, last, encrypted, 8);
      ByteOutIsKeyStream(mid, last, encrypted);
      RunConcat(Bits(s), DataBits(front), ByteBits(last, 8), encrypted);
      var out := Stream(s, data, encrypted);
      assert out[..n] == Stream(s, front, encrypted);
    }
  }

  lemma NothingRuns(x: Register, encrypted: bool)
    ensures Run(x, [], encrypted) == x && KeyStream(x, [], encrypted) == []
  {
  }

  // ---------- the nonce generator ----------

  /** A word shifts down by one, and its new top bit is the sum of four. */
  lemma PrngTaps(x: bv32)
    ensures PrngStep(x) & 0x7FFFFFFF == x >> 1
    ensures BitAt32(PrngStep(x), 31) == Xor4(BitAt32(x, 16), BitAt32(x, 18), BitAt32(x, 19), BitAt32(x, 21))
  {
  }

  // ---------- the default key ----------

  lemma KeyOnes(k: nat)
    requires k < 48
    ensures BitAt64(0xFFFFFFFFFFFF, k)
  {
  }

  function Ones(tail: seq<bool>): Register
    requires |tail| <= 8
  { seq(48 - |tail|, i => true) + tail }

  lemma OnesClock(tail: seq<bool>)
    requires |tail| < 8
    ensures Clock(Ones(tail), Built(Ones(tail)), false, false) == Ones(tail + [Built(Ones(tail))])
  {
    hide Built;
    var n := |tail|;
    assert Ones(tail)[1..] == seq(47 - n, i => true) + tail;
  }

  lemma DefaultKeyRegister()
    ensures Bits(KeyState(0xFFFFFFFFFFFF)) == Ones([])
  {
    hide KeyState, BitAt32, BitAt64;
    forall m | 0 <= m < 48 ensures Bits(KeyState(0xFFFFFFFFFFFF))[m] {
      KeyLoaded(0xFFFFFFFFFFFF, m);
      KeyOnes(8 * (5 - m / 8) + m % 8);
    }
  }

  function Tail(k: nat): seq<bool>
    requires k <= 8
  { [false, false, false, false, false, true, false, true][..k] }

  lemma TailStep(k: nat)
    requires k < 8
    ensures Filtered(Ones(Tail(k))) && Built(Ones(Tail(k))) == Tail(k + 1)[k]
  {
    var x := Ones(Tail(k));
    assert x[9] && x[11] && x[13] && x[15] && x[17] && x[19] && x[21] && x[23] && x[25] && x[27] && x[29] && x[31];
    assert x[33] && x[35] && x[37] && x[39];
    if k == 0 { assert x[41] && x[43] && x[45] && x[47]; }
  }

  lemma {:induction false} DefaultKeyRun(k: nat)
    requires k <= 8
    ensures Run(Ones([]), seq(k, i => false), false) == Ones(Tail(k))
  {
    hide Clock, Built, Ones;
    if k > 0 {
      DefaultKeyRun(k - 1);
      TailStep(k - 1);
      OnesClock(Tail(k - 1));
      assert seq(k, i => false)[..k - 1] == seq(k - 1, i => false);
      assert Tail(k - 1) + [Tail(k)[k - 1]] == Tail(k);
    }
  }

  /** Under the key FF FF FF FF FF FF the key stream begins with eight ones. */
  lemma DefaultKeyStream()
    ensures ByteOut(KeyState(0xFFFFFFFFFFFF), 0, false, 8) == 0xFF
  {
    hide ByteOut, KeyState, Run, KeyStream, Filtered, Bits, Ones;
    var s := KeyState(0xFFFFFFFFFFFF);
    DefaultKeyRegister();
    ByteOutIsKeyStream(s, 0, false);
    ZeroBits();
    forall k | 0 <= k < 8 ensures BitAt(ByteOut(s, 0, false, 8), k) {
      KeyStreamAt(Bits(s), ByteBits(0, 8), false, k);
      assert ByteBits(0, 8)[..k] == seq(k, i => false);
      DefaultKeyRun(k);
      TailStep(k);
      assert ByteBits(ByteOut(s, 0, false, 8), 8)[k];
    }
    AllSet(ByteOut(s, 0, false, 8));
  }

  lemma ZeroBits()
    ensures ByteBits(0, 8) == seq(8, i => false)
  {
  }

  lemma AllSet(b: bv8)
    requires forall k :: 0 <= k < 8 ==> BitAt(b, k)
    ensures b == 0xFF
  {
    assert BitAt(b, 0) && BitAt(b, 1) && BitAt(b, 2) && BitAt(b, 3) && BitAt(b, 4) && BitAt(b, 5) && BitAt(b, 6) && BitAt(b, 7);
  }
}
