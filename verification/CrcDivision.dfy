/** The four CRCs as remainders of polynomial division, apart from any register.

    The generator is x^16 + x^12 + x^5 + 1 for all four.  What is divided is the frame as it goes over
    the air, bit by bit, with the preset of its standard added to the first sixteen bits and sixteen
    zeros behind; what is sent behind the data is the remainder, inverted for ISO 15693. */
module CrcDivision {
  import Words
  import opened Crc16

  // ---------- division ----------

  /** The generator without its leading term. */
  const Generator: seq<bool> := [false, false, false, true, false, false, false, false,
                                 false, false, true, false, false, false, false, true]

  /** Polynomials added at their leading ends. */
  function Added(p: seq<bool>, bits: seq<bool>): (r: seq<bool>)
    requires |p| == 16 <= |bits|
    ensures |r| == |bits|
  { seq(|bits|, i requires 0 <= i < |bits| => if i < 16 then p[i] != bits[i] else bits[i]) }

  /** Long division by the generator: what remains of the last sixteen places. */
  function Remainder(bits: seq<bool>): (r: seq<bool>)
    requires |bits| >= 16
    ensures |r| == 16
    decreases |bits|
  {
    if |bits| == 16 then bits
    else Remainder(if bits[0] then Added(Generator, bits[1..]) else bits[1..])
  }

  /** The order of bits on the air: least significant first, except for FeliCa. */
  function Wire(kind: Kind, b: bv8): (bits: seq<bool>)
    ensures |bits| == 8
  { seq(8, i requires 0 <= i < 8 => Words.BitAt(b, if kind.FeliCa? then 7 - i else i)) }

  function OnAir(kind: Kind, data: seq<bv8>): seq<bool> {
    if data == [] then [] else Wire(kind, data[0]) + OnAir(kind, data[1..])
  }

  function Falses(n: nat): (s: seq<bool>)
    ensures |s| == n
  { seq(n, i => false) }

  /** What the standards start from: 63 63 for ISO 14443-A, all ones, or nothing. */
  function Preset(kind: Kind): (p: seq<bool>)
    ensures |p| == 16
  {
    match kind
    case Iso14443A => [true, true, false, false, false, true, true, false, true, true, false, false, false, true, true, false]
    case Ccitt => seq(16, i => true)
    case Iso15693 => seq(16, i => true)
    case FeliCa => Falses(16)
  }

  /** The sixteen bits that go over the air behind the data. */
  function Checksum(kind: Kind, data: seq<bv8>): (r: seq<bool>)
    ensures |r| == 16
  {
    var rest := Remainder(Added(Preset(kind), OnAir(kind, data) + Falses(16)));
    if kind.Iso15693? then seq(16, i requires 0 <= i < 16 => !rest[i]) else rest
  }

  // ---------- the register divides ----------

  function BitAt16(w: bv16, i: nat): bool
    requires i < 16
  { (w >> i) & 1 != 0 }

  /** The register, the place that leaves first at the front. */
  function Reg(kind: Kind, c: bv16): (r: seq<bool>)
    ensures |r| == 16
  { seq(16, i requires 0 <= i < 16 => BitAt16(c, if kind.FeliCa? then 15 - i else i)) }

  lemma RightBits0(c: bv16)
    ensures BitAt16(ShiftRight(c), 0) == BitAt16(c, 1)
    ensures BitAt16(ShiftRight(c), 1) == BitAt16(c, 2)
    ensures BitAt16(ShiftRight(c), 2) == BitAt16(c, 3)
    ensures BitAt16(ShiftRight(c), 3) == (BitAt16(c, 4) != BitAt16(c, 0))
  {
  }

  lemma RightBits4(c: bv16)
    ensures BitAt16(ShiftRight(c), 4) == BitAt16(c, 5)
    ensures BitAt16(ShiftRight(c), 5) == BitAt16(c, 6)
    ensures BitAt16(ShiftRight(c), 6) == BitAt16(c, 7)
    ensures BitAt16(ShiftRight(c), 7) == BitAt16(c, 8)
  {
  }

  lemma RightBits8(c: bv16)
    ensures BitAt16(ShiftRight(c), 8) == BitAt16(c, 9)
    ensures BitAt16(ShiftRight(c), 9) == BitAt16(c, 10)
    ensures BitAt16(ShiftRight(c), 10) == (BitAt16(c, 11) != BitAt16(c, 0))
    ensures BitAt16(ShiftRight(c), 11) == BitAt16(c, 12)
  {
  }

  lemma RightBits12(c: bv16)
    ensures BitAt16(ShiftRight(c), 12) == BitAt16(c, 13)
    ensures BitAt16(ShiftRight(c), 13) == BitAt16(c, 14)
    ensures BitAt16(ShiftRight(c), 14) == BitAt16(c, 15)
    ensures BitAt16(ShiftRight(c), 15) == BitAt16(c, 0)
  {
  }

  lemma LeftBits0(c: bv16)
    ensures BitAt16(ShiftLeft(c), 0) == BitAt16(c, 15)
    ensures BitAt16(ShiftLeft(c), 1) == BitAt16(c, 0)
    ensures BitAt16(ShiftLeft(c), 2) == BitAt16(c, 1)
    ensures BitAt16(ShiftLeft(c), 3) == BitAt16(c, 2)
  {
  }

  lemma LeftBits4(c: bv16)
    ensures BitAt16(ShiftLeft(c), 4) == BitAt16(c, 3)
    ensures BitAt16(ShiftLeft(c), 5) == (BitAt16(c, 4) != BitAt16(c, 15))
    ensures BitAt16(ShiftLeft(c), 6) == BitAt16(c, 5)
    ensures BitAt16(ShiftLeft(c), 7) == BitAt16(c, 6)
  {
  }

  lemma LeftBits8(c: bv16)
    ensures BitAt16(ShiftLeft(c), 8) == BitAt16(c, 7)
    ensures BitAt16(ShiftLeft(c), 9) == BitAt16(c, 8)
    ensures BitAt16(ShiftLeft(c), 10) == BitAt16(c, 9)
    ensures BitAt16(ShiftLeft(c), 11) == BitAt16(c, 10)
  {
  }

  lemma LeftBits12(c: bv16)
    ensures BitAt16(ShiftLeft(c), 12) == (BitAt16(c, 11) != BitAt16(c, 15))
    ensures BitAt16(ShiftLeft(c), 13) == BitAt16(c, 12)
    ensures BitAt16(ShiftLeft(c), 14) == BitAt16(c, 13)
    ensures BitAt16(ShiftLeft(c), 15) == BitAt16(c, 14)
  {
  }

  lemma RightBit(c: bv16, i: nat)
    requires i < 16
    ensures BitAt16(ShiftRight(c), i) == ((i < 15 && BitAt16(c, i + 1)) != (BitAt16(c, 0) && Generator[i]))
  {
    hide BitAt16, ShiftRight;
    if i < 4 { RightBits0(c); }
    else if i < 8 { RightBits4(c); }
    else if i < 12 { RightBits8(c); }
    else { RightBits12(c); }
  }

  lemma LeftBit(c: bv16, i: nat)
    requires i < 16
    ensures BitAt16(ShiftLeft(c), i) == ((i > 0 && BitAt16(c, i - 1)) != (BitAt16(c, 15) && Generator[15 - i]))
  {
    hide BitAt16, ShiftLeft;
    if i < 4 { LeftBits0(c); }
    else if i < 8 { LeftBits4(c); }
    else if i < 12 { LeftBits8(c); }
    else { LeftBits12(c); }
  }

  /** One shift is one step of the division. */
  lemma ShiftReg(kind: Kind, c: bv16)
    ensures var r, t := Reg(kind, c), Reg(kind, c)[1..] + [false];
            Reg(kind, Shift(kind, c)) == if r[0] then Added(Generator, t) else t
  {
    hide BitAt16, ShiftRight, ShiftLeft;
    var r, t := Reg(kind, c), Reg(kind, c)[1..] + [false];
    var n := if r[0] then Added(Generator, t) else t;
    forall i | 0 <= i < 16 ensures Reg(kind, Shift(kind, c))[i] == n[i] {
      if kind.FeliCa? { LeftBit(c, 15 - i); } else { RightBit(c, i); }
    }
  }

  lemma XorBits0(c: bv16, e: bv16)
    ensures BitAt16(c ^ e, 0) == (BitAt16(c, 0) != BitAt16(e, 0))
    ensures BitAt16(c ^ e, 1) == (BitAt16(c, 1) != BitAt16(e, 1))
    ensures BitAt16(c ^ e, 2) == (BitAt16(c, 2) != BitAt16(e, 2))
    ensures BitAt16(c ^ e, 3) == (BitAt16(c, 3) != BitAt16(e, 3))
  {
  }

  lemma XorBits4(c: bv16, e: bv16)
    ensures BitAt16(c ^ e, 4) == (BitAt16(c, 4) != BitAt16(e, 4))
    ensures BitAt16(c ^ e, 5) == (BitAt16(c, 5) != BitAt16(e, 5))
    ensures BitAt16(c ^ e, 6) == (BitAt16(c, 6) != BitAt16(e, 6))
    ensures BitAt16(c ^ e, 7) == (BitAt16(c, 7) != BitAt16(e, 7))
  {
  }

  lemma XorBits8(c: bv16, e: bv16)
    ensures BitAt16(c ^ e, 8) == (BitAt16(c, 8) != BitAt16(e, 8))
    ensures BitAt16(c ^ e, 9) == (BitAt16(c, 9) != BitAt16(e, 9))
    ensures BitAt16(c ^ e, 10) == (BitAt16(c, 10) != BitAt16(e, 10))
    ensures BitAt16(c ^ e, 11) == (BitAt16(c, 11) != BitAt16(e, 11))
  {
  }

  lemma XorBits12(c: bv16, e: bv16)
    ensures BitAt16(c ^ e, 12) == (BitAt16(c, 12) != BitAt16(e, 12))
    ensures BitAt16(c ^ e, 13) == (BitAt16(c, 13) != BitAt16(e, 13))
    ensures BitAt16(c ^ e, 14) == (BitAt16(c, 14) != BitAt16(e, 14))
    ensures BitAt16(c ^ e, 15) == (BitAt16(c, 15) != BitAt16(e, 15))
  {
  }

  lemma EntryRightBits0(b: bv8)
    ensures BitAt16(b as bv16, 0) == Words.BitAt(b, 0)
    ensures BitAt16(b as bv16, 1) == Words.BitAt(b, 1)
    ensures BitAt16(b as bv16, 2) == Words.BitAt(b, 2)
    ensures BitAt16(b as bv16, 3) == Words.BitAt(b, 3)
  {
  }

  lemma EntryRightBits4(b: bv8)
    ensures BitAt16(b as bv16, 4) == Words.BitAt(b, 4)
    ensures BitAt16(b as bv16, 5) == Words.BitAt(b, 5)
    ensures BitAt16(b as bv16, 6) == Words.BitAt(b, 6)
    ensures BitAt16(b as bv16, 7) == Words.BitAt(b, 7)
  {
  }

  lemma EntryRightBits8(b: bv8)
    ensures !BitAt16(b as bv16, 8)
    ensures !BitAt16(b as bv16, 9)
    ensures !BitAt16(b as bv16, 10)
    ensures !BitAt16(b as bv16, 11)
  {
  }

  lemma EntryRightBits12(b: bv8)
    ensures !BitAt16(b as bv16, 12)
    ensures !BitAt16(b as bv16, 13)
    ensures !BitAt16(b as bv16, 14)
    ensures !BitAt16(b as bv16, 15)
  {
  }

  lemma EntryLeftBits0(b: bv8)
    ensures !BitAt16((b as bv16) << 8, 0)
    ensures !BitAt16((b as bv16) << 8, 1)
    ensures !BitAt16((b as bv16) << 8, 2)
    ensures !BitAt16((b as bv16) << 8, 3)
  {
  }

  lemma EntryLeftBits4(b: bv8)
    ensures !BitAt16((b as bv16) << 8, 4)
    ensures !BitAt16((b as bv16) << 8, 5)
    ensures !BitAt16((b as bv16) << 8, 6)
    ensures !BitAt16((b as bv16) << 8, 7)
  {
  }

  lemma EntryLeftBits8(b: bv8)
    ensures BitAt16((b as bv16) << 8, 8) == Words.BitAt(b, 0)
    ensures BitAt16((b as bv16) << 8, 9) == Words.BitAt(b, 1)
    ensures BitAt16((b as bv16) << 8, 10) == Words.BitAt(b, 2)
    ensures BitAt16((b as bv16) << 8, 11) == Words.BitAt(b, 3)
  {
  }

  lemma EntryLeftBits12(b: bv8)
    ensures BitAt16((b as bv16) << 8, 12) == Words.BitAt(b, 4)
    ensures BitAt16((b as bv16) << 8, 13) == Words.BitAt(b, 5)
    ensures BitAt16((b as bv16) << 8, 14) == Words.BitAt(b, 6)
    ensures BitAt16((b as bv16) << 8, 15) == Words.BitAt(b, 7)
  {
  }

  lemma XorBit(c: bv16, e: bv16, i: nat)
    requires i < 16
    ensures BitAt16(Xor(c, e), i) == (BitAt16(c, i) != BitAt16(e, i))
  {
    hide BitAt16;
    if i < 4 { XorBits0(c, e); }
    else if i < 8 { XorBits4(c, e); }
    else if i < 12 { XorBits8(c, e); }
    else { XorBits12(c, e); }
  }

  lemma EntryRight(b: bv8, i: nat)
    requires i < 16
    ensures BitAt16(Entry(Iso14443A, b), i) == (i < 8 && Words.BitAt(b, i))
  {
    hide BitAt16, Words.BitAt;
    if i < 4 { EntryRightBits0(b); }
    else if i < 8 { EntryRightBits4(b); }
    else if i < 12 { EntryRightBits8(b); }
    else { EntryRightBits12(b); }
  }

  lemma EntryLeft(b: bv8, i: nat)
    requires i < 16
    ensures BitAt16(Entry(FeliCa, b), i) == (i >= 8 && Words.BitAt(b, i - 8))
  {
    hide BitAt16, Words.BitAt;
    if i < 4 { EntryLeftBits0(b); }
    else if i < 8 { EntryLeftBits4(b); }
    else if i < 12 { EntryLeftBits8(b); }
    else { EntryLeftBits12(b); }
  }

  lemma LoadIsXor(kind: Kind, c: bv16, b: bv8)
    ensures Load(kind, c, b) == Xor(c, Entry(kind, b))
  {
    hide Entry;
  }

  lemma EntryKind(kind: Kind, b: bv8)
    ensures Entry(kind, b) == Entry(if kind.FeliCa? then FeliCa else Iso14443A, b)
  {
  }

  /** A byte is added to the eight places that leave next. */
  lemma LoadReg(kind: Kind, c: bv16, b: bv8)
    ensures Reg(kind, Load(kind, c, b)) == Added(Reg(kind, c), Wire(kind, b) + Falses(8))
  {
    hide BitAt16, Words.BitAt, Xor, Entry, Load;
    LoadIsXor(kind, c, b);
    EntryKind(kind, b);
    var n := Added(Reg(kind, c), Wire(kind, b) + Falses(8));
    forall i | 0 <= i < 16 ensures Reg(kind, Load(kind, c, b))[i] == n[i] {
      var k := if kind.FeliCa? then 15 - i else i;
      XorBit(c, Entry(kind, b), k);
      if kind.FeliCa? { EntryLeft(b, k); } else { EntryRight(b, k); }
    }
  }

  lemma OneShift(kind: Kind, c: bv16, rest: seq<bool>)
    requires |rest| >= 16
    ensures Remainder(Added(Reg(kind, c), [false] + rest)) == Remainder(Added(Reg(kind, Shift(kind, c)), rest))
  {
    ShiftReg(kind, c);
    hide Shift, Reg;
    var r, bits := Reg(kind, c), Added(Reg(kind, c), [false] + rest);
    var t := r[1..] + [false];
    var next := if r[0] then Added(Generator, bits[1..]) else bits[1..];
    assert bits[0] == r[0];
    forall i | 0 <= i < |rest| ensures next[i] == Added(Reg(kind, Shift(kind, c)), rest)[i] {
      assert bits[1..][i] == if i < 15 then r[i + 1] != rest[i] else rest[i];
    }
    assert next == Added(Reg(kind, Shift(kind, c)), rest);
  }

  lemma {:induction false} ManyShifts(kind: Kind, c: bv16, n: nat, rest: seq<bool>)
    requires |rest| >= 16
    ensures Remainder(Added(Reg(kind, c), Falses(n) + rest)) == Remainder(Added(Reg(kind, Shifts(kind, c, n)), rest))
    decreases n
  {
    hide Shift, Reg, Remainder, Added;
    if n == 0 {
      assert Falses(0) + rest == rest;
    } else {
      ManyShifts(kind, c, n - 1, [false] + rest);
      assert Falses(n) + rest == Falses(n - 1) + ([false] + rest);
      OneShift(kind, Shifts(kind, c, n - 1), rest);
    }
  }

  lemma OneByte(kind: Kind, c: bv16, b: bv8, rest: seq<bool>)
    requires |rest| >= 16
    ensures Remainder(Added(Reg(kind, c), Wire(kind, b) + rest)) == Remainder(Added(Reg(kind, Step(kind, c, b)), rest))
  {
    LoadReg(kind, c, b);
    hide Shifts, Load, Reg, Remainder, Wire;
    assert Added(Reg(kind, c), Wire(kind, b) + rest) == Added(Reg(kind, Load(kind, c, b)), Falses(8) + rest);
    ManyShifts(kind, Load(kind, c, b), 8, rest);
  }

  /** From any register and over any data, updating it is dividing. */
  lemma {:induction false} UpdateDivides(kind: Kind, c: bv16, data: seq<bv8>)
    ensures Reg(kind, Update(kind, c, data)) == Remainder(Added(Reg(kind, c), OnAir(kind, data) + Falses(16)))
    decreases |data|
  {
    hide Reg, Step, Wire;
    if data == [] {
      assert OnAir(kind, data) + Falses(16) == Falses(16);
      assert Added(Reg(kind, c), Falses(16)) == Reg(kind, c);
    } else {
      hide Added, Remainder;
      var b, rest := data[0], data[1..];
      var tail := OnAir(kind, rest) + Falses(16);
      assert OnAir(kind, data) + Falses(16) == Wire(kind, b) + tail;
      OneByte(kind, c, b, tail);
      UpdateDivides(kind, Step(kind, c, b), rest);
      FirstByte(kind, c, data);
    }
  }

  lemma FirstByte(kind: Kind, c: bv16, data: seq<bv8>)
    requires data != []
    ensures Update(kind, c, data) == Update(kind, Step(kind, c, data[0]), data[1..])
  {
    hide Step;
    assert data == [data[0]] + data[1..] && [data[0]][..0] == [];
    UpdateConcat(kind, c, [data[0]], data[1..]);
    assert Update(kind, c, [data[0]]) == Step(kind, Update(kind, c, []), data[0]);
  }

  lemma OnesBit(i: nat)
    requires i < 16
    ensures BitAt16(0xFFFF, i) && !BitAt16(0, i)
  {
  }

  lemma PresetA(i: nat)
    requires i < 16
    ensures BitAt16(0x6363, i) == Preset(Iso14443A)[i]
  {
    if i == 0 { assert BitAt16(0x6363, 0); }
    else if i == 1 { assert BitAt16(0x6363, 1); }
    else if i == 2 { assert !BitAt16(0x6363, 2); }
    else if i == 3 { assert !BitAt16(0x6363, 3); }
    else if i == 4 { assert !BitAt16(0x6363, 4); }
    else if i == 5 { assert BitAt16(0x6363, 5); }
    else if i == 6 { assert BitAt16(0x6363, 6); }
    else if i == 7 { assert !BitAt16(0x6363, 7); }
    else if i == 8 { assert BitAt16(0x6363, 8); }
    else if i == 9 { assert BitAt16(0x6363, 9); }
    else if i == 10 { assert !BitAt16(0x6363, 10); }
    else if i == 11 { assert !BitAt16(0x6363, 11); }
    else if i == 12 { assert !BitAt16(0x6363, 12); }
    else if i == 13 { assert BitAt16(0x6363, 13); }
    else if i == 14 { assert BitAt16(0x6363, 14); }
    else { assert !BitAt16(0x6363, 15); }
  }

  lemma PresetReg(kind: Kind)
    ensures Reg(kind, Init(kind)) == Preset(kind)
  {
    hide BitAt16;
    forall i | 0 <= i < 16 ensures Reg(kind, Init(kind))[i] == Preset(kind)[i] {
      OnesBit(if kind.FeliCa? then 15 - i else i);
      PresetA(i);
    }
  }

  function Inverted(c: bv16): bv16 { !c }
  function Swapped(c: bv16): bv16 { (c << 8) | (c >> 8) }

  lemma InvertedBits0(c: bv16)
    ensures BitAt16(Inverted(c), 0) == !BitAt16(c, 0)
    ensures BitAt16(Inverted(c), 1) == !BitAt16(c, 1)
    ensures BitAt16(Inverted(c), 2) == !BitAt16(c, 2)
    ensures BitAt16(Inverted(c), 3) == !BitAt16(c, 3)
  {
  }

  lemma InvertedBits4(c: bv16)
    ensures BitAt16(Inverted(c), 4) == !BitAt16(c, 4)
    ensures BitAt16(Inverted(c), 5) == !BitAt16(c, 5)
    ensures BitAt16(Inverted(c), 6) == !BitAt16(c, 6)
    ensures BitAt16(Inverted(c), 7) == !BitAt16(c, 7)
  {
  }

  lemma InvertedBits8(c: bv16)
    ensures BitAt16(Inverted(c), 8) == !BitAt16(c, 8)
    ensures BitAt16(Inverted(c), 9) == !BitAt16(c, 9)
    ensures BitAt16(Inverted(c), 10) == !BitAt16(c, 10)
    ensures BitAt16(Inverted(c), 11) == !BitAt16(c, 11)
  {
  }

  lemma InvertedBits12(c: bv16)
    ensures BitAt16(Inverted(c), 12) == !BitAt16(c, 12)
    ensures BitAt16(Inverted(c), 13) == !BitAt16(c, 13)
    ensures BitAt16(Inverted(c), 14) == !BitAt16(c, 14)
    ensures BitAt16(Inverted(c), 15) == !BitAt16(c, 15)
  {
  }

  lemma SwappedBits0(c: bv16)
    ensures BitAt16(Swapped(c), 0) == BitAt16(c, 8)
    ensures BitAt16(Swapped(c), 1) == BitAt16(c, 9)
    ensures BitAt16(Swapped(c), 2) == BitAt16(c, 10)
    ensures BitAt16(Swapped(c), 3) == BitAt16(c, 11)
  {
  }

  lemma SwappedBits4(c: bv16)
    ensures BitAt16(Swapped(c), 4) == BitAt16(c, 12)
    ensures BitAt16(Swapped(c), 5) == BitAt16(c, 13)
    ensures BitAt16(Swapped(c), 6) == BitAt16(c, 14)
    ensures BitAt16(Swapped(c), 7) == BitAt16(c, 15)
  {
  }

  lemma SwappedBits8(c: bv16)
    ensures BitAt16(Swapped(c), 8) == BitAt16(c, 0)
    ensures BitAt16(Swapped(c), 9) == BitAt16(c, 1)
    ensures BitAt16(Swapped(c), 10) == BitAt16(c, 2)
    ensures BitAt16(Swapped(c), 11) == BitAt16(c, 3)
  {
  }

  lemma SwappedBits12(c: bv16)
    ensures BitAt16(Swapped(c), 12) == BitAt16(c, 4)
    ensures BitAt16(Swapped(c), 13) == BitAt16(c, 5)
    ensures BitAt16(Swapped(c), 14) == BitAt16(c, 6)
    ensures BitAt16(Swapped(c), 15) == BitAt16(c, 7)
  {
  }

  lemma ByteBits0(c: bv16)
    ensures Words.BitAt(Low(c), 0) == BitAt16(c, 0)
    ensures Words.BitAt(Low(c), 1) == BitAt16(c, 1)
    ensures Words.BitAt(Low(c), 2) == BitAt16(c, 2)
    ensures Words.BitAt(Low(c), 3) == BitAt16(c, 3)
  {
  }

  lemma ByteBits4(c: bv16)
    ensures Words.BitAt(Low(c), 4) == BitAt16(c, 4)
    ensures Words.BitAt(Low(c), 5) == BitAt16(c, 5)
    ensures Words.BitAt(Low(c), 6) == BitAt16(c, 6)
    ensures Words.BitAt(Low(c), 7) == BitAt16(c, 7)
  {
  }

  lemma ByteBits8(c: bv16)
    ensures Words.BitAt(High(c), 0) == BitAt16(c, 8)
    ensures Words.BitAt(High(c), 1) == BitAt16(c, 9)
    ensures Words.BitAt(High(c), 2) == BitAt16(c, 10)
    ensures Words.BitAt(High(c), 3) == BitAt16(c, 11)
  {
  }

  lemma ByteBits12(c: bv16)
    ensures Words.BitAt(High(c), 4) == BitAt16(c, 12)
    ensures Words.BitAt(High(c), 5) == BitAt16(c, 13)
    ensures Words.BitAt(High(c), 6) == BitAt16(c, 14)
    ensures Words.BitAt(High(c), 7) == BitAt16(c, 15)
  {
  }

  lemma InvertedBit(c: bv16, i: nat)
    requires i < 16
    ensures BitAt16(Inverted(c), i) == !BitAt16(c, i)
  {
    hide BitAt16, Inverted;
    if i < 4 { InvertedBits0(c); }
    else if i < 8 { InvertedBits4(c); }
    else if i < 12 { InvertedBits8(c); }
    else { InvertedBits12(c); }
  }

  lemma SwappedBit(c: bv16, i: nat)
    requires i < 16
    ensures BitAt16(Swapped(c), i) == BitAt16(c, if i < 8 then i + 8 else i - 8)
  {
    hide BitAt16, Swapped;
    if i < 4 { SwappedBits0(c); }
    else if i < 8 { SwappedBits4(c); }
    else if i < 12 { SwappedBits8(c); }
    else { SwappedBits12(c); }
  }

  lemma ByteBit(c: bv16, i: nat)
    requires i < 16
    ensures BitAt16(c, i) == if i < 8 then Words.BitAt(Low(c), i) else Words.BitAt(High(c), i - 8)
  {
    hide BitAt16, Words.BitAt, Low, High;
    if i < 4 { ByteBits0(c); }
    else if i < 8 { ByteBits4(c); }
    else if i < 12 { ByteBits8(c); }
    else { ByteBits12(c); }
  }

  /** The two bytes of the CRC on the air. */
  lemma OutOnAir(kind: Kind, c: bv16)
    ensures var r, o := Reg(kind, c), Out(kind, c);
            Wire(kind, Low(o)) + Wire(kind, High(o)) ==
            if kind.Iso15693? then seq(16, i requires 0 <= i < 16 => !r[i]) else r
  {
    var r, o := Reg(kind, c), Out(kind, c);
    assert o == if kind.Iso15693? then Inverted(c) else if kind.FeliCa? then Swapped(c) else c;
    hide BitAt16, Words.BitAt, Low, High, Inverted, Swapped, Out;
    var sent := Wire(kind, Low(o)) + Wire(kind, High(o));
    var n := if kind.Iso15693? then seq(16, i requires 0 <= i < 16 => !r[i]) else r;
    forall i | 0 <= i < 16 ensures sent[i] == n[i] {
      var k := if !kind.FeliCa? then i else if i < 8 then 7 - i else 23 - i;
      ByteBit(o, k);
      InvertedBit(c, k);
      SwappedBit(c, k);
    }
  }

  /** For all data and all four CRCs: the frame on the air is the data followed by the checksum that
      division gives. */
  lemma FrameDivides(kind: Kind, data: seq<bv8>)
    ensures OnAir(kind, Append(kind, data)) == OnAir(kind, data) + Checksum(kind, data)
  {
    var c := Update(kind, Init(kind), data);
    UpdateDivides(kind, Init(kind), data);
    PresetReg(kind);
    OutOnAir(kind, c);
    hide Update, Init, Wire, Reg, Remainder, Added, Low, High, Preset, Out;
    var sum := [Low(Crc(kind, data)), High(Crc(kind, data))];
    OnAirConcat(kind, data, sum);
    TwoOnAir(kind, sum[0], sum[1]);
  }

  lemma TwoOnAir(kind: Kind, a: bv8, b: bv8)
    ensures OnAir(kind, [a, b]) == Wire(kind, a) + Wire(kind, b)
  {
    hide Wire;
    assert [a, b][1..] == [b] && [b][1..] == [];
    assert OnAir(kind, [b]) == Wire(kind, b) + [];
  }

  lemma {:induction false} OnAirConcat(kind: Kind, a: seq<bv8>, b: seq<bv8>)
    ensures OnAir(kind, a + b) == OnAir(kind, a) + OnAir(kind, b)
    decreases |a|
  {
    hide Wire;
    if a == [] {
      assert a + b == b;
    } else {
      assert (a + b)[1..] == a[1..] + b;
      OnAirConcat(kind, a[1..], b);
    }
  }

  // ---------- the standards' own examples ----------

  lemma StepTo(kind: Kind, data: seq<bv8>, from: bv16, to: bv16)
    requires data != [] && Update(kind, Init(kind), data[..|data| - 1]) == from
    requires to == if kind.FeliCa? then ByteStepLeft(from, data[|data| - 1]) else ByteStep(from, data[|data| - 1])
    ensures Update(kind, Init(kind), data) == to
  {
    hide Init, ByteStep, ByteStepLeft, Step;
    ByteStepIsBitLoop(kind, from, data[|data| - 1]);
  }

  /** Annex B of ISO/IEC 14443-3: two zero bytes are followed by A0 1E, and 12 34 by 26 CF. */
  lemma AnnexB()
    ensures Append(Iso14443A, [0x00, 0x00]) == [0x00, 0x00, 0xA0, 0x1E]
    ensures Append(Iso14443A, [0x12, 0x34]) == [0x12, 0x34, 0x26, 0xCF]
  {
    var zeros: seq<bv8>, ones: seq<bv8> := [0x00, 0x00], [0x12, 0x34];
    assert zeros[..1][..0] == [] && zeros[..2][..1] == zeros[..1] && zeros[..2] == zeros;
    assert ones[..1][..0] == [] && ones[..2][..1] == ones[..1] && ones[..2] == ones;
    StepTo(Iso14443A, zeros[..1], 0x6363, 0x51FE);
    StepTo(Iso14443A, zeros[..2], 0x51FE, 0x1EA0);
    StepTo(Iso14443A, ones[..1], 0x6363, 0x626D);
    StepTo(Iso14443A, ones[..2], 0x626D, 0xCF26);
  }

  /** The example of ISO/IEC 15693-3: 01 02 03 04 is followed by 91 39. */
  lemma Iso15693Example()
    ensures Append(Iso15693, [0x01, 0x02, 0x03, 0x04]) == [0x01, 0x02, 0x03, 0x04] + [0x91, 0x39]
  {
    var data: seq<bv8> := [0x01, 0x02, 0x03, 0x04];
    assert data[..1][..0] == [];
    StepTo(Iso15693, data[..1], 0xFFFF, 0x1E0E);
    assert data[..2][..1] == data[..1];
    StepTo(Iso15693, data[..2], 0x1E0E, 0xCA72);
    assert data[..3][..2] == data[..2];
    StepTo(Iso15693, data[..3], 0xCA72, 0x62C4);
    assert data[..4][..3] == data[..3];
    StepTo(Iso15693, data[..4], 0x62C4, 0xC66E);
    assert data[..4] == data;
  }

  /** The same four bytes with the store's CRC, which is not inverted. */
  lemma StoreExample()
    ensures Append(Ccitt, [0x01, 0x02, 0x03, 0x04]) == [0x01, 0x02, 0x03, 0x04] + [0x6E, 0xC6]
  {
    var data: seq<bv8> := [0x01, 0x02, 0x03, 0x04];
    assert data[..1][..0] == [];
    StepTo(Ccitt, data[..1], 0xFFFF, 0x1E0E);
    assert data[..2][..1] == data[..1];
    StepTo(Ccitt, data[..2], 0x1E0E, 0xCA72);
    assert data[..3][..2] == data[..2];
    StepTo(Ccitt, data[..3], 0xCA72, 0x62C4);
    assert data[..4][..3] == data[..3];
    StepTo(Ccitt, data[..4], 0x62C4, 0xC66E);
    assert data[..4] == data;
  }

  /** The polling command of JIS X 6319-4 is followed by 09 21. */
  lemma FeliCaExample()
    ensures Append(FeliCa, [0x06, 0x00, 0xFF, 0xFF, 0x00, 0x00]) == [0x06, 0x00, 0xFF, 0xFF, 0x00, 0x00] + [0x09, 0x21]
  {
    var data: seq<bv8> := [0x06, 0x00, 0xFF, 0xFF, 0x00, 0x00];
    assert data[..1][..0] == [];
    StepTo(FeliCa, data[..1], 0x0000, 0x60C6);
    assert data[..2][..1] == data[..1];
    StepTo(FeliCa, data[..2], 0x60C6, 0xAAA6);
    assert data[..3][..2] == data[..2];
    StepTo(FeliCa, data[..3], 0xAAA6, 0xAC50);
    assert data[..4][..3] == data[..3];
    StepTo(FeliCa, data[..4], 0xAC50, 0x3A96);
    assert data[..5][..4] == data[..4];
    StepTo(FeliCa, data[..5], 0x3A96, 0x0119);
    assert data[..6][..5] == data[..5];
    StepTo(FeliCa, data[..6], 0x0119, 0x0921);
    assert data[..6] == data;
  }
}
