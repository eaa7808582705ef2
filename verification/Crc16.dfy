/** The four 16-bit CRCs of the stack.

    ISO 14443-A (iso14443_crc.c) and the store envelope (Zephyr's crc16_ccitt, mirrored by
    ndef_to_card_bin.py) are computed a byte at a time; ISO 15693 (iso15693_3_poller_i.c) and
    FeliCa (felica_crc.c) a bit at a time.  Every frame ends with the CRC, low byte first.

    Main results: the byte formula computes what the bit loop computes; a frame passes its
    check exactly when it was built by appending; and a frame whose damage is confined to two
    adjacent bytes (in particular to one byte) never passes, at any length, for all four CRCs. */
module Crc16 {

  datatype Kind = Iso14443A | Ccitt | Iso15693 | FeliCa

  /** The register before the first byte. */
  function Init(kind: Kind): bv16 {
    match kind
    case Iso14443A => 0x6363
    case Ccitt => 0xFFFF
    case Iso15693 => 0xFFFF
    case FeliCa => 0
  }

  /** What is sent, as a function of the final register. */
  function Out(kind: Kind, crc: bv16): bv16 {
    match kind
    case Iso14443A => crc
    case Ccitt => crc
    case Iso15693 => !crc
    case FeliCa => (crc << 8) | (crc >> 8)
  }

  // ---------- one bit, one byte ----------

  /** One step of the reflected register, polynomial 0x8408. */
  function ShiftRight(crc: bv16): bv16 {
    if crc & 1 != 0 then (crc >> 1) ^ 0x8408 else crc >> 1
  }

  /** One step of the most-significant-bit-first register, polynomial 0x1021. */
  function ShiftLeft(crc: bv16): bv16 {
    if crc & 0x8000 != 0 then (crc << 1) ^ 0x1021 else crc << 1
  }

  function Shift(kind: Kind, crc: bv16): bv16 {
    if kind.FeliCa? then ShiftLeft(crc) else ShiftRight(crc)
  }

  function Shifts(kind: Kind, crc: bv16, n: nat): bv16 {
    if n == 0 then crc else Shift(kind, Shifts(kind, crc, n - 1))
  }

  /** Where a data byte enters the register. */
  function Entry(kind: Kind, b: bv8): bv16 {
    if kind.FeliCa? then (b as bv16) << 8 else b as bv16
  }

  function Load(kind: Kind, crc: bv16, b: bv8): bv16 { crc ^ Entry(kind, b) }

  /** The bit-serial definition all four CRCs are measured against. */
  function Step(kind: Kind, crc: bv16, b: bv8): bv16 {
    Shifts(kind, Load(kind, crc, b), 8)
  }

  function Update(kind: Kind, crc: bv16, data: seq<bv8>): bv16 {
    if data == [] then crc
    else Step(kind, Update(kind, crc, data[..|data| - 1]), data[|data| - 1])
  }

  function Crc(kind: Kind, data: seq<bv8>): bv16 {
    Out(kind, Update(kind, Init(kind), data))
  }

  function Low(x: bv16): bv8 { (x & 0xFF) as bv8 }
  function High(x: bv16): bv8 { ((x >> 8) & 0xFF) as bv8 }
  function Join(lo: bv8, hi: bv8): bv16 { (lo as bv16) | ((hi as bv16) << 8) }

  /** A frame: the data followed by its CRC, low byte first. */
  function Append(kind: Kind, data: seq<bv8>): seq<bv8> {
    data + [Low(Crc(kind, data)), High(Crc(kind, data))]
  }

  /** The receiver's test; frames of two bytes or fewer never pass. */
  predicate Check(kind: Kind, frame: seq<bv8>) {
    |frame| > 2 &&
    Crc(kind, frame[..|frame| - 2]) == Join(frame[|frame| - 2], frame[|frame| - 1])
  }

  // ---------- the byte-at-once formula ----------

  function Spread(e: bv8): bv8 { e ^ (e << 4) }

  function Fold(f: bv8): bv16 {
    ((f as bv16) << 8) ^ ((f as bv16) << 3) ^ ((f >> 4) as bv16)
  }

  /** The formula of iso14443_crc_a and of crc16_ccitt. */
  function ByteStep(crc: bv16, b: bv8): bv16 {
    (crc >> 8) ^ Fold(Spread(b ^ Low(crc)))
  }

  function SpreadLeft(e: bv8): bv8 { e ^ (e >> 4) }

  function FoldLeft(f: bv8): bv16 {
    ((f as bv16) << 12) ^ ((f as bv16) << 5) ^ (f as bv16)
  }

  /** Its mirror image for the most-significant-bit-first register. */
  function ByteStepLeft(crc: bv16, b: bv8): bv16 {
    (crc << 8) ^ FoldLeft(SpreadLeft(b ^ High(crc)))
  }

  // ---------- the register is a linear map with trivial kernel ----------

  function Xor(x: bv16, y: bv16): bv16 { x ^ y }

  lemma XorCancel(x: bv16, y: bv16) ensures Xor(Xor(x, y), y) == x {}
  lemma XorUnit(x: bv16) ensures Xor(x, x) == 0 && Xor(0, x) == x {}

  lemma XorZero(x: bv16, y: bv16)
    ensures Xor(x, y) == 0 <==> x == y
  {
    hide *;
    XorCancel(x, y);
    XorUnit(x);
    XorUnit(y);
  }

  function Right1(x: bv16): bv16 {
    (x >> 1) ^ ((x & 1) << 15) ^ ((x & 1) << 10) ^ ((x & 1) << 3)
  }

  function Left1(x: bv16): bv16 {
    (x << 1) ^ ((x & 0x8000) >> 15) ^ ((x & 0x8000) >> 10) ^ ((x & 0x8000) >> 3)
  }

  lemma ShiftRightIsRight1(x: bv16)
    ensures ShiftRight(x) == Right1(x)
  {
    if x & 1 != 0 { assert x & 1 == 1; } else { assert x & 1 == 0; }
  }

  lemma ShiftLeftIsLeft1(x: bv16)
    ensures ShiftLeft(x) == Left1(x)
  {
    if x & 0x8000 != 0 { assert x & 0x8000 == 0x8000; } else { assert x & 0x8000 == 0; }
  }

  lemma Right1OfXor(x: bv16, y: bv16) ensures Right1(x ^ y) == Right1(x) ^ Right1(y) {}
  lemma Left1OfXor(x: bv16, y: bv16) ensures Left1(x ^ y) == Left1(x) ^ Left1(y) {}

  lemma Shift1Linear(x: bv16, y: bv16)
    ensures Right1(Xor(x, y)) == Xor(Right1(x), Right1(y))
    ensures Left1(Xor(x, y)) == Xor(Left1(x), Left1(y))
  {
    hide Right1, Left1;
    Right1OfXor(x, y);
    Left1OfXor(x, y);
  }

  lemma ShiftLinear(kind: Kind, x: bv16, y: bv16)
    ensures Shift(kind, Xor(x, y)) == Xor(Shift(kind, x), Shift(kind, y))
  {
    hide ShiftRight, ShiftLeft, Right1, Left1, Xor;
    Shift1Linear(x, y);
    if kind.FeliCa? {
      ShiftLeftIsLeft1(x); ShiftLeftIsLeft1(y); ShiftLeftIsLeft1(Xor(x, y));
    } else {
      ShiftRightIsRight1(x); ShiftRightIsRight1(y); ShiftRightIsRight1(Xor(x, y));
    }
  }

  lemma ShiftKernel(kind: Kind, x: bv16)
    ensures Shift(kind, x) == 0 <==> x == 0
  {
  }

  lemma {:induction false} ShiftsLinear(kind: Kind, x: bv16, y: bv16, n: nat)
    ensures Shifts(kind, Xor(x, y), n) == Xor(Shifts(kind, x, n), Shifts(kind, y, n))
  {
    hide Shift, Xor;
    if n > 0 {
      ShiftsLinear(kind, x, y, n - 1);
      ShiftLinear(kind, Shifts(kind, x, n - 1), Shifts(kind, y, n - 1));
    }
  }

  lemma {:induction false} ShiftsKernel(kind: Kind, x: bv16, n: nat)
    ensures Shifts(kind, x, n) == 0 <==> x == 0
  {
    hide Shift;
    if n > 0 {
      ShiftsKernel(kind, x, n - 1);
      ShiftKernel(kind, Shifts(kind, x, n - 1));
    }
  }

  lemma ShiftsInjective(kind: Kind, x: bv16, y: bv16, n: nat)
    requires Shifts(kind, x, n) == Shifts(kind, y, n)
    ensures x == y
  {
    hide *;
    ShiftsLinear(kind, x, y, n);
    XorZero(Shifts(kind, x, n), Shifts(kind, y, n));
    ShiftsKernel(kind, Xor(x, y), n);
    XorZero(x, y);
  }

  // ---------- byte formula = bit loop ----------

  // The register splits into the byte that meets the data and the byte that is only moved
  // along; this is the argument behind every table-driven CRC.

  lemma EightShifts(kind: Kind, x: bv16)
    ensures Shifts(kind, x, 8) ==
            Shift(kind, Shift(kind, Shift(kind, Shift(kind,
              Shift(kind, Shift(kind, Shift(kind, Shift(kind, x))))))))
  {
    hide Shift;
    assert Shifts(kind, x, 1) == Shift(kind, x);
    assert Shifts(kind, x, 3) == Shift(kind, Shift(kind, Shifts(kind, x, 1)));
    assert Shifts(kind, x, 5) == Shift(kind, Shift(kind, Shifts(kind, x, 3)));
    assert Shifts(kind, x, 7) == Shift(kind, Shift(kind, Shifts(kind, x, 5)));
  }

  function Rights(x: bv16): bv16 {
    ShiftRight(ShiftRight(ShiftRight(ShiftRight(ShiftRight(ShiftRight(ShiftRight(ShiftRight(x))))))))
  }

  function Lefts(x: bv16): bv16 {
    ShiftLeft(ShiftLeft(ShiftLeft(ShiftLeft(ShiftLeft(ShiftLeft(ShiftLeft(ShiftLeft(x))))))))
  }

  lemma ShiftsIsRights(kind: Kind, x: bv16)
    ensures Shifts(kind, x, 8) == if kind.FeliCa? then Lefts(x) else Rights(x)
  {
    hide ShiftRight, ShiftLeft, Shifts;
    EightShifts(kind, x);
  }

  lemma RightsNear(e: bv8) ensures Rights(e as bv16) == Fold(Spread(e)) {}
  lemma RightsFar(x: bv16) requires x < 256 ensures Rights(x << 8) == x {}
  lemma LeftsNear(e: bv8) ensures Lefts((e as bv16) << 8) == FoldLeft(SpreadLeft(e)) {}
  lemma LeftsFar(x: bv16) requires x < 256 ensures Lefts(x) == x << 8 {}

  lemma SplitRight(crc: bv16, b: bv8)
    ensures crc ^ (b as bv16) == Xor((b ^ Low(crc)) as bv16, (crc >> 8) << 8)
  {
  }

  lemma SplitLeft(crc: bv16, b: bv8)
    ensures crc ^ ((b as bv16) << 8) == Xor(((b ^ High(crc)) as bv16) << 8, crc & 0xFF)
  {
  }

  lemma JoinRight(crc: bv16, b: bv8)
    ensures Xor(Fold(Spread(b ^ Low(crc))), crc >> 8) == ByteStep(crc, b)
  {
    hide Fold, Spread, Low;
  }

  lemma JoinLeft(crc: bv16, b: bv8)
    ensures Xor(FoldLeft(SpreadLeft(b ^ High(crc))), (crc & 0xFF) << 8) == ByteStepLeft(crc, b)
  {
    hide FoldLeft, SpreadLeft, High;
  }

  /** The byte-at-once formula computes exactly what eight steps of the bit loop compute. */
  lemma ByteStepIsBitLoop(kind: Kind, crc: bv16, b: bv8)
    ensures Step(kind, crc, b) == if kind.FeliCa? then ByteStepLeft(crc, b) else ByteStep(crc, b)
  {
    hide Shifts, Xor, Rights, Lefts, Fold, Spread, FoldLeft, SpreadLeft, Low, High, ByteStep, ByteStepLeft;
    if kind.FeliCa? {
      var near, far := ((b ^ High(crc)) as bv16) << 8, crc & 0xFF;
      ShiftsLinear(kind, near, far, 8);
      ShiftsIsRights(kind, near);
      ShiftsIsRights(kind, far);
      SplitLeft(crc, b);
      LeftsNear(b ^ High(crc));
      LeftsFar(far);
      JoinLeft(crc, b);
    } else {
      var near, far := (b ^ Low(crc)) as bv16, (crc >> 8) << 8;
      ShiftsLinear(kind, near, far, 8);
      ShiftsIsRights(kind, near);
      ShiftsIsRights(kind, far);
      SplitRight(crc, b);
      RightsNear(b ^ Low(crc));
      RightsFar(crc >> 8);
      JoinRight(crc, b);
    }
  }

  // ---------- what damage does to the register ----------

  lemma LoadInjective(kind: Kind, p: bv16, q: bv16, b: bv8, c: bv8)
    ensures Load(kind, p, b) == Load(kind, q, b) ==> p == q
    ensures Load(kind, p, b) == Load(kind, p, c) ==> b == c
  {
    hide Entry, Xor;
    XorOfLoad(p, Entry(kind, b));
    XorOfLoad(q, Entry(kind, b));
    XorOfLoad(p, Entry(kind, c));
    XorCancel(p, Entry(kind, b));
    XorCancel(q, Entry(kind, b));
    XorCancelLeft(p, Entry(kind, b));
    XorCancelLeft(p, Entry(kind, c));
    EntryInjective(kind, b, c);
  }

  lemma XorOfLoad(p: bv16, e: bv16) ensures p ^ e == Xor(p, e) {}
  lemma XorCancelLeft(x: bv16, y: bv16) ensures Xor(x, Xor(x, y)) == y {}
  lemma EntryInjective(kind: Kind, b: bv8, c: bv8) ensures Entry(kind, b) == Entry(kind, c) ==> b == c {}

  lemma StepInjective(kind: Kind, p: bv16, q: bv16, b: bv8, c: bv8)
    ensures Step(kind, p, b) == Step(kind, q, b) ==> p == q
    ensures Step(kind, p, b) == Step(kind, p, c) ==> b == c
  {
    hide Shifts, Load;
    LoadInjective(kind, p, q, b, c);
    if Step(kind, p, b) == Step(kind, q, b) {
      ShiftsInjective(kind, Load(kind, p, b), Load(kind, q, b), 8);
    }
    if Step(kind, p, b) == Step(kind, p, c) {
      ShiftsInjective(kind, Load(kind, p, b), Load(kind, p, c), 8);
    }
  }

  /** Registers that differ stay different however much common data follows. */
  lemma {:induction false} UpdateInjective(kind: Kind, p: bv16, q: bv16, data: seq<bv8>)
    requires p != q
    ensures Update(kind, p, data) != Update(kind, q, data)
  {
    hide Step;
    if data != [] {
      var init := data[..|data| - 1];
      UpdateInjective(kind, p, q, init);
      StepInjective(kind, Update(kind, p, init), Update(kind, q, init), data[|data| - 1], 0);
    }
  }

  /** The byte of the register that the next data byte does not reach. */
  function Beyond(kind: Kind, crc: bv16): bv8 { if kind.FeliCa? then Low(crc) else High(crc) }

  lemma SpreadInjective(e: bv8, f: bv8)
    ensures e != f ==> Spread(e) != Spread(f) && SpreadLeft(e) != SpreadLeft(f)
  {
  }

  lemma BeyondRight(crc: bv16, f: bv8, g: bv8)
    requires f != g
    ensures High((crc >> 8) ^ Fold(f)) != High((crc >> 8) ^ Fold(g))
  {
  }

  lemma BeyondLeft(crc: bv16, f: bv8, g: bv8)
    requires f != g
    ensures Low((crc << 8) ^ FoldLeft(f)) != Low((crc << 8) ^ FoldLeft(g))
  {
  }

  lemma XorBytes(b: bv8, c: bv8, x: bv8)
    requires b != c
    ensures b ^ x != c ^ x
  {
  }

  /** One damaged byte changes even the byte of the register the next byte cannot repair. */
  lemma StepBeyond(kind: Kind, crc: bv16, b: bv8, c: bv8)
    requires b != c
    ensures Beyond(kind, Step(kind, crc, b)) != Beyond(kind, Step(kind, crc, c))
  {
    hide Step, Fold, FoldLeft, Spread, SpreadLeft, High, Low;
    ByteStepIsBitLoop(kind, crc, b);
    ByteStepIsBitLoop(kind, crc, c);
    if kind.FeliCa? {
      XorBytes(b, c, High(crc));
      SpreadInjective(b ^ High(crc), c ^ High(crc));
      BeyondLeft(crc, SpreadLeft(b ^ High(crc)), SpreadLeft(c ^ High(crc)));
    } else {
      XorBytes(b, c, Low(crc));
      SpreadInjective(b ^ Low(crc), c ^ Low(crc));
      BeyondRight(crc, Spread(b ^ Low(crc)), Spread(c ^ Low(crc)));
    }
  }

  lemma LoadBeyondRight(kind: Kind, p: bv16, b: bv8)
    requires !kind.FeliCa?
    ensures High(Load(kind, p, b)) == High(p)
  {
  }

  lemma LoadBeyondLeft(kind: Kind, p: bv16, b: bv8)
    requires kind.FeliCa?
    ensures Low(Load(kind, p, b)) == Low(p)
  {
  }

  lemma LoadBeyond(kind: Kind, p: bv16, b: bv8)
    ensures Beyond(kind, Load(kind, p, b)) == Beyond(kind, p)
  {
    hide High, Low, Load;
    if kind.FeliCa? { LoadBeyondLeft(kind, p, b); } else { LoadBeyondRight(kind, p, b); }
  }

  /** Two adjacent damaged bytes cannot cancel. */
  lemma StepTwice(kind: Kind, crc: bv16, b: bv8, c: bv8, b': bv8, c': bv8)
    requires b != b' || c != c'
    ensures Step(kind, Step(kind, crc, b), c) != Step(kind, Step(kind, crc, b'), c')
  {
    hide Load, Beyond, Shifts;
    var p, p' := Step(kind, crc, b), Step(kind, crc, b');
    if Step(kind, p, c) == Step(kind, p', c') {
      ShiftsInjective(kind, Load(kind, p, c), Load(kind, p', c'), 8);
      LoadBeyond(kind, p, c);
      LoadBeyond(kind, p', c');
      if b != b' { StepBeyond(kind, crc, b, b'); }
      LoadInjective(kind, p, p, c, c');
    }
  }

  // ---------- frames ----------

  lemma JoinLowHigh(x: bv16) ensures Join(Low(x), High(x)) == x {}
  lemma LowHighJoin(lo: bv8, hi: bv8) ensures Low(Join(lo, hi)) == lo && High(Join(lo, hi)) == hi {}

  lemma OutInjective(kind: Kind, p: bv16, q: bv16)
    ensures Out(kind, p) == Out(kind, q) ==> p == q
  {
    match kind
    case Iso15693 => assert !!p == p && !!q == q;
    case FeliCa => SwapTwice(p); SwapTwice(q);
    case _ =>
  }

  lemma SwapTwice(x: bv16)
    ensures (var y := (x << 8) | (x >> 8); (y << 8) | (y >> 8)) == x
  {
  }

  lemma HighOfOut(kind: Kind, p: bv16, q: bv16)
    ensures High(Out(kind, p)) == High(Out(kind, q)) ==> Beyond(kind, p) == Beyond(kind, q)
  {
  }

  lemma {:induction false} UpdateConcat(kind: Kind, crc: bv16, a: seq<bv8>, b: seq<bv8>)
    ensures Update(kind, crc, a + b) == Update(kind, Update(kind, crc, a), b)
  {
    hide Step;
    if b == [] {
      assert a + b == a;
    } else {
      assert (a + b)[..|a + b| - 1] == a + b[..|b| - 1];
      UpdateConcat(kind, crc, a, b[..|b| - 1]);
    }
  }

  /** A frame passes exactly when it is its own payload with the CRC appended. */
  lemma CheckIffAppended(kind: Kind, frame: seq<bv8>)
    requires |frame| > 2
    ensures Check(kind, frame) <==> frame == Append(kind, frame[..|frame| - 2])
  {
    hide Crc, Join, Low, High;
    var data, lo, hi := frame[..|frame| - 2], frame[|frame| - 2], frame[|frame| - 1];
    assert frame == data + [lo, hi];
    JoinLowHigh(Crc(kind, data));
    LowHighJoin(lo, hi);
  }

  /** What the sender appends the receiver accepts, except around an empty payload. */
  lemma AppendPassesIff(kind: Kind, data: seq<bv8>)
    ensures Check(kind, Append(kind, data)) <==> data != []
  {
    hide Crc, Join, Low, High;
    var frame := Append(kind, data);
    assert frame[..|frame| - 2] == data;
    JoinLowHigh(Crc(kind, data));
  }

  lemma UpdateAround(kind: Kind, pre: seq<bv8>, b: bv8, c: bv8, post: seq<bv8>)
    ensures Update(kind, Init(kind), pre + [b, c] + post) ==
            Update(kind, Step(kind, Step(kind, Update(kind, Init(kind), pre), b), c), post)
  {
    hide Step;
    var s := pre + [b, c];
    assert s[..|s| - 1] == pre + [b];
    assert (pre + [b])[..|pre|] == pre;
    UpdateConcat(kind, Init(kind), s, post);
  }

  /** Both damaged bytes in the payload. */
  lemma PayloadDamage(kind: Kind, pre: seq<bv8>, b: bv8, c: bv8, b': bv8, c': bv8, post: seq<bv8>)
    requires b != b' || c != c'
    ensures Crc(kind, pre + [b, c] + post) != Crc(kind, pre + [b', c'] + post)
  {
    hide Step, Out, Update;
    var r := Update(kind, Init(kind), pre);
    var p, q := Step(kind, Step(kind, r, b), c), Step(kind, Step(kind, r, b'), c');
    UpdateAround(kind, pre, b, c, post);
    UpdateAround(kind, pre, b', c', post);
    StepTwice(kind, r, b, c, b', c');
    UpdateInjective(kind, p, q, post);
    OutInjective(kind, Update(kind, p, post), Update(kind, q, post));
  }

  /** One damaged byte at the end of the payload: no single trailer byte can hide it. */
  lemma EdgeDamage(kind: Kind, pre: seq<bv8>, b: bv8, b': bv8)
    requires b != b'
    ensures High(Crc(kind, pre + [b])) != High(Crc(kind, pre + [b']))
  {
    hide Step, Out, Beyond, High;
    assert (pre + [b])[..|pre|] == pre && (pre + [b'])[..|pre|] == pre;
    var r := Update(kind, Init(kind), pre);
    StepBeyond(kind, r, b, b');
    HighOfOut(kind, Step(kind, r, b), Step(kind, r, b'));
  }

  /** Damage confined to two adjacent bytes, anywhere in a frame of any length, is detected. */
  lemma AdjacentDamageDetected(kind: Kind, good: seq<bv8>, bad: seq<bv8>, i: nat)
    requires |good| == |bad| && i + 1 < |good|
    requires good[i] != bad[i] || good[i + 1] != bad[i + 1]
    requires forall j :: 0 <= j < |good| && j != i && j != i + 1 ==> good[j] == bad[j]
    requires Check(kind, good)
    ensures !Check(kind, bad)
  {
    hide Crc, Join, High, Low;
    var n := |good| - 2;
    LowHighJoin(good[n], good[n + 1]);
    LowHighJoin(bad[n], bad[n + 1]);
    if i == n {
      assert good[..n] == bad[..n];
    } else if i == n - 1 {
      assert good[..n] == good[..i] + [good[i]];
      assert bad[..n] == good[..i] + [bad[i]];
      if good[i] != bad[i] { EdgeDamage(kind, good[..i], good[i], bad[i]); }
    } else {
      assert good[..n] == good[..i] + [good[i], good[i + 1]] + good[i + 2..n];
      assert bad[..n] == good[..i] + [bad[i], bad[i + 1]] + good[i + 2..n];
      PayloadDamage(kind, good[..i], good[i], good[i + 1], bad[i], bad[i + 1], good[i + 2..n]);
    }
  }

  // ---------- the code ----------

  /** The byte-at-once loop of iso14443_crc_a and, from another initial value, of crc16_ccitt. */
  method ComputeByByte(kind: Kind, data: array<bv8>, len: nat) returns (crc: bv16)
    requires kind.Iso14443A? || kind.Ccitt?
    requires len <= data.Length
    ensures crc == Crc(kind, data[..len])
  {
    hide Step, ByteStep;
    crc := Init(kind);
    for i := 0 to len
      invariant crc == Update(kind, Init(kind), data[..i])
    {
      assert data[..i + 1][..i] == data[..i];
      ByteStepIsBitLoop(kind, crc, data[i]);
      crc := ByteStep(crc, data[i]);
    }
  }

  /** The nested bit loops of iso15693_3_crc16 and felica_crc_calculate. */
  method ComputeByBit(kind: Kind, data: array<bv8>, len: nat) returns (crc: bv16)
    requires kind.Iso15693? || kind.FeliCa?
    requires len <= data.Length
    ensures crc == Crc(kind, data[..len])
  {
    hide Shift, Out, Load;
    crc := Init(kind);
    for i := 0 to len
      invariant crc == Update(kind, Init(kind), data[..i])
    {
      ghost var before := crc;
      crc := Load(kind, crc, data[i]);
      for j := 0 to 8
        invariant crc == Shifts(kind, Load(kind, before, data[i]), j)
      {
        crc := Shift(kind, crc);
      }
      assert data[..i + 1][..i] == data[..i];
    }
    crc := Out(kind, crc);
  }

  method Compute(kind: Kind, data: array<bv8>, len: nat) returns (crc: bv16)
    requires len <= data.Length
    ensures crc == Crc(kind, data[..len])
  {
    if kind.Iso14443A? || kind.Ccitt? {
      crc := ComputeByByte(kind, data, len);
    } else {
      crc := ComputeByBit(kind, data, len);
    }
  }

  /** Appends the CRC in place.  The ISO 15693 helper returns 0 when there is no room; the callers of
      the others provide it. */
  method AppendInPlace(kind: Kind, buf: array<bv8>, len: nat) returns (newLen: nat)
    requires !kind.Iso15693? ==> len + 2 <= buf.Length
    modifies buf
    ensures len + 2 <= buf.Length ==>
            newLen == len + 2 && buf[..newLen] == Append(kind, old(buf[..len])) && buf[newLen..] == old(buf[len + 2..])
    ensures len + 2 > buf.Length ==> newLen == 0 && buf[..] == old(buf[..])
  {
    hide Crc, Low, High;
    if len + 2 > buf.Length { return 0; }
    var crc := Compute(kind, buf, len);
    buf[len] := Low(crc);
    buf[len + 1] := High(crc);
    newLen := len + 2;
  }

  /** The receiver's check over the first len bytes of a buffer. */
  method CheckFrame(kind: Kind, buf: array<bv8>, len: nat) returns (ok: bool)
    requires len <= buf.Length
    ensures ok <==> Check(kind, buf[..len])
  {
    hide Crc, Join;
    if len <= 2 {
      return false;
    }
    var crc := Compute(kind, buf, len - 2);
    assert buf[..len][..len - 2] == buf[..len - 2];
    ok := crc == Join(buf[len - 2], buf[len - 1]);
  }
}
