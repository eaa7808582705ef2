/** Bits, bytes and big-endian words: the vocabulary the ciphers share. */
module Words {

  function BitAt(b: bv8, i: nat): bool
    requires i < 8
  { (b >> i) & 1 != 0 }

  function BitAt32(w: bv32, i: nat): bool
    requires i < 32
  { (w >> i) & 1 != 0 }

  function Flag8(b: bool): bv8 { if b then 1 else 0 }
  function Flag32(b: bool): bv32 { if b then 1 else 0 }

  /** A single bit at place i. */
  function At8(v: bool, i: nat): bv8
    requires i < 8
  { Flag8(v) << i }

  function At32(v: bool, i: nat): bv32
    requires i < 32
  { Flag32(v) << i }

  function Or8(x: bv8, y: bv8): bv8 { x | y }
  function Or(x: bv32, y: bv32): bv32 { x | y }

  /** The bit a word absorbs at step i: bytes from the most significant, bits from the least.
      This is the exclusive-or of i and 24. */
  function BeIndex(i: nat): (k: nat)
    requires i < 32
    ensures k < 32
  { 24 - i / 8 * 8 + i % 8 }

  /** The byte of x that starts at bit m. */
  function Window(x: bv32, m: nat): bv8
    requires m <= 24
  { ((x >> m) & 0xFF) as bv8 }

  /** A byte placed at bit m of an otherwise zero word. */
  function Place(x: bv8, m: nat): bv32
    requires m <= 24
  { (x as bv32) << m }

  function BytesOf(w: bv32): (bytes: seq<bv8>)
    ensures |bytes| == 4
  { [Window(w, 24), Window(w, 16), Window(w, 8), Window(w, 0)] }

  function Join(b0: bv8, b1: bv8, b2: bv8, b3: bv8): bv32
  { ((b0 as bv32) << 24) | ((b1 as bv32) << 16) | ((b2 as bv32) << 8) | (b3 as bv32) }

  function WordOf(bytes: seq<bv8>): bv32
    requires |bytes| == 4
  { Join(bytes[0], bytes[1], bytes[2], bytes[3]) }

  function Xor(a: bv8, b: bv8): bv8 { a ^ b }
  function Xor32(a: bv32, b: bv32): bv32 { a ^ b }

  function XorBytes(a: seq<bv8>, b: seq<bv8>): (c: seq<bv8>)
    requires |a| == |b|
    ensures |c| == |a|
  { seq(|a|, i requires 0 <= i < |a| => Xor(a[i], b[i])) }

  function Zeros(n: nat): (z: seq<bv8>)
    ensures |z| == n
  { seq(n, i => 0) }

  lemma BitsOfWindow24(w: bv32)
    ensures BitAt32(w, 24) == BitAt(Window(w, 24), 0)
    ensures BitAt32(w, 25) == BitAt(Window(w, 24), 1)
    ensures BitAt32(w, 26) == BitAt(Window(w, 24), 2)
    ensures BitAt32(w, 27) == BitAt(Window(w, 24), 3)
    ensures BitAt32(w, 28) == BitAt(Window(w, 24), 4)
    ensures BitAt32(w, 29) == BitAt(Window(w, 24), 5)
    ensures BitAt32(w, 30) == BitAt(Window(w, 24), 6)
    ensures BitAt32(w, 31) == BitAt(Window(w, 24), 7)
  {
  }

  lemma BitsOfWindow16(w: bv32)
    ensures BitAt32(w, 16) == BitAt(Window(w, 16), 0)
    ensures BitAt32(w, 17) == BitAt(Window(w, 16), 1)
    ensures BitAt32(w, 18) == BitAt(Window(w, 16), 2)
    ensures BitAt32(w, 19) == BitAt(Window(w, 16), 3)
    ensures BitAt32(w, 20) == BitAt(Window(w, 16), 4)
    ensures BitAt32(w, 21) == BitAt(Window(w, 16), 5)
    ensures BitAt32(w, 22) == BitAt(Window(w, 16), 6)
    ensures BitAt32(w, 23) == BitAt(Window(w, 16), 7)
  {
  }

  lemma BitsOfWindow8(w: bv32)
    ensures BitAt32(w, 8) == BitAt(Window(w, 8), 0)
    ensures BitAt32(w, 9) == BitAt(Window(w, 8), 1)
    ensures BitAt32(w, 10) == BitAt(Window(w, 8), 2)
    ensures BitAt32(w, 11) == BitAt(Window(w, 8), 3)
    ensures BitAt32(w, 12) == BitAt(Window(w, 8), 4)
    ensures BitAt32(w, 13) == BitAt(Window(w, 8), 5)
    ensures BitAt32(w, 14) == BitAt(Window(w, 8), 6)
    ensures BitAt32(w, 15) == BitAt(Window(w, 8), 7)
  {
  }

  lemma BitsOfWindow0(w: bv32)
    ensures BitAt32(w, 0) == BitAt(Window(w, 0), 0)
    ensures BitAt32(w, 1) == BitAt(Window(w, 0), 1)
    ensures BitAt32(w, 2) == BitAt(Window(w, 0), 2)
    ensures BitAt32(w, 3) == BitAt(Window(w, 0), 3)
    ensures BitAt32(w, 4) == BitAt(Window(w, 0), 4)
    ensures BitAt32(w, 5) == BitAt(Window(w, 0), 5)
    ensures BitAt32(w, 6) == BitAt(Window(w, 0), 6)
    ensures BitAt32(w, 7) == BitAt(Window(w, 0), 7)
  {
  }

  lemma BitOfWindow(w: bv32, m: nat, k: nat)
    requires m == 0 || m == 8 || m == 16 || m == 24
    requires k < 8
    ensures BitAt32(w, m + k) == BitAt(Window(w, m), k)
  {
    hide BitAt, BitAt32, Window;
    if m == 0 { BitsOfWindow0(w); }
    else if m == 8 { BitsOfWindow8(w); }
    else if m == 16 { BitsOfWindow16(w); }
    else { BitsOfWindow24(w); }
  }

  lemma XorBits(a: bv8, b: bv8)
    ensures BitAt(Xor(a, b), 0) == (BitAt(a, 0) != BitAt(b, 0))
    ensures BitAt(Xor(a, b), 1) == (BitAt(a, 1) != BitAt(b, 1))
    ensures BitAt(Xor(a, b), 2) == (BitAt(a, 2) != BitAt(b, 2))
    ensures BitAt(Xor(a, b), 3) == (BitAt(a, 3) != BitAt(b, 3))
    ensures BitAt(Xor(a, b), 4) == (BitAt(a, 4) != BitAt(b, 4))
    ensures BitAt(Xor(a, b), 5) == (BitAt(a, 5) != BitAt(b, 5))
    ensures BitAt(Xor(a, b), 6) == (BitAt(a, 6) != BitAt(b, 6))
    ensures BitAt(Xor(a, b), 7) == (BitAt(a, 7) != BitAt(b, 7))
  {
  }

  lemma XorBit(a: bv8, b: bv8, k: nat)
    requires k < 8
    ensures BitAt(Xor(a, b), k) == (BitAt(a, k) != BitAt(b, k))
  {
    hide BitAt, Xor;
    XorBits(a, b);
  }

  lemma WindowsOfWord(b0: bv8, b1: bv8, b2: bv8, b3: bv8, w: bv32)
    requires w == ((b0 as bv32) << 24) | ((b1 as bv32) << 16) | ((b2 as bv32) << 8) | (b3 as bv32)
    ensures Window(w, 24) == b0 && Window(w, 16) == b1 && Window(w, 8) == b2 && Window(w, 0) == b3
  {
  }

  lemma WordOfWindows(w: bv32, b0: bv8, b1: bv8, b2: bv8, b3: bv8)
    requires b0 == ((w >> 24) & 0xFF) as bv8 && b1 == ((w >> 16) & 0xFF) as bv8
    requires b2 == ((w >> 8) & 0xFF) as bv8 && b3 == ((w >> 0) & 0xFF) as bv8
    ensures ((b0 as bv32) << 24) | ((b1 as bv32) << 16) | ((b2 as bv32) << 8) | (b3 as bv32) == w
  {
  }

  lemma BytesOfWordOf(bytes: seq<bv8>)
    requires |bytes| == 4
    ensures BytesOf(WordOf(bytes)) == bytes
  {
    hide Window;
    WindowsOfWord(bytes[0], bytes[1], bytes[2], bytes[3], WordOf(bytes));
  }

  lemma JoinWindows(w: bv32)
    ensures Join(Window(w, 24), Window(w, 16), Window(w, 8), Window(w, 0)) == w
  {
    WordOfWindows(w, Window(w, 24), Window(w, 16), Window(w, 8), Window(w, 0));
  }

  lemma WordOfBytesOf(w: bv32)
    ensures WordOf(BytesOf(w)) == w
  {
    hide Join, Window;
    JoinWindows(w);
  }

  lemma JoinXor(a0: bv8, a1: bv8, a2: bv8, a3: bv8, b0: bv8, b1: bv8, b2: bv8, b3: bv8)
    ensures Xor32(Join(a0, a1, a2, a3), Join(b0, b1, b2, b3)) ==
            Join(Xor(a0, b0), Xor(a1, b1), Xor(a2, b2), Xor(a3, b3))
  {
  }

  lemma XorWord(a: seq<bv8>, b: seq<bv8>)
    requires |a| == |b| == 4
    ensures Xor32(WordOf(a), WordOf(b)) == WordOf(XorBytes(a, b))
  {
    hide Join, Xor, Xor32;
    JoinXor(a[0], a[1], a[2], a[3], b[0], b[1], b[2], b[3]);
  }

  lemma XorXor(a: bv8, b: bv8) ensures Xor(a, Xor(a, b)) == b {}
  lemma XorSymmetric(a: bv8, b: bv8) ensures Xor(a, b) == Xor(b, a) {}

  lemma XorTwice(a: seq<bv8>, b: seq<bv8>)
    requires |a| == |b|
    ensures XorBytes(a, XorBytes(a, b)) == b
  {
    hide Xor;
    forall i | 0 <= i < |a| ensures Xor(a[i], Xor(a[i], b[i])) == b[i] { XorXor(a[i], b[i]); }
  }

  // ---------- tables ----------

  datatype Halves = Halves(left: bv32, right: bv32)

  function Swapped(p: Halves): Halves { Halves(p.right, p.left) }

  /** Entry i of a table of sixteen, by the low four bits of i. */
  function Pick16(i: bv32,
    t0: bv32, t1: bv32, t2: bv32, t3: bv32, t4: bv32, t5: bv32, t6: bv32, t7: bv32,
    t8: bv32, t9: bv32, t10: bv32, t11: bv32, t12: bv32, t13: bv32, t14: bv32, t15: bv32): bv32
  {
    if i & 0x8 == 0 then (
      if i & 0x4 == 0 then (
        if i & 0x2 == 0 then (if i & 0x1 == 0 then t0 else t1) else (if i & 0x1 == 0 then t2 else t3)
      ) else (
        if i & 0x2 == 0 then (if i & 0x1 == 0 then t4 else t5) else (if i & 0x1 == 0 then t6 else t7)
      )
    ) else (
      if i & 0x4 == 0 then (
        if i & 0x2 == 0 then (if i & 0x1 == 0 then t8 else t9) else (if i & 0x1 == 0 then t10 else t11)
      ) else (
        if i & 0x2 == 0 then (if i & 0x1 == 0 then t12 else t13) else (if i & 0x1 == 0 then t14 else t15)
      )
    )
  }

  /** Entry i of a table of sixty-four, by the low six bits of i. */
  function Pick64(i: bv32,
    t0: bv32, t1: bv32, t2: bv32, t3: bv32, t4: bv32, t5: bv32, t6: bv32, t7: bv32,
    t8: bv32, t9: bv32, t10: bv32, t11: bv32, t12: bv32, t13: bv32, t14: bv32, t15: bv32,
    t16: bv32, t17: bv32, t18: bv32, t19: bv32, t20: bv32, t21: bv32, t22: bv32, t23: bv32,
    t24: bv32, t25: bv32, t26: bv32, t27: bv32, t28: bv32, t29: bv32, t30: bv32, t31: bv32,
    t32: bv32, t33: bv32, t34: bv32, t35: bv32, t36: bv32, t37: bv32, t38: bv32, t39: bv32,
    t40: bv32, t41: bv32, t42: bv32, t43: bv32, t44: bv32, t45: bv32, t46: bv32, t47: bv32,
    t48: bv32, t49: bv32, t50: bv32, t51: bv32, t52: bv32, t53: bv32, t54: bv32, t55: bv32,
    t56: bv32, t57: bv32, t58: bv32, t59: bv32, t60: bv32, t61: bv32, t62: bv32, t63: bv32): bv32
  {
    if i & 0x20 == 0 then (
      if i & 0x10 == 0 then (
        if i & 0x8 == 0 then (
          if i & 0x4 == 0 then (
            if i & 0x2 == 0 then (if i & 0x1 == 0 then t0 else t1) else (if i & 0x1 == 0 then t2 else t3)
          ) else (
            if i & 0x2 == 0 then (if i & 0x1 == 0 then t4 else t5) else (if i & 0x1 == 0 then t6 else t7)
          )
        ) else (
          if i & 0x4 == 0 then (
            if i & 0x2 == 0 then (if i & 0x1 == 0 then t8 else t9) else (if i & 0x1 == 0 then t10 else t11)
          ) else (
            if i & 0x2 == 0 then (if i & 0x1 == 0 then t12 else t13) else (if i & 0x1 == 0 then t14 else t15)
          )
        )
      ) else (
        if i & 0x8 == 0 then (
          if i & 0x4 == 0 then (
            if i & 0x2 == 0 then (if i & 0x1 == 0 then t16 else t17) else (if i & 0x1 == 0 then t18 else t19)
          ) else (
            if i & 0x2 == 0 then (if i & 0x1 == 0 then t20 else t21) else (if i & 0x1 == 0 then t22 else t23)
          )
        ) else (
          if i & 0x4 == 0 then (
            if i & 0x2 == 0 then (if i & 0x1 == 0 then t24 else t25) else (if i & 0x1 == 0 then t26 else t27)
          ) else (
            if i & 0x2 == 0 then (if i & 0x1 == 0 then t28 else t29) else (if i & 0x1 == 0 then t30 else t31)
          )
        )
      )
    ) else (
      if i & 0x10 == 0 then (
        if i & 0x8 == 0 then (
          if i & 0x4 == 0 then (
            if i & 0x2 == 0 then (if i & 0x1 == 0 then t32 else t33) else (if i & 0x1 == 0 then t34 else t35)
          ) else (
            if i & 0x2 == 0 then (if i & 0x1 == 0 then t36 else t37) else (if i & 0x1 == 0 then t38 else t39)
          )
        ) else (
          if i & 0x4 == 0 then (
            if i & 0x2 == 0 then (if i & 0x1 == 0 then t40 else t41) else (if i & 0x1 == 0 then t42 else t43)
          ) else (
            if i & 0x2 == 0 then (if i & 0x1 == 0 then t44 else t45) else (if i & 0x1 == 0 then t46 else t47)
          )
        )
      ) else (
        if i & 0x8 == 0 then (
          if i & 0x4 == 0 then (
            if i & 0x2 == 0 then (if i & 0x1 == 0 then t48 else t49) else (if i & 0x1 == 0 then t50 else t51)
          ) else (
            if i & 0x2 == 0 then (if i & 0x1 == 0 then t52 else t53) else (if i & 0x1 == 0 then t54 else t55)
          )
        ) else (
          if i & 0x4 == 0 then (
            if i & 0x2 == 0 then (if i & 0x1 == 0 then t56 else t57) else (if i & 0x1 == 0 then t58 else t59)
          ) else (
            if i & 0x2 == 0 then (if i & 0x1 == 0 then t60 else t61) else (if i & 0x1 == 0 then t62 else t63)
          )
        )
      )
    )
  }
}
