/** The table-driven DES of ultralight_des.c: eight tables that merge each substitution box with
    the permutation P, halves kept rotated by one bit, bit-swapping networks for the permutations
    and a key schedule of 32 words.

    Two results about it.  Under every key and on every block it is the cipher of FIPS 46-3
    (module Fips46), in both directions.  And whatever the tables hold, for any number of rounds,
    the schedule reversed in place undoes the schedule. */
module Des {
  import opened Words
  import Fips46

  function Sb1(i: bv32): bv32 {
    Pick64(i,
      0x01010400, 0x00000000, 0x00010000, 0x01010404,
      0x01010004, 0x00010404, 0x00000004, 0x00010000,
      0x00000400, 0x01010400, 0x01010404, 0x00000400,
      0x01000404, 0x01010004, 0x01000000, 0x00000004,
      0x00000404, 0x01000400, 0x01000400, 0x00010400,
      0x00010400, 0x01010000, 0x01010000, 0x01000404,
      0x00010004, 0x01000004, 0x01000004, 0x00010004,
      0x00000000, 0x00000404, 0x00010404, 0x01000000,
      0x00010000, 0x01010404, 0x00000004, 0x01010000,
      0x01010400, 0x01000000, 0x01000000, 0x00000400,
      0x01010004, 0x00010000, 0x00010400, 0x01000004,
      0x00000400, 0x00000004, 0x01000404, 0x00010404,
      0x01010404, 0x00010004, 0x01010000, 0x01000404,
      0x01000004, 0x00000404, 0x00010404, 0x01010400,
      0x00000404, 0x01000400, 0x01000400, 0x00000000,
      0x00010004, 0x00010400, 0x00000000, 0x01010004)
  }

  function Sb2(i: bv32): bv32 {
    Pick64(i,
      0x80108020, 0x80008000, 0x00008000, 0x00108020,
      0x00100000, 0x00000020, 0x80100020, 0x80008020,
      0x80000020, 0x80108020, 0x80108000, 0x80000000,
      0x80008000, 0x00100000, 0x00000020, 0x80100020,
      0x00108000, 0x00100020, 0x80008020, 0x00000000,
      0x80000000, 0x00008000, 0x00108020, 0x80100000,
      0x00100020, 0x80000020, 0x00000000, 0x00108000,
      0x00008020, 0x80108000, 0x80100000, 0x00008020,
      0x00000000, 0x00108020, 0x80100020, 0x00100000,
      0x80008020, 0x80100000, 0x80108000, 0x00008000,
      0x80100000, 0x80008000, 0x00000020, 0x80108020,
      0x00108020, 0x00000020, 0x00008000, 0x80000000,
      0x00008020, 0x80108000, 0x00100000, 0x80000020,
      0x00100020, 0x80008020, 0x80000020, 0x00100020,
      0x00108000, 0x00000000, 0x80008000, 0x00008020,
      0x80000000, 0x80100020, 0x80108020, 0x00108000)
  }

  function Sb3(i: bv32): bv32 {
    Pick64(i,
      0x00000208, 0x08020200, 0x00000000, 0x08020008,
      0x08000200, 0x00000000, 0x00020208, 0x08000200,
      0x00020008, 0x08000008, 0x08000008, 0x00020000,
      0x08020208, 0x00020008, 0x08020000, 0x00000208,
      0x08000000, 0x00000008, 0x08020200, 0x00000200,
      0x00020200, 0x08020000, 0x08020008, 0x00020208,
      0x08000208, 0x00020200, 0x00020000, 0x08000208,
      0x00000008, 0x08020208, 0x00000200, 0x08000000,
      0x08020200, 0x08000000, 0x00020008, 0x00000208,
      0x00020000, 0x08020200, 0x08000200, 0x00000000,
      0x00000200, 0x00020008, 0x08020208, 0x08000200,
      0x08000008, 0x00000200, 0x00000000, 0x08020008,
      0x08000208, 0x00020000, 0x08000000, 0x08020208,
      0x00000008, 0x00020208, 0x00020200, 0x08000008,
      0x08020000, 0x08000208, 0x00000208, 0x08020000,
      0x00020208, 0x00000008, 0x08020008, 0x00020200)
  }

  function Sb4(i: bv32): bv32 {
    Pick64(i,
      0x00802001, 0x00002081, 0x00002081, 0x00000080,
      0x00802080, 0x00800081, 0x00800001, 0x00002001,
      0x00000000, 0x00802000, 0x00802000, 0x00802081,
      0x00000081, 0x00000000, 0x00800080, 0x00800001,
      0x00000001, 0x00002000, 0x00800000, 0x00802001,
      0x00000080, 0x00800000, 0x00002001, 0x00002080,
      0x00800081, 0x00000001, 0x00002080, 0x00800080,
      0x00002000, 0x00802080, 0x00802081, 0x00000081,
      0x00800080, 0x00800001, 0x00802000, 0x00802081,
      0x00000081, 0x00000000, 0x00000000, 0x00802000,
      0x00002080, 0x00800080, 0x00800081, 0x00000001,
      0x00802001, 0x00002081, 0x00002081, 0x00000080,
      0x00802081, 0x00000081, 0x00000001, 0x00002000,
      0x00800001, 0x00002001, 0x00802080, 0x00800081,
      0x00002001, 0x00002080, 0x00800000, 0x00802001,
      0x00000080, 0x00800000, 0x00002000, 0x00802080)
  }

  function Sb5(i: bv32): bv32 {
    Pick64(i,
      0x00000100, 0x02080100, 0x02080000, 0x42000100,
      0x00080000, 0x00000100, 0x40000000, 0x02080000,
      0x40080100, 0x00080000, 0x02000100, 0x40080100,
      0x42000100, 0x42080000, 0x00080100, 0x40000000,
      0x02000000, 0x40080000, 0x40080000, 0x00000000,
      0x40000100, 0x42080100, 0x42080100, 0x02000100,
      0x42080000, 0x40000100, 0x00000000, 0x42000000,
      0x02080100, 0x02000000, 0x42000000, 0x00080100,
      0x00080000, 0x42000100, 0x00000100, 0x02000000,
      0x40000000, 0x02080000, 0x42000100, 0x40080100,
      0x02000100, 0x40000000, 0x42080000, 0x02080100,
      0x40080100, 0x00000100, 0x02000000, 0x42080000,
      0x42080100, 0x00080100, 0x42000000, 0x42080100,
      0x02080000, 0x00000000, 0x40080000, 0x42000000,
      0x00080100, 0x02000100, 0x40000100, 0x00080000,
      0x00000000, 0x40080000, 0x02080100, 0x40000100)
  }

  function Sb6(i: bv32): bv32 {
    Pick64(i,
      0x20000010, 0x20400000, 0x00004000, 0x20404010,
      0x20400000, 0x00000010, 0x20404010, 0x00400000,
      0x20004000, 0x00404010, 0x00400000, 0x20000010,
      0x00400010, 0x20004000, 0x20000000, 0x00004010,
      0x00000000, 0x00400010, 0x20004010, 0x00004000,
      0x00404000, 0x20004010, 0x00000010, 0x20400010,
      0x20400010, 0x00000000, 0x00404010, 0x20404000,
      0x00004010, 0x00404000, 0x20404000, 0x20000000,
      0x20004000, 0x00000010, 0x20400010, 0x00404000,
      0x20404010, 0x00400000, 0x00004010, 0x20000010,
      0x00400000, 0x20004000, 0x20000000, 0x00004010,
      0x20000010, 0x20404010, 0x00404000, 0x20400000,
      0x00404010, 0x20404000, 0x00000000, 0x20400010,
      0x00000010, 0x00004000, 0x20400000, 0x00404010,
      0x00004000, 0x00400010, 0x20004010, 0x00000000,
      0x20404000, 0x20000000, 0x00400010, 0x20004010)
  }

  function Sb7(i: bv32): bv32 {
    Pick64(i,
      0x00200000, 0x04200002, 0x04000802, 0x00000000,
      0x00000800, 0x04000802, 0x00200802, 0x04200800,
      0x04200802, 0x00200000, 0x00000000, 0x04000002,
      0x00000002, 0x04000000, 0x04200002, 0x00000802,
      0x04000800, 0x00200802, 0x00200002, 0x04000800,
      0x04000002, 0x04200000, 0x04200800, 0x00200002,
      0x04200000, 0x00000800, 0x00000802, 0x04200802,
      0x00200800, 0x00000002, 0x04000000, 0x00200800,
      0x04000000, 0x00200800, 0x00200000, 0x04000802,
      0x04000802, 0x04200002, 0x04200002, 0x00000002,
      0x00200002, 0x04000000, 0x04000800, 0x00200000,
      0x04200800, 0x00000802, 0x00200802, 0x04200800,
      0x00000802, 0x04000002, 0x04200802, 0x04200000,
      0x00200800, 0x00000000, 0x00000002, 0x04200802,
      0x00000000, 0x00200802, 0x04200000, 0x00000800,
      0x04000002, 0x04000800, 0x00000800, 0x00200002)
  }

  function Sb8(i: bv32): bv32 {
    Pick64(i,
      0x10001040, 0x00001000, 0x00040000, 0x10041040,
      0x10000000, 0x10001040, 0x00000040, 0x10000000,
      0x00040040, 0x10040000, 0x10041040, 0x00041000,
      0x10041000, 0x00041040, 0x00001000, 0x00000040,
      0x10040000, 0x10000040, 0x10001000, 0x00001040,
      0x00041000, 0x00040040, 0x10040040, 0x10041000,
      0x00001040, 0x00000000, 0x00000000, 0x10040040,
      0x10000040, 0x10001000, 0x00041040, 0x00040000,
      0x00041040, 0x00040000, 0x10041000, 0x00001000,
      0x00000040, 0x10040040, 0x00001000, 0x00041040,
      0x10001000, 0x00000040, 0x10000040, 0x10040000,
      0x10040040, 0x10000000, 0x00040000, 0x10001040,
      0x00000000, 0x10041040, 0x00040040, 0x10000040,
      0x10040000, 0x10001000, 0x10001040, 0x00000000,
      0x10041040, 0x00041000, 0x00041000, 0x00001040,
      0x00001040, 0x00040040, 0x10000000, 0x10041000)
  }

  function Lhs(i: bv32): bv32 {
    Pick16(i,
      0x00000000, 0x00000001, 0x00000100, 0x00000101,
      0x00010000, 0x00010001, 0x00010100, 0x00010101,
      0x01000000, 0x01000001, 0x01000100, 0x01000101,
      0x01010000, 0x01010001, 0x01010100, 0x01010101)
  }

  function Rhs(i: bv32): bv32 {
    Pick16(i,
      0x00000000, 0x01000000, 0x00010000, 0x01010000,
      0x00000100, 0x01000100, 0x00010100, 0x01010100,
      0x00000001, 0x01000001, 0x00010001, 0x01010001,
      0x00000101, 0x01000101, 0x00010101, 0x01010101)
  }

  // ---------- the macros ----------

  function Rotl(v: bv32): bv32 { (v << 1) | (v >> 31) }
  function Rotr4(v: bv32): bv32 { (v << 28) | (v >> 4) }

  /** The code keeps both halves rotated left by one. */
  function Turned(p: Halves): Halves { Halves(Rotl(p.left), Rotl(p.right)) }

  /** DES_IP(X, Y). */
  function Ip(p: Halves): Halves {
    var x0, y0 := p.left, p.right;
    var t0 := ((x0 >> 4) ^ y0) & 0x0F0F0F0F; var y1 := y0 ^ t0; var x1 := x0 ^ (t0 << 4);
    var t1 := ((x1 >> 16) ^ y1) & 0x0000FFFF; var y2 := y1 ^ t1; var x2 := x1 ^ (t1 << 16);
    var t2 := ((y2 >> 2) ^ x2) & 0x33333333; var x3 := x2 ^ t2; var y3 := y2 ^ (t2 << 2);
    var t3 := ((y3 >> 8) ^ x3) & 0x00FF00FF; var x4 := x3 ^ t3; var y4 := y3 ^ (t3 << 8);
    var y5 := (y4 << 1) | (y4 >> 31);
    var t4 := (x4 ^ y5) & 0xAAAAAAAA; var y6 := y5 ^ t4; var x6 := x4 ^ t4;
    Halves((x6 << 1) | (x6 >> 31), y6)
  }

  /** DES_FP(X, Y). */
  function Fp(p: Halves): Halves {
    var x0, y0 := p.left, p.right;
    var x1 := (x0 << 31) | (x0 >> 1);
    var t0 := (x1 ^ y0) & 0xAAAAAAAA; var x2 := x1 ^ t0; var y2 := y0 ^ t0;
    var y3 := (y2 << 31) | (y2 >> 1);
    var t1 := ((y3 >> 8) ^ x2) & 0x00FF00FF; var x4 := x2 ^ t1; var y4 := y3 ^ (t1 << 8);
    var t2 := ((y4 >> 2) ^ x4) & 0x33333333; var x5 := x4 ^ t2; var y5 := y4 ^ (t2 << 2);
    var t3 := ((x5 >> 16) ^ y5) & 0x0000FFFF; var y6 := y5 ^ t3; var x6 := x5 ^ (t3 << 16);
    var t4 := ((x6 >> 4) ^ y6) & 0x0F0F0F0F; var y7 := y6 ^ t4; var x7 := x6 ^ (t4 << 4);
    Halves(x7, y7)
  }

  lemma FpIp(p: Halves)
    ensures Fp(Ip(p)) == p
  {
  }

  lemma IpFp(p: Halves)
    ensures Ip(Fp(p)) == p
  {
  }

  /** Words are equal when they are equal byte by byte. */
  predicate Same(a: bv32, b: bv32, mask: bv32) { a & mask == b & mask }

  lemma ByBytes(a: bv32, b: bv32)
    requires Same(a, b, 0xFF) && Same(a, b, 0xFF00) && Same(a, b, 0xFF0000) && Same(a, b, 0xFF000000)
    ensures a == b
  {
  }

  lemma IpLeftBytes(p: Halves)
    ensures Same(Ip(p).left, Rotl(Fips46.IpLeft(p.left, p.right)), 0xFF)
    ensures Same(Ip(p).left, Rotl(Fips46.IpLeft(p.left, p.right)), 0xFF00)
    ensures Same(Ip(p).left, Rotl(Fips46.IpLeft(p.left, p.right)), 0xFF0000)
    ensures Same(Ip(p).left, Rotl(Fips46.IpLeft(p.left, p.right)), 0xFF000000)
  {
  }

  lemma IpRightBytes(p: Halves)
    ensures Same(Ip(p).right, Rotl(Fips46.IpRight(p.left, p.right)), 0xFF)
    ensures Same(Ip(p).right, Rotl(Fips46.IpRight(p.left, p.right)), 0xFF00)
    ensures Same(Ip(p).right, Rotl(Fips46.IpRight(p.left, p.right)), 0xFF0000)
    ensures Same(Ip(p).right, Rotl(Fips46.IpRight(p.left, p.right)), 0xFF000000)
  {
  }

  lemma FpLeftBytes(p: Halves)
    ensures Same(Fp(Halves(Rotl(p.left), Rotl(p.right))).left, Fips46.FinalLeft(p.left, p.right), 0xFF)
    ensures Same(Fp(Halves(Rotl(p.left), Rotl(p.right))).left, Fips46.FinalLeft(p.left, p.right), 0xFF00)
    ensures Same(Fp(Halves(Rotl(p.left), Rotl(p.right))).left, Fips46.FinalLeft(p.left, p.right), 0xFF0000)
    ensures Same(Fp(Halves(Rotl(p.left), Rotl(p.right))).left, Fips46.FinalLeft(p.left, p.right), 0xFF000000)
  {
  }

  lemma FpRightBytes(p: Halves)
    ensures Same(Fp(Halves(Rotl(p.left), Rotl(p.right))).right, Fips46.FinalRight(p.left, p.right), 0xFF)
    ensures Same(Fp(Halves(Rotl(p.left), Rotl(p.right))).right, Fips46.FinalRight(p.left, p.right), 0xFF00)
    ensures Same(Fp(Halves(Rotl(p.left), Rotl(p.right))).right, Fips46.FinalRight(p.left, p.right), 0xFF0000)
    ensures Same(Fp(Halves(Rotl(p.left), Rotl(p.right))).right, Fips46.FinalRight(p.left, p.right), 0xFF000000)
  {
  }

  /** DES_IP is the initial permutation with both halves rotated. */
  lemma IpIsInitial(p: Halves)
    ensures Ip(p) == Turned(Fips46.Initial(p))
  {
    hide Same, Ip, Rotl, Fips46.IpLeft, Fips46.IpRight;
    IpLeftBytes(p);
    ByBytes(Ip(p).left, Rotl(Fips46.IpLeft(p.left, p.right)));
    IpRightBytes(p);
    ByBytes(Ip(p).right, Rotl(Fips46.IpRight(p.left, p.right)));
  }

  lemma FpIsFinal(p: Halves)
    ensures Fp(Turned(p)) == Fips46.Final(p)
  {
    hide Same, Fp, Rotl, Fips46.FinalLeft, Fips46.FinalRight;
    FpLeftBytes(p);
    ByBytes(Fp(Turned(p)).left, Fips46.FinalLeft(p.left, p.right));
    FpRightBytes(p);
    ByBytes(Fp(Turned(p)).right, Fips46.FinalRight(p.left, p.right));
  }

  lemma Table1(i: bv32) ensures Sb1(i) == Rotl(Fips46.P(Fips46.S1(i) << 28)) {}
  lemma Table2(i: bv32) ensures Sb2(i) == Rotl(Fips46.P(Fips46.S2(i) << 24)) {}
  lemma Table3(i: bv32) ensures Sb3(i) == Rotl(Fips46.P(Fips46.S3(i) << 20)) {}
  lemma Table4(i: bv32) ensures Sb4(i) == Rotl(Fips46.P(Fips46.S4(i) << 16)) {}
  lemma Table5(i: bv32) ensures Sb5(i) == Rotl(Fips46.P(Fips46.S5(i) << 12)) {}
  lemma Table6(i: bv32) ensures Sb6(i) == Rotl(Fips46.P(Fips46.S6(i) << 8)) {}
  lemma Table7(i: bv32) ensures Sb7(i) == Rotl(Fips46.P(Fips46.S7(i) << 4)) {}
  lemma Table8(i: bv32) ensures Sb8(i) == Rotl(Fips46.P(Fips46.S8(i))) {}

  lemma Nibble1(i: bv32) ensures Fips46.S1(i) <= 15 {}
  lemma Nibble2(i: bv32) ensures Fips46.S2(i) <= 15 {}
  lemma Nibble3(i: bv32) ensures Fips46.S3(i) <= 15 {}
  lemma Nibble4(i: bv32) ensures Fips46.S4(i) <= 15 {}
  lemma Nibble5(i: bv32) ensures Fips46.S5(i) <= 15 {}
  lemma Nibble6(i: bv32) ensures Fips46.S6(i) <= 15 {}
  lemma Nibble7(i: bv32) ensures Fips46.S7(i) <= 15 {}
  lemma Nibble8(i: bv32) ensures Fips46.S8(i) <= 15 {}

  // ---------- a round is the cipher function ----------

  lemma RotlXor(a: bv32, b: bv32) ensures Rotl(Xor32(a, b)) == Xor32(Rotl(a), Rotl(b)) {}
  lemma PXor(a: bv32, b: bv32) ensures Fips46.P(Xor32(a, b)) == Xor32(Fips46.P(a), Fips46.P(b)) {}

  lemma Associates(a: bv32, b: bv32, c: bv32) ensures Xor32(Xor32(a, b), c) == Xor32(a, Xor32(b, c)) {}
  lemma Commutes(a: bv32, b: bv32) ensures Xor32(a, b) == Xor32(b, a) {}

  lemma Crosses(a: bv32, b: bv32, c: bv32, d: bv32)
    ensures Xor32(Xor32(a, b), Xor32(c, d)) == Xor32(Xor32(a, c), Xor32(b, d))
  {
    hide Xor32;
    Associates(a, b, Xor32(c, d)); Associates(a, c, Xor32(b, d));
    Associates(b, c, d); Associates(c, b, d);
    Commutes(b, c);
  }

  lemma Turns(a: bv32, b: bv32, c: bv32, d: bv32)
    ensures Xor32(Xor32(Xor32(a, b), c), d) == Xor32(Xor32(Xor32(d, c), b), a)
  {
    hide Xor32;
    Associates(Xor32(a, b), c, d); Associates(Xor32(d, c), b, a);
    Commutes(a, b); Commutes(c, d);
    Commutes(Xor32(a, b), Xor32(c, d));
  }

  /** The exclusive-or of eight words, in the order of the standard. */
  function Sum8(a1: bv32, a2: bv32, a3: bv32, a4: bv32, a5: bv32, a6: bv32, a7: bv32, a8: bv32): bv32 {
    Xor32(Xor32(Xor32(Xor32(Xor32(Xor32(Xor32(a1, a2), a3), a4), a5), a6), a7), a8)
  }

  function Sum4(a: bv32, b: bv32, c: bv32, d: bv32): bv32 { Xor32(Xor32(Xor32(a, b), c), d) }

  lemma SumInPairs(a1: bv32, a2: bv32, a3: bv32, a4: bv32, a5: bv32, a6: bv32, a7: bv32, a8: bv32)
    ensures Sum8(a1, a2, a3, a4, a5, a6, a7, a8) == Sum4(Xor32(a1, a2), Xor32(a3, a4), Xor32(a5, a6), Xor32(a7, a8))
  {
    hide Xor32;
    var p := Xor32(a1, a2); Associates(p, a3, a4);
    var q := Xor32(p, Xor32(a3, a4)); Associates(q, a5, a6);
    Associates(Xor32(q, Xor32(a5, a6)), a7, a8);
  }

  /** The order the code takes them in: even boxes from the last, then odd boxes from the last. */
  lemma SumInCodeOrder(a1: bv32, a2: bv32, a3: bv32, a4: bv32, a5: bv32, a6: bv32, a7: bv32, a8: bv32)
    ensures Xor32(Sum4(a8, a6, a4, a2), Sum4(a7, a5, a3, a1)) == Sum8(a1, a2, a3, a4, a5, a6, a7, a8)
  {
    hide Xor32;
    Crosses(Xor32(Xor32(a8, a6), a4), a2, Xor32(Xor32(a7, a5), a3), a1);
    Crosses(Xor32(a8, a6), a4, Xor32(a7, a5), a3);
    Crosses(a8, a6, a7, a5);
    Commutes(a8, a7); Commutes(a6, a5); Commutes(a4, a3); Commutes(a2, a1);
    Turns(Xor32(a7, a8), Xor32(a5, a6), Xor32(a3, a4), Xor32(a1, a2));
    SumInPairs(a1, a2, a3, a4, a5, a6, a7, a8);
  }

  /** Setting clear bits is adding them. */
  lemma Sets24(n: bv32, s: bv32)
    requires n & 0x0FFFFFFF == 0 && s <= 15
    ensures n | (s << 24) == Xor32(n, s << 24)
    ensures (n | (s << 24)) & 0x00FFFFFF == 0
  {
  }

  lemma Sets20(n: bv32, s: bv32)
    requires n & 0x00FFFFFF == 0 && s <= 15
    ensures n | (s << 20) == Xor32(n, s << 20)
    ensures (n | (s << 20)) & 0x000FFFFF == 0
  {
  }

  lemma Sets16(n: bv32, s: bv32)
    requires n & 0x000FFFFF == 0 && s <= 15
    ensures n | (s << 16) == Xor32(n, s << 16)
    ensures (n | (s << 16)) & 0x0000FFFF == 0
  {
  }

  lemma Sets12(n: bv32, s: bv32)
    requires n & 0x0000FFFF == 0 && s <= 15
    ensures n | (s << 12) == Xor32(n, s << 12)
    ensures (n | (s << 12)) & 0x00000FFF == 0
  {
  }

  lemma Sets8(n: bv32, s: bv32)
    requires n & 0x00000FFF == 0 && s <= 15
    ensures n | (s << 8) == Xor32(n, s << 8)
    ensures (n | (s << 8)) & 0x000000FF == 0
  {
  }

  lemma Sets4(n: bv32, s: bv32)
    requires n & 0x000000FF == 0 && s <= 15
    ensures n | (s << 4) == Xor32(n, s << 4)
    ensures (n | (s << 4)) & 0x0000000F == 0
  {
  }

  lemma Sets0(n: bv32, s: bv32)
    requires n & 0x0000000F == 0 && s <= 15
    ensures n | s == Xor32(n, s)
  {
  }

  lemma NibblesAreSum(s1: bv32, s2: bv32, s3: bv32, s4: bv32, s5: bv32, s6: bv32, s7: bv32, s8: bv32)
    requires s1 <= 15 && s2 <= 15 && s3 <= 15 && s4 <= 15 && s5 <= 15 && s6 <= 15 && s7 <= 15 && s8 <= 15
    ensures Fips46.Nibbles(s1, s2, s3, s4, s5, s6, s7, s8)
         == Sum8(s1 << 28, s2 << 24, s3 << 20, s4 << 16, s5 << 12, s6 << 8, s7 << 4, s8)
  {
    hide Xor32;
    var n1 := s1 << 28;
    Sets24(n1, s2);
    var n2 := n1 | (s2 << 24); Sets20(n2, s3);
    var n3 := n2 | (s3 << 20); Sets16(n3, s4);
    var n4 := n3 | (s4 << 16); Sets12(n4, s5);
    var n5 := n4 | (s5 << 12); Sets8(n5, s6);
    var n6 := n5 | (s6 << 8); Sets4(n6, s7);
    var n7 := n6 | (s7 << 4); Sets0(n7, s8);
  }

  function RotP(v: bv32): bv32 { Rotl(Fips46.P(v)) }

  lemma RotPXor(a: bv32, b: bv32)
    ensures RotP(Xor32(a, b)) == Xor32(RotP(a), RotP(b))
  {
    hide Rotl, Fips46.P, Xor32;
    PXor(a, b);
    RotlXor(Fips46.P(a), Fips46.P(b));
  }

  lemma RotPSum(a1: bv32, a2: bv32, a3: bv32, a4: bv32, a5: bv32, a6: bv32, a7: bv32, a8: bv32)
    ensures RotP(Sum8(a1, a2, a3, a4, a5, a6, a7, a8))
         == Sum8(RotP(a1), RotP(a2), RotP(a3), RotP(a4), RotP(a5), RotP(a6), RotP(a7), RotP(a8))
  {
    hide RotP, Xor32;
    var x2 := Xor32(a1, a2); RotPXor(a1, a2);
    var x3 := Xor32(x2, a3); RotPXor(x2, a3);
    var x4 := Xor32(x3, a4); RotPXor(x3, a4);
    var x5 := Xor32(x4, a5); RotPXor(x4, a5);
    var x6 := Xor32(x5, a6); RotPXor(x5, a6);
    var x7 := Xor32(x6, a7); RotPXor(x6, a7);
    RotPXor(x7, a8);
  }

  /** Six-bit fields of a word, one in each byte. */
  function Low(t: bv32): bv32 { t & 0x3F }
  function Second(t: bv32): bv32 { (t >> 8) & 0x3F }
  function Third(t: bv32): bv32 { (t >> 16) & 0x3F }
  function High(t: bv32): bv32 { (t >> 24) & 0x3F }

  function EvenBoxes(t: bv32): bv32 { Sum4(Sb8(Low(t)), Sb6(Second(t)), Sb4(Third(t)), Sb2(High(t))) }
  function OddBoxes(t: bv32): bv32 { Sum4(Sb7(Low(t)), Sb5(Second(t)), Sb3(Third(t)), Sb1(High(t))) }

  /** DES_ROUND with its two key words: the half that changes and the half that does not. */
  function Mixed(k0: bv32, k1: bv32, x: bv32, y: bv32): bv32 {
    Xor32(Xor32(y, EvenBoxes(Xor32(k0, x))), OddBoxes(Xor32(k1, Rotr4(x))))
  }

  /** The two key words hold the round key, a group in each byte. */
  predicate Holds(k0: bv32, k1: bv32, k: Fips46.Subkey) {
    Low(k0) == k.k8 && Second(k0) == k.k6 && Third(k0) == k.k4 && High(k0) == k.k2 &&
    Low(k1) == k.k7 && Second(k1) == k.k5 && Third(k1) == k.k3 && High(k1) == k.k1
  }

  lemma LowXor(a: bv32, b: bv32) ensures Low(Xor32(a, b)) == Xor32(Low(b), Low(a)) {}
  lemma SecondXor(a: bv32, b: bv32) ensures Second(Xor32(a, b)) == Xor32(Second(b), Second(a)) {}
  lemma ThirdXor(a: bv32, b: bv32) ensures Third(Xor32(a, b)) == Xor32(Third(b), Third(a)) {}
  lemma HighXor(a: bv32, b: bv32) ensures High(Xor32(a, b)) == Xor32(High(b), High(a)) {}

  lemma EvenGroups(r: bv32)
    ensures Low(Rotl(r)) == Fips46.E8(r) && Second(Rotl(r)) == Fips46.E6(r)
    ensures Third(Rotl(r)) == Fips46.E4(r) && High(Rotl(r)) == Fips46.E2(r)
  {
  }

  lemma OddGroups(r: bv32)
    ensures Low(Rotr4(Rotl(r))) == Fips46.E7(r) && Second(Rotr4(Rotl(r))) == Fips46.E5(r)
    ensures Third(Rotr4(Rotl(r))) == Fips46.E3(r) && High(Rotr4(Rotl(r))) == Fips46.E1(r)
  {
  }

  /** The eight table look-ups of a round add up to the cipher function, rotated. */
  lemma BoxesAreF(k0: bv32, k1: bv32, k: Fips46.Subkey, r: bv32)
    requires Holds(k0, k1, k)
    ensures Xor32(EvenBoxes(Xor32(k0, Rotl(r))), OddBoxes(Xor32(k1, Rotr4(Rotl(r))))) == Rotl(Fips46.F(r, k))
  {
    hide Low, Second, Third, High, Rotl, Rotr4, Xor32, Sum4, Fips46.P, Fips46.Nibbles;
    hide Sb1, Sb2, Sb3, Sb4, Sb5, Sb6, Sb7, Sb8;
    hide Fips46.S1, Fips46.S2, Fips46.S3, Fips46.S4, Fips46.S5, Fips46.S6, Fips46.S7, Fips46.S8;
    hide Fips46.E1, Fips46.E2, Fips46.E3, Fips46.E4, Fips46.E5, Fips46.E6, Fips46.E7, Fips46.E8;
    var t0, t1 := Rotl(r), Rotr4(Rotl(r));
    EvenGroups(r); LowXor(k0, t0); SecondXor(k0, t0); ThirdXor(k0, t0); HighXor(k0, t0);
    OddGroups(r); LowXor(k1, t1); SecondXor(k1, t1); ThirdXor(k1, t1); HighXor(k1, t1);
    BoxesSum(Xor32(Fips46.E1(r), k.k1), Xor32(Fips46.E2(r), k.k2), Xor32(Fips46.E3(r), k.k3), Xor32(Fips46.E4(r), k.k4),
             Xor32(Fips46.E5(r), k.k5), Xor32(Fips46.E6(r), k.k6), Xor32(Fips46.E7(r), k.k7), Xor32(Fips46.E8(r), k.k8));
  }

  lemma BoxesSum(i1: bv32, i2: bv32, i3: bv32, i4: bv32, i5: bv32, i6: bv32, i7: bv32, i8: bv32)
    ensures Xor32(Sum4(Sb8(i8), Sb6(i6), Sb4(i4), Sb2(i2)), Sum4(Sb7(i7), Sb5(i5), Sb3(i3), Sb1(i1)))
         == Rotl(Fips46.P(Fips46.Nibbles(Fips46.S1(i1), Fips46.S2(i2), Fips46.S3(i3), Fips46.S4(i4),
                                         Fips46.S5(i5), Fips46.S6(i6), Fips46.S7(i7), Fips46.S8(i8))))
  {
    hide Sb1, Sb2, Sb3, Sb4, Sb5, Sb6, Sb7, Sb8, Sum4, Sum8, Xor32, Rotl, Fips46.P, Fips46.Nibbles;
    hide Fips46.S1, Fips46.S2, Fips46.S3, Fips46.S4, Fips46.S5, Fips46.S6, Fips46.S7, Fips46.S8;
    var s1, s2, s3, s4 := Fips46.S1(i1), Fips46.S2(i2), Fips46.S3(i3), Fips46.S4(i4);
    var s5, s6, s7, s8 := Fips46.S5(i5), Fips46.S6(i6), Fips46.S7(i7), Fips46.S8(i8);
    Table1(i1); Table2(i2); Table3(i3); Table4(i4); Table5(i5); Table6(i6); Table7(i7); Table8(i8);
    Nibble1(i1); Nibble2(i2); Nibble3(i3); Nibble4(i4); Nibble5(i5); Nibble6(i6); Nibble7(i7); Nibble8(i8);
    NibblesAreSum(s1, s2, s3, s4, s5, s6, s7, s8);
    RotPSum(s1 << 28, s2 << 24, s3 << 20, s4 << 16, s5 << 12, s6 << 8, s7 << 4, s8);
    SumInCodeOrder(Sb1(i1), Sb2(i2), Sb3(i3), Sb4(i4), Sb5(i5), Sb6(i6), Sb7(i7), Sb8(i8));
  }

  /** One round of the code is one round of the standard, rotated. */
  lemma RoundIsF(k0: bv32, k1: bv32, k: Fips46.Subkey, r: bv32, l: bv32)
    requires Holds(k0, k1, k)
    ensures Mixed(k0, k1, Rotl(r), Rotl(l)) == Rotl(Xor32(l, Fips46.F(r, k)))
  {
    hide EvenBoxes, OddBoxes, Xor32, Rotl, Rotr4, Holds, Fips46.F;
    var t0, t1 := Xor32(k0, Rotl(r)), Xor32(k1, Rotr4(Rotl(r)));
    Associates(Rotl(l), EvenBoxes(t0), OddBoxes(t1));
    BoxesAreF(k0, k1, k, r);
    RotlXor(l, Fips46.F(r, k));
  }

  // ---------- the key schedule ----------

  /** The two exchanges at the start of ultralight_des_setkey. */
  function Untangled(k: Halves): Halves {
    var x0, y0 := k.left, k.right;
    var t0 := ((y0 >> 4) ^ x0) & 0x0F0F0F0F; var x1 := x0 ^ t0; var y1 := y0 ^ (t0 << 4);
    var t1 := (y1 ^ x1) & 0x10101010;
    Halves(x1 ^ t1, y1 ^ t1)
  }

  /** The table look-ups gathered into a 28-bit register. */
  function Gather(a0: bv32, a1: bv32, a2: bv32, a3: bv32, a4: bv32, a5: bv32, a6: bv32, a7: bv32): bv32 {
    ((a0 << 3) | (a1 << 2) | (a2 << 1) | a3 | (a4 << 7) | (a5 << 6) | (a6 << 5) | (a7 << 4)) & 0x0FFFFFFF
  }

  function SpreadLeft(x: bv32): bv32 {
    Gather(Lhs(x & 0xF), Lhs((x >> 8) & 0xF), Lhs((x >> 16) & 0xF), Lhs((x >> 24) & 0xF),
           Lhs((x >> 5) & 0xF), Lhs((x >> 13) & 0xF), Lhs((x >> 21) & 0xF), Lhs((x >> 29) & 0xF))
  }

  function SpreadRight(y: bv32): bv32 {
    Gather(Rhs((y >> 1) & 0xF), Rhs((y >> 9) & 0xF), Rhs((y >> 17) & 0xF), Rhs((y >> 25) & 0xF),
           Rhs((y >> 4) & 0xF), Rhs((y >> 12) & 0xF), Rhs((y >> 20) & 0xF), Rhs((y >> 28) & 0xF))
  }

  function Turn(v: bv32, i: nat): bv32 {
    if i < 2 || i == 8 || i == 15 then ((v << 1) | (v >> 27)) & 0x0FFFFFFF
    else ((v << 2) | (v >> 26)) & 0x0FFFFFFF
  }

  function EvenWord(x: bv32, y: bv32): bv32 {
    ((x << 4) & 0x24000000) | ((x << 28) & 0x10000000) | ((x << 14) & 0x08000000)
    | ((x << 18) & 0x02080000) | ((x << 6) & 0x01000000) | ((x << 9) & 0x00200000)
    | ((x >> 1) & 0x00100000) | ((x << 10) & 0x00040000) | ((x << 2) & 0x00020000)
    | ((x >> 10) & 0x00010000) | ((y >> 13) & 0x00002000) | ((y >> 4) & 0x00001000)
    | ((y << 6) & 0x00000800) | ((y >> 1) & 0x00000400) | ((y >> 14) & 0x00000200)
    | (y & 0x00000100) | ((y >> 5) & 0x00000020) | ((y >> 10) & 0x00000010)
    | ((y >> 3) & 0x00000008) | ((y >> 18) & 0x00000004) | ((y >> 26) & 0x00000002)
    | ((y >> 24) & 0x00000001)
  }

  function OddWord(x: bv32, y: bv32): bv32 {
    ((x << 15) & 0x20000000) | ((x << 17) & 0x10000000) | ((x << 10) & 0x08000000)
    | ((x << 22) & 0x04000000) | ((x >> 2) & 0x02000000) | ((x << 1) & 0x01000000)
    | ((x << 16) & 0x00200000) | ((x << 11) & 0x00100000) | ((x << 3) & 0x00080000)
    | ((x >> 6) & 0x00040000) | ((x << 15) & 0x00020000) | ((x >> 4) & 0x00010000)
    | ((y >> 2) & 0x00002000) | ((y << 8) & 0x00001000) | ((y >> 14) & 0x00000808)
    | ((y >> 9) & 0x00000400) | (y & 0x00000200) | ((y << 7) & 0x00000100)
    | ((y >> 7) & 0x00000020) | ((y >> 3) & 0x00000011) | ((y << 2) & 0x00000004)
    | ((y >> 21) & 0x00000002)
  }

  /** Lhs puts the four bits of its index into four bytes, lowest first; Rhs highest first. */
  function Wide(n: bv32): bv32 { (n & 1) | ((n & 2) << 7) | ((n & 4) << 14) | ((n & 8) << 21) }
  function WideBack(n: bv32): bv32 { ((n & 1) << 24) | ((n & 2) << 15) | ((n & 4) << 6) | ((n & 8) >> 3) }

  lemma LhsIsWide(n: bv32) ensures Lhs(n) == Wide(n) {}
  lemma RhsIsWide(n: bv32) ensures Rhs(n) == WideBack(n) {}

  /** The registers bit by bit. */
  function LeftWires(x: bv32): bv32 {
    (((x >> 3) & 1) << 27) | (((x >> 11) & 1) << 26) | (((x >> 19) & 1) << 25) | (((x >> 27) & 1) << 24)
    | (((x >> 7) & 1) << 23) | (((x >> 15) & 1) << 22) | (((x >> 23) & 1) << 21)
    | (((x >> 31) & 1) << 20) | (((x >> 2) & 1) << 19) | (((x >> 10) & 1) << 18) | (((x >> 18) & 1) << 17)
    | (((x >> 26) & 1) << 16) | (((x >> 6) & 1) << 15) | (((x >> 14) & 1) << 14)
    | (((x >> 22) & 1) << 13) | (((x >> 30) & 1) << 12) | (((x >> 1) & 1) << 11) | (((x >> 9) & 1) << 10)
    | (((x >> 17) & 1) << 9) | (((x >> 25) & 1) << 8) | (((x >> 5) & 1) << 7)
    | (((x >> 13) & 1) << 6) | (((x >> 21) & 1) << 5) | (((x >> 29) & 1) << 4) | (((x >> 0) & 1) << 3)
    | (((x >> 8) & 1) << 2) | (((x >> 16) & 1) << 1) | ((x >> 24) & 1)
  }

  function RightWires(y: bv32): bv32 {
    (((y >> 1) & 1) << 27) | (((y >> 9) & 1) << 26) | (((y >> 17) & 1) << 25) | (((y >> 25) & 1) << 24)
    | (((y >> 5) & 1) << 23) | (((y >> 13) & 1) << 22) | (((y >> 21) & 1) << 21)
    | (((y >> 29) & 1) << 20) | (((y >> 2) & 1) << 19) | (((y >> 10) & 1) << 18) | (((y >> 18) & 1) << 17)
    | (((y >> 26) & 1) << 16) | (((y >> 6) & 1) << 15) | (((y >> 14) & 1) << 14)
    | (((y >> 22) & 1) << 13) | (((y >> 30) & 1) << 12) | (((y >> 3) & 1) << 11) | (((y >> 11) & 1) << 10)
    | (((y >> 19) & 1) << 9) | (((y >> 27) & 1) << 8) | (((y >> 7) & 1) << 7)
    | (((y >> 15) & 1) << 6) | (((y >> 23) & 1) << 5) | (((y >> 31) & 1) << 4) | (((y >> 4) & 1) << 3)
    | (((y >> 12) & 1) << 2) | (((y >> 20) & 1) << 1) | ((y >> 28) & 1)
  }

  lemma GatherLeft(x: bv32, a0: bv32, a1: bv32, a2: bv32, a3: bv32, a4: bv32, a5: bv32, a6: bv32, a7: bv32)
    requires a0 == (var n := x & 0xF; (n & 1) | ((n & 2) << 7) | ((n & 4) << 14) | ((n & 8) << 21))
    requires a1 == (var n := (x >> 8) & 0xF; (n & 1) | ((n & 2) << 7) | ((n & 4) << 14) | ((n & 8) << 21))
    requires a2 == (var n := (x >> 16) & 0xF; (n & 1) | ((n & 2) << 7) | ((n & 4) << 14) | ((n & 8) << 21))
    requires a3 == (var n := (x >> 24) & 0xF; (n & 1) | ((n & 2) << 7) | ((n & 4) << 14) | ((n & 8) << 21))
    requires a4 == (var n := (x >> 5) & 0xF; (n & 1) | ((n & 2) << 7) | ((n & 4) << 14) | ((n & 8) << 21))
    requires a5 == (var n := (x >> 13) & 0xF; (n & 1) | ((n & 2) << 7) | ((n & 4) << 14) | ((n & 8) << 21))
    requires a6 == (var n := (x >> 21) & 0xF; (n & 1) | ((n & 2) << 7) | ((n & 4) << 14) | ((n & 8) << 21))
    requires a7 == (var n := (x >> 29) & 0xF; (n & 1) | ((n & 2) << 7) | ((n & 4) << 14) | ((n & 8) << 21))
    ensures Gather(a0, a1, a2, a3, a4, a5, a6, a7) == LeftWires(x)
  {
  }

  lemma GatherRight(y: bv32, a0: bv32, a1: bv32, a2: bv32, a3: bv32, a4: bv32, a5: bv32, a6: bv32, a7: bv32)
    requires a0 == (var n := (y >> 1) & 0xF; ((n & 1) << 24) | ((n & 2) << 15) | ((n & 4) << 6) | ((n & 8) >> 3))
    requires a1 == (var n := (y >> 9) & 0xF; ((n & 1) << 24) | ((n & 2) << 15) | ((n & 4) << 6) | ((n & 8) >> 3))
    requires a2 == (var n := (y >> 17) & 0xF; ((n & 1) << 24) | ((n & 2) << 15) | ((n & 4) << 6) | ((n & 8) >> 3))
    requires a3 == (var n := (y >> 25) & 0xF; ((n & 1) << 24) | ((n & 2) << 15) | ((n & 4) << 6) | ((n & 8) >> 3))
    requires a4 == (var n := (y >> 4) & 0xF; ((n & 1) << 24) | ((n & 2) << 15) | ((n & 4) << 6) | ((n & 8) >> 3))
    requires a5 == (var n := (y >> 12) & 0xF; ((n & 1) << 24) | ((n & 2) << 15) | ((n & 4) << 6) | ((n & 8) >> 3))
    requires a6 == (var n := (y >> 20) & 0xF; ((n & 1) << 24) | ((n & 2) << 15) | ((n & 4) << 6) | ((n & 8) >> 3))
    requires a7 == (var n := (y >> 28) & 0xF; ((n & 1) << 24) | ((n & 2) << 15) | ((n & 4) << 6) | ((n & 8) >> 3))
    ensures Gather(a0, a1, a2, a3, a4, a5, a6, a7) == RightWires(y)
  {
  }

  lemma LeftWiresBytes(k: Halves)
    ensures Same(LeftWires(Untangled(k).left), Fips46.Pc1C(k.left, k.right), 0xFF)
    ensures Same(LeftWires(Untangled(k).left), Fips46.Pc1C(k.left, k.right), 0xFF00)
    ensures Same(LeftWires(Untangled(k).left), Fips46.Pc1C(k.left, k.right), 0xFF0000)
    ensures Same(LeftWires(Untangled(k).left), Fips46.Pc1C(k.left, k.right), 0xFF000000)
  {
  }

  lemma RightWiresBytes(k: Halves)
    ensures Same(RightWires(Untangled(k).right), Fips46.Pc1D(k.left, k.right), 0xFF)
    ensures Same(RightWires(Untangled(k).right), Fips46.Pc1D(k.left, k.right), 0xFF00)
    ensures Same(RightWires(Untangled(k).right), Fips46.Pc1D(k.left, k.right), 0xFF0000)
    ensures Same(RightWires(Untangled(k).right), Fips46.Pc1D(k.left, k.right), 0xFF000000)
  {
  }

  lemma TurnsTwice(v: bv32)
    requires v <= 0x0FFFFFFF
    ensures ((v << 2) | (v >> 26)) & 0x0FFFFFFF == Fips46.Left2(v)
  {
  }

  lemma EvenWordHolds(x: bv32, y: bv32)
    ensures Low(EvenWord(x, y)) == Fips46.Pc2K8(y)
    ensures Second(EvenWord(x, y)) == Fips46.Pc2K6(y)
    ensures Third(EvenWord(x, y)) == Fips46.Pc2K4(x)
    ensures High(EvenWord(x, y)) == Fips46.Pc2K2(x)
  {
  }

  lemma OddWordHolds(x: bv32, y: bv32)
    ensures Low(OddWord(x, y)) == Fips46.Pc2K7(y)
    ensures Second(OddWord(x, y)) == Fips46.Pc2K5(y)
    ensures Third(OddWord(x, y)) == Fips46.Pc2K3(x)
    ensures High(OddWord(x, y)) == Fips46.Pc2K1(x)
  {
  }

  lemma SpreadLeftIs(x: bv32)
    ensures SpreadLeft(x) == LeftWires(x)
  {
    hide Gather, Lhs, LeftWires;
    LhsIsWide(x & 0xF); LhsIsWide((x >> 8) & 0xF); LhsIsWide((x >> 16) & 0xF); LhsIsWide((x >> 24) & 0xF);
    LhsIsWide((x >> 5) & 0xF); LhsIsWide((x >> 13) & 0xF); LhsIsWide((x >> 21) & 0xF); LhsIsWide((x >> 29) & 0xF);
    GatherLeft(x, Lhs(x & 0xF), Lhs((x >> 8) & 0xF), Lhs((x >> 16) & 0xF), Lhs((x >> 24) & 0xF),
               Lhs((x >> 5) & 0xF), Lhs((x >> 13) & 0xF), Lhs((x >> 21) & 0xF), Lhs((x >> 29) & 0xF));
  }

  lemma SpreadRightIs(y: bv32)
    ensures SpreadRight(y) == RightWires(y)
  {
    hide Gather, Rhs, RightWires;
    RhsIsWide((y >> 1) & 0xF); RhsIsWide((y >> 9) & 0xF); RhsIsWide((y >> 17) & 0xF); RhsIsWide((y >> 25) & 0xF);
    RhsIsWide((y >> 4) & 0xF); RhsIsWide((y >> 12) & 0xF); RhsIsWide((y >> 20) & 0xF); RhsIsWide((y >> 28) & 0xF);
    GatherRight(y, Rhs((y >> 1) & 0xF), Rhs((y >> 9) & 0xF), Rhs((y >> 17) & 0xF), Rhs((y >> 25) & 0xF),
                Rhs((y >> 4) & 0xF), Rhs((y >> 12) & 0xF), Rhs((y >> 20) & 0xF), Rhs((y >> 28) & 0xF));
  }

  /** The registers after n turns, as the loop of ultralight_des_setkey leaves them. */
  function Registers(key: Halves, n: nat): Halves {
    if n == 0 then Halves(SpreadLeft(Untangled(key).left), SpreadRight(Untangled(key).right))
    else var h := Registers(key, n - 1); Halves(Turn(h.left, n - 1), Turn(h.right, n - 1))
  }

  function KeyWords(key: Halves, n: nat): (sk: seq<bv32>)
    ensures |sk| == 2 * n
  {
    if n == 0 then []
    else var h := Registers(key, n); KeyWords(key, n - 1) + [EvenWord(h.left, h.right), OddWord(h.left, h.right)]
  }

  lemma Narrow(x: bv32) ensures LeftWires(x) <= 0x0FFFFFFF {}
  lemma NarrowRight(y: bv32) ensures RightWires(y) <= 0x0FFFFFFF {}
  lemma NarrowTurn(v: bv32, i: nat) ensures Turn(v, i) <= 0x0FFFFFFF {}

  /** The registers start as permuted choice 1 of the key. */
  lemma SpreadIsChoice1(key: Halves)
    ensures Registers(key, 0) == Fips46.Registers(key, 0)
    ensures Registers(key, 0).left <= 0x0FFFFFFF && Registers(key, 0).right <= 0x0FFFFFFF
  {
    hide SpreadLeft, SpreadRight, Untangled, LeftWires, RightWires, Same, Fips46.Pc1C, Fips46.Pc1D;
    var u := Untangled(key);
    SpreadLeftIs(u.left); Narrow(u.left);
    LeftWiresBytes(key);
    ByBytes(LeftWires(u.left), Fips46.Pc1C(key.left, key.right));
    SpreadRightIs(u.right); NarrowRight(u.right);
    RightWiresBytes(key);
    ByBytes(RightWires(u.right), Fips46.Pc1D(key.left, key.right));
  }

  lemma TurnIsShift(v: bv32, i: nat)
    requires v <= 0x0FFFFFFF
    ensures Turn(v, i) == Fips46.Shifted(v, i)
  {
    hide Fips46.Left2;
    TurnsTwice(v);
  }

  lemma {:induction false} RegistersAre(key: Halves, n: nat)
    ensures Registers(key, n) == Fips46.Registers(key, n)
    ensures Registers(key, n).left <= 0x0FFFFFFF && Registers(key, n).right <= 0x0FFFFFFF
  {
    hide Turn, SpreadLeft, SpreadRight, Untangled, Fips46.Shifted, Fips46.Pc1C, Fips46.Pc1D;
    if n == 0 {
      SpreadIsChoice1(key);
    } else {
      RegistersAre(key, n - 1);
      var h := Registers(key, n - 1);
      TurnIsShift(h.left, n - 1); TurnIsShift(h.right, n - 1);
      NarrowTurn(h.left, n - 1); NarrowTurn(h.right, n - 1);
    }
  }

  /** Both schedules agree round by round. */
  predicate AllHold(sk: seq<bv32>, keys: seq<Fips46.Subkey>) {
    |sk| == 2 * |keys| && forall i :: 0 <= i < |keys| ==> Holds(sk[2 * i], sk[2 * i + 1], keys[i])
  }

  lemma WordsHold(h: Halves)
    ensures Holds(EvenWord(h.left, h.right), OddWord(h.left, h.right), Fips46.Choice2(h))
  {
    hide EvenWord, OddWord, Low, Second, Third, High;
    hide Fips46.Pc2K1, Fips46.Pc2K2, Fips46.Pc2K3, Fips46.Pc2K4, Fips46.Pc2K5, Fips46.Pc2K6, Fips46.Pc2K7, Fips46.Pc2K8;
    EvenWordHolds(h.left, h.right);
    OddWordHolds(h.left, h.right);
  }

  lemma {:induction false} ScheduleAgrees(key: Halves, n: nat)
    ensures AllHold(KeyWords(key, n), Fips46.Subkeys(key, n))
  {
    hide Holds, EvenWord, OddWord, Fips46.Choice2, Registers, Fips46.Registers;
    if n > 0 {
      ScheduleAgrees(key, n - 1);
      RegistersAre(key, n);
      WordsHold(Registers(key, n));
    }
  }

  // ---------- the cipher ----------

  /** All rounds of a list of key words, two words a round. */
  function Rounds(sk: seq<bv32>, p: Halves): Halves {
    if |sk| < 2 then p else Rounds(sk[2..], Halves(p.right, Mixed(sk[0], sk[1], p.right, p.left)))
  }

  /** ultralight_des_crypt_ecb on words. */
  function Ecb(sk: seq<bv32>, block: Halves): Halves { Fp(Swapped(Rounds(sk, Ip(block)))) }

  /** The key words of a schedule, last round first. */
  function PairsBack(sk: seq<bv32>): (r: seq<bv32>)
    requires |sk| % 2 == 0
    ensures |r| == |sk|
  { if sk == [] then [] else PairsBack(sk[2..]) + sk[..2] }

  lemma {:induction false} RoundsAre(sk: seq<bv32>, keys: seq<Fips46.Subkey>, p: Halves)
    requires AllHold(sk, keys)
    ensures Rounds(sk, Turned(p)) == Turned(Fips46.Rounds(keys, p))
    decreases |keys|
  {
    hide Mixed, Holds, Rotl, Xor32, Fips46.F;
    if keys != [] {
      var next := Halves(p.right, Xor32(p.left, Fips46.F(p.right, keys[0])));
      assert sk[2 * 0] == sk[0] && sk[2 * 0 + 1] == sk[1];
      RoundIsF(sk[0], sk[1], keys[0], p.right, p.left);
      assert AllHold(sk[2..], keys[1..]) by {
        forall i | 0 <= i < |keys[1..]| ensures Holds(sk[2..][2 * i], sk[2..][2 * i + 1], keys[1..][i]) {
          assert sk[2..][2 * i] == sk[2 * (i + 1)] && sk[2..][2 * i + 1] == sk[2 * (i + 1) + 1];
        }
      }
      RoundsAre(sk[2..], keys[1..], next);
    }
  }

  /** Whatever the key words hold, the code computes the standard's cipher on them. */
  lemma EcbIsCipher(sk: seq<bv32>, keys: seq<Fips46.Subkey>, block: Halves)
    requires AllHold(sk, keys)
    ensures Ecb(sk, block) == Fips46.Cipher(keys, block)
  {
    hide Ip, Fp, Rounds, Rotl, AllHold, Fips46.Initial, Fips46.Final, Fips46.Rounds;
    var p := Fips46.Initial(block);
    IpIsInitial(block);
    RoundsAre(sk, keys, p);
    FpIsFinal(Swapped(Fips46.Rounds(keys, p)));
  }

  lemma {:induction false} BackwardsAt(keys: seq<Fips46.Subkey>, i: nat)
    requires i < |keys|
    ensures Fips46.Backwards(keys)[i] == keys[|keys| - 1 - i]
    decreases |keys|
  {
    if i < |keys| - 1 { BackwardsAt(keys[1..], i); }
  }

  lemma BackAgreesAt(sk: seq<bv32>, keys: seq<Fips46.Subkey>, i: nat)
    requires AllHold(sk, keys) && i < |keys|
    ensures Holds(PairsBack(sk)[2 * i], PairsBack(sk)[2 * i + 1], Fips46.Backwards(keys)[i])
  {
    hide Holds, PairsBack, Fips46.Backwards;
    var m := |keys| - 1 - i;
    PairsBackAt(sk, 2 * i); PairsBackAt(sk, 2 * i + 1);
    BackwardsAt(keys, i);
    assert Mirror(|sk|, 2 * i) == 2 * m && Mirror(|sk|, 2 * i + 1) == 2 * m + 1;
    assert Holds(sk[2 * m], sk[2 * m + 1], keys[m]);
  }

  lemma BackAgrees(sk: seq<bv32>, keys: seq<Fips46.Subkey>)
    requires AllHold(sk, keys)
    ensures AllHold(PairsBack(sk), Fips46.Backwards(keys))
  {
    hide Holds, PairsBack, Fips46.Backwards;
    forall i | 0 <= i < |keys| ensures Holds(PairsBack(sk)[2 * i], PairsBack(sk)[2 * i + 1], Fips46.Backwards(keys)[i]) {
      BackAgreesAt(sk, keys, i);
    }
  }

  /** The main result: under every key the code is DES, in both directions. */
  lemma EncryptsAsStandard(key: Halves, block: Halves)
    ensures Ecb(KeyWords(key, 16), block) == Fips46.Encrypt(key, block)
  {
    hide Ecb, AllHold, Fips46.Cipher;
    ScheduleAgrees(key, 16);
    EcbIsCipher(KeyWords(key, 16), Fips46.Subkeys(key, 16), block);
  }

  lemma DecryptsAsStandard(key: Halves, block: Halves)
    ensures Ecb(PairsBack(KeyWords(key, 16)), block) == Fips46.Decrypt(key, block)
  {
    hide Ecb, AllHold, Fips46.Cipher, PairsBack, Fips46.Backwards;
    ScheduleAgrees(key, 16);
    BackAgrees(KeyWords(key, 16), Fips46.Subkeys(key, 16));
    EcbIsCipher(PairsBack(KeyWords(key, 16)), Fips46.Backwards(Fips46.Subkeys(key, 16)), block);
  }

  // ---------- reversing the rounds undoes them ----------

  lemma {:induction false} RoundsAppend(sk: seq<bv32>, k0: bv32, k1: bv32, p: Halves)
    requires |sk| % 2 == 0
    ensures Rounds(sk + [k0, k1], p) ==
            (var q := Rounds(sk, p); Halves(q.right, Mixed(k0, k1, q.right, q.left)))
    decreases |sk|
  {
    hide Mixed;
    if sk == [] {
      assert sk + [k0, k1] == [k0, k1];
    } else {
      assert (sk + [k0, k1])[2..] == sk[2..] + [k0, k1];
      RoundsAppend(sk[2..], k0, k1, Halves(p.right, Mixed(sk[0], sk[1], p.right, p.left)));
    }
  }

  lemma XorUndone(a: bv32, b: bv32) ensures Xor32(Xor32(a, b), b) == a {}

  lemma MixedTwice(k0: bv32, k1: bv32, x: bv32, y: bv32)
    ensures Mixed(k0, k1, x, Mixed(k0, k1, x, y)) == y
  {
    hide Xor32, EvenBoxes, OddBoxes, Rotr4;
    var e, o := EvenBoxes(Xor32(k0, x)), OddBoxes(Xor32(k1, Rotr4(x)));
    Associates(y, e, o);
    Associates(Mixed(k0, k1, x, y), e, o);
    XorUndone(y, Xor32(e, o));
  }

  /** A Feistel network run with its keys reversed and its halves exchanged undoes itself, for
      any number of rounds and whatever the tables hold. */
  lemma {:induction false} RoundsUndone(sk: seq<bv32>, p: Halves)
    requires |sk| % 2 == 0
    ensures Rounds(PairsBack(sk), Swapped(Rounds(sk, p))) == Swapped(p)
    decreases |sk|
  {
    hide Mixed;
    if sk != [] {
      var next := Halves(p.right, Mixed(sk[0], sk[1], p.right, p.left));
      RoundsUndone(sk[2..], next);
      assert sk[..2] == [sk[0], sk[1]];
      RoundsAppend(PairsBack(sk[2..]), sk[0], sk[1], Swapped(Rounds(sk, p)));
      MixedTwice(sk[0], sk[1], p.right, p.left);
    }
  }

  lemma EcbUndone(sk: seq<bv32>, block: Halves)
    requires |sk| % 2 == 0
    ensures Ecb(PairsBack(sk), Ecb(sk, block)) == block
  {
    hide Ip, Fp, Rounds, PairsBack;
    var q := Rounds(sk, Ip(block));
    IpFp(Swapped(q));
    RoundsUndone(sk, Ip(block));
    FpIp(block);
  }

  lemma {:induction false} PairsBackAt(sk: seq<bv32>, j: nat)
    requires |sk| % 2 == 0 && j < |sk|
    ensures PairsBack(sk)[j] == sk[Mirror(|sk|, j)]
    decreases |sk|
  {
    if j < |sk| - 2 {
      PairsBackAt(sk[2..], j);
    }
  }

  /** Where the reversal takes entry j from. */
  function Mirror(n: nat, j: nat): (m: nat)
    requires n % 2 == 0 && j < n
    ensures m < n
  { if j % 2 == 0 then n - 2 - j else n - j }

  lemma MirrorEnds(i: nat)
    requires i % 2 == 0 && i < 16
    ensures Mirror(32, i) == 30 - i && Mirror(32, 30 - i) == i
    ensures Mirror(32, i + 1) == 31 - i && Mirror(32, 31 - i) == i + 1
  {
  }

  lemma {:induction false} PairsBackTwice(sk: seq<bv32>)
    requires |sk| % 2 == 0
    ensures PairsBack(PairsBack(sk)) == sk
  {
    forall j | 0 <= j < |sk| ensures PairsBack(PairsBack(sk))[j] == sk[j] {
      PairsBackAt(PairsBack(sk), j);
      PairsBackAt(sk, Mirror(|sk|, j));
    }
  }

  // ---------- bytes ----------

  function BlockOf(bytes: seq<bv8>): Halves
    requires |bytes| == 8
  { Halves(WordOf(bytes[..4]), WordOf(bytes[4..])) }

  function BlockBytes(p: Halves): (bytes: seq<bv8>)
    ensures |bytes| == 8
  { BytesOf(p.left) + BytesOf(p.right) }

  lemma BytesOfBlock(bytes: seq<bv8>)
    requires |bytes| == 8
    ensures BlockBytes(BlockOf(bytes)) == bytes
  {
    hide WordOf, BytesOf;
    BytesOfWordOf(bytes[..4]); BytesOfWordOf(bytes[4..]);
  }

  lemma BlockOfBytes(p: Halves)
    ensures BlockOf(BlockBytes(p)) == p
  {
    hide WordOf, BytesOf;
    var b := BlockBytes(p);
    assert b[..4] == BytesOf(p.left) && b[4..] == BytesOf(p.right);
    WordOfBytesOf(p.left); WordOfBytesOf(p.right);
  }

  /** The two schedules ultralight_des_setkey_enc and _dec prepare. */
  function EncWords(key: seq<bv8>): (sk: seq<bv32>)
    requires |key| == 8
    ensures |sk| == 32
  { KeyWords(BlockOf(key), 16) }

  function DecWords(key: seq<bv8>): (sk: seq<bv32>)
    requires |key| == 8
    ensures |sk| == 32
  { PairsBack(EncWords(key)) }

  function CryptBlock(sk: seq<bv32>, input: seq<bv8>): (output: seq<bv8>)
    requires |input| == 8
    ensures |output| == 8
  { BlockBytes(Ecb(sk, BlockOf(input))) }

  function EncryptBlock(key: seq<bv8>, input: seq<bv8>): (output: seq<bv8>)
    requires |key| == 8 && |input| == 8
    ensures |output| == 8
  { CryptBlock(EncWords(key), input) }

  function DecryptBlock(key: seq<bv8>, input: seq<bv8>): (output: seq<bv8>)
    requires |key| == 8 && |input| == 8
    ensures |output| == 8
  { CryptBlock(DecWords(key), input) }

  /** On eight bytes of key and eight of data, as the callers use it: the standard's cipher. */
  lemma BytesAsStandard(key: seq<bv8>, input: seq<bv8>)
    requires |key| == 8 && |input| == 8
    ensures EncryptBlock(key, input) == BlockBytes(Fips46.Encrypt(BlockOf(key), BlockOf(input)))
    ensures DecryptBlock(key, input) == BlockBytes(Fips46.Decrypt(BlockOf(key), BlockOf(input)))
  {
    hide Ecb, PairsBack, BlockOf, BlockBytes, Fips46.Encrypt, Fips46.Decrypt, KeyWords;
    EncryptsAsStandard(BlockOf(key), BlockOf(input));
    DecryptsAsStandard(BlockOf(key), BlockOf(input));
  }

  lemma DecryptEncrypt(key: seq<bv8>, input: seq<bv8>)
    requires |key| == 8 && |input| == 8
    ensures DecryptBlock(key, EncryptBlock(key, input)) == input
  {
    hide Ecb, EncWords, PairsBack, BlockOf, BlockBytes;
    var sk, block := EncWords(key), BlockOf(input);
    BlockOfBytes(Ecb(sk, block));
    EcbUndone(sk, block);
    BytesOfBlock(input);
  }

  lemma EncryptDecrypt(key: seq<bv8>, input: seq<bv8>)
    requires |key| == 8 && |input| == 8
    ensures EncryptBlock(key, DecryptBlock(key, input)) == input
  {
    hide Ecb, EncWords, PairsBack, BlockOf, BlockBytes;
    var sk, block := DecWords(key), BlockOf(input);
    BlockOfBytes(Ecb(sk, block));
    PairsBackTwice(EncWords(key));
    EcbUndone(sk, block);
    BytesOfBlock(input);
  }

  // ---------- the code ----------

  /** ultralight_des_ctx_t. */
  class Context {
    const sk: array<bv32>

    constructor ()
      ensures fresh(sk) && sk.Length == 32
    { sk := new bv32[32]; }

    /** ultralight_des_setkey. */
    method SetKey(key: seq<bv8>)
      requires |key| == 8 && sk.Length == 32
      modifies sk
      ensures sk[..] == EncWords(key)
    {
      hide SpreadLeft, SpreadRight, Untangled, Turn, EvenWord, OddWord, BlockOf;
      ghost var k := BlockOf(key);
      var u := Untangled(BlockOf(key));
      var x, y := SpreadLeft(u.left), SpreadRight(u.right);
      for i := 0 to 16
        invariant Halves(x, y) == Registers(k, i)
        invariant sk[..2 * i] == KeyWords(k, i)
      {
        x, y := Turn(x, i), Turn(y, i);
        sk[2 * i] := EvenWord(x, y);
        sk[2 * i + 1] := OddWord(x, y);
        assert sk[..2 * (i + 1)] == sk[..2 * i] + [sk[2 * i], sk[2 * i + 1]];
      }
      assert sk[..] == sk[..32];
    }

    /** ultralight_des_setkey_dec: the schedule reversed in place, a round at a time. */
    method SetKeyDec(key: seq<bv8>)
      requires |key| == 8 && sk.Length == 32
      modifies sk
      ensures sk[..] == DecWords(key)
    {
      hide EncWords, Mirror;
      SetKey(key);
      ghost var was := sk[..];
      var i := 0;
      while i < 16
        invariant 0 <= i <= 16 && i % 2 == 0
        invariant forall j :: 0 <= j < i || 32 - i <= j < 32 ==> sk[j] == was[Mirror(32, j)]
        invariant forall j :: i <= j < 32 - i ==> sk[j] == was[j]
      {
        MirrorEnds(i);
        sk[i], sk[30 - i] := sk[30 - i], sk[i];
        sk[i + 1], sk[31 - i] := sk[31 - i], sk[i + 1];
        i := i + 2;
      }
      forall j | 0 <= j < 32 ensures sk[..][j] == PairsBack(was)[j] { PairsBackAt(was, j); }
    }

    /** ultralight_des_crypt_ecb; input and output may be the same buffer. */
    method CryptEcb(input: array<bv8>, output: array<bv8>)
      requires sk.Length == 32 && input.Length == output.Length == 8
      modifies output
      ensures output[..] == CryptBlock(sk[..], old(input[..]))
    {
      hide Ip, Fp, Mixed, WordOf, BytesOf;
      ghost var was, words := input[..], sk[..];
      ghost var start := Ip(BlockOf(was));
      var p := Ip(Halves(WordOf(input[..4]), WordOf(input[4..])));
      assert input[..][..4] == input[..4] && input[..][4..] == input[4..];
      var x, y := p.left, p.right;
      assert sk[0..] == sk[..];
      for i := 0 to 8
        invariant Rounds(sk[4 * i..], Halves(x, y)) == Rounds(sk[..], start)
      {
        assert sk[4 * i..][2..] == sk[4 * i + 2..];
        assert sk[4 * i + 2..][2..] == sk[4 * (i + 1)..];
        x := Mixed(sk[4 * i], sk[4 * i + 1], y, x);
        y := Mixed(sk[4 * i + 2], sk[4 * i + 3], x, y);
      }
      assert sk[32..] == [];
      var q := Fp(Halves(y, x));
      var bytes := BytesOf(q.left) + BytesOf(q.right);
      assert bytes == CryptBlock(sk[..], was);
      forall i | 0 <= i < 8 { output[i] := bytes[i]; }
      assert output[..] == bytes;
      assert sk[..] == words;
    }
  }
}
