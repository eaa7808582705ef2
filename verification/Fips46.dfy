/** The Data Encryption Standard as FIPS PUB 46-3 states it: permutations given by tables of bit
    numbers (bit 1 is the most significant), a round function built from the expansion E, eight
    substitution boxes and the permutation P, and a key schedule built from the permuted choices
    PC-1 and PC-2.  It is the independent reading that the table-driven code of module Des is
    proved equal to.

    A 64-bit string is a pair of words; each permutation is written as the rows of its table. */
module Fips46 {
  import opened Words

  // ---------- initial and final permutation ----------

  /** The left half of IP: the first four rows of its table. */
  function IpLeft(x: bv32, y: bv32): bv32 {
    // 58 50 42 34 26 18 10  2
    (((y >> 6) & 1) << 31) | (((y >> 14) & 1) << 30) | (((y >> 22) & 1) << 29) | (((y >> 30) & 1) << 28)
    | (((x >> 6) & 1) << 27) | (((x >> 14) & 1) << 26) | (((x >> 22) & 1) << 25) | (((x >> 30) & 1) << 24)
    // 60 52 44 36 28 20 12  4
    | (((y >> 4) & 1) << 23) | (((y >> 12) & 1) << 22) | (((y >> 20) & 1) << 21) | (((y >> 28) & 1) << 20)
    | (((x >> 4) & 1) << 19) | (((x >> 12) & 1) << 18) | (((x >> 20) & 1) << 17) | (((x >> 28) & 1) << 16)
    // 62 54 46 38 30 22 14  6
    | (((y >> 2) & 1) << 15) | (((y >> 10) & 1) << 14) | (((y >> 18) & 1) << 13) | (((y >> 26) & 1) << 12)
    | (((x >> 2) & 1) << 11) | (((x >> 10) & 1) << 10) | (((x >> 18) & 1) << 9) | (((x >> 26) & 1) << 8)
    // 64 56 48 40 32 24 16  8
    | ((y & 1) << 7) | (((y >> 8) & 1) << 6) | (((y >> 16) & 1) << 5) | (((y >> 24) & 1) << 4)
    | ((x & 1) << 3) | (((x >> 8) & 1) << 2) | (((x >> 16) & 1) << 1) | ((x >> 24) & 1)
  }

  function IpRight(x: bv32, y: bv32): bv32 {
    // 57 49 41 33 25 17  9  1
    (((y >> 7) & 1) << 31) | (((y >> 15) & 1) << 30) | (((y >> 23) & 1) << 29) | (((y >> 31) & 1) << 28)
    | (((x >> 7) & 1) << 27) | (((x >> 15) & 1) << 26) | (((x >> 23) & 1) << 25) | (((x >> 31) & 1) << 24)
    // 59 51 43 35 27 19 11  3
    | (((y >> 5) & 1) << 23) | (((y >> 13) & 1) << 22) | (((y >> 21) & 1) << 21) | (((y >> 29) & 1) << 20)
    | (((x >> 5) & 1) << 19) | (((x >> 13) & 1) << 18) | (((x >> 21) & 1) << 17) | (((x >> 29) & 1) << 16)
    // 61 53 45 37 29 21 13  5
    | (((y >> 3) & 1) << 15) | (((y >> 11) & 1) << 14) | (((y >> 19) & 1) << 13) | (((y >> 27) & 1) << 12)
    | (((x >> 3) & 1) << 11) | (((x >> 11) & 1) << 10) | (((x >> 19) & 1) << 9) | (((x >> 27) & 1) << 8)
    // 63 55 47 39 31 23 15  7
    | (((y >> 1) & 1) << 7) | (((y >> 9) & 1) << 6) | (((y >> 17) & 1) << 5) | (((y >> 25) & 1) << 4)
    | (((x >> 1) & 1) << 3) | (((x >> 9) & 1) << 2) | (((x >> 17) & 1) << 1) | ((x >> 25) & 1)
  }

  /** The inverse initial permutation. */
  function FinalLeft(x: bv32, y: bv32): bv32 {
    // 40  8 48 16 56 24 64 32
    (((y >> 24) & 1) << 31) | (((x >> 24) & 1) << 30) | (((y >> 16) & 1) << 29) | (((x >> 16) & 1) << 28)
    | (((y >> 8) & 1) << 27) | (((x >> 8) & 1) << 26) | ((y & 1) << 25) | ((x & 1) << 24)
    // 39  7 47 15 55 23 63 31
    | (((y >> 25) & 1) << 23) | (((x >> 25) & 1) << 22) | (((y >> 17) & 1) << 21) | (((x >> 17) & 1) << 20)
    | (((y >> 9) & 1) << 19) | (((x >> 9) & 1) << 18) | (((y >> 1) & 1) << 17) | (((x >> 1) & 1) << 16)
    // 38  6 46 14 54 22 62 30
    | (((y >> 26) & 1) << 15) | (((x >> 26) & 1) << 14) | (((y >> 18) & 1) << 13) | (((x >> 18) & 1) << 12)
    | (((y >> 10) & 1) << 11) | (((x >> 10) & 1) << 10) | (((y >> 2) & 1) << 9) | (((x >> 2) & 1) << 8)
    // 37  5 45 13 53 21 61 29
    | (((y >> 27) & 1) << 7) | (((x >> 27) & 1) << 6) | (((y >> 19) & 1) << 5) | (((x >> 19) & 1) << 4)
    | (((y >> 11) & 1) << 3) | (((x >> 11) & 1) << 2) | (((y >> 3) & 1) << 1) | ((x >> 3) & 1)
  }

  function FinalRight(x: bv32, y: bv32): bv32 {
    // 36  4 44 12 52 20 60 28
    (((y >> 28) & 1) << 31) | (((x >> 28) & 1) << 30) | (((y >> 20) & 1) << 29) | (((x >> 20) & 1) << 28)
    | (((y >> 12) & 1) << 27) | (((x >> 12) & 1) << 26) | (((y >> 4) & 1) << 25) | (((x >> 4) & 1) << 24)
    // 35  3 43 11 51 19 59 27
    | (((y >> 29) & 1) << 23) | (((x >> 29) & 1) << 22) | (((y >> 21) & 1) << 21) | (((x >> 21) & 1) << 20)
    | (((y >> 13) & 1) << 19) | (((x >> 13) & 1) << 18) | (((y >> 5) & 1) << 17) | (((x >> 5) & 1) << 16)
    // 34  2 42 10 50 18 58 26
    | (((y >> 30) & 1) << 15) | (((x >> 30) & 1) << 14) | (((y >> 22) & 1) << 13) | (((x >> 22) & 1) << 12)
    | (((y >> 14) & 1) << 11) | (((x >> 14) & 1) << 10) | (((y >> 6) & 1) << 9) | (((x >> 6) & 1) << 8)
    // 33  1 41  9 49 17 57 25
    | (((y >> 31) & 1) << 7) | (((x >> 31) & 1) << 6) | (((y >> 23) & 1) << 5) | (((x >> 23) & 1) << 4)
    | (((y >> 15) & 1) << 3) | (((x >> 15) & 1) << 2) | (((y >> 7) & 1) << 1) | ((x >> 7) & 1)
  }

  function Initial(p: Halves): Halves { Halves(IpLeft(p.left, p.right), IpRight(p.left, p.right)) }
  function Final(p: Halves): Halves { Halves(FinalLeft(p.left, p.right), FinalRight(p.left, p.right)) }

  // ---------- the round function ----------

  /** The eight six-bit groups of the expansion E. */
  function E1(r: bv32): bv32 { ((r & 1) << 5) | (r >> 27) }
  function E2(r: bv32): bv32 { (r >> 23) & 0x3F }
  function E3(r: bv32): bv32 { (r >> 19) & 0x3F }
  function E4(r: bv32): bv32 { (r >> 15) & 0x3F }
  function E5(r: bv32): bv32 { (r >> 11) & 0x3F }
  function E6(r: bv32): bv32 { (r >> 7) & 0x3F }
  function E7(r: bv32): bv32 { (r >> 3) & 0x3F }
  function E8(r: bv32): bv32 { ((r & 0x1F) << 1) | (r >> 31) }

  /** Row from the outer two bits, column from the inner four. */
  function RowColumn(v: bv32): bv32 { (v & 0x20) | ((v & 1) << 4) | ((v >> 1) & 0xF) }

  function S1(v: bv32): bv32 {
    Pick64(RowColumn(v),
      14, 4, 13, 1, 2, 15, 11, 8, 3, 10, 6, 12, 5, 9, 0, 7,
      0, 15, 7, 4, 14, 2, 13, 1, 10, 6, 12, 11, 9, 5, 3, 8,
      4, 1, 14, 8, 13, 6, 2, 11, 15, 12, 9, 7, 3, 10, 5, 0,
      15, 12, 8, 2, 4, 9, 1, 7, 5, 11, 3, 14, 10, 0, 6, 13)
  }

  function S2(v: bv32): bv32 {
    Pick64(RowColumn(v),
      15, 1, 8, 14, 6, 11, 3, 4, 9, 7, 2, 13, 12, 0, 5, 10,
      3, 13, 4, 7, 15, 2, 8, 14, 12, 0, 1, 10, 6, 9, 11, 5,
      0, 14, 7, 11, 10, 4, 13, 1, 5, 8, 12, 6, 9, 3, 2, 15,
      13, 8, 10, 1, 3, 15, 4, 2, 11, 6, 7, 12, 0, 5, 14, 9)
  }

  function S3(v: bv32): bv32 {
    Pick64(RowColumn(v),
      10, 0, 9, 14, 6, 3, 15, 5, 1, 13, 12, 7, 11, 4, 2, 8,
      13, 7, 0, 9, 3, 4, 6, 10, 2, 8, 5, 14, 12, 11, 15, 1,
      13, 6, 4, 9, 8, 15, 3, 0, 11, 1, 2, 12, 5, 10, 14, 7,
      1, 10, 13, 0, 6, 9, 8, 7, 4, 15, 14, 3, 11, 5, 2, 12)
  }

  function S4(v: bv32): bv32 {
    Pick64(RowColumn(v),
      7, 13, 14, 3, 0, 6, 9, 10, 1, 2, 8, 5, 11, 12, 4, 15,
      13, 8, 11, 5, 6, 15, 0, 3, 4, 7, 2, 12, 1, 10, 14, 9,
      10, 6, 9, 0, 12, 11, 7, 13, 15, 1, 3, 14, 5, 2, 8, 4,
      3, 15, 0, 6, 10, 1, 13, 8, 9, 4, 5, 11, 12, 7, 2, 14)
  }

  function S5(v: bv32): bv32 {
    Pick64(RowColumn(v),
      2, 12, 4, 1, 7, 10, 11, 6, 8, 5, 3, 15, 13, 0, 14, 9,
      14, 11, 2, 12, 4, 7, 13, 1, 5, 0, 15, 10, 3, 9, 8, 6,
      4, 2, 1, 11, 10, 13, 7, 8, 15, 9, 12, 5, 6, 3, 0, 14,
      11, 8, 12, 7, 1, 14, 2, 13, 6, 15, 0, 9, 10, 4, 5, 3)
  }

  function S6(v: bv32): bv32 {
    Pick64(RowColumn(v),
      12, 1, 10, 15, 9, 2, 6, 8, 0, 13, 3, 4, 14, 7, 5, 11,
      10, 15, 4, 2, 7, 12, 9, 5, 6, 1, 13, 14, 0, 11, 3, 8,
      9, 14, 15, 5, 2, 8, 12, 3, 7, 0, 4, 10, 1, 13, 11, 6,
      4, 3, 2, 12, 9, 5, 15, 10, 11, 14, 1, 7, 6, 0, 8, 13)
  }

  function S7(v: bv32): bv32 {
    Pick64(RowColumn(v),
      4, 11, 2, 14, 15, 0, 8, 13, 3, 12, 9, 7, 5, 10, 6, 1,
      13, 0, 11, 7, 4, 9, 1, 10, 14, 3, 5, 12, 2, 15, 8, 6,
      1, 4, 11, 13, 12, 3, 7, 14, 10, 15, 6, 8, 0, 5, 9, 2,
      6, 11, 13, 8, 1, 4, 10, 7, 9, 5, 0, 15, 14, 2, 3, 12)
  }

  function S8(v: bv32): bv32 {
    Pick64(RowColumn(v),
      13, 2, 8, 4, 6, 15, 11, 1, 10, 9, 3, 14, 5, 0, 12, 7,
      1, 15, 13, 8, 10, 3, 7, 4, 12, 5, 6, 11, 0, 14, 9, 2,
      7, 11, 4, 1, 9, 12, 14, 2, 0, 6, 10, 13, 15, 3, 5, 8,
      2, 1, 14, 7, 4, 10, 8, 13, 15, 12, 9, 0, 3, 5, 6, 11)
  }

  /** The permutation P. */
  function P(v: bv32): bv32 {
    // 16  7 20 21 29 12 28 17
    (((v >> 16) & 1) << 31) | (((v >> 25) & 1) << 30) | (((v >> 12) & 1) << 29) | (((v >> 11) & 1) << 28)
    | (((v >> 3) & 1) << 27) | (((v >> 20) & 1) << 26) | (((v >> 4) & 1) << 25) | (((v >> 15) & 1) << 24)
    //  1 15 23 26  5 18 31 10
    | (((v >> 31) & 1) << 23) | (((v >> 17) & 1) << 22) | (((v >> 9) & 1) << 21) | (((v >> 6) & 1) << 20)
    | (((v >> 27) & 1) << 19) | (((v >> 14) & 1) << 18) | (((v >> 1) & 1) << 17) | (((v >> 22) & 1) << 16)
    //  2  8 24 14 32 27  3  9
    | (((v >> 30) & 1) << 15) | (((v >> 24) & 1) << 14) | (((v >> 8) & 1) << 13) | (((v >> 18) & 1) << 12)
    | ((v & 1) << 11) | (((v >> 5) & 1) << 10) | (((v >> 29) & 1) << 9) | (((v >> 23) & 1) << 8)
    // 19 13 30  6 22 11  4 25
    | (((v >> 13) & 1) << 7) | (((v >> 19) & 1) << 6) | (((v >> 2) & 1) << 5) | (((v >> 26) & 1) << 4)
    | (((v >> 10) & 1) << 3) | (((v >> 21) & 1) << 2) | (((v >> 28) & 1) << 1) | ((v >> 7) & 1)
  }

  function Nibbles(s1: bv32, s2: bv32, s3: bv32, s4: bv32, s5: bv32, s6: bv32, s7: bv32, s8: bv32): bv32 {
    (s1 << 28) | (s2 << 24) | (s3 << 20) | (s4 << 16) | (s5 << 12) | (s6 << 8) | (s7 << 4) | s8
  }

  /** A 48-bit round key as its eight groups. */
  datatype Subkey = Subkey(k1: bv32, k2: bv32, k3: bv32, k4: bv32, k5: bv32, k6: bv32, k7: bv32, k8: bv32)

  /** The cipher function f(R, K). */
  function F(r: bv32, k: Subkey): bv32 {
    P(Nibbles(S1(Xor32(E1(r), k.k1)), S2(Xor32(E2(r), k.k2)), S3(Xor32(E3(r), k.k3)), S4(Xor32(E4(r), k.k4)),
              S5(Xor32(E5(r), k.k5)), S6(Xor32(E6(r), k.k6)), S7(Xor32(E7(r), k.k7)), S8(Xor32(E8(r), k.k8))))
  }

  // ---------- the key schedule ----------

  /** Permuted choice 1: the two 28-bit registers. */
  function Pc1C(x: bv32, y: bv32): bv32 {
    // 57 49 41 33 25 17  9
    (((y >> 7) & 1) << 27) | (((y >> 15) & 1) << 26) | (((y >> 23) & 1) << 25) | (((y >> 31) & 1) << 24)
    | (((x >> 7) & 1) << 23) | (((x >> 15) & 1) << 22) | (((x >> 23) & 1) << 21)
    //  1 58 50 42 34 26 18
    | (((x >> 31) & 1) << 20) | (((y >> 6) & 1) << 19) | (((y >> 14) & 1) << 18) | (((y >> 22) & 1) << 17)
    | (((y >> 30) & 1) << 16) | (((x >> 6) & 1) << 15) | (((x >> 14) & 1) << 14)
    // 10  2 59 51 43 35 27
    | (((x >> 22) & 1) << 13) | (((x >> 30) & 1) << 12) | (((y >> 5) & 1) << 11) | (((y >> 13) & 1) << 10)
    | (((y >> 21) & 1) << 9) | (((y >> 29) & 1) << 8) | (((x >> 5) & 1) << 7)
    // 19 11  3 60 52 44 36
    | (((x >> 13) & 1) << 6) | (((x >> 21) & 1) << 5) | (((x >> 29) & 1) << 4) | (((y >> 4) & 1) << 3)
    | (((y >> 12) & 1) << 2) | (((y >> 20) & 1) << 1) | ((y >> 28) & 1)
  }

  function Pc1D(x: bv32, y: bv32): bv32 {
    // 63 55 47 39 31 23 15
    (((y >> 1) & 1) << 27) | (((y >> 9) & 1) << 26) | (((y >> 17) & 1) << 25) | (((y >> 25) & 1) << 24)
    | (((x >> 1) & 1) << 23) | (((x >> 9) & 1) << 22) | (((x >> 17) & 1) << 21)
    //  7 62 54 46 38 30 22
    | (((x >> 25) & 1) << 20) | (((y >> 2) & 1) << 19) | (((y >> 10) & 1) << 18) | (((y >> 18) & 1) << 17)
    | (((y >> 26) & 1) << 16) | (((x >> 2) & 1) << 15) | (((x >> 10) & 1) << 14)
    // 14  6 61 53 45 37 29
    | (((x >> 18) & 1) << 13) | (((x >> 26) & 1) << 12) | (((y >> 3) & 1) << 11) | (((y >> 11) & 1) << 10)
    | (((y >> 19) & 1) << 9) | (((y >> 27) & 1) << 8) | (((x >> 3) & 1) << 7)
    // 21 13  5 28 20 12  4
    | (((x >> 11) & 1) << 6) | (((x >> 19) & 1) << 5) | (((x >> 27) & 1) << 4) | (((x >> 4) & 1) << 3)
    | (((x >> 12) & 1) << 2) | (((x >> 20) & 1) << 1) | ((x >> 28) & 1)
  }

  /** The number of left shifts before round i, counting from 0. */
  function Once(i: nat): bool { i == 0 || i == 1 || i == 8 || i == 15 }

  function Left1(c: bv32): bv32 { ((c << 1) | (c >> 27)) & 0x0FFFFFFF }
  function Left2(c: bv32): bv32 { Left1(Left1(c)) }

  function Shifted(c: bv32, i: nat): bv32 { if Once(i) then Left1(c) else Left2(c) }

  /** The registers C and D after n rounds of shifts. */
  function Registers(key: Halves, n: nat): Halves {
    if n == 0 then Halves(Pc1C(key.left, key.right), Pc1D(key.left, key.right))
    else var h := Registers(key, n - 1); Halves(Shifted(h.left, n - 1), Shifted(h.right, n - 1))
  }

  /** Permuted choice 2, group by group: the first four from C, the last four from D. */
  function Pc2K1(c: bv32): bv32 {
    // 14 17 11 24  1  5
    (((c >> 14) & 1) << 5) | (((c >> 11) & 1) << 4) | (((c >> 17) & 1) << 3)
    | (((c >> 4) & 1) << 2) | (((c >> 27) & 1) << 1) | ((c >> 23) & 1)
  }

  function Pc2K2(c: bv32): bv32 {
    //  3 28 15  6 21 10
    (((c >> 25) & 1) << 5) | ((c & 1) << 4) | (((c >> 13) & 1) << 3)
    | (((c >> 22) & 1) << 2) | (((c >> 7) & 1) << 1) | ((c >> 18) & 1)
  }

  function Pc2K3(c: bv32): bv32 {
    // 23 19 12  4 26  8
    (((c >> 5) & 1) << 5) | (((c >> 9) & 1) << 4) | (((c >> 16) & 1) << 3)
    | (((c >> 24) & 1) << 2) | (((c >> 2) & 1) << 1) | ((c >> 20) & 1)
  }

  function Pc2K4(c: bv32): bv32 {
    // 16  7 27 20 13  2
    (((c >> 12) & 1) << 5) | (((c >> 21) & 1) << 4) | (((c >> 1) & 1) << 3)
    | (((c >> 8) & 1) << 2) | (((c >> 15) & 1) << 1) | ((c >> 26) & 1)
  }

  function Pc2K5(d: bv32): bv32 {
    // 41 52 31 37 47 55
    (((d >> 15) & 1) << 5) | (((d >> 4) & 1) << 4) | (((d >> 25) & 1) << 3)
    | (((d >> 19) & 1) << 2) | (((d >> 9) & 1) << 1) | ((d >> 1) & 1)
  }

  function Pc2K6(d: bv32): bv32 {
    // 30 40 51 45 33 48
    (((d >> 26) & 1) << 5) | (((d >> 16) & 1) << 4) | (((d >> 5) & 1) << 3)
    | (((d >> 11) & 1) << 2) | (((d >> 23) & 1) << 1) | ((d >> 8) & 1)
  }

  function Pc2K7(d: bv32): bv32 {
    // 44 49 39 56 34 53
    (((d >> 12) & 1) << 5) | (((d >> 7) & 1) << 4) | (((d >> 17) & 1) << 3)
    | ((d & 1) << 2) | (((d >> 22) & 1) << 1) | ((d >> 3) & 1)
  }

  function Pc2K8(d: bv32): bv32 {
    // 46 42 50 36 29 32
    (((d >> 10) & 1) << 5) | (((d >> 14) & 1) << 4) | (((d >> 6) & 1) << 3)
    | (((d >> 20) & 1) << 2) | (((d >> 27) & 1) << 1) | ((d >> 24) & 1)
  }

  function Choice2(h: Halves): Subkey {
    Subkey(Pc2K1(h.left), Pc2K2(h.left), Pc2K3(h.left), Pc2K4(h.left),
           Pc2K5(h.right), Pc2K6(h.right), Pc2K7(h.right), Pc2K8(h.right))
  }

  /** Round keys 1 to n. */
  function Subkeys(key: Halves, n: nat): (ks: seq<Subkey>)
    ensures |ks| == n
  { if n == 0 then [] else Subkeys(key, n - 1) + [Choice2(Registers(key, n))] }

  // ---------- the cipher ----------

  function Rounds(keys: seq<Subkey>, p: Halves): Halves {
    if keys == [] then p
    else Rounds(keys[1..], Halves(p.right, Xor32(p.left, F(p.right, keys[0]))))
  }

  /** The halves are exchanged once more before the final permutation. */
  function Cipher(keys: seq<Subkey>, block: Halves): Halves {
    Final(Swapped(Rounds(keys, Initial(block))))
  }

  function Backwards<T>(keys: seq<T>): (r: seq<T>)
    ensures |r| == |keys|
  { if keys == [] then [] else Backwards(keys[1..]) + [keys[0]] }

  function Encrypt(key: Halves, block: Halves): Halves { Cipher(Subkeys(key, 16), block) }
  function Decrypt(key: Halves, block: Halves): Halves { Cipher(Backwards(Subkeys(key, 16)), block) }
}
