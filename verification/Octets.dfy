/** Bytes as bit-vectors and as numbers. */
module Octets {

  function Num(b: bv8): (n: nat)
    ensures n < 256
  { b as nat }

  lemma NumNext(b: bv8)
    requires b != 255
    ensures Num(b + 1) == Num(b) + 1
  {
  }

  lemma NumInjective(a: bv8, b: bv8)
    requires Num(a) == Num(b)
    ensures a == b
  {
  }

  /** The byte with a given value, reached by counting. */
  function Octet(n: nat): (b: bv8)
    requires n < 256
    ensures Num(b) == n
  {
    if n == 0 then 0 else NumNext(Octet(n - 1)); Octet(n - 1) + 1
  }
}
