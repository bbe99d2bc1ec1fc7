/** Go's uint64: addition and subtraction wrap around. */
module Uint64 {
  const U64: nat := 0x1_0000_0000_0000_0000

  type uint64 = n: nat | n < U64

  function Add64(a: uint64, b: uint64): uint64 {
    if a + b < U64 then a + b else a + b - U64
  }

  function Sub64(a: uint64, b: uint64): uint64 {
    if b <= a then a - b else a - b + U64
  }

  function Whole(q: int): int {
    q * U64
  }

  /** Equal up to whole wrap-arounds. */
  ghost predicate Congruent(a: int, b: int) {
    exists q :: a == b + Whole(q)
  }

  lemma AddCongruent(a: uint64, b: uint64, c: int)
    requires Congruent(a, c)
    ensures Congruent(Add64(a, b), c + b)
  {
    var q :| a == c + Whole(q);
    assert Add64(a, b) == c + b + Whole(if a + b < U64 then q else q - 1);
  }

  lemma SubCongruent(a: uint64, b: uint64, c: int)
    requires Congruent(a, c)
    ensures Congruent(Sub64(a, b), c - b)
  {
    var q :| a == c + Whole(q);
    assert Sub64(a, b) == c - b + Whole(if b <= a then q else q + 1);
  }

  /** Congruent numbers in range are equal. */
  lemma CongruentInRange(a: uint64, b: int)
    requires Congruent(a, b) && 0 <= b < U64
    ensures a == b
  {
  }
}
