/** Remainders, chunk boundaries and bit masks over the naturals.

    The driver never divides by a chunk size at run time: it masks an address with
    `dma_size - 1`.  `And` is the bitwise operation itself, `Rem` the remainder (by repeated
    subtraction, which keeps every proof about it linear), and `MaskIsRemainder` and
    `RemIsModulo` tie both to the modulus. */
module Arithmetic {

  function Min(a: nat, b: nat): (r: nat) {
    if a <= b then a else b
  }

  function Max(a: int, b: int): (r: int) {
    if a <= b then b else a
  }

  /** The kernel's DIV_ROUND_UP. */
  function DivRoundUp(a: nat, d: nat): (r: nat)
    requires d > 0
  {
    (a + d - 1) / d
  }

  /** How many pieces of `d`, the last one perhaps short, make up `a`. */
  function Pieces(a: nat, d: nat): (r: nat)
    requires d > 0
    decreases a
  {
    if a == 0 then 0 else if a <= d then 1 else 1 + Pieces(a - d, d)
  }

  function Rem(a: nat, d: nat): (r: nat)
    requires d > 0
    ensures r < d
    decreases a
  {
    if a < d then a else Rem(a - d, d)
  }

  predicate AtBoundary(a: nat, d: nat)
    requires d > 0
  {
    Rem(a, d) == 0
  }

  /** Distance from `a` to the next boundary above it. */
  function ToBoundary(a: nat, d: nat): (r: nat)
    requires d > 0
    ensures 0 < r <= d
  {
    d - Rem(a, d)
  }

  function Pow2(k: nat): (r: nat)
    ensures r > 0
  {
    if k == 0 then 1 else 2 * Pow2(k - 1)
  }

  ghost predicate PowerOfTwo(n: nat)
    ensures PowerOfTwo(n) ==> n > 0
  {
    exists k :: n == Pow2(k)
  }

  /** Bitwise conjunction of two unsigned words. */
  function And(a: nat, b: nat): (r: nat)
    decreases a
  {
    if a == 0 || b == 0 then 0
    else (if a % 2 == 1 && b % 2 == 1 then 1 else 0) + 2 * And(a / 2, b / 2)
  }

  lemma SmallMultiple(d: int, x: int)
    requires -d < d * x < d
    ensures x == 0
  {
  }

  lemma DivUnique(a: nat, d: nat, q: nat, r: nat)
    requires d > 0 && r < d && a == d * q + r
    ensures a / d == q && a % d == r
  {
    assert d * (q - a / d) == a % d - r;
    SmallMultiple(d, q - a / d);
  }

  lemma {:induction false} RemIsModulo(a: nat, d: nat)
    requires d > 0
    ensures Rem(a, d) == a % d
    decreases a
  {
    if a >= d {
      RemIsModulo(a - d, d);
      var q, r := (a - d) / d, (a - d) % d;
      assert d * (q + 1) == d * q + d;
      DivUnique(a, d, q + 1, r);
    } else {
      DivUnique(a, d, 0, a);
    }
  }

  lemma {:induction false} PiecesIsDivRoundUp(a: nat, d: nat)
    requires d > 0
    ensures Pieces(a, d) == DivRoundUp(a, d)
    decreases a
  {
    if a == 0 {
      DivUnique(d - 1, d, 0, d - 1);
    } else if a <= d {
      DivUnique(a + d - 1, d, 1, a - 1);
    } else {
      PiecesIsDivRoundUp(a - d, d);
      var q, r := (a - 1) / d, (a - 1) % d;
      assert d * (q + 1) == d * q + d;
      DivUnique(a + d - 1, d, q + 1, r);
    }
  }

  lemma {:induction false} RemByHalves(a: nat, m: nat)
    requires m > 0
    ensures Rem(a, 2 * m) == a % 2 + 2 * Rem(a / 2, m)
    decreases a
  {
    if a >= 2 * m {
      RemByHalves(a - 2 * m, m);
      assert (a - 2 * m) / 2 == a / 2 - m && (a - 2 * m) % 2 == a % 2;
    }
  }

  lemma AndOdd(a: nat, b: nat)
    requires a > 0
    ensures And(a, 2 * b + 1) == a % 2 + 2 * And(a / 2, b)
  {
    assert (2 * b + 1) / 2 == b && (2 * b + 1) % 2 == 1;
  }

  lemma MaskDouble(a: nat, m: nat)
    requires m > 0 && a > 0 && And(a / 2, m - 1) == Rem(a / 2, m)
    ensures And(a, 2 * m - 1) == Rem(a, 2 * m)
  {
    RemByHalves(a, m);
    AndOdd(a, m - 1);
    assert 2 * (m - 1) + 1 == 2 * m - 1;
  }

  lemma {:induction false} MaskPow2(a: nat, k: nat)
    ensures And(a, Pow2(k) - 1) == Rem(a, Pow2(k))
    decreases k
  {
    if k > 0 && a > 0 {
      MaskPow2(a / 2, k - 1);
      MaskDouble(a, Pow2(k - 1));
    }
  }

  /** Masking with a power of two less one is taking the remainder. */
  lemma MaskIsRemainder(a: nat, n: nat)
    requires PowerOfTwo(n)
    ensures And(a, n - 1) == Rem(a, n)
  {
    var k :| n == Pow2(k);
    MaskPow2(a, k);
  }

  /** The driver's `x & (n - 1)`. */
  method Mask(a: nat, n: nat) returns (r: nat)
    requires PowerOfTwo(n)
    ensures r == Rem(a, n)
  {
    MaskIsRemainder(a, n);
    r := And(a, n - 1);
  }

  /** The driver's use of the DIV_ROUND_UP macro. */
  method RoundUp(a: nat, d: nat) returns (r: nat)
    requires d > 0
    ensures r == Pieces(a, d)
  {
    PiecesIsDivRoundUp(a, d);
    r := DivRoundUp(a, d);
  }

  /** Nothing strictly inside the distance to the boundary is a boundary. */
  lemma {:induction false} RemWithin(a: nat, d: nat, k: nat)
    requires d > 0 && k < ToBoundary(a, d)
    ensures Rem(a + k, d) == Rem(a, d) + k
    decreases a
  {
    if a >= d {
      RemWithin(a - d, d, k);
    }
  }

  lemma {:induction false} BoundaryReached(a: nat, d: nat)
    requires d > 0
    ensures AtBoundary(a + ToBoundary(a, d), d)
    decreases a
  {
    if a >= d {
      BoundaryReached(a - d, d);
    } else {
      assert Rem(d, d) == Rem(0, d) == 0;
    }
  }

  /** Any later boundary is at least that far. */
  lemma BoundaryIsFar(a: nat, d: nat, k: nat)
    requires d > 0 && k > 0 && AtBoundary(a + k, d)
    ensures k >= ToBoundary(a, d)
  {
    if k < ToBoundary(a, d) {
      RemWithin(a, d, k);
    }
  }

  /** Adding to a boundary leaves the remainder alone. */
  lemma {:induction false} RemShift(a: nat, b: nat, d: nat)
    requires d > 0 && AtBoundary(a, d)
    ensures Rem(a + b, d) == Rem(b, d)
    decreases a
  {
    if a >= d {
      RemShift(a - d, b, d);
    }
  }
}
