/** Integer arithmetic as the compiled program performs it, and the facts about
    multiplication and division the other modules lean on. */
module Arith {

  function Abs(a: int): nat {
    if a < 0 then -a else a
  }

  function Min(a: int, b: int): int {
    if a <= b then a else b
  }

  function Max(a: int, b: int): int {
    if a >= b then a else b
  }

  /** Signed division that truncates toward zero (Dafny's `/` is Euclidean). */
  function TruncDiv(a: int, b: int): int
    requires b != 0
  {
    if (a >= 0) == (b > 0) then Abs(a) / Abs(b) else -(Abs(a) / Abs(b))
  }

  /** The remainder that goes with TruncDiv: it takes the sign of the dividend. */
  function TruncMod(a: int, b: int): int
    requires b != 0
  {
    a - b * TruncDiv(a, b)
  }

  /** A real truncated toward zero, as a float-to-integer cast does. */
  function TruncReal(x: real): int {
    if x >= 0.0 then x.Floor else -((-x).Floor)
  }

  /** A real rounded to the nearest integer, halves away from zero. */
  function RoundReal(x: real): int {
    if x >= 0.0 then (x + 0.5).Floor else -((-x + 0.5).Floor)
  }

  /** Signed division and its remainder: the remainder is smaller than the divisor and
      has the sign of the dividend. */
  lemma TruncDivExactly(a: int, b: int)
    requires b != 0
    ensures a == b * TruncDiv(a, b) + TruncMod(a, b)
    ensures Abs(TruncMod(a, b)) < Abs(b)
    ensures (TruncMod(a, b) > 0 ==> a > 0) && (TruncMod(a, b) < 0 ==> a < 0)
  {
    var p := BackMultiplied(a, b);
  }

  /** The quotient times the divisor stays within one divisor of the dividend, toward zero. */
  lemma BackMultiplied(a: int, b: int) returns (p: nat)
    requires b != 0
    ensures b * TruncDiv(a, b) == if a >= 0 then p else 0 - p
    ensures p <= Abs(a) < p + Abs(b)
  {
    var q, d := Abs(a) / Abs(b), Abs(b);
    DivBounds(Abs(a), d);
    MulDistrib(q, 1, d);
    MulMono(0, q, d);
    p := q * d;
    SignedProduct(b, q);
  }

  lemma SignedProduct(b: int, q: int)
    ensures b * q == if b >= 0 then q * Abs(b) else 0 - q * Abs(b)
    ensures b * (0 - q) == if b >= 0 then 0 - q * Abs(b) else q * Abs(b)
  {
  }

  /** A cast drops what is behind the point; rounding goes to the nearest, halves away
      from zero. */
  lemma CastsExactly(x: real)
    ensures x >= 0.0 ==> TruncReal(x) as real <= x < TruncReal(x) as real + 1.0
    ensures x < 0.0 ==> TruncReal(x) as real - 1.0 < x <= TruncReal(x) as real
    ensures x >= 0.0 ==> RoundReal(x) as real - 0.5 <= x < RoundReal(x) as real + 0.5
    ensures x < 0.0 ==> RoundReal(x) as real - 0.5 < x <= RoundReal(x) as real + 0.5
  {
  }

  /** a * b as repeated addition. Sizes computed this way stay one unknown to the
      prover instead of a product inside further products. */
  function Times(a: nat, b: nat): nat {
    if a == 0 then 0 else Times(a - 1, b) + b
  }

  lemma {:induction false} TimesIsProduct(a: nat, b: nat)
    ensures Times(a, b) == a * b
  {
    if a > 0 {
      TimesIsProduct(a - 1, b);
      assert a * b == (a - 1) * b + b;
    }
  }

  /** a / d and a % d as repeated subtraction, likewise opaque to the prover. */
  function Quot(a: nat, d: nat): nat
    requires d > 0
  {
    if a < d then 0 else Quot(a - d, d) + 1
  }

  function Rem(a: nat, d: nat): (r: nat)
    requires d > 0
    ensures r < d && r <= a
  {
    if a < d then a else Rem(a - d, d)
  }

  lemma {:induction false} QuotRem(a: nat, d: nat)
    requires d > 0
    ensures Quot(a, d) == a / d && Rem(a, d) == a % d
    ensures a == Quot(a, d) * d + Rem(a, d) && Rem(a, d) < d
  {
    if a >= d {
      QuotRem(a - d, d);
      ModOfSum(a - d, 1, d);
    } else {
      DivUnique(a, d, 0);
    }
    assert a == (a / d) * d + a % d;
  }

  /** The bounds alone, for proofs that would be slowed down by `/` and `%`. */
  lemma {:induction false} QuotBounds(a: nat, d: nat)
    requires d > 0
    ensures Quot(a, d) * d <= a < Quot(a, d) * d + d
  {
    if a >= d {
      QuotBounds(a - d, d);
      MulDistrib(Quot(a - d, d), 1, d);
    }
  }

  lemma TimesSum(a: nat, b: nat, c: nat)
    ensures Times(a + b, c) == Times(a, c) + Times(b, c)
  {
    TimesIsProduct(a, c);
    TimesIsProduct(b, c);
    TimesIsProduct(a + b, c);
    MulDistrib(a, b, c);
  }

  lemma TimesMono(a: nat, b: nat, c: nat)
    requires a <= b
    ensures Times(a, c) <= Times(b, c)
    ensures Times(b, c) == Times(a, c) + Times(b - a, c)
  {
    TimesSum(a, b - a, c);
  }

  /** n is a whole number of blocks of the given size. */
  predicate Whole(n: nat, size: nat)
    requires size > 0
  {
    n == 0 || (n >= size && Whole(n - size, size))
  }

  lemma {:induction false} WholeIsMod(n: nat, size: nat)
    requires size > 0
    ensures Whole(n, size) <==> n % size == 0
  {
    if n >= size {
      WholeIsMod(n - size, size);
      ModOfSum(n - size, 1, size);
    }
  }

  lemma MulMono(a: int, b: int, c: nat)
    requires a <= b
    ensures a * c <= b * c
  {
  }

  lemma MulDistrib(a: int, b: int, c: int)
    ensures (a + b) * c == a * c + b * c
    ensures (a - b) * c == a * c - b * c
  {
  }

  /** The quotient of a division is the only integer whose multiple fits. */
  lemma DivUnique(a: int, d: int, q: int)
    requires d > 0
    requires q * d <= a < (q + 1) * d
    ensures a / d == q
  {
    var p := a / d;
    assert p * d <= a < p * d + d;
    assert (p + 1) * d == p * d + d;
    if p < q {
      MulMono(p + 1, q, d);
    } else if q < p {
      MulMono(q + 1, p, d);
    }
  }

  lemma DivBounds(a: int, d: int)
    requires d > 0
    ensures (a / d) * d <= a < (a / d + 1) * d
  {
    assert a == (a / d) * d + a % d;
    assert (a / d + 1) * d == (a / d) * d + d;
  }

  lemma DivMultiple(q: int, d: int)
    requires d > 0
    ensures (q * d) / d == q
    ensures (q * d) % d == 0
  {
    assert (q + 1) * d == q * d + d;
    DivUnique(q * d, d, q);
  }

  lemma DivMono(a: int, b: int, d: int)
    requires a <= b && d > 0
    ensures a / d <= b / d
  {
    DivBounds(a, d);
    DivBounds(b, d);
    if b / d < a / d {
      MulMono(b / d + 1, a / d, d);
    }
  }

  /** Adding whole multiples of the divisor leaves divisibility alone. */
  lemma ModOfSum(a: int, q: int, d: int)
    requires d > 0
    ensures (a + q * d) % d == a % d
    ensures (a + q * d) / d == a / d + q
  {
    DivBounds(a, d);
    MulDistrib(a / d, q, d);
    MulDistrib(a / d + q, 1, d);
    MulDistrib(a / d, 1, d);
    DivUnique(a + q * d, d, a / d + q);
    assert a == (a / d) * d + a % d;
    assert a + q * d == (a / d + q) * d + (a + q * d) % d;
  }
}
