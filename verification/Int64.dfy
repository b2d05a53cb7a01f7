/** Signed 64-bit arithmetic: the wraparound helpers of the Go runtime against exact integers. */
module Int64 {

  const MIN: int := -0x8000_0000_0000_0000
  const MAX: int := 0x7FFF_FFFF_FFFF_FFFF
  const MODULUS: int := 0x1_0000_0000_0000_0000

  predicate InRange(x: int) {
    MIN <= x <= MAX
  }

  type Int64 = x: int | MIN <= x <= MAX

  datatype Checked = Value(v: Int64) | Overflow

  /** The reference: compute exactly, then check the range (`_binary`, `_unary`). */
  function Exactly(x: int): Checked {
    if InRange(x) then Value(x) else Overflow
  }

  // ----- Go's int64 operators

  /** Two's-complement wraparound. */
  function Wrap(x: int): (r: Int64)
    ensures InRange(x) ==> r == x
  {
    (x - MIN) % MODULUS + MIN
  }

  function Plus(a: Int64, b: Int64): Int64 { Wrap(a + b) }

  function Minus(a: Int64, b: Int64): Int64 { Wrap(a - b) }

  function Times(a: Int64, b: Int64): Int64 { Wrap(a * b) }

  function Abs(x: int): nat { if x < 0 then -x else x }

  function Floor(n: nat, d: nat): nat
    requires d != 0
  {
    n / d
  }

  /** Division truncates toward zero, and `MIN / -1` wraps to `MIN`. */
  function Quotient(a: Int64, b: Int64): Int64
    requires b != 0
  {
    var q := Floor(Abs(a), Abs(b));
    Wrap(if (a < 0) == (b < 0) then q else 0 - q)
  }

  // ----- The runtime helpers

  function Negate(a: Int64): Checked {
    if a == MIN then Overflow else Value(Minus(0, a))
  }

  function Add(a: Int64, b: Int64): Checked {
    if (b > 0 && a > Minus(MAX, b)) || (b < 0 && a < Minus(MIN, b)) then Overflow else Value(Plus(a, b))
  }

  function Sub(a: Int64, b: Int64): Checked {
    if (b > 0 && a < Plus(MIN, b)) || (b < 0 && a > Plus(MAX, b)) then Overflow else Value(Minus(a, b))
  }

  function Mul(a: Int64, b: Int64): Checked {
    if a == 0 || b == 0 then Value(0)
    else if (a == MIN && b == -1) || (b == MIN && a == -1) then Overflow
    else
      var result := Times(a, b);
      if Quotient(result, b) != a then Overflow else Value(result)
  }

  // ----- Agreement with exact arithmetic

  /** The guards of `+` and `-` are themselves computed without overflow. */
  lemma GuardsStayInRange(b: Int64)
    ensures b > 0 ==> InRange(MAX - b) && InRange(MIN + b)
    ensures b < 0 ==> InRange(MIN - b) && InRange(MAX + b)
    ensures b > 0 ==> Minus(MAX, b) == MAX - b && Plus(MIN, b) == MIN + b
    ensures b < 0 ==> Minus(MIN, b) == MIN - b && Plus(MAX, b) == MAX + b
  {
  }

  lemma AddIsExact(a: Int64, b: Int64)
    ensures Add(a, b) == Exactly(a + b)
  {
    GuardsStayInRange(b);
  }

  lemma SubIsExact(a: Int64, b: Int64)
    ensures Sub(a, b) == Exactly(a - b)
  {
    GuardsStayInRange(b);
  }

  lemma NegateIsExact(a: Int64)
    ensures Negate(a) == Exactly(0 - a)
  {
  }

  /** Wrapping a product that is out of range moves it by at least the modulus. */
  lemma WrapMovesFar(x: int)
    ensures !InRange(x) ==> Abs(x - Wrap(x)) >= MODULUS
  {
    var k := (x - MIN) / MODULUS;
    assert x - Wrap(x) == k * MODULUS;
    if k == 0 { assert InRange(x); }
    else if k > 0 { assert k * MODULUS >= MODULUS; }
    else { assert k * MODULUS <= -MODULUS; }
  }

  /** Truncating division recovers a factor of an exact product. */
  lemma QuotientOfProduct(a: Int64, b: Int64)
    requires b != 0 && InRange(a * b)
    ensures Quotient(a * b, b) == a
  {
    AbsProduct(a, b);
    AbsDivides(Abs(a), Abs(b));
  }

  lemma AbsProduct(a: int, b: int)
    ensures Abs(a * b) == Abs(a) * Abs(b)
    ensures a != 0 && b != 0 ==> ((a * b < 0) == ((a < 0) != (b < 0)))
  {
  }

  lemma DivMod(x: nat, d: nat)
    requires d > 0
    ensures 0 <= x - Floor(x, d) * d < d
  {
  }

  lemma Distributes(a: int, b: int, d: int)
    ensures (a - b) * d == a * d - b * d
  {
  }

  lemma MultipleIsFar(k: int, d: nat)
    ensures k > 0 ==> k * d >= d
    ensures k < 0 ==> k * d <= 0 - d
  {
    if k > 0 { Distributes(k, 1, d); assert (k - 1) * d >= 0; }
    if k < 0 { Distributes(k, -1, d); assert (k + 1) * d <= 0; }
  }

  lemma AbsDivides(n: nat, d: nat)
    requires d != 0
    ensures Floor(n * d, d) == n
  {
    hide Floor;
    DivMod(n * d, d);
    var q := Floor(n * d, d);
    Distributes(n, q, d);
    MultipleIsFar(n - q, d);
  }

  /** A quotient `a` of `w` by `b` puts `w` within one divisor of `a * b`. */
  lemma QuotientIsNear(w: Int64, b: Int64)
    requires b != 0 && !(w == MIN && b == -1)
    ensures Abs(w - Quotient(w, b) * b) < Abs(b)
  {
    hide Quotient, Floor;
    DivMod(Abs(w), Abs(b));
    SignedQuotient(w, b);
    NearBySign(w, b, Floor(Abs(w), Abs(b)), Quotient(w, b));
  }

  lemma NearBySign(w: int, b: int, q: nat, s: int)
    requires 0 <= Abs(w) - q * Abs(b) < Abs(b)
    requires s == if (w < 0) == (b < 0) then q else 0 - q
    ensures Abs(w - s * b) < Abs(b)
  {
    Distributes(0, q, Abs(b));
    assert s * b == if w < 0 then 0 - q * Abs(b) else q * Abs(b);
  }

  /** Only `MIN / -1` wraps. */
  lemma SignedQuotient(w: Int64, b: Int64)
    requires b != 0 && !(w == MIN && b == -1)
    ensures Quotient(w, b) == if (w < 0) == (b < 0) then Floor(Abs(w), Abs(b)) else 0 - Floor(Abs(w), Abs(b))
  {
    if Abs(b) == 1 {
      assert Floor(Abs(w), Abs(b)) == Abs(w);
    } else {
      HalfAtMost(Abs(w), Abs(b));
    }
  }

  lemma HalfAtMost(n: nat, d: nat)
    requires d >= 2
    ensures Floor(n, d) * 2 <= n
  {
    DivMod(n, d);
    var q := Floor(n, d);
    Distributes(d, 2, q);
    assert (d - 2) * q >= 0;
  }

  /** The test `result / b != a` detects every overflowing product, and no other. */
  lemma MulIsExact(a: Int64, b: Int64)
    ensures Mul(a, b) == Exactly(a * b)
  {
    if a == 0 || b == 0 || (a == MIN && b == -1) || (b == MIN && a == -1) {
    } else if InRange(a * b) {
      QuotientOfProduct(a, b);
    } else {
      var w := Times(a, b);
      WrapMovesFar(a * b);
      if Quotient(w, b) == a { QuotientIsNear(w, b); }
    }
  }

  /** Without its special case for `MIN * -1` the quotient test would accept a wrapped product. */
  lemma SpecialCaseIsNeeded()
    ensures Quotient(Times(MIN, -1), -1) == MIN && Exactly(MIN * -1) == Overflow
  {
  }

  /** It is the only such pair: everywhere else the quotient test alone is exact. */
  lemma QuotientTestIsExact(a: Int64, b: Int64)
    requires b != 0
    ensures (Quotient(Times(a, b), b) == a <==> InRange(a * b)) <==> !(a == MIN && b == -1)
  {
    if InRange(a * b) {
      QuotientOfProduct(a, b);
    } else {
      WrapMovesFar(a * b);
      if Quotient(Times(a, b), b) == a && !(a == MIN && b == -1) { QuotientIsNear(Times(a, b), b); }
    }
  }
}
