/** Exact decimal numbers: scanning, the rational a spelling denotes, and its canonical spelling. */
module JsonNumber {
  import opened Options
  import opened Unicode

  // ----- Digit strings

  predicate Digits(d: Text) {
    forall i :: 0 <= i < |d| ==> IsDigit(d[i])
  }

  /** How many digits a text begins with. */
  function DigitCount(t: Text): (n: nat)
    ensures n <= |t| && Digits(t[..n]) && (n < |t| ==> !IsDigit(t[n]))
  {
    if t != [] && IsDigit(t[0]) then 1 + DigitCount(t[1..]) else 0
  }

  /** The natural number that a digit string denotes. */
  function Nat(d: Text): nat
    requires Digits(d)
  {
    if d == [] then 0 else 10 * Nat(d[..|d| - 1]) + (d[|d| - 1] - ZERO)
  }

  function NatText(n: nat): (d: Text)
    ensures Digits(d) && d != [] && Nat(d) == n
    ensures d[0] == ZERO ==> n == 0 && d == [ZERO]
  {
    if n < 10 then [ZERO + n] else NatText(n / 10) + [ZERO + n % 10]
  }

  function Zeros(n: nat): (z: Text)
    ensures |z| == n && Digits(z) && forall i :: 0 <= i < n ==> z[i] == ZERO
  {
    seq(n, _ => ZERO)
  }

  function LStrip(d: Text): (r: Text)
    ensures |r| <= |d| && (r != [] ==> r[0] != ZERO) && (Digits(d) ==> Digits(r))
  {
    if d != [] && d[0] == ZERO then LStrip(d[1..]) else d
  }

  function RStrip(d: Text): (r: Text)
    ensures |r| <= |d| && (r != [] ==> r[|r| - 1] != ZERO) && r <= d
  {
    if d != [] && d[|d| - 1] == ZERO then RStrip(d[..|d| - 1]) else d
  }

  // ----- Scanning (the grammar of section 6 of RFC 8259)

  datatype Exponent = NoExponent | Exponent(negative: bool, digits: Text)

  /** A number as it is spelled. */
  datatype Spelling = Spelling(negative: bool, integer: Text, fraction: Text, exponent: Exponent)

  /** The longest number at the start of a text, and what follows it. */
  function ScanNumber(t: Text): (r: Option<(Spelling, Text)>)
    ensures r.Some? ==> WellSpelled(r.value.0) && |r.value.1| < |t|
  {
    var negative := t != [] && t[0] == MINUS;
    var u := if negative then t[1..] else t;
    match ScanInteger(u)
    case None => None
    case Some((integer, v)) =>
      match ScanFraction(v)
      case None => None
      case Some((fraction, w)) =>
        match ScanExponent(w)
        case None => None
        case Some((exponent, rest)) =>
          Some((Spelling(negative, integer, fraction, exponent), rest))
  }

  function ScanInteger(u: Text): (r: Option<(Text, Text)>)
    ensures r.Some? ==> IsInteger(r.value.0) && |r.value.1| < |u|
  {
    if u == [] then None
    else if u[0] == ZERO then (if |u| > 1 && IsDigit(u[1]) then None else Some(([ZERO], u[1..])))
    else if IsDigit(u[0]) then
      var n := 1 + DigitCount(u[1..]);
      assert Digits(u[..n]) by { assert u[..n] == [u[0]] + u[1..][..n - 1]; }
      Some((u[..n], u[n..]))
    else None
  }

  function ScanFraction(v: Text): (r: Option<(Text, Text)>)
    ensures r.Some? ==> Digits(r.value.0) && |r.value.1| <= |v|
  {
    if v != [] && v[0] == DOT then
      var n := DigitCount(v[1..]);
      if n == 0 then None else Some((v[1..][..n], v[1..][n..]))
    else Some(([], v))
  }

  function ScanExponent(w: Text): (r: Option<(Exponent, Text)>)
    ensures r.Some? ==> IsExponent(r.value.0) && |r.value.1| <= |w|
  {
    if w != [] && (w[0] == LOWER_E || w[0] == UPPER_E) then
      var x := w[1..];
      var signed := x != [] && (x[0] == PLUS || x[0] == MINUS);
      var y := if signed then x[1..] else x;
      var n := DigitCount(y);
      if n == 0 then None else Some((Exponent(signed && x[0] == MINUS, y[..n]), y[n..]))
    else Some((NoExponent, w))
  }

  predicate IsInteger(d: Text) {
    Digits(d) && d != [] && (d[0] == ZERO ==> d == [ZERO])
  }

  predicate IsExponent(e: Exponent) {
    e.Exponent? ==> Digits(e.digits) && e.digits != []
  }

  predicate WellSpelled(s: Spelling) {
    IsInteger(s.integer) && Digits(s.fraction) && IsExponent(s.exponent)
  }

  /** The text of a spelling, with `e` for the exponent and no plus sign. */
  function Spell(s: Spelling): Text {
    (if s.negative then [MINUS] else []) + s.integer + SpellFraction(s.fraction) + SpellExponent(s.exponent)
  }

  function SpellFraction(fraction: Text): Text {
    if fraction == [] then [] else [DOT] + fraction
  }

  function SpellExponent(e: Exponent): Text {
    match e
    case NoExponent => []
    case Exponent(negative, digits) => [LOWER_E] + (if negative then [MINUS] else []) + digits
  }

  /** A text that cannot continue a number. */
  predicate Delimited(t: Text) {
    t != [] ==> !IsDigit(t[0]) && t[0] != DOT && t[0] != LOWER_E && t[0] != UPPER_E
  }

  lemma {:induction false} DigitCountSkips(d: Text, t: Text)
    requires Digits(d) && (t != [] ==> !IsDigit(t[0]))
    ensures DigitCount(d + t) == |d|
  {
    if d == [] {
      assert d + t == t;
    } else {
      assert (d + t)[1..] == d[1..] + t;
      DigitCountSkips(d[1..], t);
    }
  }

  lemma ScanIntegerSpelled(d: Text, t: Text)
    requires IsInteger(d) && (t != [] ==> !IsDigit(t[0]))
    ensures ScanInteger(d + t) == Some((d, t))
  {
    assert (d + t)[1..] == d[1..] + t;
    DigitCountSkips(d[1..], t);
    assert (d + t)[..|d|] == d && (d + t)[|d|..] == t;
  }

  lemma ScanFractionSpelled(d: Text, t: Text)
    requires Digits(d) && (t != [] ==> !IsDigit(t[0]) && t[0] != DOT)
    ensures ScanFraction(SpellFraction(d) + t) == Some((d, t))
  {
    if d == [] {
      assert SpellFraction(d) + t == t;
    } else {
      assert (SpellFraction(d) + t)[1..] == d + t;
      DigitCountSkips(d, t);
      assert (d + t)[..|d|] == d && (d + t)[|d|..] == t;
    }
  }

  lemma ScanExponentSpelled(e: Exponent, t: Text)
    requires IsExponent(e) && Delimited(t)
    ensures ScanExponent(SpellExponent(e) + t) == Some((e, t))
  {
    match e
    case NoExponent => assert SpellExponent(e) + t == t;
    case Exponent(negative, d) =>
      var w := SpellExponent(e) + t;
      var x := w[1..];
      assert x == (if negative then [MINUS] else []) + (d + t);
      assert (if negative then x[1..] else x) == d + t;
      assert d[0] == (d + t)[0] && IsDigit(d[0]);
      DigitCountSkips(d, t);
      assert (d + t)[..|d|] == d && (d + t)[|d|..] == t;
  }

  /** Scanning inverts spelling, whatever follows the number. */
  lemma ScanSpelled(s: Spelling, t: Text)
    requires WellSpelled(s) && Delimited(t)
    ensures ScanNumber(Spell(s) + t) == Some((s, t))
  {
    var w := SpellExponent(s.exponent) + t;
    var v := SpellFraction(s.fraction) + w;
    var u := s.integer + v;
    var all := Spell(s) + t;
    assert all == (if s.negative then [MINUS] else []) + u;
    assert (if s.negative then all[1..] else all) == u;
    assert u[0] == s.integer[0];
    assert ScanInteger(u) == Some((s.integer, v)) by { ScanIntegerSpelled(s.integer, v); }
    assert ScanFraction(v) == Some((s.fraction, w)) by { ScanFractionSpelled(s.fraction, w); }
    assert ScanExponent(w) == Some((s.exponent, t)) by { ScanExponentSpelled(s.exponent, t); }
  }

  // ----- Canonical spelling

  const MAX_EXPONENT := 1_000_000

  /** Sign, digits without leading or trailing zeros, and power of ten. */
  datatype Normal = Normal(negative: bool, digits: Text, scale: int)

  predicate IsNormal(n: Normal) {
    && Digits(n.digits) && n.digits != []
    && n.digits[0] != ZERO && n.digits[|n.digits| - 1] != ZERO
  }

  /** The exponent of a spelling, unless its magnitude is beyond the data/v1 limit. */
  function ExponentWithinLimit(e: Exponent): Option<int>
    requires IsExponent(e)
  {
    match e
    case NoExponent => Some(0)
    case Exponent(negative, digits) =>
      var stripped := if LStrip(digits) == [] then [ZERO] else LStrip(digits);
      if |stripped| > 9 || Nat(stripped) > MAX_EXPONENT then None
      else
        var m: int := Nat(stripped);
        Some(if negative then -m else m)
  }

  /** `None` stands for zero. */
  function Normalize(s: Spelling, exponent: int): (r: Option<Normal>)
    requires WellSpelled(s)
    ensures r.Some? ==> IsNormal(r.value)
  {
    var digits := LStrip(s.integer + s.fraction);
    if digits == [] then None
    else
      var kept := RStrip(digits);
      KeptIsNormal(digits);
      Some(Normal(s.negative, kept, exponent - |s.fraction| + (|digits| - |kept|)))
  }

  lemma {:induction false} KeptIsNormal(d: Text)
    requires Digits(d) && d != [] && d[0] != ZERO
    ensures RStrip(d) != [] && RStrip(d)[0] != ZERO && Digits(RStrip(d))
  {
    if d[|d| - 1] == ZERO { KeptIsNormal(d[..|d| - 1]); }
  }

  function IntText(n: int): Text {
    if n < 0 then [MINUS] + NatText(-n) else NatText(n)
  }

  function ScientificExponent(n: Normal): int {
    n.scale + |n.digits| - 1
  }

  predicate Scientific(n: Normal) {
    ScientificExponent(n) >= 21 || ScientificExponent(n) <= -7
  }

  function Render(n: Normal): Text
    requires IsNormal(n)
  {
    var sign := if n.negative then [MINUS] else [];
    var d := n.digits;
    if Scientific(n) then
      var coefficient := if |d| > 1 then [d[0]] + [DOT] + d[1..] else [d[0]];
      sign + coefficient + [LOWER_E] + IntText(ScientificExponent(n))
    else
      var position := |d| + n.scale;
      var body :=
        if position <= 0 then [ZERO, DOT] + Zeros(-position) + d
        else if position >= |d| then d + Zeros(position - |d|)
        else d[..position] + [DOT] + d[position..];
      sign + body
  }

  /** `canonical_number`: the canonical text, or `None` where the program raises ValueError. */
  function Canonical(t: Text): Option<Text> {
    match ScanNumber(t)
    case None => None
    case Some((s, rest)) =>
      if rest != [] then None
      else
        match ExponentWithinLimit(s.exponent)
        case None => None
        case Some(exponent) =>
          match Normalize(s, exponent)
          case None => Some([ZERO])
          case Some(n) => Some(Render(n))
  }

  // ----- The rational number that a spelling denotes

  function Power(n: int): real
    decreases if n < 0 then -n else n
  {
    if n == 0 then 1.0 else if n > 0 then 10.0 * Power(n - 1) else Power(n + 1) / 10.0
  }

  lemma PowerStep(n: int)
    ensures Power(n + 1) == 10.0 * Power(n)
  {
  }

  lemma {:induction false} PowerPositive(n: int)
    ensures Power(n) > 0.0
    decreases if n < 0 then -n else n
  {
    if n > 0 { PowerPositive(n - 1); } else if n < 0 { PowerPositive(n + 1); }
  }

  /** The sum of the digits, each weighted with its power of ten; the last one has weight 10^scale. */
  function Magnitude(d: Text, scale: int): real
    requires Digits(d)
  {
    if d == [] then 0.0
    else Magnitude(d[..|d| - 1], scale + 1) + Times(d[|d| - 1] - ZERO, Power(scale))
  }

  function Times(k: nat, x: real): real {
    if k == 0 then 0.0 else x + Times(k - 1, x)
  }

  function Product(x: real, y: real): real {
    x * y
  }

  lemma ProductSum(a: real, b: real, x: real)
    ensures Product(a, x) + Product(b, x) == Product(a + b, x)
  {
  }

  lemma {:induction false} TimesIsProduct(k: nat, x: real)
    ensures Times(k, x) == Product(k as real, x)
  {
    if k > 0 {
      TimesIsProduct(k - 1, x);
      assert (k - 1) as real == k as real - 1.0;
      ProductSum(k as real - 1.0, 1.0, x);
    }
  }

  lemma ShiftProduct(n: real, p: real)
    ensures Product(n, 10.0 * p) == Product(10.0 * n, p)
  {
  }

  lemma {:induction false} MagnitudeIsProduct(d: Text, scale: int)
    requires Digits(d)
    ensures Magnitude(d, scale) == Product(Nat(d) as real, Power(scale))
  {
    if d != [] {
      var e, k := d[..|d| - 1], d[|d| - 1] - ZERO;
      MagnitudeIsProduct(e, scale + 1);
      PowerStep(scale);
      ShiftProduct(Nat(e) as real, Power(scale));
      TimesIsProduct(k, Power(scale));
      ProductSum(10.0 * Nat(e) as real, k as real, Power(scale));
      assert Nat(d) as real == 10.0 * Nat(e) as real + k as real;
    }
  }

  function Signed(negative: bool, x: real): real {
    if negative then -x else x
  }

  function ExponentOf(e: Exponent): int
    requires IsExponent(e)
  {
    match e
    case NoExponent => 0
    case Exponent(negative, digits) =>
      var m: int := Nat(digits);
      if negative then -m else m
  }

  /** (-1)^sign * integer.fraction * 10^exponent, exactly. */
  function Value(s: Spelling): real
    requires WellSpelled(s)
  {
    Signed(s.negative, Magnitude(s.integer + s.fraction, ExponentOf(s.exponent) - |s.fraction|))
  }

  function NormalValue(n: Normal): real
    requires IsNormal(n)
  {
    Signed(n.negative, Magnitude(n.digits, n.scale))
  }

  // ----- Zeros at either end

  lemma {:induction false} LeadingZero(d: Text, scale: int)
    requires Digits(d)
    ensures Digits([ZERO] + d) && Magnitude([ZERO] + d, scale) == Magnitude(d, scale) && Nat([ZERO] + d) == Nat(d)
  {
    var z := [ZERO] + d;
    if d == [] {
      assert z[..0] == [];
    } else {
      LeadingZero(d[..|d| - 1], scale + 1);
      assert z[..|z| - 1] == [ZERO] + d[..|d| - 1];
    }
  }

  lemma {:induction false} LeadingZeros(k: nat, d: Text, scale: int)
    requires Digits(d)
    ensures Digits(Zeros(k) + d) && Magnitude(Zeros(k) + d, scale) == Magnitude(d, scale)
  {
    if k == 0 {
      assert Zeros(k) + d == d;
    } else {
      LeadingZeros(k - 1, d, scale);
      LeadingZero(Zeros(k - 1) + d, scale);
      assert Zeros(k) + d == [ZERO] + (Zeros(k - 1) + d);
    }
  }

  lemma {:induction false} LStripIsExact(d: Text, scale: int)
    requires Digits(d)
    ensures Magnitude(LStrip(d), scale) == Magnitude(d, scale) && Nat(LStrip(d)) == Nat(d)
  {
    if d != [] && d[0] == ZERO {
      LStripIsExact(d[1..], scale);
      LeadingZero(d[1..], scale);
      assert [ZERO] + d[1..] == d;
    }
  }

  lemma TrailingZero(d: Text, scale: int)
    requires Digits(d)
    ensures Digits(d + [ZERO]) && Magnitude(d + [ZERO], scale) == Magnitude(d, scale + 1)
  {
    assert (d + [ZERO])[..|d|] == d;
  }

  lemma {:induction false} TrailingZeros(d: Text, k: nat, scale: int)
    requires Digits(d)
    ensures Digits(d + Zeros(k)) && Magnitude(d + Zeros(k), scale) == Magnitude(d, scale + k)
  {
    if k == 0 {
      assert d + Zeros(k) == d;
    } else {
      TrailingZeros(d, k - 1, scale + 1);
      TrailingZero(d + Zeros(k - 1), scale);
      assert d + Zeros(k) == d + Zeros(k - 1) + [ZERO];
    }
  }

  lemma {:induction false} MagnitudeRStrip(d: Text, scale: int)
    requires Digits(d)
    ensures Digits(RStrip(d)) && Magnitude(d, scale) == Magnitude(RStrip(d), scale + (|d| - |RStrip(d)|))
  {
    if d != [] && d[|d| - 1] == ZERO {
      var e := d[..|d| - 1];
      MagnitudeRStrip(e, scale + 1);
      TrailingZero(e, scale);
      assert e + [ZERO] == d;
    }
  }

  // ----- A positive rational has one normal form

  lemma {:induction false} NatPositive(d: Text)
    requires Digits(d) && d != [] && d[0] != ZERO
    ensures Nat(d) > 0
  {
    if |d| > 1 { NatPositive(d[..|d| - 1]); }
  }

  lemma {:induction false} NatInjective(a: Text, b: Text)
    requires Digits(a) && (a != [] ==> a[0] != ZERO) && Digits(b) && (b != [] ==> b[0] != ZERO)
    requires Nat(a) == Nat(b)
    ensures a == b
  {
    if a == [] {
      if b != [] { NatPositive(b); }
    } else {
      NatPositive(a);
      var m, n := |a| - 1, |b| - 1;
      assert Nat(a[..m]) == Nat(b[..n]) && a[m] == b[n];
      NatInjective(a[..m], b[..n]);
      assert a == a[..m] + [a[m]] && b == b[..n] + [b[n]];
    }
  }

  lemma NormalUniqueOrdered(a: Text, p: int, b: Text, q: int)
    requires IsNormal(Normal(false, a, p)) && IsNormal(Normal(false, b, q)) && p <= q
    requires Magnitude(a, p) == Magnitude(b, q)
    ensures a == b && p == q
  {
    var padded := b + Zeros(q - p);
    TrailingZeros(b, q - p, p);
    SameScale(a, padded, p);
  }

  lemma SameScale(a: Text, b: Text, scale: int)
    requires Digits(a) && (a != [] ==> a[0] != ZERO) && Digits(b) && (b != [] ==> b[0] != ZERO)
    requires Magnitude(a, scale) == Magnitude(b, scale)
    ensures a == b
  {
    assert Nat(a) as real == Nat(b) as real by {
      MagnitudeIsProduct(a, scale);
      MagnitudeIsProduct(b, scale);
      PowerPositive(scale);
      CancelFactor(Nat(a) as real, Nat(b) as real, Power(scale));
    }
    NatInjective(a, b);
  }

  lemma CancelFactor(x: real, y: real, w: real)
    requires w > 0.0 && Product(x, w) == Product(y, w)
    ensures x == y
  {
    assert (x - y) * w == 0.0;
  }

  /** Equal non-zero rationals have equal normal forms. */
  lemma NormalUnique(m: Normal, n: Normal)
    requires IsNormal(m) && IsNormal(n) && NormalValue(m) == NormalValue(n)
    ensures m == n
  {
    NormalNonZero(m);
    NormalNonZero(n);
    if m.scale <= n.scale {
      NormalUniqueOrdered(m.digits, m.scale, n.digits, n.scale);
    } else {
      NormalUniqueOrdered(n.digits, n.scale, m.digits, m.scale);
    }
  }

  lemma NormalNonZero(n: Normal)
    requires IsNormal(n)
    ensures Magnitude(n.digits, n.scale) > 0.0
  {
    NatPositive(n.digits);
    PowerPositive(n.scale);
    MagnitudeIsProduct(n.digits, n.scale);
    PositiveProduct(Nat(n.digits) as real, Power(n.scale));
  }

  lemma PositiveProduct(x: real, y: real)
    requires x > 0.0 && y > 0.0
    ensures Product(x, y) > 0.0
  {
  }

  // ----- Canonicalisation preserves the value

  lemma ExponentWithinLimitIsExact(e: Exponent)
    requires IsExponent(e) && ExponentWithinLimit(e).Some?
    ensures ExponentWithinLimit(e).value == ExponentOf(e)
  {
    if e.Exponent? { LStripIsExact(e.digits, 0); }
  }

  lemma NormalizeIsExact(s: Spelling)
    requires WellSpelled(s)
    ensures match Normalize(s, ExponentOf(s.exponent))
      case None => Value(s) == 0.0
      case Some(n) => NormalValue(n) == Value(s)
  {
    hide Nat, Power, Times, LStrip, RStrip;
    var all := s.integer + s.fraction;
    var scale := ExponentOf(s.exponent) - |s.fraction|;
    LStripIsExact(all, scale);
    MagnitudeRStrip(LStrip(all), scale);
  }

  /** The spelling that `Render` writes. */
  function Rendered(n: Normal): (s: Spelling)
    requires IsNormal(n)
    ensures WellSpelled(s)
  {
    var d := n.digits;
    var position := |d| + n.scale;
    if Scientific(n) then
      var e := ScientificExponent(n);
      Spelling(n.negative, [d[0]], d[1..], Exponent(e < 0, NatText(if e < 0 then -e else e)))
    else if position <= 0 then Spelling(n.negative, [ZERO], Zeros(-position) + d, NoExponent)
    else if position >= |d| then Spelling(n.negative, d + Zeros(position - |d|), [], NoExponent)
    else Spelling(n.negative, d[..position], d[position..], NoExponent)
  }

  lemma RenderSpells(n: Normal)
    requires IsNormal(n)
    ensures Render(n) == Spell(Rendered(n))
  {
    hide NatText, Nat, Zeros;
    var d, s := n.digits, Rendered(n);
    var sign := if n.negative then [MINUS] else [];
    var position := |d| + n.scale;
    if Scientific(n) {
      RenderScientific(n);
    } else if position <= 0 {
      Regroup(sign, [ZERO], [DOT], Zeros(-position) + d);
      assert [ZERO, DOT] + Zeros(-position) + d == [ZERO] + [DOT] + (Zeros(-position) + d);
    } else if position >= |d| {
      RegroupWhole(sign, d + Zeros(position - |d|));
    } else {
      Regroup(sign, d[..position], [DOT], d[position..]);
    }
  }

  lemma Regroup(a: Text, b: Text, c: Text, d: Text)
    ensures a + (b + c + d) == a + b + (c + d) + []
  {
  }

  lemma RegroupWhole(a: Text, b: Text)
    ensures a + b == a + b + [] + []
  {
  }

  lemma RenderScientific(n: Normal)
    requires IsNormal(n) && Scientific(n)
    ensures Render(n) == Spell(Rendered(n))
  {
    var d, s := n.digits, Rendered(n);
    var sign := if n.negative then [MINUS] else [];
    var e := ScientificExponent(n);
    var exponent := [LOWER_E] + IntText(e);
    assert SpellExponent(s.exponent) == exponent by {
      if e < 0 { RegroupExponent([LOWER_E], [MINUS], NatText(-e)); } else { RegroupExponent([LOWER_E], [], NatText(e)); }
    }
    if |d| > 1 {
      RegroupScientific(sign, [d[0]], [DOT], d[1..], [LOWER_E], IntText(e));
    } else {
      RegroupScientific(sign, [d[0]], [], [], [LOWER_E], IntText(e));
    }
  }

  lemma RegroupExponent(a: Text, b: Text, c: Text)
    ensures a + b + c == a + (b + c)
  {
  }

  lemma RegroupScientific(a: Text, b: Text, c: Text, d: Text, e: Text, f: Text)
    ensures a + (b + c + d) + e + f == a + b + (c + d) + (e + f)
    ensures a + b + e + f == a + b + [] + (e + f)
  {
  }

  lemma RenderedIsExact(n: Normal)
    requires IsNormal(n)
    ensures Value(Rendered(n)) == NormalValue(n)
  {
    if Scientific(n) { ScientificIsExact(n); } else { PlainIsExact(n); }
  }

  lemma ScientificIsExact(n: Normal)
    requires IsNormal(n) && Scientific(n)
    ensures Value(Rendered(n)) == NormalValue(n)
  {
    var s := Rendered(n);
    assert s.integer + s.fraction == n.digits;
    assert ExponentOf(s.exponent) == ScientificExponent(n);
  }

  lemma PlainIsExact(n: Normal)
    requires IsNormal(n) && !Scientific(n)
    ensures Value(Rendered(n)) == NormalValue(n)
  {
    var d, s := n.digits, Rendered(n);
    var position := |d| + n.scale;
    if position <= 0 {
      assert Magnitude([ZERO] + (Zeros(-position) + d), n.scale) == Magnitude(d, n.scale) by {
        LeadingZeros(-position, d, n.scale);
        LeadingZero(Zeros(-position) + d, n.scale);
      }
    } else if position >= |d| {
      assert s.integer + s.fraction == d + Zeros(n.scale);
      assert Magnitude(d + Zeros(n.scale), 0) == Magnitude(d, n.scale) by { TrailingZeros(d, n.scale, 0); }
    } else {
      assert s.integer + s.fraction == d;
    }
  }

  /** What a text denotes, if it is a number. */
  function Denotes(t: Text): Option<real> {
    match ScanNumber(t)
    case None => None
    case Some((s, rest)) => if rest == [] then Some(Value(s)) else None
  }

  lemma ZeroText()
    ensures Denotes([ZERO]) == Some(0.0) && Canonical([ZERO]) == Some([ZERO])
    ensures ScanNumber([ZERO]) == Some((Spelling(false, [ZERO], [], NoExponent), []))
  {
    var zero := Spelling(false, [ZERO], [], NoExponent);
    ScanSpelled(zero, []);
    assert Spell(zero) + [] == [ZERO] == zero.integer + zero.fraction;
    assert LStrip([ZERO]) == LStrip([]);
    LeadingZero([], 0);
    assert [ZERO] + [] == [ZERO];
  }

  /** `canonical_number` preserves the exact rational value. */
  lemma CanonicalPreservesValue(t: Text)
    requires Canonical(t).Some?
    ensures Denotes(t).Some? && Denotes(Canonical(t).value) == Denotes(t)
  {
    var s := ScanNumber(t).value.0;
    ExponentWithinLimitIsExact(s.exponent);
    NormalizeIsExact(s);
    match Normalize(s, ExponentOf(s.exponent))
    case None => ZeroText();
    case Some(n) =>
      RenderSpells(n);
      ScanSpelled(Rendered(n), []);
      assert Render(n) + [] == Render(n);
      RenderedIsExact(n);
  }

  /** Two accepted spellings get the same text exactly when they denote the same rational. */
  lemma CanonicalIffEqual(t: Text, u: Text)
    requires Canonical(t).Some? && Canonical(u).Some?
    ensures Canonical(t) == Canonical(u) <==> Denotes(t) == Denotes(u)
  {
    CanonicalPreservesValue(t);
    CanonicalPreservesValue(u);
    if Denotes(t) == Denotes(u) {
      var s, v := ScanNumber(t).value.0, ScanNumber(u).value.0;
      ExponentWithinLimitIsExact(s.exponent);
      ExponentWithinLimitIsExact(v.exponent);
      SameNormal(s, v);
    }
  }

  lemma SameNormal(s: Spelling, v: Spelling)
    requires WellSpelled(s) && WellSpelled(v) && Value(s) == Value(v)
    ensures Normalize(s, ExponentOf(s.exponent)) == Normalize(v, ExponentOf(v.exponent))
  {
    NormalizeIsExact(s);
    NormalizeIsExact(v);
    var m, n := Normalize(s, ExponentOf(s.exponent)), Normalize(v, ExponentOf(v.exponent));
    if m.Some? { NormalNonZero(m.value); }
    if n.Some? { NormalNonZero(n.value); }
    if m.Some? && n.Some? { NormalUnique(m.value, n.value); }
  }

  // ----- Canonical texts are fixed points

  lemma {:induction false} NatTextLength(n: nat, k: nat)
    requires n < TenTo(k) && k > 0
    ensures |NatText(n)| <= k
  {
    if n >= 10 { NatTextLength(n / 10, k - 1); }
  }

  function TenTo(k: nat): nat {
    if k == 0 then 1 else 10 * TenTo(k - 1)
  }

  lemma LimitOnNatText(m: nat, negative: bool)
    ensures ExponentWithinLimit(Exponent(negative, NatText(m))).Some? <==> m <= MAX_EXPONENT
  {
    var d := NatText(m);
    if m == 0 {
      assert LStrip(d) == LStrip([]);
    } else {
      assert LStrip(d) == d;
      if m <= MAX_EXPONENT {
        assert TenTo(7) == 10_000_000;
        NatTextLength(m, 7);
      }
    }
  }

  /** Canonicalising a canonical text returns it, unless its own exponent is beyond the limit; then it is rejected. */
  lemma CanonicalIsFixedPoint(t: Text)
    requires Canonical(t).Some?
    ensures var u := Canonical(t).value;
      && ScanNumber(u).Some?
      && var e := ExponentOf(ScanNumber(u).value.0.exponent);
         Canonical(u) == if -MAX_EXPONENT <= e <= MAX_EXPONENT then Some(u) else None
  {
    hide Render, Magnitude, Nat, LStrip, RStrip, Rendered, ScanInteger, ScanFraction, ScanExponent, Spell;
    var s := ScanNumber(t).value.0;
    var u := Canonical(t).value;
    ExponentWithinLimitIsExact(s.exponent);
    NormalizeIsExact(s);
    match Normalize(s, ExponentOf(s.exponent))
    case None => ZeroText();
    case Some(n) =>
      var r := Rendered(n);
      RenderSpells(n);
      assert u == Spell(r) + [];
      ScanSpelled(r, []);
      RenderedIsExact(n);
      SameNormal(s, r);
      if r.exponent.Exponent? { LimitOnNatText(Nat(r.exponent.digits), r.exponent.negative); NatTextOfNat(n); }
      if ExponentWithinLimit(r.exponent).Some? { ExponentWithinLimitIsExact(r.exponent); }
  }

  lemma NatTextOfNat(n: Normal)
    requires IsNormal(n) && Rendered(n).exponent.Exponent?
    ensures Rendered(n).exponent.digits == NatText(Nat(Rendered(n).exponent.digits))
  {
  }
}
