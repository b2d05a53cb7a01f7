/** The canonical form of a rational: which of its spellings `canonical_number` writes. */
module JsonCanonicalForm {
  import opened Options
  import opened Unicode
  import opened JsonNumber
  import opened JsonNumberMeaning

  function Absolute(x: real): real {
    if x < 0.0 then -x else x
  }

  /** `s` spells `x` canonically: no sign on zero, no zeros at the end of the fraction, an exponent only below 10^-6
      and from 10^21 on, and then one non-zero digit before the point and no leading zero in the exponent. */
  ghost predicate InForm(s: Spelling, x: real) {
    && WellSpelled(s) && Value(s) == x && (s.negative <==> x < 0.0)
    && (s.fraction != [] ==> s.fraction[|s.fraction| - 1] != ZERO)
    && (s.exponent == NoExponent <==> x == 0.0 || Power(-6) <= Absolute(x) < Power(21))
    && (s.exponent.Exponent? ==>
          && |s.integer| == 1 && s.integer[0] != ZERO
          && (s.exponent.digits[0] == ZERO ==> !s.exponent.negative && s.exponent.digits == [ZERO]))
  }

  // ----- The leading digit tells the size

  lemma {:induction false} PowerMonotone(m: int, n: int)
    requires m <= n
    ensures Power(m) <= Power(n) && (m < n ==> Power(m) < Power(n))
    decreases n - m
  {
    if m < n {
      PowerMonotone(m, n - 1);
      PowerStep(n - 1);
      PowerPositive(n - 1);
    }
  }

  /** Digits that start with a non-zero one lie between two powers of ten. */
  lemma {:induction false} MagnitudeBounds(d: Text, scale: int)
    requires Digits(d) && d != [] && d[0] != ZERO
    ensures Power(scale + |d| - 1) <= Magnitude(d, scale) <= Power(scale + |d|) - Power(scale)
  {
    hide Power, Times;
    var e, k := d[..|d| - 1], d[|d| - 1] - ZERO;
    PowerStep(scale);
    PowerPositive(scale);
    DigitBounds(k, Power(scale));
    if e == [] {
      assert Magnitude(e, scale + 1) == 0.0;
    } else {
      MagnitudeBounds(e, scale + 1);
    }
  }

  lemma DigitBounds(k: nat, x: real)
    requires k <= 9 && x >= 0.0
    ensures 0.0 <= Times(k, x) <= 9.0 * x && (k >= 1 ==> x <= Times(k, x))
  {
    if k > 0 { DigitBounds(k - 1, x); }
    NineTimes(k, x);
    TimesIsProduct(9, x);
  }

  lemma {:induction false} NineTimes(k: nat, x: real)
    requires k <= 9 && x >= 0.0
    ensures Times(k, x) <= Times(9, x)
    decreases 9 - k
  {
    if k < 9 { NineTimes(k + 1, x); }
  }

  lemma NormalSize(n: Normal)
    requires IsNormal(n)
    ensures var x := Absolute(NormalValue(n)); Scientific(n) <==> x < Power(-6) || x >= Power(21)
  {
    hide Power, Magnitude;
    var e := ScientificExponent(n);
    var x := Magnitude(n.digits, n.scale);
    MagnitudeBounds(n.digits, n.scale);
    PowerPositive(n.scale);
    PowerPositive(e);
    assert Absolute(NormalValue(n)) == x;
    if e >= 21 { PowerMonotone(21, e); PowerMonotone(-6, 21); } else { PowerMonotone(e + 1, 21); }
    if e <= -7 { PowerMonotone(e + 1, -6); } else { PowerMonotone(-6, e); }
  }

  // ----- What is written is in form

  lemma {:induction false} LastOf(z: Text, d: Text)
    requires d != []
    ensures (z + d)[|z + d| - 1] == d[|d| - 1]
  {
  }

  lemma RenderedInForm(n: Normal)
    requires IsNormal(n)
    ensures InForm(Rendered(n), NormalValue(n))
  {
    hide Power, Magnitude, Nat, NatText;
    var s, d := Rendered(n), n.digits;
    RenderedIsExact(n);
    NormalNonZero(n);
    NormalSize(n);
    var position := |d| + n.scale;
    if !Scientific(n) && position <= 0 { LastOf(Zeros(-position), d); }
  }

  lemma ZeroInForm()
    ensures InForm(Spelling(false, [ZERO], [], NoExponent), 0.0)
  {
    LeadingZero([], 0);
    assert [ZERO] + [] == [ZERO];
  }

  /** The canonical text of anything that means `x` is a spelling of `x` in form. */
  lemma CanonicalInForm(t: Text, x: real) returns (s: Spelling)
    requires Canonical(t).Some? && Means(t, x)
    ensures InForm(s, x) && Canonical(t).value == Written(s, PLAIN)
  {
    hide InForm, Render, Normalize, Value, NormalValue, Rendered;
    MeansIffDenotes(t, x);
    var spelled := ScanNumber(t).value.0;
    ExponentWithinLimitIsExact(spelled.exponent);
    NormalizeIsExact(spelled);
    match Normalize(spelled, ExponentOf(spelled.exponent))
    case None =>
      s := Spelling(false, [ZERO], [], NoExponent);
      ZeroInForm();
      assert Written(s, PLAIN) == [ZERO];
    case Some(n) =>
      s := Rendered(n);
      RenderedInForm(n);
      RenderSpells(n);
      PlainIsSpelled(s);
  }

  // ----- And there is only one

  lemma {:induction false} LStripPads(d: Text)
    ensures d == Zeros(|d| - |LStrip(d)|) + LStrip(d)
  {
    if d != [] && d[0] == ZERO {
      LStripPads(d[1..]);
      assert d == [ZERO] + d[1..];
      assert Zeros(|d| - |LStrip(d)|) == [ZERO] + Zeros(|d| - 1 - |LStrip(d)|);
    }
  }

  lemma {:induction false} RStripPads(d: Text)
    ensures d == RStrip(d) + Zeros(|d| - |RStrip(d)|)
  {
    if d != [] && d[|d| - 1] == ZERO {
      RStripPads(d[..|d| - 1]);
      assert d == d[..|d| - 1] + [ZERO];
      assert Zeros(|d| - |RStrip(d)|) == Zeros(|d| - 1 - |RStrip(d)|) + [ZERO];
    }
  }

  /** A spelling of zero in form is `0`. */
  lemma FormOfZero(s: Spelling)
    requires InForm(s, 0.0)
    ensures s == Spelling(false, [ZERO], [], NoExponent)
  {
    hide Power, Magnitude, Nat;
    NormalizeIsExact(s);
    var n := Normalize(s, ExponentOf(s.exponent));
    if n.Some? { NormalNonZero(n.value); }
    var all := s.integer + s.fraction;
    if s.fraction != [] { LastOf(s.integer, s.fraction); }
    assert all[0] == s.integer[0];
    LStripPads(all);
    assert all == Zeros(|all|);
  }

  /** A spelling in form is the one that is rendered from its digits and power of ten. */
  lemma FormIsRendered(s: Spelling, x: real, n: Normal)
    requires InForm(s, x) && Normalize(s, ExponentOf(s.exponent)) == Some(n)
    ensures s == Rendered(n)
  {
    hide Power, Magnitude, Nat, NatText, Value;
    NormalizeIsExact(s);
    NormalNonZero(n);
    NormalSize(n);
    if s.exponent.Exponent? { ScientificIsRendered(s, n); }
    else if s.fraction == [] { WholeIsRendered(s, n); }
    else { FractionIsRendered(s, n); }
  }

  lemma ScientificIsRendered(s: Spelling, n: Normal)
    requires WellSpelled(s) && s.exponent.Exponent? && |s.integer| == 1 && s.integer[0] != ZERO
    requires s.fraction != [] ==> s.fraction[|s.fraction| - 1] != ZERO
    requires s.exponent.digits[0] == ZERO ==> !s.exponent.negative && s.exponent.digits == [ZERO]
    requires Normalize(s, ExponentOf(s.exponent)) == Some(n) && Scientific(n)
    ensures s == Rendered(n)
  {
    hide Power, Magnitude;
    var all := s.integer + s.fraction;
    assert all[0] == s.integer[0] && LStrip(all) == all;
    assert all[|all| - 1] != ZERO && RStrip(all) == all;
    assert ScientificExponent(n) == ExponentOf(s.exponent);
    assert s.integer == [all[0]] && s.fraction == all[1..];
    ExponentIsText(s.exponent.negative, s.exponent.digits);
  }

  lemma ExponentIsText(negative: bool, d: Text)
    requires Digits(d) && d != [] && (d[0] == ZERO ==> !negative && d == [ZERO])
    ensures d == NatText(Nat(d)) && (negative ==> Nat(d) > 0)
  {
    if d[0] != ZERO {
      NatPositive(d);
      NatInjective(d, NatText(Nat(d)));
    } else {
      assert d[..0] == [];
    }
  }

  lemma LStripZero()
    ensures LStrip([ZERO]) == []
  {
    assert [ZERO][1..] == [] && LStrip([]) == [];
  }

  lemma WholeIsRendered(s: Spelling, n: Normal)
    requires WellSpelled(s) && s.exponent == NoExponent && s.fraction == []
    requires Normalize(s, 0) == Some(n) && !Scientific(n)
    ensures s == Rendered(n)
  {
    var d := s.integer;
    assert d + s.fraction == d;
    LStripZero();
    assert LStrip(d) == d;
    RStripPads(d);
  }

  lemma FractionIsRendered(s: Spelling, n: Normal)
    requires WellSpelled(s) && s.exponent == NoExponent && s.fraction != [] && s.fraction[|s.fraction| - 1] != ZERO
    requires Normalize(s, 0) == Some(n) && !Scientific(n)
    ensures s == Rendered(n)
  {
    hide Nat, NatText, Magnitude;
    var all := s.integer + s.fraction;
    LastOf(s.integer, s.fraction);
    StripKeepsEnd(all);
    assert n == Normal(s.negative, LStrip(all), -|s.fraction|);
    hide LStrip, RStrip;
    if s.integer[0] != ZERO {
      NothingToStrip(all);
      assert all[..|s.integer|] == s.integer && all[|s.integer|..] == s.fraction;
    } else {
      assert s.integer == [ZERO];
      StripLeading(s.fraction);
      LStripPads(s.fraction);
    }
  }

  lemma NothingToStrip(d: Text)
    requires d != [] && d[0] != ZERO
    ensures LStrip(d) == d
  {
  }

  lemma StripLeading(d: Text)
    ensures LStrip([ZERO] + d) == LStrip(d)
  {
    assert ([ZERO] + d)[1..] == d;
  }

  lemma StripKeepsEnd(d: Text)
    requires d != [] && d[|d| - 1] != ZERO
    ensures LStrip(d) != [] && RStrip(LStrip(d)) == LStrip(d)
  {
    LStripPads(d);
    if LStrip(d) != [] { LastOf(Zeros(|d| - |LStrip(d)|), LStrip(d)); }
  }

  /** Every rational has at most one spelling in form; with `CanonicalInForm`, `canonical_number` returns exactly it. */
  lemma FormIsUnique(s: Spelling, r: Spelling, x: real)
    requires InForm(s, x) && InForm(r, x)
    ensures s == r
  {
    hide InForm, Rendered, Normalize, Power, Magnitude;
    if x == 0.0 {
      FormOfZero(s);
      FormOfZero(r);
    } else {
      NonZeroNormal(s, x);
      NonZeroNormal(r, x);
      SameNormal(s, r);
      var n := Normalize(s, ExponentOf(s.exponent)).value;
      FormIsRendered(s, x, n);
      FormIsRendered(r, x, n);
    }
  }

  lemma NonZeroNormal(s: Spelling, x: real)
    requires InForm(s, x) && x != 0.0
    ensures WellSpelled(s) && Value(s) == x && Normalize(s, ExponentOf(s.exponent)).Some?
  {
    NormalizeIsExact(s);
  }
}
