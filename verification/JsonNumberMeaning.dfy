/** What number texts mean, apart from any scanner: a grammar that writes every spelling in every style, the rational
    of a spelling, and the one canonical form of a rational. */
module JsonNumberMeaning {
  import opened Options
  import opened Unicode
  import opened JsonNumber

  // ----- Every way to write a spelling (section 6 of RFC 8259)

  /** `E` instead of `e`, and an explicit plus sign. */
  datatype Style = Style(upper: bool, plus: bool)

  function Written(s: Spelling, style: Style): Text {
    (if s.negative then [MINUS] else []) + s.integer + SpellFraction(s.fraction) + WrittenExponent(s.exponent, style)
  }

  function WrittenExponent(e: Exponent, style: Style): Text {
    match e
    case NoExponent => []
    case Exponent(negative, digits) =>
      [if style.upper then UPPER_E else LOWER_E] + ExponentSign(negative, style) + digits
  }

  function ExponentSign(negative: bool, style: Style): Text {
    if negative then [MINUS] else if style.plus then [PLUS] else []
  }

  const PLAIN := Style(false, false)

  /** `t` is a number text whose value is `x`. */
  ghost predicate Means(t: Text, x: real) {
    exists s, style :: WellSpelled(s) && t == Written(s, style) && Value(s) == x
  }

  lemma PlainIsSpelled(s: Spelling)
    ensures Written(s, PLAIN) == Spell(s)
  {
  }

  lemma ScanExponentWritten(e: Exponent, style: Style, t: Text)
    requires IsExponent(e) && Delimited(t)
    ensures ScanExponent(WrittenExponent(e, style) + t) == Some((e, t))
  {
    match e
    case NoExponent => assert WrittenExponent(e, style) + t == t;
    case Exponent(negative, d) =>
      var mark := if style.upper then UPPER_E else LOWER_E;
      Regroup4([mark], ExponentSign(negative, style), d, t);
      ScanSigned(mark, ExponentSign(negative, style), d, t);
  }

  lemma Regroup4(a: Text, b: Text, c: Text, d: Text)
    ensures a + b + c + d == a + (b + (c + d))
  {
  }

  lemma ScanSigned(mark: Code, sign: Text, d: Text, t: Text)
    requires mark in {LOWER_E, UPPER_E} && sign in [[], [PLUS], [MINUS]]
    requires Digits(d) && d != [] && (t != [] ==> !IsDigit(t[0]))
    ensures ScanExponent([mark] + (sign + (d + t))) == Some((Exponent(sign == [MINUS], d), t))
  {
    hide DigitCount;
    var y := d + t;
    var x := sign + y;
    var w := [mark] + x;
    assert w[1..] == x;
    assert y[0] == d[0] && IsDigit(y[0]);
    if sign == [] { assert x == y; } else { assert x[0] == sign[0] && x[1..] == y; }
    DigitCountSkips(d, t);
    assert y[..|d|] == d && y[|d|..] == t;
  }

  /** Scanning a number in any style gives its parts and what follows. */
  lemma ScanWritten(s: Spelling, style: Style, t: Text)
    requires WellSpelled(s) && Delimited(t)
    ensures ScanNumber(Written(s, style) + t) == Some((s, t))
  {
    hide ScanInteger, ScanFraction, ScanExponent, SpellFraction;
    var sign := if s.negative then [MINUS] else [];
    var w := WrittenExponent(s.exponent, style) + t;
    var v := SpellFraction(s.fraction) + w;
    var u := s.integer + v;
    var all := Written(s, style) + t;
    Regroup5(sign, s.integer, SpellFraction(s.fraction), WrittenExponent(s.exponent, style), t);
    assert (if s.negative then all[1..] else all) == u;
    assert u[0] == s.integer[0];
    assert w != [] ==> !IsDigit(w[0]) && w[0] != DOT by { if s.exponent.NoExponent? { assert w == t; } }
    assert v != [] ==> !IsDigit(v[0]) by { FractionStart(s.fraction, w); }
    ScanIntegerSpelled(s.integer, v);
    ScanFractionSpelled(s.fraction, w);
    ScanExponentWritten(s.exponent, style, t);
  }

  lemma FractionStart(d: Text, w: Text)
    requires w != [] ==> !IsDigit(w[0])
    ensures var v := SpellFraction(d) + w; v != [] ==> !IsDigit(v[0])
  {
    if d == [] { assert SpellFraction(d) + w == w; }
  }

  lemma Regroup5(a: Text, b: Text, c: Text, d: Text, e: Text)
    ensures a + b + c + d + e == a + (b + (c + (d + e)))
  {
  }

  lemma ExponentIsWritten(w: Text) returns (style: Style)
    requires ScanExponent(w).Some?
    ensures var (e, rest) := ScanExponent(w).value; w == WrittenExponent(e, style) + rest
  {
    hide DigitCount, Digits;
    style := PLAIN;
    if w != [] && (w[0] == LOWER_E || w[0] == UPPER_E) {
      var x := w[1..];
      var signed := x != [] && (x[0] == PLUS || x[0] == MINUS);
      var y := if signed then x[1..] else x;
      var n := DigitCount(y);
      style := Style(w[0] == UPPER_E, signed && x[0] == PLUS);
      var sign := ExponentSign(signed && x[0] == MINUS, style);
      assert x == sign + y;
      Cut(w, 1);
      Cut(y, n);
      Regroup4([w[0]], sign, y[..n], y[n..]);
    }
  }

  lemma Cut(t: Text, n: nat)
    requires n <= |t|
    ensures t == t[..n] + t[n..] && (n == 1 ==> t[..n] == [t[0]])
  {
  }

  /** And every text that scans was written in some style. */
  lemma ScannedIsWritten(t: Text) returns (style: Style)
    requires ScanNumber(t).Some?
    ensures var (s, rest) := ScanNumber(t).value; t == Written(s, style) + rest
  {
    hide ScanInteger, ScanFraction, ScanExponent;
    var s := ScanNumber(t).value.0;
    var u := if s.negative then t[1..] else t;
    var v := ScanInteger(u).value.1;
    var w := ScanFraction(v).value.1;
    var rest := ScanExponent(w).value.1;
    style := ExponentIsWritten(w);
    IntegerIsWritten(u);
    FractionIsWritten(v);
    var sign := if s.negative then [MINUS] else [];
    assert t == sign + u;
    Regroup5(sign, s.integer, SpellFraction(s.fraction), WrittenExponent(s.exponent, style), rest);
  }

  lemma IntegerIsWritten(u: Text)
    requires ScanInteger(u).Some?
    ensures var (d, rest) := ScanInteger(u).value; u == d + rest
  {
  }

  lemma FractionIsWritten(v: Text)
    requires ScanFraction(v).Some?
    ensures var (d, rest) := ScanFraction(v).value; v == SpellFraction(d) + rest
  {
  }

  // ----- The meaning of a text

  /** A text means `x` exactly when its scan consumes it and has that value; so it means at most one rational. */
  lemma MeansIffDenotes(t: Text, x: real)
    ensures Means(t, x) <==> Denotes(t) == Some(x)
  {
    hide ScanNumber, Written, Value;
    if Means(t, x) {
      var s, style :| WellSpelled(s) && t == Written(s, style) && Value(s) == x;
      ScanWritten(s, style, []);
      assert t + [] == t;
    }
    if Denotes(t) == Some(x) {
      var style := ScannedIsWritten(t);
      var s := ScanNumber(t).value.0;
      assert Written(s, style) + [] == Written(s, style);
    }
  }

  /** `canonical_number` accepts exactly the number texts whose exponent is at most 1,000,000 in magnitude. */
  lemma AcceptedIff(t: Text)
    ensures Canonical(t).Some? <==>
      exists s, style :: WellSpelled(s) && t == Written(s, style) && -1_000_000 <= ExponentOf(s.exponent) <= 1_000_000
  {
    hide ScanNumber, Written, Normalize, Render, ExponentWithinLimit, ExponentOf;
    if Canonical(t).Some? {
      var style := ScannedIsWritten(t);
      var s := ScanNumber(t).value.0;
      assert Written(s, style) + [] == Written(s, style);
      LimitIsExact(s.exponent);
    }
    if s, style :| WellSpelled(s) && t == Written(s, style) && -1_000_000 <= ExponentOf(s.exponent) <= 1_000_000 {
      ScanWritten(s, style, []);
      assert t + [] == t;
      LimitIsExact(s.exponent);
    }
  }

  /** The limits on the digits and on the value of an exponent are one limit on its value. */
  lemma LimitIsExact(e: Exponent)
    requires IsExponent(e)
    ensures ExponentWithinLimit(e).Some? <==> -1_000_000 <= ExponentOf(e) <= 1_000_000
  {
    match e
    case NoExponent =>
    case Exponent(negative, d) =>
      LStripIsExact(d, 0);
      var stripped := LStrip(d);
      if stripped == [] {
        assert Nat([ZERO]) == 0 by { assert [ZERO][..0] == []; }
      } else if |stripped| > 9 {
        NatIsLarge(stripped);
        assert TenTo(9) == 1_000_000_000;
        TenToGrows(9, |stripped| - 1);
      }
  }

  lemma {:induction false} NatIsLarge(d: Text)
    requires Digits(d) && d != [] && d[0] != ZERO
    ensures Nat(d) >= TenTo(|d| - 1)
  {
    if |d| > 1 { NatIsLarge(d[..|d| - 1]); } else { assert d[..0] == []; }
  }

  lemma {:induction false} TenToGrows(a: nat, b: nat)
    requires a <= b
    ensures TenTo(a) <= TenTo(b)
  {
    if a < b { TenToGrows(a, b - 1); }
  }

  /** `t` means a rational, and `u` means the same. */
  ghost predicate SameMeaning(t: Text, u: Text) {
    (exists x :: Means(t, x)) && forall x :: Means(t, x) <==> Means(u, x)
  }

  /** Every accepted text means one rational, and its canonical text means the same one. */
  lemma CanonicalPreservesMeaning(t: Text)
    requires Canonical(t).Some?
    ensures SameMeaning(t, Canonical(t).value)
    ensures forall x, y :: Means(t, x) && Means(t, y) ==> x == y
  {
    hide Canonical, Denotes;
    CanonicalPreservesValue(t);
    forall x ensures Means(t, x) <==> Denotes(t) == Some(x) { MeansIffDenotes(t, x); }
    forall x ensures Means(Canonical(t).value, x) <==> Denotes(Canonical(t).value) == Some(x) {
      MeansIffDenotes(Canonical(t).value, x);
    }
    assert Means(t, Denotes(t).value);
  }

  /** Two accepted texts get the same canonical text exactly when they mean the same rational. */
  lemma CanonicalIffSameMeaning(t: Text, u: Text, x: real)
    requires Canonical(t).Some? && Canonical(u).Some? && Means(t, x)
    ensures Canonical(t) == Canonical(u) <==> Means(u, x)
  {
    hide Canonical, Denotes;
    MeansIffDenotes(t, x);
    MeansIffDenotes(u, x);
    CanonicalIffEqual(t, u);
  }
}
