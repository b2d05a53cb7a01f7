/** `canonical_number` as the program runs it: one index moving over the text. */
module JsonCanonical {
  import opened Options
  import opened Unicode
  import opened JsonNumber
  import opened JsonNumberMeaning

  method SkipDigits(text: Text, start: nat) returns (end: nat)
    requires start <= |text|
    ensures end == start + DigitCount(text[start..]) && start <= end <= |text|
    ensures text[start..][..end - start] == text[start..end] && text[start..][end - start..] == text[end..]
  {
    end := start;
    while end < |text| && IsDigit(text[end])
      invariant start <= end <= |text|
      invariant DigitCount(text[start..]) == end - start + DigitCount(text[end..])
    {
      assert text[end..][1..] == text[end + 1..];
      end := end + 1;
    }
  }

  /** The integer part from `start` on. */
  method ScanIntegerAt(text: Text, start: nat) returns (ok: bool, end: nat)
    requires start < |text|
    ensures ok <==> ScanInteger(text[start..]).Some?
    ensures ok ==> start < end <= |text| && ScanInteger(text[start..]) == Some((text[start..end], text[end..]))
  {
    var u := text[start..];
    end := start;
    if text[start] == ZERO {
      end := start + 1;
      assert u[1..] == text[end..];
      assert u[..1] == [ZERO] == text[start..end];
      return !(end < |text| && IsDigit(text[end])), end;
    } else if 0x31 <= text[start] <= 0x39 {
      assert u[1..] == text[start + 1..];
      end := SkipDigits(text, start + 1);
      assert u[..end - start] == text[start..end] && u[end - start..] == text[end..];
      return true, end;
    } else {
      return false, end;
    }
  }

  method ScanFractionAt(text: Text, start: nat) returns (ok: bool, fraction: Text, end: nat)
    requires start <= |text|
    ensures ok <==> ScanFraction(text[start..]).Some?
    ensures ok ==> start <= end <= |text| && ScanFraction(text[start..]) == Some((fraction, text[end..]))
  {
    fraction, end := [], start;
    if start < |text| && text[start] == DOT {
      assert text[start..][1..] == text[start + 1..];
      end := SkipDigits(text, start + 1);
      if end == start + 1 { return false, fraction, end; }
      fraction := text[start + 1..end];
    }
    ok := true;
  }

  method ScanExponentAt(text: Text, start: nat) returns (ok: bool, exponent: Exponent, end: nat)
    requires start <= |text|
    ensures ok <==> ScanExponent(text[start..]).Some?
    ensures ok ==> start <= end <= |text| && ScanExponent(text[start..]) == Some((exponent, text[end..]))
  {
    exponent, end := NoExponent, start;
    if start < |text| && (text[start] == LOWER_E || text[start] == UPPER_E) {
      var index := start + 1;
      assert text[start..][1..] == text[index..];
      var negative := false;
      if index < |text| && (text[index] == PLUS || text[index] == MINUS) {
        negative := text[index] == MINUS;
        assert text[index..][1..] == text[index + 1..];
        index := index + 1;
      }
      end := SkipDigits(text, index);
      if end == index { return false, exponent, end; }
      exponent := Exponent(negative, text[index..end]);
    }
    ok := true;
  }

  method CanonicalNumber(text: Text) returns (r: Option<Text>)
    ensures r == Canonical(text)
    ensures r.Some? ==> SameMeaning(text, r.value)
  {
    hide Means, SameMeaning;
    if Canonical(text).Some? { CanonicalPreservesMeaning(text); }
    if text == [] { return None; }
    var index := 0;
    var negative := false;
    assert text[0..] == text;
    if text[index] == MINUS {
      negative := true;
      index := 1;
      if index == |text| { return None; }
    }
    var intStart := index;
    var ok, intEnd := ScanIntegerAt(text, intStart);
    if !ok { return None; }
    var integer := text[intStart..intEnd];
    var fraction, exponent;
    ok, fraction, index := ScanFractionAt(text, intEnd);
    if !ok { return None; }
    ok, exponent, index := ScanExponentAt(text, index);
    if !ok { return None; }
    assert ScanNumber(text) == Some((Spelling(negative, integer, fraction, exponent), text[index..]));
    var power := CheckedExponent(exponent);
    if power.None? || index != |text| { return None; }
    r := CanonicalText(Spelling(negative, integer, fraction, exponent), power.value);
  }

  method CheckedExponent(exponent: Exponent) returns (power: Option<int>)
    requires IsExponent(exponent)
    ensures power == ExponentWithinLimit(exponent)
  {
    if exponent.NoExponent? { return Some(0); }
    var digits := if LStrip(exponent.digits) == [] then [ZERO] else LStrip(exponent.digits);
    if |digits| > 9 { return None; }
    var p := Nat(digits);
    if p > MAX_EXPONENT { return None; }
    return Some(if exponent.negative then 0 - p else p);
  }

  method CanonicalText(s: Spelling, power: int) returns (r: Option<Text>)
    requires WellSpelled(s)
    ensures r == match Normalize(s, power) case None => Some([ZERO]) case Some(n) => Some(Render(n))
  {
    hide Nat, Render;
    var digits := LStrip(s.integer + s.fraction);
    if digits == [] { return Some([ZERO]); }
    var scale := power - |s.fraction|;
    var kept := RStrip(digits);
    KeptIsNormal(digits);
    var trailing := |digits| - |kept|;
    if trailing > 0 {
      assert digits[..|digits| - trailing] == kept;
      digits := digits[..|digits| - trailing];
      scale := scale + trailing;
    }
    assert digits == kept;
    r := Some(Render(Normal(s.negative, digits, scale)));
  }
}
