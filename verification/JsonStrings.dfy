/** The string parser reads exactly the pieces of the grammar, and the writer uses the shortest ones. */
module JsonStrings {
  import opened Options
  import opened Unicode
  import opened JsonValue
  import opened JsonParse
  import opened JsonGrammar

  lemma HexValueIff(c: Code, n: int)
    ensures HexFor(c, n) <==> HexValue(c) == Some(n)
  {
  }

  lemma Nibbles(u: int)
    requires 0 <= u < 0x10000
    ensures ((u / 4096 * 16 + u / 256 % 16) * 16 + u / 16 % 16) * 16 + u % 16 == u && 0 <= u / 4096 < 16
  {
  }

  lemma OfNibbles(a: int, b: int, c: int, d: int, u: int)
    requires 0 <= a < 16 && 0 <= b < 16 && 0 <= c < 16 && 0 <= d < 16 && u == ((a * 16 + b) * 16 + c) * 16 + d
    ensures 0 <= u < 0x10000 && u / 4096 == a && u / 256 % 16 == b && u / 16 % 16 == c && u % 16 == d
  {
  }

  lemma Hex4OfUnit(h: Text, u: int, rest: Text)
    requires UnitFor(h, u)
    ensures Hex4(h + rest) == Some(u)
  {
    hide HexFor, HexValue;
    HexValueIff(h[0], u / 4096);
    HexValueIff(h[1], u / 256 % 16);
    HexValueIff(h[2], u / 16 % 16);
    HexValueIff(h[3], u % 16);
    Nibbles(u);
  }

  lemma UnitOfHex4(t: Text)
    requires Hex4(t).Some?
    ensures UnitFor(t[..4], Hex4(t).value)
  {
    hide HexFor, HexValue;
    var a, b, c, d := HexValue(t[0]).value, HexValue(t[1]).value, HexValue(t[2]).value, HexValue(t[3]).value;
    HexValueIff(t[0], a);
    HexValueIff(t[1], b);
    HexValueIff(t[2], c);
    HexValueIff(t[3], d);
    OfNibbles(a, b, c, d, Hex4(t).value);
  }

  /** What follows a backslash: every escape of the grammar is read as its character. */
  lemma EscapeRead(p: Piece, c: Code, rest: Text)
    requires PieceFor(p, c) && !p.Raw?
    ensures PieceText(p)[0] == BACKSLASH && ParseEscape(PieceText(p)[1..] + rest) == Some((c, rest))
  {
    hide Hex4, UnitFor;
    match p
    case Short(letter) => assert ([letter] + rest)[1..] == rest; assert PieceText(p)[1..] == [letter];
    case Unit(h) =>
      assert |h| == 4 by { UnitLength(h, c); }
      assert PieceText(p)[1..] + rest == [LOWER_U] + (h + rest);
      assert ([LOWER_U] + (h + rest))[1..] == h + rest && (h + rest)[4..] == rest;
      Hex4OfUnit(h, c, rest);
    case Pair(high, low) => PairRead(high, low, c, rest);
  }

  lemma UnitLength(h: Text, u: int)
    requires UnitFor(h, u)
    ensures |h| == 4 && 0 <= u < 0x10000
  {
  }

  lemma PairRead(high: Text, low: Text, c: Code, rest: Text)
    requires PieceFor(Pair(high, low), c)
    ensures ParseEscape(PieceText(Pair(high, low))[1..] + rest) == Some((c, rest))
  {
    hide Hex4, UnitFor, PieceText, HighUnit, LowUnit;
    UnitLength(high, HighUnit(c));
    UnitLength(low, LowUnit(c));
    var t := PairLayout(high, low, rest);
    Hex4OfUnit(high, HighUnit(c), [BACKSLASH, LOWER_U] + (low + rest));
    Hex4OfUnit(low, LowUnit(c), rest);
    PairArithmetic(c);
    assert UnicodeEscape(t) == Some((c, rest));
    assert ([LOWER_U] + t)[1..] == t;
  }

  lemma PairLayout(high: Text, low: Text, rest: Text) returns (t: Text)
    requires |high| == |low| == 4
    ensures t == high + ([BACKSLASH, LOWER_U] + (low + rest)) && |t| >= 10
    ensures PieceText(Pair(high, low))[1..] + rest == [LOWER_U] + t
    ensures t[4] == BACKSLASH && t[5] == LOWER_U && t[6..] == low + rest && t[10..] == rest
  {
    t := high + ([BACKSLASH, LOWER_U] + (low + rest));
  }

  lemma PairArithmetic(c: int)
    requires 0x10000 <= c <= 0x10FFFF
    ensures 0xD800 <= HighUnit(c) <= 0xDBFF && 0xDC00 <= LowUnit(c) <= 0xDFFF
    ensures 0x10000 + (HighUnit(c) - 0xD800) * 0x400 + (LowUnit(c) - 0xDC00) == c
  {
  }

  lemma PairOfUnits(first: int, second: int, c: int)
    requires 0xD800 <= first <= 0xDBFF && 0xDC00 <= second <= 0xDFFF
    requires c == 0x10000 + (first - 0xD800) * 0x400 + (second - 0xDC00)
    ensures 0x10000 <= c <= 0x10FFFF && HighUnit(c) == first && LowUnit(c) == second
  {
  }

  /** And whatever is read after a backslash was an escape of the grammar. */
  lemma ReadEscape(t: Text) returns (p: Piece)
    requires ParseEscape(t).Some?
    ensures var (c, rest) := ParseEscape(t).value; PieceFor(p, c) && [BACKSLASH] + t == PieceText(p) + rest
  {
    hide UnicodeEscape, UnitFor;
    var letter := t[0];
    if letter != LOWER_U {
      p := Short(letter);
      assert t == [letter] + t[1..];
    } else {
      p := ReadUnicode(t[1..]);
      Escaped(t);
    }
  }

  lemma Escaped(t: Text)
    requires t != [] && t[0] == LOWER_U
    ensures [BACKSLASH] + t == [BACKSLASH, LOWER_U] + t[1..]
  {
  }

  lemma ReadUnicode(t: Text) returns (p: Piece)
    requires UnicodeEscape(t).Some?
    ensures var (c, rest) := UnicodeEscape(t).value; PieceFor(p, c) && [BACKSLASH, LOWER_U] + t == PieceText(p) + rest
  {
    hide Hex4, UnitFor, HighUnit, LowUnit;
    UnitOfHex4(t);
    var first := Hex4(t).value;
    if 0xD800 <= first <= 0xDBFF {
      var second := Hex4(t[6..]).value;
      UnitOfHex4(t[6..]);
      PairOfUnits(first, second, UnicodeEscape(t).value.0);
      p := Pair(t[..4], t[6..][..4]);
      PairIsWritten(t);
    } else {
      p := Unit(t[..4]);
      assert t == t[..4] + t[4..];
    }
  }

  lemma PairIsWritten(t: Text)
    requires |t| >= 10 && t[4] == BACKSLASH && t[5] == LOWER_U
    ensures [BACKSLASH, LOWER_U] + t == PieceText(Pair(t[..4], t[6..][..4])) + t[10..]
  {
    assert t == t[..4] + [BACKSLASH, LOWER_U] + t[6..][..4] + t[10..];
  }

  // ----- Whole strings

  /** A string in any spelling is read as that string. */
  lemma {:induction false} StringRead(ps: seq<Piece>, s: Text, tail: Text)
    requires PiecesFor(ps, s)
    ensures ParseString(PiecesText(ps) + ([QUOTE] + tail)) == Some((s, tail))
  {
    hide ParseEscape, PieceText;
    var end := [QUOTE] + tail;
    if ps == [] {
      assert [] + end == end && end[1..] == tail;
    } else {
      var p, more := ps[0], PiecesText(ps[1..]) + end;
      StringRead(ps[1..], s[1..], tail);
      Associate(PieceText(p), PiecesText(ps[1..]), end);
      PieceStep(p, s[0], more);
      assert s == [s[0]] + s[1..];
    }
  }

  lemma Associate(a: Text, b: Text, c: Text)
    ensures a + b + c == a + (b + c)
  {
  }

  lemma PieceStep(p: Piece, c: Code, more: Text)
    requires PieceFor(p, c)
    ensures ParseString(PieceText(p) + more) == Prepend(c, ParseString(more))
  {
    hide ParseEscape, UnitFor;
    var t := PieceText(p) + more;
    if p.Raw? {
      assert t[0] == c && t[1..] == more;
    } else {
      EscapeRead(p, c, more);
      assert t[0] == BACKSLASH && t[1..] == PieceText(p)[1..] + more;
    }
  }

  /** And whatever is read as a string was spelled by pieces of the grammar. */
  lemma {:induction false} ReadString(t: Text) returns (ps: seq<Piece>)
    requires ParseString(t).Some?
    ensures var (s, rest) := ParseString(t).value; PiecesFor(ps, s) && t == PiecesText(ps) + ([QUOTE] + rest)
    decreases |t|
  {
    hide ParseEscape, PieceText, PieceFor;
    if t[0] == QUOTE {
      ps := [];
      assert t == [QUOTE] + t[1..];
    } else {
      var p, c, more;
      p, c, more := ReadPiece(t);
      var qs := ReadString(more);
      ps := [p] + qs;
      var rest := ParseString(t).value.1;
      assert ps[1..] == qs;
      Associate(PieceText(p), PiecesText(qs), [QUOTE] + rest);
    }
  }

  lemma ReadPiece(t: Text) returns (p: Piece, c: Code, more: Text)
    requires ParseString(t).Some? && t[0] != QUOTE
    ensures PieceFor(p, c) && t == PieceText(p) + more && |more| < |t| && ParseString(t) == Prepend(c, ParseString(more))
  {
    hide ParseEscape, UnitFor;
    if t[0] == BACKSLASH {
      p := ReadEscape(t[1..]);
      c, more := ParseEscape(t[1..]).value.0, ParseEscape(t[1..]).value.1;
      assert t == [BACKSLASH] + t[1..];
    } else {
      p, c, more := Raw(t[0]), t[0], t[1..];
      assert t == [c] + more;
    }
  }

  // ----- The writer's choice

  predicate LowerHex(c: Code) {
    c in LOWER_HEX
  }

  ghost predicate Lower(p: Piece) {
    p.Unit? ==> forall i :: 0 <= i < |p.hex| ==> LowerHex(p.hex[i])
  }

  /** A shortest piece for `c`, with lower-case digits. */
  ghost predicate Shortest(p: Piece, c: Code) {
    PieceFor(p, c) && Lower(p) && forall q :: PieceFor(q, c) ==> |PieceText(p)| <= |PieceText(q)|
  }

  function ChosenPiece(c: Code): Piece {
    match Replacement(c)
    case None => Raw(c)
    case Some(_) => if ShortEscape(c).Some? then Short(ShortEscape(c).value) else Unit([ZERO, ZERO, HexDigit(c / 16), HexDigit(c % 16)])
  }

  /** What the writer puts for a character is a shortest piece, and the only one. */
  lemma EscapeCharIsShortest(c: Code, p: Piece)
    requires !IsSurrogate(c)
    ensures Shortest(ChosenPiece(c), c) && PieceText(ChosenPiece(c)) == EscapeChar(c)
    ensures Shortest(p, c) ==> p == ChosenPiece(c)
  {
    ChosenIsPiece(c);
    forall q | PieceFor(q, c) ensures |EscapeChar(c)| <= |PieceText(q)| { NoShorter(c, q); }
    if Shortest(p, c) { NoOther(c, p); }
  }

  lemma ChosenIsPiece(c: Code)
    requires !IsSurrogate(c)
    ensures PieceFor(ChosenPiece(c), c) && Lower(ChosenPiece(c)) && PieceText(ChosenPiece(c)) == EscapeChar(c)
  {
    hide UnitFor, Lower;
    if ShortEscape(c).Some? { assert Lower(ChosenPiece(c)) by { LowerShort(ChosenPiece(c)); } }
    else if c < 0x20 { ControlUnit(c); }
    else { LowerShort(Raw(c)); }
  }

  lemma LowerShort(p: Piece)
    requires !p.Unit?
    ensures Lower(p)
  {
  }

  /** The digits of a control character. */
  lemma ControlUnit(c: Code)
    requires c < 0x20
    ensures var h := [ZERO, ZERO, HexDigit(c / 16), HexDigit(c % 16)]; UnitFor(h, c) && Lower(Unit(h))
  {
    hide HexDigit, LowerHex, HexFor, UnitFor, Lower;
    ControlNibbles(c);
    LowerDigit(0);
    LowerDigit(c / 16);
    LowerDigit(c % 16);
    FourDigits(ZERO, ZERO, HexDigit(c / 16), HexDigit(c % 16), c);
  }

  lemma FourDigits(w: Code, x: Code, y: Code, z: Code, u: int)
    requires 0 <= u < 0x10000
    requires HexFor(w, u / 4096) && HexFor(x, u / 256 % 16) && HexFor(y, u / 16 % 16) && HexFor(z, u % 16)
    requires LowerHex(w) && LowerHex(x) && LowerHex(y) && LowerHex(z)
    ensures UnitFor([w, x, y, z], u) && Lower(Unit([w, x, y, z]))
  {
    hide LowerHex, HexFor;
    var h := [w, x, y, z];
    assert h[0] == w && h[1] == x && h[2] == y && h[3] == z;
  }

  lemma LowerDigit(n: nat)
    requires n < 16
    ensures LowerHex(HexDigit(n)) && HexFor(HexDigit(n), n) && (n == 0 ==> HexDigit(n) == ZERO)
  {
  }

  lemma NoShorter(c: Code, q: Piece)
    requires PieceFor(q, c)
    ensures |EscapeChar(c)| <= |PieceText(q)|
  {
  }

  lemma NoOther(c: Code, p: Piece)
    requires Shortest(p, c) && !IsSurrogate(c)
    ensures p == ChosenPiece(c)
  {
    hide UnitFor, Lower;
    ChosenIsPiece(c);
    assert |PieceText(p)| <= |PieceText(ChosenPiece(c))|;
    if p.Unit? {
      UnitLength(p.hex, c);
      OneUnit(p, c);
    }
  }

  lemma OneUnit(p: Piece, c: Code)
    requires p.Unit? && UnitFor(p.hex, c) && Lower(p)
    ensures c < 0x20 ==> p == Unit([ZERO, ZERO, HexDigit(c / 16), HexDigit(c % 16)])
  {
    hide HexDigit, HexFor, LowerHex;
    if c < 0x20 {
      var h := p.hex;
      ControlNibbles(c);
      OneDigit(h[0], 0);
      OneDigit(h[1], 0);
      OneDigit(h[2], c / 16);
      OneDigit(h[3], c % 16);
      assert h == [h[0], h[1], h[2], h[3]];
    }
  }

  lemma ControlNibbles(c: int)
    requires 0 <= c < 0x20
    ensures c / 4096 == 0 && c / 256 % 16 == 0 && c / 16 % 16 == c / 16 < 2
  {
  }

  lemma OneDigit(c: Code, n: nat)
    requires n < 16 && HexFor(c, n)
    ensures LowerHex(c) ==> c == HexDigit(n)
    ensures n == 0 ==> HexDigit(n) == ZERO
  {
  }

  /** No text that reads as `s` is shorter than what the writer puts between the quotes. */
  lemma EscapeIsShortest(s: Text, t: Text)
    requires ParseString(t + [QUOTE]) == Some((s, []))
    ensures |Escape(s)| <= |t|
  {
    hide ParseString, Escape;
    var ps := ReadString(t + [QUOTE]);
    assert t + [QUOTE] == PiecesText(ps) + [QUOTE] by { assert [QUOTE] + [] == [QUOTE]; }
    PiecesAreLonger(ps, s);
  }

  lemma {:induction false} PiecesAreLonger(ps: seq<Piece>, s: Text)
    requires PiecesFor(ps, s)
    ensures |Escape(s)| <= |PiecesText(ps)|
  {
    if s != [] {
      NoShorter(s[0], ps[0]);
      PiecesAreLonger(ps[1..], s[1..]);
    }
  }

  /** The one spelling whose every piece is shortest is the writer's. */
  lemma {:induction false} ShortestIsEscape(ps: seq<Piece>, s: Text)
    requires Scalar(s) && |ps| == |s| && forall i :: 0 <= i < |s| ==> Shortest(ps[i], s[i])
    ensures PiecesText(ps) == Escape(s)
  {
    hide Shortest, EscapeChar;
    if s != [] {
      EscapeCharIsShortest(s[0], ps[0]);
      ShortestIsEscape(ps[1..], s[1..]);
    }
  }
}
