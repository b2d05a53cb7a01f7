/** Texts as sequences of Unicode code points (Python's `str`, surrogates included) and their UTF-8 size. */
module Unicode {

  type Code = c: int | 0 <= c <= 0x10FFFF

  type Text = seq<Code>

  const ZERO: Code := 0x30
  const NINE: Code := 0x39
  const MINUS: Code := 0x2D
  const PLUS: Code := 0x2B
  const DOT: Code := 0x2E
  const LOWER_E: Code := 0x65
  const UPPER_E: Code := 0x45

  predicate IsDigit(c: Code) {
    ZERO <= c <= NINE
  }

  predicate IsSurrogate(c: Code) {
    0xD800 <= c <= 0xDFFF
  }

  /** Encodable in UTF-8: no surrogate code point. */
  predicate Scalar(t: Text) {
    forall i :: 0 <= i < |t| ==> !IsSurrogate(t[i])
  }

  function Utf8Width(c: Code): (n: nat)
    ensures 1 <= n <= 4
  {
    if c < 0x80 then 1 else if c < 0x800 then 2 else if c < 0x10000 then 3 else 4
  }

  function Utf8Size(t: Text): nat {
    if t == [] then 0 else Utf8Size(t[..|t| - 1]) + Utf8Width(t[|t| - 1])
  }

  lemma {:induction false} Utf8SizeConcat(a: Text, b: Text)
    ensures Utf8Size(a + b) == Utf8Size(a) + Utf8Size(b)
  {
    if b == [] {
      assert a + b == a;
    } else {
      var n := |b| - 1;
      assert (a + b)[..|a| + n] == a + b[..n];
      Utf8SizeConcat(a, b[..n]);
    }
  }
}
