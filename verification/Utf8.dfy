/** Strict UTF-8, as `str.encode` and `bytes.decode` with `errors="strict"` apply it. */
module Utf8 {
  import opened Options
  import opened Unicode

  type Byte = b: int | 0 <= b < 256

  type Bytes = seq<Byte>

  function EncodeCode(c: Code): (b: Bytes)
    ensures |b| == Utf8Width(c)
  {
    if c < 0x80 then [c]
    else if c < 0x800 then [0xC0 + c / 64, 0x80 + c % 64]
    else if c < 0x10000 then [0xE0 + c / 64 / 64, 0x80 + c / 64 % 64, 0x80 + c % 64]
    else [0xF0 + c / 64 / 64 / 64, 0x80 + c / 64 / 64 % 64, 0x80 + c / 64 % 64, 0x80 + c % 64]
  }

  /** What a byte carries below its leading bits. */
  function Low(b: int, weight: int): int
    requires weight > 0
  {
    b % weight
  }

  /** The table of section 3 of RFC 3629: how many bytes, their leading bits, and which bits of the code point they
      carry. */
  lemma EncodedBits(c: Code)
    ensures var b := EncodeCode(c);
      if c <= 0x7F then b == [c]
      else if c <= 0x7FF then |b| == 2 && b[0] / 32 == 6 && b[1] / 64 == 2 && Low(b[0], 32) * 64 + Low(b[1], 64) == c
      else if c <= 0xFFFF then
        && |b| == 3 && b[0] / 16 == 14 && b[1] / 64 == 2 && b[2] / 64 == 2
        && Low(b[0], 16) * 4096 + Low(b[1], 64) * 64 + Low(b[2], 64) == c
      else
        && |b| == 4 && b[0] / 8 == 30 && b[1] / 64 == 2 && b[2] / 64 == 2 && b[3] / 64 == 2
        && Low(b[0], 8) * 262144 + Low(b[1], 64) * 4096 + Low(b[2], 64) * 64 + Low(b[3], 64) == c
  {
    var x := c / 64;
    var y := x / 64;
    assert c == x * 64 + c % 64 && x == y * 64 + x % 64 && y == y / 64 * 64 + y % 64;
  }

  /** Surrogates have no encoding. */
  function Encode(t: Text): (r: Option<Bytes>)
    ensures r.Some? <==> Scalar(t)
  {
    if Scalar(t) then Some(EncodeAll(t)) else None
  }

  function EncodeAll(t: Text): Bytes {
    if t == [] then [] else EncodeCode(t[0]) + EncodeAll(t[1..])
  }

  predicate Continues(b: Byte) {
    0x80 <= b < 0xC0
  }

  /** Six more bits, from a continuation byte. */
  function Append(high: int, b: int): (c: int)
    requires 0 <= high && 0x80 <= b < 0xC0
    ensures c / 64 == high && c % 64 == b - 0x80 && c < high * 64 + 64
  {
    high * 64 + (b - 0x80)
  }

  /** The code point at the start of `b`: shortest form only, no surrogates, nothing above U+10FFFF. */
  function First(b: Bytes): (r: Option<Code>)
    requires b != []
    ensures r.Some? ==> !IsSurrogate(r.value) && Utf8Width(r.value) <= |b|
  {
    if b[0] < 0x80 then Some(b[0])
    else if 0xC2 <= b[0] < 0xE0 && |b| >= 2 && Continues(b[1]) then
      Some(Append(b[0] - 0xC0, b[1]))
    else if 0xE0 <= b[0] < 0xF0 && |b| >= 3 && Continues(b[1]) && Continues(b[2]) then
      var c := Append(Append(b[0] - 0xE0, b[1]), b[2]);
      if c < 0x800 || IsSurrogate(c) then None else Some(c)
    else if 0xF0 <= b[0] < 0xF5 && |b| >= 4 && Continues(b[1]) && Continues(b[2]) && Continues(b[3]) then
      var c := Append(Append(Append(b[0] - 0xF0, b[1]), b[2]), b[3]);
      if c < 0x10000 || c > 0x10FFFF then None else Some(c)
    else None
  }

  function Decode(b: Bytes): Option<Text> {
    if b == [] then Some([])
    else match First(b)
      case None => None
      case Some(c) =>
        var rest := Decode(b[Utf8Width(c)..]);
        if rest.None? then None else Some([c] + rest.value)
  }

  lemma FirstOfEncoded(c: Code, rest: Bytes)
    requires !IsSurrogate(c)
    ensures First(EncodeCode(c) + rest) == Some(c)
  {
    var b := EncodeCode(c) + rest;
    assert b[..Utf8Width(c)] == EncodeCode(c);
  }

  lemma EncodedFirst(b: Bytes)
    requires b != [] && First(b).Some?
    ensures EncodeCode(First(b).value) == b[..Utf8Width(First(b).value)]
  {
  }

  lemma {:induction false} DecodeEncoded(t: Text)
    requires Scalar(t)
    ensures Decode(EncodeAll(t)) == Some(t)
  {
    hide First, EncodeCode, Utf8Width;
    if t != [] {
      assert EncodeAll(t) == EncodeCode(t[0]) + EncodeAll(t[1..]);
      FirstOfEncoded(t[0], EncodeAll(t[1..]));
      assert EncodeAll(t)[Utf8Width(t[0])..] == EncodeAll(t[1..]);
      DecodeEncoded(t[1..]);
      assert t == [t[0]] + t[1..];
    }
  }

  lemma {:induction false} EncodeDecoded(b: Bytes)
    requires Decode(b).Some?
    ensures Scalar(Decode(b).value) && EncodeAll(Decode(b).value) == b
    decreases |b|
  {
    hide First, EncodeCode, Utf8Width;
    if b != [] {
      var c := First(b).value;
      EncodedFirst(b);
      EncodeDecoded(b[Utf8Width(c)..]);
      assert b == b[..Utf8Width(c)] + b[Utf8Width(c)..];
    }
  }

  /** Decoding is the exact partial inverse of encoding. */
  lemma DecodesIff(b: Bytes, t: Text)
    ensures Decode(b) == Some(t) <==> Encode(t) == Some(b)
  {
    if Scalar(t) { DecodeEncoded(t); }
    if Decode(b).Some? { EncodeDecoded(b); }
  }

  /** The size that the JSON limits count is the length of the encoding. */
  lemma {:induction false} EncodedSize(t: Text)
    ensures |EncodeAll(t)| == Utf8Size(t)
  {
    if t != [] {
      EncodedSize(t[1..]);
      Utf8SizeConcat(t[..1], t[1..]);
      assert t == t[..1] + t[1..] && t[..1][..0] == [];
    }
  }
}
