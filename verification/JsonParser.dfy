/** `_Parser`: one index and one node counter moving over the text. */
module JsonParser {
  import opened Options
  import opened Unicode
  import opened JsonNumber
  import opened JsonNumberMeaning
  import opened JsonCanonical
  import opened JsonValue
  import opened JsonParse

  /** Characters read before the rest of a string literal. */
  function PrependAll(s: Text, r: Option<(Text, Text)>): Option<(Text, Text)> {
    match r
    case None => None
    case Some((t, rest)) => Some((s + t, rest))
  }

  class Parser {
    const text: Text
    const limits: Limits
    var index: nat
    var nodes: nat

    ghost predicate Valid()
      reads this
    {
      index <= |text|
    }

    constructor (text: Text, limits: Limits)
      ensures Valid() && this.text == text && this.limits == limits && index == 0 && nodes == 0
    {
      this.text, this.limits, index, nodes := text, limits, 0, 0;
    }

    /** The call did what the function says: same outcome, and on success the same position and node count. */
    ghost predicate Agrees(p: Parsed<Json>, r: Result<Json>)
      reads this
      requires Valid()
    {
      match p
      case Ok(v, rest, n) => r == Success(v) && text[index..] == rest && nodes == n
      case Fail(code) => r == Failure(code)
    }

    method Parse() returns (r: Result<Json>)
      requires Valid() && index == 0 && nodes == 0
      modifies this
      ensures Valid()
      ensures r == match ParseValue(SkipSpace(text), 1, 0, limits)
        case Fail(code) => Failure(code)
        case Ok(v, rest, _) => if SkipSpace(rest) == [] then Success(v) else Failure(KS3605)
    {
      assert text[0..] == text;
      SkipBlanks();
      r := Value(1);
      if r.Failure? { return; }
      SkipBlanks();
      if index != |text| { return Failure(KS3605); }
    }

    method SkipBlanks()
      requires Valid()
      modifies this`index
      ensures Valid() && old(index) <= index && text[index..] == SkipSpace(text[old(index)..])
    {
      while index < |text| && IsSpace(text[index])
        invariant Valid() && old(index) <= index && SkipSpace(text[index..]) == SkipSpace(text[old(index)..])
      {
        assert text[index..][1..] == text[index + 1..];
        index := index + 1;
      }
    }

    method Node(depth: nat) returns (err: Option<ErrorCode>)
      requires Valid()
      modifies this`nodes
      ensures depth > limits.maxDepth ==> err == Some(KS3602)
      ensures depth <= limits.maxDepth && old(nodes) + 1 > limits.maxNodes ==> err == Some(KS3603)
      ensures depth <= limits.maxDepth && old(nodes) + 1 <= limits.maxNodes ==> err == None && nodes == old(nodes) + 1
    {
      if depth > limits.maxDepth { return Some(KS3602); }
      nodes := nodes + 1;
      if nodes > limits.maxNodes { return Some(KS3603); }
      return None;
    }

    method Value(depth: nat) returns (r: Result<Json>)
      requires Valid()
      modifies this
      ensures Valid() && old(index) <= index && Agrees(ParseValue(text[old(index)..], depth, old(nodes), limits), r)
      decreases |text| - index, 1
    {
      hide ParseItems, ParseFields, ParseString, ScanNumber, Canonical, SkipSpace, ParseArray, ParseObject;
      ghost var t := text[index..];
      var err := Node(depth);
      if err.Some? { return Failure(err.value); }
      if index >= |text| { return Failure(KS3605); }
      var c := text[index];
      assert t[0] == c && t[1..] == text[index + 1..];
      if c == QUOTE {
        var s := String();
        return if s.Some? then Success(Str(s.value)) else Failure(KS3605);
      }
      if c == OPEN_BRACE {
        r := Object(depth);
        return;
      }
      if c == OPEN_BRACKET {
        r := Array(depth);
        return;
      }
      if StartsWith(text[index..], TRUE) {
        assert t[4..] == text[index + 4..];
        index := index + 4;
        return Success(Bool(true));
      }
      if StartsWith(text[index..], FALSE) {
        assert t[5..] == text[index + 5..];
        index := index + 5;
        return Success(Bool(false));
      }
      if StartsWith(text[index..], NULL) {
        assert t[4..] == text[index + 4..];
        index := index + 4;
        return Success(Null);
      }
      if c == MINUS || IsDigit(c) {
        r := Number();
        return;
      }
      return Failure(KS3605);
    }

    method Array(depth: nat) returns (r: Result<Json>)
      requires Valid() && index < |text|
      modifies this
      ensures Valid() && old(index) <= index && Agrees(ParseArray(text[old(index) + 1..], depth, old(nodes), limits), r)
      decreases |text| - index, 0
    {
      hide ParseValue, SkipSpace;
      ghost var start := text[index + 1..];
      ghost var n := nodes;
      index := index + 1;
      var items: seq<Json> := [];
      SkipBlanks();
      if index < |text| && text[index] == CLOSE_BRACKET {
        assert text[index..][1..] == text[index + 1..];
        index := index + 1;
        return Success(Arr(items));
      }
      while true
        invariant Valid() && old(index) < index
        invariant ParseArray(start, depth, n, limits) == ParseItems(text[index..], items, depth, nodes, limits)
        decreases |text| - index
      {
        ghost var p := ParseValue(text[index..], depth + 1, nodes, limits);
        r := Value(depth + 1);
        if r.Failure? { return; }
        items := items + [r.value];
        SkipBlanks();
        if index >= |text| { return Failure(KS3605); }
        var c := text[index];
        assert text[index..][0] == c && text[index..][1..] == text[index + 1..];
        index := index + 1;
        if c == CLOSE_BRACKET { return Success(Arr(items)); }
        if c != COMMA { return Failure(KS3605); }
        SkipBlanks();
      }
    }

    method Object(depth: nat) returns (r: Result<Json>)
      requires Valid() && index < |text|
      modifies this
      ensures Valid() && old(index) <= index && Agrees(ParseObject(text[old(index) + 1..], depth, old(nodes), limits), r)
      decreases |text| - index, 0
    {
      hide ParseField, SkipSpace;
      ghost var start := text[index + 1..];
      ghost var n := nodes;
      index := index + 1;
      var result: map<Text, Json> := map[];
      SkipBlanks();
      if index < |text| && text[index] == CLOSE_BRACE {
        assert text[index..][1..] == text[index + 1..];
        index := index + 1;
        return Success(Obj(result));
      }
      while true
        invariant Valid() && old(index) < index
        invariant ParseObject(start, depth, n, limits) == ParseFields(text[index..], result, depth, nodes, limits)
        decreases |text| - index
      {
        var field := Field(result, depth);
        if field.Failure? { return Failure(field.code); }
        result := result[field.value.0 := field.value.1];
        SkipBlanks();
        if index >= |text| { return Failure(KS3605); }
        var c := text[index];
        assert text[index..][0] == c && text[index..][1..] == text[index + 1..];
        index := index + 1;
        if c == CLOSE_BRACE { return Success(Obj(result)); }
        if c != COMMA { return Failure(KS3605); }
        SkipBlanks();
      }
    }

    /** The key, the colon and the value of one field. */
    method Field(fields: map<Text, Json>, depth: nat) returns (r: Result<(Text, Json)>)
      requires Valid()
      modifies this
      ensures Valid() && old(index) <= index
      ensures match ParseField(text[old(index)..], fields, depth, old(nodes), limits)
        case Ok(field, rest, n) => r == Success(field) && text[index..] == rest && nodes == n && old(index) < index
        case Fail(code) => r == Failure(code)
      decreases |text| - index, 2
    {
      hide ParseValue, SkipSpace, ParseString;
      if index >= |text| || text[index] != QUOTE { return Failure(KS3605); }
      assert text[index..][0] == QUOTE && text[index..][1..] == text[index + 1..];
      var key := String();
      if key.None? { return Failure(KS3605); }
      if key.value in fields { return Failure(KS3604); }
      SkipBlanks();
      if index >= |text| || text[index] != COLON { return Failure(KS3605); }
      assert text[index..][0] == COLON && text[index..][1..] == text[index + 1..];
      index := index + 1;
      SkipBlanks();
      var v := Value(depth + 1);
      if v.Failure? { return Failure(v.code); }
      return Success((key.value, v.value));
    }

    /** A string literal; `None` for every malformed one (KS3605). */
    method String() returns (r: Option<Text>)
      requires Valid() && index < |text|
      modifies this`index
      ensures Valid() && old(index) <= index
      ensures match ParseString(text[old(index) + 1..])
        case None => r == None
        case Some((s, rest)) => r == Some(s) && text[index..] == rest && old(index) < index
    {
      hide ParseEscape;
      ghost var begin := text[index + 1..];
      index := index + 1;
      var chunks: Text := [];
      var start := index;
      PrependNothing(ParseString(begin));
      assert chunks + text[start..index] == [];
      while index < |text|
        invariant Valid() && old(index) < start <= index
        invariant ParseString(begin) == PrependAll(chunks + text[start..index], ParseString(text[index..]))
      {
        var c := text[index];
        ghost var t := text[index..];
        assert t[0] == c && t[1..] == text[index + 1..];
        if c == QUOTE {
          chunks := chunks + text[start..index];
          index := index + 1;
          assert chunks + [] == chunks;
          return Some(chunks);
        }
        if c == BACKSLASH {
          chunks := chunks + text[start..index];
          index := index + 1;
          var e := Escaped();
          if e.None? { return None; }
          PrependMore(chunks, e.value, ParseString(text[index..]));
          chunks := chunks + [e.value];
          start := index;
          assert chunks + text[start..index] == chunks;
        } else {
          if c < 0x20 || IsSurrogate(c) { return None; }
          PrependMore(chunks + text[start..index], c, ParseString(text[index + 1..]));
          assert chunks + text[start..index + 1] == chunks + text[start..index] + [c];
          index := index + 1;
        }
      }
      return None;
    }

    /** The character after a backslash. */
    method Escaped() returns (r: Option<Code>)
      requires Valid()
      modifies this`index
      ensures Valid() && old(index) <= index
      ensures match ParseEscape(text[old(index)..])
        case None => r == None
        case Some((c, rest)) => r == Some(c) && text[index..] == rest && old(index) < index
    {
      if index >= |text| { return None; }
      ghost var t := text[index..];
      var escape := text[index];
      assert t[0] == escape && t[1..] == text[index + 1..];
      index := index + 1;
      if escape == QUOTE || escape == BACKSLASH || escape == 0x2F { return Some(escape); }
      if escape == 0x62 { return Some(0x08); }
      if escape == 0x66 { return Some(0x0C); }
      if escape == 0x6E { return Some(0x0A); }
      if escape == 0x72 { return Some(0x0D); }
      if escape == 0x74 { return Some(0x09); }
      if escape != LOWER_U { return None; }
      r := Unicode();
    }

    method Unicode() returns (r: Option<Code>)
      requires Valid()
      modifies this`index
      ensures Valid() && old(index) <= index
      ensures match UnicodeEscape(text[old(index)..])
        case None => r == None
        case Some((c, rest)) => r == Some(c) && text[index..] == rest && old(index) < index
    {
      hide Hex4;
      ghost var t := text[index..];
      if index + 4 > |text| { return None; }
      var first := Hex4(text[index..]);
      if first.None? { return None; }
      index := index + 4;
      assert t[4..] == text[index..];
      if 0xDC00 <= first.value <= 0xDFFF { return None; }
      if !(0xD800 <= first.value <= 0xDBFF) { return Some(first.value); }
      if index + 6 > |text| || text[index] != BACKSLASH || text[index + 1] != LOWER_U { return None; }
      assert t[4] == text[index] && t[5] == text[index + 1];
      index := index + 2;
      assert t[6..] == text[index..];
      var second := Hex4(text[index..]);
      if second.None? { return None; }
      index := index + 4;
      assert t[10..] == text[index..];
      if !(0xDC00 <= second.value <= 0xDFFF) { return None; }
      return Some(0x10000 + (first.value - 0xD800) * 0x400 + (second.value - 0xDC00));
    }

    method Number() returns (r: Result<Json>)
      requires Valid() && index < |text|
      modifies this`index
      ensures Valid() && old(index) <= index && Agrees(ParseNumber(text[old(index)..], nodes), r)
    {
      hide Canonical, ScanInteger, ScanFraction, ScanExponent, SameMeaning;
      ghost var t := text[index..];
      var start := index;
      if text[index] == MINUS {
        index := index + 1;
        assert t[1..] == text[index..];
      }
      if index >= |text| {
        EmptyIsNoInteger();
        return Failure(KS3605);
      }
      var ok, end := ScanIntegerAt(text, index);
      if !ok { return Failure(KS3605); }
      var fraction, exponent;
      ok, fraction, end := ScanFractionAt(text, end);
      if !ok { return Failure(KS3605); }
      ok, exponent, end := ScanExponentAt(text, end);
      if !ok { return Failure(KS3605); }
      index := end;
      assert ScanNumber(t).Some? && ScanNumber(t).value.1 == text[index..];
      var raw := text[start..index];
      assert raw == t[..|t| - |text[index..]|];
      var canonical := CanonicalNumber(raw);
      if canonical.None? { return Failure(KS3605); }
      var again := CanonicalNumber(canonical.value);
      if again != canonical { return Failure(KS3605); }
      return Success(Num(canonical.value));
    }
  }

  lemma PrependMore(s: Text, c: Code, r: Option<(Text, Text)>)
    ensures PrependAll(s, Prepend(c, r)) == PrependAll(s + [c], r)
  {
    if r.Some? { assert s + ([c] + r.value.0) == s + [c] + r.value.0; }
  }

  lemma EmptyIsNoInteger()
    ensures ScanInteger([]) == None
  {
  }

  lemma PrependNothing(r: Option<(Text, Text)>)
    ensures PrependAll([], r) == r
  {
    if r.Some? { assert [] + r.value.0 == r.value.0; }
  }

  method DecodeText(text: Text, limits: Limits) returns (r: Result<Json>)
    ensures r == Decode(text, limits)
  {
    if !ValidLimits(limits) { return Failure(BAD_LIMITS); }
    if !Scalar(text) { return Failure(KS3605); }
    if Utf8Size(text) > limits.maxInput { return Failure(KS3601); }
    var parser := new Parser(text, limits);
    r := parser.Parse();
  }
}
