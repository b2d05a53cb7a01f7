/** `_Writer`: parts appended one by one while the byte and node budgets are checked. */
module JsonWriter {
  import opened Options
  import opened Unicode
  import opened JsonNumber
  import opened JsonValue
  import opened JsonParse
  import opened JsonWrite

  /** `"".join(parts)`. */
  function Join(parts: seq<Text>): Text {
    if parts == [] then [] else Join(parts[..|parts| - 1]) + parts[|parts| - 1]
  }

  lemma {:induction false} EscapeConcat(a: Text, b: Text)
    ensures Escape(a + b) == Escape(a) + Escape(b)
  {
    hide EscapeChar;
    if a == [] {
      assert a + b == b;
    } else {
      EscapeConcat(a[1..], b);
      assert (a + b)[1..] == a[1..] + b;
      ConcatAssociates(EscapeChar(a[0]), Escape(a[1..]), Escape(b));
    }
  }

  lemma ConcatAssociates(a: Text, b: Text, c: Text)
    ensures a + b + c == a + (b + c)
  {
  }

  method SortKeys(keys: set<Text>) returns (ks: seq<Text>)
    ensures ks == SortedKeys(keys)
  {
    hide SortedKeys;
    var rest := keys;
    ks := [];
    EmptyHasNoKeys();
    while rest != {}
      invariant ks + SortedKeys(rest) == SortedKeys(keys)
      decreases |rest|
    {
      MinimumExists(rest);
      var m :| IsMinimum(m, rest);
      TakeMinimum(rest, m);
      assert ks + SortedKeys(rest) == ks + [m] + SortedKeys(rest - {m});
      ks := ks + [m];
      rest := rest - {m};
    }
    assert ks + [] == ks;
  }

  lemma EmptyHasNoKeys()
    ensures SortedKeys({}) == []
  {
  }

  lemma TakeMinimum(keys: set<Text>, m: Text)
    requires IsMinimum(m, keys)
    ensures SortedKeys(keys) == [m] + SortedKeys(keys - {m})
  {
    hide SortedKeys;
    var rest := SortedKeys(keys - {m});
    assert forall i :: 0 <= i < |rest| ==> rest[i] in keys - {m};
    SortedIsUnique(SortedKeys(keys), [m] + rest);
  }

  class Writer {
    const limits: Limits
    var parts: seq<Text>
    var size: nat
    var nodes: nat

    /** The tracked size is the UTF-8 size of everything written, and within budget. */
    ghost predicate Valid()
      reads this
    {
      size == Utf8Size(Join(parts)) && size <= limits.maxOutput
    }

    ghost function Now(): Output
      reads this
    {
      Output(Join(parts), size, nodes)
    }

    constructor (limits: Limits)
      requires ValidLimits(limits)
      ensures Valid() && this.limits == limits && Now() == Output([], 0, 0)
    {
      this.limits, parts, size, nodes := limits, [], 0, 0;
    }

    /** What the call did is what the function says. */
    ghost predicate Agrees(w: Written, err: Option<ErrorCode>)
      reads this
    {
      match w
      case Done(o) => err == None && Now() == o
      case Refused(code) => err == Some(code)
    }

    method Add(text: Text) returns (err: Option<ErrorCode>)
      requires Valid()
      modifies this
      ensures Valid() && Agrees(Put(old(Now()), text, limits), err)
      ensures err.Some? ==> Now() == old(Now())
    {
      var added := Utf8Size(text);
      if size + added > limits.maxOutput { return Some(KS3607); }
      Utf8SizeConcat(Join(parts), text);
      assert (parts + [text])[..|parts|] == parts;
      parts := parts + [text];
      size := size + added;
      return None;
    }

    /** Adding `b` after `a` of a text that is to be written as a whole, starting from `o`. */
    method AddAfter(ghost o: Output, ghost a: Text, b: Text, ghost whole: Text) returns (err: Option<ErrorCode>)
      requires Valid() && Put(o, a, limits) == Done(Now()) && a + b <= whole
      modifies this
      ensures Valid()
      ensures err == None ==> Put(o, a + b, limits) == Done(Now())
      ensures err.Some? ==> err == Some(KS3607) && Put(o, whole, limits) == Refused(KS3607)
    {
      hide Utf8Size;
      err := Add(b);
      PutSplit(o, a, b, limits);
      PutSplit(o, a + b, whole[|a + b|..], limits);
      assert a + b + whole[|a + b|..] == whole;
    }

    /** Copied runs and replacements are added one by one; together they are the quoted string. */
    method String(value: Text) returns (err: Option<ErrorCode>)
      requires Valid()
      modifies this
      ensures Valid() && Agrees(PutString(old(Now()), value, limits), err)
    {
      hide Utf8Size, Escape, EscapeChar, Replacement;
      if !Scalar(value) { return Some(KS3608); }
      ghost var o := Now();
      ghost var whole := Quote(value);
      EscapeParts(value, 0, 0);
      PutEmpty(o, limits);
      err := AddAfter(o, [], [QUOTE], whole);
      if err.Some? { return; }
      var start := 0;
      for index := 0 to |value|
        invariant Valid() && err == None && start <= index
        invariant Put(o, QuotedUpTo(value, start), limits) == Done(Now())
        invariant Escape(value[start..index]) == value[start..index]
      {
        var replacement := Replacement(value[index]);
        EscapeParts(value, start, index);
        EscapeStep(value, start, index);
        if replacement.None? { continue; }
        if start < index {
          err := AddAfter(o, QuotedUpTo(value, start), value[start..index], whole);
          if err.Some? { return; }
        }
        err := AddAfter(o, QuotedUpTo(value, index), replacement.value, whole);
        if err.Some? { return; }
        start := index + 1;
      }
      EscapeParts(value, start, |value|);
      assert value[start..|value|] == value[start..];
      if start < |value| {
        err := AddAfter(o, QuotedUpTo(value, start), value[start..], whole);
        if err.Some? { return; }
      }
      err := AddAfter(o, QuotedUpTo(value, |value|), [QUOTE], whole);
    }

    method Value(v: Json, depth: nat) returns (err: Option<ErrorCode>)
      requires Valid()
      modifies this
      ensures Valid() && Agrees(WriteValue(v, depth, old(Now()), limits), err)
      decreases v, 1
    {
      hide Utf8Size, WriteItems, WriteFields, Quote, Put;
      if depth > limits.maxDepth { return Some(KS3602); }
      nodes := nodes + 1;
      if nodes > limits.maxNodes { return Some(KS3603); }
      match v
      case Null => err := Add(NULL);
      case Bool(b) => err := Add(if b then TRUE else FALSE);
      case Str(s) => err := String(s);
      case Num(text) => err := Add(text);
      case Arr(items) =>
        err := Add([OPEN_BRACKET]);
        if err.Some? { return; }
        err := Items(items, depth);
        if err.Some? { return; }
        err := Add([CLOSE_BRACKET]);
      case Obj(fields) =>
        err := Add([OPEN_BRACE]);
        if err.Some? { return; }
        err := Fields(v, depth);
        if err.Some? { return; }
        err := Add([CLOSE_BRACE]);
      case Foreign => err := Some(KS3608);
    }

    method Items(items: seq<Json>, depth: nat) returns (err: Option<ErrorCode>)
      requires Valid()
      modifies this
      ensures Valid() && Agrees(WriteItems(items, true, depth, old(Now()), limits), err)
      decreases items, 0
    {
      hide Utf8Size, WriteValue, Put;
      err := None;
      for index := 0 to |items|
        invariant Valid() && err == None
        invariant WriteItems(items, true, depth, old(Now()), limits)
               == WriteItems(items[index..], index == 0, depth, Now(), limits)
      {
        assert items[index..][0] == items[index] && items[index..][1..] == items[index + 1..];
        if index > 0 {
          err := Add([COMMA]);
          if err.Some? { return; }
        }
        err := Value(items[index], depth + 1);
        if err.Some? { return; }
      }
    }

    method Fields(v: Json, depth: nat) returns (err: Option<ErrorCode>)
      requires v.Obj? && Valid()
      modifies this
      ensures Valid()
      ensures Agrees(WriteFields(v, SortedKeys(v.fields.Keys), true, depth, old(Now()), limits), err)
      decreases v, 0
    {
      hide Utf8Size, WriteValue, Put, PutString, SortedKeys;
      var keys := SortKeys(v.fields.Keys);
      err := None;
      for index := 0 to |keys|
        invariant Valid() && err == None
        invariant forall k :: k in keys[index..] ==> k in v.fields
        invariant WriteFields(v, keys, true, depth, old(Now()), limits)
               == WriteFields(v, keys[index..], index == 0, depth, Now(), limits)
      {
        var key := keys[index];
        assert keys[index..][0] == key && keys[index..][1..] == keys[index + 1..];
        if index > 0 {
          err := Add([COMMA]);
          if err.Some? { return; }
        }
        err := String(key);
        if err.Some? { return; }
        err := Add([COLON]);
        if err.Some? { return; }
        assert key in v.fields && v.fields[key] < v;
        err := Value(v.fields[key], depth + 1);
        if err.Some? { return; }
      }
    }
  }

  /** The opening quote and the escaped characters before position `i`. */
  ghost function QuotedUpTo(value: Text, i: nat): Text
    requires i <= |value|
  {
    [QUOTE] + Escape(value[..i])
  }

  lemma PutEmpty(o: Output, l: Limits)
    requires o.size <= l.maxOutput
    ensures Put(o, [], l) == Done(o)
  {
    assert o.text + [] == o.text;
  }

  lemma PutSplit(o: Output, a: Text, b: Text, l: Limits)
    ensures Put(o, a + b, l) == match Put(o, a, l)
      case Refused(c) => Refused(c)
      case Done(p) => Put(p, b, l)
  {
    Utf8SizeConcat(a, b);
    assert o.text + a + b == o.text + (a + b);
  }

  lemma EscapeNothing()
    ensures Escape([]) == []
  {
  }

  lemma EscapeParts(value: Text, start: nat, index: nat)
    requires start <= index <= |value|
    ensures Escape(value[start..start]) == [] && QuotedUpTo(value, 0) == [QUOTE] == [] + [QUOTE]
    ensures QuotedUpTo(value, start) + Escape(value[start..index]) == QuotedUpTo(value, index) <= Quote(value)
    ensures QuotedUpTo(value, |value|) + [QUOTE] == Quote(value)
    ensures [] + [QUOTE] <= Quote(value)
  {
    EscapeNothing();
    hide Escape, EscapeChar;
    assert value[..0] == [] && value[start..start] == [] && value[..|value|] == value;
    assert value[..index] == value[..start] + value[start..index];
    EscapeConcat(value[..start], value[start..index]);
    EscapeConcat(value[..index], value[index..]);
    assert value == value[..index] + value[index..];
    assert Quote(value) == QuotedUpTo(value, index) + (Escape(value[index..]) + [QUOTE]);
  }

  lemma EscapeStep(value: Text, start: nat, index: nat)
    requires start <= index < |value| && Escape(value[start..index]) == value[start..index]
    ensures Replacement(value[index]).None? ==> Escape(value[start..index + 1]) == value[start..index + 1]
    ensures Replacement(value[index]).Some? ==>
      QuotedUpTo(value, index) + Replacement(value[index]).value == QuotedUpTo(value, index + 1) <= Quote(value)
    ensures Escape(value[index + 1..index + 1]) == [] == value[index + 1..index + 1]
  {
    hide Quote, Escape, EscapeChar, Replacement;
    var one := [value[index]];
    EscapeSingle(value[index]);
    assert value[start..index + 1] == value[start..index] + one;
    EscapeConcat(value[start..index], one);
    EscapeParts(value, index, index + 1);
    EscapeParts(value, index + 1, index + 1);
    assert value[index..index + 1] == one;
  }

  lemma EscapeSingle(c: Code)
    ensures Escape([c]) == if Replacement(c).Some? then Replacement(c).value else [c]
  {
    assert [c][1..] == [] && EscapeChar(c) + [] == EscapeChar(c);
  }

  method EncodeValue(v: Json, limits: Limits) returns (r: Result<Text>)
    ensures r == Encode(v, limits)
  {
    if !ValidLimits(limits) { return Failure(BAD_LIMITS); }
    var writer := new Writer(limits);
    var err := writer.Value(v, 1);
    if err.Some? { return Failure(err.value); }
    return Success(Join(writer.parts));
  }
}
