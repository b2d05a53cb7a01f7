/** Decoding inverts encoding: every canonical text parses back to its value, whatever follows it. */
module JsonRoundTrip {
  import opened Options
  import opened Unicode
  import opened JsonNumber
  import opened JsonValue
  import opened JsonParse

  // ----- Strings

  lemma HexDigitValue(n: nat)
    requires n < 16
    ensures HexValue(HexDigit(n)) == Some(n)
  {
  }

  lemma EscapeCharParses(c: Code, tail: Text)
    requires !IsSurrogate(c)
    ensures ParseString(EscapeChar(c) + tail) == Prepend(c, ParseString(tail))
  {
    var t := EscapeChar(c) + tail;
    if ShortEscape(c).Some? {
      assert t[1..] == [ShortEscape(c).value] + tail;
      assert t[1..][1..] == tail;
    } else if c < 0x20 {
      var h := [ZERO, ZERO, HexDigit(c / 16), HexDigit(c % 16)];
      HexDigitValue(c / 16);
      HexDigitValue(c % 16);
      assert t[1..] == [LOWER_U] + (h + tail);
      assert t[1..][1..] == h + tail;
      assert Hex4(h + tail) == Some(c);
      assert (h + tail)[4..] == tail;
    } else {
      assert t == [c] + tail;
      assert t[1..] == tail;
    }
  }

  lemma {:induction false} StringParses(s: Text, tail: Text)
    requires Scalar(s)
    ensures ParseString(Escape(s) + ([QUOTE] + tail)) == Some((s, tail))
  {
    if s == [] {
      assert Escape(s) + ([QUOTE] + tail) == [QUOTE] + tail;
      assert ([QUOTE] + tail)[1..] == tail;
    } else {
      var rest := Escape(s[1..]) + ([QUOTE] + tail);
      StringParses(s[1..], tail);
      EscapeCharParses(s[0], rest);
      assert Escape(s) + ([QUOTE] + tail) == EscapeChar(s[0]) + rest;
      assert [s[0]] + s[1..] == s;
    }
  }

  lemma QuoteParses(s: Text, tail: Text)
    requires Scalar(s)
    ensures (Quote(s) + tail)[0] == QUOTE && ParseString((Quote(s) + tail)[1..]) == Some((s, tail))
  {
    StringParses(s, tail);
    assert (Quote(s) + tail)[1..] == Escape(s) + ([QUOTE] + tail);
  }

  // ----- Numbers

  /** A canonical number is the spelling that `Render` writes. */
  lemma CanonicalIsSpelled(text: Text) returns (s: Spelling)
    requires Canonical(text) == Some(text)
    ensures WellSpelled(s) && Spell(s) == text
  {
    var spelled := ScanNumber(text).value.0;
    var e := ExponentWithinLimit(spelled.exponent).value;
    match Normalize(spelled, e)
    case None =>
      s := Spelling(false, [ZERO], [], NoExponent);
      assert Spell(s) == [ZERO];
    case Some(n) =>
      RenderSpells(n);
      s := Rendered(n);
  }

  lemma NumberParses(text: Text, tail: Text, nodes: nat)
    requires Canonical(text) == Some(text) && Delimited(tail)
    ensures ParseNumber(text + tail, nodes) == Ok(Num(text), tail, nodes)
    ensures text != [] && (text[0] == MINUS || IsDigit(text[0]))
  {
    var s := CanonicalIsSpelled(text);
    ScanSpelled(s, tail);
    assert (text + tail)[..|text|] == text;
    assert text[0] == if s.negative then MINUS else s.integer[0];
  }

  // ----- Values

  /** The first character of a printed value starts a value: it is no space and closes nothing. */
  predicate StartsValue(t: Text) {
    t != [] && !IsSpace(t[0]) && t[0] != CLOSE_BRACKET && t[0] != CLOSE_BRACE
  }

  lemma PrintStarts(v: Json)
    requires Canon(v) && Encodable(v)
    ensures StartsValue(Print(v))
  {
    if v.Num? { NumberParses(v.text, [], 0); }
  }

  lemma WordParses(v: Json, tail: Text, depth: nat, nodes: nat, l: Limits)
    requires v.Null? || v.Bool?
    requires depth <= l.maxDepth && nodes + 1 <= l.maxNodes
    ensures ParseValue(Print(v) + tail, depth, nodes, l) == Ok(v, tail, nodes + 1)
  {
    var word := Print(v);
    var t := word + tail;
    assert t[..|word|] == word && t[|word|..] == tail && t[0] == word[0];
  }

  lemma NumParses(text: Text, tail: Text, depth: nat, nodes: nat, l: Limits)
    requires Canonical(text) == Some(text) && Delimited(tail)
    requires depth <= l.maxDepth && nodes + 1 <= l.maxNodes
    ensures ParseValue(text + tail, depth, nodes, l) == Ok(Num(text), tail, nodes + 1)
  {
    hide ParseItems, ParseFields, ParseField, ParseNumber, ParseString, Canonical;
    NumberParses(text, tail, nodes + 1);
    var t := text + tail;
    assert t[0] == text[0];
    assert !StartsWith(t, TRUE) by { assert TRUE[0] != t[0]; }
    assert !StartsWith(t, FALSE) by { assert FALSE[0] != t[0]; }
    assert !StartsWith(t, NULL) by { assert NULL[0] != t[0]; }
  }

  lemma StrParses(s: Text, tail: Text, depth: nat, nodes: nat, l: Limits)
    requires Scalar(s) && depth <= l.maxDepth && nodes + 1 <= l.maxNodes
    ensures ParseValue(Quote(s) + tail, depth, nodes, l) == Ok(Str(s), tail, nodes + 1)
  {
    QuoteParses(s, tail);
  }

  lemma {:induction false} ValueParses(v: Json, tail: Text, depth: nat, nodes: nat, l: Limits)
    requires Canon(v) && Encodable(v) && Delimited(tail)
    requires WithinDepth(v, l.maxDepth - depth + 1) && nodes + Nodes(v) <= l.maxNodes
    ensures ParseValue(Print(v) + tail, depth, nodes, l) == Ok(v, tail, nodes + Nodes(v))
    decreases v, 3
  {
    hide ParseItems, ParseFields, ParseField, ParseNumber, ParseString, SortedKeys, PrintItems, PrintFields, Canonical;
    match v
    case Arr(items) =>
      ArrayParses(v, tail, depth, nodes + 1, l);
      OpensWith(OPEN_BRACKET, PrintItems(items), [CLOSE_BRACKET], tail);
    case Obj(fields) =>
      ObjectParses(v, tail, depth, nodes + 1, l);
      OpensWith(OPEN_BRACE, PrintFields(v, SortedKeys(fields.Keys)), [CLOSE_BRACE], tail);
    case Num(text) => NumParses(text, tail, depth, nodes, l);
    case Str(s) => StrParses(s, tail, depth, nodes, l);
    case _ => WordParses(v, tail, depth, nodes, l);
  }

  lemma OpensWith(c: Code, body: Text, close: Text, tail: Text)
    ensures var t := [c] + body + close + tail; t[0] == c && t[1..] == body + (close + tail)
  {
  }

  lemma {:induction false} ArrayParses(v: Json, tail: Text, depth: nat, nodes: nat, l: Limits)
    requires v.Arr? && Canon(v) && Encodable(v) && WithinDepth(v, l.maxDepth - depth + 1)
    requires nodes + NodesOfItems(v.items) <= l.maxNodes
    ensures ParseArray(PrintItems(v.items) + ([CLOSE_BRACKET] + tail), depth, nodes, l)
         == Ok(v, tail, nodes + NodesOfItems(v.items))
    decreases v, 2
  {
    var u := PrintItems(v.items) + ([CLOSE_BRACKET] + tail);
    if v.items == [] {
      assert u == [CLOSE_BRACKET] + tail && u[1..] == tail;
    } else {
      PrintItemsStarts(v.items, [CLOSE_BRACKET] + tail);
      ItemsParse(v.items, [], tail, depth, nodes, l);
      assert [] + v.items == v.items;
    }
  }

  /** What follows the first printed item. */
  ghost function AfterItem(items: seq<Json>, end: Text): Text
    requires items != []
  {
    if |items| == 1 then end else [COMMA] + (PrintItems(items[1..]) + end)
  }

  lemma ItemsText(items: seq<Json>, end: Text)
    requires items != []
    ensures PrintItems(items) + end == Print(items[0]) + AfterItem(items, end)
  {
  }

  /** After an item comes `]` or `,`. */
  lemma ItemsStep(t: Text, acc: seq<Json>, depth: nat, nodes: nat, l: Limits, v: Json, rest: Text, n: nat)
    requires ParseValue(t, depth + 1, nodes, l) == Ok(v, rest, n) && rest != []
    ensures rest[0] == CLOSE_BRACKET ==> ParseItems(t, acc, depth, nodes, l) == Ok(Arr(acc + [v]), rest[1..], n)
    ensures rest[0] == COMMA && SkipSpace(rest[1..]) == rest[1..] ==>
      ParseItems(t, acc, depth, nodes, l) == ParseItems(rest[1..], acc + [v], depth, n, l)
  {
  }

  lemma {:induction false} FirstItemParses(items: seq<Json>, acc: seq<Json>, tail: Text, depth: nat, nodes: nat, l: Limits)
    requires items != [] && nodes + Nodes(items[0]) <= l.maxNodes
    requires Canon(items[0]) && Encodable(items[0]) && WithinDepth(items[0], l.maxDepth - depth)
    requires |items| > 1 ==> Canon(items[1]) && Encodable(items[1])
    ensures var end := [CLOSE_BRACKET] + tail; var n := nodes + Nodes(items[0]);
      ParseItems(PrintItems(items) + end, acc, depth, nodes, l)
      == if |items| == 1 then Ok(Arr(acc + [items[0]]), tail, n)
         else ParseItems(PrintItems(items[1..]) + end, acc + [items[0]], depth, n, l)
    decreases items, 0
  {
    hide ParseValue, ParseItems, Print, PrintItems, Canon, Encodable, WithinDepth;
    var end := [CLOSE_BRACKET] + tail;
    var v, rest := items[0], AfterItem(items, end);
    ItemsText(items, end);
    ValueParses(v, rest, depth + 1, nodes, l);
    ItemsStep(Print(v) + rest, acc, depth, nodes, l, v, rest, nodes + Nodes(v));
    if |items| > 1 { PrintItemsStarts(items[1..], end); }
    assert rest[1..] == if |items| == 1 then tail else PrintItems(items[1..]) + end;
  }

  lemma {:induction false} ItemsParse(items: seq<Json>, acc: seq<Json>, tail: Text, depth: nat, nodes: nat, l: Limits)
    requires items != [] && nodes + NodesOfItems(items) <= l.maxNodes
    requires forall i :: 0 <= i < |items| ==>
      Canon(items[i]) && Encodable(items[i]) && WithinDepth(items[i], l.maxDepth - depth)
    ensures ParseItems(PrintItems(items) + ([CLOSE_BRACKET] + tail), acc, depth, nodes, l)
         == Ok(Arr(acc + items), tail, nodes + NodesOfItems(items))
    decreases items, 1
  {
    hide ParseValue, ParseItems, Print, PrintItems, Canon, Encodable, WithinDepth, Nodes;
    FirstItemParses(items, acc, tail, depth, nodes, l);
    if |items| == 1 {
      assert items == [items[0]] && NodesOfItems(items[1..]) == 0;
    } else {
      ItemsParse(items[1..], acc + [items[0]], tail, depth, nodes + Nodes(items[0]), l);
      assert acc + [items[0]] + items[1..] == acc + items;
    }
  }

  lemma PrintItemsStarts(items: seq<Json>, end: Text)
    requires items != [] && Canon(items[0]) && Encodable(items[0])
    ensures StartsValue(PrintItems(items) + end)
  {
    PrintStarts(items[0]);
    assert (PrintItems(items) + end)[0] == Print(items[0])[0];
  }

  lemma {:induction false} ObjectParses(v: Json, tail: Text, depth: nat, nodes: nat, l: Limits)
    requires v.Obj? && Canon(v) && Encodable(v) && WithinDepth(v, l.maxDepth - depth + 1)
    requires nodes + NodesOfFields(v, SortedKeys(v.fields.Keys)) <= l.maxNodes
    ensures ParseObject(PrintFields(v, SortedKeys(v.fields.Keys)) + ([CLOSE_BRACE] + tail), depth, nodes, l)
         == Ok(v, tail, nodes + NodesOfFields(v, SortedKeys(v.fields.Keys)))
    decreases v, 2
  {
    hide ParseValue, ParseFields, Print, SortedKeys, Canon, Encodable, WithinDepth, Less;
    var keys := SortedKeys(v.fields.Keys);
    var u := PrintFields(v, keys) + ([CLOSE_BRACE] + tail);
    if keys == [] {
      assert u == [CLOSE_BRACE] + tail && u[1..] == tail;
      assert v.fields.Keys == {};
      assert v == Obj(map[]);
    } else {
      assert u[0] == QUOTE by { FieldsText(v, keys, [CLOSE_BRACE] + tail); }
      FieldsParse(v, keys, map[], tail, depth, nodes, l);
      SelectAll(v, keys);
    }
  }

  function Select(v: Json, keys: seq<Text>): map<Text, Json>
    requires v.Obj? && forall k :: k in keys ==> k in v.fields
  {
    map k | k in keys :: v.fields[k]
  }

  lemma SelectAll(v: Json, keys: seq<Text>)
    requires v.Obj? && forall k :: k in keys <==> k in v.fields
    ensures map[] + Select(v, keys) == v.fields
  {
  }

  /** What follows the first printed field's value. */
  ghost function AfterField(v: Json, keys: seq<Text>, end: Text): Text
    requires v.Obj? && keys != [] && forall k :: k in keys ==> k in v.fields
  {
    if |keys| == 1 then end else [COMMA] + (PrintFields(v, keys[1..]) + end)
  }

  lemma FieldsText(v: Json, keys: seq<Text>, end: Text)
    requires v.Obj? && keys != [] && forall k :: k in keys ==> k in v.fields
    ensures PrintFields(v, keys) + end
         == Quote(keys[0]) + ([COLON] + (Print(v.fields[keys[0]]) + AfterField(v, keys, end)))
  {
    hide Quote, Print, PrintFields;
    FieldsUnfold(v, keys);
    FieldsTail(v, keys, end);
    Regroup5(Quote(keys[0]), [COLON], Print(v.fields[keys[0]]), MoreFields(v, keys), end);
  }

  ghost function MoreFields(v: Json, keys: seq<Text>): Text
    requires v.Obj? && keys != [] && forall k :: k in keys ==> k in v.fields
  {
    if |keys| == 1 then [] else [COMMA] + PrintFields(v, keys[1..])
  }

  lemma FieldsUnfold(v: Json, keys: seq<Text>)
    requires v.Obj? && keys != [] && forall k :: k in keys ==> k in v.fields
    ensures PrintFields(v, keys) == Quote(keys[0]) + [COLON] + Print(v.fields[keys[0]]) + MoreFields(v, keys)
  {
    hide Quote, Print;
  }

  lemma FieldsTail(v: Json, keys: seq<Text>, end: Text)
    requires v.Obj? && keys != [] && forall k :: k in keys ==> k in v.fields
    ensures AfterField(v, keys, end) == MoreFields(v, keys) + end
  {
    hide PrintFields;
    if |keys| > 1 { Regroup3([COMMA], PrintFields(v, keys[1..]), end); }
  }

  lemma Regroup3(a: Text, b: Text, c: Text)
    ensures a + b + c == a + (b + c)
  {
  }

  lemma Regroup5(a: Text, b: Text, c: Text, d: Text, e: Text)
    ensures a + b + c + d + e == a + (b + (c + (d + e)))
  {
  }

  /** One field: its key, the colon and its value. */
  lemma KeyParses(key: Text, value: Text)
    requires Scalar(key) && StartsValue(value)
    ensures var t := Quote(key) + ([COLON] + value);
      && t[0] == QUOTE && ParseString(t[1..]) == Some((key, [COLON] + value))
      && SkipSpace([COLON] + value) == [COLON] + value && SkipSpace(([COLON] + value)[1..]) == value
  {
    QuoteParses(key, [COLON] + value);
    assert ([COLON] + value)[1..] == value;
  }

  /** After a field comes `}` or `,`. */
  lemma FieldsStep(key: Text, value: Text, acc: map<Text, Json>, depth: nat, nodes: nat, l: Limits, x: Json, rest: Text, n: nat)
    requires Scalar(key) && key !in acc && StartsValue(value)
    requires ParseValue(value, depth + 1, nodes, l) == Ok(x, rest, n) && rest != []
    ensures var t := Quote(key) + ([COLON] + value);
      && (rest[0] == CLOSE_BRACE ==> ParseFields(t, acc, depth, nodes, l) == Ok(Obj(acc[key := x]), rest[1..], n))
      && (rest[0] == COMMA && SkipSpace(rest[1..]) == rest[1..] ==>
            ParseFields(t, acc, depth, nodes, l) == ParseFields(rest[1..], acc[key := x], depth, n, l))
  {
    KeyParses(key, value);
  }

  lemma {:induction false} FirstFieldParses(v: Json, keys: seq<Text>, acc: map<Text, Json>, tail: Text, depth: nat, nodes: nat, l: Limits)
    requires v.Obj? && keys != [] && (forall k :: k in keys ==> k in v.fields) && keys[0] !in acc
    requires Scalar(keys[0]) && nodes + Nodes(v.fields[keys[0]]) <= l.maxNodes
    requires var x := v.fields[keys[0]]; Canon(x) && Encodable(x) && WithinDepth(x, l.maxDepth - depth)
    ensures var end := [CLOSE_BRACE] + tail; var x := v.fields[keys[0]]; var n := nodes + Nodes(x);
      ParseFields(PrintFields(v, keys) + end, acc, depth, nodes, l)
      == if |keys| == 1 then Ok(Obj(acc[keys[0] := x]), tail, n)
         else ParseFields(PrintFields(v, keys[1..]) + end, acc[keys[0] := x], depth, n, l)
    decreases v, 0
  {
    hide ParseValue, ParseFields, Print, PrintFields, Canon, WithinDepth, Less;
    var end := [CLOSE_BRACE] + tail;
    var x, rest := v.fields[keys[0]], AfterField(v, keys, end);
    FieldsText(v, keys, end);
    PrintStarts(x);
    assert (Print(x) + rest)[0] == Print(x)[0];
    ValueParses(x, rest, depth + 1, nodes, l);
    FieldsStep(keys[0], Print(x) + rest, acc, depth, nodes, l, x, rest, nodes + Nodes(x));
    if |keys| > 1 { FieldsText(v, keys[1..], end); }
    assert rest[1..] == if |keys| == 1 then tail else PrintFields(v, keys[1..]) + end;
  }

  lemma {:induction false} FieldsParse(v: Json, keys: seq<Text>, acc: map<Text, Json>, tail: Text, depth: nat, nodes: nat, l: Limits)
    requires v.Obj? && keys != [] && Sorted(keys) && (forall k :: k in keys ==> k in v.fields && k !in acc)
    requires Canon(v) && Encodable(v) && WithinDepth(v, l.maxDepth - depth + 1)
    requires nodes + NodesOfFields(v, keys) <= l.maxNodes
    ensures ParseFields(PrintFields(v, keys) + ([CLOSE_BRACE] + tail), acc, depth, nodes, l)
         == Ok(Obj(acc + Select(v, keys)), tail, nodes + NodesOfFields(v, keys))
    decreases v, 1, |keys|
  {
    hide ParseValue, ParseFields, Print, PrintFields, Less, Select, Canon, Encodable, WithinDepth, Nodes;
    var key := keys[0];
    FieldIsAdmissible(v, key, l.maxDepth - depth);
    FirstFieldParses(v, keys, acc, tail, depth, nodes, l);
    SortedHead(keys);
    SelectStep(v, keys, acc);
    if |keys| == 1 {
      assert NodesOfFields(v, keys[1..]) == 0;
    } else {
      FieldsParse(v, keys[1..], acc[key := v.fields[key]], tail, depth, nodes + Nodes(v.fields[key]), l);
    }
  }

  lemma FieldIsAdmissible(v: Json, key: Text, d: int)
    requires v.Obj? && key in v.fields && Canon(v) && Encodable(v) && WithinDepth(v, d + 1)
    ensures Scalar(key) && Canon(v.fields[key]) && Encodable(v.fields[key]) && WithinDepth(v.fields[key], d)
  {
  }

  lemma SelectStep(v: Json, keys: seq<Text>, acc: map<Text, Json>)
    requires v.Obj? && keys != [] && Sorted(keys) && forall k :: k in keys ==> k in v.fields && k !in acc
    ensures acc[keys[0] := v.fields[keys[0]]] + Select(v, keys[1..]) == acc + Select(v, keys)
    ensures |keys| == 1 ==> acc[keys[0] := v.fields[keys[0]]] == acc + Select(v, keys)
  {
    SortedHead(keys);
  }

  // ----- Encodable text

  lemma {:induction false} EscapeIsScalar(s: Text)
    requires Scalar(s)
    ensures Scalar(Escape(s))
  {
    if s != [] { EscapeIsScalar(s[1..]); }
  }

  lemma SpellIsScalar(s: Spelling)
    requires WellSpelled(s)
    ensures Scalar(Spell(s))
  {
  }

  lemma {:induction false} PrintIsScalar(v: Json)
    requires Canon(v) && Encodable(v)
    ensures Scalar(Print(v))
    decreases v, 1
  {
    match v
    case Str(s) => EscapeIsScalar(s);
    case Num(text) => var s := CanonicalIsSpelled(text); SpellIsScalar(s);
    case Arr(items) => ItemsAreScalar(items);
    case Obj(fields) => FieldsAreScalar(v, SortedKeys(fields.Keys));
    case _ =>
  }

  lemma {:induction false} ItemsAreScalar(items: seq<Json>)
    requires forall i :: 0 <= i < |items| ==> Canon(items[i]) && Encodable(items[i])
    ensures Scalar(PrintItems(items))
    decreases items, 0
  {
    if items != [] {
      PrintIsScalar(items[0]);
      ItemsAreScalar(items[1..]);
    }
  }

  lemma {:induction false} FieldsAreScalar(v: Json, keys: seq<Text>)
    requires v.Obj? && Canon(v) && Encodable(v) && forall k :: k in keys ==> k in v.fields
    ensures Scalar(PrintFields(v, keys))
    decreases v, 0, |keys|
  {
    if keys != [] {
      EscapeIsScalar(keys[0]);
      PrintIsScalar(v.fields[keys[0]]);
      FieldsAreScalar(v, keys[1..]);
    }
  }

  /** A printed value decodes to that value, under any limits that leave room for it. */
  lemma PrintedDecodes(v: Json, l: Limits)
    requires ValidLimits(l) && Canon(v) && Encodable(v) && WithinDepth(v, l.maxDepth) && Nodes(v) <= l.maxNodes
    requires Utf8Size(Print(v)) <= l.maxInput
    ensures Decode(Print(v), l) == Success(v)
  {
    hide ParseValue, Print, Canon, Encodable, WithinDepth, Nodes, Utf8Size;
    PrintIsScalar(v);
    PrintStarts(v);
    ValueParses(v, [], 1, 0, l);
    assert Print(v) + [] == Print(v);
  }
}
