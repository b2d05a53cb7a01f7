/** Whatever the parser accepts is a text of the grammar; so it decodes exactly those, within the limits. */
module JsonReading {
  import opened Options
  import opened Unicode
  import opened JsonNumber
  import opened JsonNumberMeaning
  import opened JsonValue
  import opened JsonParse
  import opened JsonGrammar
  import opened JsonStrings
  import opened JsonDerivation

  /** `d` is a derivation of what was read from `t`. */
  ghost predicate Derives(d: Doc, t: Text, r: Parsed<Json>, depth: nat, nodes: nat, l: Limits) {
    && r.Ok? && Grammatical(d) && Fits(d, depth, nodes, l) && Denoted(d) == r.value
    && t == Yield(d) + r.rest && r.nodes == nodes + Size(d)
  }

  lemma {:induction false} ReadValue(t: Text, depth: nat, nodes: nat, l: Limits) returns (d: Doc)
    requires ParseValue(t, depth, nodes, l).Ok?
    ensures Derives(d, t, ParseValue(t, depth, nodes, l), depth, nodes, l)
    decreases |t|, 1
  {
    hide ParseArray, ParseObject, ParseNumber, ParseString, Derives;
    if t[0] == QUOTE {
      d := ReadStringValue(t, depth, nodes, l);
    } else if t[0] == OPEN_BRACE {
      d := ReadObject(t, depth, nodes, l);
    } else if t[0] == OPEN_BRACKET {
      d := ReadArray(t, depth, nodes, l);
    } else if StartsWith(t, TRUE) || StartsWith(t, FALSE) || StartsWith(t, NULL) {
      d := ReadWord(t, depth, nodes, l);
    } else {
      d := ReadNumber(t, depth, nodes, l);
    }
  }

  lemma ReadWord(t: Text, depth: nat, nodes: nat, l: Limits) returns (d: Doc)
    requires ParseValue(t, depth, nodes, l).Ok? && t[0] !in {QUOTE, OPEN_BRACE, OPEN_BRACKET}
    requires StartsWith(t, TRUE) || StartsWith(t, FALSE) || StartsWith(t, NULL)
    ensures Derives(d, t, ParseValue(t, depth, nodes, l), depth, nodes, l)
  {
    hide ParseArray, ParseObject, ParseNumber, ParseString;
    d := Word(ParseValue(t, depth, nodes, l).value);
    var n := if StartsWith(t, FALSE) && !StartsWith(t, TRUE) then 5 else 4;
    assert t == t[..n] + t[n..];
  }

  lemma ReadNumber(t: Text, depth: nat, nodes: nat, l: Limits) returns (d: Doc)
    requires ParseValue(t, depth, nodes, l).Ok? && t[0] !in {QUOTE, OPEN_BRACE, OPEN_BRACKET}
    requires !StartsWith(t, TRUE) && !StartsWith(t, FALSE) && !StartsWith(t, NULL)
    ensures Derives(d, t, ParseValue(t, depth, nodes, l), depth, nodes, l)
  {
    hide ParseArray, ParseObject, ParseString, ScanNumber, Canonical, Written;
    var style := ScannedIsWritten(t);
    var (s, rest) := ScanNumber(t).value;
    var w := Written(s, style);
    assert t[..|t| - |rest|] == w;
    d := Number(s, style, Canonical(w).value);
  }

  lemma ReadStringValue(t: Text, depth: nat, nodes: nat, l: Limits) returns (d: Doc)
    requires ParseValue(t, depth, nodes, l).Ok? && t[0] == QUOTE
    ensures Derives(d, t, ParseValue(t, depth, nodes, l), depth, nodes, l)
  {
    hide ParseString, PiecesFor;
    var ps := ReadString(t[1..]);
    var (s, rest) := ParseString(t[1..]).value;
    d := String(ps, s);
    Quoted(t, PiecesText(ps), rest);
  }

  lemma Quoted(t: Text, p: Text, rest: Text)
    requires t != [] && t[0] == QUOTE && t[1..] == p + ([QUOTE] + rest)
    ensures t == [QUOTE] + p + [QUOTE] + rest
  {
    assert t == [t[0]] + t[1..];
  }

  // ----- Arrays

  lemma {:induction false} ReadArray(t: Text, depth: nat, nodes: nat, l: Limits) returns (d: Doc)
    requires ParseValue(t, depth, nodes, l).Ok? && t[0] == OPEN_BRACKET
    ensures Derives(d, t, ParseValue(t, depth, nodes, l), depth, nodes, l)
    decreases |t|, 0
  {
    hide ParseItems, Fits, FitsItems, Grammatical, YieldItems, ParseValue, GrammaticalItems, SkipSpace;
    BracketOpens(t, depth, nodes, l);
    var u := SkipSpace(t[1..]);
    var blank := Skipped(t[1..]);
    SkippedIsBlank(t[1..]);
    assert t == [OPEN_BRACKET] + (blank + u);
    var r := ParseValue(t, depth, nodes, l);
    if u != [] && u[0] == CLOSE_BRACKET {
      d := Array(blank, []);
      EmptyArray(blank, depth, nodes, l);
      assert u == [CLOSE_BRACKET] + r.rest;
      Bracketed([OPEN_BRACKET], blank, [CLOSE_BRACKET], r.rest);
    } else {
      var items := ReadItems(u, [], depth, nodes + 1, l);
      var led := items[0 := items[0].(before := blank)];
      LeadItems(items, blank);
      d := Array([], led);
      ArrayOf(led, depth, nodes, l);
      Leading(blank, YieldItems(items), [CLOSE_BRACKET] + r.rest);
      Bracketed([OPEN_BRACKET], YieldItems(led), [CLOSE_BRACKET], r.rest);
      assert [] + DenotedItems(items) == DenotedItems(items);
    }
  }

  lemma BracketOpens(t: Text, depth: nat, nodes: nat, l: Limits)
    requires ParseValue(t, depth, nodes, l).Ok? && t[0] in {OPEN_BRACKET, OPEN_BRACE}
    ensures depth <= l.maxDepth && nodes + 1 <= l.maxNodes
    ensures ParseValue(t, depth, nodes, l) ==
      if t[0] == OPEN_BRACE then ParseObject(t[1..], depth, nodes + 1, l) else ParseArray(t[1..], depth, nodes + 1, l)
  {
    hide ParseArray, ParseObject, ParseNumber, ParseString;
  }

  lemma Bracketed(open: Text, inner: Text, close: Text, rest: Text)
    ensures open + (inner + (close + rest)) == open + inner + close + rest
  {
  }

  lemma Leading(blank: Text, inner: Text, rest: Text)
    ensures blank + (inner + rest) == blank + inner + rest
  {
  }

  lemma EmptyArray(blank: Text, depth: nat, nodes: nat, l: Limits)
    requires Blank(blank) && depth <= l.maxDepth && nodes + 1 <= l.maxNodes
    ensures var d := Array(blank, []);
      Grammatical(d) && Fits(d, depth, nodes, l) && Denoted(d) == Arr([]) && Size(d) == 1
  {
  }

  lemma ArrayOf(items: seq<Item>, depth: nat, nodes: nat, l: Limits)
    requires items != [] && GrammaticalItems(items) && FitsItems(items, depth, nodes + 1, l) && depth <= l.maxDepth
    ensures var d := Array([], items);
      Grammatical(d) && Fits(d, depth, nodes, l) && Size(d) == 1 + SizeOfItems(items) && Denoted(d) == Arr(DenotedItems(items))
  {
    var d := Array([], items);
    assert Grammatical(d);
    ArrayParts(d, depth, nodes, l);
  }

  /** Giving the first item leading white space changes nothing but the text. */
  lemma LeadItems(items: seq<Item>, blank: Text)
    requires items != [] && items[0].before == [] && GrammaticalItems(items) && Blank(blank)
    ensures var led := items[0 := items[0].(before := blank)];
      && GrammaticalItems(led) && YieldItems(led) == blank + YieldItems(items)
      && SizeOfItems(led) == SizeOfItems(items) && DenotedItems(led) == DenotedItems(items)
      && forall depth, nodes, l :: FitsItems(led, depth, nodes, l) <==> FitsItems(items, depth, nodes, l)
  {
    hide Grammatical, Yield, NumbersFit, KeysDiffer, Shallow;
    var led := items[0 := items[0].(before := blank)];
    assert led[1..] == items[1..];
    assert forall i :: 0 <= i < |items| ==> led[i].doc == items[i].doc;
    var more := if |items| == 1 then [] else [COMMA] + YieldItems(items[1..]);
    LeadText(blank, Yield(items[0].doc), items[0].after, more);
  }

  lemma LeadText(blank: Text, a: Text, b: Text, c: Text)
    ensures blank + a + b + c == blank + ([] + a + b + c)
  {
  }

  ghost predicate DerivesItems(items: seq<Item>, t: Text, acc: seq<Json>, r: Parsed<Json>, depth: nat, nodes: nat, l: Limits) {
    && r.Ok? && items != [] && items[0].before == [] && GrammaticalItems(items) && FitsItems(items, depth, nodes, l)
    && r.value == Arr(acc + DenotedItems(items)) && t == YieldItems(items) + ([CLOSE_BRACKET] + r.rest)
    && r.nodes == nodes + SizeOfItems(items)
  }

  lemma {:induction false} ReadItems(t: Text, acc: seq<Json>, depth: nat, nodes: nat, l: Limits) returns (items: seq<Item>)
    requires ParseItems(t, acc, depth, nodes, l).Ok?
    ensures DerivesItems(items, t, acc, ParseItems(t, acc, depth, nodes, l), depth, nodes, l)
    decreases |t|, 2
  {
    hide ParseValue, Fits, FitsItems, Grammatical, Yield, YieldItems, SkipSpace, GrammaticalItems;
    var d := ReadValue(t, depth + 1, nodes, l);
    var r := ParseValue(t, depth + 1, nodes, l);
    var blank, u := Skipped(r.rest), SkipSpace(r.rest);
    SkippedIsBlank(r.rest);
    var all := ParseItems(t, acc, depth, nodes, l);
    var item := Item([], d, blank);
    if u[0] == CLOSE_BRACKET {
      items := [item];
      LastItem(item, depth, nodes, l);
      assert u == [CLOSE_BRACKET] + all.rest;
      LastItemText(item, [CLOSE_BRACKET] + all.rest);
    } else {
      var next := SkipSpace(u[1..]);
      SkippedIsBlank(u[1..]);
      var more := ReadItems(next, acc + [r.value], depth, r.nodes, l);
      var led := more[0 := more[0].(before := Skipped(u[1..]))];
      LeadItems(more, Skipped(u[1..]));
      items := [item] + led;
      NextItem(item, led, depth, nodes, l);
      Leading(Skipped(u[1..]), YieldItems(more), [CLOSE_BRACKET] + all.rest);
      assert u == [COMMA] + u[1..];
      NextItemText(item, led, [CLOSE_BRACKET] + all.rest);
      AccItems(acc, r.value, DenotedItems(more));
    }
  }

  lemma AccItems(acc: seq<Json>, v: Json, more: seq<Json>)
    ensures acc + [v] + more == acc + ([v] + more)
  {
  }

  lemma LastItem(item: Item, depth: nat, nodes: nat, l: Limits)
    requires item.before == [] && Blank(item.after) && Grammatical(item.doc) && Fits(item.doc, depth + 1, nodes, l)
    ensures GrammaticalItems([item]) && FitsItems([item], depth, nodes, l)
    ensures SizeOfItems([item]) == Size(item.doc) && DenotedItems([item]) == [Denoted(item.doc)]
  {
    hide Grammatical, NumbersFit, KeysDiffer, Shallow, Size, Denoted;
    assert [item][1..] == [] && SizeOfItems([]) == 0;
    assert l.maxDepth - (depth + 1) + 1 == l.maxDepth - depth;
  }

  lemma LastItemText(item: Item, end: Text)
    requires item.before == []
    ensures YieldItems([item]) + end == Yield(item.doc) + (item.after + end)
  {
    hide Yield;
    ItemsText([item], end);
    assert [] + (Yield(item.doc) + (item.after + end)) == Yield(item.doc) + (item.after + end);
  }

  lemma NextItem(item: Item, more: seq<Item>, depth: nat, nodes: nat, l: Limits)
    requires more != [] && item.before == [] && Blank(item.after) && Grammatical(item.doc) && Fits(item.doc, depth + 1, nodes, l)
    requires GrammaticalItems(more) && FitsItems(more, depth, nodes + Size(item.doc), l)
    ensures var items := [item] + more;
      && GrammaticalItems(items) && FitsItems(items, depth, nodes, l)
      && SizeOfItems(items) == Size(item.doc) + SizeOfItems(more) && DenotedItems(items) == [Denoted(item.doc)] + DenotedItems(more)
  {
    hide Grammatical, NumbersFit, KeysDiffer, Shallow, Size, Denoted, Fits, FitsItems;
    var items := [item] + more;
    assert items[1..] == more;
    MoreItems(items, depth, nodes, l);
  }

  lemma NextItemText(item: Item, more: seq<Item>, end: Text)
    requires item.before == [] && more != []
    ensures YieldItems([item] + more) + end == Yield(item.doc) + (item.after + ([COMMA] + (YieldItems(more) + end)))
  {
    hide Yield;
    var items := [item] + more;
    assert items[1..] == more;
    ItemsText(items, end);
    var rest := Yield(item.doc) + AfterItem(items, end);
    assert [] + rest == rest;
  }

  // ----- Objects

  lemma {:induction false} ReadObject(t: Text, depth: nat, nodes: nat, l: Limits) returns (d: Doc)
    requires ParseValue(t, depth, nodes, l).Ok? && t[0] == OPEN_BRACE
    ensures Derives(d, t, ParseValue(t, depth, nodes, l), depth, nodes, l)
    decreases |t|, 0
  {
    hide ParseFields, Fits, FitsFields, Grammatical, YieldFields, ParseValue, GrammaticalFields, SkipSpace;
    BracketOpens(t, depth, nodes, l);
    var u := SkipSpace(t[1..]);
    var blank := Skipped(t[1..]);
    SkippedIsBlank(t[1..]);
    assert t == [OPEN_BRACE] + (blank + u);
    var r := ParseValue(t, depth, nodes, l);
    if u != [] && u[0] == CLOSE_BRACE {
      d := Object(blank, []);
      EmptyObject(blank, depth, nodes, l);
      assert u == [CLOSE_BRACE] + r.rest;
      Bracketed([OPEN_BRACE], blank, [CLOSE_BRACE], r.rest);
    } else {
      var fields := ReadFields(u, map[], depth, nodes + 1, l);
      var led := fields[0 := fields[0].(before := blank)];
      LeadFields(fields, blank);
      d := Object([], led);
      ObjectOf(led, depth, nodes, l);
      Leading(blank, YieldFields(fields), [CLOSE_BRACE] + r.rest);
      Bracketed([OPEN_BRACE], YieldFields(led), [CLOSE_BRACE], r.rest);
    }
  }

  lemma EmptyObject(blank: Text, depth: nat, nodes: nat, l: Limits)
    requires Blank(blank) && depth <= l.maxDepth && nodes + 1 <= l.maxNodes
    ensures var d := Object(blank, []);
      Grammatical(d) && Fits(d, depth, nodes, l) && Denoted(d) == Obj(map[]) && Size(d) == 1
  {
  }

  lemma ObjectOf(fields: seq<Field>, depth: nat, nodes: nat, l: Limits)
    requires fields != [] && GrammaticalFields(fields) && FitsFields(fields, map[], depth, nodes + 1, l) && depth <= l.maxDepth
    ensures var d := Object([], fields);
      && Grammatical(d) && Fits(d, depth, nodes, l) && Size(d) == 1 + SizeOfFields(fields)
      && Denoted(d) == Obj(DenotedFields(fields, map[]))
  {
    var d := Object([], fields);
    assert Grammatical(d) by {
      assert forall i :: 0 <= i < |fields| ==> GrammaticalField(fields[i]);
    }
    ObjectParts(d, depth, nodes, l);
  }

  lemma LeadFields(fields: seq<Field>, blank: Text)
    requires fields != [] && fields[0].before == [] && GrammaticalFields(fields) && Blank(blank)
    ensures var led := fields[0 := fields[0].(before := blank)];
      && GrammaticalFields(led) && YieldFields(led) == blank + YieldFields(fields)
      && SizeOfFields(led) == SizeOfFields(fields) && (forall acc :: DenotedFields(led, acc) == DenotedFields(fields, acc))
      && forall acc, depth, nodes, l :: FitsFields(led, acc, depth, nodes, l) <==> FitsFields(fields, acc, depth, nodes, l)
  {
    hide Grammatical, Yield, NumbersFit, KeysDiffer, Shallow;
    var led := fields[0 := fields[0].(before := blank)];
    assert led[1..] == fields[1..];
    assert KeyText(led[0]) == KeyText(fields[0]);
    hide KeyText;
    assert forall i :: 0 <= i < |fields| ==> led[i].doc == fields[i].doc && led[i].key == fields[i].key;
    assert GrammaticalFields(led) by {
      forall i | 0 <= i < |led| ensures GrammaticalField(led[i]) { assert GrammaticalField(fields[i]); }
    }
    var more := if |fields| == 1 then [] else [COMMA] + YieldFields(fields[1..]);
    LeadFieldText(blank, KeyText(fields[0]), Yield(fields[0].doc), fields[0].after, more);
    forall acc ensures DenotedFields(led, acc) == DenotedFields(fields, acc) { }
    forall acc ensures KeysFree(led, acc) <==> KeysFree(fields, acc) { }
  }

  lemma LeadFieldText(blank: Text, k: Text, a: Text, b: Text, c: Text)
    ensures blank + k + a + b + c == blank + ([] + k + a + b + c)
  {
  }

  ghost predicate DerivesFields(fields: seq<Field>, t: Text, acc: map<Text, Json>, r: Parsed<Json>, depth: nat, nodes: nat, l: Limits) {
    && r.Ok? && fields != [] && fields[0].before == [] && GrammaticalFields(fields) && FitsFields(fields, acc, depth, nodes, l)
    && r.value == Obj(DenotedFields(fields, acc)) && t == YieldFields(fields) + ([CLOSE_BRACE] + r.rest)
    && r.nodes == nodes + SizeOfFields(fields)
  }

  /** One field: the key, the colon and the value. */
  lemma {:induction false} ReadField(t: Text, acc: map<Text, Json>, depth: nat, nodes: nat, l: Limits) returns (f: Field)
    requires ParseField(t, acc, depth, nodes, l).Ok?
    ensures var r := ParseField(t, acc, depth, nodes, l);
      && f.before == f.after == [] && GrammaticalField(f) && f.key == r.value.0 && f.key !in acc
      && Fits(f.doc, depth + 1, nodes, l) && Denoted(f.doc) == r.value.1
      && t == KeyText(f) + (Yield(f.doc) + r.rest) && r.nodes == nodes + Size(f.doc)
    decreases |t|, 1
  {
    hide ParseValue, ParseString, PiecesFor, Fits, Grammatical, SkipSpace, Yield;
    var ps := ReadString(t[1..]);
    var (key, afterKey) := ParseString(t[1..]).value;
    var gap, u := Skipped(afterKey), SkipSpace(afterKey);
    SkippedIsBlank(afterKey);
    var lead, w := Skipped(u[1..]), SkipSpace(u[1..]);
    SkippedIsBlank(u[1..]);
    var d := ReadValue(w, depth + 1, nodes, l);
    f := Field([], ps, key, gap, lead, d, []);
    assert t == [QUOTE] + t[1..] && u == [COLON] + u[1..];
    KeyLaid(PiecesText(ps), gap, lead, w);
    Leading(KeyText(f), Yield(d), ParseValue(w, depth + 1, nodes, l).rest);
  }

  lemma KeyLaid(p: Text, gap: Text, lead: Text, w: Text)
    ensures [QUOTE] + (p + ([QUOTE] + (gap + ([COLON] + (lead + w))))) == [QUOTE] + p + [QUOTE] + gap + [COLON] + lead + w
  {
  }

  lemma {:induction false} ReadFields(t: Text, acc: map<Text, Json>, depth: nat, nodes: nat, l: Limits) returns (fields: seq<Field>)
    requires ParseFields(t, acc, depth, nodes, l).Ok?
    ensures DerivesFields(fields, t, acc, ParseFields(t, acc, depth, nodes, l), depth, nodes, l)
    decreases |t|, 2
  {
    hide ParseField, Fits, FitsFields, Grammatical, Yield, YieldFields, SkipSpace, KeyText, GrammaticalField, GrammaticalFields, Skipped, Denoted, DenotedFields, Size, SizeOfFields;
    var f := ReadField(t, acc, depth, nodes, l);
    var r := ParseField(t, acc, depth, nodes, l);
    var blank, u := Skipped(r.rest), SkipSpace(r.rest);
    SkippedIsBlank(r.rest);
    var all := ParseFields(t, acc, depth, nodes, l);
    var field := f.(after := blank);
    SameKey(f, blank);
    var table := acc[f.key := Denoted(f.doc)];
    if u[0] == CLOSE_BRACE {
      fields := [field];
      LastField(field, acc, depth, nodes, l);
      assert u == [CLOSE_BRACE] + all.rest;
      LastFieldText(field, [CLOSE_BRACE] + all.rest);
    } else {
      var next := SkipSpace(u[1..]);
      SkippedIsBlank(u[1..]);
      var more := ReadFields(next, table, depth, r.nodes, l);
      var led := more[0 := more[0].(before := Skipped(u[1..]))];
      LeadFields(more, Skipped(u[1..]));
      fields := [field] + led;
      NextField(field, led, acc, depth, nodes, l);
      Leading(Skipped(u[1..]), YieldFields(more), [CLOSE_BRACE] + all.rest);
      assert u == [COMMA] + u[1..];
      NextFieldText(field, led, [CLOSE_BRACE] + all.rest);
    }
  }

  lemma SameKey(f: Field, blank: Text)
    requires GrammaticalField(f) && Blank(blank)
    ensures GrammaticalField(f.(after := blank)) && KeyText(f.(after := blank)) == KeyText(f)
  {
  }

  lemma LastField(f: Field, acc: map<Text, Json>, depth: nat, nodes: nat, l: Limits)
    requires GrammaticalField(f) && f.key !in acc && Fits(f.doc, depth + 1, nodes, l)
    ensures GrammaticalFields([f]) && FitsFields([f], acc, depth, nodes, l)
    ensures SizeOfFields([f]) == Size(f.doc) && DenotedFields([f], acc) == acc[f.key := Denoted(f.doc)]
  {
    hide GrammaticalField, NumbersFit, KeysDiffer, Shallow, Size, Denoted;
    assert [f][1..] == [];
    NoFields([], acc[f.key := Denoted(f.doc)]);
  }

  lemma LastFieldText(f: Field, end: Text)
    requires f.before == []
    ensures YieldFields([f]) + end == KeyText(f) + (Yield(f.doc) + (f.after + end))
  {
    hide Yield, KeyText;
    FieldsText([f], end);
    var rest := KeyText(f) + (Yield(f.doc) + (f.after + end));
    assert [] + rest == rest;
  }

  lemma NextField(f: Field, more: seq<Field>, acc: map<Text, Json>, depth: nat, nodes: nat, l: Limits)
    requires more != [] && GrammaticalField(f) && f.key !in acc && Fits(f.doc, depth + 1, nodes, l)
    requires GrammaticalFields(more) && FitsFields(more, acc[f.key := Denoted(f.doc)], depth, nodes + Size(f.doc), l)
    ensures var fields := [f] + more;
      && GrammaticalFields(fields) && FitsFields(fields, acc, depth, nodes, l)
      && SizeOfFields(fields) == Size(f.doc) + SizeOfFields(more)
      && DenotedFields(fields, acc) == DenotedFields(more, acc[f.key := Denoted(f.doc)])
  {
    hide GrammaticalField, NumbersFit, KeysDiffer, Shallow, Size, Denoted, Fits, FitsFields;
    var fields := [f] + more;
    assert fields[1..] == more;
    MoreFields(fields, acc, depth, nodes, l);
  }

  lemma NextFieldText(f: Field, more: seq<Field>, end: Text)
    requires f.before == [] && more != []
    ensures YieldFields([f] + more) + end == KeyText(f) + (Yield(f.doc) + (f.after + ([COMMA] + (YieldFields(more) + end))))
  {
    hide Yield, KeyText;
    var fields := [f] + more;
    assert fields[1..] == more;
    FieldsText(fields, end);
    var rest := KeyText(f) + (Yield(f.doc) + AfterField(fields, end));
    assert [] + rest == rest;
  }

  // ----- Whole texts

  /** `text` is the text `d`, with white space around it. */
  ghost predicate IsTextOf(text: Text, lead: Text, d: Doc, trail: Text) {
    Blank(lead) && Blank(trail) && Grammatical(d) && text == lead + Yield(d) + trail
  }

  /** What `decode` does with a text of the grammar: its value when it respects the limits; otherwise a code that says
      which limit, duplicate key or number is to blame. */
  lemma DecodeJudges(text: Text, lead: Text, d: Doc, trail: Text, l: Limits)
    requires IsTextOf(text, lead, d, trail) && ValidLimits(l) && Scalar(text) && Utf8Size(text) <= l.maxInput
    ensures Decode(text, l).Success? ==> Fits(d, 1, 0, l) && Decode(text, l).value == Denoted(d)
    ensures Decode(text, l).Failure? ==> Reason(Decode(text, l).code, d, 1, 0, l)
  {
    hide ParseValue, Yield, Fits, Reason, Grammatical, Utf8Size;
    Leading(lead, Yield(d), trail);
    DocStart(d);
    var inner := Yield(d) + trail;
    assert inner[0] == Yield(d)[0];
    SkipBlank(lead, inner);
    NotBlank(inner);
    BlankIsDelimited(trail);
    ValueRead(d, trail, 1, 0, l);
  }

  lemma BlankIsDelimited(t: Text)
    requires Blank(t)
    ensures Delimited(t) && SkipSpace(t) == []
  {
    SkipBlank(t, []);
    assert t + [] == t;
  }

  /** `decode` succeeds with `v` exactly on the texts of the grammar that denote `v` and respect the limits. */
  lemma DecodeExactly(text: Text, l: Limits, v: Json)
    ensures Decode(text, l) == Success(v) <==>
      && ValidLimits(l) && Scalar(text) && Utf8Size(text) <= l.maxInput
      && exists lead, d, trail :: IsTextOf(text, lead, d, trail) && Fits(d, 1, 0, l) && Denoted(d) == v
  {
    hide ParseValue, Yield, Fits, Reason, Grammatical, Utf8Size;
    if Decode(text, l) == Success(v) {
      var u := SkipSpace(text);
      SkippedIsBlank(text);
      var d := ReadValue(u, 1, 0, l);
      var rest := ParseValue(u, 1, 0, l).rest;
      SkippedIsBlank(rest);
      assert rest == Skipped(rest);
      Leading(Skipped(text), Yield(d), rest);
      assert IsTextOf(text, Skipped(text), d, rest);
    }
    if ValidLimits(l) && Scalar(text) && Utf8Size(text) <= l.maxInput {
      if lead, d, trail :| IsTextOf(text, lead, d, trail) && Fits(d, 1, 0, l) && Denoted(d) == v {
        DecodeJudges(text, lead, d, trail, l);
        if Decode(text, l).Failure? { NotBoth(Decode(text, l).code, d, l); }
      }
    }
  }

  /** A text within the limits gives no reason to reject it. */
  lemma NotBoth(code: ErrorCode, d: Doc, l: Limits)
    requires Fits(d, 1, 0, l)
    ensures !Reason(code, d, 1, 0, l)
  {
  }
}
