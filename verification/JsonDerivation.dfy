/** The parser accepts exactly the texts of the grammar that respect the limits, and says why it rejects the others. */
module JsonDerivation {
  import opened Options
  import opened Unicode
  import opened JsonNumber
  import opened JsonNumberMeaning
  import opened JsonValue
  import opened JsonParse
  import opened JsonGrammar
  import opened JsonStrings

  // ----- White space

  lemma {:induction false} SkipBlank(b: Text, t: Text)
    requires Blank(b)
    ensures SkipSpace(b + t) == SkipSpace(t)
  {
    if b == [] {
      assert b + t == t;
    } else {
      assert (b + t)[0] == b[0] && (b + t)[1..] == b[1..] + t;
      SkipBlank(b[1..], t);
    }
  }

  function Skipped(t: Text): Text {
    t[..|t| - |SkipSpace(t)|]
  }

  lemma {:induction false} SkippedIsBlank(t: Text)
    ensures Blank(Skipped(t)) && t == Skipped(t) + SkipSpace(t)
    ensures SkipSpace(t) != [] ==> !IsSpace(SkipSpace(t)[0])
  {
    if t != [] && IsSpace(t[0]) {
      SkippedIsBlank(t[1..]);
      assert Skipped(t) == [t[0]] + Skipped(t[1..]);
      assert t == [t[0]] + t[1..];
    }
  }

  lemma NotBlank(t: Text)
    requires t != [] && !IsSpace(t[0])
    ensures SkipSpace(t) == t
  {
  }

  // ----- Limits

  ghost predicate Fits(d: Doc, depth: nat, nodes: nat, l: Limits) {
    NumbersFit(d) && KeysDiffer(d) && Shallow(d, l.maxDepth - depth + 1) && nodes + Size(d) <= l.maxNodes
  }

  /** What an error code says about a text of the grammar. */
  ghost predicate Reason(code: ErrorCode, d: Doc, depth: nat, nodes: nat, l: Limits) {
    match code
    case KS3602 => !Shallow(d, l.maxDepth - depth + 1)
    case KS3603 => nodes + Size(d) > l.maxNodes
    case KS3604 => !KeysDiffer(d)
    case KS3605 => !NumbersFit(d)
    case _ => false
  }

  ghost predicate Judged(r: Parsed<Json>, d: Doc, tail: Text, depth: nat, nodes: nat, l: Limits) {
    match r
    case Ok(v, rest, n) => Fits(d, depth, nodes, l) && v == Denoted(d) && rest == tail && n == nodes + Size(d)
    case Fail(code) => Reason(code, d, depth, nodes, l)
  }

  // ----- Items and fields

  ghost predicate GrammaticalItems(items: seq<Item>) {
    forall i :: 0 <= i < |items| ==> Blank(items[i].before) && Blank(items[i].after) && Grammatical(items[i].doc)
  }

  ghost predicate FitsItems(items: seq<Item>, depth: nat, nodes: nat, l: Limits) {
    && (forall i :: 0 <= i < |items| ==>
          NumbersFit(items[i].doc) && KeysDiffer(items[i].doc) && Shallow(items[i].doc, l.maxDepth - depth))
    && nodes + SizeOfItems(items) <= l.maxNodes
  }

  ghost predicate ReasonItems(code: ErrorCode, items: seq<Item>, depth: nat, nodes: nat, l: Limits) {
    match code
    case KS3602 => exists i :: 0 <= i < |items| && !Shallow(items[i].doc, l.maxDepth - depth)
    case KS3603 => nodes + SizeOfItems(items) > l.maxNodes
    case KS3604 => exists i :: 0 <= i < |items| && !KeysDiffer(items[i].doc)
    case KS3605 => exists i :: 0 <= i < |items| && !NumbersFit(items[i].doc)
    case _ => false
  }

  ghost predicate JudgedItems(r: Parsed<Json>, items: seq<Item>, acc: seq<Json>, tail: Text, depth: nat, nodes: nat, l: Limits) {
    match r
    case Ok(v, rest, n) =>
      FitsItems(items, depth, nodes, l) && v == Arr(acc + DenotedItems(items)) && rest == tail && n == nodes + SizeOfItems(items)
    case Fail(code) => ReasonItems(code, items, depth, nodes, l)
  }

  /** What follows the first item. */
  function AfterItem(items: seq<Item>, end: Text): Text
    requires items != []
  {
    items[0].after + (if |items| == 1 then end else [COMMA] + (YieldItems(items[1..]) + end))
  }

  lemma ItemsText(items: seq<Item>, end: Text)
    requires items != []
    ensures YieldItems(items) + end == items[0].before + (Yield(items[0].doc) + AfterItem(items, end))
  {
    hide Yield;
    var i := items[0];
    if |items| == 1 {
      Regroup([], i.before, Yield(i.doc), i.after, [], end);
    } else {
      Regroup([COMMA], i.before, Yield(i.doc), i.after, YieldItems(items[1..]), end);
    }
  }

  lemma Regroup(comma: Text, a: Text, b: Text, c: Text, d: Text, e: Text)
    ensures a + b + c + (comma + d) + e == a + (b + (c + (comma + (d + e))))
    ensures comma == d == [] ==> a + b + c + [] + e == a + (b + (c + e))
  {
  }

  /** After a value come blanks, a comma or a bracket: nothing that could continue a number. */
  lemma AfterIsDelimited(blank: Text, rest: Text)
    requires Blank(blank) && rest != [] && rest[0] in {COMMA, CLOSE_BRACKET, CLOSE_BRACE}
    ensures Delimited(blank + rest) && SkipSpace(blank + rest) == rest
  {
    SkipBlank(blank, rest);
    NotBlank(rest);
    if blank != [] { assert (blank + rest)[0] == blank[0]; } else { assert blank + rest == rest; }
  }

  // ----- Reading what the grammar writes

  lemma {:induction false} ValueRead(d: Doc, tail: Text, depth: nat, nodes: nat, l: Limits)
    requires Grammatical(d) && Delimited(tail)
    ensures Judged(ParseValue(Yield(d) + tail, depth, nodes, l), d, tail, depth, nodes, l)
    decreases d, 2
  {
    hide ParseArray, ParseObject, ParseNumber, ParseString, ScanNumber, Canonical, YieldItems, YieldFields, Written;
    if depth > l.maxDepth || nodes + 1 > l.maxNodes {
      LimitsFirst(d, tail, depth, nodes, l);
    } else {
      match d
      case Word(v) => WordRead(d, tail, depth, nodes, l);
      case Number(_, _, _) => NumberRead(d, tail, depth, nodes, l);
      case String(_, _) => StringValueRead(d, tail, depth, nodes, l);
      case Array(_, _) => ArrayRead(d, tail, depth, nodes, l);
      case Object(_, _) => ObjectRead(d, tail, depth, nodes, l);
    }
  }

  lemma LimitsFirst(d: Doc, tail: Text, depth: nat, nodes: nat, l: Limits)
    requires depth > l.maxDepth || nodes + 1 > l.maxNodes
    ensures Judged(ParseValue(Yield(d) + tail, depth, nodes, l), d, tail, depth, nodes, l)
  {
    hide Yield;
    assert Size(d) >= 1;
  }

  lemma WordRead(d: Doc, tail: Text, depth: nat, nodes: nat, l: Limits)
    requires d.Word? && Grammatical(d) && depth <= l.maxDepth && nodes + 1 <= l.maxNodes
    ensures Judged(ParseValue(Yield(d) + tail, depth, nodes, l), d, tail, depth, nodes, l)
  {
    hide ParseString, ParseObject, ParseArray, ParseNumber;
    var word := Yield(d);
    var t := word + tail;
    assert t[..|word|] == word && t[|word|..] == tail;
    assert t[0] == word[0] && StartsWith(t, word);
    WordLetter(t);
  }

  lemma NumberRead(d: Doc, tail: Text, depth: nat, nodes: nat, l: Limits)
    requires d.Number? && Grammatical(d) && Delimited(tail) && depth <= l.maxDepth && nodes + 1 <= l.maxNodes
    ensures Judged(ParseValue(Yield(d) + tail, depth, nodes, l), d, tail, depth, nodes, l)
  {
    hide ScanNumber, Canonical, ParseString, ParseObject, ParseArray, Written;
    var w := Written(d.spelling, d.style);
    var t := w + tail;
    ScanWritten(d.spelling, d.style, tail);
    NumberStart(d.spelling, d.style);
    assert t[0] == w[0] && t[..|t| - |tail|] == w;
    assert t[0] == MINUS || IsDigit(t[0]);
    WordLetter(t);
  }

  lemma WordLetter(t: Text)
    requires t != []
    ensures StartsWith(t, TRUE) ==> t[0] == 0x74
    ensures StartsWith(t, FALSE) ==> t[0] == 0x66
    ensures StartsWith(t, NULL) ==> t[0] == 0x6E
  {
    if StartsWith(t, TRUE) { assert t[..4][0] == t[0]; }
    if StartsWith(t, FALSE) { assert t[..5][0] == t[0]; }
    if StartsWith(t, NULL) { assert t[..4][0] == t[0]; }
  }

  lemma NumberStart(s: Spelling, style: Style)
    requires WellSpelled(s)
    ensures Written(s, style) != [] && (Written(s, style)[0] == MINUS || IsDigit(Written(s, style)[0]))
  {
    hide WrittenExponent, SpellFraction;
    if !s.negative { assert Written(s, style)[0] == s.integer[0]; }
  }

  lemma StringValueRead(d: Doc, tail: Text, depth: nat, nodes: nat, l: Limits)
    requires d.String? && Grammatical(d) && depth <= l.maxDepth && nodes + 1 <= l.maxNodes
    ensures Judged(ParseValue(Yield(d) + tail, depth, nodes, l), d, tail, depth, nodes, l)
  {
    hide ParseString, ParseObject, ParseArray, ParseNumber, PiecesText, PiecesFor;
    QuotedText(PiecesText(d.pieces), tail);
    StringRead(d.pieces, d.s, tail);
  }

  lemma QuotedText(p: Text, tail: Text)
    ensures var t := [QUOTE] + p + [QUOTE] + tail; t[0] == QUOTE && t[1..] == p + ([QUOTE] + tail)
  {
  }

  lemma {:induction false} ArrayRead(d: Doc, tail: Text, depth: nat, nodes: nat, l: Limits)
    requires d.Array? && Grammatical(d) && depth <= l.maxDepth && nodes + 1 <= l.maxNodes
    ensures Judged(ParseValue(Yield(d) + tail, depth, nodes, l), d, tail, depth, nodes, l)
    decreases d, 1
  {
    hide ParseItems, ParseString, ParseObject, ParseNumber, YieldItems, NumbersFit, KeysDiffer, Shallow, Grammatical;
    var end := [CLOSE_BRACKET] + tail;
    var t := Yield(d) + tail;
    var inner := if d.items == [] then d.space else YieldItems(d.items);
    assert t[0] == OPEN_BRACKET && t[1..] == inner + end;
    ArrayParts(d, depth, nodes, l);
    if d.items == [] {
      AfterIsDelimited(d.space, end);
      assert end[1..] == tail;
      assert DenotedItems(d.items) == [] && SizeOfItems(d.items) == 0;
      assert ParseArray(t[1..], depth, nodes + 1, l) == Ok(Arr([]), tail, nodes + 1);
    } else {
      ItemsRead(d.items, [], tail, depth, nodes + 1, l);
      ItemsStart(d.items, end);
    }
  }

  /** An array in terms of its items. */
  lemma ArrayParts(d: Doc, depth: nat, nodes: nat, l: Limits)
    requires d.Array? && Grammatical(d) && depth <= l.maxDepth
    ensures Blank(d.space) && GrammaticalItems(d.items)
    ensures Fits(d, depth, nodes, l) <==> FitsItems(d.items, depth, nodes + 1, l)
    ensures forall code :: ReasonItems(code, d.items, depth, nodes + 1, l) ==> Reason(code, d, depth, nodes, l)
  {
  }

  /** Where the items start there is a value, not a closing bracket. */
  lemma ItemsStart(items: seq<Item>, end: Text)
    requires items != [] && GrammaticalItems(items)
    ensures var u := SkipSpace(YieldItems(items) + end);
      u == Yield(items[0].doc) + AfterItem(items, end) && u[0] != CLOSE_BRACKET
  {
    hide Yield, AfterItem;
    var i := items[0];
    ItemsText(items, end);
    DocStart(i.doc);
    var rest := Yield(i.doc) + AfterItem(items, end);
    assert rest[0] == Yield(i.doc)[0];
    SkipBlank(i.before, rest);
    NotBlank(rest);
  }

  lemma DocStart(d: Doc)
    requires Grammatical(d)
    ensures Yield(d) != [] && !IsSpace(Yield(d)[0]) && Yield(d)[0] !in {CLOSE_BRACKET, CLOSE_BRACE, COMMA, COLON}
  {
    hide PiecesText, YieldItems, YieldFields, Written;
    if d.Number? { NumberStart(d.spelling, d.style); }
  }

  lemma {:induction false} ItemsRead(items: seq<Item>, acc: seq<Json>, tail: Text, depth: nat, nodes: nat, l: Limits)
    requires items != [] && GrammaticalItems(items)
    ensures JudgedItems(ParseItems(SkipSpace(YieldItems(items) + ([CLOSE_BRACKET] + tail)), acc, depth, nodes, l), items, acc, tail, depth, nodes, l)
    decreases items, 0
  {
    hide ParseValue, Yield, YieldItems, Grammatical, ParseItems, Judged, JudgedItems, GrammaticalItems, AfterItem;
    var end := [CLOSE_BRACKET] + tail;
    var i := items[0];
    GrammaticalTail(items);
    ItemsStart(items, end);
    AfterFirstItem(items, end);
    var after := AfterItem(items, end);
    var u := Yield(i.doc) + after;
    ValueRead(i.doc, after, depth + 1, nodes, l);
    var r := ParseValue(u, depth + 1, nodes, l);
    JudgedRest(r, i.doc, after, depth + 1, nodes, l);
    ItemsUnfold(u, acc, depth, nodes, l, after, end);
    var whole := ParseItems(u, acc, depth, nodes, l);
    if r.Ok? && |items| > 1 {
      ItemsRead(items[1..], acc + [r.value], tail, depth, r.nodes, l);
    }
    assert end[1..] == tail;
    ItemsVerdict(r, whole, items, acc, after, tail, depth, nodes, l);
  }

  lemma GrammaticalTail(items: seq<Item>)
    requires items != [] && GrammaticalItems(items)
    ensures Grammatical(items[0].doc) && GrammaticalItems(items[1..])
  {
    hide Grammatical;
  }

  lemma JudgedRest(r: Parsed<Json>, d: Doc, tail: Text, depth: nat, nodes: nat, l: Limits)
    requires Judged(r, d, tail, depth, nodes, l)
    ensures r.Ok? ==> r.rest == tail && r.nodes == nodes + Size(d) && r.value == Denoted(d)
  {
  }

  /** The verdict on the first item, and the verdict on the others when it was read, make the verdict on all. */
  lemma ItemsVerdict(r: Parsed<Json>, whole: Parsed<Json>, items: seq<Item>, acc: seq<Json>, after: Text, tail: Text, depth: nat, nodes: nat, l: Limits)
    requires items != [] && Judged(r, items[0].doc, after, depth + 1, nodes, l)
    requires r.Fail? ==> whole == Fail(r.code)
    requires r.Ok? && |items| == 1 ==> whole == Ok(Arr(acc + [r.value]), tail, r.nodes)
    requires r.Ok? && |items| > 1 ==> JudgedItems(whole, items[1..], acc + [r.value], tail, depth, r.nodes, l)
    ensures JudgedItems(whole, items, acc, tail, depth, nodes, l)
  {
    hide NumbersFit, KeysDiffer, Shallow, Denoted, Size;
    MoreItems(items, depth, nodes, l);
    if r.Ok? {
      if |items| == 1 { assert DenotedItems(items[1..]) == [] && SizeOfItems(items[1..]) == 0; }
      assert acc + [r.value] + DenotedItems(items[1..]) == acc + ([r.value] + DenotedItems(items[1..]));
    }
  }

  /** One step of the item loop. */
  lemma ItemsUnfold(u: Text, acc: seq<Json>, depth: nat, nodes: nat, l: Limits, after: Text, end: Text)
    requires SkipSpace(after) != [] && SkipSpace(after)[0] in {COMMA, CLOSE_BRACKET}
    requires ParseValue(u, depth + 1, nodes, l).Ok? ==> ParseValue(u, depth + 1, nodes, l).rest == after
    ensures var w := SkipSpace(after);
      ParseItems(u, acc, depth, nodes, l) ==
        match ParseValue(u, depth + 1, nodes, l)
        case Fail(code) => Fail(code)
        case Ok(v, _, n) =>
          if w[0] == CLOSE_BRACKET then Ok(Arr(acc + [v]), w[1..], n) else ParseItems(SkipSpace(w[1..]), acc + [v], depth, n, l)
  {
    hide ParseValue;
  }

  lemma AfterFirstItem(items: seq<Item>, end: Text)
    requires items != [] && GrammaticalItems(items) && end != [] && end[0] == CLOSE_BRACKET
    ensures var after := AfterItem(items, end); var w := SkipSpace(after);
      && Delimited(after) && w != []
      && if |items| == 1 then w == end else w[0] == COMMA && w[1..] == YieldItems(items[1..]) + end
  {
    hide YieldItems, Grammatical;
    var rest := if |items| == 1 then end else [COMMA] + (YieldItems(items[1..]) + end);
    AfterIsDelimited(items[0].after, rest);
    if |items| > 1 { assert rest[1..] == YieldItems(items[1..]) + end; }
  }

  /** The verdicts on the first item and on the others make the verdict on all. */
  lemma MoreItems(items: seq<Item>, depth: nat, nodes: nat, l: Limits)
    requires items != []
    ensures var first := items[0].doc; var n := nodes + Size(first);
      && (FitsItems(items, depth, nodes, l) <==> Fits(first, depth + 1, nodes, l) && FitsItems(items[1..], depth, n, l))
      && (forall code :: Reason(code, first, depth + 1, nodes, l) ==> ReasonItems(code, items, depth, nodes, l))
      && (forall code :: ReasonItems(code, items[1..], depth, n, l) ==> ReasonItems(code, items, depth, nodes, l))
      && DenotedItems(items) == [Denoted(first)] + DenotedItems(items[1..])
  {
    hide NumbersFit, KeysDiffer, Shallow, Denoted, Size;
    var rest := items[1..];
    assert forall i :: 0 < i < |items| ==> items[i] == rest[i - 1];
    forall code | ReasonItems(code, rest, depth, nodes + Size(items[0].doc), l) ensures ReasonItems(code, items, depth, nodes, l) {
      match code
      case KS3602 => var i :| 0 <= i < |rest| && !Shallow(rest[i].doc, l.maxDepth - depth); assert items[i + 1] == rest[i];
      case KS3604 => var i :| 0 <= i < |rest| && !KeysDiffer(rest[i].doc); assert items[i + 1] == rest[i];
      case KS3605 => var i :| 0 <= i < |rest| && !NumbersFit(rest[i].doc); assert items[i + 1] == rest[i];
      case _ =>
    }
  }

  // ----- Objects

  ghost predicate GrammaticalField(f: Field) {
    && Blank(f.before) && Blank(f.gap) && Blank(f.lead) && Blank(f.after)
    && PiecesFor(f.pieces, f.key) && Grammatical(f.doc)
  }

  ghost predicate GrammaticalFields(fields: seq<Field>) {
    forall i :: 0 <= i < |fields| ==> GrammaticalField(fields[i])
  }

  /** No key repeats another or one of `acc`, here or further inside. */
  ghost predicate KeysFree(fields: seq<Field>, acc: map<Text, Json>) {
    && (forall i :: 0 <= i < |fields| ==> fields[i].key !in acc && KeysDiffer(fields[i].doc))
    && (forall i, j :: 0 <= i < j < |fields| ==> fields[i].key != fields[j].key)
  }

  ghost predicate FitsFields(fields: seq<Field>, acc: map<Text, Json>, depth: nat, nodes: nat, l: Limits) {
    && (forall i :: 0 <= i < |fields| ==> NumbersFit(fields[i].doc) && Shallow(fields[i].doc, l.maxDepth - depth))
    && KeysFree(fields, acc) && nodes + SizeOfFields(fields) <= l.maxNodes
  }

  ghost predicate ReasonFields(code: ErrorCode, fields: seq<Field>, acc: map<Text, Json>, depth: nat, nodes: nat, l: Limits) {
    match code
    case KS3602 => exists i :: 0 <= i < |fields| && !Shallow(fields[i].doc, l.maxDepth - depth)
    case KS3603 => nodes + SizeOfFields(fields) > l.maxNodes
    case KS3604 => !KeysFree(fields, acc)
    case KS3605 => exists i :: 0 <= i < |fields| && !NumbersFit(fields[i].doc)
    case _ => false
  }

  ghost predicate JudgedFields(r: Parsed<Json>, fields: seq<Field>, acc: map<Text, Json>, tail: Text, depth: nat, nodes: nat, l: Limits) {
    match r
    case Ok(v, rest, n) =>
      && FitsFields(fields, acc, depth, nodes, l) && v == Obj(DenotedFields(fields, acc))
      && rest == tail && n == nodes + SizeOfFields(fields)
    case Fail(code) => ReasonFields(code, fields, acc, depth, nodes, l)
  }

  /** What follows the value of the first field. */
  function AfterField(fields: seq<Field>, end: Text): Text
    requires fields != []
  {
    fields[0].after + (if |fields| == 1 then end else [COMMA] + (YieldFields(fields[1..]) + end))
  }

  lemma FieldsText(fields: seq<Field>, end: Text)
    requires fields != []
    ensures YieldFields(fields) + end ==
      fields[0].before + (KeyText(fields[0]) + (Yield(fields[0].doc) + AfterField(fields, end)))
  {
    hide Yield, KeyText;
    var f := fields[0];
    if |fields| == 1 {
      RegroupField([], f.before, KeyText(f), Yield(f.doc), f.after, [], end);
    } else {
      RegroupField([COMMA], f.before, KeyText(f), Yield(f.doc), f.after, YieldFields(fields[1..]), end);
    }
  }

  lemma RegroupField(comma: Text, a: Text, k: Text, b: Text, c: Text, d: Text, e: Text)
    ensures a + k + b + c + (comma + d) + e == a + (k + (b + (c + (comma + (d + e)))))
    ensures comma == d == [] ==> a + k + b + c + [] + e == a + (k + (b + (c + e)))
  {
  }

  lemma {:induction false} ObjectRead(d: Doc, tail: Text, depth: nat, nodes: nat, l: Limits)
    requires d.Object? && Grammatical(d) && depth <= l.maxDepth && nodes + 1 <= l.maxNodes
    ensures Judged(ParseValue(Yield(d) + tail, depth, nodes, l), d, tail, depth, nodes, l)
    decreases d, 1
  {
    hide ParseFields, ParseString, ParseArray, ParseNumber, YieldFields, NumbersFit, KeysDiffer, Shallow, Grammatical;
    var end := [CLOSE_BRACE] + tail;
    var t := Yield(d) + tail;
    var inner := if d.fields == [] then d.space else YieldFields(d.fields);
    assert t[0] == OPEN_BRACE && t[1..] == inner + end;
    ObjectParts(d, depth, nodes, l);
    if d.fields == [] {
      AfterIsDelimited(d.space, end);
      assert end[1..] == tail;
      NoFields(d.fields, map[]);
      assert ParseObject(t[1..], depth, nodes + 1, l) == Ok(Obj(map[]), tail, nodes + 1);
    } else {
      FieldsRead(d.fields, map[], tail, depth, nodes + 1, l);
      FieldsStart(d.fields, end);
    }
  }

  /** An object in terms of its fields. */
  lemma ObjectParts(d: Doc, depth: nat, nodes: nat, l: Limits)
    requires d.Object? && Grammatical(d) && depth <= l.maxDepth
    ensures Blank(d.space) && GrammaticalFields(d.fields)
    ensures Fits(d, depth, nodes, l) <==> FitsFields(d.fields, map[], depth, nodes + 1, l)
    ensures forall code :: ReasonFields(code, d.fields, map[], depth, nodes + 1, l) ==> Reason(code, d, depth, nodes, l)
  {
  }

  lemma FieldsStart(fields: seq<Field>, end: Text)
    requires fields != [] && GrammaticalFields(fields)
    ensures var u := SkipSpace(YieldFields(fields) + end);
      u == KeyText(fields[0]) + (Yield(fields[0].doc) + AfterField(fields, end)) && u[0] == QUOTE
  {
    hide Yield, AfterField, PiecesText;
    var f := fields[0];
    FieldsText(fields, end);
    var rest := KeyText(f) + (Yield(f.doc) + AfterField(fields, end));
    assert rest[0] == QUOTE;
    SkipBlank(f.before, rest);
    NotBlank(rest);
  }

  /** Reading one field: its key, which must be new, and its value. */
  lemma FieldRead(f: Field, acc: map<Text, Json>, after: Text, depth: nat, nodes: nat, l: Limits)
    requires GrammaticalField(f)
    ensures ParseField(KeyText(f) + (Yield(f.doc) + after), acc, depth, nodes, l) ==
      if f.key in acc then Fail(KS3604)
      else match ParseValue(Yield(f.doc) + after, depth + 1, nodes, l)
        case Fail(code) => Fail(code)
        case Ok(v, rest, n) => Ok((f.key, v), rest, n)
  {
    hide ParseValue, ParseString, Yield, PiecesText, PiecesFor, Grammatical;
    var value := Yield(f.doc) + after;
    var colon := [COLON] + (f.lead + value);
    var t := KeyText(f) + value;
    KeyLayout(PiecesText(f.pieces), f.gap, f.lead, value);
    assert t[0] == QUOTE && t[1..] == PiecesText(f.pieces) + ([QUOTE] + (f.gap + colon));
    StringRead(f.pieces, f.key, f.gap + colon);
    SkipBlank(f.gap, colon);
    NotBlank(colon);
    assert colon[1..] == f.lead + value;
    SkipBlank(f.lead, value);
    DocStart(f.doc);
    assert value[0] == Yield(f.doc)[0];
    NotBlank(value);
  }

  lemma KeyLayout(p: Text, gap: Text, lead: Text, value: Text)
    ensures var t := [QUOTE] + p + [QUOTE] + gap + [COLON] + lead + value;
      t[0] == QUOTE && t[1..] == p + ([QUOTE] + (gap + ([COLON] + (lead + value))))
  {
  }

  lemma AfterFirstField(fields: seq<Field>, end: Text)
    requires fields != [] && GrammaticalFields(fields) && end != [] && end[0] == CLOSE_BRACE
    ensures var after := AfterField(fields, end); var w := SkipSpace(after);
      && Delimited(after) && w != []
      && if |fields| == 1 then w == end else w[0] == COMMA && w[1..] == YieldFields(fields[1..]) + end
  {
    hide YieldFields, Grammatical;
    assert GrammaticalField(fields[0]);
    var rest := if |fields| == 1 then end else [COMMA] + (YieldFields(fields[1..]) + end);
    AfterIsDelimited(fields[0].after, rest);
    if |fields| > 1 { assert rest[1..] == YieldFields(fields[1..]) + end; }
  }

  lemma {:induction false} FieldsRead(fields: seq<Field>, acc: map<Text, Json>, tail: Text, depth: nat, nodes: nat, l: Limits)
    requires fields != [] && GrammaticalFields(fields)
    ensures JudgedFields(ParseFields(SkipSpace(YieldFields(fields) + ([CLOSE_BRACE] + tail)), acc, depth, nodes, l), fields, acc, tail, depth, nodes, l)
    decreases fields, 0
  {
    hide ParseValue, Yield, YieldFields, Grammatical, ParseFields, ParseField, KeyText, Judged, JudgedFields, GrammaticalFields, GrammaticalField, AfterField;
    var end := [CLOSE_BRACE] + tail;
    var f := fields[0];
    FieldsTail(fields);
    var after := AfterField(fields, end);
    FieldsStart(fields, end);
    AfterFirstField(fields, end);
    var u := KeyText(f) + (Yield(f.doc) + after);
    FieldRead(f, acc, after, depth, nodes, l);
    var r := ParseValue(Yield(f.doc) + after, depth + 1, nodes, l);
    ValueRead(f.doc, after, depth + 1, nodes, l);
    JudgedRest(r, f.doc, after, depth + 1, nodes, l);
    FieldsUnfold(u, acc, depth, nodes, l, after);
    var whole := ParseFields(u, acc, depth, nodes, l);
    if f.key !in acc && r.Ok? && |fields| > 1 {
      FieldsRead(fields[1..], acc[f.key := r.value], tail, depth, r.nodes, l);
    }
    assert end[1..] == tail;
    FieldsVerdict(r, whole, fields, acc, after, tail, depth, nodes, l);
  }

  lemma FieldsTail(fields: seq<Field>)
    requires fields != [] && GrammaticalFields(fields)
    ensures GrammaticalField(fields[0]) && Grammatical(fields[0].doc) && GrammaticalFields(fields[1..])
  {
    hide Grammatical, PiecesFor;
    assert GrammaticalField(fields[0]);
  }

  lemma FieldsVerdict(r: Parsed<Json>, whole: Parsed<Json>, fields: seq<Field>, acc: map<Text, Json>, after: Text, tail: Text, depth: nat, nodes: nat, l: Limits)
    requires fields != [] && Judged(r, fields[0].doc, after, depth + 1, nodes, l)
    requires fields[0].key in acc ==> whole == Fail(KS3604)
    requires fields[0].key !in acc && r.Fail? ==> whole == Fail(r.code)
    requires fields[0].key !in acc && r.Ok? && |fields| == 1 ==> whole == Ok(Obj(acc[fields[0].key := r.value]), tail, r.nodes)
    requires fields[0].key !in acc && r.Ok? && |fields| > 1 ==>
      JudgedFields(whole, fields[1..], acc[fields[0].key := r.value], tail, depth, r.nodes, l)
    ensures JudgedFields(whole, fields, acc, tail, depth, nodes, l)
  {
    hide NumbersFit, KeysDiffer, Shallow, Denoted, Size, KeysFree;
    MoreFields(fields, acc, depth, nodes, l);
    if r.Ok? && |fields| == 1 { NoFields(fields[1..], acc[fields[0].key := r.value]); }
  }

  /** One step of the field loop. */
  lemma FieldsUnfold(u: Text, acc: map<Text, Json>, depth: nat, nodes: nat, l: Limits, after: Text)
    requires SkipSpace(after) != [] && SkipSpace(after)[0] in {COMMA, CLOSE_BRACE}
    requires ParseField(u, acc, depth, nodes, l).Ok? ==> ParseField(u, acc, depth, nodes, l).rest == after
    ensures var w := SkipSpace(after);
      ParseFields(u, acc, depth, nodes, l) ==
        match ParseField(u, acc, depth, nodes, l)
        case Fail(code) => Fail(code)
        case Ok((key, v), _, n) =>
          if w[0] == CLOSE_BRACE then Ok(Obj(acc[key := v]), w[1..], n)
          else ParseFields(SkipSpace(w[1..]), acc[key := v], depth, n, l)
  {
    hide ParseField;
  }

  lemma NoFields(fields: seq<Field>, acc: map<Text, Json>)
    requires fields == []
    ensures KeysFree(fields, acc) && SizeOfFields(fields) == 0 && DenotedFields(fields, acc) == acc
  {
  }

  lemma MoreFields(fields: seq<Field>, acc: map<Text, Json>, depth: nat, nodes: nat, l: Limits)
    requires fields != []
    ensures var f := fields[0]; var n := nodes + Size(f.doc); var rest := fields[1..];
      && (f.key in acc ==> !FitsFields(fields, acc, depth, nodes, l) && ReasonFields(KS3604, fields, acc, depth, nodes, l))
      && (forall code :: Reason(code, f.doc, depth + 1, nodes, l) ==> ReasonFields(code, fields, acc, depth, nodes, l))
      && DenotedFields(fields, acc) == DenotedFields(rest, acc[f.key := Denoted(f.doc)])
      && (f.key !in acc ==>
            var more := acc[f.key := Denoted(f.doc)];
            && (FitsFields(fields, acc, depth, nodes, l) <==>
                  Fits(f.doc, depth + 1, nodes, l) && FitsFields(rest, more, depth, n, l))
            && (forall code :: ReasonFields(code, rest, more, depth, n, l) ==> ReasonFields(code, fields, acc, depth, nodes, l)))
  {
    hide NumbersFit, KeysDiffer, Shallow, Denoted, Size, KeysFree;
    var f := fields[0];
    var rest, more := fields[1..], acc[f.key := Denoted(f.doc)];
    assert forall i :: 0 < i < |fields| ==> fields[i] == rest[i - 1];
    FreeStep(fields, acc, more);
    forall code | ReasonFields(code, rest, more, depth, nodes + Size(f.doc), l) && f.key !in acc
      ensures ReasonFields(code, fields, acc, depth, nodes, l)
    {
      match code
      case KS3602 => var i :| 0 <= i < |rest| && !Shallow(rest[i].doc, l.maxDepth - depth); assert fields[i + 1] == rest[i];
      case KS3605 => var i :| 0 <= i < |rest| && !NumbersFit(rest[i].doc); assert fields[i + 1] == rest[i];
      case _ =>
    }
  }

  lemma FreeStep(fields: seq<Field>, acc: map<Text, Json>, more: map<Text, Json>)
    requires fields != [] && more.Keys == acc.Keys + {fields[0].key}
    ensures KeysFree(fields, acc) <==>
      fields[0].key !in acc && KeysDiffer(fields[0].doc) && KeysFree(fields[1..], more)
  {
    hide KeysDiffer;
    var rest := fields[1..];
    assert forall i :: 0 < i < |fields| ==> fields[i] == rest[i - 1];
    if fields[0].key !in acc && KeysDiffer(fields[0].doc) && KeysFree(rest, more) {
      forall i | 0 <= i < |fields| ensures fields[i].key !in acc && KeysDiffer(fields[i].doc) {
        if i > 0 { assert rest[i - 1].key !in more; }
      }
    }
    if KeysFree(fields, acc) {
      forall i | 0 <= i < |rest| ensures rest[i].key !in more && KeysDiffer(rest[i].doc) { assert rest[i] == fields[i + 1]; }
    }
  }
}
