/** What the budgeted writer computes, and exactly when it succeeds. */
module JsonWrite {
  import opened Unicode
  import opened JsonNumber
  import opened JsonValue
  import opened JsonParse
  import opened JsonRoundTrip
  import opened JsonDecoded

  /** The text written so far, its tracked UTF-8 size, and the nodes counted so far. */
  datatype Output = Output(text: Text, size: nat, nodes: nat)

  datatype Written = Done(out: Output) | Refused(code: ErrorCode)

  function Put(o: Output, t: Text, l: Limits): Written {
    if o.size + Utf8Size(t) > l.maxOutput then Refused(KS3607)
    else Done(Output(o.text + t, o.size + Utf8Size(t), o.nodes))
  }

  function PutString(o: Output, s: Text, l: Limits): Written {
    if !Scalar(s) then Refused(KS3608) else Put(o, Quote(s), l)
  }

  ghost function WriteValue(v: Json, depth: nat, o: Output, l: Limits): Written
    decreases v, 2
  {
    if depth > l.maxDepth then Refused(KS3602)
    else if o.nodes + 1 > l.maxNodes then Refused(KS3603)
    else
      var p := o.(nodes := o.nodes + 1);
      match v
      case Null => Put(p, NULL, l)
      case Bool(b) => Put(p, if b then TRUE else FALSE, l)
      case Str(s) => PutString(p, s, l)
      case Num(text) => Put(p, text, l)
      case Arr(items) => WriteArray(v, depth, p, l)
      case Obj(fields) => WriteObject(v, depth, p, l)
      case Foreign => Refused(KS3608)
  }

  ghost function WriteArray(v: Json, depth: nat, o: Output, l: Limits): Written
    requires v.Arr?
    decreases v, 1
  {
    match Put(o, [OPEN_BRACKET], l)
    case Refused(c) => Refused(c)
    case Done(p) =>
      match WriteItems(v.items, true, depth, p, l)
      case Refused(c) => Refused(c)
      case Done(q) => Put(q, [CLOSE_BRACKET], l)
  }

  ghost function WriteObject(v: Json, depth: nat, o: Output, l: Limits): Written
    requires v.Obj?
    decreases v, 1
  {
    match Put(o, [OPEN_BRACE], l)
    case Refused(c) => Refused(c)
    case Done(p) =>
      match WriteFields(v, SortedKeys(v.fields.Keys), true, depth, p, l)
      case Refused(c) => Refused(c)
      case Done(q) => Put(q, [CLOSE_BRACE], l)
  }

  function PutSeparator(o: Output, first: bool, l: Limits): Written {
    if first then Done(o) else Put(o, [COMMA], l)
  }

  ghost function WriteItems(items: seq<Json>, first: bool, depth: nat, o: Output, l: Limits): Written
    decreases items, 0
  {
    if items == [] then Done(o)
    else
      match PutSeparator(o, first, l)
      case Refused(c) => Refused(c)
      case Done(p) =>
        match WriteValue(items[0], depth + 1, p, l)
        case Refused(c) => Refused(c)
        case Done(q) => WriteItems(items[1..], false, depth, q, l)
  }

  ghost function WriteFields(v: Json, keys: seq<Text>, first: bool, depth: nat, o: Output, l: Limits): Written
    requires v.Obj? && forall k :: k in keys ==> k in v.fields
    decreases v, 0, |keys|
  {
    if keys == [] then Done(o)
    else
      match PutKey(o, keys[0], first, l)
      case Refused(c) => Refused(c)
      case Done(p) =>
        match WriteValue(v.fields[keys[0]], depth + 1, p, l)
        case Refused(c) => Refused(c)
        case Done(q) => WriteFields(v, keys[1..], false, depth, q, l)
  }

  ghost function Encode(v: Json, l: Limits): Result<Text> {
    if !ValidLimits(l) then Failure(BAD_LIMITS)
    else
      match WriteValue(v, 1, Output([], 0, 0), l)
      case Refused(c) => Failure(c)
      case Done(o) => Success(o.text)
  }

  // ----- Writing a value that fits

  /** Writing `text` and counting `n` nodes in one go. */
  function PutCounted(o: Output, text: Text, n: nat, l: Limits): Written {
    match Put(o, text, l)
    case Refused(c) => Refused(c)
    case Done(p) => Done(p.(nodes := p.nodes + n))
  }

  /** Writing more after something was written. */
  function AndThen(w: Written, text: Text, n: nat, l: Limits): Written {
    match w
    case Refused(c) => Refused(c)
    case Done(p) => PutCounted(p, text, n, l)
  }

  lemma Chain(o: Output, a: Text, m: nat, b: Text, n: nat, l: Limits)
    ensures AndThen(PutCounted(o, a, m, l), b, n, l) == PutCounted(o, a + b, m + n, l)
  {
    Utf8SizeConcat(a, b);
    assert o.text + a + b == o.text + (a + b);
  }

  ghost predicate InBudget(o: Output, l: Limits) {
    o.size <= l.maxOutput
  }

  lemma PutNothing(o: Output, l: Limits)
    requires InBudget(o, l)
    ensures PutCounted(o, [], 0, l) == Done(o)
  {
    assert o.text + [] == o.text;
  }

  ghost predicate Fits(v: Json, depth: nat, nodes: int, l: Limits) {
    Encodable(v) && WithinDepth(v, l.maxDepth - depth + 1) && nodes + Nodes(v) <= l.maxNodes
  }

  lemma {:induction false} WriteFitting(v: Json, depth: nat, o: Output, l: Limits)
    requires Fits(v, depth, o.nodes, l) && InBudget(o, l)
    ensures WriteValue(v, depth, o, l) == PutCounted(o, Print(v), Nodes(v), l)
    decreases v, 2
  {
    hide Utf8Size, Quote, PrintItems, PrintFields, SortedKeys, WriteArray, WriteObject, Canonical;
    match v
    case Arr(items) => ArrayFitting(v, depth, o.(nodes := o.nodes + 1), l);
    case Obj(fields) => ObjectFitting(v, depth, o.(nodes := o.nodes + 1), l);
    case _ =>
  }

  lemma {:induction false} ArrayFitting(v: Json, depth: nat, o: Output, l: Limits)
    requires v.Arr? && Fits(v, depth, o.nodes - 1, l) && InBudget(o, l)
    ensures WriteArray(v, depth, o, l) == PutCounted(o, Print(v), NodesOfItems(v.items), l)
    decreases v, 1
  {
    hide WriteItems, PrintItems, Utf8Size;
    var text, n := PrintItems(v.items), NodesOfItems(v.items);
    var open := PutCounted(o, [OPEN_BRACKET], 0, l);
    if open.Done? { ItemsFitting(v.items, true, depth, open.out, l); }
    Chain(o, [OPEN_BRACKET], 0, text, n, l);
    Chain(o, [OPEN_BRACKET] + text, n, [CLOSE_BRACKET], 0, l);
  }

  lemma {:induction false} ObjectFitting(v: Json, depth: nat, o: Output, l: Limits)
    requires v.Obj? && Fits(v, depth, o.nodes - 1, l) && InBudget(o, l)
    ensures WriteObject(v, depth, o, l) == PutCounted(o, Print(v), NodesOfFields(v, SortedKeys(v.fields.Keys)), l)
    decreases v, 1
  {
    hide WriteFields, PrintFields, Utf8Size, SortedKeys;
    var keys := SortedKeys(v.fields.Keys);
    var text, n := PrintFields(v, keys), NodesOfFields(v, keys);
    var open := PutCounted(o, [OPEN_BRACE], 0, l);
    if open.Done? { FieldsFitting(v, keys, true, depth, open.out, l); }
    Chain(o, [OPEN_BRACE], 0, text, n, l);
    Chain(o, [OPEN_BRACE] + text, n, [CLOSE_BRACE], 0, l);
  }

  /** The text of further entries: after the first ones a comma precedes it. */
  function Separated(first: bool, none: bool, text: Text): Text {
    if first || none then text else [COMMA] + text
  }

  function Separator(first: bool): Text {
    if first then [] else [COMMA]
  }

  lemma SeparatorIsPut(o: Output, first: bool, l: Limits)
    requires InBudget(o, l)
    ensures PutSeparator(o, first, l) == PutCounted(o, Separator(first), 0, l)
  {
    if first { PutNothing(o, l); }
  }

  lemma {:induction false} ItemsFitting(items: seq<Json>, first: bool, depth: nat, o: Output, l: Limits)
    requires forall i :: 0 <= i < |items| ==> Encodable(items[i]) && WithinDepth(items[i], l.maxDepth - depth)
    requires o.nodes + NodesOfItems(items) <= l.maxNodes && InBudget(o, l)
    ensures WriteItems(items, first, depth, o, l)
         == PutCounted(o, Separated(first, items == [], PrintItems(items)), NodesOfItems(items), l)
    decreases items, 0
  {
    hide WriteValue, Utf8Size, Print, Nodes;
    if items == [] {
      PutNothing(o, l);
    } else {
      var v, rest := items[0], items[1..];
      var sep, more := Separator(first), Separated(false, rest == [], PrintItems(rest));
      SeparatorIsPut(o, first, l);
      var p := PutCounted(o, sep, 0, l);
      if p.Done? {
        WriteFitting(v, depth + 1, p.out, l);
        var q := PutCounted(p.out, Print(v), Nodes(v), l);
        if q.Done? { ItemsFitting(rest, false, depth, q.out, l); }
      }
      Chain(o, sep, 0, Print(v), Nodes(v), l);
      Chain(o, sep + Print(v), Nodes(v), more, NodesOfItems(rest), l);
      assert PrintItems(items) == Print(v) + more;
      assert sep + Print(v) + more == Separated(first, false, PrintItems(items));
    }
  }

  lemma {:induction false} FieldsFitting(v: Json, keys: seq<Text>, first: bool, depth: nat, o: Output, l: Limits)
    requires v.Obj? && Encodable(v) && WithinDepth(v, l.maxDepth - depth + 1) && forall k :: k in keys ==> k in v.fields
    requires o.nodes + NodesOfFields(v, keys) <= l.maxNodes && InBudget(o, l)
    ensures WriteFields(v, keys, first, depth, o, l)
         == PutCounted(o, Separated(first, keys == [], PrintFields(v, keys)), NodesOfFields(v, keys), l)
    decreases v, 0, |keys|
  {
    hide WriteValue, Utf8Size, Print, Nodes, Quote, PutKey, Less;
    if keys == [] {
      PutNothing(o, l);
    } else {
      var x, rest := v.fields[keys[0]], keys[1..];
      var sep, more := Separator(first), Separated(false, rest == [], PrintFields(v, rest));
      var head := sep + Quote(keys[0]) + [COLON];
      KeyIsPut(keys[0], first, o, l);
      var p := PutCounted(o, head, 0, l);
      if p.Done? {
        WriteFitting(x, depth + 1, p.out, l);
        var q := PutCounted(p.out, Print(x), Nodes(x), l);
        if q.Done? { FieldsFitting(v, rest, false, depth, q.out, l); }
      }
      Chain(o, head, 0, Print(x), Nodes(x), l);
      Chain(o, head + Print(x), Nodes(x), more, NodesOfFields(v, rest), l);
      assert WriteFields(v, keys, first, depth, o, l)
          == AndThen(AndThen(p, Print(x), Nodes(x), l), more, NodesOfFields(v, rest), l);
      assert PrintFields(v, keys) == Quote(keys[0]) + [COLON] + Print(x) + more;
      Regroup(sep, Quote(keys[0]), [COLON], Print(x), more);
      SeparatedIsPrefixed(first, PrintFields(v, keys));
    }
  }

  lemma Regroup(a: Text, b: Text, c: Text, d: Text, e: Text)
    ensures a + b + c + d + e == a + (b + c + d + e)
  {
  }

  lemma SeparatedIsPrefixed(first: bool, text: Text)
    ensures Separated(first, false, text) == Separator(first) + text
  {
    assert [] + text == text;
  }

  /** Separator, key and colon. */
  function PutKey(o: Output, key: Text, first: bool, l: Limits): Written {
    match PutSeparator(o, first, l)
    case Refused(c) => Refused(c)
    case Done(p) =>
      match PutString(p, key, l)
      case Refused(c) => Refused(c)
      case Done(q) => Put(q, [COLON], l)
  }

  lemma KeyIsPut(key: Text, first: bool, o: Output, l: Limits)
    requires Scalar(key) && InBudget(o, l)
    ensures PutKey(o, key, first, l) == PutCounted(o, Separator(first) + Quote(key) + [COLON], 0, l)
  {
    hide Utf8Size;
    SeparatorIsPut(o, first, l);
    Chain(o, Separator(first), 0, Quote(key), 0, l);
    Chain(o, Separator(first) + Quote(key), 0, [COLON], 0, l);
  }

  // ----- Only a value that fits is written

  lemma {:induction false} WrittenFits(v: Json, depth: nat, o: Output, l: Limits)
    requires WriteValue(v, depth, o, l).Done? && InBudget(o, l)
    ensures Fits(v, depth, o.nodes, l)
    decreases v, 2
  {
    hide Utf8Size, Quote, SortedKeys, WriteItems, WriteFields;
    match v
    case Arr(items) => ArrayWrittenFits(v, depth, o, l);
    case Obj(fields) => ObjectWrittenFits(v, depth, o, l);
    case _ =>
  }

  lemma {:induction false} ArrayWrittenFits(v: Json, depth: nat, o: Output, l: Limits)
    requires v.Arr? && WriteValue(v, depth, o, l).Done? && InBudget(o, l)
    ensures Fits(v, depth, o.nodes, l)
    decreases v, 1
  {
    hide Utf8Size, WriteItems;
    ItemsWrittenFit(v.items, true, depth, Put(o.(nodes := o.nodes + 1), [OPEN_BRACKET], l).out, l);
  }

  lemma {:induction false} ObjectWrittenFits(v: Json, depth: nat, o: Output, l: Limits)
    requires v.Obj? && WriteValue(v, depth, o, l).Done? && InBudget(o, l)
    ensures Fits(v, depth, o.nodes, l)
    decreases v, 1
  {
    hide Utf8Size, SortedKeys, WriteFields;
    FieldsWrittenFit(v, SortedKeys(v.fields.Keys), true, depth, Put(o.(nodes := o.nodes + 1), [OPEN_BRACE], l).out, l);
  }

  lemma {:induction false} ItemsWrittenFit(items: seq<Json>, first: bool, depth: nat, o: Output, l: Limits)
    requires WriteItems(items, first, depth, o, l).Done? && InBudget(o, l) && o.nodes <= l.maxNodes
    ensures forall i :: 0 <= i < |items| ==> Encodable(items[i]) && WithinDepth(items[i], l.maxDepth - depth)
    ensures o.nodes + NodesOfItems(items) <= l.maxNodes
    decreases items, 0
  {
    hide WriteValue, Utf8Size, Encodable, WithinDepth, Nodes, Print;
    if items != [] {
      var p := PutSeparator(o, first, l).out;
      WrittenFits(items[0], depth + 1, p, l);
      WriteFitting(items[0], depth + 1, p, l);
      var q := WriteValue(items[0], depth + 1, p, l).out;
      ItemsWrittenFit(items[1..], false, depth, q, l);
      assert forall i :: 1 <= i < |items| ==> items[i] == items[1..][i - 1];
    }
  }

  lemma {:induction false} FieldsWrittenFit(v: Json, keys: seq<Text>, first: bool, depth: nat, o: Output, l: Limits)
    requires v.Obj? && forall k :: k in keys ==> k in v.fields
    requires WriteFields(v, keys, first, depth, o, l).Done? && InBudget(o, l) && o.nodes <= l.maxNodes
    ensures forall k :: k in keys ==> Scalar(k) && Encodable(v.fields[k]) && WithinDepth(v.fields[k], l.maxDepth - depth)
    ensures o.nodes + NodesOfFields(v, keys) <= l.maxNodes
    decreases v, 0, |keys|
  {
    hide WriteValue, Utf8Size, Encodable, WithinDepth, Nodes, Print, Quote;
    if keys != [] {
      var x := v.fields[keys[0]];
      var p := PutKey(o, keys[0], first, l).out;
      WrittenFits(x, depth + 1, p, l);
      WriteFitting(x, depth + 1, p, l);
      var q := WriteValue(x, depth + 1, p, l).out;
      FieldsWrittenFit(v, keys[1..], false, depth, q, l);
      assert forall k :: k in keys ==> k == keys[0] || k in keys[1..];
    }
  }

  // ----- The codec

  /** `encode` succeeds exactly when the value fits all four budgets and only holds encodable parts, and then
      returns its canonical text; a value that fails on nothing but output bytes gets KS3607. */
  lemma EncodeExactly(v: Json, l: Limits)
    requires ValidLimits(l)
    ensures Encode(v, l).Success? <==> Fits(v, 1, 0, l) && Utf8Size(Print(v)) <= l.maxOutput
    ensures Encode(v, l).Success? ==> Encode(v, l).value == Print(v)
    ensures Fits(v, 1, 0, l) && Utf8Size(Print(v)) > l.maxOutput ==> Encode(v, l) == Failure(KS3607)
  {
    hide WriteValue, Print, Encodable, WithinDepth, Nodes, Canonical;
    var o := Output([], 0, 0);
    if WriteValue(v, 1, o, l).Done? { WrittenFits(v, 1, o, l); }
    if Fits(v, 1, 0, l) { WriteFitting(v, 1, o, l); }
    assert [] + Print(v) == Print(v);
  }

  /** Round trip: what `encode` returns decodes to the same value, under limits with the same node and
      depth budgets and room for the text. */
  lemma RoundTrip(v: Json, l: Limits, l': Limits)
    requires Canon(v) && Encode(v, l).Success?
    requires ValidLimits(l') && l'.maxNodes == l.maxNodes && l'.maxDepth == l.maxDepth
    requires Utf8Size(Encode(v, l).value) <= l'.maxInput
    ensures Decode(Encode(v, l).value, l') == Success(v)
  {
    EncodeExactly(v, l);
    PrintedDecodes(v, l');
  }

  /** Equal values have equal texts and different values different ones. */
  lemma EncodingIsInjective(v: Json, w: Json, l: Limits)
    requires Canon(v) && Canon(w) && Encode(v, l).Success? && Encode(w, l).Success?
    ensures Encode(v, l) == Encode(w, l) <==> v == w
  {
    var l' := l.(maxInput := Utf8Size(Encode(v, l).value) + Utf8Size(Encode(w, l).value) + 1);
    RoundTrip(v, l, l');
    RoundTrip(w, l, l');
  }

  /** Re-encoding a decoded value can fail on output bytes only; its text is a fixed point of decode-then-encode. */
  lemma DecodedReencodes(text: Text, l: Limits)
    requires Decode(text, l).Success?
    ensures var v := Decode(text, l).value;
      match Encode(v, l)
      case Failure(code) => code == KS3607 && Utf8Size(Print(v)) > l.maxOutput
      case Success(u) => Utf8Size(u) <= l.maxInput ==> Decode(u, l) == Success(v)
  {
    var v := Decode(text, l).value;
    DecodedIsAdmissible(text, l);
    EncodeExactly(v, l);
    if Encode(v, l).Success? && Utf8Size(Print(v)) <= l.maxInput { RoundTrip(v, l, l); }
  }
}
