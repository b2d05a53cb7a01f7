/** Why the writer refuses a value: each error code names a budget that is really exceeded, or a part that cannot be
    encoded. */
module JsonRefusals {
  import opened Unicode
  import opened JsonNumber
  import opened JsonValue
  import opened JsonParse
  import opened JsonWrite

  ghost predicate Blames(c: ErrorCode, v: Json, depth: nat, o: Output, l: Limits) {
    match c
    case KS3602 => !WithinDepth(v, l.maxDepth - depth + 1)
    case KS3603 => o.nodes + Nodes(v) > l.maxNodes
    case KS3607 => o.size + Utf8Size(Print(v)) > l.maxOutput
    case KS3608 => !Encodable(v)
    case _ => false
  }

  ghost predicate BlamesItems(c: ErrorCode, items: seq<Json>, used: nat, depth: nat, o: Output, l: Limits) {
    match c
    case KS3602 => exists i :: 0 <= i < |items| && !WithinDepth(items[i], l.maxDepth - depth)
    case KS3603 => o.nodes + NodesOfItems(items) > l.maxNodes
    case KS3607 => used + Utf8Size(PrintItems(items)) > l.maxOutput
    case KS3608 => exists i :: 0 <= i < |items| && !Encodable(items[i])
    case _ => false
  }

  /** A value that was written has its size and its nodes counted. */
  lemma WrittenCounts(v: Json, depth: nat, o: Output, l: Limits)
    requires WriteValue(v, depth, o, l).Done? && InBudget(o, l)
    ensures var q := WriteValue(v, depth, o, l).out;
      q.size == o.size + Utf8Size(Print(v)) && q.nodes == o.nodes + Nodes(v) && InBudget(q, l)
  {
    hide WriteValue, Print, Nodes, Encodable, WithinDepth;
    WrittenFits(v, depth, o, l);
    WriteFitting(v, depth, o, l);
  }

  lemma SizeOne(c: Code)
    requires c < 0x80
    ensures Utf8Size([c]) == 1
  {
    assert [c][..0] == [];
  }

  lemma Size3(a: Text, b: Text, c: Text)
    ensures Utf8Size(a + b + c) == Utf8Size(a) + Utf8Size(b) + Utf8Size(c)
  {
    Utf8SizeConcat(a + b, c);
    Utf8SizeConcat(a, b);
  }

  lemma {:induction false} RefusedBlames(v: Json, depth: nat, o: Output, l: Limits)
    requires WriteValue(v, depth, o, l).Refused? && InBudget(o, l)
    ensures Blames(WriteValue(v, depth, o, l).code, v, depth, o, l)
    decreases v, 2
  {
    hide WriteItems, WriteFields, PrintItems, PrintFields, Utf8Size, Quote, SortedKeys, WriteArray, WriteObject;
    if depth <= l.maxDepth && o.nodes + 1 <= l.maxNodes {
      if v.Arr? { ArrayBlames(v, depth, o, l); }
      if v.Obj? { ObjectBlames(v, depth, o, l); }
    }
  }

  lemma {:induction false} ArrayBlames(v: Json, depth: nat, o: Output, l: Limits)
    requires v.Arr? && depth <= l.maxDepth && InBudget(o, l)
    requires WriteArray(v, depth, o.(nodes := o.nodes + 1), l).Refused?
    ensures Blames(WriteArray(v, depth, o.(nodes := o.nodes + 1), l).code, v, depth, o, l)
    decreases v, 1
  {
    hide WriteItems, PrintItems, Utf8Size, Encodable, WithinDepth;
    SizeOne(OPEN_BRACKET);
    SizeOne(CLOSE_BRACKET);
    Size3([OPEN_BRACKET], PrintItems(v.items), [CLOSE_BRACKET]);
    ArrayUnfold(v, l.maxDepth - depth + 1);
    var p := Put(o.(nodes := o.nodes + 1), [OPEN_BRACKET], l);
    if p.Done? {
      if WriteItems(v.items, true, depth, p.out, l).Refused? {
        ItemsBlame(v.items, true, depth, p.out, l);
      } else {
        ItemsCount(v.items, true, depth, p.out, l);
      }
    }
  }

  lemma ArrayUnfold(v: Json, d: int)
    requires v.Arr? && d >= 1
    ensures WithinDepth(v, d) <==> forall i :: 0 <= i < |v.items| ==> WithinDepth(v.items[i], d - 1)
    ensures Encodable(v) <==> forall i :: 0 <= i < |v.items| ==> Encodable(v.items[i])
  {
  }

  function Comma(first: bool): nat { if first then 0 else 1 }

  lemma {:induction false} ItemsBlame(items: seq<Json>, first: bool, depth: nat, o: Output, l: Limits)
    requires WriteItems(items, first, depth, o, l).Refused? && InBudget(o, l)
    ensures BlamesItems(WriteItems(items, first, depth, o, l).code, items, o.size + Comma(first), depth, o, l)
    decreases items, 0
  {
    hide WriteValue, Print, Nodes, Encodable, WithinDepth, Utf8Size;
    SizeOne(COMMA);
    var p := PutSeparator(o, first, l);
    ItemsSize(items);
    if p.Done? {
      var r := WriteValue(items[0], depth + 1, p.out, l);
      if r.Refused? {
        RefusedBlames(items[0], depth + 1, p.out, l);
      } else {
        WrittenCounts(items[0], depth + 1, p.out, l);
        ItemsBlame(items[1..], false, depth, r.out, l);
        assert forall i :: 1 <= i < |items| ==> items[i] == items[1..][i - 1];
        LaterItem(items, depth, l);
      }
    }
  }

  lemma LaterItem(items: seq<Json>, depth: nat, l: Limits)
    requires items != []
    ensures (exists i :: 0 <= i < |items| - 1 && !WithinDepth(items[1..][i], l.maxDepth - depth)) ==>
      exists i :: 0 <= i < |items| && !WithinDepth(items[i], l.maxDepth - depth)
    ensures (exists i :: 0 <= i < |items| - 1 && !Encodable(items[1..][i])) ==> exists i :: 0 <= i < |items| && !Encodable(items[i])
  {
    hide WithinDepth, Encodable;
    if i :| 0 <= i < |items| - 1 && !WithinDepth(items[1..][i], l.maxDepth - depth) {
      assert !WithinDepth(items[i + 1], l.maxDepth - depth);
    }
    if i :| 0 <= i < |items| - 1 && !Encodable(items[1..][i]) { assert !Encodable(items[i + 1]); }
  }

  lemma ItemsSize(items: seq<Json>)
    requires items != []
    ensures Utf8Size(PrintItems(items)) ==
      Utf8Size(Print(items[0])) + (if |items| == 1 then 0 else 1 + Utf8Size(PrintItems(items[1..])))
    ensures NodesOfItems(items) == Nodes(items[0]) + NodesOfItems(items[1..])
  {
    hide Utf8Size, Print, Nodes;
    var more := if |items| == 1 then [] else [COMMA] + PrintItems(items[1..]);
    Utf8SizeConcat(Print(items[0]), more);
    SizeOne(COMMA);
    Utf8SizeConcat([COMMA], PrintItems(items[1..]));
    EmptySize();
  }

  lemma EmptySize()
    ensures Utf8Size([]) == 0
  {
  }

  lemma {:induction false} ItemsCount(items: seq<Json>, first: bool, depth: nat, o: Output, l: Limits)
    requires WriteItems(items, first, depth, o, l).Done? && InBudget(o, l)
    ensures var q := WriteItems(items, first, depth, o, l).out;
      && q.size == o.size + (if items == [] then 0 else Comma(first)) + Utf8Size(PrintItems(items)) && InBudget(q, l)
      && q.nodes == o.nodes + NodesOfItems(items)
    decreases items, 0
  {
    hide WriteValue, Print, Nodes, Utf8Size;
    SizeOne(COMMA);
    EmptySize();
    if items != [] {
      ItemsSize(items);
      var p := PutSeparator(o, first, l).out;
      WrittenCounts(items[0], depth + 1, p, l);
      var q := WriteValue(items[0], depth + 1, p, l).out;
      ItemsCount(items[1..], false, depth, q, l);
    }
  }

  // ----- Objects

  ghost predicate BlamesFields(c: ErrorCode, v: Json, keys: seq<Text>, used: nat, depth: nat, o: Output, l: Limits)
    requires v.Obj? && forall k :: k in keys ==> k in v.fields
  {
    match c
    case KS3602 => exists k :: k in keys && !WithinDepth(v.fields[k], l.maxDepth - depth)
    case KS3603 => o.nodes + NodesOfFields(v, keys) > l.maxNodes
    case KS3607 => used + Utf8Size(PrintFields(v, keys)) > l.maxOutput
    case KS3608 => exists k :: k in keys && !(Scalar(k) && Encodable(v.fields[k]))
    case _ => false
  }

  lemma {:induction false} ObjectBlames(v: Json, depth: nat, o: Output, l: Limits)
    requires v.Obj? && depth <= l.maxDepth && InBudget(o, l)
    requires WriteObject(v, depth, o.(nodes := o.nodes + 1), l).Refused?
    ensures Blames(WriteObject(v, depth, o.(nodes := o.nodes + 1), l).code, v, depth, o, l)
    decreases v, 1
  {
    hide WriteFields, PrintFields, Utf8Size, Encodable, WithinDepth, SortedKeys, Sorted;
    var keys := SortedKeys(v.fields.Keys);
    SizeOne(OPEN_BRACE);
    SizeOne(CLOSE_BRACE);
    Size3([OPEN_BRACE], PrintFields(v, keys), [CLOSE_BRACE]);
    ObjectUnfold(v, l.maxDepth - depth + 1);
    var p := Put(o.(nodes := o.nodes + 1), [OPEN_BRACE], l);
    if p.Done? {
      if WriteFields(v, keys, true, depth, p.out, l).Refused? {
        FieldsBlame(v, keys, true, depth, p.out, l);
      } else {
        FieldsCount(v, keys, true, depth, p.out, l);
      }
    }
  }

  lemma ObjectUnfold(v: Json, d: int)
    requires v.Obj? && d >= 1
    ensures WithinDepth(v, d) <==> forall k :: k in v.fields ==> WithinDepth(v.fields[k], d - 1)
    ensures Encodable(v) <==> forall k :: k in v.fields ==> Scalar(k) && Encodable(v.fields[k])
  {
  }

  /** A key with its separator and colon: written and counted, or refused for a reason. */
  lemma KeyPut(o: Output, key: Text, first: bool, l: Limits)
    requires InBudget(o, l)
    ensures var size := o.size + Comma(first) + Utf8Size(Quote(key)) + 1;
      match PutKey(o, key, first, l)
      case Done(p) => p.size == size && p.nodes == o.nodes && InBudget(p, l)
      case Refused(c) => (c == KS3608 && !Scalar(key)) || (c == KS3607 && size > l.maxOutput)
  {
    hide Utf8Size, Quote;
    SizeOne(COMMA);
    SizeOne(COLON);
  }

  lemma FieldsSize(v: Json, keys: seq<Text>)
    requires v.Obj? && keys != [] && forall k :: k in keys ==> k in v.fields
    ensures Utf8Size(PrintFields(v, keys)) == Utf8Size(Quote(keys[0])) + 1 + Utf8Size(Print(v.fields[keys[0]]))
      + (if |keys| == 1 then 0 else 1 + Utf8Size(PrintFields(v, keys[1..])))
    ensures NodesOfFields(v, keys) == Nodes(v.fields[keys[0]]) + NodesOfFields(v, keys[1..])
  {
    hide Utf8Size, Print, Nodes, Quote;
    var more := if |keys| == 1 then [] else [COMMA] + PrintFields(v, keys[1..]);
    Utf8SizeConcat(Quote(keys[0]) + [COLON] + Print(v.fields[keys[0]]), more);
    Size3(Quote(keys[0]), [COLON], Print(v.fields[keys[0]]));
    SizeOne(COMMA);
    SizeOne(COLON);
    Utf8SizeConcat([COMMA], PrintFields(v, keys[1..]));
    EmptySize();
  }

  lemma {:induction false} FieldsBlame(v: Json, keys: seq<Text>, first: bool, depth: nat, o: Output, l: Limits)
    requires v.Obj? && (forall k :: k in keys ==> k in v.fields)
    requires WriteFields(v, keys, first, depth, o, l).Refused? && InBudget(o, l)
    ensures BlamesFields(WriteFields(v, keys, first, depth, o, l).code, v, keys, o.size + Comma(first), depth, o, l)
    decreases v, 0, |keys|
  {
    hide WriteValue, Print, PrintFields, Nodes, Encodable, WithinDepth, Utf8Size, Quote, PutKey, Less;
    var key := keys[0];
    KeyPut(o, key, first, l);
    FieldsSize(v, keys);
    assert key in keys && forall k :: k in keys[1..] ==> k in keys;
    var p := PutKey(o, key, first, l);
    if p.Done? {
      var r := WriteValue(v.fields[key], depth + 1, p.out, l);
      if r.Refused? {
        RefusedBlames(v.fields[key], depth + 1, p.out, l);
      } else {
        WrittenCounts(v.fields[key], depth + 1, p.out, l);
        FieldsBlame(v, keys[1..], false, depth, r.out, l);
      }
    }
  }

  lemma {:induction false} FieldsCount(v: Json, keys: seq<Text>, first: bool, depth: nat, o: Output, l: Limits)
    requires v.Obj? && (forall k :: k in keys ==> k in v.fields)
    requires WriteFields(v, keys, first, depth, o, l).Done? && InBudget(o, l)
    ensures var q := WriteFields(v, keys, first, depth, o, l).out;
      && q.size == o.size + (if keys == [] then 0 else Comma(first)) + Utf8Size(PrintFields(v, keys)) && InBudget(q, l)
      && q.nodes == o.nodes + NodesOfFields(v, keys)
    decreases v, 0, |keys|
  {
    hide WriteValue, Print, Nodes, Utf8Size, Quote, PutKey;
    EmptySize();
    if keys != [] {
      KeyPut(o, keys[0], first, l);
      FieldsSize(v, keys);
      var p := PutKey(o, keys[0], first, l).out;
      WrittenCounts(v.fields[keys[0]], depth + 1, p, l);
      var q := WriteValue(v.fields[keys[0]], depth + 1, p, l).out;
      FieldsCount(v, keys[1..], false, depth, q, l);
    }
  }

  /** A refusal by `encode` is justified: KS3602 only for a value that is too deep, KS3603 only for one with too many
      nodes, KS3607 only for one whose text is too long, KS3608 only for one with a part that cannot be encoded. */
  lemma RefusalIsJustified(v: Json, l: Limits)
    requires ValidLimits(l) && Encode(v, l).Failure?
    ensures match Encode(v, l).code
      case KS3602 => !WithinDepth(v, l.maxDepth)
      case KS3603 => Nodes(v) > l.maxNodes
      case KS3607 => Utf8Size(Print(v)) > l.maxOutput
      case KS3608 => !Encodable(v)
      case _ => false
  {
    hide WriteValue, Print, Nodes, Utf8Size, Encodable, WithinDepth;
    RefusedBlames(v, 1, Output([], 0, 0), l);
  }
}
