/** Which of the texts of a value the writer prints: no white space, shortest strings with lower-case digits, canonical
    numbers, and keys in order. */
module JsonCompact {
  import opened Options
  import opened Unicode
  import opened JsonNumber
  import opened JsonNumberMeaning
  import opened JsonValue
  import opened JsonGrammar
  import opened JsonStrings

  ghost predicate ShortestPieces(ps: seq<Piece>, s: Text) {
    |ps| == |s| && forall i :: 0 <= i < |s| ==> Shortest(ps[i], s[i])
  }

  function KeysOf(fields: seq<Field>): (ks: seq<Text>)
    ensures |ks| == |fields| && forall i :: 0 <= i < |fields| ==> ks[i] == fields[i].key
  {
    seq(|fields|, i requires 0 <= i < |fields| => fields[i].key)
  }

  ghost predicate Compact(d: Doc) {
    match d
    case Word(v) => v == Null || v.Bool?
    case Number(s, style, text) => Canonical(text) == Some(text) && Written(s, style) == text
    case String(ps, s) => Scalar(s) && ShortestPieces(ps, s)
    case Array(space, items) => space == [] && forall i :: 0 <= i < |items| ==>
      items[i].before == items[i].after == [] && Compact(items[i].doc)
    case Object(space, fields) => space == [] && Sorted(KeysOf(fields)) && forall i :: 0 <= i < |fields| ==>
      CompactField(fields[i]) && Compact(fields[i].doc)
  }

  ghost predicate CompactField(f: Field) {
    f.before == f.gap == f.lead == f.after == [] && Scalar(f.key) && ShortestPieces(f.pieces, f.key)
  }

  // ----- A compact text is the printed one

  lemma {:induction false} CompactIsPrinted(d: Doc)
    requires Compact(d)
    ensures Yield(d) == Print(Denoted(d))
    decreases d, 2
  {
    hide Written, Canonical, PiecesText, Escape, SortedKeys;
    match d
    case Word(v) =>
    case Number(_, _, _) =>
    case String(ps, s) => ShortestIsEscape(ps, s);
    case Array(_, items) => if items != [] { ItemsArePrinted(items); } else { assert DenotedItems(items) == []; }
    case Object(_, _) => ObjectIsPrinted(d);
  }

  ghost predicate CompactItems(items: seq<Item>) {
    forall i :: 0 <= i < |items| ==> items[i].before == items[i].after == [] && Compact(items[i].doc)
  }

  lemma {:induction false} ItemsArePrinted(items: seq<Item>)
    requires items != [] && CompactItems(items)
    ensures YieldItems(items) == PrintItems(DenotedItems(items))
    decreases items, 1
  {
    hide Compact, Yield, Print, Denoted;
    var i := items[0];
    CompactIsPrinted(i.doc);
    var vs := DenotedItems(items);
    assert vs[1..] == DenotedItems(items[1..]);
    DenotedLength(items);
    assert [] + Yield(i.doc) + [] == Yield(i.doc);
    if |items| > 1 { ItemsArePrinted(items[1..]); }
  }

  lemma {:induction false} DenotedLength(items: seq<Item>)
    ensures |DenotedItems(items)| == |items|
  {
    if items != [] { DenotedLength(items[1..]); }
  }

  ghost predicate CompactFields(fields: seq<Field>) {
    Sorted(KeysOf(fields)) && forall i :: 0 <= i < |fields| ==> CompactField(fields[i]) && Compact(fields[i].doc)
  }

  lemma {:induction false} ObjectIsPrinted(d: Doc)
    requires d.Object? && Compact(d)
    ensures Yield(d) == Print(Denoted(d))
    decreases d, 1
  {
    hide Compact, SortedKeys, YieldFields, PrintFields, DenotedFields, Sorted, CompactField;
    var fields := d.fields;
    UnfoldObject(d);
    var v := Denoted(d);
    Table(fields, map[]);
    var keys := KeysOf(fields);
    SortedIsUnique(keys, SortedKeys(v.fields.Keys));
    if fields != [] { FieldsArePrinted(fields, v); } else { NothingPrinted(v); }
  }

  lemma NothingPrinted(v: Json)
    requires v.Obj?
    ensures PrintFields(v, []) == []
  {
  }

  lemma UnfoldObject(d: Doc)
    requires d.Object? && Compact(d)
    ensures CompactFields(d.fields) && d.space == []
  {
  }

  /** The table that the fields denote, after those in `acc`. */
  lemma {:induction false} Table(fields: seq<Field>, acc: map<Text, Json>)
    requires Sorted(KeysOf(fields))
    ensures var r := DenotedFields(fields, acc);
      && (forall k :: k in r <==> k in acc || k in KeysOf(fields))
      && (forall k :: k in acc && k !in KeysOf(fields) ==> r[k] == acc[k])
      && (forall i :: 0 <= i < |fields| ==> fields[i].key in r && r[fields[i].key] == Denoted(fields[i].doc))
  {
    hide Denoted, Less;
    if fields != [] {
      var f, rest := fields[0], fields[1..];
      assert KeysOf(rest) == KeysOf(fields)[1..];
      SortedHead(KeysOf(fields));
      Table(rest, acc[f.key := Denoted(f.doc)]);
      assert forall i :: 1 <= i < |fields| ==> fields[i] == rest[i - 1];
    }
  }

  lemma {:induction false} FieldsArePrinted(fields: seq<Field>, v: Json)
    requires fields != [] && CompactFields(fields) && v.Obj?
    requires forall i :: 0 <= i < |fields| ==> fields[i].key in v.fields && v.fields[fields[i].key] == Denoted(fields[i].doc)
    ensures forall k :: k in KeysOf(fields) ==> k in v.fields
    ensures YieldFields(fields) == PrintFields(v, KeysOf(fields))
    decreases fields, 0
  {
    hide Compact, Yield, Print, Denoted, Less, Quote, PiecesText, CompactField;
    var f, keys := fields[0], KeysOf(fields);
    CompactIsPrinted(f.doc);
    KeyIsQuoted(f);
    assert KeysOf(fields[1..]) == keys[1..];
    assert [] + KeyText(f) + Yield(f.doc) + [] == KeyText(f) + Yield(f.doc);
    if |fields| > 1 { FieldsArePrinted(fields[1..], v); }
  }

  lemma KeyIsQuoted(f: Field)
    requires CompactField(f)
    ensures f.before == f.after == [] && KeyText(f) == Quote(f.key) + [COLON]
  {
    hide Shortest, PiecesText, Escape;
    ShortestIsEscape(f.pieces, f.key);
    assert KeyText(f) == [QUOTE] + Escape(f.key) + [QUOTE] + [] + [COLON] + [];
  }

  // ----- Every encodable value has one

  lemma {:induction false} CompactExists(v: Json) returns (d: Doc)
    requires Canon(v) && Encodable(v)
    ensures Compact(d) && Grammatical(d) && Denoted(d) == v
    decreases v, 2
  {
    hide Canonical, Shortest, PieceFor, SortedKeys;
    match v
    case Null => d := Word(Null);
    case Bool(b) => d := Word(v);
    case Num(text) => d := CompactNumber(text);
    case Str(s) =>
      var ps := CompactPieces(s);
      d := String(ps, s);
    case Arr(items) =>
      var written := CompactItemsExist(items);
      d := Array([], written);
    case Obj(_) => d := CompactObject(v);
  }

  lemma CompactNumber(text: Text) returns (d: Doc)
    requires Canonical(text) == Some(text)
    ensures d.Number? && Compact(d) && Grammatical(d) && Denoted(d) == Num(text)
  {
    hide ScanNumber, Written, Normalize, Render, ExponentWithinLimit;
    var style := ScannedIsWritten(text);
    var s := ScanNumber(text).value.0;
    assert Written(s, style) + [] == Written(s, style);
    d := Number(s, style, text);
  }

  lemma {:induction false} CompactPieces(s: Text) returns (ps: seq<Piece>)
    requires Scalar(s)
    ensures ShortestPieces(ps, s) && PiecesFor(ps, s)
  {
    hide PieceFor, EscapeChar;
    ps := seq(|s|, i requires 0 <= i < |s| => ChosenPiece(s[i]));
    forall i | 0 <= i < |s| ensures Shortest(ps[i], s[i]) { EscapeCharIsShortest(s[i], ps[i]); }
  }

  lemma {:induction false} CompactItemsExist(vs: seq<Json>) returns (items: seq<Item>)
    requires forall i :: 0 <= i < |vs| ==> Canon(vs[i]) && Encodable(vs[i])
    ensures CompactItems(items) && DenotedItems(items) == vs && forall i :: 0 <= i < |items| ==> Grammatical(items[i].doc)
    decreases vs, 0
  {
    hide Compact, Grammatical, Denoted, Canon, Encodable;
    items := [];
    if vs != [] {
      var d := CompactExists(vs[0]);
      var more := CompactItemsExist(vs[1..]);
      items := [Item([], d, [])] + more;
      assert items[1..] == more && vs == [vs[0]] + vs[1..];
    }
  }

  lemma {:induction false} CompactObject(v: Json) returns (d: Doc)
    requires v.Obj? && Canon(v) && Encodable(v)
    ensures d.Object? && Compact(d) && Grammatical(d) && Denoted(d) == v
    decreases v, 1
  {
    hide SortedKeys, CompactField, Canon, Encodable, DenotedFields, Compact, Grammatical, Sorted, KeySet, IsFieldOf;
    var fields := CompactFieldsExist(v, SortedKeys(v.fields.Keys));
    d := Object([], fields);
    SameKeys(v, fields);
    SameTable(v, fields);
    ObjectIsCompact(fields);
  }

  lemma ObjectIsCompact(fields: seq<Field>)
    requires CompactFields(fields) && forall i :: 0 <= i < |fields| ==> Grammatical(fields[i].doc)
    ensures Compact(Object([], fields)) && Grammatical(Object([], fields))
  {
    hide CompactField, PiecesFor, Sorted;
    forall i | 0 <= i < |fields|
      ensures Blank(fields[i].before) && Blank(fields[i].gap) && Blank(fields[i].lead) && Blank(fields[i].after)
        && PiecesFor(fields[i].pieces, fields[i].key)
    {
      KeyIsGrammatical(fields[i]);
    }
  }

  lemma SameTable(v: Json, fields: seq<Field>)
    requires v.Obj? && Sorted(KeysOf(fields)) && v.fields.Keys == KeySet(fields)
    requires forall i :: 0 <= i < |fields| ==> IsFieldOf(v, fields[i])
    ensures DenotedFields(fields, map[]) == v.fields
  {
    hide Denoted, DenotedFields, Sorted, KeysOf, IsFieldOf, KeySet;
    var r := DenotedFields(fields, map[]);
    TableKeys(fields);
    forall k | k in r ensures k in v.fields && r[k] == v.fields[k] {
      var i := FieldNamed(fields, k);
      TableAt(fields, i);
      FieldValue(v, fields[i]);
    }
  }

  lemma SameKeys(v: Json, fields: seq<Field>)
    requires v.Obj? && KeysOf(fields) == SortedKeys(v.fields.Keys)
    ensures v.fields.Keys == KeySet(fields)
  {
    hide SortedKeys, Sorted;
    forall k ensures k in v.fields.Keys <==> k in KeySet(fields) {
      if k in v.fields.Keys { var i :| 0 <= i < |fields| && KeysOf(fields)[i] == k; assert fields[i].key == k; }
      if k in KeySet(fields) { var i :| 0 <= i < |fields| && fields[i].key == k; assert KeysOf(fields)[i] in KeysOf(fields); }
    }
  }

  function KeySet(fields: seq<Field>): set<Text> {
    set i | 0 <= i < |fields| :: fields[i].key
  }

  ghost predicate IsFieldOf(v: Json, f: Field) {
    v.Obj? && f.key in v.fields && Denoted(f.doc) == v.fields[f.key]
  }

  lemma FieldValue(v: Json, f: Field)
    requires IsFieldOf(v, f)
    ensures v.Obj? && f.key in v.fields && Denoted(f.doc) == v.fields[f.key]
  {
  }

  lemma TableKeys(fields: seq<Field>)
    requires Sorted(KeysOf(fields))
    ensures DenotedFields(fields, map[]).Keys == KeySet(fields)
  {
    hide Sorted;
    Table(fields, map[]);
    forall k ensures k in KeysOf(fields) <==> k in KeySet(fields) {
      if k in KeysOf(fields) { var i :| 0 <= i < |fields| && KeysOf(fields)[i] == k; }
      if k in KeySet(fields) { var i :| 0 <= i < |fields| && fields[i].key == k; assert KeysOf(fields)[i] == k; }
    }
  }

  lemma TableAt(fields: seq<Field>, i: nat)
    requires Sorted(KeysOf(fields)) && i < |fields|
    ensures var r := DenotedFields(fields, map[]); fields[i].key in r && r[fields[i].key] == Denoted(fields[i].doc)
  {
    hide Denoted;
    Table(fields, map[]);
  }

  lemma FieldNamed(fields: seq<Field>, key: Text) returns (i: nat)
    requires key in KeySet(fields)
    ensures i < |fields| && fields[i].key == key
  {
    i :| 0 <= i < |fields| && fields[i].key == key;
  }

  lemma KeyIsGrammatical(f: Field)
    requires CompactField(f)
    ensures Blank(f.before) && Blank(f.gap) && Blank(f.lead) && Blank(f.after) && PiecesFor(f.pieces, f.key)
  {
    hide PieceFor;
  }

  lemma {:induction false} CompactFieldsExist(v: Json, keys: seq<Text>) returns (fields: seq<Field>)
    requires v.Obj? && Canon(v) && Encodable(v) && forall k :: k in keys ==> k in v.fields
    ensures KeysOf(fields) == keys && |fields| == |keys|
    ensures forall i :: 0 <= i < |fields| ==>
      && CompactField(fields[i]) && Compact(fields[i].doc) && Grammatical(fields[i].doc)
      && IsFieldOf(v, fields[i])
    decreases v, 0, |keys|
  {
    hide Compact, Grammatical, Denoted, Shortest, PieceFor;
    fields := [];
    if keys != [] {
      var d := CompactExists(v.fields[keys[0]]);
      var ps := CompactPieces(keys[0]);
      var more := CompactFieldsExist(v, keys[1..]);
      fields := [Field([], ps, keys[0], [], [], d, [])] + more;
      assert keys == [keys[0]] + keys[1..];
    }
  }

  /** The printed text is the yield of every compact derivation of the value, and there is one. */
  lemma PrintIsCompact(v: Json) returns (d: Doc)
    requires Canon(v) && Encodable(v)
    ensures Compact(d) && Grammatical(d) && Denoted(d) == v && Print(v) == Yield(d)
    ensures forall e :: Compact(e) && Denoted(e) == v ==> Yield(e) == Print(v)
  {
    hide Compact, Grammatical, Denoted, Print, Yield, Canon, Encodable;
    d := CompactExists(v);
    CompactIsPrinted(d);
    forall e | Compact(e) && Denoted(e) == v ensures Yield(e) == Print(v) { CompactIsPrinted(e); }
  }
}
