/** JSON values, their measures, and the canonical text of a value. */
module JsonValue {
  import opened Options
  import opened Unicode
  import opened JsonNumber

  /** `Foreign` is any host value that data/v1 does not encode. */
  datatype Json =
    | Null
    | Bool(b: bool)
    | Str(s: Text)
    | Num(text: Text)
    | Arr(items: seq<Json>)
    | Obj(fields: map<Text, Json>)
    | Foreign

  /** A `Number` only exists with canonical text; a dictionary from the decoder only has encodable strings. */
  ghost predicate Canon(v: Json) {
    match v
    case Num(text) => Canonical(text) == Some(text)
    case Arr(items) => forall i :: 0 <= i < |items| ==> Canon(items[i])
    case Obj(fields) => forall k :: k in fields ==> Canon(fields[k])
    case _ => true
  }

  /** Every string can be encoded in UTF-8 and every part is a JSON value. */
  ghost predicate Encodable(v: Json) {
    match v
    case Str(s) => Scalar(s)
    case Arr(items) => forall i :: 0 <= i < |items| ==> Encodable(items[i])
    case Obj(fields) => forall k :: k in fields ==> Scalar(k) && Encodable(fields[k])
    case Foreign => false
    case _ => true
  }

  /** Nested at most `d` deep. */
  ghost predicate WithinDepth(v: Json, d: int) {
    d >= 1 && match v
    case Arr(items) => forall i :: 0 <= i < |items| ==> WithinDepth(items[i], d - 1)
    case Obj(fields) => forall k :: k in fields ==> WithinDepth(fields[k], d - 1)
    case _ => true
  }

  ghost function Nodes(v: Json): nat
    decreases v, 1
  {
    match v
    case Arr(items) => 1 + NodesOfItems(items)
    case Obj(fields) => 1 + NodesOfFields(v, SortedKeys(fields.Keys))
    case _ => 1
  }

  ghost function NodesOfItems(items: seq<Json>): nat
    decreases items, 0
  {
    if items == [] then 0 else Nodes(items[0]) + NodesOfItems(items[1..])
  }

  ghost function NodesOfFields(v: Json, keys: seq<Text>): nat
    requires v.Obj? && forall k :: k in keys ==> k in v.fields
    decreases v, 0, |keys|
  {
    if keys == [] then 0 else Nodes(v.fields[keys[0]]) + NodesOfFields(v, keys[1..])
  }

  // ----- Sorted keys

  /** Lexicographic by code point, as Python compares strings. */
  predicate Less(a: Text, b: Text) {
    if b == [] then false
    else if a == [] then true
    else if a[0] != b[0] then a[0] < b[0]
    else Less(a[1..], b[1..])
  }

  lemma {:induction false} LessIrreflexive(a: Text)
    ensures !Less(a, a)
  {
    if a != [] { LessIrreflexive(a[1..]); }
  }

  lemma {:induction false} LessTotal(a: Text, b: Text)
    ensures Less(a, b) || Less(b, a) || a == b
    ensures !(Less(a, b) && Less(b, a))
  {
    if a != [] && b != [] && a[0] == b[0] {
      LessTotal(a[1..], b[1..]);
      assert a == [a[0]] + a[1..] && b == [b[0]] + b[1..];
    }
  }

  lemma {:induction false} LessTransitive(a: Text, b: Text, c: Text)
    requires Less(a, b) && Less(b, c)
    ensures Less(a, c)
  {
    if a != [] && a[0] == b[0] == c[0] { LessTransitive(a[1..], b[1..], c[1..]); }
  }

  ghost predicate Sorted(ks: seq<Text>) {
    forall i, j :: 0 <= i < j < |ks| ==> Less(ks[i], ks[j])
  }

  predicate IsMinimum(m: Text, keys: set<Text>) {
    m in keys && forall k :: k in keys ==> k == m || Less(m, k)
  }

  lemma {:induction false} MinimumExists(keys: set<Text>)
    requires keys != {}
    ensures exists m :: IsMinimum(m, keys)
    decreases |keys|
  {
    var k :| k in keys;
    var rest := keys - {k};
    if rest == {} {
      assert forall x :: x in keys && x != k ==> x in rest;
      assert IsMinimum(k, keys);
    } else {
      MinimumExists(rest);
      var m :| IsMinimum(m, rest);
      LessTotal(k, m);
      if Less(k, m) {
        forall x | x in keys ensures x == k || Less(k, x) { if x != k && x != m { LessTransitive(k, m, x); } }
        assert IsMinimum(k, keys);
      } else {
        assert IsMinimum(m, keys);
      }
    }
  }

  /** `sorted(keys)`. */
  ghost function SortedKeys(keys: set<Text>): (ks: seq<Text>)
    ensures |ks| == |keys| && (forall k :: k in ks <==> k in keys) && Sorted(ks)
    decreases |keys|
  {
    if keys == {} then []
    else
      MinimumExists(keys);
      var m :| IsMinimum(m, keys);
      var rest := SortedKeys(keys - {m});
      assert forall i :: 0 <= i < |rest| ==> rest[i] in keys - {m};
      [m] + rest
  }

  lemma SortedHead(a: seq<Text>)
    requires Sorted(a) && a != []
    ensures a[0] !in a[1..] && forall k :: k in a <==> k == a[0] || k in a[1..]
  {
    LessIrreflexive(a[0]);
    assert forall i :: 1 <= i < |a| ==> Less(a[0], a[i]);
    assert a == [a[0]] + a[1..];
  }

  /** A set of keys has one sorted listing. */
  lemma {:induction false} SortedIsUnique(a: seq<Text>, b: seq<Text>)
    requires Sorted(a) && Sorted(b) && forall k :: k in a <==> k in b
    ensures a == b
  {
    if a == [] {
      assert forall i :: 0 <= i < |b| ==> b[i] in b;
    } else {
      assert a[0] in b;
      SortedHead(a);
      SortedHead(b);
      LessTotal(a[0], b[0]);
      assert a[0] == b[0];
      SortedIsUnique(a[1..], b[1..]);
      assert a == [a[0]] + a[1..] && b == [b[0]] + b[1..];
    }
  }

  // ----- Canonical text

  const QUOTE: Code := 0x22
  const BACKSLASH: Code := 0x5C
  const COMMA: Code := 0x2C
  const COLON: Code := 0x3A
  const OPEN_BRACKET: Code := 0x5B
  const CLOSE_BRACKET: Code := 0x5D
  const OPEN_BRACE: Code := 0x7B
  const CLOSE_BRACE: Code := 0x7D
  const LOWER_U: Code := 0x75

  const NULL: Text := [0x6E, 0x75, 0x6C, 0x6C]
  const TRUE: Text := [0x74, 0x72, 0x75, 0x65]
  const FALSE: Text := [0x66, 0x61, 0x6C, 0x73, 0x65]

  /** The lower-case hexadecimal digit for a value below 16. */
  function HexDigit(n: nat): Code
    requires n < 16
  {
    if n < 10 then ZERO + n else 0x61 + (n - 10)
  }

  /** The two-character escape of a character that has one. */
  function ShortEscape(c: Code): Option<Code> {
    if c == QUOTE then Some(QUOTE)
    else if c == BACKSLASH then Some(BACKSLASH)
    else if c == 0x08 then Some(0x62)
    else if c == 0x0C then Some(0x66)
    else if c == 0x0A then Some(0x6E)
    else if c == 0x0D then Some(0x72)
    else if c == 0x09 then Some(0x74)
    else None
  }

  /** What the writer puts in place of a character, if it is not copied. */
  function Replacement(c: Code): Option<Text> {
    if ShortEscape(c).Some? then Some([BACKSLASH, ShortEscape(c).value])
    else if c < 0x20 then Some([BACKSLASH, LOWER_U, ZERO, ZERO, HexDigit(c / 16), HexDigit(c % 16)])
    else None
  }

  function EscapeChar(c: Code): Text {
    if Replacement(c).Some? then Replacement(c).value else [c]
  }

  function Escape(s: Text): Text {
    if s == [] then [] else EscapeChar(s[0]) + Escape(s[1..])
  }

  function Quote(s: Text): Text {
    [QUOTE] + Escape(s) + [QUOTE]
  }

  ghost function Print(v: Json): Text
    decreases v, 1
  {
    match v
    case Null => NULL
    case Bool(b) => if b then TRUE else FALSE
    case Str(s) => Quote(s)
    case Num(text) => text
    case Arr(items) => [OPEN_BRACKET] + PrintItems(items) + [CLOSE_BRACKET]
    case Obj(fields) => [OPEN_BRACE] + PrintFields(v, SortedKeys(fields.Keys)) + [CLOSE_BRACE]
    case Foreign => []
  }

  ghost function PrintItems(items: seq<Json>): Text
    decreases items, 0
  {
    if items == [] then []
    else Print(items[0]) + (if |items| == 1 then [] else [COMMA] + PrintItems(items[1..]))
  }

  ghost function PrintFields(v: Json, keys: seq<Text>): Text
    requires v.Obj? && forall k :: k in keys ==> k in v.fields
    decreases v, 0, |keys|
  {
    if keys == [] then []
    else
      Quote(keys[0]) + [COLON] + Print(v.fields[keys[0]])
      + (if |keys| == 1 then [] else [COMMA] + PrintFields(v, keys[1..]))
  }
}
