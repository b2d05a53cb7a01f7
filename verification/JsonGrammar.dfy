/** The texts of RFC 8259, as derivation trees: what each tree reads as, and which value it denotes.  Nothing here
    mentions the parser. */
module JsonGrammar {
  import opened Options
  import opened Unicode
  import opened JsonNumber
  import opened JsonNumberMeaning
  import opened JsonValue

  // ----- Strings (section 7 of RFC 8259)

  /** One character as it is written: itself, a two-character escape, a `\u` escape, or the escapes of a surrogate pair. */
  datatype Piece =
    | Raw(c: Code)
    | Short(letter: Code)
    | Unit(hex: Text)
    | Pair(high: Text, low: Text)

  const LOWER_HEX: Text := [0x30, 0x31, 0x32, 0x33, 0x34, 0x35, 0x36, 0x37, 0x38, 0x39, 0x61, 0x62, 0x63, 0x64, 0x65, 0x66]
  const UPPER_HEX: Text := [0x30, 0x31, 0x32, 0x33, 0x34, 0x35, 0x36, 0x37, 0x38, 0x39, 0x41, 0x42, 0x43, 0x44, 0x45, 0x46]

  const SHORT: map<Code, Code> := map[
    0x22 := 0x22, 0x5C := 0x5C, 0x2F := 0x2F, 0x62 := 0x08, 0x66 := 0x0C, 0x6E := 0x0A, 0x72 := 0x0D, 0x74 := 0x09]

  ghost predicate HexFor(c: Code, n: int) {
    0 <= n < 16 && (c == LOWER_HEX[n] || c == UPPER_HEX[n])
  }

  /** Four hexadecimal digits, in either case, for the code unit `u`. */
  ghost predicate UnitFor(h: Text, u: int) {
    && |h| == 4 && 0 <= u < 0x10000
    && HexFor(h[0], u / 4096) && HexFor(h[1], u / 256 % 16) && HexFor(h[2], u / 16 % 16) && HexFor(h[3], u % 16)
  }

  /** The UTF-16 code units of a code point above U+FFFF. */
  function HighUnit(c: int): int { 0xD800 + (c - 0x10000) / 0x400 }

  function LowUnit(c: int): int { 0xDC00 + (c - 0x10000) % 0x400 }

  /** The piece stands for the character `c`. */
  ghost predicate PieceFor(p: Piece, c: Code) {
    match p
    case Raw(x) => x == c && c >= 0x20 && c != QUOTE && c != BACKSLASH && !IsSurrogate(c)
    case Short(letter) => letter in SHORT && SHORT[letter] == c
    case Unit(h) => UnitFor(h, c) && !IsSurrogate(c)
    case Pair(high, low) => c >= 0x10000 && UnitFor(high, HighUnit(c)) && UnitFor(low, LowUnit(c))
  }

  function PieceText(p: Piece): Text {
    match p
    case Raw(c) => [c]
    case Short(letter) => [BACKSLASH, letter]
    case Unit(h) => [BACKSLASH, LOWER_U] + h
    case Pair(high, low) => [BACKSLASH, LOWER_U] + high + [BACKSLASH, LOWER_U] + low
  }

  ghost predicate PiecesFor(ps: seq<Piece>, s: Text) {
    |ps| == |s| && forall i :: 0 <= i < |s| ==> PieceFor(ps[i], s[i])
  }

  function PiecesText(ps: seq<Piece>): Text {
    if ps == [] then [] else PieceText(ps[0]) + PiecesText(ps[1..])
  }

  // ----- Values (sections 2 to 6 of RFC 8259)

  datatype Doc =
    | Word(v: Json)
    | Number(spelling: Spelling, style: Style, text: Text)
    | String(pieces: seq<Piece>, s: Text)
    | Array(space: Text, items: seq<Item>)
    | Object(space: Text, fields: seq<Field>)

  datatype Item = Item(before: Text, doc: Doc, after: Text)

  datatype Field = Field(before: Text, pieces: seq<Piece>, key: Text, gap: Text, lead: Text, doc: Doc, after: Text)

  /** Space, tab, line feed and carriage return. */
  predicate Blank(t: Text) {
    forall i :: 0 <= i < |t| ==> t[i] in {0x20, 0x09, 0x0A, 0x0D}
  }

  function Yield(d: Doc): Text
    decreases d, 1
  {
    match d
    case Word(v) => if v == Null then NULL else if v == Bool(true) then TRUE else FALSE
    case Number(s, style, _) => Written(s, style)
    case String(ps, _) => [QUOTE] + PiecesText(ps) + [QUOTE]
    case Array(space, items) => [OPEN_BRACKET] + (if items == [] then space else YieldItems(items)) + [CLOSE_BRACKET]
    case Object(space, fields) => [OPEN_BRACE] + (if fields == [] then space else YieldFields(fields)) + [CLOSE_BRACE]
  }

  function YieldItems(items: seq<Item>): Text
    requires items != []
    decreases items, 0
  {
    var i := items[0];
    i.before + Yield(i.doc) + i.after + (if |items| == 1 then [] else [COMMA] + YieldItems(items[1..]))
  }

  function KeyText(f: Field): Text {
    [QUOTE] + PiecesText(f.pieces) + [QUOTE] + f.gap + [COLON] + f.lead
  }

  function YieldFields(fields: seq<Field>): Text
    requires fields != []
    decreases fields, 0
  {
    var f := fields[0];
    f.before + KeyText(f) + Yield(f.doc) + f.after + (if |fields| == 1 then [] else [COMMA] + YieldFields(fields[1..]))
  }

  /** The tree follows the grammar. */
  ghost predicate Grammatical(d: Doc) {
    match d
    case Word(v) => v == Null || v.Bool?
    case Number(s, style, text) => WellSpelled(s) && (Canonical(Written(s, style)).Some? ==> text == Canonical(Written(s, style)).value)
    case String(ps, s) => PiecesFor(ps, s)
    case Array(space, items) => Blank(space) && forall i :: 0 <= i < |items| ==>
      Blank(items[i].before) && Blank(items[i].after) && Grammatical(items[i].doc)
    case Object(space, fields) => Blank(space) && forall i :: 0 <= i < |fields| ==>
      && Blank(fields[i].before) && Blank(fields[i].gap) && Blank(fields[i].lead) && Blank(fields[i].after)
      && PiecesFor(fields[i].pieces, fields[i].key) && Grammatical(fields[i].doc)
  }

  /** data/v1 is stricter in two ways: a number has a canonical text, itself acceptable, ... */
  ghost predicate NumbersFit(d: Doc) {
    match d
    case Number(s, style, text) => Canonical(Written(s, style)) == Some(text) && Canonical(text) == Some(text)
    case Array(_, items) => forall i :: 0 <= i < |items| ==> NumbersFit(items[i].doc)
    case Object(_, fields) => forall i :: 0 <= i < |fields| ==> NumbersFit(fields[i].doc)
    case _ => true
  }

  /** ... and no object repeats a key. */
  ghost predicate KeysDiffer(d: Doc) {
    match d
    case Array(_, items) => forall i :: 0 <= i < |items| ==> KeysDiffer(items[i].doc)
    case Object(_, fields) =>
      && (forall i, j :: 0 <= i < j < |fields| ==> fields[i].key != fields[j].key)
      && (forall i :: 0 <= i < |fields| ==> KeysDiffer(fields[i].doc))
    case _ => true
  }

  ghost predicate Shallow(d: Doc, n: int) {
    n >= 1 && match d
    case Array(_, items) => forall i :: 0 <= i < |items| ==> Shallow(items[i].doc, n - 1)
    case Object(_, fields) => forall i :: 0 <= i < |fields| ==> Shallow(fields[i].doc, n - 1)
    case _ => true
  }

  function Size(d: Doc): nat
    decreases d, 1
  {
    match d
    case Array(_, items) => 1 + SizeOfItems(items)
    case Object(_, fields) => 1 + SizeOfFields(fields)
    case _ => 1
  }

  function SizeOfItems(items: seq<Item>): nat
    decreases items, 0
  {
    if items == [] then 0 else Size(items[0].doc) + SizeOfItems(items[1..])
  }

  function SizeOfFields(fields: seq<Field>): nat
    decreases fields, 0
  {
    if fields == [] then 0 else Size(fields[0].doc) + SizeOfFields(fields[1..])
  }

  // ----- What a tree denotes

  function Denoted(d: Doc): Json
    decreases d, 1
  {
    match d
    case Word(v) => v
    case Number(_, _, text) => Num(text)
    case String(_, s) => Str(s)
    case Array(_, items) => Arr(DenotedItems(items))
    case Object(_, fields) => Obj(DenotedFields(fields, map[]))
  }

  function DenotedItems(items: seq<Item>): seq<Json>
    decreases items, 0
  {
    if items == [] then [] else [Denoted(items[0].doc)] + DenotedItems(items[1..])
  }

  function DenotedFields(fields: seq<Field>, table: map<Text, Json>): map<Text, Json>
    decreases fields, 0
  {
    if fields == [] then table else DenotedFields(fields[1..], table[fields[0].key := Denoted(fields[0].doc)])
  }
}
