/** What the recursive-descent parser computes, as functions from the remaining text. */
module JsonParse {
  import opened Options
  import opened Unicode
  import opened JsonNumber
  import opened JsonValue

  datatype Limits = Limits(maxInput: int, maxOutput: int, maxNodes: int, maxDepth: int)

  predicate ValidLimits(l: Limits) {
    l.maxInput >= 1 && l.maxOutput >= 1 && l.maxNodes >= 1 && l.maxDepth >= 1
  }

  datatype ErrorCode = BAD_LIMITS | KS3601 | KS3602 | KS3603 | KS3604 | KS3605 | KS3607 | KS3608

  /** A value, the text after it, and the number of nodes seen so far. */
  datatype Parsed<+T> = Ok(value: T, rest: Text, nodes: nat) | Fail(code: ErrorCode)

  predicate IsSpace(c: Code) {
    c == 0x20 || c == 0x09 || c == 0x0D || c == 0x0A
  }

  function SkipSpace(t: Text): (r: Text)
    ensures |r| <= |t|
  {
    if t != [] && IsSpace(t[0]) then SkipSpace(t[1..]) else t
  }

  function HexValue(c: Code): (r: Option<nat>)
    ensures r.Some? ==> r.value < 16
  {
    if IsDigit(c) then Some(c - ZERO)
    else if 0x61 <= c <= 0x66 then Some(c - 0x61 + 10)
    else if 0x41 <= c <= 0x46 then Some(c - 0x41 + 10)
    else None
  }

  /** Four hexadecimal digits at the start of a text. */
  function Hex4(t: Text): (r: Option<nat>)
    ensures r.Some? ==> |t| >= 4 && r.value < 0x10000
  {
    if |t| < 4 then None
    else
      match (HexValue(t[0]), HexValue(t[1]), HexValue(t[2]), HexValue(t[3]))
      case (Some(a), Some(b), Some(c), Some(d)) => Some(((a * 16 + b) * 16 + c) * 16 + d)
      case _ => None
  }

  /** After `\\u`: one code unit, or a surrogate pair. */
  function UnicodeEscape(t: Text): (r: Option<(Code, Text)>)
    ensures r.Some? ==> |r.value.1| < |t| && !IsSurrogate(r.value.0)
  {
    match Hex4(t)
    case None => None
    case Some(first) =>
      if 0xDC00 <= first <= 0xDFFF then None
      else if !(0xD800 <= first <= 0xDBFF) then Some((first, t[4..]))
      else if |t| < 10 || t[4] != BACKSLASH || t[5] != LOWER_U then None
      else
        match Hex4(t[6..])
        case None => None
        case Some(second) =>
          if !(0xDC00 <= second <= 0xDFFF) then None
          else Some((0x10000 + (first - 0xD800) * 0x400 + (second - 0xDC00), t[10..]))
  }

  /** After a backslash. */
  function ParseEscape(t: Text): (r: Option<(Code, Text)>)
    ensures r.Some? ==> |r.value.1| < |t| && !IsSurrogate(r.value.0)
  {
    if t == [] then None
    else
      var c, rest := t[0], t[1..];
      if c == QUOTE || c == BACKSLASH || c == 0x2F then Some((c, rest))
      else if c == 0x62 then Some((0x08, rest))
      else if c == 0x66 then Some((0x0C, rest))
      else if c == 0x6E then Some((0x0A, rest))
      else if c == 0x72 then Some((0x0D, rest))
      else if c == 0x74 then Some((0x09, rest))
      else if c == LOWER_U then UnicodeEscape(rest)
      else None
  }

  /** After the opening quote: the string and the text after the closing quote. */
  function ParseString(t: Text): (r: Option<(Text, Text)>)
    ensures r.Some? ==> |r.value.1| < |t| && Scalar(r.value.0)
    decreases |t|
  {
    if t == [] then None
    else if t[0] == QUOTE then Some(([], t[1..]))
    else if t[0] == BACKSLASH then
      match ParseEscape(t[1..])
      case None => None
      case Some((c, rest)) => Prepend(c, ParseString(rest))
    else if t[0] < 0x20 || IsSurrogate(t[0]) then None
    else Prepend(t[0], ParseString(t[1..]))
  }

  function Prepend(c: Code, r: Option<(Text, Text)>): Option<(Text, Text)> {
    match r
    case None => None
    case Some((s, rest)) => Some(([c] + s, rest))
  }

  /** A number is canonicalised, and the canonical text must itself be acceptable as a `Number`. */
  function ParseNumber(t: Text, nodes: nat): (r: Parsed<Json>)
    ensures r.Ok? ==> |r.rest| < |t| && r.nodes == nodes
  {
    match ScanNumber(t)
    case None => Fail(KS3605)
    case Some((_, rest)) =>
      match Canonical(t[..|t| - |rest|])
      case None => Fail(KS3605)
      case Some(text) => if Canonical(text) == Some(text) then Ok(Num(text), rest, nodes) else Fail(KS3605)
  }

  predicate StartsWith(t: Text, word: Text) {
    |word| <= |t| && t[..|word|] == word
  }

  function ParseValue(t: Text, depth: nat, nodes: nat, l: Limits): (r: Parsed<Json>)
    ensures r.Ok? ==> |r.rest| < |t|
    decreases |t|, 1
  {
    if depth > l.maxDepth then Fail(KS3602)
    else if nodes + 1 > l.maxNodes then Fail(KS3603)
    else if t == [] then Fail(KS3605)
    else if t[0] == QUOTE then
      match ParseString(t[1..])
      case None => Fail(KS3605)
      case Some((s, rest)) => Ok(Str(s), rest, nodes + 1)
    else if t[0] == OPEN_BRACE then ParseObject(t[1..], depth, nodes + 1, l)
    else if t[0] == OPEN_BRACKET then ParseArray(t[1..], depth, nodes + 1, l)
    else if StartsWith(t, TRUE) then Ok(Bool(true), t[4..], nodes + 1)
    else if StartsWith(t, FALSE) then Ok(Bool(false), t[5..], nodes + 1)
    else if StartsWith(t, NULL) then Ok(Null, t[4..], nodes + 1)
    else if t[0] == MINUS || IsDigit(t[0]) then ParseNumber(t, nodes + 1)
    else Fail(KS3605)
  }

  function ParseArray(t: Text, depth: nat, nodes: nat, l: Limits): (r: Parsed<Json>)
    ensures r.Ok? ==> |r.rest| < |t|
    decreases |t|, 3
  {
    var u := SkipSpace(t);
    if u != [] && u[0] == CLOSE_BRACKET then Ok(Arr([]), u[1..], nodes) else ParseItems(u, [], depth, nodes, l)
  }

  function ParseObject(t: Text, depth: nat, nodes: nat, l: Limits): (r: Parsed<Json>)
    ensures r.Ok? ==> |r.rest| < |t|
    decreases |t|, 4
  {
    var u := SkipSpace(t);
    if u != [] && u[0] == CLOSE_BRACE then Ok(Obj(map[]), u[1..], nodes) else ParseFields(u, map[], depth, nodes, l)
  }

  /** The rest of an array after the items read so far. */
  function ParseItems(t: Text, items: seq<Json>, depth: nat, nodes: nat, l: Limits): (r: Parsed<Json>)
    ensures r.Ok? ==> |r.rest| < |t|
    decreases |t|, 2
  {
    match ParseValue(t, depth + 1, nodes, l)
    case Fail(code) => Fail(code)
    case Ok(v, rest, n) =>
      var u := SkipSpace(rest);
      if u == [] then Fail(KS3605)
      else if u[0] == CLOSE_BRACKET then Ok(Arr(items + [v]), u[1..], n)
      else if u[0] != COMMA then Fail(KS3605)
      else ParseItems(SkipSpace(u[1..]), items + [v], depth, n, l)
  }

  /** One `"key": value`, whose key must be new. */
  function ParseField(t: Text, fields: map<Text, Json>, depth: nat, nodes: nat, l: Limits): (r: Parsed<(Text, Json)>)
    ensures r.Ok? ==> |r.rest| < |t| && r.value.0 !in fields && Scalar(r.value.0)
    decreases |t|, 2
  {
    if t == [] || t[0] != QUOTE then Fail(KS3605)
    else
      match ParseString(t[1..])
      case None => Fail(KS3605)
      case Some((key, afterKey)) =>
        if key in fields then Fail(KS3604)
        else
          var u := SkipSpace(afterKey);
          if u == [] || u[0] != COLON then Fail(KS3605)
          else
            match ParseValue(SkipSpace(u[1..]), depth + 1, nodes, l)
            case Fail(code) => Fail(code)
            case Ok(v, rest, n) => Ok((key, v), rest, n)
  }

  /** The rest of an object after the fields read so far. */
  function ParseFields(t: Text, fields: map<Text, Json>, depth: nat, nodes: nat, l: Limits): (r: Parsed<Json>)
    ensures r.Ok? ==> |r.rest| < |t|
    decreases |t|, 3
  {
    match ParseField(t, fields, depth, nodes, l)
    case Fail(code) => Fail(code)
    case Ok((key, v), rest, n) =>
      var w := SkipSpace(rest);
      if w == [] then Fail(KS3605)
      else if w[0] == CLOSE_BRACE then Ok(Obj(fields[key := v]), w[1..], n)
      else if w[0] != COMMA then Fail(KS3605)
      else ParseFields(SkipSpace(w[1..]), fields[key := v], depth, n, l)
  }

  datatype Result<+T> = Success(value: T) | Failure(code: ErrorCode)

  function Decode(text: Text, l: Limits): Result<Json> {
    if !ValidLimits(l) then Failure(BAD_LIMITS)
    else if !Scalar(text) then Failure(KS3605)
    else if Utf8Size(text) > l.maxInput then Failure(KS3601)
    else
      match ParseValue(SkipSpace(text), 1, 0, l)
      case Fail(code) => Failure(code)
      case Ok(v, rest, _) => if SkipSpace(rest) == [] then Success(v) else Failure(KS3605)
  }
}
