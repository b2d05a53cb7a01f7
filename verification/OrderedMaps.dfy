/** The insertion-ordered map of the interpreter: replacement keeps a key's position, new keys are appended. */
module OrderedMaps {
  import opened Options
  import opened Int64

  /** A runtime value.  `Box` is any other value, with the answer of `contains_capability` for it. */
  datatype Value = Int(i: Int64) | Float(bits: int) | Box(id: int, capability: bool)

  predicate Carries(v: Value) {
    v.Box? && v.capability
  }

  /** The entries of a map in insertion order. */
  type Entries = seq<(string, Value)>

  ghost predicate Distinct(es: Entries) {
    forall i, j :: 0 <= i < j < |es| ==> es[i].0 != es[j].0
  }

  predicate Tainted(es: Entries) {
    exists i :: 0 <= i < |es| && Carries(es[i].1)
  }

  datatype Fault = NotString | Duplicate | LengthMismatch | CapabilityInMap | MissingKey | NotNumeric | TypeMismatch | IntOverflow

  datatype Outcome<+T> = Ok(value: T) | Fail(fault: Fault)

  function Keys(es: Entries): (ks: seq<string>)
    ensures |ks| == |es| && forall i :: 0 <= i < |es| ==> ks[i] == es[i].0
  {
    seq(|es|, i requires 0 <= i < |es| => es[i].0)
  }

  function Lookup(es: Entries, key: string): Option<Value> {
    if es == [] then None else if es[0].0 == key then Some(es[0].1) else Lookup(es[1..], key)
  }

  /** `entries[key] = value` on an insertion-ordered dictionary. */
  function Assign(es: Entries, key: string, value: Value): Entries {
    if es == [] then [(key, value)]
    else if es[0].0 == key then [(key, value)] + es[1..]
    else [es[0]] + Assign(es[1..], key, value)
  }

  /** `dict.update`: the entries of `other` one after the other. */
  function AssignAll(es: Entries, other: Entries): Entries {
    if other == [] then es
    else Assign(AssignAll(es, other[..|other| - 1]), other[|other| - 1].0, other[|other| - 1].1)
  }

  // ----- What assignment means

  lemma {:induction false} AssignLooksUp(es: Entries, key: string, value: Value, other: string)
    ensures Lookup(Assign(es, key, value), other) == if other == key then Some(value) else Lookup(es, other)
  {
    if es != [] && es[0].0 != key { AssignLooksUp(es[1..], key, value, other); }
  }

  lemma {:induction false} AssignNew(es: Entries, key: string, value: Value)
    requires forall i :: 0 <= i < |es| ==> es[i].0 != key
    ensures Assign(es, key, value) == es + [(key, value)]
  {
    if es != [] {
      AssignNew(es[1..], key, value);
      Split(es);
      Associate([es[0]], es[1..], [(key, value)]);
    }
  }

  lemma {:induction false} AssignExisting(es: Entries, key: string, value: Value, i: nat)
    requires i < |es| && es[i].0 == key && forall j :: 0 <= j < i ==> es[j].0 != key
    ensures Assign(es, key, value) == es[i := (key, value)]
  {
    if i > 0 {
      AssignExisting(es[1..], key, value, i - 1);
      UpdateTail(es, i, (key, value));
    }
  }

  lemma Tail(es: Entries, i: nat)
    requires i < |es|
    ensures es[i..][1..] == es[i + 1..] && es[i..][0] == es[i]
  {
  }

  lemma Split(es: Entries)
    requires es != []
    ensures es == [es[0]] + es[1..]
  {
  }

  lemma Associate(a: Entries, b: Entries, c: Entries)
    ensures a + (b + c) == (a + b) + c
  {
  }

  lemma UpdateTail(es: Entries, i: nat, e: (string, Value))
    requires 0 < i < |es|
    ensures es[i := e] == [es[0]] + es[1..][i - 1 := e]
  {
  }

  /** Positions: an existing key keeps its place, a new one goes to the end. */
  lemma AssignKeepsOrder(es: Entries, key: string, value: Value)
    requires Distinct(es)
    ensures Keys(Assign(es, key, value)) == if key in Keys(es) then Keys(es) else Keys(es) + [key]
  {
    hide Assign;
    if key in Keys(es) {
      var i :| 0 <= i < |es| && Keys(es)[i] == key;
      AssignExisting(es, key, value, i);
    } else {
      forall i | 0 <= i < |es| ensures es[i].0 != key { assert Keys(es)[i] in Keys(es); }
      AssignNew(es, key, value);
    }
  }

  lemma AssignKeepsDistinct(es: Entries, key: string, value: Value)
    requires Distinct(es)
    ensures Distinct(Assign(es, key, value))
  {
    hide Assign;
    if key in Keys(es) {
      var i :| 0 <= i < |es| && Keys(es)[i] == key;
      AssignExisting(es, key, value, i);
    } else {
      forall i | 0 <= i < |es| ensures es[i].0 != key { assert Keys(es)[i] in Keys(es); }
      AssignNew(es, key, value);
    }
  }

  lemma {:induction false} AssignCarries(es: Entries, key: string, value: Value)
    requires !Tainted(es) && !Carries(value)
    ensures !Tainted(Assign(es, key, value))
  {
    if es != [] && es[0].0 != key {
      assert !Tainted(es[1..]);
      AssignCarries(es[1..], key, value);
    }
  }

  lemma {:induction false} MergeLooksUp(es: Entries, other: Entries, key: string)
    requires Distinct(other)
    ensures Lookup(AssignAll(es, other), key) == if Lookup(other, key).Some? then Lookup(other, key) else Lookup(es, key)
  {
    if other != [] {
      var n := |other| - 1;
      MergeLooksUp(es, other[..n], key);
      AssignLooksUp(AssignAll(es, other[..n]), other[n].0, other[n].1, key);
      LookupLast(other, key);
    }
  }

  lemma {:induction false} LookupLast(es: Entries, key: string)
    requires es != [] && Distinct(es)
    ensures var n := |es| - 1;
      Lookup(es, key) == if es[n].0 == key then Some(es[n].1) else Lookup(es[..n], key)
  {
    var n := |es| - 1;
    if n > 0 {
      LookupLast(es[1..], key);
      assert es[1..][..n - 1] == es[..n][1..];
    }
  }

  /** The keys of `other` that `es` does not have, in their order. */
  function NewKeys(es: Entries, other: Entries): seq<string> {
    if other == [] then []
    else
      var n := |other| - 1;
      NewKeys(es, other[..n]) + (if other[n].0 in Keys(es) then [] else [other[n].0])
  }

  /** Merging keeps the keys of the base in place and appends the new ones in the overlay's order. */
  lemma {:induction false} MergeKeepsOrder(es: Entries, other: Entries)
    requires Distinct(es) && Distinct(other)
    ensures Keys(AssignAll(es, other)) == Keys(es) + NewKeys(es, other) && Distinct(AssignAll(es, other))
    ensures forall k :: k in NewKeys(es, other) ==> k in Keys(other)
  {
    hide Assign;
    if other == [] {
      assert Keys(es) + [] == Keys(es);
    } else {
      var n := |other| - 1;
      var first, key := other[..n], other[n].0;
      MergeKeepsOrder(es, first);
      assert key !in Keys(first);
      assert forall k :: k in Keys(first) ==> k in Keys(other) by { assert Keys(first) == Keys(other)[..n]; }
      assert Keys(other)[n] == key;
      var merged := AssignAll(es, first);
      AssignKeepsOrder(merged, key, other[n].1);
      AssignKeepsDistinct(merged, key, other[n].1);
    }
  }

  /** After `Map.add` the key has the sum, exactly, or the delta when it was new; every other key is as before. */
  lemma AddLooksUp(es: Entries, key: string, delta: Value, plus: (int, int) -> int, other: string)
    requires AddTo(es, Some(key), delta, plus).Ok?
    ensures var r := AddTo(es, Some(key), delta, plus).value;
      && (other != key ==> Lookup(r, other) == Lookup(es, other))
      && match Lookup(es, key)
         case None => Lookup(r, key) == Some(delta)
         case Some(current) =>
           && (delta.Int? ==> current.Int? && MIN <= current.i + delta.i <= MAX && Lookup(r, key) == Some(Int(current.i + delta.i)))
           && (delta.Float? ==> current.Float? && Lookup(r, key) == Some(Float(plus(current.bits, delta.bits))))
  {
    hide Assign;
    var current := Lookup(es, key);
    var item := if current.None? then delta else Sum(current.value, delta, plus).value;
    AssignLooksUp(es, key, item, other);
    AssignLooksUp(es, key, item, key);
  }

  lemma {:induction false} MergeIsClean(es: Entries, other: Entries)
    requires !Tainted(es) && !Tainted(other)
    ensures !Tainted(AssignAll(es, other))
  {
    if other != [] {
      var n := |other| - 1;
      assert !Carries(other[n].1);
      MergeIsClean(es, other[..n]);
      AssignCarries(AssignAll(es, other[..n]), other[n].0, other[n].1);
    }
  }

  // ----- The operations of the interpreter

  type Key = Option<string>   // `None` is a key that is not a String

  /** A map literal through `MapBuilderV1`: inserts in order, stopping at the first fault. */
  function Build(keys: seq<Key>, values: seq<Value>, n: nat): Outcome<Entries>
    requires n <= |keys| == |values|
  {
    if n == 0 then Ok([])
    else
      var r := Build(keys, values, n - 1);
      if r.Fail? then r
      else if keys[n - 1].None? then Fail(NotString)
      else if keys[n - 1].value in Keys(r.value) then Fail(Duplicate)
      else if Carries(values[n - 1]) then Fail(CapabilityInMap)
      else Ok(Assign(r.value, keys[n - 1].value, values[n - 1]))
  }

  function Get(es: Entries, key: Key): Outcome<Value> {
    if key.None? then Fail(NotString)
    else match Lookup(es, key.value)
      case None => Fail(MissingKey)
      case Some(v) => Ok(v)
  }

  function SetKey(es: Entries, key: Key, item: Value): Outcome<Entries> {
    if key.None? then Fail(NotString)
    else if Carries(item) then Fail(CapabilityInMap)
    else Ok(Assign(es, key.value, item))
  }

  function Merge(es: Entries, other: Entries): Outcome<Entries> {
    if Tainted(es) || Tainted(other) then Fail(CapabilityInMap) else Ok(AssignAll(es, other))
  }

  /** The sum of two numbers of one type; `plus` adds floats. */
  function Sum(a: Value, b: Value, plus: (int, int) -> int): Outcome<Value> {
    match (a, b)
    case (Int(x), Int(y)) => (match Exactly(x + y) case Value(v) => Ok(Int(v)) case Overflow => Fail(IntOverflow))
    case (Float(x), Float(y)) => Ok(Float(plus(x, y)))
    case _ => Fail(TypeMismatch)
  }

  /** `Map.add` of the interpreter: the capability check comes first. */
  function AddTo(es: Entries, key: Key, delta: Value, plus: (int, int) -> int): Outcome<Entries> {
    if Tainted(es) || Carries(delta) then Fail(CapabilityInMap)
    else if key.None? then Fail(NotString)
    else if delta.Box? then Fail(NotNumeric)
    else match Lookup(es, key.value)
      case None => Ok(Assign(es, key.value, delta))
      case Some(current) =>
        match Sum(current, delta, plus)
        case Fail(f) => Fail(f)
        case Ok(total) => Ok(Assign(es, key.value, total))
  }

  /** The loop of `map_set_v1`, which copies the entries and replaces or appends one. */
  method SetInOrder(entries: Entries, key: Key, item: Value) returns (r: Outcome<Entries>)
    requires Distinct(entries)
    ensures r == SetKey(entries, key, item)
  {
    hide Rest;
    if key.None? { return Fail(NotString); }
    if Carries(item) { return Fail(CapabilityInMap); }
    StartCopy(entries, key.value, item);
    var updated: Entries := [];
    var replaced := false;
    for i := 0 to |entries|
      invariant replaced ==> exists j :: 0 <= j < i && entries[j].0 == key.value
      invariant updated + Rest(entries[i..], key.value, item, replaced) == Assign(entries, key.value, item)
    {
      var (existing, value) := entries[i];
      CopyOne(updated, entries[i..], key.value, item, replaced);
      Tail(entries, i);
      if existing == key.value {
        updated := updated + [(existing, item)];
        replaced := true;
      } else {
        updated := updated + [(existing, value)];
      }
    }
    EndCopy(updated, entries, key.value, item, replaced);
    if !replaced { updated := updated + [(key.value, item)]; }
    return Ok(updated);
  }

  /** What the copy loop still has to produce. */
  function Rest(es: Entries, key: string, item: Value, replaced: bool): Entries {
    if replaced then es else Assign(es, key, item)
  }

  lemma StartCopy(es: Entries, key: string, item: Value)
    ensures [] + Rest(es[0..], key, item, false) == Assign(es, key, item)
  {
    assert es[0..] == es;
  }

  lemma EndCopy(done: Entries, es: Entries, key: string, item: Value, replaced: bool)
    ensures done + Rest(es[|es|..], key, item, replaced) == if replaced then done else done + [(key, item)]
  {
    assert es[|es|..] == [];
  }

  lemma CopyOne(done: Entries, es: Entries, key: string, item: Value, replaced: bool)
    requires es != []
    ensures es[0].0 != key ==>
      done + Rest(es, key, item, replaced) == (done + [es[0]]) + Rest(es[1..], key, item, replaced)
    ensures es[0].0 == key && !replaced ==>
      done + Rest(es, key, item, replaced) == (done + [(key, item)]) + Rest(es[1..], key, item, true)
  {
    Split(es);
    Associate(done, [es[0]], es[1..]);
    Associate(done, [es[0]], Assign(es[1..], key, item));
    Associate(done, [(key, item)], es[1..]);
  }
}
