/** The map of the Go runtime, a key list beside a value table, as a representation of the ordered map. */
module GoMaps {
  import opened Options
  import opened Int64
  import opened OrderedMaps

  datatype GoMap = GoMap(keys: seq<string>, values: map<string, Value>)

  /** The key list has no duplicates and the same keys as the table. */
  ghost predicate Valid(m: GoMap) {
    && (forall i, j :: 0 <= i < j < |m.keys| ==> m.keys[i] != m.keys[j])
    && (forall k :: k in m.keys <==> k in m.values)
  }

  ghost function EntriesOf(m: GoMap): (es: Entries)
    requires Valid(m)
    ensures |es| == |m.keys| && forall i :: 0 <= i < |es| ==> es[i] == (m.keys[i], m.values[m.keys[i]])
  {
    seq(|m.keys|, i requires 0 <= i < |m.keys| => (m.keys[i], m.values[m.keys[i]]))
  }

  lemma {:induction false} LookupIsTable(m: GoMap, key: string, i: nat)
    requires Valid(m) && i <= |m.keys|
    ensures Lookup(EntriesOf(m)[i..], key) ==
      if key in m.keys[i..] then Some(m.values[key]) else None
    decreases |m.keys| - i
  {
    var es := EntriesOf(m);
    if i < |m.keys| {
      assert es[i..][1..] == es[i + 1..];
      assert m.keys[i..] == [m.keys[i]] + m.keys[i + 1..];
      LookupIsTable(m, key, i + 1);
    }
  }

  /** The table and the ordered entries answer every lookup alike. */
  lemma TableLookup(m: GoMap, key: string)
    requires Valid(m)
    ensures Lookup(EntriesOf(m), key) == if key in m.values then Some(m.values[key]) else None
  {
    LookupIsTable(m, key, 0);
    assert EntriesOf(m)[0..] == EntriesOf(m) && m.keys[0..] == m.keys;
  }

  /** Writing one key: into the table, and at the end of the list when it is new. */
  function Put(m: GoMap, key: string, value: Value): GoMap {
    GoMap(if key in m.values then m.keys else m.keys + [key], m.values[key := value])
  }

  lemma PutIsValid(m: GoMap, key: string, value: Value)
    requires Valid(m)
    ensures Valid(Put(m, key, value))
  {
    var r := Put(m, key, value);
    if key !in m.values {
      assert forall k :: k in r.keys <==> k in m.keys || k == key;
      forall i | 0 <= i < |m.keys| ensures m.keys[i] != key { assert m.keys[i] in m.keys; }
    }
  }

  /** Writing into the representation is assignment to the ordered map. */
  lemma PutIsAssign(m: GoMap, key: string, value: Value)
    requires Valid(m)
    ensures Valid(Put(m, key, value)) && EntriesOf(Put(m, key, value)) == Assign(EntriesOf(m), key, value)
  {
    hide Assign;
    PutIsValid(m, key, value);
    var r, es := Put(m, key, value), EntriesOf(m);
    if key in m.values {
      var i := IndexOf(m, key);
      AssignExisting(es, key, value, i);
      assert EntriesOf(r) == es[i := (key, value)];
    } else {
      assert forall i :: 0 <= i < |es| ==> es[i].0 != key;
      AssignNew(es, key, value);
      assert EntriesOf(r) == es + [(key, value)];
    }
  }

  lemma IndexOf(m: GoMap, key: string) returns (i: nat)
    requires Valid(m) && key in m.values
    ensures i < |m.keys| && m.keys[i] == key && forall j :: 0 <= j < |m.keys| && j != i ==> m.keys[j] != key
  {
    i :| 0 <= i < |m.keys| && m.keys[i] == key;
  }

  predicate TableTainted(values: map<string, Value>) {
    exists k :: k in values && Carries(values[k])
  }

  lemma TaintIsShared(m: GoMap)
    requires Valid(m)
    ensures TableTainted(m.values) <==> Tainted(EntriesOf(m))
  {
    if k :| k in m.values && Carries(m.values[k]) {
      var i := IndexOf(m, k);
      assert Carries(EntriesOf(m)[i].1);
    }
    if Tainted(EntriesOf(m)) {
      var i :| 0 <= i < |m.keys| && Carries(EntriesOf(m)[i].1);
      assert m.keys[i] in m.keys;
    }
  }

  /** The outcome `r` of an operation on the representation is the outcome `s` on the ordered map. */
  ghost predicate Simulates(r: Outcome<GoMap>, s: Outcome<Entries>) {
    match r
    case Fail(f) => s == Fail(f)
    case Ok(m) => Valid(m) && s == Ok(EntriesOf(m))
  }

  // ----- The runtime functions

  method NewMap(keys: seq<Key>, values: seq<Value>) returns (r: Outcome<GoMap>)
    ensures |keys| != |values| ==> r == Fail(LengthMismatch)
    ensures |keys| == |values| ==> Simulates(r, Build(keys, values, |keys|))
  {
    hide Valid, Assign;
    if |keys| != |values| { return Fail(LengthMismatch); }
    var result := GoMap([], map[]);
    EmptyIsValid();
    for i := 0 to |keys|
      invariant Valid(result) && Build(keys, values, i) == Ok(EntriesOf(result))
    {
      FaultsPersist(keys, values, i + 1);
      if keys[i].None? { return Fail(NotString); }
      var key := keys[i].value;
      KeysAreTable(result);
      if key in result.values { return Fail(Duplicate); }
      if Carries(values[i]) { return Fail(CapabilityInMap); }
      PutIsAssign(result, key, values[i]);
      result := GoMap(result.keys + [key], result.values[key := values[i]]);
    }
    return Ok(result);
  }

  lemma EmptyIsValid()
    ensures Valid(GoMap([], map[])) && EntriesOf(GoMap([], map[])) == []
  {
  }

  lemma {:induction false} FaultsPersist(keys: seq<Key>, values: seq<Value>, n: nat)
    requires n <= |keys| == |values|
    ensures Build(keys, values, n).Fail? ==> Build(keys, values, |keys|) == Build(keys, values, n)
    decreases |keys| - n
  {
    if n < |keys| { FaultsPersist(keys, values, n + 1); }
  }

  lemma KeysAreTable(m: GoMap)
    requires Valid(m)
    ensures forall k :: k in Keys(EntriesOf(m)) <==> k in m.values
  {
    assert Keys(EntriesOf(m)) == m.keys;
  }

  /** Copies a table entry by entry, in whatever order Go ranges over it. */
  method CopyTable(values: map<string, Value>) returns (copy: map<string, Value>)
    ensures copy == values
  {
    copy := map[];
    var todo := values.Keys;
    while todo != {}
      invariant todo <= values.Keys && copy.Keys == values.Keys - todo
      invariant forall k :: k in copy ==> copy[k] == values[k]
    {
      var k :| k in todo;
      copy := copy[k := values[k]];
      todo := todo - {k};
    }
  }

  method MapGet(m: GoMap, key: Key) returns (r: Outcome<Value>)
    requires Valid(m)
    ensures r == Get(EntriesOf(m), key)
  {
    if key.None? { return Fail(NotString); }
    TableLookup(m, key.value);
    if key.value !in m.values { return Fail(MissingKey); }
    return Ok(m.values[key.value]);
  }

  method MapKeys(m: GoMap) returns (r: seq<string>)
    requires Valid(m)
    ensures r == Keys(EntriesOf(m))
  {
    r := [];
    for i := 0 to |m.keys|
      invariant r == m.keys[..i]
    {
      r := r + [m.keys[i]];
    }
  }

  method MapSet(m: GoMap, key: Key, item: Value) returns (r: Outcome<GoMap>)
    requires Valid(m)
    ensures Simulates(r, SetKey(EntriesOf(m), key, item))
  {
    if key.None? { return Fail(NotString); }
    if Carries(item) { return Fail(CapabilityInMap); }
    PutIsAssign(m, key.value, item);
    var keys := m.keys;
    var values := CopyTable(m.values);
    if key.value !in values { keys := keys + [key.value]; }
    values := values[key.value := item];
    return Ok(GoMap(keys, values));
  }

  method MapMerge(base: GoMap, overlay: GoMap) returns (r: Outcome<GoMap>)
    requires Valid(base) && Valid(overlay)
    ensures Simulates(r, Merge(EntriesOf(base), EntriesOf(overlay)))
  {
    hide Valid, Assign, Tainted, TableTainted;
    TaintIsShared(base);
    TaintIsShared(overlay);
    if TableTainted(base.values) || TableTainted(overlay.values) { return Fail(CapabilityInMap); }
    var values := CopyTable(base.values);
    var result := GoMap(base.keys, values);
    ghost var es := EntriesOf(overlay);
    assert es[..0] == [];
    for i := 0 to |overlay.keys|
      invariant Valid(result) && EntriesOf(result) == AssignAll(EntriesOf(base), es[..i])
    {
      var key := overlay.keys[i];
      KeyInTable(overlay, i);
      assert es[..i + 1][..i] == es[..i];
      PutIsAssign(result, key, overlay.values[key]);
      var keys := if key in result.values then result.keys else result.keys + [key];
      result := GoMap(keys, result.values[key := overlay.values[key]]);
    }
    assert es[..|es|] == es;
    return Ok(result);
  }

  lemma KeyInTable(m: GoMap, i: nat)
    requires Valid(m) && i < |m.keys|
    ensures m.keys[i] in m.values
  {
    assert m.keys[i] in m.keys;
  }

  /** `ksAdd` on the values that `Map.add` lets through. */
  function AddValues(a: Value, b: Value, plus: (int, int) -> int): Outcome<Value> {
    match (a, b)
    case (Int(x), Int(y)) => (match Add(x, y) case Value(v) => Ok(Int(v)) case Overflow => Fail(IntOverflow))
    case (Float(x), Float(y)) => Ok(Float(plus(x, y)))
    case _ => Fail(TypeMismatch)
  }

  /** The Go `Map.add` agrees with the interpreter except on a map that carries a capability when the key is not a
      String or the delta not a number: there the two checks come in a different order. */
  method MapAdd(m: GoMap, key: Key, delta: Value, plus: (int, int) -> int) returns (r: Outcome<GoMap>)
    requires Valid(m)
    ensures Simulates(r, AddTo(EntriesOf(m), key, delta, plus)) <==>
      !((Tainted(EntriesOf(m)) || Carries(delta)) && (key.None? || delta.Box?))
    ensures r.Fail? <==> AddTo(EntriesOf(m), key, delta, plus).Fail?
  {
    hide Valid, Assign, Tainted, TableTainted;
    TaintIsShared(m);
    if key.None? { return Fail(NotString); }
    if delta.Box? { return Fail(NotNumeric); }
    if TableTainted(m.values) || Carries(delta) { return Fail(CapabilityInMap); }
    var values := CopyTable(m.values);
    TableLookup(m, key.value);
    if key.value !in values {
      PutIsAssign(m, key.value, delta);
      return Ok(GoMap(m.keys + [key.value], values[key.value := delta]));
    }
    var current := values[key.value];
    if current.Int? && delta.Int? { AddIsExact(current.i, delta.i); }
    var added := AddValues(current, delta, plus);
    if added.Fail? { return Fail(added.fault); }
    PutIsAssign(m, key.value, added.value);
    return Ok(GoMap(m.keys, values[key.value := added.value]));
  }

  // ----- Whole runs

  datatype Op<M> = Set(key: Key, item: Value) | Union(other: M) | Bump(key: Key, delta: Value)

  /** The operations on ordered maps, one after the other, up to the first fault. */
  function RunOrdered(es: Entries, ops: seq<Op<Entries>>, plus: (int, int) -> int): Outcome<Entries> {
    if ops == [] then Ok(es)
    else
      var r := RunOrdered(es, ops[..|ops| - 1], plus);
      if r.Fail? then r
      else ApplyOrdered(r.value, ops[|ops| - 1], plus)
  }

  function ApplyOrdered(es: Entries, op: Op<Entries>, plus: (int, int) -> int): Outcome<Entries> {
    match op
    case Set(key, item) => SetKey(es, key, item)
    case Union(other) => Merge(es, other)
    case Bump(key, delta) => AddTo(es, key, delta, plus)
  }

  ghost predicate ValidOps(ops: seq<Op<GoMap>>) {
    forall i :: 0 <= i < |ops| && ops[i].Union? ==> Valid(ops[i].other)
  }

  ghost function OnEntries(ops: seq<Op<GoMap>>): (r: seq<Op<Entries>>)
    requires ValidOps(ops)
    ensures |r| == |ops|
  {
    seq(|ops|, i requires 0 <= i < |ops| => OnEntriesOne(ops[i]))
  }

  ghost function OnEntriesOne(op: Op<GoMap>): Op<Entries>
    requires op.Union? ==> Valid(op.other)
  {
    match op
    case Set(key, item) => Set(key, item)
    case Union(other) => Union(EntriesOf(other))
    case Bump(key, delta) => Bump(key, delta)
  }

  ghost predicate NoCapabilityDelta(ops: seq<Op<GoMap>>) {
    forall i :: 0 <= i < |ops| && ops[i].Bump? ==> !Carries(ops[i].delta)
  }

  /** Equal results, and failures at the same places, whatever their kinds. */
  ghost predicate Agrees(r: Outcome<GoMap>, s: Outcome<Entries>) {
    match r
    case Fail(_) => s.Fail?
    case Ok(m) => Valid(m) && s == Ok(EntriesOf(m))
  }

  method ApplyOp(m: GoMap, op: Op<GoMap>, plus: (int, int) -> int) returns (r: Outcome<GoMap>)
    requires Valid(m) && (op.Union? ==> Valid(op.other))
    ensures Agrees(r, ApplyOrdered(EntriesOf(m), OnEntriesOne(op), plus))
    ensures !Tainted(EntriesOf(m)) && (op.Bump? ==> !Carries(op.delta)) ==>
      Simulates(r, ApplyOrdered(EntriesOf(m), OnEntriesOne(op), plus))
  {
    hide Valid, Assign, Tainted;
    match op
    case Set(key, item) => r := MapSet(m, key, item);
    case Union(other) => r := MapMerge(m, other);
    case Bump(key, delta) => r := MapAdd(m, key, delta, plus);
  }

  /** Any sequence of operations on the representation gives what it gives on the ordered map. */
  method RunGo(m: GoMap, ops: seq<Op<GoMap>>, plus: (int, int) -> int) returns (r: Outcome<GoMap>)
    requires Valid(m) && ValidOps(ops)
    ensures Agrees(r, RunOrdered(EntriesOf(m), OnEntries(ops), plus))
    ensures !Tainted(EntriesOf(m)) && NoCapabilityDelta(ops) ==> Simulates(r, RunOrdered(EntriesOf(m), OnEntries(ops), plus))
    ensures !Tainted(EntriesOf(m)) && r.Ok? ==> !Tainted(EntriesOf(r.value))
  {
    hide Valid, Assign, Tainted, ApplyOrdered;
    ghost var abstracted := OnEntries(ops);
    ghost var start := EntriesOf(m);
    var current := m;
    assert abstracted[..0] == [];
    for i := 0 to |ops|
      invariant Valid(current) && RunOrdered(start, abstracted[..i], plus) == Ok(EntriesOf(current))
    {
      StepOrdered(start, abstracted, i, plus);
      StaysFailed(start, abstracted, i + 1, plus);
      RunStaysClean(start, abstracted[..i], plus);
      var next := ApplyOp(current, ops[i], plus);
      if next.Fail? { return Fail(next.fault); }
      current := next.value;
    }
    assert abstracted[..|ops|] == abstracted;
    RunStaysClean(start, abstracted, plus);
    return Ok(current);
  }

  lemma StepOrdered(es: Entries, ops: seq<Op<Entries>>, i: nat, plus: (int, int) -> int)
    requires i < |ops| && RunOrdered(es, ops[..i], plus).Ok?
    ensures RunOrdered(es, ops[..i + 1], plus) == ApplyOrdered(RunOrdered(es, ops[..i], plus).value, ops[i], plus)
  {
    hide ApplyOrdered;
    assert ops[..i + 1][..i] == ops[..i];
  }

  lemma {:induction false} StaysFailed(es: Entries, ops: seq<Op<Entries>>, i: nat, plus: (int, int) -> int)
    requires i <= |ops|
    ensures RunOrdered(es, ops[..i], plus).Fail? ==> RunOrdered(es, ops, plus) == RunOrdered(es, ops[..i], plus)
    decreases |ops| - i
  {
    hide ApplyOrdered;
    if i < |ops| {
      assert ops[..i + 1][..i] == ops[..i];
      StaysFailed(es, ops, i + 1, plus);
    } else {
      assert ops[..i] == ops;
    }
  }

  /** No sequence of operations puts a capability into a map. */
  lemma {:induction false} RunStaysClean(es: Entries, ops: seq<Op<Entries>>, plus: (int, int) -> int)
    ensures !Tainted(es) && RunOrdered(es, ops, plus).Ok? ==> !Tainted(RunOrdered(es, ops, plus).value)
  {
    hide Tainted, Assign, AssignAll;
    if ops != [] && !Tainted(es) && RunOrdered(es, ops, plus).Ok? {
      var n := |ops| - 1;
      RunStaysClean(es, ops[..n], plus);
      var before := RunOrdered(es, ops[..n], plus).value;
      match ops[n]
      case Set(key, item) => AssignCarries(before, key.value, item);
      case Union(other) => MergeIsClean(before, other);
      case Bump(key, delta) =>
        var current := Lookup(before, key.value);
        AssignCarries(before, key.value, if current.None? then delta else Sum(current.value, delta, plus).value);
    }
  }

  lemma {:induction false} BuildIsClean(keys: seq<Key>, values: seq<Value>, n: nat)
    requires n <= |keys| == |values| && Build(keys, values, n).Ok?
    ensures !Tainted(Build(keys, values, n).value) && Distinct(Build(keys, values, n).value)
  {
    if n > 0 {
      BuildIsClean(keys, values, n - 1);
      var es := Build(keys, values, n - 1).value;
      AssignCarries(es, keys[n - 1].value, values[n - 1]);
      AssignKeepsDistinct(es, keys[n - 1].value, values[n - 1]);
    }
  }
}
