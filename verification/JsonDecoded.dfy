/** What every decoded value satisfies: canonical numbers, encodable strings, and the node and depth budgets. */
module JsonDecoded {
  import opened Unicode
  import opened JsonNumber
  import opened JsonValue
  import opened JsonParse

  // ----- Counting nodes does not depend on the order of the keys

  lemma {:induction false} NodesOfItemsAppend(items: seq<Json>, v: Json)
    ensures NodesOfItems(items + [v]) == NodesOfItems(items) + Nodes(v)
  {
    if items == [] {
      assert items + [v] == [v] && [v][1..] == [];
    } else {
      NodesOfItemsAppend(items[1..], v);
      assert (items + [v])[1..] == items[1..] + [v];
    }
  }

  lemma {:induction false} NodesOfFieldsConcat(v: Json, a: seq<Text>, b: seq<Text>)
    requires v.Obj? && (forall k :: k in a ==> k in v.fields) && (forall k :: k in b ==> k in v.fields)
    ensures (forall k :: k in a + b ==> k in v.fields)
    ensures NodesOfFields(v, a + b) == NodesOfFields(v, a) + NodesOfFields(v, b)
  {
    if a == [] {
      assert a + b == b;
    } else {
      NodesOfFieldsConcat(v, a[1..], b);
      assert (a + b)[1..] == a[1..] + b;
    }
  }

  lemma {:induction false} NodesOfFieldsFrame(v: Json, w: Json, keys: seq<Text>)
    requires v.Obj? && w.Obj? && forall k :: k in keys ==> k in v.fields && k in w.fields && v.fields[k] == w.fields[k]
    ensures NodesOfFields(v, keys) == NodesOfFields(w, keys)
  {
    if keys != [] { NodesOfFieldsFrame(v, w, keys[1..]); }
  }

  lemma SortedWithout(ks: seq<Text>, i: nat)
    requires Sorted(ks) && i < |ks|
    ensures var rest := ks[..i] + ks[i + 1..];
      Sorted(rest) && forall k :: k in rest <==> k in ks && k != ks[i]
  {
    var rest := ks[..i] + ks[i + 1..];
    forall k ensures k in rest <==> k in ks && k != ks[i] {
      LessIrreflexive(k);
      if k in ks && k != ks[i] {
        var j :| 0 <= j < |ks| && ks[j] == k;
        assert rest[if j < i then j else j - 1] == k;
      }
    }
  }

  /** A new field adds the nodes of its value. */
  lemma NodesInsert(m: map<Text, Json>, key: Text, x: Json)
    requires key !in m
    ensures Nodes(Obj(m[key := x])) == Nodes(Obj(m)) + Nodes(x)
  {
    hide SortedKeys, Sorted, Less;
    var w := Obj(m[key := x]);
    var ks := SortedKeys(w.fields.Keys);
    assert key in ks;
    var i :| 0 <= i < |ks| && ks[i] == key;
    var a, b := ks[..i], ks[i + 1..];
    assert ks == a + ([key] + b);
    SortedWithout(ks, i);
    assert a + b == SortedKeys(m.Keys) by { SortedIsUnique(a + b, SortedKeys(m.Keys)); }
    NodesAround(w, a, key, b);
    NodesOfFieldsFrame(w, Obj(m), a + b);
  }

  lemma NodesAround(v: Json, a: seq<Text>, key: Text, b: seq<Text>)
    requires v.Obj? && (forall k :: k in a ==> k in v.fields) && (forall k :: k in b ==> k in v.fields) && key in v.fields
    ensures (forall k :: k in a + b ==> k in v.fields) && (forall k :: k in a + ([key] + b) ==> k in v.fields)
    ensures NodesOfFields(v, a + ([key] + b)) == NodesOfFields(v, a + b) + Nodes(v.fields[key])
  {
    NodesOfFieldsConcat(v, a, [key] + b);
    NodesOfFieldsConcat(v, a, b);
    assert ([key] + b)[1..] == b;
  }

  // ----- Decoded values

  /** Fit to be the value at `depth` under the limits. */
  ghost predicate Admissible(v: Json, depth: int, l: Limits) {
    Canon(v) && Encodable(v) && WithinDepth(v, l.maxDepth - depth + 1)
  }

  ghost predicate Accounted(r: Parsed<Json>, depth: int, nodes: int, l: Limits) {
    r.Ok? ==> Admissible(r.value, depth, l) && r.nodes == nodes + Nodes(r.value) && r.nodes <= l.maxNodes
  }

  lemma {:induction false} ParsedIsAccounted(t: Text, depth: nat, nodes: nat, l: Limits)
    ensures Accounted(ParseValue(t, depth, nodes, l), depth, nodes, l)
    decreases |t|, 1
  {
    if depth <= l.maxDepth && nodes + 1 <= l.maxNodes && t != [] {
      if t[0] == OPEN_BRACE { ObjectIsAccounted(t[1..], depth, nodes + 1, l); }
      else if t[0] == OPEN_BRACKET { ArrayIsAccounted(t[1..], depth, nodes + 1, l); }
    }
  }

  lemma {:induction false} ArrayIsAccounted(t: Text, depth: nat, nodes: nat, l: Limits)
    requires depth <= l.maxDepth && nodes <= l.maxNodes
    ensures Accounted(ParseArray(t, depth, nodes, l), depth, nodes - 1, l)
    decreases |t|, 3
  {
    hide ParseItems;
    var u := SkipSpace(t);
    if !(u != [] && u[0] == CLOSE_BRACKET) { ItemsAreAccounted(u, [], depth, nodes, l); }
  }

  lemma {:induction false} ObjectIsAccounted(t: Text, depth: nat, nodes: nat, l: Limits)
    requires depth <= l.maxDepth && nodes <= l.maxNodes
    ensures Accounted(ParseObject(t, depth, nodes, l), depth, nodes - 1, l)
    decreases |t|, 4
  {
    hide ParseFields;
    assert SortedKeys({}) == [];
    var u := SkipSpace(t);
    if !(u != [] && u[0] == CLOSE_BRACE) { FieldsAreAccounted(u, map[], depth, nodes, l); }
  }

  lemma AppendAdmissible(items: seq<Json>, v: Json, depth: nat, l: Limits)
    requires Admissible(Arr(items), depth, l) && Admissible(v, depth + 1, l)
    ensures Admissible(Arr(items + [v]), depth, l)
  {
    hide Canonical, Nodes;
  }

  lemma {:induction false} ItemsAreAccounted(t: Text, items: seq<Json>, depth: nat, nodes: nat, l: Limits)
    requires Admissible(Arr(items), depth, l)
    ensures var r := ParseItems(t, items, depth, nodes, l);
      r.Ok? ==>
        && Admissible(r.value, depth, l) && r.nodes <= l.maxNodes
        && r.nodes == nodes + Nodes(r.value) - Nodes(Arr(items))
    decreases |t|, 2
  {
    hide ParseValue, Admissible, SkipSpace;
    ParsedIsAccounted(t, depth + 1, nodes, l);
    var r := ParseValue(t, depth + 1, nodes, l);
    if r.Ok? {
      AppendAdmissible(items, r.value, depth, l);
      NodesOfItemsAppend(items, r.value);
      var u := SkipSpace(r.rest);
      if u != [] && u[0] == COMMA {
        ItemsAreAccounted(SkipSpace(u[1..]), items + [r.value], depth, r.nodes, l);
      }
    }
  }

  lemma InsertAdmissible(m: map<Text, Json>, key: Text, v: Json, depth: nat, l: Limits)
    requires Admissible(Obj(m), depth, l) && Admissible(v, depth + 1, l) && Scalar(key)
    ensures Admissible(Obj(m[key := v]), depth, l)
  {
    hide Canonical, Nodes;
  }

  lemma {:induction false} FieldsAreAccounted(t: Text, fields: map<Text, Json>, depth: nat, nodes: nat, l: Limits)
    requires Admissible(Obj(fields), depth, l)
    ensures var r := ParseFields(t, fields, depth, nodes, l);
      r.Ok? ==>
        && Admissible(r.value, depth, l) && r.nodes <= l.maxNodes
        && r.nodes == nodes + Nodes(r.value) - Nodes(Obj(fields))
    decreases |t|, 3
  {
    hide ParseField, Admissible, SkipSpace, Nodes;
    FieldIsAccounted(t, fields, depth, nodes, l);
    var r := ParseField(t, fields, depth, nodes, l);
    if r.Ok? {
      var (key, v) := r.value;
      InsertAdmissible(fields, key, v, depth, l);
      NodesInsert(fields, key, v);
      var w := SkipSpace(r.rest);
      if w != [] && w[0] == COMMA {
        FieldsAreAccounted(SkipSpace(w[1..]), fields[key := v], depth, r.nodes, l);
      }
    }
  }

  lemma {:induction false} FieldIsAccounted(t: Text, fields: map<Text, Json>, depth: nat, nodes: nat, l: Limits)
    ensures var r := ParseField(t, fields, depth, nodes, l);
      r.Ok? ==>
        && Admissible(r.value.1, depth + 1, l) && r.nodes <= l.maxNodes && r.nodes == nodes + Nodes(r.value.1)
    decreases |t|, 2
  {
    hide ParseValue, Admissible, SkipSpace, ParseString, Nodes;
    if t != [] && t[0] == QUOTE && ParseString(t[1..]).Some? {
      var u := SkipSpace(ParseString(t[1..]).value.1);
      if u != [] { ParsedIsAccounted(SkipSpace(u[1..]), depth + 1, nodes, l); }
    }
  }

  /** An accepted value respects both budgets, and is one that the writer can handle. */
  lemma DecodedIsAdmissible(text: Text, l: Limits)
    requires Decode(text, l).Success?
    ensures var v := Decode(text, l).value;
      Canon(v) && Encodable(v) && WithinDepth(v, l.maxDepth) && Nodes(v) <= l.maxNodes
  {
    ParsedIsAccounted(SkipSpace(text), 1, 0, l);
  }
}
