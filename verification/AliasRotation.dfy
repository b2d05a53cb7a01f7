/** Two-phase rotation of physical aliases, and what its rollback restores. */
module AliasRotation {

  type Bytes = seq<int>

  /** The object store: a flat directory of regular files. */
  type Files = map<string, Bytes>

  datatype Move = Move(objectId: string, oldAlias: string, newAlias: string)

  predicate SafeLocator(alias: string) {
    |alias| >= 8 && alias != "." && alias != ".." && '/' !in alias && '\\' !in alias
  }

  /** `os.replace` when it succeeds. */
  function Rename(files: Files, src: string, dst: string): Files
    requires src in files
  {
    (files - {src})[dst := files[src]]
  }

  // ----- Plans

  ghost predicate DistinctOld(moves: seq<Move>) {
    forall i, j :: 0 <= i < j < |moves| ==> moves[i].oldAlias != moves[j].oldAlias
  }

  ghost predicate DistinctNew(moves: seq<Move>) {
    forall i, j :: 0 <= i < j < |moves| ==> moves[i].newAlias != moves[j].newAlias
  }

  ghost predicate DistinctIds(moves: seq<Move>) {
    forall i, j :: 0 <= i < j < |moves| ==> moves[i].objectId != moves[j].objectId
  }

  function OldAliases(moves: seq<Move>): set<string> {
    set i | 0 <= i < |moves| :: moves[i].oldAlias
  }

  /** What `_preflight_moves` requires of a plan. */
  ghost predicate Preflight(files: Files, moves: seq<Move>) {
    && (forall i :: 0 <= i < |moves| ==> SafeLocator(moves[i].oldAlias) && SafeLocator(moves[i].newAlias))
    && DistinctOld(moves) && DistinctNew(moves)
    && (forall i :: 0 <= i < |moves| ==> moves[i].oldAlias in files)
    && (forall i :: 0 <= i < |moves| ==> moves[i].newAlias in OldAliases(moves) || moves[i].newAlias !in files)
  }

  /** Temporary names: one per move, none of them an alias of the plan (they carry a fresh random token). */
  ghost predicate FreshTemps(moves: seq<Move>, temps: seq<string>) {
    && |temps| == |moves|
    && (forall i, j :: 0 <= i < j < |temps| ==> temps[i] != temps[j])
    && (forall i, j :: 0 <= i < |temps| && 0 <= j < |moves| ==> temps[i] != moves[j].oldAlias && temps[i] != moves[j].newAlias)
  }

  // ----- Layouts: where the objects of the plan are

  /** The files that the plan does not touch. */
  function Base(files: Files, moves: seq<Move>): Files {
    files - OldAliases(moves)
  }

  ghost predicate Placed(files: Files, moves: seq<Move>, at: seq<string>) {
    && |at| == |moves|
    && (forall i, j :: 0 <= i < j < |at| ==> at[i] != at[j])
    && (forall i :: 0 <= i < |at| ==> at[i] !in Base(files, moves))
  }

  /** `store` holds object `i` of the plan at `at[i]`, all other files as they were, and nothing else. */
  ghost predicate Layout(files: Files, moves: seq<Move>, at: seq<string>, store: Files)
    requires Preflight(files, moves)
  {
    && Placed(files, moves, at)
    && (forall name :: name in store <==> name in Base(files, moves) || name in at)
    && (forall name :: name in Base(files, moves) ==> store[name] == files[name])
    && (forall i :: 0 <= i < |at| ==> at[i] in store && store[at[i]] == files[moves[i].oldAlias])
  }

  /** A layout determines the store. */
  lemma LayoutUnique(files: Files, moves: seq<Move>, at: seq<string>, s: Files, t: Files)
    requires Preflight(files, moves) && Layout(files, moves, at, s) && Layout(files, moves, at, t)
    ensures s == t
  {
    forall name | name in s ensures name in t && s[name] == t[name] {
      if name !in Base(files, moves) { var i :| 0 <= i < |at| && at[i] == name; }
    }
    assert forall name :: name in t ==> name in s;
  }

  /** Renaming one object to a free name moves it in the layout and changes nothing else. */
  lemma Relocate(files: Files, moves: seq<Move>, at: seq<string>, store: Files, i: nat, name: string)
    requires Preflight(files, moves) && Layout(files, moves, at, store) && i < |at|
    requires name !in Base(files, moves) && forall j :: 0 <= j < |at| && j != i ==> at[j] != name
    ensures at[i] in store && Layout(files, moves, at[i := name], Rename(store, at[i], name))
  {
    hide Preflight, Base, Rename, OldAliases;
    RelocateIn(Base(files, moves), at, store, i, name);
  }

  lemma RelocateIn(base: Files, at: seq<string>, store: Files, i: nat, name: string)
    requires i < |at| && forall j, k :: 0 <= j < k < |at| ==> at[j] != at[k]
    requires forall j :: 0 <= j < |at| ==> at[j] !in base && at[j] in store
    requires forall n :: n in store <==> n in base || n in at
    requires name !in base && forall j :: 0 <= j < |at| && j != i ==> at[j] != name
    ensures var next := Rename(store, at[i], name);
      && (forall n :: n in next <==> n in base || n in at[i := name])
      && (forall n :: n in base ==> next[n] == store[n])
      && (forall j :: 0 <= j < |at| ==> at[i := name][j] in next && next[at[i := name][j]] == store[at[j]])
  {
    Retarget(at, i, name);
    forall j | 0 <= j < |at| && j != i ensures at[j] != at[i] { }
  }

  lemma Retarget(at: seq<string>, i: nat, name: string)
    requires i < |at| && forall j, k :: 0 <= j < k < |at| ==> at[j] != at[k]
    ensures forall k :: k in at[i := name] <==> k == name || (k in at && k != at[i])
  {
    var at' := at[i := name];
    forall k ensures k in at' <==> k == name || (k in at && k != at[i]) {
      assert at'[i] == name;
      if k in at && k != at[i] { var j :| 0 <= j < |at| && at[j] == k; assert at'[j] == k; }
      if k in at' && k != name { var j :| 0 <= j < |at'| && at'[j] == k; assert at[j] == k; }
    }
  }

  function Olds(moves: seq<Move>): (r: seq<string>)
    ensures |r| == |moves|
    ensures forall i :: 0 <= i < |moves| ==> r[i] == moves[i].oldAlias
  {
    seq(|moves|, i requires 0 <= i < |moves| => moves[i].oldAlias)
  }

  function News(moves: seq<Move>): (r: seq<string>)
    ensures |r| == |moves|
    ensures forall i :: 0 <= i < |moves| ==> r[i] == moves[i].newAlias
  {
    seq(|moves|, i requires 0 <= i < |moves| => moves[i].newAlias)
  }

  lemma OldAliasesAreOlds(moves: seq<Move>)
    ensures forall name :: name in OldAliases(moves) <==> name in Olds(moves)
  {
    forall name ensures name in OldAliases(moves) <==> name in Olds(moves) {
      if name in Olds(moves) { var i :| 0 <= i < |moves| && Olds(moves)[i] == name; }
      if name in OldAliases(moves) { var i :| 0 <= i < |moves| && moves[i].oldAlias == name; assert Olds(moves)[i] == name; }
    }
  }

  /** Before anything is renamed, every object is at its old alias. */
  lemma StartIsLayout(files: Files, moves: seq<Move>)
    requires Preflight(files, moves)
    ensures Layout(files, moves, Olds(moves), files)
  {
    OldAliasesAreOlds(moves);
    assert forall i :: 0 <= i < |moves| ==> Olds(moves)[i] in Olds(moves);
  }

  lemma AliasesAreFree(files: Files, moves: seq<Move>, i: nat)
    requires Preflight(files, moves) && i < |moves|
    ensures moves[i].newAlias !in Base(files, moves) && moves[i].oldAlias !in Base(files, moves)
  {
    assert moves[i].oldAlias in OldAliases(moves);
  }

  /** A successful rotation: each object's bytes under its new alias, every other file untouched. */
  ghost predicate Rotated(files: Files, moves: seq<Move>, store: Files)
    requires Preflight(files, moves)
  {
    Layout(files, moves, News(moves), store)
  }

  function Reverse(moves: seq<Move>): (r: seq<Move>)
    ensures |r| == |moves|
    ensures forall i :: 0 <= i < |moves| ==> r[i] == Move(moves[i].objectId, moves[i].newAlias, moves[i].oldAlias)
  {
    seq(|moves|, i requires 0 <= i < |moves| => Move(moves[i].objectId, moves[i].newAlias, moves[i].oldAlias))
  }

  lemma ReverseSwaps(moves: seq<Move>)
    ensures Olds(Reverse(moves)) == News(moves) && News(Reverse(moves)) == Olds(moves)
  {
  }

  lemma ReversePreflight(files: Files, moves: seq<Move>, store: Files)
    requires Preflight(files, moves) && Rotated(files, moves, store)
    ensures Preflight(store, Reverse(moves)) && Base(store, Reverse(moves)) == Base(files, moves)
  {
    var back := Reverse(moves);
    ReverseDistinct(moves);
    ReverseBase(files, moves, store);
    hide OldAliases, Base, DistinctOld, DistinctNew, SafeLocator;
    OldAliasesAreOlds(back);
    ReverseSwaps(moves);
    forall i | 0 <= i < |back|
      ensures back[i].oldAlias in store && (back[i].newAlias in OldAliases(back) || back[i].newAlias !in store)
    {
      assert News(moves)[i] in store;
      AliasesAreFree(files, moves, i);
    }
  }

  lemma ReverseDistinct(moves: seq<Move>)
    requires DistinctOld(moves) && DistinctNew(moves)
    ensures DistinctOld(Reverse(moves)) && DistinctNew(Reverse(moves))
  {
  }

  lemma ReverseBase(files: Files, moves: seq<Move>, store: Files)
    requires Preflight(files, moves) && Rotated(files, moves, store)
    ensures Base(store, Reverse(moves)) == Base(files, moves)
  {
    hide Preflight, OldAliases;
    OldAliasesAreOlds(Reverse(moves));
    ReverseSwaps(moves);
    forall name | name in Base(files, moves) ensures name !in News(moves) {
      assert forall i :: 0 <= i < |moves| ==> News(moves)[i] !in Base(files, moves);
    }
  }

  /** The reversed plan passes preflight on the rotated store, and rotating by it restores the original store;
      swaps and longer cycles included. */
  lemma ReverseRestores(files: Files, moves: seq<Move>, store: Files, back: Files)
    requires Preflight(files, moves) && Rotated(files, moves, store)
    ensures Preflight(store, Reverse(moves))
    ensures Rotated(store, Reverse(moves), back) <==> back == files
  {
    ReversePreflight(files, moves, store);
    ReverseSwaps(moves);
    StartIsLayout(files, moves);
    var reversed := Reverse(moves);
    assert forall i :: 0 <= i < |moves| ==> store[reversed[i].oldAlias] == files[moves[i].oldAlias] by {
      forall i | 0 <= i < |moves| ensures store[reversed[i].oldAlias] == files[moves[i].oldAlias] {
        assert News(moves)[i] in store;
      }
    }
    assert Rotated(store, reversed, files);
    if Rotated(store, reversed, back) { LayoutUnique(store, reversed, News(reversed), back, files); }
  }

  // ----- Rollback

  /** Where rollback looks for object `i` when `staged` moves were staged and `finalised` of them finalised. */
  function CurrentName(moves: seq<Move>, temps: seq<string>, staged: nat, finalised: nat, i: nat): string
    requires i < |moves| == |temps|
  {
    if i < finalised then moves[i].newAlias else if i < staged then temps[i] else moves[i].oldAlias
  }

  /** The rollback loop over the moves below `m`, last one first, when no rename fails.  A move that was not
      staged is skipped, and so is one whose file is gone. */
  function RollBack(store: Files, moves: seq<Move>, temps: seq<string>, staged: nat, finalised: nat, m: nat): Files
    requires m <= |moves| == |temps|
    decreases m
  {
    if m == 0 then store
    else
      var i := m - 1;
      var current := CurrentName(moves, temps, staged, finalised, i);
      var next := if i < staged && current in store then Rename(store, current, moves[i].oldAlias) else store;
      RollBack(next, moves, temps, staged, finalised, i)
  }

  function Locations(moves: seq<Move>, temps: seq<string>, staged: nat, finalised: nat, m: nat): (at: seq<string>)
    requires |moves| == |temps|
    ensures |at| == |moves|
    ensures forall i :: 0 <= i < |at| ==>
      at[i] == if i < m then CurrentName(moves, temps, staged, finalised, i) else moves[i].oldAlias
  {
    seq(|moves|, i requires 0 <= i < |moves| =>
      if i < m then CurrentName(moves, temps, staged, finalised, i) else moves[i].oldAlias)
  }

  /** No finalised move took an alias that a later move still has to get back. */
  ghost predicate NoForwardOverlap(moves: seq<Move>, finalised: nat) {
    forall i, j :: 0 <= i < finalised && i < j < |moves| ==> moves[i].newAlias != moves[j].oldAlias
  }

  lemma {:induction false} RollBackRestores(files: Files, moves: seq<Move>, temps: seq<string>, staged: nat, finalised: nat, m: nat, store: Files)
    requires |temps| == |moves|
    requires Preflight(files, moves) && FreshTemps(moves, temps) && finalised <= staged <= |moves| && m <= |moves|
    requires NoForwardOverlap(moves, finalised)
    requires Layout(files, moves, Locations(moves, temps, staged, finalised, m), store)
    ensures RollBack(store, moves, temps, staged, finalised, m) == files
    decreases m
  {
    hide Layout, Preflight, Base, NoForwardOverlap, FreshTemps, Rename;
    var at := Locations(moves, temps, staged, finalised, m);
    if m == 0 {
      assert at == Olds(moves);
      StartIsLayout(files, moves);
      LayoutUnique(files, moves, at, store, files);
    } else {
      var i := m - 1;
      HomeIsFree(files, moves, temps, staged, finalised, i);
      var next := Locations(moves, temps, staged, finalised, i);
      assert next == at[i := moves[i].oldAlias];
      if i < staged {
        Relocate(files, moves, at, store, i, moves[i].oldAlias);
        RollBackRestores(files, moves, temps, staged, finalised, i, Rename(store, at[i], moves[i].oldAlias));
      } else {
        assert next == at;
        RollBackRestores(files, moves, temps, staged, finalised, i, store);
      }
    }
  }

  /** When rollback comes to move `i`, nothing else is at its old alias. */
  lemma HomeIsFree(files: Files, moves: seq<Move>, temps: seq<string>, staged: nat, finalised: nat, i: nat)
    requires Preflight(files, moves) && FreshTemps(moves, temps) && i < |moves| && NoForwardOverlap(moves, finalised)
    ensures moves[i].oldAlias !in Base(files, moves)
    ensures var at := Locations(moves, temps, staged, finalised, i + 1);
      forall j :: 0 <= j < |at| && j != i ==> at[j] != moves[i].oldAlias
  {
    AliasesAreFree(files, moves, i);
  }

  lemma {:induction false} NeverWrittenAgain(store: Files, moves: seq<Move>, temps: seq<string>, staged: nat, finalised: nat, m: nat, name: string)
    requires m <= |moves| == |temps| && name !in store && forall i :: 0 <= i < m ==> moves[i].oldAlias != name
    ensures name !in RollBack(store, moves, temps, staged, finalised, m)
    decreases m
  {
    if m > 0 {
      var i := m - 1;
      var current := CurrentName(moves, temps, staged, finalised, i);
      var next := if i < staged && current in store then Rename(store, current, moves[i].oldAlias) else store;
      NeverWrittenAgain(next, moves, temps, staged, finalised, i, name);
    }
  }

  /** If finalised move `i` took the old alias of a later move, that alias is missing after rollback. */
  lemma {:induction false} OverlapLosesAlias(store: Files, moves: seq<Move>, temps: seq<string>, staged: nat, finalised: nat, m: nat, i: nat, j: nat)
    requires |temps| == |moves| && finalised <= staged <= |moves| && DistinctOld(moves)
    requires i < finalised && i < j < |moves| && moves[i].newAlias == moves[j].oldAlias && i < m <= |moves|
    ensures moves[j].oldAlias !in RollBack(store, moves, temps, staged, finalised, m)
    decreases m
  {
    var k := m - 1;
    var current := CurrentName(moves, temps, staged, finalised, k);
    var next := if k < staged && current in store then Rename(store, current, moves[k].oldAlias) else store;
    if k == i {
      assert moves[i].oldAlias != moves[j].oldAlias;
      NeverWrittenAgain(next, moves, temps, staged, finalised, i, moves[j].oldAlias);
    } else {
      OverlapLosesAlias(next, moves, temps, staged, finalised, k, i, j);
    }
  }

  /** Rollback is exact: after all moves were staged and `finalised` of them finalised, a rollback whose renames all
      succeed restores the store if and only if no finalised move took the old alias of a later move. */
  lemma RollbackExactly(files: Files, moves: seq<Move>, temps: seq<string>, finalised: nat, store: Files)
    requires Preflight(files, moves) && FreshTemps(moves, temps) && finalised <= |moves|
    requires Layout(files, moves, Locations(moves, temps, |moves|, finalised, |moves|), store)
    ensures RollBack(store, moves, temps, |moves|, finalised, |moves|) == files <==> NoForwardOverlap(moves, finalised)
  {
    if NoForwardOverlap(moves, finalised) {
      RollBackRestores(files, moves, temps, |moves|, finalised, |moves|, store);
    } else {
      var i, j :| 0 <= i < finalised && i < j < |moves| && moves[i].newAlias == moves[j].oldAlias;
      OverlapLosesAlias(store, moves, temps, |moves|, finalised, |moves|, i, j);
    }
  }

  /** A failure while staging is always undone. */
  lemma StagingRollbackRestores(files: Files, moves: seq<Move>, temps: seq<string>, staged: nat, store: Files)
    requires Preflight(files, moves) && FreshTemps(moves, temps) && staged <= |moves|
    requires Layout(files, moves, Locations(moves, temps, staged, 0, |moves|), store)
    ensures RollBack(store, moves, temps, staged, 0, |moves|) == files
  {
    RollBackRestores(files, moves, temps, staged, 0, |moves|, store);
  }

  /** Exchanging the aliases of two objects. */
  function Swap(a: string, b: string): seq<Move> {
    [Move("a", a, b), Move("b", b, a)]
  }

  lemma SwapPreflight(a: string, b: string, files: Files)
    requires SafeLocator(a) && SafeLocator(b) && a != b && a in files && b in files
    ensures Preflight(files, Swap(a, b)) && Base(files, Swap(a, b)) == files - {a, b}
  {
    var moves := Swap(a, b);
    assert moves[0].oldAlias == a && moves[1].oldAlias == b;
    assert OldAliases(moves) == {a, b};
  }

  /** The promise of a rollback for every plan is false: a swap that fails after its first object reached its new
      alias loses the other alias, whatever the two aliases and the store. */
  lemma SwapRollbackLosesAnAlias(a: string, b: string, t: string, u: string, files: Files, store: Files)
    requires SafeLocator(a) && SafeLocator(b) && a != b && a in files && b in files
    requires t !in {a, b} && u !in {a, b} && t != u
    ensures Preflight(files, Swap(a, b)) && FreshTemps(Swap(a, b), [t, u])
    ensures Layout(files, Swap(a, b), Locations(Swap(a, b), [t, u], 2, 1, 2), store) ==>
      b !in RollBack(store, Swap(a, b), [t, u], 2, 1, 2) && RollBack(store, Swap(a, b), [t, u], 2, 1, 2) != files
  {
    hide Preflight, Layout, RollBack;
    SwapPreflight(a, b, files);
    OverlapLosesAlias(store, Swap(a, b), [t, u], 2, 1, 2, 0, 1);
  }

  /** One such store. */
  lemma SwapStore(store: Files)
    requires store == map["ALIASBBB" := [1], "KROTATE1" := [2]]
    ensures var files: Files := map["ALIASAAA" := [1], "ALIASBBB" := [2]];
      var moves := Swap("ALIASAAA", "ALIASBBB");
      && Preflight(files, moves)
      && Layout(files, moves, Locations(moves, ["KROTATE0", "KROTATE1"], 2, 1, 2), store)
      && "ALIASBBB" !in RollBack(store, moves, ["KROTATE0", "KROTATE1"], 2, 1, 2)
  {
    hide *;
    var a, b, t, u := "ALIASAAA", "ALIASBBB", "KROTATE0", "KROTATE1";
    assert a[5] != b[5] && t[0] != a[0] && t[0] != b[0] && u[0] != a[0] && u[0] != b[0] && t[7] != u[7];
    var files: Files := map[a := [1], b := [2]];
    SafeNames();
    SwapPreflight(a, b, files);
    SwapHalfDone(a, b, t, u, [1], [2]);
    SwapRollbackLosesAnAlias(a, b, t, u, files, store);
  }

  lemma SafeNames()
    ensures SafeLocator("ALIASAAA") && SafeLocator("ALIASBBB")
  {
  }

  lemma SwapHalfDone(a: string, b: string, t: string, u: string, x: Bytes, y: Bytes)
    requires SafeLocator(a) && SafeLocator(b) && a != b && u !in {a, b}
    ensures var files: Files := map[a := x, b := y];
      && Preflight(files, Swap(a, b))
      && Layout(files, Swap(a, b), Locations(Swap(a, b), [t, u], 2, 1, 2), map[b := x, u := y])
  {
    hide Preflight;
    var files: Files := map[a := x, b := y];
    SwapPreflight(a, b, files);
    assert Base(files, Swap(a, b)) == map[];
    var at := Locations(Swap(a, b), [t, u], 2, 1, 2);
    assert at == [b, u];
  }
}
