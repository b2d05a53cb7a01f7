/** `apply_alias_moves_atomically` and `rotate_object_store_atomically` over a store whose renames may fail. */
module AliasRotationStore {
  import opened AliasRotation

  datatype Outcome =
    | Moved
    | Rejected
    | RolledBack(staged: nat, finalised: nat)
    | Incomplete

  /** The bookkeeping of the loops: the first `s` moves are staged, the first `k` finalised. */
  ghost predicate Tracks(moves: seq<Move>, temps: seq<string>, staged: map<string, string>, finalised: set<string>, s: nat, k: nat)
    requires |temps| == |moves|
  {
    forall i :: 0 <= i < |moves| ==>
      && (moves[i].objectId in finalised <==> i < k)
      && (moves[i].objectId in staged <==> i < s)
      && (i < s ==> staged[moves[i].objectId] == temps[i])
  }

  class ObjectStore {
    var files: Files
    var published: seq<string>   // the aliases in the published graph, object by object
    ghost var failures: nat      // how many renames have failed by themselves
    ghost var unpublished: bool  // writing or replacing the graph file has failed

    constructor (files: Files, published: seq<string>)
      ensures this.files == files && this.published == published && failures == 0 && !unpublished
    {
      this.files, this.published, failures, unpublished := files, published, 0, false;
    }

    /** `os.replace`: renames, or fails and changes nothing. */
    method Replace(src: string, dst: string) returns (ok: bool)
      modifies this`files, this`failures
      ensures ok ==> src in old(files) && files == Rename(old(files), src, dst)
      ensures !ok ==> files == old(files)
      ensures failures == old(failures) + if !ok && src in files then 1 else 0
    {
      var fails: bool := *;
      if src !in files { return false; }
      if fails {
        failures := failures + 1;
        return false;
      }
      files := Rename(files, src, dst);
      return true;
    }

    method CheckPlan(moves: seq<Move>) returns (ok: bool, hashes: map<string, Bytes>)
      ensures ok <==> Preflight(files, moves)
      ensures ok ==> forall i :: 0 <= i < |moves| ==> moves[i].objectId in hashes
      ensures ok && DistinctIds(moves) ==>
        forall i :: 0 <= i < |moves| ==> moves[i].objectId in hashes && hashes[moves[i].objectId] == files[moves[i].oldAlias]
    {
      hide OldAliases, DistinctOld, DistinctNew, SafeLocator;
      EmptyPlan(moves);
      var oldAliases: set<string>, newAliases: set<string> := {}, {};
      hashes := map[];
      for i := 0 to |moves|
        invariant oldAliases == OldAliases(moves[..i])
        invariant forall a :: a in newAliases <==> a in News(moves[..i])
        invariant DistinctOld(moves[..i]) && DistinctNew(moves[..i])
        invariant forall j :: 0 <= j < i ==> SafeLocator(moves[j].oldAlias) && SafeLocator(moves[j].newAlias) && moves[j].oldAlias in files
        invariant forall j :: 0 <= j < i ==> moves[j].objectId in hashes
        invariant DistinctIds(moves) ==>
          forall j :: 0 <= j < i ==> moves[j].objectId in hashes && hashes[moves[j].objectId] == files[moves[j].oldAlias]
      {
        var move := moves[i];
        assert moves[..i + 1] == moves[..i] + [move];
        if !SafeLocator(move.oldAlias) || !SafeLocator(move.newAlias) { return false, hashes; }
        if move.oldAlias in oldAliases { RepeatsOld(moves, i); return false, hashes; }
        if move.newAlias in newAliases { RepeatsNew(moves, i); return false, hashes; }
        ExtendPlan(moves, i);
        oldAliases := oldAliases + {move.oldAlias};
        newAliases := newAliases + {move.newAlias};
        if move.oldAlias !in files { return false, hashes; }
        hashes := hashes[move.objectId := files[move.oldAlias]];
      }
      assert moves[..|moves|] == moves;
      for i := 0 to |moves|
        invariant forall j :: 0 <= j < i ==> moves[j].newAlias in OldAliases(moves) || moves[j].newAlias !in files
      {
        if moves[i].newAlias !in oldAliases && moves[i].newAlias in files { return false, hashes; }
      }
      ok := true;
    }

    /** Phase one: every current alias to its temporary name; stops at the first failure. */
    method Stage(moves: seq<Move>, temps: seq<string>) returns (staged: map<string, string>, s: nat)
      requires |temps| == |moves|
      modifies this`files, this`failures
      ensures s <= |moves| && forall i :: 0 <= i < s ==> moves[i].objectId in staged
      ensures old(failures) <= failures <= old(failures) + 1 && (s == |moves| ==> failures == old(failures))
      ensures Good(old(files), moves, temps) && failures == old(failures) && Unused(old(files), temps) ==> s == |moves|
      ensures Good(old(files), moves, temps) ==>
        && Tracks(moves, temps, staged, {}, s, 0)
        && Layout(old(files), moves, Locations(moves, temps, s, 0, |moves|), files)
    {
      hide Layout, Tracks, Preflight, Rename;
      staged := map[];
      s := 0;
      if Good(files, moves, temps) { NothingStaged(files, moves, temps); }
      while s < |moves|
        invariant failures == old(failures) && s <= |moves| && forall i :: 0 <= i < s ==> moves[i].objectId in staged
        invariant Good(old(files), moves, temps) ==>
          && Tracks(moves, temps, staged, {}, s, 0)
          && Layout(old(files), moves, Locations(moves, temps, s, 0, |moves|), files)
      {
        if Good(old(files), moves, temps) { NextToStage(old(files), moves, temps, s, files); }
        if temps[s] in files { return; }
        ghost var before := files;
        var ok := Replace(moves[s].oldAlias, temps[s]);
        if !ok { return; }
        if Good(old(files), moves, temps) { StageStep(old(files), moves, temps, staged, s, before); }
        staged := staged[moves[s].objectId := temps[s]];
        s := s + 1;
      }
    }

    /** Phase two: every temporary name to its new alias; stops at the first failure. */
    method Finalise(moves: seq<Move>, temps: seq<string>, staged: map<string, string>, ghost origin: Files)
      returns (finalised: set<string>, k: nat)
      requires |temps| == |moves| && forall i :: 0 <= i < |moves| ==> moves[i].objectId in staged
      requires Good(origin, moves, temps) ==>
        && Tracks(moves, temps, staged, {}, |moves|, 0)
        && Layout(origin, moves, Locations(moves, temps, |moves|, 0, |moves|), files)
      modifies this`files, this`failures
      ensures old(failures) <= failures <= old(failures) + 1 && k <= |moves| && (k == |moves| ==> failures == old(failures))
      ensures Good(origin, moves, temps) && failures == old(failures) ==> k == |moves|
      ensures Good(origin, moves, temps) ==>
        && Tracks(moves, temps, staged, finalised, |moves|, k)
        && Layout(origin, moves, Locations(moves, temps, |moves|, k, |moves|), files)
    {
      hide Layout, Tracks, Preflight, Rename;
      finalised := {};
      k := 0;
      while k < |moves|
        invariant failures == old(failures) && k <= |moves|
        invariant Good(origin, moves, temps) ==>
          && Tracks(moves, temps, staged, finalised, |moves|, k)
          && Layout(origin, moves, Locations(moves, temps, |moves|, k, |moves|), files)
      {
        if Good(origin, moves, temps) { FinaliseStep(origin, moves, temps, staged, finalised, k, files); }
        var ok := Replace(staged[moves[k].objectId], moves[k].newAlias);
        if !ok { return; }
        finalised := finalised + {moves[k].objectId};
        k := k + 1;
      }
    }

    /** The final comparison of every destination with the bytes seen at preflight. */
    method Verify(moves: seq<Move>, hashes: map<string, Bytes>) returns (ok: bool)
      requires forall i :: 0 <= i < |moves| ==> moves[i].objectId in hashes
      ensures ok <==> forall i :: 0 <= i < |moves| ==>
        moves[i].newAlias in files && files[moves[i].newAlias] == hashes[moves[i].objectId]
    {
      for i := 0 to |moves|
        invariant forall j :: 0 <= j < i ==> moves[j].newAlias in files && files[moves[j].newAlias] == hashes[moves[j].objectId]
      {
        if moves[i].newAlias !in files || files[moves[i].newAlias] != hashes[moves[i].objectId] { return false; }
      }
      ok := true;
    }

    /** The rollback loop; `complete` means that no rename failed. */
    method Undo(moves: seq<Move>, ghost temps: seq<string>, staged: map<string, string>, finalised: set<string>, ghost s: nat, ghost k: nat)
      returns (complete: bool)
      requires |temps| == |moves| && k <= s
      modifies this`files, this`failures
      ensures old(failures) <= failures && (complete <==> failures == old(failures))
      ensures complete && Tracks(moves, temps, staged, finalised, s, k) ==>
        files == RollBack(old(files), moves, temps, s, k, |moves|)
    {
      complete := true;
      var m := |moves|;
      while m > 0
        invariant 0 <= m <= |moves| && old(failures) <= failures && (complete <==> failures == old(failures))
        invariant complete && Tracks(moves, temps, staged, finalised, s, k) ==>
          RollBack(files, moves, temps, s, k, m) == RollBack(old(files), moves, temps, s, k, |moves|)
      {
        m := m - 1;
        var id := moves[m].objectId;
        if id in finalised || id in staged {
          var current := if id in finalised then moves[m].newAlias else staged[id];
          if current in files {
            var ok := Replace(current, moves[m].oldAlias);
            if !ok { complete := false; }
          }
        }
      }
    }

    method ApplyMoves(moves: seq<Move>, temps: seq<string>) returns (r: Outcome)
      requires |temps| == |moves|
      modifies this`files, this`failures
      ensures old(failures) <= failures && (r.Incomplete? ==> failures > old(failures))
      ensures Good(old(files), moves, temps) && Unused(old(files), temps) ==>
        if failures == old(failures) then r.Moved? else if failures == old(failures) + 1 then r.RolledBack? else r.Incomplete?
      ensures r.Rejected? <==> !Preflight(old(files), moves)
      ensures r.Rejected? ==> files == old(files)
      ensures Good(old(files), moves, temps) && r.Moved? ==> Rotated(old(files), moves, files)
      ensures Good(old(files), moves, temps) && r.RolledBack? ==>
        && r.finalised <= r.staged <= |moves| && (r.staged < |moves| ==> r.finalised == 0)
        && (files == old(files) <==> NoForwardOverlap(moves, r.finalised))
    {
      hide Layout, Tracks, Preflight, NoForwardOverlap;
      var ok, hashes := CheckPlan(moves);
      if !ok { return Rejected; }
      ghost var good := Good(files, moves, temps);
      var staged, s := Stage(moves, temps);
      var finalised, k := {}, 0;
      if s == |moves| {
        finalised, k := Finalise(moves, temps, staged, old(files));
        if k == |moves| {
          if good { AllFinalised(moves, temps); RotatedVerifies(old(files), moves, hashes, files); }
          ok := Verify(moves, hashes);
          if ok { return Moved; }
        }
      }
      ghost var before := files;
      var complete := Undo(moves, temps, staged, finalised, s, k);
      if !complete { return Incomplete; }
      if good {
        if s < |moves| {
          StagingRollbackRestores(old(files), moves, temps, s, before);
          NoneFinalised(moves);
        } else {
          RollbackExactly(old(files), moves, temps, k, before);
        }
      }
      return RolledBack(s, k);
    }

    /** `rotate_object_store_atomically`: rotate the store, then publish the graph with the new aliases; if that
        fails, rotate back.  Writing and replacing the graph file is one step that may fail. */
    method RotateStore(moves: seq<Move>, temps: seq<string>, temps': seq<string>) returns (r: Rotation)
      requires |temps| == |temps'| == |moves| && published == Olds(moves)
      modifies this
      ensures r.Published? ==> published == News(moves)
      ensures !r.Published? ==> published == old(published)
      ensures !Preflight(old(files), moves) ==> r.Failed? && files == old(files)
      ensures Good(old(files), moves, temps) && r.Published? ==> Rotated(old(files), moves, files)
      ensures Good(old(files), moves, temps) && FreshTemps(moves, temps') && NoOverlap(moves) && r.Failed? ==> files == old(files)
      ensures CanReturn(old(files), moves, temps, temps') && failures == old(failures) ==>
        if unpublished then r.Failed? && files == old(files) else r.Published?
      ensures CanReturn(old(files), moves, temps, temps') && r.Broken? ==> failures > old(failures)
    {
      hide Layout, Preflight, FreshTemps, NoForwardOverlap;
      unpublished := false;
      var first := ApplyMoves(moves, temps);
      if !first.Moved? {
        if first.RolledBack? { NoOverlapBothWays(moves, first.finalised); }
        return if first.Incomplete? then Broken else Failed;
      }
      var fails: bool := *;
      if !fails {
        published := News(moves);
        return Published;
      }
      unpublished := true;
      if Good(old(files), moves, temps) && FreshTemps(moves, temps') {
        ReverseIsGood(old(files), moves, temps', files);
        StillUnused(old(files), moves, temps', files);
        ReverseRestores(old(files), moves, files, old(files));
      }
      ghost var rotated := files;
      var second := ApplyMoves(Reverse(moves), temps');
      if second.Moved? {
        if Good(old(files), moves, temps) && FreshTemps(moves, temps') { ReverseRestores(old(files), moves, rotated, files); }
        return Failed;
      }
      return Broken;
    }
  }

  /** The plan is good and neither set of temporary names collides with anything: then only a failing rename can
      keep the objects from going all the way, or all the way and back. */
  ghost predicate CanReturn(files: Files, moves: seq<Move>, temps: seq<string>, temps': seq<string>) {
    Good(files, moves, temps) && Unused(files, temps) && FreshTemps(moves, temps') && Unused(files, temps')
  }

  lemma StillUnused(files: Files, moves: seq<Move>, temps: seq<string>, store: Files)
    requires Preflight(files, moves) && FreshTemps(moves, temps) && Rotated(files, moves, store)
    ensures Unused(files, temps) ==> Unused(store, temps)
  {
    hide Preflight, OldAliases;
    forall i | Unused(files, temps) && 0 <= i < |temps| ensures temps[i] !in store {
      assert forall j :: 0 <= j < |moves| ==> News(moves)[j] != temps[i];
    }
  }

  /** `Failed`: an error was raised and every rollback step succeeded; `Broken`: a rollback was incomplete. */
  datatype Rotation = Published | Failed | Broken

  /** No new alias is another object's old alias. */
  ghost predicate NoOverlap(moves: seq<Move>) {
    forall i, j :: 0 <= i < |moves| && 0 <= j < |moves| && i != j ==> moves[i].newAlias != moves[j].oldAlias
  }

  lemma NoOverlapBothWays(moves: seq<Move>, k: nat)
    ensures NoOverlap(moves) && k <= |moves| ==> NoForwardOverlap(moves, k)
  {
  }

  ghost predicate Unused(files: Files, temps: seq<string>) {
    forall i :: 0 <= i < |temps| ==> temps[i] !in files
  }

  lemma ReverseIsGood(files: Files, moves: seq<Move>, temps: seq<string>, store: Files)
    requires Preflight(files, moves) && DistinctIds(moves) && FreshTemps(moves, temps) && Rotated(files, moves, store)
    ensures Good(store, Reverse(moves), temps)
  {
    ReversePreflight(files, moves, store);
  }

  lemma NextToStage(files: Files, moves: seq<Move>, temps: seq<string>, s: nat, store: Files)
    requires Good(files, moves, temps) && s < |moves| && Layout(files, moves, Locations(moves, temps, s, 0, |moves|), store)
    ensures moves[s].oldAlias in store && (Unused(files, temps) ==> temps[s] !in store)
  {
    var at := Locations(moves, temps, s, 0, |moves|);
    assert at[s] in store;
    assert temps[s] !in at by {
      forall j | 0 <= j < |at| ensures at[j] != temps[s] { }
    }
  }

  lemma RotatedVerifies(files: Files, moves: seq<Move>, hashes: map<string, Bytes>, store: Files)
    requires Preflight(files, moves) && Rotated(files, moves, store)
    requires forall i :: 0 <= i < |moves| ==> moves[i].objectId in hashes && hashes[moves[i].objectId] == files[moves[i].oldAlias]
    ensures forall i :: 0 <= i < |moves| ==> moves[i].newAlias in store && store[moves[i].newAlias] == hashes[moves[i].objectId]
  {
    forall i | 0 <= i < |moves|
      ensures moves[i].newAlias in store && store[moves[i].newAlias] == hashes[moves[i].objectId]
    {
      assert News(moves)[i] in store;
    }
  }

  /** A plan that passes preflight, names each object once, and has fresh temporary names. */
  ghost predicate Good(files: Files, moves: seq<Move>, temps: seq<string>) {
    Preflight(files, moves) && DistinctIds(moves) && FreshTemps(moves, temps)
  }

  lemma NoneFinalised(moves: seq<Move>)
    ensures NoForwardOverlap(moves, 0)
  {
  }

  lemma NothingStaged(files: Files, moves: seq<Move>, temps: seq<string>)
    requires Good(files, moves, temps)
    ensures Tracks(moves, temps, map[], {}, 0, 0)
    ensures Layout(files, moves, Locations(moves, temps, 0, 0, |moves|), files)
  {
    StartIsLayout(files, moves);
    assert Locations(moves, temps, 0, 0, |moves|) == Olds(moves);
  }

  lemma StageStep(files: Files, moves: seq<Move>, temps: seq<string>, staged: map<string, string>, s: nat, store: Files)
    requires |temps| == |moves| && Good(files, moves, temps) && s < |moves| && temps[s] !in store
    requires Tracks(moves, temps, staged, {}, s, 0)
    requires Layout(files, moves, Locations(moves, temps, s, 0, |moves|), store)
    ensures Tracks(moves, temps, staged[moves[s].objectId := temps[s]], {}, s + 1, 0)
    ensures moves[s].oldAlias in store
    ensures Layout(files, moves, Locations(moves, temps, s + 1, 0, |moves|), Rename(store, moves[s].oldAlias, temps[s]))
  {
    hide Preflight, Layout, Base, Tracks, FreshTemps, DistinctIds, Locations, Rename;
    TrackStaged(moves, temps, staged, s);
    StagedNames(moves, temps, s);
    FreeInStore(files, moves, Locations(moves, temps, s, 0, |moves|), store, temps[s]);
    Relocate(files, moves, Locations(moves, temps, s, 0, |moves|), store, s, temps[s]);
  }

  lemma FreeInStore(files: Files, moves: seq<Move>, at: seq<string>, store: Files, name: string)
    requires Preflight(files, moves) && Layout(files, moves, at, store) && name !in store
    ensures name !in Base(files, moves)
  {
    hide Preflight, Base;
  }

  lemma TrackStaged(moves: seq<Move>, temps: seq<string>, staged: map<string, string>, s: nat)
    requires |temps| == |moves| && s < |moves| && DistinctIds(moves) && Tracks(moves, temps, staged, {}, s, 0)
    ensures Tracks(moves, temps, staged[moves[s].objectId := temps[s]], {}, s + 1, 0)
  {
  }

  lemma TrackFinalised(moves: seq<Move>, temps: seq<string>, staged: map<string, string>, finalised: set<string>, k: nat)
    requires |temps| == |moves| && k < |moves| && DistinctIds(moves) && Tracks(moves, temps, staged, finalised, |moves|, k)
    ensures Tracks(moves, temps, staged, finalised + {moves[k].objectId}, |moves|, k + 1)
    ensures moves[k].objectId in staged && staged[moves[k].objectId] == temps[k]
  {
  }

  lemma StagedNames(moves: seq<Move>, temps: seq<string>, s: nat)
    requires FreshTemps(moves, temps) && s < |moves|
    ensures var at := Locations(moves, temps, s, 0, |moves|);
      && (forall j :: 0 <= j < |at| && j != s ==> at[j] != temps[s])
      && Locations(moves, temps, s + 1, 0, |moves|) == at[s := temps[s]] && at[s] == moves[s].oldAlias
  {
  }

  lemma FinaliseStep(files: Files, moves: seq<Move>, temps: seq<string>, staged: map<string, string>, finalised: set<string>, k: nat, store: Files)
    requires |temps| == |moves| && Good(files, moves, temps) && k < |moves| && Tracks(moves, temps, staged, finalised, |moves|, k)
    requires Layout(files, moves, Locations(moves, temps, |moves|, k, |moves|), store)
    ensures Tracks(moves, temps, staged, finalised + {moves[k].objectId}, |moves|, k + 1)
    ensures moves[k].objectId in staged && staged[moves[k].objectId] == temps[k] && temps[k] in store
    ensures Layout(files, moves, Locations(moves, temps, |moves|, k + 1, |moves|), Rename(store, temps[k], moves[k].newAlias))
  {
    hide Layout, Base, Tracks, FreshTemps, DistinctIds, DistinctNew, DistinctOld, Locations, Rename, SafeLocator;
    AliasesAreFree(files, moves, k);
    TrackFinalised(moves, temps, staged, finalised, k);
    FinalisedNames(moves, temps, k);
    Relocate(files, moves, Locations(moves, temps, |moves|, k, |moves|), store, k, moves[k].newAlias);
  }

  lemma FinalisedNames(moves: seq<Move>, temps: seq<string>, k: nat)
    requires FreshTemps(moves, temps) && DistinctNew(moves) && k < |moves|
    ensures var at := Locations(moves, temps, |moves|, k, |moves|);
      && (forall j :: 0 <= j < |at| && j != k ==> at[j] != moves[k].newAlias)
      && Locations(moves, temps, |moves|, k + 1, |moves|) == at[k := moves[k].newAlias] && at[k] == temps[k]
  {
  }

  lemma AllFinalised(moves: seq<Move>, temps: seq<string>)
    requires |temps| == |moves|
    ensures Locations(moves, temps, |moves|, |moves|, |moves|) == News(moves)
  {
  }

  lemma EmptyPlan(moves: seq<Move>)
    ensures OldAliases(moves[..0]) == {} && DistinctOld(moves[..0]) && DistinctNew(moves[..0]) && News(moves[..0]) == []
    ensures moves[..|moves|] == moves
  {
  }

  lemma RepeatsOld(moves: seq<Move>, i: nat)
    requires i < |moves| && moves[i].oldAlias in OldAliases(moves[..i])
    ensures !DistinctOld(moves)
  {
    var j :| 0 <= j < i && moves[..i][j].oldAlias == moves[i].oldAlias;
    assert moves[j].oldAlias == moves[i].oldAlias;
  }

  lemma RepeatsNew(moves: seq<Move>, i: nat)
    requires i < |moves| && moves[i].newAlias in News(moves[..i])
    ensures !DistinctNew(moves)
  {
    var j :| 0 <= j < i && News(moves[..i])[j] == moves[i].newAlias;
    assert moves[j].newAlias == moves[i].newAlias;
  }

  lemma ExtendPlan(moves: seq<Move>, i: nat)
    requires i < |moves| && DistinctOld(moves[..i]) && DistinctNew(moves[..i])
    requires moves[i].oldAlias !in OldAliases(moves[..i]) && moves[i].newAlias !in News(moves[..i])
    ensures DistinctOld(moves[..i + 1]) && DistinctNew(moves[..i + 1])
    ensures OldAliases(moves[..i + 1]) == OldAliases(moves[..i]) + {moves[i].oldAlias}
    ensures forall a :: a in News(moves[..i + 1]) <==> a in News(moves[..i]) || a == moves[i].newAlias
  {
    var p, q := moves[..i], moves[..i + 1];
    assert News(q) == News(p) + [moves[i].newAlias];
    forall j | 0 <= j < i ensures p[j].oldAlias != moves[i].oldAlias && p[j].newAlias != moves[i].newAlias {
      assert p[j].oldAlias in OldAliases(p);
      assert News(p)[j] in News(p);
    }
    forall a | a in OldAliases(q) ensures a in OldAliases(p) || a == moves[i].oldAlias {
      var j :| 0 <= j < |q| && q[j].oldAlias == a;
      if j < i { assert p[j].oldAlias == a; }
    }
    forall a | a in OldAliases(p) ensures a in OldAliases(q) {
      var j :| 0 <= j < |p| && p[j].oldAlias == a;
      assert q[j].oldAlias == a;
    }
    assert q[i].oldAlias in OldAliases(q);
  }
}
