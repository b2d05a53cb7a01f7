/** The two effect fixpoints, the `pure fn` contract, and effect propagation over a module graph. */
module EffectInference {
  import opened Options
  import opened EffectGraphs

  // ----- One module

  ghost predicate Sound(g: Graph<string>, resolved: map<string, Effects>) {
    && resolved.Keys == g.calls.Keys
    && (forall n, e :: n in resolved && e in resolved[n] ==> Has(g, n, e))
    && (forall n :: n in g.base && n in resolved ==> g.base[n] <= resolved[n])
  }

  lemma StartIsSound(g: Graph<string>)
    requires WellFormed(g)
    ensures Sound(g, g.base)
  {
    forall n, e | n in g.base && e in g.base[n] ensures Has(g, n, e) { BaseHas(g, n, e); }
  }

  /** The effects that occur at all. */
  ghost function Universe(g: Graph<string>): Effects {
    set n, e | n in g.base && e in g.base[n] :: e
  }

  lemma HasInUniverse(g: Graph<string>, n: string, e: string)
    requires Has(g, n, e)
    ensures e in Universe(g)
  {
    var m :| Reaches(g, n, m) && m in g.base && e in g.base[m];
  }

  /** The pairs not found yet: what makes the loops end. */
  ghost function Missing(universe: Effects, resolved: map<string, Effects>): set<(string, string)> {
    set n, e | n in resolved && e in universe - resolved[n] :: (n, e)
  }

  /** Replacing the set of `n` by a larger one that is still sound. */
  lemma Expand(g: Graph<string>, resolved: map<string, Effects>, n: string, expanded: Effects)
    requires WellFormed(g) && Sound(g, resolved) && n in resolved && resolved[n] <= expanded
    requires forall e :: e in expanded ==> Has(g, n, e)
    ensures Sound(g, resolved[n := expanded])
    ensures expanded != resolved[n] ==> |Missing(Universe(g), resolved[n := expanded])| < |Missing(Universe(g), resolved)|
  {
    hide Missing, Universe, Has, WellFormed;
    forall e | e in expanded ensures e in Universe(g) { HasInUniverse(g, n, e); }
    if expanded != resolved[n] {
      var e :| e in expanded && e !in resolved[n];
      FoundOne(Universe(g), resolved, n, expanded, e);
    }
  }

  lemma FoundOne(universe: Effects, resolved: map<string, Effects>, n: string, expanded: Effects, e: string)
    requires n in resolved && resolved[n] <= expanded <= universe && e in expanded && e !in resolved[n]
    ensures |Missing(universe, resolved[n := expanded])| < |Missing(universe, resolved)|
  {
    var later := resolved[n := expanded];
    assert Missing(universe, later) <= Missing(universe, resolved);
    assert (n, e) in Missing(universe, resolved) && (n, e) !in Missing(universe, later);
    Shrinks(Missing(universe, later), Missing(universe, resolved), (n, e));
  }

  lemma Shrinks<T>(a: set<T>, b: set<T>, x: T)
    requires a <= b && x in b && x !in a
    ensures |a| < |b|
  {
    assert a <= b - {x};
    Larger(a, b - {x});
  }

  lemma {:induction false} Larger<T>(a: set<T>, b: set<T>)
    requires a <= b
    ensures |a| <= |b|
  {
    if a != {} {
      var x :| x in a;
      Larger(a - {x}, b - {x});
    }
  }

  /** Nothing changed in the sweep over `order[..k]`. */
  ghost predicate Settled(g: Graph<string>, resolved: map<string, Effects>, order: seq<string>, k: nat) {
    forall i, c :: 0 <= i < k <= |order| && order[i] in g.calls && c in g.calls[order[i]] && c in resolved && order[i] in resolved ==>
      resolved[c] <= resolved[order[i]]
  }

  lemma SettledIsClosed(g: Graph<string>, resolved: map<string, Effects>, order: seq<string>)
    requires WellFormed(g) && Sound(g, resolved) && Settled(g, resolved, order, |order|)
    requires forall n :: n in g.calls ==> n in order
    ensures Exact(g, resolved)
  {
    hide Has, Exact;
    ExactIffLeast(g, resolved);
    forall n, c | n in g.calls && c in g.calls[n] ensures resolved[c] <= resolved[n] {
      assert n in order;
      var i :| 0 <= i < |order| && order[i] == n;
    }
    assert Closed(g, resolved);
  }

  /** One function of a sweep of `effect_contracts_v1`: its callees are merged one at a time, in any order. */
  method MergeCallees(g: Graph<string>, resolved: map<string, Effects>, name: string) returns (expanded: Effects)
    requires WellFormed(g) && Sound(g, resolved) && name in g.calls
    ensures resolved[name] <= expanded && forall e :: e in expanded ==> Has(g, name, e)
    ensures forall c :: c in g.calls[name] ==> resolved[c] <= expanded
  {
    expanded := resolved[name];
    var todo := g.calls[name];
    while todo != {}
      invariant todo <= g.calls[name]
      invariant resolved[name] <= expanded && forall e :: e in expanded ==> Has(g, name, e)
      invariant forall c :: c in g.calls[name] - todo ==> resolved[c] <= expanded
    {
      var callee :| callee in todo;
      forall e | e in resolved[callee] ensures Has(g, name, e) { CallHas(g, name, callee, e); }
      expanded := expanded + resolved[callee];
      todo := todo - {callee};
    }
  }

  /** The fixpoint of `infer_effect_contracts`, sweeping the functions in any fixed order. */
  method InferContracts(g: Graph<string>, order: seq<string>) returns (resolved: map<string, Effects>)
    requires WellFormed(g) && forall n :: n in order <==> n in g.calls
    ensures Exact(g, resolved)
  {
    hide Has, Missing, Exact, Universe;
    resolved := g.base;
    StartIsSound(g);
    var changed := true;
    while changed
      invariant Sound(g, resolved)
      invariant !changed ==> Settled(g, resolved, order, |order|)
      decreases |Missing(Universe(g), resolved)|, changed
    {
      changed := false;
      ghost var before := resolved;
      for i := 0 to |order|
        invariant Sound(g, resolved)
        invariant changed ==> |Missing(Universe(g), resolved)| < |Missing(Universe(g), before)|
        invariant !changed ==> resolved == before && Settled(g, resolved, order, i)
      {
        var name := order[i];
        assert name in order;
        var expanded := MergeCallees(g, resolved, name);
        Expand(g, resolved, name, expanded);
        if expanded != resolved[name] {
          resolved := resolved[name := expanded];
          changed := true;
        }
      }
    }
    SettledIsClosed(g, resolved, order);
  }

  function Unite(g: Graph<string>, resolved: map<string, Effects>, name: string): Effects
    requires name in resolved && name in g.calls && forall c :: c in g.calls[name] ==> c in resolved
  {
    if g.calls[name] != {} then resolved[name] + (set c, e | c in g.calls[name] && e in resolved[c] :: e)
    else resolved[name]
  }

  lemma UniteIsSound(g: Graph<string>, resolved: map<string, Effects>, name: string)
    requires WellFormed(g) && Sound(g, resolved) && name in g.calls
    ensures var expanded := Unite(g, resolved, name);
      && resolved[name] <= expanded && (forall e :: e in expanded ==> Has(g, name, e))
      && (forall c :: c in g.calls[name] ==> resolved[c] <= expanded)
  {
    hide Has;
    var expanded := Unite(g, resolved, name);
    forall e | e in expanded ensures Has(g, name, e) {
      if e !in resolved[name] {
        var c :| c in g.calls[name] && e in resolved[c];
        CallHas(g, name, c, e);
      }
    }
  }

  /** The fixpoint of `effects.py`, which unites the sets of all callees at once. */
  method InferEffects(g: Graph<string>, order: seq<string>) returns (resolved: map<string, Effects>)
    requires WellFormed(g) && forall n :: n in order <==> n in g.calls
    ensures Exact(g, resolved)
  {
    hide Has, Missing, Exact, Universe, Unite;
    resolved := g.base;
    StartIsSound(g);
    var changed := true;
    while changed
      invariant Sound(g, resolved)
      invariant !changed ==> Settled(g, resolved, order, |order|)
      decreases |Missing(Universe(g), resolved)|, changed
    {
      changed := false;
      ghost var before := resolved;
      for i := 0 to |order|
        invariant Sound(g, resolved)
        invariant changed ==> |Missing(Universe(g), resolved)| < |Missing(Universe(g), before)|
        invariant !changed ==> resolved == before && Settled(g, resolved, order, i)
      {
        var name := order[i];
        assert name in order;
        UniteIsSound(g, resolved, name);
        var expanded := Unite(g, resolved, name);
        Expand(g, resolved, name, expanded);
        if expanded != resolved[name] {
          resolved := resolved[name := expanded];
          changed := true;
        }
      }
    }
    SettledIsClosed(g, resolved, order);
  }
}
