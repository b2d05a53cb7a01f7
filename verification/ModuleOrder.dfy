/** `ModuleGraph.in_dependency_order`: the depth-first order in which the modules are analysed. */
module ModuleOrder {
  import opened EffectModules

  /** Imports name loaded modules and never lead back: `rank` decreases along every import.  Loading rejects
      graphs without such a rank. */
  ghost predicate Acyclic(modules: map<Key, Module>, rank: map<Key, nat>) {
    && rank.Keys == modules.Keys
    && (forall k, alias :: k in modules && alias in modules[k].imports ==>
          modules[k].imports[alias] in modules && rank[modules[k].imports[alias]] < rank[k])
  }

  ghost predicate ClosedUnderImports(modules: map<Key, Module>, keys: set<Key>) {
    forall k, alias :: k in keys && k in modules && alias in modules[k].imports ==> modules[k].imports[alias] in keys
  }

  /** Every module is imported, directly or not, by the root. */
  ghost predicate AllLoaded(modules: map<Key, Module>, root: Key) {
    root in modules && forall keys: set<Key> :: root in keys && ClosedUnderImports(modules, keys) ==> modules.Keys <= keys
  }

  ghost predicate ImportsFirst(modules: map<Key, Module>, order: seq<Key>) {
    && (forall i, j :: 0 <= i < j < |order| ==> order[i] != order[j])
    && (forall i :: 0 <= i < |order| ==> order[i] in modules)
    && (forall i, alias :: 0 <= i < |order| && order[i] in modules && alias in modules[order[i]].imports ==>
          modules[order[i]].imports[alias] in order[..i])
  }

  /** The modules whose visit has begun and not ended. */
  ghost predicate Ancestors(rank: map<Key, nat>, visited: set<Key>, ordered: seq<Key>, bound: nat) {
    && visited <= rank.Keys && (forall k :: k in ordered ==> k in visited)
    && (forall k :: k in visited && k !in ordered ==> rank[k] >= bound)
  }

  method Visit(modules: map<Key, Module>, ghost rank: map<Key, nat>, key: Key, visited: set<Key>, ordered: seq<Key>)
    returns (visited': set<Key>, ordered': seq<Key>)
    requires Acyclic(modules, rank) && key in modules
    requires ImportsFirst(modules, ordered) && Ancestors(rank, visited, ordered, rank[key] + 1)
    ensures ImportsFirst(modules, ordered') && ordered <= ordered' && key in ordered'
    ensures visited <= visited' <= modules.Keys
    ensures forall k :: k in visited' && k !in ordered' ==> k in visited && k !in ordered
    ensures forall k :: k in ordered' ==> k in visited' && (k in ordered || k !in visited)
    decreases rank[key]
  {
    if key in visited { return visited, ordered; }
    visited', ordered' := visited + {key}, ordered;
    var todo := modules[key].imports.Values;
    while todo != {}
      invariant todo <= modules[key].imports.Values
      invariant ImportsFirst(modules, ordered') && ordered <= ordered' && visited + {key} <= visited' <= modules.Keys
      invariant forall k :: k in visited' && k !in ordered' ==> k == key || (k in visited && k !in ordered)
      invariant forall k :: k in ordered' ==> k in visited' && (k in ordered || k !in visited + {key})
      invariant forall t :: t in modules[key].imports.Values - todo ==> t in ordered'
    {
      var target :| target in todo;
      ghost var alias :| alias in modules[key].imports && modules[key].imports[alias] == target;
      visited', ordered' := Visit(modules, rank, target, visited', ordered');
      todo := todo - {target};
    }
    Append(modules, ordered', key);
    ordered' := ordered' + [key];
  }

  lemma Append(modules: map<Key, Module>, ordered: seq<Key>, key: Key)
    requires ImportsFirst(modules, ordered) && key in modules && key !in ordered
    requires forall t :: t in modules[key].imports.Values ==> t in ordered
    ensures ImportsFirst(modules, ordered + [key])
  {
    var r := ordered + [key];
    forall i, alias | 0 <= i < |r| && alias in modules[r[i]].imports ensures modules[r[i]].imports[alias] in r[..i] {
      if i < |ordered| { assert r[..i] == ordered[..i]; } else { assert r[..i] == ordered; }
    }
  }

  /** For a loaded graph the traversal lists every module once, after everything it imports. */
  method InDependencyOrder(modules: map<Key, Module>, root: Key, ghost rank: map<Key, nat>) returns (order: seq<Key>)
    requires Acyclic(modules, rank) && AllLoaded(modules, root)
    ensures DependencyOrder(modules, order)
  {
    var visited;
    visited, order := Visit(modules, rank, root, {}, []);
    Complete(modules, root, order);
  }

  lemma Complete(modules: map<Key, Module>, root: Key, order: seq<Key>)
    requires AllLoaded(modules, root) && ImportsFirst(modules, order) && root in order
    ensures DependencyOrder(modules, order)
  {
    var keys := set k | k in order;
    forall k, alias | k in keys && k in modules && alias in modules[k].imports ensures modules[k].imports[alias] in keys {
      var i :| 0 <= i < |order| && order[i] == k;
      assert modules[order[i]].imports[alias] in order[..i];
    }
    assert ClosedUnderImports(modules, keys);
  }
}
