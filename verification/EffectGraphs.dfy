/** Call graphs with effects at their nodes, and the effects that a node can reach. */
module EffectGraphs {

  type Effects = set<string>

  /** `base[n]` are the effects of `n` itself and `calls[n]` the functions it calls. */
  datatype Graph<T> = Graph(base: map<T, Effects>, calls: map<T, set<T>>)

  ghost predicate WellFormed<T(!new)>(g: Graph<T>) {
    g.base.Keys == g.calls.Keys && forall n, c :: n in g.calls && c in g.calls[n] ==> c in g.calls
  }

  ghost predicate IsPath<T(!new)>(g: Graph<T>, p: seq<T>) {
    && p != [] && (forall i :: 0 <= i < |p| ==> p[i] in g.calls)
    && (forall i :: 0 <= i < |p| - 1 ==> p[i + 1] in g.calls[p[i]])
  }

  ghost predicate Leads<T(!new)>(g: Graph<T>, p: seq<T>, n: T, m: T) {
    IsPath(g, p) && p[0] == n && p[|p| - 1] == m
  }

  /** `m` is `n`, or is called from it through any chain of calls. */
  ghost predicate Reaches<T(!new)>(g: Graph<T>, n: T, m: T) {
    exists p :: Leads(g, p, n, m)
  }

  /** Some function reachable from `n` has effect `e` itself. */
  ghost predicate Has<T(!new)>(g: Graph<T>, n: T, e: string) {
    exists m :: Reaches(g, n, m) && m in g.base && e in g.base[m]
  }

  lemma ReachesItself<T(!new)>(g: Graph<T>, n: T)
    requires n in g.calls
    ensures Reaches(g, n, n)
  {
    assert Leads(g, [n], n, n);
  }

  lemma CallReaches<T(!new)>(g: Graph<T>, n: T, c: T, m: T)
    requires n in g.calls && c in g.calls[n] && Reaches(g, c, m)
    ensures Reaches(g, n, m)
  {
    var p :| Leads(g, p, c, m);
    var q := [n] + p;
    assert forall i :: 0 < i < |q| ==> q[i] == p[i - 1];
    assert Leads(g, q, n, m);
  }

  lemma CallHas<T(!new)>(g: Graph<T>, n: T, c: T, e: string)
    requires n in g.calls && c in g.calls[n] && Has(g, c, e)
    ensures Has(g, n, e)
  {
    var m :| Reaches(g, c, m) && m in g.base && e in g.base[m];
    CallReaches(g, n, c, m);
  }

  lemma BaseHas<T(!new)>(g: Graph<T>, n: T, e: string)
    requires WellFormed(g) && n in g.base && e in g.base[n]
    ensures Has(g, n, e)
  {
    ReachesItself(g, n);
  }

  /** A reachable node is the node itself, or is reachable from a node it calls. */
  lemma FirstCall<T(!new)>(g: Graph<T>, p: seq<T>, n: T, m: T)
    requires Leads(g, p, n, m)
    ensures |p| == 1 ==> n == m
    ensures |p| > 1 ==> p[1] in g.calls[n] && Leads(g, p[1..], p[1], m)
  {
  }

  /** `resolved` contains the base effects and whatever the called functions have. */
  ghost predicate Closed<T(!new)>(g: Graph<T>, resolved: map<T, Effects>) {
    && resolved.Keys == g.calls.Keys
    && (forall n :: n in g.base && n in resolved ==> g.base[n] <= resolved[n])
    && (forall n, c :: n in g.calls && c in g.calls[n] && c in resolved && n in resolved ==> resolved[c] <= resolved[n])
  }

  lemma {:induction false} ClosedAlong<T(!new)>(g: Graph<T>, resolved: map<T, Effects>, p: seq<T>, n: T, m: T, e: string)
    requires WellFormed(g) && Closed(g, resolved) && Leads(g, p, n, m) && e in g.base[m]
    ensures e in resolved[n]
    decreases |p|
  {
    FirstCall(g, p, n, m);
    if |p| > 1 { ClosedAlong(g, resolved, p[1..], p[1], m, e); }
  }

  /** `resolved` is exactly what can be reached. */
  ghost predicate Exact<T(!new)>(g: Graph<T>, resolved: map<T, Effects>) {
    resolved.Keys == g.calls.Keys && forall n, e :: n in resolved ==> (e in resolved[n] <==> Has(g, n, e))
  }

  /** The exact assignment is closed, and is below every closed one: a least fixpoint. */
  lemma ExactIffLeast<T(!new)>(g: Graph<T>, resolved: map<T, Effects>)
    requires WellFormed(g)
    ensures Exact(g, resolved) <==>
      Closed(g, resolved) && forall n, e :: n in resolved && e in resolved[n] ==> Has(g, n, e)
    ensures Exact(g, resolved) ==>
      forall other: map<T, Effects>, n :: Closed(g, other) && n in resolved ==> resolved[n] <= other[n]
  {
    if Exact(g, resolved) {
      forall n, e | n in g.base && e in g.base[n] ensures e in resolved[n] { BaseHas(g, n, e); }
      forall n, c, e | n in g.calls && c in g.calls[n] && e in resolved[c] ensures e in resolved[n] { CallHas(g, n, c, e); }
    }
    if Closed(g, resolved) { ClosedHas(g, resolved); }
    forall other: map<T, Effects>, n | Exact(g, resolved) && Closed(g, other) && n in resolved ensures resolved[n] <= other[n] {
      ClosedHas(g, other);
    }
  }

  lemma ClosedHas<T(!new)>(g: Graph<T>, resolved: map<T, Effects>)
    requires WellFormed(g) && Closed(g, resolved)
    ensures forall n, e :: n in resolved && Has(g, n, e) ==> e in resolved[n]
  {
    forall n, e | n in resolved && Has(g, n, e) ensures e in resolved[n] {
      var m :| Reaches(g, n, m) && m in g.base && e in g.base[m];
      var p :| Leads(g, p, n, m);
      ClosedAlong(g, resolved, p, n, m, e);
    }
  }

  /** Whatever the order of iteration, there is one result. */
  lemma ExactIsUnique<T(!new)>(g: Graph<T>, a: map<T, Effects>, b: map<T, Effects>)
    requires Exact(g, a) && Exact(g, b)
    ensures a == b
  {
    forall n | n in a ensures a[n] == b[n] { }
  }

  /** A function has no effect at all exactly when nothing it reaches has one. */
  lemma PureIff<T(!new)>(g: Graph<T>, resolved: map<T, Effects>, n: T)
    requires WellFormed(g) && Exact(g, resolved) && n in resolved
    ensures resolved[n] == {} <==> forall m :: Reaches(g, n, m) ==> g.base[m] == {}
  {
    if resolved[n] == {} {
      forall m | Reaches(g, n, m) ensures g.base[m] == {} {
        if e :| e in g.base[m] { assert Has(g, n, e); }
      }
    }
    if resolved[n] != {} {
      var e :| e in resolved[n];
      var m :| Reaches(g, n, m) && m in g.base && e in g.base[m];
    }
  }
}
