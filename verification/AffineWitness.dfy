/** What the check knows is realised: every binding it holds moved is moved on some path that reaches this point. */
module AffineWitness {
  import opened Options
  import opened AffineSyntax
  import opened AffineCheck
  import opened AffinePaths
  import opened AffineSoundness
  import opened AffineConverse
  import opened AffineTraces
  import opened AffineParts

  ghost predicate Matches(s: State, d: Run) {
    && |s.scopes| == |d.scopes|
    && (forall k :: 0 <= k < |d.scopes| ==> s.scopes[k].Keys == d.scopes[k].Keys)
    && (forall k, name :: 0 <= k < |d.scopes| && name in d.scopes[k] ==> d.scopes[k][name].ty == s.scopes[k][name].ty)
  }

  /** No identity stands for two bindings. */
  ghost predicate Distinct(s: State) {
    forall j, k, m, n :: 0 <= j < |s.scopes| && m in s.scopes[j] && 0 <= k < |s.scopes| && n in s.scopes[k] ==>
      (s.scopes[j][m].id == s.scopes[k][n].id ==> j == k && m == n)
  }

  ghost predicate MovedAt(d: Run, k: int, name: string) {
    0 <= k < |d.scopes| && name in d.scopes[k] && Move(d.scopes[k][name].id) in d.trace
  }

  /** The check holds the binding at this place moved. */
  ghost predicate HeldMoved(s: State, k: int, name: string) {
    0 <= k < |s.scopes| && name in s.scopes[k] && s.scopes[k][name].id in s.moved
  }

  ghost predicate Witnessed(s: State, D: iset<Run>) {
    forall k, name :: HeldMoved(s, k, name) ==> exists d :: d in D && MovedAt(d, k, name)
  }

  /** The runs in `D` have all come to where the check is in state `s`. */
  ghost predicate Arrived(s: State, D: iset<Run>) {
    && Open(s) && Fits(s) && Distinct(s) && (exists d :: d in D)
    && (forall d :: d in D ==> Matches(s, d) && Created(d))
    && Witnessed(s, D)
  }

  /** Through how many scopes a part cannot change the bindings. */
  function Outer(p: Part, s: State): int {
    if p.Seq? || p.St? || p.Declaring? then |s.scopes| - 1 else |s.scopes|
  }

  ghost predicate ComesFrom(p: Part, D: iset<Run>, D': iset<Run>) {
    forall e :: e in D' ==> exists d, c :: d in D && Goes(p, d, c, e)
  }

  /** Some path through `p` moves the binding at this place. */
  ghost predicate NewAt(p: Part, D: iset<Run>, k: int, name: string) {
    exists d, c, e :: d in D && MovesOn(p, d, c, e, k, name)
  }

  ghost predicate MovesOn(p: Part, d: Run, c: seq<nat>, e: Run, k: int, name: string) {
    Goes(p, d, c, e) && 0 <= k < |d.scopes| && name in d.scopes[k] && MovedSince(d.trace, e.trace, d.scopes[k][name].id)
  }

  ghost predicate News(p: Part, s: State, t: State, D: iset<Run>) {
    forall k, name :: 0 <= k < Outer(p, s) && HeldNew(s, t, k, name) ==> NewAt(p, D, k, name)
  }

  ghost predicate HeldNew(s: State, t: State, k: int, name: string) {
    0 <= k < |s.scopes| && name in s.scopes[k] && s.scopes[k][name].id in t.moved && s.scopes[k][name].id !in s.moved
  }

  ghost predicate Kept(p: Part, s: State, t: State) {
    Grows(s, t) && |t.scopes| == |s.scopes| && forall k :: 0 <= k < Outer(p, s) && k < |s.scopes| ==> t.scopes[k] == s.scopes[k]
  }

  ghost predicate Unsafe(p: Part, D: iset<Run>) {
    exists d, c :: d in D && UnsafeRun(p, d, c)
  }

  ghost predicate UnsafeRun(p: Part, d: Run, c: seq<nat>) {
    Valid(p) && d.scopes != [] && !Safe(RunPart(p, d, c).run.trace)
  }

  /** The verdict `v` on `p` is realised: an acceptance by the runs `D'`, which come through `p` from `D`; a rejection
      for a move by an unsafe path. */
  ghost predicate Realised(p: Part, s: State, v: Verdict, D: iset<Run>, D': iset<Run>) {
    && Valid(p)
    && (v.Ok? ==> Arrived(v.s, D') && ComesFrom(p, D, D') && News(p, s, v.s, D) && Kept(p, s, v.s))
    && (v.Error? && v.code != KS3930 ==> Unsafe(p, D))
  }

  /** A loop condition inside `p` that moves is punished. */
  ghost predicate Noisy(p: Part, s: State, v: Verdict, D: iset<Run>) {
    v.Ok? && s.quiet && !v.s.quiet ==> Unsafe(p, D)
  }

  // ----- One part after another

  lemma UnsafeStays(t: seq<Event>, u: seq<Event>)
    requires t <= u && !Safe(t)
    ensures !Safe(u)
  {
    var i, j :| 0 <= i < j < |t| && t[i].Move? && t[j].inst == t[i].inst;
    assert u[i] == t[i] && u[j] == t[j];
  }

  lemma UnsafeFirst(q: Part, p: Part, g: seq<nat>, p': Part, D: iset<Run>)
    requires Joins(q, p, g, p') && Unsafe(p, D)
    ensures Unsafe(q, D)
  {
    hide RunPart, Goes, GoesOn, TracesOn, Safe;
    var d, c :| d in D && UnsafeRun(p, d, c);
    UnsafeStays(RunPart(p, d, c).run.trace, RunPart(q, d, c).run.trace);
    assert UnsafeRun(q, d, c);
  }

  lemma UnsafeSecond(q: Part, p: Part, g: seq<nat>, p': Part, D: iset<Run>, D': iset<Run>)
    requires Joins(q, p, g, p') && ComesFrom(p, D, D') && Unsafe(p', D')
    ensures Unsafe(q, D)
  {
    hide RunPart, Goes, GoesOn, BeginsWith, Safe;
    var e, c' :| e in D' && UnsafeRun(p', e, c');
    var d, c :| d in D && Goes(p, d, c, e);
    Going(p, d, c, e, []);
    assert UnsafeRun(q, d, c + g + c');
  }

  lemma ComesThrough(q: Part, p: Part, g: seq<nat>, p': Part, D: iset<Run>, D1: iset<Run>, D2: iset<Run>)
    requires Joins(q, p, g, p') && ComesFrom(p, D, D1) && ComesFrom(p', D1, D2)
    ensures ComesFrom(q, D, D2)
  {
    hide RunPart, Goes, TracesOn, BeginsWith;
    forall e' | e' in D2 ensures exists d, c :: d in D && Goes(q, d, c, e') {
      var e, c' :| e in D1 && Goes(p', e, c', e');
      var d, c :| d in D && Goes(p, d, c, e);
      assert Goes(q, d, c + g + c', e');
    }
  }

  /** A move on the way through the first part, and then on through the second. */
  lemma NewInFirst(q: Part, p: Part, g: seq<nat>, p': Part, D: iset<Run>, k: int, name: string)
    requires Joins(q, p, g, p') && Passable(p') && NewAt(p, D, k, name)
    ensures NewAt(q, D, k, name)
  {
    hide RunPart, Goes, TracesOn, BeginsWith, MovedSince;
    var d, c, e :| d in D && MovesOn(p, d, c, e, k, name);
    Going(p, d, c, e, []);
    var c', e' :| Goes(p', e, c', e');
    Going(p', e, c', e', []);
    MovedStaysMoved(d.trace, e.trace, e'.trace, d.scopes[k][name].id);
    assert MovesOn(q, d, c + g + c', e', k, name);
  }

  /** A move on the way through the second part, of a binding that the first did not change. */
  lemma NewInSecond(q: Part, p: Part, g: seq<nat>, p': Part, D: iset<Run>, D1: iset<Run>, k: int, name: string, n: int)
    requires Joins(q, p, g, p') && ComesFrom(p, D, D1) && NewAt(p', D1, k, name)
    requires forall d :: d in D ==> |d.scopes| == n
    requires k < n - 1 || (k < n && forall d, c, e :: Goes(p, d, c, e) ==> e.scopes == d.scopes)
    ensures NewAt(q, D, k, name)
  {
    hide RunPart, Goes, TracesOn, BeginsWith;
    var e, c', e' :| e in D1 && MovesOn(p', e, c', e', k, name);
    var d, c :| d in D && Goes(p, d, c, e);
    Going(p, d, c, e, []);
    assert e.scopes[k] == d.scopes[k] by {
      if k < n - 1 { assert d.scopes[..n - 1][k] == e.scopes[..n - 1][k]; }
    }
    MovedLater(d.trace, e.trace, e'.trace, e.scopes[k][name].id);
    assert Goes(q, d, c + g + c', e');
    assert MovesOn(q, d, c + g + c', e', k, name);
  }

  lemma MovedLater(t: seq<Event>, u: seq<Event>, v: seq<Event>, j: nat)
    requires t <= u && MovedSince(u, v, j)
    ensures MovedSince(t, v, j)
  {
    var i :| 0 <= i < |v| - |u| && v[|u|..][i] == Move(j);
    assert v[|t|..][|u| - |t| + i] == Move(j);
  }

  ghost predicate KeepsScopes(p: Part) {
    forall d, c, e :: Goes(p, d, c, e) ==> e.scopes == d.scopes
  }

  lemma ScopesKept(p: Part)
    requires Valid(p) && !p.Seq? && !p.St? && !p.Declaring?
    ensures KeepsScopes(p)
  {
    hide Goes, Later, RunStmts, RunExpr, RunIf, RunFor, RunOperands, Resolve;
    forall d, c, e | Goes(p, d, c, e) ensures e.scopes == d.scopes {
      Going(p, d, c, e, []);
    }
  }

  /** The two parts of `q` are realised one after the other. */
  lemma Compose(q: Part, p: Part, g: seq<nat>, p': Part, s: State, s1: State, v: Verdict, D: iset<Run>, D1: iset<Run>, D2: iset<Run>)
    requires Joins(q, p, g, p') && Passable(p') && Arrived(s, D)
    requires Realised(p, s, Ok(s1), D, D1) && Realised(p', s1, v, D1, D2)
    requires Outer(q, s) <= Outer(p, s) && Outer(q, s) <= Outer(p', s1) && (Outer(q, s) == |s.scopes| - 1 || KeepsScopes(p))
    ensures Realised(q, s, v, D, D2)
  {
    hide Joins, Passable, News, ComesFrom, Unsafe, Arrived, KeepsScopes, Kept;
    ValidJoins(q, p, g, p');
    if v.Ok? {
      ComesThrough(q, p, g, p', D, D1, D2);
      KeptBoth(q, p, p', s, s1, v.s);
      ComposeNews(q, p, g, p', s, s1, v.s, D, D1);
    } else if v.code != KS3930 {
      UnsafeSecond(q, p, g, p', D, D1);
    }
  }

  lemma KeptBoth(q: Part, p: Part, p': Part, s: State, s1: State, t: State)
    requires Kept(p, s, s1) && Kept(p', s1, t) && Outer(q, s) <= Outer(p, s) && Outer(q, s) <= Outer(p', s1)
    ensures Kept(q, s, t)
  {
    hide Grows;
    GrowsTransitive(s, s1, t);
  }

  lemma ValidJoins(q: Part, p: Part, g: seq<nat>, p': Part)
    requires Joins(q, p, g, p')
    ensures Valid(q) && Valid(p) && Valid(p')
  {
  }

  lemma ComposeNews(q: Part, p: Part, g: seq<nat>, p': Part, s: State, s1: State, t: State, D: iset<Run>, D1: iset<Run>)
    requires Joins(q, p, g, p') && Passable(p') && Arrived(s, D)
    requires ComesFrom(p, D, D1) && News(p, s, s1, D) && News(p', s1, t, D1) && Kept(p, s, s1)
    requires Outer(q, s) <= Outer(p, s) && Outer(q, s) <= Outer(p', s1) && (Outer(q, s) == |s.scopes| - 1 || KeepsScopes(p))
    ensures News(q, s, t, D)
  {
    hide Joins, Passable, ComesFrom, NewAt, Grows, Goes, Fits, Distinct, Witnessed;
    assert forall d :: d in D ==> |d.scopes| == |s.scopes|;
    forall k, name | 0 <= k < Outer(q, s) && HeldNew(s, t, k, name) ensures NewAt(q, D, k, name) {
      if s.scopes[k][name].id in s1.moved {
        assert HeldNew(s, s1, k, name);
        NewInFirst(q, p, g, p', D, k, name);
      } else {
        assert HeldNew(s1, t, k, name);
        NewInSecond(q, p, g, p', D, D1, k, name, |s.scopes|);
      }
    }
  }

  lemma ComposeNoise(q: Part, p: Part, g: seq<nat>, p': Part, s: State, s1: State, v: Verdict, D: iset<Run>, D1: iset<Run>)
    requires Joins(q, p, g, p') && ComesFrom(p, D, D1)
    requires Noisy(p, s, Ok(s1), D) && (s1.quiet ==> Noisy(p', s1, v, D1))
    ensures Noisy(q, s, v, D)
  {
    hide Joins, ComesFrom, Unsafe;
    if v.Ok? && s.quiet && !v.s.quiet {
      if s1.quiet { UnsafeSecond(q, p, g, p', D, D1); } else { UnsafeFirst(q, p, g, p', D); }
    }
  }

  lemma ComposeError(q: Part, p: Part, g: seq<nat>, p': Part, s: State, v: Verdict, D: iset<Run>, D1: iset<Run>)
    requires Joins(q, p, g, p') && v.Error? && Realised(p, s, v, D, D1)
    ensures Realised(q, s, v, D, D1) && Noisy(q, s, v, D)
  {
    hide Joins, Unsafe;
    ValidJoins(q, p, g, p');
    if v.code != KS3930 { UnsafeFirst(q, p, g, p', D); }
  }

  /** The same runs realise a verdict with a larger counter and less quiet. */
  lemma Rebased(p: Part, s: State, t: State, n: nat, quiet: bool, D: iset<Run>, D': iset<Run>)
    requires Realised(p, s, Ok(t), D, D') && t.next <= n && (quiet ==> t.quiet)
    ensures Realised(p, s, Ok(t.(next := n, quiet := quiet)), D, D')
  {
    hide Unsafe, ComesFrom, NewAt, Ids;
    var u := t.(next := n, quiet := quiet);
    assert forall k, name :: HeldNew(s, u, k, name) <==> HeldNew(s, t, k, name);
    assert forall k, name :: HeldMoved(u, k, name) <==> HeldMoved(t, k, name);
    assert Kept(p, s, u);
  }

  /** Two ways through `q` realise the union of what they move. */
  lemma Merge(q: Part, s: State, t: State, a: State, b: State, D: iset<Run>, A: iset<Run>, B: iset<Run>)
    requires Realised(q, s, Ok(a), D, A) && Realised(q, s, Ok(b), D, B)
    requires t.scopes == a.scopes == b.scopes && Fits(t) && Grows(s, t)
    requires forall id :: id in t.moved && id in Ids(t.scopes) ==> id in a.moved || id in b.moved
    requires Outer(q, s) == |s.scopes| && t.scopes == s.scopes
    ensures Realised(q, s, Ok(t), D, A + B)
  {
    hide Unsafe, NewAt, Goes, Grows, Fits, Ids, Arrived, News, ComesFrom;
    MergeArrived(t, a, b, A, B);
    MergeNews(q, s, t, a, b, D);
    MergeComes(q, D, A, B);
  }

  lemma MergeArrived(t: State, a: State, b: State, A: iset<Run>, B: iset<Run>)
    requires t.scopes == a.scopes == b.scopes && Arrived(a, A) && Arrived(b, B) && Fits(t)
    requires forall id :: id in t.moved && id in Ids(t.scopes) ==> id in a.moved || id in b.moved
    ensures Arrived(t, A + B)
  {
    hide Fits, Ids, Witnessed, Created;
    MergeWitnessed(t, a, b, A, B);
    var d :| d in A;
    assert d in A + B;
  }

  lemma MergeWitnessed(t: State, a: State, b: State, A: iset<Run>, B: iset<Run>)
    requires t.scopes == a.scopes == b.scopes && Witnessed(a, A) && Witnessed(b, B)
    requires forall id :: id in t.moved && id in Ids(t.scopes) ==> id in a.moved || id in b.moved
    ensures Witnessed(t, A + B)
  {
    hide MovedAt, Ids;
    forall k, name | HeldMoved(t, k, name) ensures exists d :: d in A + B && MovedAt(d, k, name) {
      IdsAt(t.scopes, k, name);
      if t.scopes[k][name].id in a.moved { assert HeldMoved(a, k, name); } else { assert HeldMoved(b, k, name); }
    }
  }

  lemma MergeNews(q: Part, s: State, t: State, a: State, b: State, D: iset<Run>)
    requires News(q, s, a, D) && News(q, s, b, D) && t.scopes == s.scopes
    requires forall id :: id in t.moved && id in Ids(t.scopes) ==> id in a.moved || id in b.moved
    ensures News(q, s, t, D)
  {
    hide NewAt, Ids;
    forall k, name | 0 <= k < Outer(q, s) && HeldNew(s, t, k, name) ensures NewAt(q, D, k, name) {
      IdsAt(s.scopes, k, name);
      if s.scopes[k][name].id in a.moved { assert HeldNew(s, a, k, name); } else { assert HeldNew(s, b, k, name); }
    }
  }

  lemma MergeComes(q: Part, D: iset<Run>, A: iset<Run>, B: iset<Run>)
    requires ComesFrom(q, D, A) && ComesFrom(q, D, B)
    ensures ComesFrom(q, D, A + B)
  {
    hide Goes;
  }
}
