/** The elementary steps of the check are realised: using a name, declaring one, and opening and leaving a scope. */
module AffineSteps {
  import opened Options
  import opened AffineSyntax
  import opened AffineCheck
  import opened AffinePaths
  import opened AffineSoundness
  import opened AffineConverse
  import opened AffineTraces
  import opened AffineParts
  import opened AffineWitness

  lemma GrowsItself(s: State)
    ensures Grows(s, s)
  {
  }

  lemma NothingRealised(s: State, D: iset<Run>)
    requires Arrived(s, D)
    ensures Realised(Nothing, s, Ok(s), D, D) && Noisy(Nothing, s, Ok(s), D)
  {
    hide Arrived, NewAt, Unsafe, Grows;
    GrowsItself(s);
    NothingComes(s, D);
    assert forall k, name :: !HeldNew(s, s, k, name);
  }

  lemma NothingComes(s: State, D: iset<Run>)
    requires Arrived(s, D)
    ensures ComesFrom(Nothing, D, D)
  {
    hide Goes;
    forall e | e in D ensures exists d, c :: d in D && Goes(Nothing, d, c, e) {
      assert e.scopes != [] by { assert Matches(s, e); }
      SimpleGoes(Nothing, e);
    }
  }

  lemma ArrivedState(s: State, D: iset<Run>)
    requires Arrived(s, D)
    ensures Open(s) && Fits(s) && Distinct(s) && forall d :: d in D ==> Matches(s, d) && Created(d)
  {
  }

  // ----- Using a name

  /** The binding that a name denotes is at the same place in the check and in a run. */
  lemma {:induction false} SamePlace(s: seq<Scope>, d: seq<Scope>, name: string) returns (k: int)
    requires |s| == |d| && (forall i :: 0 <= i < |d| ==> s[i].Keys == d[i].Keys)
    requires forall i, n :: 0 <= i < |d| && n in d[i] ==> d[i][n].ty == s[i][n].ty
    ensures Resolve(s, name).Some? == Resolve(d, name).Some?
    ensures Resolve(s, name).Some? ==>
      0 <= k < |s| && name in s[k] && name in d[k] && Resolve(s, name).value == s[k][name] && Resolve(d, name).value == d[k][name]
    decreases |s|
  {
    k := |s| - 1;
    if s != [] && name !in s[k] {
      var n := |s| - 1;
      k := SamePlace(s[..n], d[..n], name);
    }
  }

  lemma Place(s: State, d: Run, name: string) returns (k: int)
    requires Matches(s, d)
    ensures AffineBinding(s.scopes, name).Some? == AffineBinding(d.scopes, name).Some?
    ensures AffineBinding(s.scopes, name).Some? ==>
      && 0 <= k < |s.scopes| == |d.scopes| && name in s.scopes[k] && name in d.scopes[k]
      && AffineBinding(s.scopes, name).value == s.scopes[k][name].id && AffineBinding(d.scopes, name).value == d.scopes[k][name].id
  {
    k := SamePlace(s.scopes, d.scopes, name);
  }

  /** A name whose binding the check holds moved is used after a move on some path. */
  lemma UseIsUnsafe(name: string, ctx: Context, s: State, D: iset<Run>)
    requires Arrived(s, D) && UseName(s, name, ctx).Error?
    ensures Unsafe(Touching(name, ctx), D)
  {
    hide AffineBinding, Fits, Created, Safe, Matches;
    var d0 :| d0 in D;
    var k := Place(s, d0, name);
    assert HeldMoved(s, k, name);
    var d :| d in D && MovedAt(d, k, name);
    var k' := Place(s, d, name);
    assert k' == k;
    TouchedTwice(d, name, ctx, d.scopes[k][name].id);
    assert UnsafeRun(Touching(name, ctx), d, []);
  }

  lemma TouchedTwice(d: Run, name: string, ctx: Context, j: nat)
    requires AffineBinding(d.scopes, name) == Some(j) && Move(j) in d.trace
    ensures !Safe(Touch(d, name, ctx).trace)
  {
    var t := Touch(d, name, ctx).trace;
    var i :| 0 <= i < |d.trace| && d.trace[i] == Move(j);
    assert t[i] == Move(j) && t[|d.trace|].inst == j;
  }

  ghost function TouchAll(D: iset<Run>, name: string, ctx: Context): iset<Run> {
    iset d | d in D :: Touch(d, name, ctx)
  }

  lemma TouchRealised(name: string, ctx: Context, s: State, D: iset<Run>)
    requires Arrived(s, D)
    ensures Realised(Touching(name, ctx), s, UseName(s, name, ctx), D, TouchAll(D, name, ctx))
    ensures Noisy(Touching(name, ctx), s, UseName(s, name, ctx), D)
  {
    hide Arrived, ComesFrom, News, Grows, Unsafe, AffineBinding, TouchAll;
    var v := UseName(s, name, ctx);
    ArrivedState(s, D);
    if v.Ok? {
      UseGrows(s, name, ctx);
      TouchArrived(name, ctx, s, D);
      TouchComes(name, ctx, s, D);
      TouchNews(name, ctx, s, D);
    } else {
      UseIsUnsafe(name, ctx, s, D);
    }
  }

  lemma TouchComes(name: string, ctx: Context, s: State, D: iset<Run>)
    requires Arrived(s, D)
    ensures ComesFrom(Touching(name, ctx), D, TouchAll(D, name, ctx))
  {
    hide Goes, Touch;
    forall e | e in TouchAll(D, name, ctx) ensures exists d, c :: d in D && Goes(Touching(name, ctx), d, c, e) {
      var d :| d in D && e == Touch(d, name, ctx);
      assert d.scopes != [] by { assert Matches(s, d); }
      SimpleGoes(Touching(name, ctx), d);
    }
  }

  lemma TouchArrived(name: string, ctx: Context, s: State, D: iset<Run>)
    requires Arrived(s, D) && UseName(s, name, ctx).Ok?
    ensures Arrived(UseName(s, name, ctx).s, TouchAll(D, name, ctx))
  {
    hide AffineBinding, Fits, Touch, UseName;
    var t := UseName(s, name, ctx).s;
    var D' := TouchAll(D, name, ctx);
    UseGrows(s, name, ctx);
    UseKeeps(s, name, ctx);
    var d0 :| d0 in D;
    assert Touch(d0, name, ctx) in D';
    forall e | e in D' ensures Matches(t, e) && Created(e) {
      var d :| d in D && e == Touch(d, name, ctx);
      assert Matches(s, d) && Created(d);
    }
    forall k, name' | HeldMoved(t, k, name') ensures exists e :: e in D' && MovedAt(e, k, name') {
      var d := TouchWitness(name, ctx, s, D, k, name');
      assert Touch(d, name, ctx) in D';
    }
  }

  lemma UseKeeps(s: State, name: string, ctx: Context)
    requires UseName(s, name, ctx).Ok?
    ensures var t := UseName(s, name, ctx).s; t.scopes == s.scopes && t.quiet == s.quiet
    ensures var t := UseName(s, name, ctx).s; AffineBinding(s.scopes, name).Some? && ctx == MOVE ==>
      t.moved == s.moved + {AffineBinding(s.scopes, name).value}
    ensures var t := UseName(s, name, ctx).s; !(AffineBinding(s.scopes, name).Some? && ctx == MOVE) ==> t.moved == s.moved
  {
    hide AffineBinding;
  }

  lemma TouchWitness(name: string, ctx: Context, s: State, D: iset<Run>, k: int, name': string) returns (d: Run)
    requires Arrived(s, D) && UseName(s, name, ctx).Ok? && HeldMoved(UseName(s, name, ctx).s, k, name')
    ensures d in D && MovedAt(Touch(d, name, ctx), k, name')
  {
    hide AffineBinding, Fits, Created, UseName, Matches;
    UseKeeps(s, name, ctx);
    if s.scopes[k][name'].id in s.moved {
      assert HeldMoved(s, k, name');
      d :| d in D && MovedAt(d, k, name');
      TouchTrace(d, name, ctx);
    } else {
      d :| d in D;
      var k' := Place(s, d, name);
      assert k' == k && name' == name;
      TouchTrace(d, name, ctx);
    }
  }

  lemma TouchTrace(d: Run, name: string, ctx: Context)
    ensures var t := Touch(d, name, ctx);
      && t.scopes == d.scopes && t.next == d.next && d.trace <= t.trace
      && (forall x :: x in d.trace ==> x in t.trace)
      && (AffineBinding(d.scopes, name).Some? && ctx == MOVE ==>
            MovedSince(d.trace, t.trace, AffineBinding(d.scopes, name).value) && Move(AffineBinding(d.scopes, name).value) in t.trace)
  {
    hide AffineBinding;
    var t := Touch(d, name, ctx);
    if AffineBinding(d.scopes, name).Some? && ctx == MOVE { assert t.trace[|d.trace|..][0] == Move(AffineBinding(d.scopes, name).value); }
  }

  lemma TouchNews(name: string, ctx: Context, s: State, D: iset<Run>)
    requires Arrived(s, D) && UseName(s, name, ctx).Ok?
    ensures News(Touching(name, ctx), s, UseName(s, name, ctx).s, D)
  {
    hide AffineBinding, Fits, Created, UseName, Matches, Goes;
    var p, t := Touching(name, ctx), UseName(s, name, ctx).s;
    UseKeeps(s, name, ctx);
    forall k, name' | HeldNew(s, t, k, name') ensures NewAt(p, D, k, name') {
      var d :| d in D;
      var k' := Place(s, d, name);
      assert k' == k && name' == name;
      TouchTrace(d, name, ctx);
      SimpleGoes(p, d);
      assert MovesOn(p, d, [], Touch(d, name, ctx), k, name');
    }
  }

  // ----- Declaring a name

  ghost function FreshOf(D: iset<Run>, name: string, ty: Ty): iset<Run>
  {
    iset d | d in D && d.scopes != [] :: Fresh(d, name, ty)
  }

  lemma DeclareRealised(name: string, ty: Ty, mutable: bool, s: State, D: iset<Run>)
    requires Arrived(s, D)
    ensures Realised(Declaring(name, ty, mutable), s, Declare(s, name, ty, mutable), D, FreshOf(D, name, ty))
    ensures Noisy(Declaring(name, ty, mutable), s, Declare(s, name, ty, mutable), D)
  {
    hide Arrived, Unsafe, Grows, NewAt, FreshOf, ComesFrom;
    ArrivedState(s, D);
    var v := Declare(s, name, ty, mutable);
    if v.Ok? {
      DeclareGrows(s, name, ty, mutable);
      DeclareArrived(name, ty, s, D, v.s);
      DeclareComes(name, ty, mutable, s, D);
      assert forall k, n :: !HeldNew(s, v.s, k, n);
    }
  }

  lemma DeclareComes(name: string, ty: Ty, mutable: bool, s: State, D: iset<Run>)
    requires Arrived(s, D)
    ensures ComesFrom(Declaring(name, ty, mutable), D, FreshOf(D, name, ty))
  {
    hide Goes, Fresh;
    forall e | e in FreshOf(D, name, ty) ensures exists d, c :: d in D && Goes(Declaring(name, ty, mutable), d, c, e) {
      var d :| d in D && d.scopes != [] && e == Fresh(d, name, ty);
      SimpleGoes(Declaring(name, ty, mutable), d);
    }
  }

  lemma DeclareArrived(name: string, ty: Ty, s: State, D: iset<Run>, t: State)
    requires Arrived(s, D) && Declare(s, name, ty, false).Ok? && t == Declare(s, name, ty, false).s && Fits(t)
    ensures Arrived(t, FreshOf(D, name, ty))
  {
    hide Fits, Fresh, Created, Declare, Bind;
    var D' := FreshOf(D, name, ty);
    var d0 :| d0 in D;
    FreshMatches(s, d0, name, ty);
    assert Fresh(d0, name, ty) in D';
    forall e | e in D' ensures Matches(t, e) && Created(e) {
      var d :| d in D && d.scopes != [] && e == Fresh(d, name, ty);
      FreshMatches(s, d, name, ty);
    }
    DeclareDistinct(s, name, ty);
    forall k, n | HeldMoved(t, k, n) ensures exists e :: e in D' && MovedAt(e, k, n) {
      DeclareHeld(s, name, ty, k, n);
      var d :| d in D && MovedAt(d, k, n);
      FreshMatches(s, d, name, ty);
      FreshMoved(d, name, ty, k, n, s);
      assert Fresh(d, name, ty) in D';
    }
  }

  lemma FreshMatches(s: State, d: Run, name: string, ty: Ty)
    requires Open(s) && Matches(s, d) && Created(d)
    ensures d.scopes != [] && Matches(Declare(s, name, ty, false).s, Fresh(d, name, ty)) && Created(Fresh(d, name, ty))
  {
  }

  lemma DeclareDistinct(s: State, name: string, ty: Ty)
    requires Open(s) && Fits(s) && Distinct(s)
    ensures Distinct(Declare(s, name, ty, false).s)
  {
  }

  /** What is held moved after a declaration was so before, at the same place, and is not what was declared. */
  lemma DeclareHeld(s: State, name: string, ty: Ty, k: int, n: string)
    requires Open(s) && Fits(s) && HeldMoved(Declare(s, name, ty, false).s, k, n)
    ensures HeldMoved(s, k, n) && (k < |s.scopes| - 1 || n != name)
  {
  }

  lemma FreshMoved(d: Run, name: string, ty: Ty, k: int, n: string, s: State)
    requires d.scopes != [] && MovedAt(d, k, n) && (k < |d.scopes| - 1 || n != name)
    ensures MovedAt(Fresh(d, name, ty), k, n)
  {
  }

  // ----- Scopes

  ghost function EnterAll(D: iset<Run>): iset<Run> {
    iset d | d in D :: Enter(d)
  }

  ghost function OpenAll(binding: Option<Parameter>, D: iset<Run>): iset<Run> {
    iset d | d in D :: Opened(binding, d)
  }

  function Closed(e: Run): Run {
    if e.scopes == [] then e else e.(scopes := e.scopes[..|e.scopes| - 1])
  }

  ghost function CloseAll(D: iset<Run>): iset<Run> {
    iset e | e in D :: Closed(e)
  }

  function ClosedVerdict(s: State, v: Verdict): Verdict {
    match v
    case Error(code) => Error(code)
    case Ok(t) => Ok(ClosedTo(s, t))
  }

  function ClosedTo(s: State, t: State): State {
    State(s.scopes, t.moved, t.next, t.quiet)
  }

  lemma EnterArrived(s: State, D: iset<Run>)
    requires Arrived(s, D)
    ensures Arrived(Push(s), EnterAll(D))
  {
    hide Matches, Created, Fits, Distinct, MovedAt, HeldMoved, Enter, Push;
    var d0 :| d0 in D;
    assert Enter(d0) in EnterAll(D);
    forall e | e in EnterAll(D) ensures Matches(Push(s), e) && Created(e) {
      var d :| d in D && e == Enter(d);
      EnterMatches(s, d);
    }
    PushState(s);
    forall k, name | HeldMoved(Push(s), k, name) ensures exists e :: e in EnterAll(D) && MovedAt(e, k, name) {
      PushHeld(s, k, name);
      var d :| d in D && MovedAt(d, k, name);
      EnterMoved(d, k, name);
      assert Enter(d) in EnterAll(D);
    }
  }

  lemma EnterMatches(s: State, d: Run)
    requires Matches(s, d) && Created(d)
    ensures Matches(Push(s), Enter(d)) && Created(Enter(d))
  {
  }

  lemma EnterMoved(d: Run, k: int, name: string)
    requires MovedAt(d, k, name)
    ensures MovedAt(Enter(d), k, name)
  {
  }

  lemma PushState(s: State)
    requires Open(s) && Fits(s) && Distinct(s)
    ensures Open(Push(s)) && Fits(Push(s)) && Distinct(Push(s))
  {
  }

  lemma PushHeld(s: State, k: int, name: string)
    requires HeldMoved(Push(s), k, name)
    ensures HeldMoved(s, k, name)
  {
  }

  lemma OpenArrived(binding: Option<Parameter>, s: State, D: iset<Run>)
    requires Arrived(s, D)
    ensures Arrived(OpenedState(binding, s), OpenAll(binding, D))
  {
    hide Arrived, Fits, Distinct, Matches;
    EnterArrived(s, D);
    if binding.Some? {
      var name, ty := binding.value.name, binding.value.ty;
      ArrivedState(Push(s), EnterAll(D));
      DeclareGrows(Push(s), name, ty, false);
      DeclareArrived(name, ty, Push(s), EnterAll(D), OpenedState(binding, s));
      OpenedFresh(name, ty, D);
    } else {
      assert OpenAll(binding, D) == EnterAll(D);
    }
  }

  lemma OpenedFresh(name: string, ty: Ty, D: iset<Run>)
    ensures FreshOf(EnterAll(D), name, ty) == OpenAll(Some(Parameter(name, ty)), D)
  {
    hide Fresh;
    var b := Some(Parameter(name, ty));
    forall e | e in OpenAll(b, D) ensures e in FreshOf(EnterAll(D), name, ty) {
      var d :| d in D && e == Opened(b, d);
      assert Enter(d) in EnterAll(D) && Enter(d).scopes != [];
    }
  }

  /** The scopes around an opened one, before and after. */
  lemma OpenedScopes(binding: Option<Parameter>, s: State, d: Run)
    ensures var o := Opened(binding, d); |o.scopes| == |d.scopes| + 1 && o.scopes[..|d.scopes|] == d.scopes && o.trace == d.trace
    ensures var t := OpenedState(binding, s);
      && |t.scopes| == |s.scopes| + 1 && t.scopes[..|s.scopes|] == s.scopes
      && t.moved == s.moved && t.quiet == s.quiet && s.next <= t.next
  {
  }

  lemma OpenedIds(binding: Option<Parameter>, s: State)
    ensures var t := OpenedState(binding, s); forall id :: id in Ids(t.scopes) ==> id in Ids(s.scopes) || id >= s.next
  {
    var t := OpenedState(binding, s);
    forall id | id in Ids(t.scopes) ensures id in Ids(s.scopes) || id >= s.next {
      var k, name :| 0 <= k < |t.scopes| && name in t.scopes[k] && t.scopes[k][name].id == id;
      if k < |s.scopes| { assert t.scopes[k] == s.scopes[k]; IdsAt(s.scopes, k, name); }
    }
  }

  lemma ScopeThrough(binding: Option<Parameter>, inner: Part, s: State, d: Run, c: seq<nat>, e: Run)
    requires Valid(inner) && d.scopes != [] && Goes(inner, Opened(binding, d), c, e)
    ensures Goes(Scope(binding, inner), d, c, Closed(e)) && Closed(e).scopes == d.scopes && Closed(e).trace == e.trace
      && Closed(e).next == e.next && |e.scopes| == |d.scopes| + 1
  {
    hide Goes, Opened, OpenedState;
    OpenedScopes(binding, s, d);
    Going(inner, Opened(binding, d), c, e, []);
    assert e.scopes[..|d.scopes|] == d.scopes;
    ScopeGoes(binding, inner, d, c, e);
  }

  lemma ScopeRealised(binding: Option<Parameter>, inner: Part, s: State, v: Verdict, D: iset<Run>, E: iset<Run>)
    requires Valid(inner) && (inner.Seq? || inner.Ex?) && Arrived(s, D)
    requires Realised(inner, OpenedState(binding, s), v, OpenAll(binding, D), E)
    requires Noisy(inner, OpenedState(binding, s), v, OpenAll(binding, D))
    ensures Realised(Scope(binding, inner), s, ClosedVerdict(s, v), D, CloseAll(E))
    ensures Noisy(Scope(binding, inner), s, ClosedVerdict(s, v), D)
  {
    hide Arrived, ComesFrom, News, Unsafe, Kept, OpenedState, CloseAll, OpenAll, ClosedTo;
    OpenedQuiet(binding, s);
    if v.Ok? { ClosedQuiet(s, v.s); }
    if Unsafe(inner, OpenAll(binding, D)) { ScopeUnsafe(binding, inner, s, D); }
    if v.Ok? {
      ScopeGrows(binding, inner, s, v.s);
      ScopeArrived(binding, inner, s, v.s, D, E);
      ScopeComes(binding, inner, s, D, E);
      ScopeNews(binding, inner, s, v.s, D);
    }
  }

  lemma OpenedQuiet(binding: Option<Parameter>, s: State)
    ensures OpenedState(binding, s).quiet == s.quiet
  {
  }

  lemma ClosedQuiet(s: State, t: State)
    ensures ClosedTo(s, t).quiet == t.quiet
  {
  }

  lemma ScopeUnsafe(binding: Option<Parameter>, inner: Part, s: State, D: iset<Run>)
    requires Valid(inner) && Unsafe(inner, OpenAll(binding, D)) && Arrived(s, D)
    ensures Unsafe(Scope(binding, inner), D)
  {
    hide Safe, Opened, Arrived, UnsafeRun;
    var o, c :| o in OpenAll(binding, D) && UnsafeRun(inner, o, c);
    var d :| d in D && o == Opened(binding, d);
    ArrivedState(s, D);
    ScopeUnsafeRun(binding, inner, d, c);
  }

  lemma ScopeUnsafeRun(binding: Option<Parameter>, inner: Part, d: Run, c: seq<nat>)
    requires UnsafeRun(inner, Opened(binding, d), c) && d.scopes != []
    ensures UnsafeRun(Scope(binding, inner), d, c)
  {
    hide Safe, Opened;
  }

  lemma ScopeGrows(binding: Option<Parameter>, inner: Part, s: State, t: State)
    requires Kept(inner, OpenedState(binding, s), t) && (inner.Seq? || inner.Ex?)
    ensures Kept(Scope(binding, inner), s, ClosedTo(s, t)) && |t.scopes| == |s.scopes| + 1 && t.scopes[..|s.scopes|] == s.scopes
  {
    hide OpenedState, Ids;
    OpenedScopes(binding, s, Run([], 0, []));
    OpenedIds(binding, s);
    var o := OpenedState(binding, s);
    assert forall k :: 0 <= k < |s.scopes| ==> t.scopes[k] == o.scopes[k] && o.scopes[k] == o.scopes[..|s.scopes|][k];
  }

  lemma ScopeArrived(binding: Option<Parameter>, inner: Part, s: State, t: State, D: iset<Run>, E: iset<Run>)
    requires Arrived(s, D) && Arrived(t, E) && Kept(Scope(binding, inner), s, ClosedTo(s, t))
    requires |t.scopes| == |s.scopes| + 1 && t.scopes[..|s.scopes|] == s.scopes
    ensures Arrived(ClosedTo(s, t), CloseAll(E))
  {
    hide Grows, Matches, Created, Fits, Distinct, MovedAt, HeldMoved, Closed, ClosedTo;
    var u := ClosedTo(s, t);
    var e0 :| e0 in E;
    assert Closed(e0) in CloseAll(E);
    forall e' | e' in CloseAll(E) ensures Matches(u, e') && Created(e') {
      var e :| e in E && e' == Closed(e);
      CloseMatches(s, t, e);
    }
    ClosedState(s, t);
    forall k, name | HeldMoved(u, k, name) ensures exists e' :: e' in CloseAll(E) && MovedAt(e', k, name) {
      ClosedHeld(s, t, k, name);
      var e :| e in E && MovedAt(e, k, name);
      CloseMoved(s, t, e, k, name);
      assert Closed(e) in CloseAll(E);
    }
  }

  lemma CloseMatches(s: State, t: State, e: Run)
    requires Matches(t, e) && Created(e) && |t.scopes| == |s.scopes| + 1 && t.scopes[..|s.scopes|] == s.scopes
    ensures Matches(ClosedTo(s, t), Closed(e)) && Created(Closed(e))
  {
    var n := |s.scopes|;
    assert forall k :: 0 <= k < n ==> s.scopes[k] == t.scopes[..n][k] && Closed(e).scopes[k] == e.scopes[..n][k];
  }

  lemma ClosedState(s: State, t: State)
    requires Open(s) && Fits(s) && Distinct(s) && Fits(t) && Grows(s, ClosedTo(s, t))
    ensures var u := ClosedTo(s, t); Open(u) && Fits(u) && Distinct(u)
  {
    hide Grows;
    GrowsNext(s, ClosedTo(s, t));
  }

  lemma ClosedHeld(s: State, t: State, k: int, name: string)
    requires HeldMoved(ClosedTo(s, t), k, name) && |t.scopes| == |s.scopes| + 1 && t.scopes[..|s.scopes|] == s.scopes
    ensures HeldMoved(t, k, name) && k < |s.scopes|
  {
    assert t.scopes[..|s.scopes|][k] == t.scopes[k];
  }

  lemma CloseMoved(s: State, t: State, e: Run, k: int, name: string)
    requires Matches(t, e) && MovedAt(e, k, name) && k < |s.scopes| && |t.scopes| == |s.scopes| + 1
    ensures MovedAt(Closed(e), k, name)
  {
  }

  lemma GrowsNext(s: State, u: State)
    requires Grows(s, u)
    ensures s.next <= u.next
  {
  }

  lemma ScopeComes(binding: Option<Parameter>, inner: Part, s: State, D: iset<Run>, E: iset<Run>)
    requires Valid(inner) && Arrived(s, D) && ComesFrom(inner, OpenAll(binding, D), E)
    ensures ComesFrom(Scope(binding, inner), D, CloseAll(E))
  {
    hide Goes, Opened, Closed, Fits, Distinct, Witnessed;
    forall e' | e' in CloseAll(E) ensures exists d, c :: d in D && Goes(Scope(binding, inner), d, c, e') {
      var e :| e in E && e' == Closed(e);
      var o, c :| o in OpenAll(binding, D) && Goes(inner, o, c, e);
      var d :| d in D && o == Opened(binding, d);
      assert d.scopes != [] by { assert Matches(s, d); }
      ScopeThrough(binding, inner, s, d, c, e);
    }
  }

  lemma ScopeNews(binding: Option<Parameter>, inner: Part, s: State, t: State, D: iset<Run>)
    requires Valid(inner) && (inner.Seq? || inner.Ex?) && Arrived(s, D)
    requires News(inner, OpenedState(binding, s), t, OpenAll(binding, D))
    ensures News(Scope(binding, inner), s, ClosedTo(s, t), D)
  {
    hide Goes, Opened, OpenedState, Closed, Fits, Distinct, Witnessed, Ids, MovedSince;
    var q, u, o' := Scope(binding, inner), ClosedTo(s, t), OpenedState(binding, s);
    OpenedScopes(binding, s, Run([], 0, []));
    forall k, name | 0 <= k < Outer(q, s) && HeldNew(s, u, k, name) ensures NewAt(q, D, k, name) {
      assert o'.scopes[k] == o'.scopes[..|s.scopes|][k];
      assert HeldNew(o', t, k, name);
      var o, c, e :| o in OpenAll(binding, D) && MovesOn(inner, o, c, e, k, name);
      var d :| d in D && o == Opened(binding, d);
      assert |d.scopes| == |s.scopes| by { assert Matches(s, d); }
      OpenedScopes(binding, s, d);
      ScopeThrough(binding, inner, s, d, c, e);
      assert o.scopes[k] == o.scopes[..|d.scopes|][k];
      assert MovesOn(q, d, c, Closed(e), k, name);
    }
  }
}
