/** The parts of a function body as one kind of thing, each with its check and its paths, and how parts are joined. */
module AffineParts {
  import opened Options
  import opened AffineSyntax
  import opened AffineCheck
  import opened AffinePaths
  import opened AffineTraces

  datatype Part =
    | Ex(e: Expr, ctx: Context)
    | Ops(e: Expr, i: nat)
    | St(stmt: Stmt)
    | Seq(block: seq<Stmt>)
    | Br(branch: If)
    | El(els: Else)
    | Rounds(loop: Stmt)                              // the iterations of a `for`
    | Touching(name: string, ctx: Context)
    | Declaring(name: string, ty: Ty, mutable: bool)
    | Nothing
    | Scope(binding: Option<Parameter>, inner: Part)  // a scope of its own, with at most one binding to start with

  predicate Valid(p: Part) {
    match p
    case Ops(e, i) => Strict(e) && i <= |StrictOperands(e)|
    case Rounds(loop) => loop.For?
    case Scope(_, inner) => Valid(inner)
    case _ => true
  }

  function Opened(binding: Option<Parameter>, d: Run): (r: Run)
    ensures r.scopes != []
  {
    if binding.Some? then Fresh(Enter(d), binding.value.name, binding.value.ty) else Enter(d)
  }

  function OpenedState(binding: Option<Parameter>, s: State): (r: State)
    ensures Open(r)
  {
    if binding.Some? then Declare(Push(s), binding.value.name, binding.value.ty, false).s else Push(s)
  }

  function RunPart(p: Part, d: Run, c: seq<nat>): Outcome
    requires Valid(p) && d.scopes != []
  {
    match p
    case Ex(e, ctx) => RunExpr(e, ctx, d, c)
    case Ops(e, i) => RunOperands(e, i, d, c)
    case St(stmt) => RunStmt(stmt, d, c)
    case Seq(block) => RunStmts(block, d, c)
    case Br(branch) => RunIf(branch, d, c)
    case El(els) => RunElse(els, d, c)
    case Rounds(loop) => RunFor(loop, d, c)
    case Touching(name, ctx) => Outcome(Touch(d, name, ctx), c, Normal)
    case Declaring(name, ty, _) => Outcome(Fresh(d, name, ty), c, Normal)
    case Nothing => Outcome(d, c, Normal)
    case Scope(binding, inner) => Leave(d, RunPart(inner, Opened(binding, d), c))
  }

  lemma OpenedLater(binding: Option<Parameter>, d: Run)
    ensures Later(Enter(d), Opened(binding, d))
  {
    Itself(Enter(d));
    if binding.Some? { FreshLater(Enter(d), binding.value.name, binding.value.ty); }
  }

  lemma {:induction false} PartLater(p: Part, d: Run, c: seq<nat>)
    requires Valid(p) && d.scopes != []
    ensures Later(d, RunPart(p, d, c).run)
  {
    hide Later, RunExpr, RunStmts, RunStmt, RunIf, RunFor;
    match p
    case Ex(e, ctx) => ExprLater(e, ctx, d, c);
    case Ops(e, i) => OperandsLater(e, i, d, c);
    case St(stmt) => StmtLater(stmt, d, c);
    case Seq(block) => StmtsLater(block, d, c);
    case Br(branch) => IfLater(branch, d, c);
    case El(els) => ElseLater(els, d, c);
    case Rounds(loop) => ForLater(loop, d, c);
    case Touching(name, ctx) => TouchLater(d, name, ctx);
    case Declaring(name, ty, _) => FreshLater(d, name, ty);
    case Nothing => Itself(d);
    case Scope(binding, inner) =>
      var o := Opened(binding, d);
      OpenedLater(binding, d);
      PartLater(inner, o, c);
      LaterStill(Enter(d), o, RunPart(inner, o, c).run);
      LeaveLater(d, RunPart(inner, o, c).run);
  }

  // ----- Going through a part

  /** With the choices `c`, and whatever follows them, the part takes `d` to `d'` and goes on normally. */
  ghost predicate Goes(p: Part, d: Run, c: seq<nat>, d': Run) {
    && Valid(p) && d.scopes != [] && Later(d, d')
    && forall x: seq<nat> :: RunPart(p, d, c + x) == Outcome(d', x, Normal)
  }

  lemma Going(p: Part, d: Run, c: seq<nat>, d': Run, x: seq<nat>)
    requires Goes(p, d, c, d')
    ensures Valid(p) && d.scopes != [] && d'.scopes != [] && Later(d, d') && RunPart(p, d, c + x) == Outcome(d', x, Normal)
  {
    hide RunPart;
  }

  lemma Gone(p: Part, d: Run, c: seq<nat>, d': Run)
    requires Valid(p) && d.scopes != [] && forall x: seq<nat> :: RunPart(p, d, c + x) == Outcome(d', x, Normal)
    ensures Goes(p, d, c, d')
  {
    hide RunPart, Later;
    assert RunPart(p, d, c + []) == Outcome(d', [], Normal);
    PartLater(p, d, c + []);
  }

  /** From every state there is a way through. */
  ghost predicate Passable(p: Part) {
    forall d: Run :: d.scopes != [] ==> exists c, d' :: Goes(p, d, c, d')
  }

  /** `q` begins with `p`, and with the choices `g` goes on with `p'`. */
  ghost predicate Joins(q: Part, p: Part, g: seq<nat>, p': Part) {
    Valid(q) && Valid(p) && Valid(p') && GoesOn(q, p, g, p') && TracesOn(q, p, g, p') && BeginsWith(q, p)
  }

  ghost predicate GoesOn(q: Part, p: Part, g: seq<nat>, p': Part) {
    forall d, c, e, c', e' :: Goes(p, d, c, e) && Goes(p', e, c', e') ==> Goes(q, d, c + g + c', e')
  }

  ghost predicate TracesOn(q: Part, p: Part, g: seq<nat>, p': Part)
    requires Valid(q) && Valid(p) && Valid(p')
  {
    forall d, c, e, c' :: Goes(p, d, c, e) && d.scopes != [] && e.scopes != [] ==>
      RunPart(q, d, c + g + c').run.trace == RunPart(p', e, c').run.trace
  }

  ghost predicate BeginsWith(q: Part, p: Part)
    requires Valid(q) && Valid(p)
  {
    forall d: Run, c :: d.scopes != [] ==> RunPart(p, d, c).run.trace <= RunPart(q, d, c).run.trace
  }

  /** After `p`, the choice `g` continues with `p'`. */
  ghost predicate ChoosesAfter(q: Part, p: Part, g: nat, p': Part) {
    Valid(q) && Valid(p) && Valid(p') && forall d: Run, c :: d.scopes != [] ==> ChoosesAt(q, p, g, p', d, c)
  }

  ghost predicate ChoosesAt(q: Part, p: Part, g: nat, p': Part, d: Run, c: seq<nat>)
    requires Valid(q) && Valid(p) && Valid(p') && d.scopes != []
  {
    var r := RunPart(p, d, c);
    && r.run.trace <= RunPart(q, d, c).run.trace
    && (!Stops(r) && r.choices[0] == g && r.run.scopes != [] ==> RunPart(q, d, c) == RunPart(p', r.run, r.choices[1..]))
  }

  lemma ChoiceRuns(q: Part, p: Part, g: nat, p': Part, d: Run, c: seq<nat>, e: Run, c': seq<nat>)
    requires ChoosesAfter(q, p, g, p') && Goes(p, d, c, e)
    ensures d.scopes != [] && e.scopes != [] && RunPart(q, d, c + ([g] + c')) == RunPart(p', e, c')
  {
    hide RunPart, Goes, Later;
    Going(p, d, c, e, [g] + c');
    assert ([g] + c')[1..] == c';
    assert RunPart(p, d, c + ([g] + c')) == Outcome(e, [g] + c', Normal);
    assert ChoosesAt(q, p, g, p', d, c + ([g] + c'));
  }

  lemma ChoiceGoes(q: Part, p: Part, g: nat, p': Part, d: Run, c: seq<nat>, e: Run, c': seq<nat>, e': Run)
    requires ChoosesAfter(q, p, g, p') && Goes(p, d, c, e) && Goes(p', e, c', e')
    ensures Goes(q, d, c + [g] + c', e')
  {
    hide RunPart, Goes, Later, ChoosesAfter;
    ChoiceRuns(q, p, g, p', d, c, e, c');
    ValidOf(q, p, g, p');
    forall x: seq<nat> ensures RunPart(q, d, c + [g] + c' + x) == Outcome(e', x, Normal) {
      Glue(c, [g], c', x);
      ChoiceRuns(q, p, g, p', d, c, e, c' + x);
      Going(p', e, c', e', x);
    }
    Gone(q, d, c + [g] + c', e');
  }

  lemma ValidOf(q: Part, p: Part, g: nat, p': Part)
    requires ChoosesAfter(q, p, g, p')
    ensures Valid(q) && Valid(p) && Valid(p') && BeginsWith(q, p)
  {
    hide RunPart;
    forall d: Run, c | d.scopes != [] ensures RunPart(p, d, c).run.trace <= RunPart(q, d, c).run.trace {
      assert ChoosesAt(q, p, g, p', d, c);
    }
  }

  lemma ChoiceJoins(q: Part, p: Part, g: nat, p': Part)
    requires ChoosesAfter(q, p, g, p')
    ensures Joins(q, p, [g], p')
  {
    hide RunPart, Goes, ChoosesAfter, GoesOn, TracesOn, BeginsWith;
    ValidOf(q, p, g, p');
    ChoiceTracesOn(q, p, g, p');
    ChoiceGoesOn(q, p, g, p');
  }

  lemma ChoiceTracesOn(q: Part, p: Part, g: nat, p': Part)
    requires Valid(q) && Valid(p) && Valid(p') && ChoosesAfter(q, p, g, p')
    ensures TracesOn(q, p, [g], p')
  {
    hide RunPart, Goes, Later, ChoosesAfter;
    forall d, c, e, c' | Goes(p, d, c, e) && d.scopes != [] && e.scopes != []
      ensures RunPart(q, d, c + [g] + c').run.trace == RunPart(p', e, c').run.trace
    {
      Glue(c, [g], c', []);
      ChoiceRuns(q, p, g, p', d, c, e, c');
    }
  }

  lemma ChoiceGoesOn(q: Part, p: Part, g: nat, p': Part)
    requires ChoosesAfter(q, p, g, p')
    ensures GoesOn(q, p, [g], p')
  {
    hide Goes, ChoosesAfter;
    forall d, c, e, c', e' | Goes(p, d, c, e) && Goes(p', e, c', e') ensures Goes(q, d, c + [g] + c', e') {
      ChoiceGoes(q, p, g, p', d, c, e, c', e');
    }
  }

  lemma Glue(a: seq<nat>, g: seq<nat>, b: seq<nat>, x: seq<nat>)
    ensures a + g + b + x == a + (g + (b + x)) && a + g + b == a + (g + b)
    ensures g == [] ==> a + g + b + x == a + (b + x) && a + g + b == a + b
  {
  }

  /** `q` is `p` and then, without a choice, `p'`. */
  ghost predicate FollowedBy(q: Part, p: Part, p': Part) {
    Valid(q) && Valid(p) && Valid(p') && forall d: Run, c :: d.scopes != [] ==> FollowsAt(q, p, p', d, c)
  }

  ghost predicate FollowsAt(q: Part, p: Part, p': Part, d: Run, c: seq<nat>)
    requires Valid(q) && Valid(p) && Valid(p') && d.scopes != []
  {
    var r := RunPart(p, d, c);
    && r.run.trace <= RunPart(q, d, c).run.trace
    && (r.flow == Normal && r.run.scopes != [] ==> RunPart(q, d, c) == RunPart(p', r.run, r.choices))
  }

  lemma FollowingRuns(q: Part, p: Part, p': Part, d: Run, c: seq<nat>, e: Run, c': seq<nat>)
    requires FollowedBy(q, p, p') && Goes(p, d, c, e)
    ensures d.scopes != [] && e.scopes != [] && RunPart(q, d, c + c') == RunPart(p', e, c')
  {
    hide RunPart, Goes, Later;
    Going(p, d, c, e, c');
    assert FollowsAt(q, p, p', d, c + c');
  }

  lemma FollowingGoes(q: Part, p: Part, p': Part, d: Run, c: seq<nat>, e: Run, c': seq<nat>, e': Run)
    requires FollowedBy(q, p, p') && Goes(p, d, c, e) && Goes(p', e, c', e')
    ensures Goes(q, d, c + [] + c', e')
  {
    hide RunPart, Goes, Later, FollowedBy;
    FollowingRuns(q, p, p', d, c, e, c');
    ValidBoth(q, p, p');
    forall x: seq<nat> ensures RunPart(q, d, c + [] + c' + x) == Outcome(e', x, Normal) {
      Glue(c, [], c', x);
      FollowingRuns(q, p, p', d, c, e, c' + x);
      Going(p', e, c', e', x);
    }
    Gone(q, d, c + [] + c', e');
  }

  lemma ValidBoth(q: Part, p: Part, p': Part)
    requires FollowedBy(q, p, p')
    ensures Valid(q) && Valid(p) && Valid(p') && BeginsWith(q, p)
  {
    hide RunPart;
    forall d: Run, c | d.scopes != [] ensures RunPart(p, d, c).run.trace <= RunPart(q, d, c).run.trace {
      assert FollowsAt(q, p, p', d, c);
    }
  }

  lemma FollowingJoins(q: Part, p: Part, p': Part)
    requires FollowedBy(q, p, p')
    ensures Joins(q, p, [], p')
  {
    hide RunPart, Goes, FollowedBy, GoesOn, TracesOn, BeginsWith;
    ValidBoth(q, p, p');
    FollowingTracesOn(q, p, p');
    FollowingGoesOn(q, p, p');
  }

  lemma FollowingTracesOn(q: Part, p: Part, p': Part)
    requires Valid(q) && Valid(p) && Valid(p') && FollowedBy(q, p, p')
    ensures TracesOn(q, p, [], p')
  {
    hide RunPart, Goes, Later, FollowedBy;
    forall d, c, e, c' | Goes(p, d, c, e) && d.scopes != [] && e.scopes != []
      ensures RunPart(q, d, c + [] + c').run.trace == RunPart(p', e, c').run.trace
    {
      Glue(c, [], c', []);
      FollowingRuns(q, p, p', d, c, e, c');
    }
  }

  lemma FollowingGoesOn(q: Part, p: Part, p': Part)
    requires FollowedBy(q, p, p')
    ensures GoesOn(q, p, [], p')
  {
    hide Goes, FollowedBy;
    forall d, c, e, c', e' | Goes(p, d, c, e) && Goes(p', e, c', e') ensures Goes(q, d, c + [] + c', e') {
      FollowingGoes(q, p, p', d, c, e, c', e');
    }
  }

  lemma PassBoth(q: Part, p: Part, g: seq<nat>, p': Part)
    requires Joins(q, p, g, p') && Passable(p) && Passable(p')
    ensures Passable(q)
  {
    hide RunPart, Goes, TracesOn, BeginsWith;
    forall d: Run | d.scopes != [] ensures exists c, d' :: Goes(q, d, c, d') {
      var c, e :| Goes(p, d, c, e);
      Going(p, d, c, e, []);
      var c', e' :| Goes(p', e, c', e');
      assert Goes(q, d, c + g + c', e');
    }
  }

  lemma PassScope(binding: Option<Parameter>, inner: Part)
    requires Valid(inner) && Passable(inner)
    ensures Passable(Scope(binding, inner))
  {
    hide Goes, Later, RunPart;
    forall d: Run | d.scopes != [] ensures exists c, d' :: Goes(Scope(binding, inner), d, c, d') {
      assert Opened(binding, d).scopes != [];
      var c, e :| Goes(inner, Opened(binding, d), c, e);
      ScopeGoes(binding, inner, d, c, e);
    }
  }

  lemma ScopeGoes(binding: Option<Parameter>, inner: Part, d: Run, c: seq<nat>, e: Run)
    requires Valid(inner) && d.scopes != [] && Goes(inner, Opened(binding, d), c, e)
    ensures Goes(Scope(binding, inner), d, c, e.(scopes := d.scopes))
  {
    hide Goes, Later, Opened;
    var q := Scope(binding, inner);
    forall x: seq<nat> ensures RunPart(q, d, c + x) == Outcome(e.(scopes := d.scopes), x, Normal) {
      Going(inner, Opened(binding, d), c, e, x);
    }
    Gone(q, d, c, e.(scopes := d.scopes));
  }

  lemma SimpleGoes(p: Part, d: Run)
    requires (p.Touching? || p.Declaring? || p.Nothing?) && d.scopes != []
    ensures Goes(p, d, [], RunPart(p, d, []).run)
  {
    hide Later;
    forall x: seq<nat> ensures RunPart(p, d, [] + x) == Outcome(RunPart(p, d, []).run, x, Normal) { assert [] + x == x; }
    Gone(p, d, [], RunPart(p, d, []).run);
  }

  lemma PassSimple(p: Part)
    requires p.Touching? || p.Declaring? || p.Nothing?
    ensures Passable(p)
  {
    hide Goes, RunPart;
    forall d: Run | d.scopes != [] ensures exists c, d' :: Goes(p, d, c, d') { SimpleGoes(p, d); }
  }
}
