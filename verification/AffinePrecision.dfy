/** The ownership pass is exact on code without early exits: what it rejects for a move has an unsafe path. */
module AffinePrecision {
  import opened Options
  import opened AffineSyntax
  import opened AffineCheck
  import opened AffinePaths
  import opened AffineSoundness
  import opened AffineTraces
  import opened AffineParts
  import opened AffineJoins
  import opened AffinePlain
  import opened AffineWitness
  import opened AffineSteps
  import opened AffineLoops
  import opened AffineMutability

  /** Realised, and moving loop conditions punished. */
  ghost predicate Exact(p: Part, s: State, v: Verdict, D: iset<Run>, D': iset<Run>) {
    Realised(p, s, v, D, D') && Noisy(p, s, v, D)
  }

  lemma ExactArrived(p: Part, s: State, t: State, D: iset<Run>, D': iset<Run>)
    requires Exact(p, s, Ok(t), D, D')
    ensures Arrived(t, D') && Kept(p, s, t) && |t.scopes| == |s.scopes|
  {
    hide Arrived, ComesFrom, News, Grows;
  }

  ghost predicate Bodyless(p: Part) {
    !p.Seq? && !p.St? && !p.Declaring?
  }

  /** One exact part after another, where neither rebinds a name that outlives it. */
  lemma Then(q: Part, p: Part, g: seq<nat>, p': Part, s: State, s1: State, v: Verdict, D: iset<Run>, D1: iset<Run>, D2: iset<Run>)
    requires Joins(q, p, g, p') && Passable(p') && Arrived(s, D)
    requires Exact(p, s, Ok(s1), D, D1) && Exact(p', s1, v, D1, D2)
    requires !Bodyless(q) || (Bodyless(p) && Bodyless(p'))
    ensures Exact(q, s, v, D, D2)
  {
    hide Joins, Passable, Arrived, ComesFrom, News, Grows, Unsafe, Kept;
    ExactArrived(p, s, s1, D, D1);
    ValidJoins(q, p, g, p');
    if Bodyless(q) { ScopesKept(p); }
    Compose(q, p, g, p', s, s1, v, D, D1, D2);
    ComposeNoise(q, p, g, p', s, s1, v, D, D1);
  }

  lemma First(q: Part, p: Part, g: seq<nat>, p': Part, s: State, v: Verdict, D: iset<Run>, D1: iset<Run>)
    requires Joins(q, p, g, p') && v.Error? && Exact(p, s, v, D, D1)
    ensures Exact(q, s, v, D, D1)
  {
    hide Joins, Unsafe;
    ComposeError(q, p, g, p', s, v, D, D1);
  }

  lemma Same(q: Part, p: Part, s: State, v: Verdict, D: iset<Run>, D1: iset<Run>)
    requires Joins(q, p, [], Nothing) && Arrived(s, D) && Exact(p, s, v, D, D1) && (Bodyless(q) ==> Bodyless(p))
    ensures Exact(q, s, v, D, D1)
  {
    hide Joins, Arrived, Realised, Noisy;
    if v.Error? {
      First(q, p, [], Nothing, s, v, D, D1);
    } else {
      ExactArrived(p, s, v.s, D, D1);
      PassSimple(Nothing);
      NothingRealised(v.s, D1);
      Then(q, p, [], Nothing, s, v.s, v, D, D1, D1);
    }
  }

  // ----- Expressions

  lemma {:induction false} ExprPrecise(e: Expr, ctx: Context, s: State, D: iset<Run>) returns (D': iset<Run>)
    requires PlainExpr(e) && Arrived(s, D)
    ensures Exact(Ex(e, ctx), s, CheckExpr(e, ctx, s), D, D')
    decreases e, 3
  {
    hide Exact, Joins, Arrived, Passable, UseName, MovesOwner;
    match e
    case Literal(_) =>
      D' := D;
      ExactNothing(s, D);
      LiteralSame(e, ctx);
      Same(Ex(e, ctx), Nothing, s, Ok(s), D, D);
    case Identifier(name, _) =>
      D' := TouchAll(D, name, ctx);
      ExactTouch(name, ctx, s, D);
      IdentifierSame(e, ctx);
      Same(Ex(e, ctx), Touching(name, ctx), s, UseName(s, name, ctx), D, D');
    case Member(obj, _) => D' := MemberPrecise(e, ctx, s, D);
    case Binary(left, right, _) =>
      BinaryJoins(e, ctx);
      D' := TwoPrecise(e, ctx, left, BORROW, right, BORROW, s, D);
    case OrElse(value, fallback, _) =>
      OrElseJoins(e, ctx);
      D' := TwoPrecise(e, ctx, value, Transfer(ctx, value), fallback, Transfer(ctx, fallback), s, D);
    case OrReturn(_, _, _) => D' := D;
    case OrBlock(_, _, _) => D' := OrBlockPrecise(e, ctx, s, D);
    case Match(_, _, _) => D' := MatchPrecise(e, ctx, s, D);
    case _ =>
      D' := OperandsPrecise(e, 0, s, D);
      StrictSame(e, ctx);
      Same(Ex(e, ctx), Ops(e, 0), s, CheckOperands(e, 0, s), D, D');
  }

  lemma ExactNothing(s: State, D: iset<Run>)
    requires Arrived(s, D)
    ensures Exact(Nothing, s, Ok(s), D, D)
  {
    hide Arrived, Realised, Noisy;
    NothingRealised(s, D);
  }

  lemma ExactTouch(name: string, ctx: Context, s: State, D: iset<Run>)
    requires Arrived(s, D)
    ensures Exact(Touching(name, ctx), s, UseName(s, name, ctx), D, TouchAll(D, name, ctx))
  {
    hide Arrived, Realised, Noisy, UseName;
    TouchRealised(name, ctx, s, D);
  }

  lemma {:induction false} MemberPrecise(e: Expr, ctx: Context, s: State, D: iset<Run>) returns (D': iset<Run>)
    requires e.Member? && PlainExpr(e) && Arrived(s, D)
    ensures Exact(Ex(e, ctx), s, CheckExpr(e, ctx, s), D, D')
    decreases e, 2
  {
    hide Exact, Joins, Arrived, Passable, UseName;
    MemberJoins(e, ctx);
    var p := Ex(e.obj, BORROW);
    var v := CheckExpr(e.obj, BORROW, s);
    D' := ExprPrecise(e.obj, BORROW, s, D);
    if MovesOwner(e, ctx) && Root(e.obj).Some? {
      var name := Root(e.obj).value;
      if v.Error? {
        First(Ex(e, ctx), p, [], Touching(name, MOVE), s, v, D, D');
      } else {
        var D1 := D';
        ExactArrived(p, s, v.s, D, D1);
        ExactTouch(name, MOVE, v.s, D1);
        PassSimple(Touching(name, MOVE));
        D' := TouchAll(D1, name, MOVE);
        Then(Ex(e, ctx), p, [], Touching(name, MOVE), s, v.s, UseName(v.s, name, MOVE), D, D1, D');
      }
    } else {
      Same(Ex(e, ctx), p, s, v, D, D');
    }
  }

  lemma {:induction false} TwoPrecise(e: Expr, ctx: Context, a: Expr, actx: Context, b: Expr, bctx: Context, s: State, D: iset<Run>)
    returns (D': iset<Run>)
    requires a < e && b < e && PlainExpr(a) && PlainExpr(b) && Arrived(s, D)
    requires Joins(Ex(e, ctx), Ex(a, actx), [1], Ex(b, bctx))
    ensures var v := CheckExpr(a, actx, s); Exact(Ex(e, ctx), s, if v.Error? then v else CheckExpr(b, bctx, v.s), D, D')
    decreases e, 2
  {
    hide Exact, Joins, Arrived, Passable, CheckExpr;
    D' := ExprPrecise(a, actx, s, D);
    var v := CheckExpr(a, actx, s);
    if v.Error? {
      First(Ex(e, ctx), Ex(a, actx), [1], Ex(b, bctx), s, v, D, D');
    } else {
      var D1 := D';
      ExactArrived(Ex(a, actx), s, v.s, D, D1);
      D' := ExprPrecise(b, bctx, v.s, D1);
      ExprPasses(b, bctx);
      Then(Ex(e, ctx), Ex(a, actx), [1], Ex(b, bctx), s, v.s, CheckExpr(b, bctx, v.s), D, D1, D');
    }
  }

  lemma {:induction false} OrBlockPrecise(e: Expr, ctx: Context, s: State, D: iset<Run>) returns (D': iset<Run>)
    requires e.OrBlock? && PlainExpr(e) && Arrived(s, D)
    ensures Exact(Ex(e, ctx), s, CheckExpr(e, ctx, s), D, D')
    decreases e, 2
  {
    hide Exact, Joins, Arrived, Passable, CheckBlock;
    OrBlockJoins(e, ctx);
    var p, p' := Ex(e.value, Transfer(ctx, e.value)), Block(e.handler);
    var v := CheckExpr(e.value, Transfer(ctx, e.value), s);
    D' := ExprPrecise(e.value, Transfer(ctx, e.value), s, D);
    if v.Error? {
      First(Ex(e, ctx), p, [1], p', s, v, D, D');
    } else {
      var D1 := D';
      ExactArrived(p, s, v.s, D, D1);
      D' := BlockPrecise(e.handler, v.s, D1);
      BlockPasses(e.handler);
      Then(Ex(e, ctx), p, [1], p', s, v.s, CheckBlock(e.handler, v.s), D, D1, D');
    }
  }

  lemma {:induction false} OperandsPrecise(e: Expr, i: nat, s: State, D: iset<Run>) returns (D': iset<Run>)
    requires Strict(e) && PlainOperands(e) && i <= |StrictOperands(e)| && Arrived(s, D)
    ensures Exact(Ops(e, i), s, CheckOperands(e, i, s), D, D')
    decreases e, 1, |StrictOperands(e)| - i
  {
    hide Exact, Joins, Arrived, Passable, CheckExpr;
    if i == |StrictOperands(e)| {
      D' := D;
      ExactNothing(s, D);
      OperandsDone(e);
      Same(Ops(e, i), Nothing, s, Ok(s), D, D);
    } else {
      var o := StrictOperands(e)[i];
      var p, p' := Ex(o.expr, o.ctx), Ops(e, i + 1);
      OperandJoins(e, i);
      D' := ExprPrecise(o.expr, o.ctx, s, D);
      var v := CheckExpr(o.expr, o.ctx, s);
      if v.Error? {
        First(Ops(e, i), p, [], p', s, v, D, D');
      } else {
        var D1 := D';
        ExactArrived(p, s, v.s, D, D1);
        D' := OperandsPrecise(e, i + 1, v.s, D1);
        OperandsPass(e, i + 1);
        Then(Ops(e, i), p, [], p', s, v.s, CheckOperands(e, i + 1, v.s), D, D1, D');
      }
    }
  }

  // ----- Scopes

  lemma ScopeExact(binding: Option<Parameter>, inner: Part, s: State, v: Verdict, D: iset<Run>, E: iset<Run>)
    requires Valid(inner) && (inner.Seq? || inner.Ex?) && Arrived(s, D)
    requires Exact(inner, OpenedState(binding, s), v, OpenAll(binding, D), E)
    ensures Exact(Scope(binding, inner), s, ClosedVerdict(s, v), D, CloseAll(E))
  {
    hide Arrived, Realised, Noisy;
    ScopeRealised(binding, inner, s, v, D, E);
  }

  /** The same runs realise a state with the same bindings that holds no more of them moved. */
  lemma Fewer(p: Part, s: State, t: State, u: State, D: iset<Run>, D': iset<Run>)
    requires Exact(p, s, Ok(t), D, D') && Bodyless(p)
    requires u.scopes == t.scopes == s.scopes && u.quiet == t.quiet && Fits(u) && Grows(s, u)
    requires forall id :: id in u.moved && id in Ids(u.scopes) ==> id in t.moved
    ensures Exact(p, s, Ok(u), D, D')
  {
    hide Arrived, ComesFrom, News, Grows, Unsafe, Fits, Ids;
    Merge(p, s, u, t, t, D, D', D');
    assert D' + D' == D';
  }

  lemma {:induction false} BlockPrecise(block: seq<Stmt>, s: State, D: iset<Run>) returns (D': iset<Run>)
    requires PlainStmts(block) && Arrived(s, D)
    ensures Exact(Block(block), s, CheckBlock(block, s), D, D')
    decreases block, 3
  {
    hide Exact, Arrived, CheckStmts, Fits, Grows, Ids;
    OpenArrived(None, s, D);
    ArrivedState(s, D);
    var E := StmtsPrecise(block, Push(s), OpenAll(None, D));
    var v := CheckStmts(block, Push(s));
    ScopeExact(None, Seq(block), s, v, D, E);
    D' := CloseAll(E);
    if v.Ok? {
      BlockGrows(block, s);
      PopFewer(s, v.s);
      Fewer(Block(block), s, ClosedTo(s, v.s), CheckBlock(block, s).s, D, D');
    }
  }

  lemma PopFewer(s: State, t: State)
    requires |t.scopes| == |s.scopes| + 1 && SameOuter(Push(s), t)
    ensures Pop(s, t).scopes == s.scopes && Pop(s, t).moved <= t.moved && Pop(s, t).quiet == t.quiet
  {
  }

  // ----- `match`

  lemma {:induction false} ArmPrecise(arm: Arm, ctx: Context, s: State, D: iset<Run>) returns (D': iset<Run>)
    requires PlainArm(arm) && Arrived(s, D)
    ensures Exact(ArmPart(arm, ctx), s, ClosedVerdict(s, CheckArm(arm, ctx, Push(s))), D, D')
    decreases arm, 3
  {
    hide Exact, Arrived, CheckStmts, CheckExpr;
    var binding := ArmPart(arm, ctx).binding;
    OpenArrived(binding, s, D);
    var E: iset<Run>;
    match arm {
      case ArmBlock(_, block) => E := StmtsPrecise(block, OpenedState(binding, s), OpenAll(binding, D));
      case ArmExpr(_, body) => E := ExprPrecise(body, Transfer(ctx, body), OpenedState(binding, s), OpenAll(binding, D));
    }
    ScopeExact(binding, ArmPart(arm, ctx).inner, s, CheckArm(arm, ctx, Push(s)), D, E);
    D' := CloseAll(E);
  }

  /** Checking again from the same bindings, with what is already known about the whole. */
  lemma Again(q: Part, p: Part, g: seq<nat>, p': Part, s: State, b: State, n: nat, quiet: bool, v: Verdict, D: iset<Run>, D1: iset<Run>, D2: iset<Run>)
    requires Joins(q, p, g, p') && Passable(p') && Arrived(s, D) && Bodyless(q) && Bodyless(p) && Bodyless(p')
    requires Exact(p, s, Ok(b), D, D1) && b.next <= n && (quiet ==> b.quiet)
    requires s.quiet && !quiet ==> Unsafe(q, D)
    requires Exact(p', b.(next := n, quiet := quiet), v, D1, D2)
    ensures Exact(q, s, v, D, D2)
  {
    hide Joins, Passable, Arrived, ComesFrom, News, Grows, Unsafe;
    var b' := b.(next := n, quiet := quiet);
    Rebased(p, s, b, n, quiet, D, D1);
    ValidJoins(q, p, g, p');
    ScopesKept(p);
    Compose(q, p, g, p', s, b', v, D, D1, D2);
    if v.Ok? && s.quiet && !v.s.quiet && quiet { UnsafeSecond(q, p, g, p', D, D1); }
  }

  lemma RebasedArrived(p: Part, s: State, t: State, n: nat, quiet: bool, D: iset<Run>, D': iset<Run>)
    requires Exact(p, s, Ok(t), D, D') && t.next <= n && (quiet ==> t.quiet)
    ensures Arrived(t.(next := n, quiet := quiet), D')
  {
    hide Arrived, ComesFrom, News, Grows, Unsafe;
    Rebased(p, s, t, n, quiet, D, D');
  }

  lemma {:induction false} MatchPrecise(e: Expr, ctx: Context, s: State, D: iset<Run>) returns (D': iset<Run>)
    requires e.Match? && PlainExpr(e) && Arrived(s, D)
    ensures Exact(Ex(e, ctx), s, CheckExpr(e, ctx, s), D, D')
    decreases e, 2
  {
    hide Exact, Joins, Arrived, Passable, CheckArms, Fits, Grows;
    var p := Ex(e.value, BORROW);
    D' := ExprPrecise(e.value, BORROW, s, D);
    var v := CheckExpr(e.value, BORROW, s);
    MatchJoins(e, ctx, 0);
    if v.Error? {
      First(Ex(e, ctx), p, [0], ArmPart(e.arms[0], ctx), s, v, D, D');
    } else {
      var D1 := D';
      ExactArrived(p, s, v.s, D, D1);
      ArrivedState(v.s, D1);
      GrowsItself(v.s);
      D' := ArmsPrecise(e, ctx, s, D, D1, v.s, 0, v.s, D1);
      assert e.arms[0..] == e.arms;
    }
  }

  lemma {:induction false} ArmsPrecise(e: Expr, ctx: Context, s: State, D: iset<Run>, D1: iset<Run>, b: State, i: nat, joined: State, acc: iset<Run>)
    returns (D': iset<Run>)
    requires e.Match? && PlainExpr(e) && Arrived(s, D) && Exact(Ex(e.value, BORROW), s, Ok(b), D, D1)
    requires i <= |e.arms| && joined.scopes == b.scopes == s.scopes && Fits(b) && Fits(joined) && Grows(b, joined)
    requires if i == 0 then joined == b else Exact(Ex(e, ctx), s, Ok(joined), D, acc)
    ensures Exact(Ex(e, ctx), s, CheckArms(e.arms[i..], ctx, b, joined), D, D')
    decreases e, 1, |e.arms| - i
  {
    hide Exact, Joins, Arrived, Passable, CheckArm, Fits, Grows, Unsafe, Ids;
    D' := acc;
    if i < |e.arms| {
      var arm := e.arms[i];
      assert e.arms[i..][0] == arm && e.arms[i..][1..] == e.arms[i + 1..];
      var v := CheckArm(arm, ctx, ArmStart(b, joined));
      var E := OneArm(e, ctx, s, D, D1, b, i, joined, acc);
      if v.Error? {
        D' := E;
      } else {
        var more := ArmJoin(b, joined, v.s);
        StepGrows(arm, ctx, b, joined);
        GrowsTransitive(b, joined, more);
        ExactArrived(Ex(e.value, BORROW), s, b, D, D1);
        GrowsTransitive(s, b, more);
        JoinArms(e, ctx, s, D, b, i, joined, acc, v.s, E);
        D' := ArmsPrecise(e, ctx, s, D, D1, b, i + 1, more, if i == 0 then E else E + acc);
      }
    }
  }

  lemma StepGrows(arm: Arm, ctx: Context, b: State, joined: State)
    requires joined.scopes == b.scopes && Fits(b) && Fits(joined) && Grows(b, joined) && CheckArm(arm, ctx, ArmStart(b, joined)).Ok?
    ensures var more := ArmJoin(b, joined, CheckArm(arm, ctx, ArmStart(b, joined)).s); Fits(more) && Grows(joined, more)
    ensures var a := CheckArm(arm, ctx, ArmStart(b, joined)).s; b.moved <= a.moved && (a.quiet ==> joined.quiet)
  {
    hide CheckArm;
    assert [arm][1..] == [];
    ArmsGrow([arm], ctx, b, joined);
    ArmGrows(arm, ctx, ArmStart(b, joined));
  }

  /** Arm `i` by itself, from the state after the subject. */
  lemma {:induction false} OneArm(e: Expr, ctx: Context, s: State, D: iset<Run>, D1: iset<Run>, b: State, i: nat, joined: State, acc: iset<Run>)
    returns (E: iset<Run>)
    requires e.Match? && PlainExpr(e) && Arrived(s, D) && Exact(Ex(e.value, BORROW), s, Ok(b), D, D1)
    requires i < |e.arms| && joined.scopes == b.scopes && Grows(b, joined)
    requires if i == 0 then joined == b else Exact(Ex(e, ctx), s, Ok(joined), D, acc)
    ensures Exact(Ex(e, ctx), s, ClosedVerdict(b, CheckArm(e.arms[i], ctx, ArmStart(b, joined))), D, E)
    decreases e, 0
  {
    hide Joins, Arrived, Passable, CheckArm, Unsafe, Realised;
    var arm, p := e.arms[i], Ex(e.value, BORROW);
    var b' := b.(next := joined.next, quiet := joined.quiet);
    MatchJoins(e, ctx, i);
    RebasedArrived(p, s, b, joined.next, joined.quiet, D, D1);
    E := ArmPrecise(arm, ctx, b', D1);
    ArmPasses(arm, ctx);
    if i == 0 && s.quiet && !b.quiet { UnsafeFirst(Ex(e, ctx), p, [i], ArmPart(arm, ctx), D); }
    SameClosed(b, b', CheckArm(arm, ctx, ArmStart(b, joined)));
    Again(Ex(e, ctx), p, [i], ArmPart(arm, ctx), s, b, joined.next, joined.quiet, ClosedVerdict(b', CheckArm(arm, ctx, Push(b'))), D, D1, E);
  }

  lemma SameClosed(b: State, b': State, v: Verdict)
    requires b.scopes == b'.scopes
    ensures ClosedVerdict(b, v) == ClosedVerdict(b', v)
  {
  }

  /** What the arms so far and one more have moved. */
  lemma JoinArms(e: Expr, ctx: Context, s: State, D: iset<Run>, b: State, i: nat, joined: State, acc: iset<Run>, a: State, E: iset<Run>)
    requires Exact(Ex(e, ctx), s, Ok(ClosedTo(b, a)), D, E) && joined.scopes == b.scopes == s.scopes
    requires if i == 0 then joined == b && Grows(s, b) && b.moved <= a.moved else Exact(Ex(e, ctx), s, Ok(joined), D, acc)
    requires var more := ArmJoin(b, joined, a); Fits(more) && Grows(s, more)
    requires a.quiet ==> joined.quiet
    ensures Exact(Ex(e, ctx), s, Ok(ArmJoin(b, joined, a)), D, if i == 0 then E else E + acc)
  {
    hide Arrived, ComesFrom, News, Unsafe, Fits, Grows;
    var more := ArmJoin(b, joined, a);
    if i == 0 {
      Fewer(Ex(e, ctx), s, ClosedTo(b, a), more, D, E);
    } else {
      Merge(Ex(e, ctx), s, more, ClosedTo(b, a), joined, D, E, acc);
    }
  }

  // ----- Statements

  lemma {:induction false} StmtsPrecise(block: seq<Stmt>, s: State, D: iset<Run>) returns (D': iset<Run>)
    requires PlainStmts(block) && Arrived(s, D)
    ensures Open(s) && Exact(Seq(block), s, CheckStmts(block, s), D, D')
    decreases block, 2
  {
    hide Exact, Joins, Arrived, Passable, CheckStmt;
    ArrivedState(s, D);
    if block == [] {
      D' := D;
      ExactNothing(s, D);
      NoStatements();
      Same(Seq([]), Nothing, s, Ok(s), D, D);
    } else {
      var p, p' := St(block[0]), Seq(block[1..]);
      StatementJoins(block);
      D' := StmtPrecise(block[0], s, D);
      var v := CheckStmt(block[0], s);
      if v.Error? {
        First(Seq(block), p, [], p', s, v, D, D');
      } else {
        var D1 := D';
        ExactArrived(p, s, v.s, D, D1);
        D' := StmtsPrecise(block[1..], v.s, D1);
        StmtsPass(block[1..]);
        Then(Seq(block), p, [], p', s, v.s, CheckStmts(block[1..], v.s), D, D1, D');
      }
    }
  }

  lemma {:induction false} StmtPrecise(stmt: Stmt, s: State, D: iset<Run>) returns (D': iset<Run>)
    requires PlainStmt(stmt) && Arrived(s, D)
    ensures Open(s) && Exact(St(stmt), s, CheckStmt(stmt, s), D, D')
    decreases stmt, 3
  {
    hide Exact, Joins, Arrived, Passable, CheckExpr, CheckIf;
    ArrivedState(s, D);
    StatementSame(stmt);
    match stmt
    case Let(_, _, _) => D' := LetPrecise(stmt, s, D);
    case ExprStmt(expr) =>
      D' := ExprPrecise(expr, BORROW, s, D);
      Same(St(stmt), Ex(expr, BORROW), s, CheckExpr(expr, BORROW, s), D, D');
    case IfStmt(branch) =>
      D' := IfPrecise(branch, s, D);
      Same(St(stmt), Br(branch), s, CheckIf(branch, s), D, D');
    case While(_, _) => D' := WhilePrecise(stmt, s, D);
    case For(_, _, _) => D' := ForPrecise(stmt, s, D);
  }

  lemma {:induction false} LetPrecise(stmt: Stmt, s: State, D: iset<Run>) returns (D': iset<Run>)
    requires stmt.Let? && PlainStmt(stmt) && Arrived(s, D) && Open(s)
    ensures Exact(St(stmt), s, CheckStmt(stmt, s), D, D')
    decreases stmt, 2
  {
    hide Exact, Joins, Arrived, Passable, CheckExpr, Declare;
    var p := Ex(stmt.value, Transfer(MOVE, stmt.value));
    var p' := Declaring(stmt.name, stmt.value.ty, stmt.mutable);
    LetJoins(stmt);
    D' := ExprPrecise(stmt.value, Transfer(MOVE, stmt.value), s, D);
    var v := CheckExpr(stmt.value, Transfer(MOVE, stmt.value), s);
    if v.Error? {
      First(St(stmt), p, [], p', s, v, D, D');
    } else {
      var D1 := D';
      ExactArrived(p, s, v.s, D, D1);
      D' := FreshOf(D1, stmt.name, stmt.value.ty);
      ExactDeclare(stmt.name, stmt.value.ty, stmt.mutable, v.s, D1);
      PassSimple(p');
      Then(St(stmt), p, [], p', s, v.s, Declare(v.s, stmt.name, stmt.value.ty, stmt.mutable), D, D1, D');
    }
  }

  lemma ExactDeclare(name: string, ty: Ty, mutable: bool, s: State, D: iset<Run>)
    requires Arrived(s, D)
    ensures Open(s) && Exact(Declaring(name, ty, mutable), s, Declare(s, name, ty, mutable), D, FreshOf(D, name, ty))
  {
    hide Arrived, Realised, Noisy, Declare;
    ArrivedState(s, D);
    DeclareRealised(name, ty, mutable, s, D);
  }

  // ----- Branches

  lemma {:induction false} IfPrecise(branch: If, s: State, D: iset<Run>) returns (D': iset<Run>)
    requires PlainIf(branch) && Arrived(s, D)
    ensures Exact(Br(branch), s, CheckIf(branch, s), D, D')
    decreases branch, 3
  {
    hide Joins, Arrived, Passable, CheckExpr, CheckBlock, CheckElse, Realised, Unsafe, Fits, Grows, Ids;
    var q, p, t, f := Br(branch), Ex(branch.condition, BORROW), Block(branch.thenBlock), El(branch.els);
    IfJoins(branch);
    D' := ExprPrecise(branch.condition, BORROW, s, D);
    var vc := CheckExpr(branch.condition, BORROW, s);
    if vc.Error? { First(q, p, [0], t, s, vc, D, D'); return; }
    var D1, c := D', vc.s;
    ExactArrived(p, s, c, D, D1);
    ArrivedState(s, D);
    ArrivedState(c, D1);
    var A := BlockPrecise(branch.thenBlock, c, D1);
    BlockPasses(branch.thenBlock);
    var vt := CheckBlock(branch.thenBlock, c);
    Then(q, p, [0], t, s, c, vt, D, D1, A);
    D' := A;
    if vt.Error? { return; }
    BlockGrows(branch.thenBlock, c);
    CounterGrows(c, vt.s);
    var c' := c.(next := vt.s.next, quiet := vt.s.quiet);
    RebasedArrived(p, s, c, vt.s.next, vt.s.quiet, D, D1);
    var B := ElsePrecise(branch.els, c', D1);
    ElsePasses(branch.els);
    var vf := CheckElse(branch.els, c');
    Again(q, p, [1], f, s, c, vt.s.next, vt.s.quiet, vf, D, D1, B);
    D' := B;
    if vf.Error? { return; }
    IfGrows(branch, s);
    ArrivedState(c', D1);
    ElseGrows(branch.els, c');
    CounterGrows(c', vf.s);
    JoinBranches(branch, s, c, vt.s, vf.s, D, A, B);
    D' := A + B;
  }

  lemma CounterGrows(s: State, t: State)
    requires Grows(s, t)
    ensures s.next <= t.next && s.moved <= t.moved && (t.quiet ==> s.quiet)
  {
  }

  lemma JoinBranches(branch: If, s: State, c: State, t: State, f: State, D: iset<Run>, A: iset<Run>, B: iset<Run>)
    requires Exact(Br(branch), s, Ok(t), D, A) && Exact(Br(branch), s, Ok(f), D, B) && c.moved <= f.moved
    requires s.scopes == c.scopes == t.scopes == f.scopes && (f.quiet ==> t.quiet)
    requires var u := f.(moved := c.moved + t.moved * Ids(c.scopes) + f.moved * Ids(c.scopes)); Fits(u) && Grows(s, u)
    ensures Exact(Br(branch), s, Ok(f.(moved := c.moved + t.moved * Ids(c.scopes) + f.moved * Ids(c.scopes))), D, A + B)
  {
    hide Arrived, ComesFrom, News, Unsafe, Fits, Grows, Ids;
    Merge(Br(branch), s, f.(moved := c.moved + t.moved * Ids(c.scopes) + f.moved * Ids(c.scopes)), t, f, D, A, B);
  }

  lemma {:induction false} ElsePrecise(els: Else, s: State, D: iset<Run>) returns (D': iset<Run>)
    requires PlainElse(els) && Arrived(s, D)
    ensures Exact(El(els), s, CheckElse(els, s), D, D')
    decreases els, 3
  {
    hide Exact, Joins, Arrived, CheckBlock, CheckIf;
    ElseSame(els);
    match els
    case NoElse =>
      D' := D;
      ExactNothing(s, D);
      Same(El(els), Nothing, s, Ok(s), D, D);
    case ElseBlock(block) =>
      D' := BlockPrecise(block, s, D);
      Same(El(els), Block(block), s, CheckBlock(block, s), D, D');
    case ElseIf(branch) =>
      D' := IfPrecise(branch, s, D);
      Same(El(els), Br(branch), s, CheckIf(branch, s), D, D');
  }

  // ----- Loops

  lemma {:induction false} ForPrecise(stmt: Stmt, s: State, D: iset<Run>) returns (D': iset<Run>)
    requires stmt.For? && PlainStmt(stmt) && Arrived(s, D) && Open(s)
    ensures Exact(St(stmt), s, CheckStmt(stmt, s), D, D')
    decreases stmt, 2
  {
    hide Exact, Joins, Arrived, Passable, CheckExpr, CheckStmts, Repeat;
    var p, p' := Ex(stmt.iterable, BORROW), Rounds(stmt);
    ForJoins(stmt);
    D' := ExprPrecise(stmt.iterable, BORROW, s, D);
    var v := CheckExpr(stmt.iterable, BORROW, s);
    if v.Error? {
      First(St(stmt), p, [], p', s, v, D, D');
    } else {
      ExactArrived(p, s, v.s, D, D');
      RoundsPrecise(stmt, v.s, D');
      RoundsPass(stmt);
      Then(St(stmt), p, [], p', s, v.s, Repeat(v.s, CheckStmts(stmt.body, ForStart(stmt, v.s))), D, D', D');
    }
  }

  lemma {:induction false} RoundsPrecise(loop: Stmt, s: State, D: iset<Run>)
    requires loop.For? && PlainStmts(loop.body) && Arrived(s, D)
    ensures Exact(Rounds(loop), s, Repeat(s, CheckStmts(loop.body, ForStart(loop, s))), D, D)
    decreases loop, 1
  {
    hide Arrived, CheckStmts, Realised, Unsafe, Ids;
    var q := RoundPart(loop);
    var v := CheckStmts(loop.body, ForStart(loop, s));
    OpenArrived(q.binding, s, D);
    var E := StmtsPrecise(loop.body, ForStart(loop, s), OpenAll(q.binding, D));
    ScopeExact(q.binding, Seq(loop.body), s, v, D, E);
    if Unsafe(q, D) { RoundsUnsafe(loop, s, D); }
    RoundsVerdict(loop, s, v, D, CloseAll(E));
  }

  lemma RoundsUnsafe(loop: Stmt, s: State, D: iset<Run>)
    requires loop.For? && Unsafe(RoundPart(loop), D)
    ensures Unsafe(Rounds(loop), D)
  {
    hide RoundPart, RunFor, Safe;
    var d, c :| d in D && UnsafeRun(RoundPart(loop), d, c);
    RoundTrace(loop, d, c);
    UnsafeStays(RunPart(RoundPart(loop), d, c).run.trace, RunFor(loop, d, [1] + c).run.trace);
    assert UnsafeRun(Rounds(loop), d, [1] + c);
  }

  lemma RoundsVerdict(loop: Stmt, s: State, v: Verdict, D: iset<Run>, E: iset<Run>)
    requires loop.For? && Arrived(s, D) && Exact(RoundPart(loop), s, ClosedVerdict(s, v), D, E)
    requires Unsafe(RoundPart(loop), D) ==> Unsafe(Rounds(loop), D)
    ensures Exact(Rounds(loop), s, Repeat(s, v), D, D)
  {
    hide Arrived, ComesFrom, Unsafe, Grows, Ids, NewAt;
    assert Outer(RoundPart(loop), s) == |s.scopes|;
    hide RoundPart;
    var w := Repeat(s, v);
    if w.Ok? {
      ArrivedState(s, D);
      var t := ClosedTo(s, v.s);
      CounterGrows(s, t);
      RepeatGrows(s, v);
      RoundsSkipped(loop, s, w.s, D);
    } else if v.Ok? {
      var id :| id in (v.s.moved - s.moved) * Ids(s.scopes);
      var k, name := PlaceOf(s, id);
      assert HeldNew(s, ClosedTo(s, v.s), k, name);
      SecondRound(loop, s, D, k, name);
    }
  }

  lemma PlaceOf(s: State, id: nat) returns (k: int, name: string)
    requires id in Ids(s.scopes)
    ensures 0 <= k < |s.scopes| && name in s.scopes[k] && s.scopes[k][name].id == id
  {
    k, name :| 0 <= k < |s.scopes| && name in s.scopes[k] && s.scopes[k][name].id == id;
  }

  /** No round at all leaves everything as it was. */
  lemma RoundsSkipped(loop: Stmt, s: State, t: State, D: iset<Run>)
    requires loop.For? && Arrived(s, D) && t.scopes == s.scopes && t.moved == s.moved && Fits(t) && Grows(s, t)
    ensures Arrived(t, D) && ComesFrom(Rounds(loop), D, D) && News(Rounds(loop), s, t, D) && Kept(Rounds(loop), s, t)
  {
    hide Goes, Grows, Fits, NewAt, Arrived;
    RoundsPass(loop);
    ArrivedState(s, D);
    forall e | e in D ensures exists d, c :: d in D && Goes(Rounds(loop), d, c, e) {
      assert e.scopes != [];
      assert Goes(Rounds(loop), e, [0], e);
    }
    assert forall k, name :: !HeldNew(s, t, k, name);
    SameArrived(s, t, D);
  }

  lemma SameArrived(s: State, t: State, D: iset<Run>)
    requires Arrived(s, D) && t.scopes == s.scopes && t.moved == s.moved && Fits(t)
    ensures Arrived(t, D)
  {
    hide Fits, MovedAt;
    assert forall k, name :: HeldMoved(t, k, name) <==> HeldMoved(s, k, name);
  }

  lemma SecondRound(loop: Stmt, s: State, D: iset<Run>, k: int, name: string)
    requires loop.For? && Arrived(s, D) && NewAt(RoundPart(loop), D, k, name)
    ensures Unsafe(Rounds(loop), D)
  {
    hide Arrived, Goes, RoundPart, UnsafeRun;
    var d, c, e :| d in D && MovesOn(RoundPart(loop), d, c, e, k, name);
    ArrivedState(s, D);
    TwoRounds(loop, d, c, e, d.scopes[k][name].id);
  }

  lemma {:induction false} WhilePrecise(loop: Stmt, s: State, D: iset<Run>) returns (D': iset<Run>)
    requires loop.While? && PlainStmt(loop) && Arrived(s, D) && Open(s)
    ensures Exact(St(loop), s, CheckStmt(loop, s), D, D')
    decreases loop, 2
  {
    hide Joins, Arrived, Passable, CheckExpr, CheckBlock, Realised, Unsafe, Ids, Repeat, WhileStart;
    var p := Ex(loop.condition, BORROW);
    WhileJoins(loop);
    D' := ExprPrecise(loop.condition, BORROW, s, D);
    var vc := CheckExpr(loop.condition, BORROW, s);
    if vc.Error? { First(St(loop), p, [0], Nothing, s, vc, D, D'); return; }
    var before := WhileStart(s, vc.s);
    StartState(s, vc.s);
    RebasedArrived(p, s, vc.s, vc.s.next, before.quiet, D, D');
    var E := BlockPrecise(loop.body, before, D');
    ExprPasses(loop.condition, BORROW);
    BlockPasses(loop.body);
    WhileVerdict(loop, s, vc.s, CheckBlock(loop.body, before), D, D', E);
  }

  lemma StartState(s: State, c: State)
    ensures WhileStart(s, c) == c.(next := c.next, quiet := WhileStart(s, c).quiet) && (WhileStart(s, c).quiet ==> c.quiet)
    ensures c.quiet && !WhileStart(s, c).quiet ==> (c.moved - s.moved) * Ids(s.scopes) != {}
  {
  }

  /** The verdict on a `while`, from those on its condition and its body. */
  lemma WhileVerdict(loop: Stmt, s: State, c: State, v: Verdict, D: iset<Run>, D1: iset<Run>, E: iset<Run>)
    requires loop.While? && Arrived(s, D) && Joins(St(loop), Ex(loop.condition, BORROW), [0], Nothing)
    requires Passable(Ex(loop.condition, BORROW)) && Passable(Block(loop.body))
    requires Exact(Ex(loop.condition, BORROW), s, Ok(c), D, D1) && Exact(Block(loop.body), WhileStart(s, c), v, D1, E)
    ensures Exact(St(loop), s, Repeat(WhileStart(s, c), v), D, D1)
  {
    hide Arrived, Joins, Passable, ComesFrom, Unsafe, Grows, Ids, News, WhileStart;
    var before := WhileStart(s, c);
    var w := Repeat(before, v);
    StartState(s, c);
    ExactArrived(Ex(loop.condition, BORROW), s, c, D, D1);
    RebasedArrived(Ex(loop.condition, BORROW), s, c, c.next, before.quiet, D, D1);
    if Unsafe(Block(loop.body), D1) { BodyUnsafe(loop, D, D1); }
    if c.quiet && s.quiet && !before.quiet { NoisyCondition(loop, s, c, D); }
    if s.quiet && !c.quiet { UnsafeFirst(St(loop), Ex(loop.condition, BORROW), [0], Nothing, D); }
    if w.Ok? {
      CounterGrows(before, v.s);
      WhileSkipped(loop, s, c, w.s, D, D1);
    } else if v.Ok? {
      LeakingBody(loop, s, before, v.s, D, D1);
    }
  }

  /** An unsafe path inside the body is one of the loop. */
  lemma BodyUnsafe(loop: Stmt, D: iset<Run>, D1: iset<Run>)
    requires loop.While? && ComesFrom(Ex(loop.condition, BORROW), D, D1) && Unsafe(Block(loop.body), D1)
    ensures Unsafe(St(loop), D)
  {
    hide Goes, Safe, RunWhile;
    var e, c' :| e in D1 && UnsafeRun(Block(loop.body), e, c');
    var d, c :| d in D && Goes(Ex(loop.condition, BORROW), d, c, e);
    WhileInside(loop, d, c, e, c');
    UnsafeStays(RunPart(Block(loop.body), e, c').run.trace, RunWhile(loop, d, c + ([1] + c')).run.trace);
    assert UnsafeRun(St(loop), d, c + ([1] + c'));
  }

  /** A condition that moves a binding from before it is evaluated again after the body. */
  lemma NoisyCondition(loop: Stmt, s: State, c: State, D: iset<Run>)
    requires loop.While? && Arrived(s, D) && Passable(Block(loop.body))
    requires News(Ex(loop.condition, BORROW), s, c, D) && (c.moved - s.moved) * Ids(s.scopes) != {}
    ensures Unsafe(St(loop), D)
  {
    hide Arrived, Goes, Passable, UnsafeRun, Ids;
    var id :| id in (c.moved - s.moved) * Ids(s.scopes);
    var k, name := PlaceOf(s, id);
    assert HeldNew(s, c, k, name);
    var d, c', e :| d in D && MovesOn(Ex(loop.condition, BORROW), d, c', e, k, name);
    ArrivedState(s, D);
    var x := TwoConditions(loop, d, c', e, d.scopes[k][name].id);
  }

  /** A body that moves a binding from before the loop moves it again in the next round. */
  lemma LeakingBody(loop: Stmt, s: State, before: State, t: State, D: iset<Run>, D1: iset<Run>)
    requires loop.While? && Passable(Ex(loop.condition, BORROW)) && ComesFrom(Ex(loop.condition, BORROW), D, D1)
    requires Arrived(before, D1) && News(Block(loop.body), before, t, D1) && (t.moved - before.moved) * Ids(before.scopes) != {}
    ensures Unsafe(St(loop), D)
  {
    hide Arrived, Goes, Passable, UnsafeRun, Ids;
    var id :| id in (t.moved - before.moved) * Ids(before.scopes);
    var k, name := PlaceOf(before, id);
    assert HeldNew(before, t, k, name);
    var e, c', f :| e in D1 && MovesOn(Block(loop.body), e, c', f, k, name);
    var d, c :| d in D && Goes(Ex(loop.condition, BORROW), d, c, e);
    ArrivedState(before, D1);
    var x := TwoBodies(loop, d, c, e, c', f, e.scopes[k][name].id);
  }

  /** The condition without a round. */
  lemma WhileSkipped(loop: Stmt, s: State, c: State, t: State, D: iset<Run>, D1: iset<Run>)
    requires loop.While? && Arrived(s, D) && Joins(St(loop), Ex(loop.condition, BORROW), [0], Nothing)
    requires Realised(Ex(loop.condition, BORROW), s, Ok(c), D, D1)
    requires t == c.(next := t.next, quiet := t.quiet) && c.next <= t.next && (t.quiet ==> c.quiet)
    ensures Realised(St(loop), s, Ok(t), D, D1)
  {
    hide Arrived, Joins, ComesFrom, News, Grows, Unsafe;
    var p := Ex(loop.condition, BORROW);
    Rebased(p, s, c, t.next, t.quiet, D, D1);
    PassSimple(Nothing);
    NothingRealised(t, D1);
    Compose(St(loop), p, [0], Nothing, s, t, Ok(t), D, D1, D1);
  }

  // ----- Functions

  /** Plain code that may end with a `return`. */
  ghost predicate PlainBody(block: seq<Stmt>) {
    if block == [] then true
    else if |block| == 1 && block[0].Return? then block[0].result.Some? ==> PlainExpr(block[0].result.value)
    else PlainStmt(block[0]) && PlainBody(block[1..])
  }

  /** The whole body: a rejection for a move, or a moving loop condition, has an unsafe path. */
  lemma {:induction false} BodyPrecise(block: seq<Stmt>, s: State, D: iset<Run>)
    requires PlainBody(block) && Arrived(s, D)
    ensures Open(s)
    ensures var v := CheckStmts(block, s);
      (v.Error? && v.code != KS3930) || (v.Ok? && s.quiet && !v.s.quiet) ==> Unsafe(Seq(block), D)
  {
    hide Joins, Arrived, CheckExpr, Unsafe, Realised, PlainStmt;
    ArrivedState(s, D);
    if block != [] {
      var stmt, p' := block[0], Seq(block[1..]);
      StatementJoins(block);
      var v := CheckStmt(stmt, s);
      if |block| == 1 && stmt.Return? {
        if stmt.result.Some? { ReturnPrecise(stmt, s, D); }
        if Unsafe(St(stmt), D) { UnsafeFirst(Seq(block), St(stmt), [], p', D); }
      } else {
        var D1 := StmtPrecise(stmt, s, D);
        if Unsafe(St(stmt), D) { UnsafeFirst(Seq(block), St(stmt), [], p', D); }
        RealisedError(St(stmt), s, v, D, D1);
        if v.Ok? {
          ExactArrived(St(stmt), s, v.s, D, D1);
          BodyPrecise(block[1..], v.s, D1);
          if Unsafe(p', D1) { UnsafeSecond(Seq(block), St(stmt), [], p', D, D1); }
        }
      }
    }
  }

  lemma RealisedError(p: Part, s: State, v: Verdict, D: iset<Run>, D1: iset<Run>)
    requires Realised(p, s, v, D, D1)
    ensures v.Error? && v.code != KS3930 ==> Unsafe(p, D)
    ensures v.Ok? ==> ComesFrom(p, D, D1)
  {
    hide Unsafe;
  }

  lemma ReturnPrecise(stmt: Stmt, s: State, D: iset<Run>)
    requires stmt.Return? && stmt.result.Some? && PlainExpr(stmt.result.value) && Arrived(s, D) && Open(s)
    ensures var v := CheckStmt(stmt, s);
      (v.Error? && v.code != KS3930) || (v.Ok? && s.quiet && !v.s.quiet) ==> Unsafe(St(stmt), D)
  {
    hide Arrived, CheckExpr, Realised, RunExpr, Safe;
    var value := stmt.result.value;
    var p := Ex(value, Transfer(MOVE, value));
    var D1 := ExprPrecise(value, Transfer(MOVE, value), s, D);
    RealisedError(p, s, CheckExpr(value, Transfer(MOVE, value), s), D, D1);
    if Unsafe(p, D) {
      var d, c :| d in D && UnsafeRun(p, d, c);
      assert UnsafeRun(St(stmt), d, c);
    }
  }

  lemma {:induction false} ParametersArrived(parameters: seq<Parameter>, s: State, d: Run)
    requires Arrived(s, iset{d}) && d.scopes != []
    ensures Open(s) && Arrived(DeclareAll(parameters, s), iset{FreshAll(parameters, d)}) && DeclareAll(parameters, s).quiet == s.quiet
  {
    hide Arrived, Fresh;
    ArrivedState(s, iset{d});
    if parameters != [] {
      var name, ty := parameters[0].name, parameters[0].ty;
      var t, e := Declare(s, name, ty, false).s, Fresh(d, name, ty);
      DeclareGrows(s, name, ty, false);
      DeclareArrived(name, ty, s, iset{d}, t);
      assert FreshOf(iset{d}, name, ty) == iset{e};
      FreshOpen(d, name, ty);
      ParametersArrived(parameters[1..], t, e);
    }
  }

  lemma StartArrived(next: nat)
    ensures Arrived(State([map[]], {}, next, true), iset{Run([map[]], 0, [])})
  {
    assert Run([map[]], 0, []) in iset{Run([map[]], 0, [])};
  }

  /** Precision: a plain function that is rejected for a move has an unsafe path, and so has one that is accepted
      although a loop condition moves a binding from before it. */
  lemma RejectedIsUnsafe(f: Function, next: nat) returns (choices: seq<nat>)
    requires PlainBody(f.body)
    requires match CheckFunction(f, next) case Error(code) => code != KS3930 case Ok(s) => !s.quiet
    ensures !Safe(Path(f, choices))
  {
    hide Arrived, Safe, CheckStmts, PlainBody, RunStmts;
    var s, d := State([map[]], {}, next, true), Run([map[]], 0, []);
    StartArrived(next);
    ParametersArrived(f.parameters, s, d);
    var t, e := DeclareAll(f.parameters, s), FreshAll(f.parameters, d);
    BodyPrecise(f.body, t, iset{e});
    var e', c :| e' in iset{e} && UnsafeRun(Seq(f.body), e', c);
    choices := c;
  }

  /** On plain functions without mutable affine bindings the pass is exact: it accepts, with no loop condition moving
      a binding from before it, if and only if every path is safe. */
  lemma ExactOnPlain(f: Function, next: nat)
    requires PlainBody(f.body) && FixedStmts(f.body)
    ensures CheckFunction(f, next).Ok? && CheckFunction(f, next).s.quiet <==> forall choices :: Safe(Path(f, choices))
  {
    hide CheckFunction, Path, Safe, PlainBody, FixedStmts;
    MutableAffineIsRejected(f, next);
    if CheckFunction(f, next).Ok? && CheckFunction(f, next).s.quiet {
      forall choices ensures Safe(Path(f, choices)) { AcceptedIsSafe(f, next, choices); }
    } else {
      var choices := RejectedIsUnsafe(f, next);
    }
  }
}
