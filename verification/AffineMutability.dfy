/** KS3930: no accepted function declares a mutable affine binding, and only such a declaration gets that code. */
module AffineMutability {
  import opened Options
  import opened AffineSyntax
  import opened AffineCheck

  ghost predicate FixedExpr(e: Expr)
    decreases e, 1
  {
    match e
    case Literal(_) => true
    case Identifier(_, _) => true
    case Member(obj, _) => FixedExpr(obj)
    case Binary(left, right, _) => FixedExpr(left) && FixedExpr(right)
    case OrReturn(value, error, _) => FixedExpr(value) && (error.Some? ==> FixedExpr(error.value))
    case OrElse(value, fallback, _) => FixedExpr(value) && FixedExpr(fallback)
    case OrBlock(value, handler, _) => FixedExpr(value) && FixedStmts(handler)
    case Match(value, arms, _) => FixedExpr(value) && FixedArms(arms)
    case _ => FixedOperands(e, 0)
  }

  ghost predicate FixedOperands(e: Expr, from: nat)
    requires Strict(e)
    decreases e, 0
  {
    forall i :: from <= i < |StrictOperands(e)| ==> FixedExpr(StrictOperands(e)[i].expr)
  }

  ghost predicate FixedArms(arms: seq<Arm>) {
    forall i :: 0 <= i < |arms| ==> FixedArm(arms[i])
  }

  ghost predicate FixedArm(arm: Arm) {
    match arm
    case ArmBlock(_, block) => FixedStmts(block)
    case ArmExpr(_, body) => FixedExpr(body)
  }

  ghost predicate FixedStmts(block: seq<Stmt>) {
    forall i :: 0 <= i < |block| ==> FixedStmt(block[i])
  }

  /** No `let mut` of an affine type, here or inside. */
  ghost predicate FixedStmt(stmt: Stmt) {
    match stmt
    case Let(_, mutable, value) => !(mutable && value.ty.affine) && FixedExpr(value)
    case Return(result) => result.Some? ==> FixedExpr(result.value)
    case ExprStmt(expr) => FixedExpr(expr)
    case IfStmt(branch) => FixedIf(branch)
    case While(condition, body) => FixedExpr(condition) && FixedStmts(body)
    case For(_, iterable, body) => FixedExpr(iterable) && FixedStmts(body)
    case Break => true
    case Continue => true
  }

  ghost predicate FixedIf(branch: If) {
    FixedExpr(branch.condition) && FixedStmts(branch.thenBlock) && FixedElse(branch.els)
  }

  ghost predicate FixedElse(els: Else) {
    match els
    case NoElse => true
    case ElseBlock(block) => FixedStmts(block)
    case ElseIf(branch) => FixedIf(branch)
  }

  /** Acceptance means that there is no such declaration, and KS3930 that there is one. */
  ghost predicate Justified(v: Verdict, fixed: bool) {
    (v.Ok? ==> fixed) && (v == Error(KS3930) ==> !fixed)
  }

  lemma {:induction false} ExprFixed(e: Expr, ctx: Context, s: State)
    ensures Justified(CheckExpr(e, ctx, s), FixedExpr(e))
    decreases e, 2
  {
    hide CheckBlock, CheckArms, Resolve;
    match e
    case Literal(_) =>
    case Identifier(_, _) =>
    case Member(obj, _) => ExprFixed(obj, BORROW, s);
    case Binary(left, right, _) =>
      ExprFixed(left, BORROW, s);
      var r := CheckExpr(left, BORROW, s);
      if r.Ok? { ExprFixed(right, BORROW, r.s); }
    case OrReturn(value, error, _) =>
      ExprFixed(value, Transfer(ctx, value), s);
      var r := CheckExpr(value, Transfer(ctx, value), s);
      if r.Ok? && error.Some? { ExprFixed(error.value, Transfer(MOVE, error.value), r.s); }
    case OrElse(value, fallback, _) =>
      ExprFixed(value, Transfer(ctx, value), s);
      var r := CheckExpr(value, Transfer(ctx, value), s);
      if r.Ok? { ExprFixed(fallback, Transfer(ctx, fallback), r.s); }
    case OrBlock(value, handler, _) =>
      ExprFixed(value, Transfer(ctx, value), s);
      var r := CheckExpr(value, Transfer(ctx, value), s);
      if r.Ok? { BlockFixed(handler, r.s); }
    case Match(value, arms, _) =>
      ExprFixed(value, BORROW, s);
      var r := CheckExpr(value, BORROW, s);
      if r.Ok? { ArmsFixed(arms, ctx, r.s, r.s); }
    case _ => OperandsFixed(e, 0, s);
  }

  lemma {:induction false} OperandsFixed(e: Expr, i: nat, s: State)
    requires Strict(e) && i <= |StrictOperands(e)|
    ensures Justified(CheckOperands(e, i, s), FixedOperands(e, i))
    decreases e, 1, |StrictOperands(e)| - i
  {
    hide CheckExpr, FixedExpr;
    var ops := StrictOperands(e);
    if i < |ops| {
      ExprFixed(ops[i].expr, ops[i].ctx, s);
      var r := CheckExpr(ops[i].expr, ops[i].ctx, s);
      if r.Ok? { OperandsFixed(e, i + 1, r.s); }
    }
  }

  lemma {:induction false} ArmsFixed(arms: seq<Arm>, ctx: Context, before: State, joined: State)
    requires joined.scopes == before.scopes
    ensures Justified(CheckArms(arms, ctx, before, joined), FixedArms(arms))
    decreases arms, 1
  {
    hide CheckArm, FixedArm, Ids;
    if arms != [] {
      ArmFixed(arms[0], ctx, ArmStart(before, joined));
      var r := CheckArm(arms[0], ctx, ArmStart(before, joined));
      if r.Ok? { ArmsFixed(arms[1..], ctx, before, ArmJoin(before, joined, r.s)); }
      assert FixedArms(arms) <==> FixedArm(arms[0]) && FixedArms(arms[1..]) by { FirstArm(arms); }
    }
  }

  lemma FirstArm(arms: seq<Arm>)
    requires arms != []
    ensures FixedArms(arms) <==> FixedArm(arms[0]) && FixedArms(arms[1..])
  {
    hide FixedArm;
    assert forall i :: 1 <= i < |arms| ==> arms[i] == arms[1..][i - 1];
  }

  lemma {:induction false} ArmFixed(arm: Arm, ctx: Context, s: State)
    requires Open(s)
    ensures Justified(CheckArm(arm, ctx, s), FixedArm(arm))
    decreases arm, 2
  {
    hide CheckStmts, CheckExpr;
    var d := if arm.binding.Some? then Declare(s, arm.binding.value, UNKNOWN, false).s else s;
    match arm
    case ArmBlock(_, block) => StmtsFixed(block, d);
    case ArmExpr(_, body) => ExprFixed(body, Transfer(ctx, body), d);
  }

  lemma {:induction false} BlockFixed(block: seq<Stmt>, s: State)
    ensures Justified(CheckBlock(block, s), FixedStmts(block))
    decreases block, 2
  {
    hide CheckStmts, FixedStmts;
    StmtsFixed(block, Push(s));
  }

  lemma {:induction false} StmtsFixed(block: seq<Stmt>, s: State)
    requires Open(s)
    ensures Justified(CheckStmts(block, s), FixedStmts(block))
    decreases block, 1
  {
    hide CheckStmt, FixedStmt;
    if block != [] {
      StmtFixed(block[0], s);
      var r := CheckStmt(block[0], s);
      if r.Ok? { StmtsFixed(block[1..], r.s); }
      FirstStmt(block);
    }
  }

  lemma FirstStmt(block: seq<Stmt>)
    requires block != []
    ensures FixedStmts(block) <==> FixedStmt(block[0]) && FixedStmts(block[1..])
  {
    hide FixedStmt;
    assert forall i :: 1 <= i < |block| ==> block[i] == block[1..][i - 1];
  }

  lemma {:induction false} StmtFixed(stmt: Stmt, s: State)
    requires Open(s)
    ensures Justified(CheckStmt(stmt, s), FixedStmt(stmt))
    decreases stmt, 2
  {
    hide CheckExpr, CheckBlock, CheckStmts, FixedExpr, FixedStmts, Ids;
    match stmt
    case Let(_, _, value) => ExprFixed(value, Transfer(MOVE, value), s);
    case Return(None) =>
    case Return(Some(value)) => ExprFixed(value, Transfer(MOVE, value), s);
    case ExprStmt(expr) => ExprFixed(expr, BORROW, s);
    case IfStmt(branch) => IfFixed(branch, s);
    case While(condition, body) =>
      ExprFixed(condition, BORROW, s);
      var r := CheckExpr(condition, BORROW, s);
      if r.Ok? { BlockFixed(body, WhileStart(s, r.s)); }
    case For(_, iterable, body) =>
      ExprFixed(iterable, BORROW, s);
      var r := CheckExpr(iterable, BORROW, s);
      if r.Ok? { StmtsFixed(body, ForStart(stmt, r.s)); }
    case Break =>
    case Continue =>
  }

  lemma {:induction false} IfFixed(branch: If, s: State)
    ensures Justified(CheckIf(branch, s), FixedIf(branch))
    decreases branch, 2
  {
    hide CheckExpr, CheckBlock, CheckElse, FixedExpr, FixedStmts, FixedElse;
    ExprFixed(branch.condition, BORROW, s);
    var c := CheckExpr(branch.condition, BORROW, s);
    if c.Ok? {
      BlockFixed(branch.thenBlock, c.s);
      var t := CheckBlock(branch.thenBlock, c.s);
      if t.Ok? { ElseFixed(branch.els, c.s.(next := t.s.next, quiet := t.s.quiet)); }
    }
  }

  lemma {:induction false} ElseFixed(els: Else, s: State)
    ensures Justified(CheckElse(els, s), FixedElse(els))
    decreases els, 2
  {
    hide CheckBlock, FixedStmts;
    match els
    case NoElse =>
    case ElseBlock(block) => BlockFixed(block, s);
    case ElseIf(branch) => IfFixed(branch, s);
  }

  /** An accepted function has no mutable affine binding; one rejected with KS3930 has one. */
  lemma MutableAffineIsRejected(f: Function, next: nat)
    ensures CheckFunction(f, next).Ok? ==> FixedStmts(f.body)
    ensures CheckFunction(f, next) == Error(KS3930) ==> !FixedStmts(f.body)
  {
    hide CheckStmts, FixedStmts;
    StmtsFixed(f.body, DeclareAll(f.parameters, State([map[]], {}, next, true)));
  }
}
