/** How a run goes on: events and instances are only added, and only the innermost scope may change. */
module AffineTraces {
  import opened Options
  import opened AffineSyntax
  import opened AffinePaths

  /** The instances in scope have been created. */
  ghost predicate Created(d: Run) {
    forall k, name :: 0 <= k < |d.scopes| && name in d.scopes[k] ==> d.scopes[k][name].id < d.next
  }

  ghost predicate Later(d: Run, e: Run) {
    && d.trace <= e.trace && d.next <= e.next && |d.scopes| == |e.scopes|
    && (d.scopes != [] ==> d.scopes[..|d.scopes| - 1] == e.scopes[..|d.scopes| - 1])
    && (Created(d) ==> Created(e))
  }

  lemma LaterStill(d: Run, e: Run, f: Run)
    requires Later(d, e) && Later(e, f)
    ensures Later(d, f)
  {
  }

  lemma LeaveLater(d: Run, e: Run)
    requires Later(Enter(d), e)
    ensures Later(d, e.(scopes := d.scopes))
  {
    if Created(d) { assert Created(Enter(d)); }
  }

  lemma FreshLater(d: Run, name: string, ty: Ty)
    requires d.scopes != []
    ensures Later(d, Fresh(d, name, ty))
  {
  }

  lemma {:induction false} ExprLater(e: Expr, ctx: Context, d: Run, c: seq<nat>)
    ensures Later(d, RunExpr(e, ctx, d, c).run)
    decreases |c|, e, 2
  {
    hide Later, RunStmts;
    assert Later(d, d) by { Itself(d); }
    match e
    case Literal(_) =>
    case Identifier(name, _) => TouchLater(d, name, ctx);
    case Member(obj, _) =>
      ExprLater(obj, BORROW, d, c);
      var r := RunExpr(obj, BORROW, d, c);
      if Root(obj).Some? { TouchLater(r.run, Root(obj).value, MOVE); LaterStill(d, r.run, Touch(r.run, Root(obj).value, MOVE)); }
    case Binary(left, right, _) => TwoLater(e, left, BORROW, right, BORROW, d, c);
    case OrReturn(value, error, _) =>
      if error.Some? { TwoLater(e, value, Transfer(ctx, value), error.value, Transfer(MOVE, error.value), d, c); }
      else { ExprLater(value, Transfer(ctx, value), d, c); }
    case OrElse(value, fallback, _) => TwoLater(e, value, Transfer(ctx, value), fallback, Transfer(ctx, fallback), d, c);
    case OrBlock(value, handler, _) =>
      ExprLater(value, Transfer(ctx, value), d, c);
      var r := RunExpr(value, Transfer(ctx, value), d, c);
      if !Stops(r) {
        BlockLater(handler, r.run, r.choices[1..]);
        LaterStill(d, r.run, RunBlock(handler, r.run, r.choices[1..]).run);
      }
    case Match(_, _, _) => MatchLater(e, ctx, d, c);
    case _ => OperandsLater(e, 0, d, c);
  }

  lemma Itself(d: Run)
    ensures Later(d, d)
  {
  }

  lemma TouchLater(d: Run, name: string, ctx: Context)
    ensures Later(d, Touch(d, name, ctx))
  {
  }

  lemma {:induction false} TwoLater(e: Expr, a: Expr, actx: Context, b: Expr, bctx: Context, d: Run, c: seq<nat>)
    requires a < e && b < e
    ensures var r := RunExpr(a, actx, d, c);
      Later(d, r.run) && (!Stops(r) ==> Later(d, RunExpr(b, bctx, r.run, r.choices[1..]).run))
    decreases |c|, e, 1
  {
    hide Later;
    ExprLater(a, actx, d, c);
    var r := RunExpr(a, actx, d, c);
    if !Stops(r) {
      ExprLater(b, bctx, r.run, r.choices[1..]);
      LaterStill(d, r.run, RunExpr(b, bctx, r.run, r.choices[1..]).run);
    }
  }

  lemma {:induction false} MatchLater(e: Expr, ctx: Context, d: Run, c: seq<nat>)
    requires e.Match?
    ensures Later(d, RunExpr(e, ctx, d, c).run)
    decreases |c|, e, 1
  {
    hide Later, RunStmts;
    ExprLater(e.value, BORROW, d, c);
    var r := RunExpr(e.value, BORROW, d, c);
    if !Stops(r) && r.choices[0] < |e.arms| {
      var a := RunArm(e.arms[r.choices[0]], ctx, Enter(r.run), r.choices[1..]);
      ArmLater(e.arms[r.choices[0]], ctx, Enter(r.run), r.choices[1..]);
      LeaveLater(r.run, a.run);
      LaterStill(d, r.run, a.run.(scopes := r.run.scopes));
    }
  }

  lemma {:induction false} OperandsLater(e: Expr, i: nat, d: Run, c: seq<nat>)
    requires Strict(e) && i <= |StrictOperands(e)|
    ensures Later(d, RunOperands(e, i, d, c).run)
    decreases |c|, e, 1, |StrictOperands(e)| - i
  {
    hide Later;
    Itself(d);
    var ops := StrictOperands(e);
    if i < |ops| {
      ExprLater(ops[i].expr, ops[i].ctx, d, c);
      var r := RunExpr(ops[i].expr, ops[i].ctx, d, c);
      if r.flow == Normal {
        OperandsLater(e, i + 1, r.run, r.choices);
        LaterStill(d, r.run, RunOperands(e, i + 1, r.run, r.choices).run);
      }
    }
  }

  lemma {:induction false} ArmLater(arm: Arm, ctx: Context, d: Run, c: seq<nat>)
    requires d.scopes != []
    ensures Later(d, RunArm(arm, ctx, d, c).run)
    decreases |c|, arm, 2
  {
    hide Later;
    Itself(d);
    var f := if arm.binding.Some? then Fresh(d, arm.binding.value, UNKNOWN) else d;
    if arm.binding.Some? { FreshLater(d, arm.binding.value, UNKNOWN); }
    match arm
    case ArmBlock(_, block) => StmtsLater(block, f, c); LaterStill(d, f, RunStmts(block, f, c).run);
    case ArmExpr(_, body) =>
      ExprLater(body, Transfer(ctx, body), f, c);
      LaterStill(d, f, RunExpr(body, Transfer(ctx, body), f, c).run);
  }

  lemma {:induction false} BlockLater(block: seq<Stmt>, d: Run, c: seq<nat>)
    ensures Later(d, RunBlock(block, d, c).run)
    decreases |c|, block, 2
  {
    hide Later, RunStmts;
    StmtsLater(block, Enter(d), c);
    LeaveLater(d, RunStmts(block, Enter(d), c).run);
  }

  lemma {:induction false} StmtsLater(block: seq<Stmt>, d: Run, c: seq<nat>)
    requires d.scopes != []
    ensures Later(d, RunStmts(block, d, c).run)
    decreases |c|, block, 1
  {
    hide Later, RunStmt;
    Itself(d);
    if block != [] {
      StmtLater(block[0], d, c);
      var r := RunStmt(block[0], d, c);
      if r.flow == Normal {
        StmtsLater(block[1..], r.run, r.choices);
        LaterStill(d, r.run, RunStmts(block[1..], r.run, r.choices).run);
      }
    }
  }

  lemma {:induction false} StmtLater(stmt: Stmt, d: Run, c: seq<nat>)
    requires d.scopes != []
    ensures Later(d, RunStmt(stmt, d, c).run)
    decreases |c|, stmt, 2
  {
    hide Later, RunExpr;
    Itself(d);
    match stmt
    case Let(name, _, value) =>
      ExprLater(value, Transfer(MOVE, value), d, c);
      var r := RunExpr(value, Transfer(MOVE, value), d, c);
      FreshLater(r.run, name, value.ty);
      LaterStill(d, r.run, Fresh(r.run, name, value.ty));
    case Return(None) =>
    case Return(Some(value)) => ExprLater(value, Transfer(MOVE, value), d, c);
    case ExprStmt(expr) => ExprLater(expr, BORROW, d, c);
    case IfStmt(branch) => IfLater(branch, d, c);
    case While(_, _) => WhileLater(stmt, d, c);
    case For(_, iterable, _) =>
      ExprLater(iterable, BORROW, d, c);
      var r := RunExpr(iterable, BORROW, d, c);
      ForLater(stmt, r.run, r.choices);
      LaterStill(d, r.run, RunFor(stmt, r.run, r.choices).run);
    case Break =>
    case Continue =>
  }

  lemma {:induction false} WhileLater(loop: Stmt, d: Run, c: seq<nat>)
    requires loop.While?
    ensures Later(d, RunWhile(loop, d, c).run)
    decreases |c|, loop, 1
  {
    hide Later, RunExpr, RunBlock;
    ExprLater(loop.condition, BORROW, d, c);
    var r := RunExpr(loop.condition, BORROW, d, c);
    if !Stops(r) && r.choices[0] != 0 {
      BlockLater(loop.body, r.run, r.choices[1..]);
      var b := RunBlock(loop.body, r.run, r.choices[1..]);
      LaterStill(d, r.run, b.run);
      if b.choices != [] {
        WhileLater(loop, b.run, b.choices[1..]);
        LaterStill(d, b.run, RunWhile(loop, b.run, b.choices[1..]).run);
      }
    }
  }

  lemma {:induction false} ForLater(loop: Stmt, d: Run, c: seq<nat>)
    requires loop.For?
    ensures Later(d, RunFor(loop, d, c).run)
    decreases |c|, loop, 1
  {
    hide Later, RunStmts;
    Itself(d);
    if c != [] && c[0] != 0 {
      var f := Fresh(Enter(d), loop.variable, ItemType(loop.iterable));
      FreshLater(Enter(d), loop.variable, ItemType(loop.iterable));
      StmtsLater(loop.body, f, c[1..]);
      var q := RunStmts(loop.body, f, c[1..]);
      LaterStill(Enter(d), f, q.run);
      LeaveLater(d, q.run);
      var b := Leave(d, q);
      if b.flow == Normal || b.flow == Continued {
        ForLater(loop, b.run, b.choices);
        LaterStill(d, b.run, RunFor(loop, b.run, b.choices).run);
      }
    }
  }

  lemma {:induction false} IfLater(branch: If, d: Run, c: seq<nat>)
    ensures Later(d, RunIf(branch, d, c).run)
    decreases |c|, branch, 2
  {
    hide Later, RunExpr, RunBlock;
    ExprLater(branch.condition, BORROW, d, c);
    var r := RunExpr(branch.condition, BORROW, d, c);
    if !Stops(r) {
      if r.choices[0] == 0 {
        BlockLater(branch.thenBlock, r.run, r.choices[1..]);
        LaterStill(d, r.run, RunBlock(branch.thenBlock, r.run, r.choices[1..]).run);
      } else if r.choices[0] == 1 {
        ElseLater(branch.els, r.run, r.choices[1..]);
        LaterStill(d, r.run, RunElse(branch.els, r.run, r.choices[1..]).run);
      }
    }
  }

  lemma {:induction false} ElseLater(els: Else, d: Run, c: seq<nat>)
    ensures Later(d, RunElse(els, d, c).run)
    decreases |c|, els, 2
  {
    hide Later, RunBlock;
    Itself(d);
    match els
    case NoElse =>
    case ElseBlock(block) => BlockLater(block, d, c);
    case ElseIf(branch) => IfLater(branch, d, c);
  }
}
