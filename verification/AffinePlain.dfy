/** Code without early exits: no `return`, `break`, `continue` or `or return`, and no `match` without arms.  From every
    state there is a path through it. */
module AffinePlain {
  import opened Options
  import opened AffineSyntax
  import opened AffinePaths
  import opened AffineTraces
  import opened AffineParts
  import opened AffineJoins

  ghost predicate PlainExpr(e: Expr)
    decreases e, 1
  {
    match e
    case Literal(_) => true
    case Identifier(_, _) => true
    case Member(obj, _) => PlainExpr(obj)
    case Binary(left, right, _) => PlainExpr(left) && PlainExpr(right)
    case OrReturn(_, _, _) => false
    case OrElse(value, fallback, _) => PlainExpr(value) && PlainExpr(fallback)
    case OrBlock(value, handler, _) => PlainExpr(value) && PlainStmts(handler)
    case Match(value, arms, _) => PlainExpr(value) && arms != [] && forall i :: 0 <= i < |arms| ==> PlainArm(arms[i])
    case _ => PlainOperands(e)
  }

  ghost predicate PlainOperands(e: Expr)
    requires Strict(e)
    decreases e, 0
  {
    forall i :: 0 <= i < |StrictOperands(e)| ==> PlainExpr(StrictOperands(e)[i].expr)
  }

  ghost predicate PlainArm(arm: Arm) {
    match arm
    case ArmBlock(_, block) => PlainStmts(block)
    case ArmExpr(_, body) => PlainExpr(body)
  }

  ghost predicate PlainStmts(block: seq<Stmt>) {
    forall i :: 0 <= i < |block| ==> PlainStmt(block[i])
  }

  ghost predicate PlainStmt(stmt: Stmt) {
    match stmt
    case Let(_, _, value) => PlainExpr(value)
    case Return(_) => false
    case ExprStmt(expr) => PlainExpr(expr)
    case IfStmt(branch) => PlainIf(branch)
    case While(condition, body) => PlainExpr(condition) && PlainStmts(body)
    case For(_, iterable, body) => PlainExpr(iterable) && PlainStmts(body)
    case Break => false
    case Continue => false
  }

  ghost predicate PlainIf(branch: If) {
    PlainExpr(branch.condition) && PlainStmts(branch.thenBlock) && PlainElse(branch.els)
  }

  ghost predicate PlainElse(els: Else) {
    match els
    case NoElse => true
    case ElseBlock(block) => PlainStmts(block)
    case ElseIf(branch) => PlainIf(branch)
  }

  // ----- The same parts under other names

  lemma IdentifierSame(e: Expr, ctx: Context)
    requires e.Identifier?
    ensures Joins(Ex(e, ctx), Touching(e.name, ctx), [], Nothing)
  {
    hide Joins, Resolve;
    SameJoins(Ex(e, ctx), Touching(e.name, ctx));
  }

  lemma LiteralSame(e: Expr, ctx: Context)
    requires e.Literal?
    ensures Joins(Ex(e, ctx), Nothing, [], Nothing)
  {
    hide Joins;
    SameJoins(Ex(e, ctx), Nothing);
  }

  lemma StrictSame(e: Expr, ctx: Context)
    requires Strict(e)
    ensures Joins(Ex(e, ctx), Ops(e, 0), [], Nothing)
  {
    hide Joins, RunOperands;
    SameJoins(Ex(e, ctx), Ops(e, 0));
  }

  lemma OperandsDone(e: Expr)
    requires Strict(e)
    ensures Joins(Ops(e, |StrictOperands(e)|), Nothing, [], Nothing)
  {
    hide Joins;
    SameJoins(Ops(e, |StrictOperands(e)|), Nothing);
  }

  lemma NoStatements()
    ensures Joins(Seq([]), Nothing, [], Nothing)
  {
    hide Joins;
    SameJoins(Seq([]), Nothing);
  }

  lemma StatementSame(stmt: Stmt)
    ensures stmt.ExprStmt? ==> Joins(St(stmt), Ex(stmt.expr, BORROW), [], Nothing)
    ensures stmt.IfStmt? ==> Joins(St(stmt), Br(stmt.branch), [], Nothing)
  {
    hide Joins, RunExpr, RunIf;
    if stmt.ExprStmt? { SameJoins(St(stmt), Ex(stmt.expr, BORROW)); }
    if stmt.IfStmt? { SameJoins(St(stmt), Br(stmt.branch)); }
  }

  lemma ElseSame(els: Else)
    ensures els.NoElse? ==> Joins(El(els), Nothing, [], Nothing)
    ensures els.ElseBlock? ==> Joins(El(els), Block(els.block), [], Nothing)
    ensures els.ElseIf? ==> Joins(El(els), Br(els.branch), [], Nothing)
  {
    hide Joins, RunIf, RunBlock;
    match els
    case NoElse => SameJoins(El(els), Nothing);
    case ElseBlock(block) =>
      assert Valid(Block(block)) by { assert Valid(Seq(block)); }
      forall d: Run, c | d.scopes != [] ensures RunPart(El(els), d, c) == RunPart(Block(block), d, c) { BlockRun(block, d, c); }
      SameJoins(El(els), Block(block));
    case ElseIf(branch) => SameJoins(El(els), Br(branch));
  }

  // ----- There is a way through

  lemma PassSame(q: Part, p: Part)
    requires Joins(q, p, [], Nothing) && Passable(p)
    ensures Passable(q)
  {
    hide Joins, Passable;
    PassSimple(Nothing);
    PassBoth(q, p, [], Nothing);
  }

  lemma {:induction false} ExprPasses(e: Expr, ctx: Context)
    requires PlainExpr(e)
    ensures Passable(Ex(e, ctx))
    decreases e, 2
  {
    hide Joins, Passable;
    PassSimple(Nothing);
    match e
    case Literal(_) => LiteralSame(e, ctx); PassSame(Ex(e, ctx), Nothing);
    case Identifier(name, _) => IdentifierSame(e, ctx); PassSimple(Touching(name, ctx)); PassSame(Ex(e, ctx), Touching(name, ctx));
    case Member(obj, _) =>
      MemberJoins(e, ctx);
      ExprPasses(obj, BORROW);
      if MovesOwner(e, ctx) && Root(obj).Some? {
        PassSimple(Touching(Root(obj).value, MOVE));
        PassBoth(Ex(e, ctx), Ex(obj, BORROW), [], Touching(Root(obj).value, MOVE));
      } else {
        PassSame(Ex(e, ctx), Ex(obj, BORROW));
      }
    case Binary(left, right, _) =>
      BinaryJoins(e, ctx);
      ExprPasses(left, BORROW);
      ExprPasses(right, BORROW);
      PassBoth(Ex(e, ctx), Ex(left, BORROW), [1], Ex(right, BORROW));
    case OrElse(value, fallback, _) =>
      OrElseJoins(e, ctx);
      ExprPasses(value, Transfer(ctx, value));
      ExprPasses(fallback, Transfer(ctx, fallback));
      PassBoth(Ex(e, ctx), Ex(value, Transfer(ctx, value)), [1], Ex(fallback, Transfer(ctx, fallback)));
    case OrBlock(value, handler, _) =>
      OrBlockJoins(e, ctx);
      ExprPasses(value, Transfer(ctx, value));
      BlockPasses(handler);
      PassBoth(Ex(e, ctx), Ex(value, Transfer(ctx, value)), [1], Block(handler));
    case Match(value, arms, _) =>
      MatchJoins(e, ctx, 0);
      ExprPasses(value, BORROW);
      ArmPasses(arms[0], ctx);
      PassBoth(Ex(e, ctx), Ex(value, BORROW), [0], ArmPart(arms[0], ctx));
    case _ =>
      StrictSame(e, ctx);
      OperandsPass(e, 0);
      PassSame(Ex(e, ctx), Ops(e, 0));
  }

  lemma {:induction false} OperandsPass(e: Expr, i: nat)
    requires Strict(e) && PlainOperands(e) && i <= |StrictOperands(e)|
    ensures Passable(Ops(e, i))
    decreases e, 1, |StrictOperands(e)| - i
  {
    hide Joins, Passable;
    PassSimple(Nothing);
    if i == |StrictOperands(e)| {
      OperandsDone(e);
      PassSame(Ops(e, i), Nothing);
    } else {
      var o := StrictOperands(e)[i];
      OperandJoins(e, i);
      ExprPasses(o.expr, o.ctx);
      OperandsPass(e, i + 1);
      PassBoth(Ops(e, i), Ex(o.expr, o.ctx), [], Ops(e, i + 1));
    }
  }

  lemma {:induction false} ArmPasses(arm: Arm, ctx: Context)
    requires PlainArm(arm)
    ensures Passable(ArmPart(arm, ctx))
    decreases arm, 2
  {
    hide Joins, Passable;
    match arm
    case ArmBlock(_, block) => StmtsPass(block); PassScope(ArmPart(arm, ctx).binding, Seq(block));
    case ArmExpr(_, body) => ExprPasses(body, Transfer(ctx, body)); PassScope(ArmPart(arm, ctx).binding, Ex(body, Transfer(ctx, body)));
  }

  lemma {:induction false} BlockPasses(block: seq<Stmt>)
    requires PlainStmts(block)
    ensures Passable(Block(block))
    decreases block, 2
  {
    hide Passable;
    StmtsPass(block);
    PassScope(None, Seq(block));
  }

  lemma {:induction false} StmtsPass(block: seq<Stmt>)
    requires PlainStmts(block)
    ensures Passable(Seq(block))
    decreases block, 1
  {
    hide Joins, Passable;
    PassSimple(Nothing);
    if block == [] {
      NoStatements();
      PassSame(Seq([]), Nothing);
    } else {
      StatementJoins(block);
      StmtPasses(block[0]);
      StmtsPass(block[1..]);
      PassBoth(Seq(block), St(block[0]), [], Seq(block[1..]));
    }
  }

  lemma {:induction false} StmtPasses(stmt: Stmt)
    requires PlainStmt(stmt)
    ensures Passable(St(stmt))
    decreases stmt, 2
  {
    hide Joins, Passable;
    PassSimple(Nothing);
    StatementSame(stmt);
    match stmt
    case Let(name, mutable, value) =>
      LetJoins(stmt);
      ExprPasses(value, Transfer(MOVE, value));
      PassSimple(Declaring(name, value.ty, mutable));
      PassBoth(St(stmt), Ex(value, Transfer(MOVE, value)), [], Declaring(name, value.ty, mutable));
    case ExprStmt(expr) => ExprPasses(expr, BORROW); PassSame(St(stmt), Ex(expr, BORROW));
    case IfStmt(branch) => IfPasses(branch); PassSame(St(stmt), Br(branch));
    case While(condition, _) =>
      WhileJoins(stmt);
      ExprPasses(condition, BORROW);
      PassBoth(St(stmt), Ex(condition, BORROW), [0], Nothing);
    case For(_, iterable, _) =>
      ForJoins(stmt);
      ExprPasses(iterable, BORROW);
      RoundsPass(stmt);
      PassBoth(St(stmt), Ex(iterable, BORROW), [], Rounds(stmt));
  }

  /** A `for` may make no round at all. */
  lemma RoundsPass(loop: Stmt)
    requires loop.For?
    ensures Passable(Rounds(loop)) && forall d: Run :: d.scopes != [] ==> Goes(Rounds(loop), d, [0], d)
  {
    hide Later, Goes;
    forall d: Run | d.scopes != [] ensures Goes(Rounds(loop), d, [0], d) {
      forall x: seq<nat> ensures RunPart(Rounds(loop), d, [0] + x) == Outcome(d, x, Normal) { assert ([0] + x)[1..] == x; }
      Gone(Rounds(loop), d, [0], d);
    }
  }

  lemma {:induction false} IfPasses(branch: If)
    requires PlainIf(branch)
    ensures Passable(Br(branch))
    decreases branch, 2
  {
    hide Joins, Passable;
    IfJoins(branch);
    ExprPasses(branch.condition, BORROW);
    BlockPasses(branch.thenBlock);
    PassBoth(Br(branch), Ex(branch.condition, BORROW), [0], Block(branch.thenBlock));
  }

  lemma {:induction false} ElsePasses(els: Else)
    requires PlainElse(els)
    ensures Passable(El(els))
    decreases els, 2
  {
    hide Joins, Passable;
    ElseSame(els);
    PassSimple(Nothing);
    match els
    case NoElse => PassSame(El(els), Nothing);
    case ElseBlock(block) => BlockPasses(block); PassSame(El(els), Block(block));
    case ElseIf(branch) => IfPasses(branch); PassSame(El(els), Br(branch));
  }
}
