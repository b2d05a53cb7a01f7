/** How every construct without early exits is put together from its parts, in the paths and in the check. */
module AffineJoins {
  import opened Options
  import opened AffineSyntax
  import opened AffineCheck
  import opened AffinePaths
  import opened AffineTraces
  import opened AffineParts

  function Block(block: seq<Stmt>): Part {
    Scope(None, Seq(block))
  }

  function ArmPart(arm: Arm, ctx: Context): Part {
    var binding := if arm.binding.Some? then Some(Parameter(arm.binding.value, UNKNOWN)) else None;
    Scope(binding, match arm case ArmBlock(_, block) => Seq(block) case ArmExpr(_, body) => Ex(body, Transfer(ctx, body)))
  }

  function RoundPart(loop: Stmt): Part
    requires loop.For?
  {
    Scope(Some(Parameter(loop.variable, ItemType(loop.iterable))), Seq(loop.body))
  }

  lemma BlockRun(block: seq<Stmt>, d: Run, c: seq<nat>)
    requires d.scopes != []
    ensures Valid(Block(block)) && RunPart(Block(block), d, c) == RunBlock(block, d, c)
  {
    hide RunStmts;
    assert RunPart(Seq(block), Enter(d), c) == RunStmts(block, Enter(d), c);
  }

  lemma LaterTrace(d: Run, e: Run)
    requires Later(d, e)
    ensures d.trace <= e.trace
  {
  }

  /** The expression or branch `q` evaluates `p` first and then chooses. */
  lemma BinaryJoins(e: Expr, ctx: Context)
    requires e.Binary?
    ensures Joins(Ex(e, ctx), Ex(e.left, BORROW), [1], Ex(e.right, BORROW))
  {
    hide Later, Joins;
    forall d: Run, c | d.scopes != []
      ensures ChoosesAt(Ex(e, ctx), Ex(e.left, BORROW), 1, Ex(e.right, BORROW), d, c)
    {
      var r := RunExpr(e.left, BORROW, d, c);
      if !Stops(r) { PartTrace(Ex(e.right, BORROW), r.run, r.choices[1..]); }
    }
    ChoiceJoins(Ex(e, ctx), Ex(e.left, BORROW), 1, Ex(e.right, BORROW));
  }

  lemma PartTrace(p: Part, d: Run, c: seq<nat>)
    requires Valid(p) && d.scopes != []
    ensures d.trace <= RunPart(p, d, c).run.trace
  {
    hide RunPart;
    PartLater(p, d, c);
  }

  lemma OrElseJoins(e: Expr, ctx: Context)
    requires e.OrElse?
    ensures Joins(Ex(e, ctx), Ex(e.value, Transfer(ctx, e.value)), [1], Ex(e.fallback, Transfer(ctx, e.fallback)))
  {
    hide Later, Joins;
    var p, p' := Ex(e.value, Transfer(ctx, e.value)), Ex(e.fallback, Transfer(ctx, e.fallback));
    forall d: Run, c | d.scopes != [] ensures ChoosesAt(Ex(e, ctx), p, 1, p', d, c) {
      var r := RunPart(p, d, c);
      if !Stops(r) { PartTrace(p', r.run, r.choices[1..]); }
    }
    ChoiceJoins(Ex(e, ctx), p, 1, p');
  }

  lemma OrBlockJoins(e: Expr, ctx: Context)
    requires e.OrBlock?
    ensures Joins(Ex(e, ctx), Ex(e.value, Transfer(ctx, e.value)), [1], Block(e.handler))
  {
    hide Later, Joins, RunStmts;
    var p, p' := Ex(e.value, Transfer(ctx, e.value)), Block(e.handler);
    assert Valid(p') by { assert Valid(Seq(e.handler)); }
    forall d: Run, c | d.scopes != [] ensures ChoosesAt(Ex(e, ctx), p, 1, p', d, c) {
      var r := RunPart(p, d, c);
      if !Stops(r) {
        BlockRun(e.handler, r.run, r.choices[1..]);
        PartTrace(p', r.run, r.choices[1..]);
      }
    }
    ChoiceJoins(Ex(e, ctx), p, 1, p');
  }

  lemma ArmRun(arm: Arm, ctx: Context, d: Run, c: seq<nat>)
    requires d.scopes != []
    ensures RunPart(ArmPart(arm, ctx), d, c) == Leave(d, RunArm(arm, ctx, Enter(d), c))
  {
    hide RunStmts, RunExpr;
  }

  lemma MatchJoins(e: Expr, ctx: Context, i: nat)
    requires e.Match? && i < |e.arms|
    ensures Joins(Ex(e, ctx), Ex(e.value, BORROW), [i], ArmPart(e.arms[i], ctx))
  {
    hide Later, Joins, RunArm, ArmPart;
    var p, p' := Ex(e.value, BORROW), ArmPart(e.arms[i], ctx);
    ArmValid(e.arms[i], ctx);
    forall d: Run, c | d.scopes != [] ensures ChoosesAt(Ex(e, ctx), p, i, p', d, c) {
      var r := RunPart(p, d, c);
      if !Stops(r) && r.choices[0] < |e.arms| {
        var arm := e.arms[r.choices[0]];
        ArmValid(arm, ctx);
        ArmRun(arm, ctx, r.run, r.choices[1..]);
        PartTrace(ArmPart(arm, ctx), r.run, r.choices[1..]);
      }
    }
    ChoiceJoins(Ex(e, ctx), p, i, p');
  }

  lemma ArmValid(arm: Arm, ctx: Context)
    ensures Valid(ArmPart(arm, ctx))
  {
  }

  lemma IfJoins(branch: If)
    ensures Joins(Br(branch), Ex(branch.condition, BORROW), [0], Block(branch.thenBlock))
    ensures Joins(Br(branch), Ex(branch.condition, BORROW), [1], El(branch.els))
    ensures Joins(Br(branch), Ex(branch.condition, BORROW), [2], Nothing)
  {
    hide Later, Joins, RunStmts, RunElse, RunExpr;
    var p, t := Ex(branch.condition, BORROW), Block(branch.thenBlock);
    assert Valid(t) by { assert Valid(Seq(branch.thenBlock)); }
    forall d: Run, c | d.scopes != []
      ensures ChoosesAt(Br(branch), p, 0, t, d, c) && ChoosesAt(Br(branch), p, 1, El(branch.els), d, c)
      ensures ChoosesAt(Br(branch), p, 2, Nothing, d, c)
    {
      var r := RunPart(p, d, c);
      if !Stops(r) {
        BlockRun(branch.thenBlock, r.run, r.choices[1..]);
        PartTrace(t, r.run, r.choices[1..]);
        PartTrace(El(branch.els), r.run, r.choices[1..]);
      }
    }
    ChoiceJoins(Br(branch), p, 0, t);
    ChoiceJoins(Br(branch), p, 1, El(branch.els));
    ChoiceJoins(Br(branch), p, 2, Nothing);
  }

  /** A `while` whose body does not run. */
  lemma WhileJoins(loop: Stmt)
    requires loop.While?
    ensures Joins(St(loop), Ex(loop.condition, BORROW), [0], Nothing)
  {
    hide Later, Joins, RunBlock, RunExpr;
    var p := Ex(loop.condition, BORROW);
    forall d: Run, c | d.scopes != [] ensures ChoosesAt(St(loop), p, 0, Nothing, d, c) {
      WhileTrace(loop, d, c);
    }
    ChoiceJoins(St(loop), p, 0, Nothing);
  }

  /** The condition's events come first in a loop, and those of the first round after them. */
  lemma WhileTrace(loop: Stmt, d: Run, c: seq<nat>)
    requires loop.While? && d.scopes != []
    ensures var r := RunExpr(loop.condition, BORROW, d, c);
      && r.run.trace <= RunWhile(loop, d, c).run.trace
      && (!Stops(r) && r.choices[0] != 0 ==>
            RunBlock(loop.body, r.run, r.choices[1..]).run.trace <= RunWhile(loop, d, c).run.trace)
  {
    hide Later, RunBlock, RunExpr;
    var r := RunExpr(loop.condition, BORROW, d, c);
    if !Stops(r) && r.choices[0] != 0 {
      var b := RunBlock(loop.body, r.run, r.choices[1..]);
      BlockLater(loop.body, r.run, r.choices[1..]);
      LaterTrace(r.run, b.run);
      if (b.flow == Normal || b.flow == Continued) && b.choices != [] {
        WhileLater(loop, b.run, b.choices[1..]);
        LaterTrace(b.run, RunWhile(loop, b.run, b.choices[1..]).run);
      }
    }
  }

  // ----- Plain sequences

  lemma OperandJoins(e: Expr, i: nat)
    requires Strict(e) && i < |StrictOperands(e)|
    ensures Joins(Ops(e, i), Ex(StrictOperands(e)[i].expr, StrictOperands(e)[i].ctx), [], Ops(e, i + 1))
  {
    hide Later, Joins, RunExpr, StrictOperands;
    var o := StrictOperands(e)[i];
    var q, p, p' := Ops(e, i), Ex(o.expr, o.ctx), Ops(e, i + 1);
    forall d: Run, c | d.scopes != [] ensures FollowsAt(q, p, p', d, c) {
      var r := RunExpr(o.expr, o.ctx, d, c);
      PartTrace(p', r.run, r.choices);
    }
    FollowingJoins(q, p, p');
  }

  lemma StatementJoins(block: seq<Stmt>)
    requires block != []
    ensures Joins(Seq(block), St(block[0]), [], Seq(block[1..]))
  {
    hide Later, Joins, RunStmt;
    forall d: Run, c | d.scopes != [] ensures FollowsAt(Seq(block), St(block[0]), Seq(block[1..]), d, c) {
      var r := RunStmt(block[0], d, c);
      PartTrace(Seq(block[1..]), r.run, r.choices);
    }
    FollowingJoins(Seq(block), St(block[0]), Seq(block[1..]));
  }

  lemma LetJoins(stmt: Stmt)
    requires stmt.Let?
    ensures Joins(St(stmt), Ex(stmt.value, Transfer(MOVE, stmt.value)), [], Declaring(stmt.name, stmt.value.ty, stmt.mutable))
  {
    hide Later, Joins, RunExpr;
    var p, p' := Ex(stmt.value, Transfer(MOVE, stmt.value)), Declaring(stmt.name, stmt.value.ty, stmt.mutable);
    forall d: Run, c | d.scopes != [] ensures FollowsAt(St(stmt), p, p', d, c) {
      var r := RunPart(p, d, c);
      PartTrace(p', r.run, r.choices);
    }
    FollowingJoins(St(stmt), p, p');
  }

  lemma ForJoins(stmt: Stmt)
    requires stmt.For?
    ensures Joins(St(stmt), Ex(stmt.iterable, BORROW), [], Rounds(stmt))
  {
    hide Later, Joins, RunExpr, RunFor;
    var p := Ex(stmt.iterable, BORROW);
    forall d: Run, c | d.scopes != [] ensures FollowsAt(St(stmt), p, Rounds(stmt), d, c) {
      var r := RunPart(p, d, c);
      PartTrace(Rounds(stmt), r.run, r.choices);
    }
    FollowingJoins(St(stmt), p, Rounds(stmt));
  }

  lemma MemberJoins(e: Expr, ctx: Context)
    requires e.Member?
    ensures MovesOwner(e, ctx) && Root(e.obj).Some? ==>
      Joins(Ex(e, ctx), Ex(e.obj, BORROW), [], Touching(Root(e.obj).value, MOVE))
    ensures !(MovesOwner(e, ctx) && Root(e.obj).Some?) ==> Joins(Ex(e, ctx), Ex(e.obj, BORROW), [], Nothing)
  {
    hide Later, Joins, Resolve;
    var p := Ex(e.obj, BORROW);
    var p' := if MovesOwner(e, ctx) && Root(e.obj).Some? then Touching(Root(e.obj).value, MOVE) else Nothing;
    forall d: Run, c | d.scopes != [] ensures FollowsAt(Ex(e, ctx), p, p', d, c) {
      var r := RunPart(p, d, c);
      PartTrace(p', r.run, r.choices);
    }
    FollowingJoins(Ex(e, ctx), p, p');
  }

  /** `q` is `p` under another name. */
  lemma SameJoins(q: Part, p: Part)
    requires Valid(q) && Valid(p) && forall d: Run, c :: d.scopes != [] ==> RunPart(q, d, c) == RunPart(p, d, c)
    ensures Joins(q, p, [], Nothing)
  {
    hide Later, Joins;
    forall d: Run, c | d.scopes != [] ensures FollowsAt(q, p, Nothing, d, c) { }
    FollowingJoins(q, p, Nothing);
  }
}
