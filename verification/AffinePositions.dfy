/** Which positions of an affine name move it and which only use it, as events of a run. */
module AffinePositions {
  import opened Options
  import opened AffineSyntax
  import opened AffinePaths

  datatype Position =
    | ListItem | MapKey | MapValue | StructField | Interpolation
    | Argument | Receiver | Callee | UnaryOperand | LeftOperand | MatchSubject
    | AssignedValue | AssignmentTarget
    | LetValue | ReturnValue | Statement | Condition | Iterable

  /** Ownership is transferred into containers, calls, assignments, bindings and results, and nowhere else. */
  const MOVING: set<Position> := {ListItem, MapValue, StructField, Argument, AssignedValue, LetValue, ReturnValue}

  const BLANK: Expr := Literal(UNKNOWN)

  /** A statement with `x` at the position and literals elsewhere. */
  function Placed(pos: Position, x: Expr): Stmt {
    match pos
    case ListItem => ExprStmt(ListLiteral([x], UNKNOWN))
    case MapKey => ExprStmt(MapLiteral([Entry(x, BLANK)], UNKNOWN))
    case MapValue => ExprStmt(MapLiteral([Entry(BLANK, x)], UNKNOWN))
    case StructField => ExprStmt(StructLiteral([x], UNKNOWN))
    case Interpolation => ExprStmt(Interpolated([x], UNKNOWN))
    case Argument => ExprStmt(Call(BLANK, [x], UNKNOWN))
    case Receiver => ExprStmt(Call(Member(x, UNKNOWN), [BLANK], UNKNOWN))
    case Callee => ExprStmt(Call(x, [BLANK], UNKNOWN))
    case UnaryOperand => ExprStmt(Unary(x, UNKNOWN))
    case LeftOperand => ExprStmt(Binary(x, BLANK, UNKNOWN))
    case MatchSubject => ExprStmt(Match(x, [ArmExpr(None, BLANK)], UNKNOWN))
    case AssignedValue => ExprStmt(Assignment(BLANK, x, UNKNOWN))
    case AssignmentTarget => ExprStmt(Assignment(x, BLANK, UNKNOWN))
    case LetValue => Let("v", false, x)
    case ReturnValue => Return(Some(x))
    case Statement => ExprStmt(x)
    case Condition => IfStmt(If(x, [], NoElse))
    case Iterable => For("v", x, [])
  }

  /** An affine name at a position emits exactly one event, a move in the moving positions and a use in the others. */
  lemma PositionDecides(pos: Position, name: string, ty: Ty, d: Run, j: nat)
    requires ty.affine && d.scopes != [] && AffineBinding(d.scopes, name) == Some(j)
    ensures RunStmt(Placed(pos, Identifier(name, ty)), d, []).run.trace == d.trace + [if pos in MOVING then Move(j) else Use(j)]
  {
    hide AffineBinding;
    var x := Identifier(name, ty);
    assert RunExpr(x, BORROW, d, []) == Outcome(Touch(d, name, BORROW), [], Normal);
    assert RunExpr(x, MOVE, d, []) == Outcome(Touch(d, name, MOVE), [], Normal);
    match pos
    case MapKey => EntryRun(Entry(x, BLANK), d);
    case MapValue => EntryRun(Entry(BLANK, x), d);
    case Argument => CallRun(BLANK, x, d);
    case Receiver => CallRun(Member(x, UNKNOWN), BLANK, d);
    case Callee => CallRun(x, BLANK, d);
    case AssignedValue => AssignmentRun(BLANK, x, d);
    case AssignmentTarget => AssignmentRun(x, BLANK, d);
    case ListItem => OneOperand(ListLiteral([x], UNKNOWN), d);
    case StructField => OneOperand(StructLiteral([x], UNKNOWN), d);
    case Interpolation => OneOperand(Interpolated([x], UNKNOWN), d);
    case UnaryOperand => OneOperand(Unary(x, UNKNOWN), d);
    case LeftOperand => assert RunExpr(Binary(x, BLANK, UNKNOWN), BORROW, d, []).run == Touch(d, name, BORROW);
    case MatchSubject => assert RunExpr(Match(x, [ArmExpr(None, BLANK)], UNKNOWN), BORROW, d, []).run == Touch(d, name, BORROW);
    case Condition => assert RunIf(If(x, [], NoElse), d, []).run == Touch(d, name, BORROW);
    case Iterable => assert RunFor(Placed(pos, x), Touch(d, name, BORROW), []).run == Touch(d, name, BORROW);
    case LetValue =>
    case ReturnValue =>
    case Statement =>
  }

  lemma OneOperand(e: Expr, d: Run)
    requires Strict(e) && |StrictOperands(e)| == 1
    ensures var o := StrictOperands(e)[0]; RunExpr(o.expr, o.ctx, d, []).flow == Normal ==>
      RunExpr(e, BORROW, d, []).run == RunExpr(o.expr, o.ctx, d, []).run
  {
    hide StrictOperands;
    var o := StrictOperands(e)[0];
    var r := RunExpr(o.expr, o.ctx, d, []);
    assert RunExpr(e, BORROW, d, []) == RunOperands(e, 0, d, []);
    if r.flow == Normal { assert RunOperands(e, 1, r.run, r.choices) == Outcome(r.run, r.choices, Normal); }
  }

  /** Two operands, in order. */
  lemma TwoOperands(e: Expr, d: Run)
    requires Strict(e) && |StrictOperands(e)| == 2
    ensures var o, p := StrictOperands(e)[0], StrictOperands(e)[1];
      var r := RunExpr(o.expr, o.ctx, d, []);
      r.flow == Normal && RunExpr(p.expr, p.ctx, r.run, r.choices).flow == Normal ==>
        RunExpr(e, BORROW, d, []).run == RunExpr(p.expr, p.ctx, r.run, r.choices).run
  {
    hide StrictOperands;
    var o, p := StrictOperands(e)[0], StrictOperands(e)[1];
    var r := RunExpr(o.expr, o.ctx, d, []);
    assert RunExpr(e, BORROW, d, []) == RunOperands(e, 0, d, []);
    if r.flow == Normal {
      var q := RunExpr(p.expr, p.ctx, r.run, r.choices);
      assert RunOperands(e, 0, d, []) == RunOperands(e, 1, r.run, r.choices);
      if q.flow == Normal { assert RunOperands(e, 2, q.run, q.choices) == Outcome(q.run, q.choices, Normal); }
    }
  }

  lemma EntryRun(entry: Entry, d: Run)
    requires (entry.key == BLANK && entry.value.Identifier?) || (entry.value == BLANK && entry.key.Identifier?)
    ensures RunExpr(MapLiteral([entry], UNKNOWN), BORROW, d, []).run ==
      if entry.key == BLANK then Touch(d, entry.value.name, Transfer(MOVE, entry.value)) else Touch(d, entry.key.name, BORROW)
  {
    hide AffineBinding;
    var e := MapLiteral([entry], UNKNOWN);
    assert StrictOperands(e) == [Operand(entry.key, BORROW), Operand(entry.value, Transfer(MOVE, entry.value))];
    TwoOperands(e, d);
  }

  lemma CallRun(callee: Expr, argument: Expr, d: Run)
    requires (callee == BLANK && argument.Identifier?)
      || (argument == BLANK && (callee.Identifier? || (callee.Member? && callee.obj.Identifier?)))
    ensures RunExpr(Call(callee, [argument], UNKNOWN), BORROW, d, []).run ==
      if callee == BLANK then Touch(d, argument.name, Transfer(MOVE, argument))
      else Touch(d, if callee.Member? then callee.obj.name else callee.name, BORROW)
  {
    hide AffineBinding;
    var e := Call(callee, [argument], UNKNOWN);
    assert StrictOperands(e) ==
      [Operand(if callee.Member? then callee.obj else callee, BORROW), Operand(argument, Transfer(MOVE, argument))];
    TwoOperands(e, d);
  }

  lemma AssignmentRun(target: Expr, value: Expr, d: Run)
    requires (target == BLANK && value.Identifier?) || (value == BLANK && target.Identifier?)
    ensures RunExpr(Assignment(target, value, UNKNOWN), BORROW, d, []).run ==
      if target == BLANK then Touch(d, value.name, Transfer(MOVE, value)) else Touch(d, target.name, BORROW)
  {
    hide AffineBinding;
    var e := Assignment(target, value, UNKNOWN);
    assert StrictOperands(e) == [Operand(value, Transfer(MOVE, value)), Operand(target, BORROW)];
    TwoOperands(e, d);
  }

  /** Arguments are moved from left to right, after the callee is used. */
  lemma ArgumentsInOrder(f: string, x: string, y: string, fty: Ty, ty: Ty, d: Run, i: nat, j: nat, k: nat)
    requires fty.affine && ty.affine && d.scopes != [] && AffineBinding(d.scopes, f) == Some(i)
    requires AffineBinding(d.scopes, x) == Some(j) && AffineBinding(d.scopes, y) == Some(k)
    ensures var call := Call(Identifier(f, fty), [Identifier(x, ty), Identifier(y, ty)], UNKNOWN);
      RunExpr(call, BORROW, d, []).run.trace == d.trace + [Use(i), Move(j), Move(k)]
  {
    hide AffineBinding;
    var call := Call(Identifier(f, fty), [Identifier(x, ty), Identifier(y, ty)], UNKNOWN);
    var ops := StrictOperands(call);
    assert ops == [Operand(Identifier(f, fty), BORROW), Operand(Identifier(x, ty), MOVE), Operand(Identifier(y, ty), MOVE)];
    var d1 := Touch(d, f, BORROW);
    var d2 := Touch(d1, x, MOVE);
    var d3 := Touch(d2, y, MOVE);
    assert RunOperands(call, 3, d3, []) == Outcome(d3, [], Normal);
    assert RunOperands(call, 2, d2, []) == RunOperands(call, 3, d3, []);
    assert RunOperands(call, 1, d1, []) == RunOperands(call, 2, d2, []);
    assert RunOperands(call, 0, d, []) == RunOperands(call, 1, d1, []);
    assert d3.trace == d.trace + [Use(i), Move(j), Move(k)];
  }
}
