/** `AffineResourceChecker` itself: a mutable walk over the tree, proved to compute AffineCheck's functions. */
module AffineChecker {
  import opened Options
  import opened AffineSyntax
  import opened AffineCheck

  /** A raised SemanticError is a code; `None` means the call returned. */
  type Raised = Option<Code>

  ghost predicate Gives(v: Verdict, err: Raised, s: State) {
    match err
    case None => v == Ok(s)
    case Some(code) => v == Error(code)
  }

  lemma EntryOperandsAt(entries: seq<Entry>, i: nat)
    requires i < |entries|
    ensures var r := EntryOperands(entries);
      && r[2 * i] == Operand(entries[i].key, BORROW)
      && r[2 * i + 1] == Operand(entries[i].value, Transfer(MOVE, entries[i].value))
  {
    hide Transfer;
    assert 2 * i / 2 == i && (2 * i + 1) / 2 == i;
  }

  class Checker {
    var scopes: seq<Scope>
    var moved: set<nat>
    var nextBindingId: nat
    ghost var quiet: bool

    ghost function Now(): State
      reads this
    {
      State(scopes, moved, nextBindingId, quiet)
    }

    constructor ()
      ensures Now() == State([], {}, 1, true)
    {
      scopes, moved, nextBindingId, quiet := [], {}, 1, true;
    }

    method CheckAll(functions: seq<Function>) returns (err: Raised)
      requires scopes == [] && moved == {} && quiet
      modifies this
      ensures match CheckProgram(functions, old(nextBindingId))
        case Accepted(next, q) => err == None && Now() == State([], {}, next, q)
        case Rejected(code) => err == Some(code) && scopes == [] && moved == {}
    {
      err := None;
      ghost var total := true;
      for i := 0 to |functions|
        invariant scopes == [] && moved == {} && quiet && err == None
        invariant CheckProgram(functions, old(nextBindingId)) ==
          match CheckProgram(functions[i..], nextBindingId)
          case Accepted(n, q) => Accepted(n, total && q)
          case Rejected(code) => Rejected(code)
      {
        assert functions[i..][1..] == functions[i + 1..];
        err := CheckOne(functions[i]);
        if err.Some? { return; }
        total, quiet := total && quiet, true;
      }
      quiet := total;
    }

    /** One declaration: its parameters, its body, and the clean-up that also follows a failure. */
    method CheckOne(f: Function) returns (err: Raised)
      requires scopes == [] && moved == {} && quiet
      modifies this
      ensures scopes == [] && moved == {}
      ensures match CheckFunction(f, old(nextBindingId))
        case Ok(s) => err == None && nextBindingId == s.next && quiet == s.quiet
        case Error(code) => err == Some(code)
    {
      hide CheckStmts, CheckStmt, Ids, DeclareAll;
      scopes := scopes + [map[]];
      assert Now() == State([map[]], {}, old(nextBindingId), true);
      DeclareParameters(f.parameters);
      err := CheckStatements(f.body);
      scopes := scopes[..|scopes| - 1];
      moved := {};
    }

    method DeclareParameters(parameters: seq<Parameter>)
      requires scopes != []
      modifies this
      ensures Now() == DeclareAll(parameters, old(Now())) && |scopes| == |old(scopes)|
    {
      for j := 0 to |parameters|
        invariant |scopes| == |old(scopes)|
        invariant DeclareAll(parameters, old(Now())) == DeclareAll(parameters[j..], Now())
      {
        var rest := parameters[j..];
        var e := DeclareBinding(rest[0].name, rest[0].ty, false);
        assert rest[1..] == parameters[j + 1..];
      }
    }

    method DeclareBinding(name: string, ty: Ty, mutable: bool) returns (err: Raised)
      requires scopes != []
      modifies this
      ensures Gives(Declare(old(Now()), name, ty, mutable), err, Now()) && |scopes| == |old(scopes)|
    {
      if mutable && ty.affine { return Some(KS3930); }
      var top := |scopes| - 1;
      scopes := scopes[top := scopes[top][name := Binding(nextBindingId, ty)]];
      nextBindingId := nextBindingId + 1;
      return None;
    }

    method ResolveName(name: string) returns (r: Option<Binding>)
      ensures r == Resolve(scopes, name)
    {
      var k := |scopes|;
      assert scopes[..k] == scopes;
      while k > 0
        invariant 0 <= k <= |scopes|
        invariant Resolve(scopes, name) == Resolve(scopes[..k], name)
      {
        k := k - 1;
        if name in scopes[k] { return Some(scopes[k][name]); }
        assert scopes[..k + 1][..k] == scopes[..k];
      }
      return None;
    }

    method UseIdentifier(name: string, ctx: Context) returns (err: Raised)
      modifies this
      ensures Gives(UseName(old(Now()), name, ctx), err, Now()) && |scopes| == |old(scopes)|
    {
      var b := ResolveName(name);
      if b.None? || !b.value.ty.affine { return None; }
      if b.value.id in moved { return Some(KS3931); }
      if ctx == MOVE { moved := moved + {b.value.id}; }
      return None;
    }

    method RootIdentifier(e: Expr) returns (r: Option<string>)
      ensures r == Root(e)
    {
      var current := e;
      while current.Member?
        invariant Root(current) == Root(e)
        decreases current
      {
        current := current.obj;
      }
      return if current.Identifier? then Some(current.name) else None;
    }

    /** `_check_block` with `nested=True`. */
    method CheckNested(block: seq<Stmt>) returns (err: Raised)
      modifies this
      ensures Gives(CheckBlock(block, old(Now())), err, Now()) && |scopes| == |old(scopes)|
      decreases block, 1
    {
      scopes := scopes + [map[]];
      err := CheckStatements(block);
      var top := scopes[|scopes| - 1];
      moved := moved - set name | name in top :: top[name].id;
      scopes := scopes[..|scopes| - 1];
    }

    /** `_check_block` with `nested=False`. */
    method CheckStatements(block: seq<Stmt>) returns (err: Raised)
      requires scopes != []
      modifies this
      ensures Gives(CheckStmts(block, old(Now())), err, Now()) && |scopes| == |old(scopes)|
      decreases block, 0
    {
      for i := 0 to |block|
        invariant |scopes| == |old(scopes)|
        invariant CheckStmts(block, old(Now())) == CheckStmts(block[i..], Now())
      {
        assert block[i..][1..] == block[i + 1..];
        err := CheckStatement(block[i]);
        if err.Some? { return; }
      }
      return None;
    }

    method CheckStatement(stmt: Stmt) returns (err: Raised)
      requires scopes != []
      modifies this
      ensures Gives(CheckStmt(stmt, old(Now())), err, Now()) && |scopes| == |old(scopes)|
      decreases stmt, 2
    {
      match stmt
      case Let(name, mutable, value) =>
        err := CheckExpression(value, if value.ty.affine then MOVE else BORROW);
        if err.Some? { return; }
        err := DeclareBinding(name, value.ty, mutable);
      case Return(None) => err := None;
      case Return(Some(value)) => err := CheckExpression(value, if value.ty.affine then MOVE else BORROW);
      case ExprStmt(expr) => err := CheckExpression(expr, BORROW);
      case IfStmt(branch) => err := CheckBranches(branch);
      case While(condition, body) =>
        ghost var start := moved;
        err := CheckExpression(condition, BORROW);
        if err.Some? { return; }
        quiet := quiet && (moved - start) * Ids(scopes) == {};
        err := CheckRepeating(body);
      case For(_, _, _) => err := CheckFor(stmt);
      case Break => err := None;
      case Continue => err := None;
    }

    method CheckRepeating(block: seq<Stmt>) returns (err: Raised)
      modifies this
      ensures Gives(Repeat(old(Now()), CheckBlock(block, old(Now()))), err, Now()) && |scopes| == |old(scopes)|
      decreases block, 2
    {
      var outer := Ids(scopes);
      var before := moved;
      err := CheckNested(block);
      if err == None && (moved - before) * outer != {} { err := Some(KS3932); }
      moved := before;
    }

    method CheckFor(stmt: Stmt) returns (err: Raised)
      requires stmt.For? && scopes != []
      modifies this
      ensures Gives(CheckStmt(stmt, old(Now())), err, Now()) && |scopes| == |old(scopes)|
      decreases stmt, 1
    {
      hide CheckStmts, CheckExpr;
      err := CheckExpression(stmt.iterable, BORROW);
      if err.Some? { return; }
      ghost var entry := Now();
      var outer := Ids(scopes);
      var before := moved;
      scopes := scopes + [map[]];
      var itemType := if |stmt.iterable.ty.arguments| > 0 then stmt.iterable.ty.arguments[0] else UNKNOWN;
      err := DeclareBinding(stmt.variable, itemType, false);
      assert Now() == ForStart(stmt, entry);
      err := CheckStatements(stmt.body);
      if err == None && (moved - before) * outer != {} { err := Some(KS3932); }
      scopes := scopes[..|scopes| - 1];
      assert err == None ==> scopes == entry.scopes;
      moved := before;
    }

    /** The condition of an `if` followed by `_check_if`. */
    method CheckBranches(branch: If) returns (err: Raised)
      modifies this
      ensures Gives(CheckIf(branch, old(Now())), err, Now()) && |scopes| == |old(scopes)|
      decreases branch
    {
      err := CheckExpression(branch.condition, BORROW);
      if err.Some? { return; }
      var outer := Ids(scopes);
      var before := moved;
      err := CheckNested(branch.thenBlock);
      if err.Some? { return; }
      var thenMoved := moved * outer;
      moved := before;
      match branch.els {
        case NoElse =>
        case ElseBlock(block) => err := CheckNested(block);
        case ElseIf(inner) => err := CheckBranches(inner);
      }
      if err.Some? { return; }
      var elseMoved := moved * outer;
      moved := before + thenMoved + elseMoved;
    }

    method CheckExpression(e: Expr, ctx: Context) returns (err: Raised)
      modifies this
      ensures Gives(CheckExpr(e, ctx, old(Now())), err, Now()) && |scopes| == |old(scopes)|
      decreases e, 2
    {
      hide CheckStmts, CheckOperands, Resolve, Ids, CheckArms;
      match e
      case Literal(_) => err := None;
      case Identifier(name, _) => err := UseIdentifier(name, ctx);
      case Member(_, _) => err := CheckMember(e, ctx);
      case Binary(left, right, _) =>
        err := CheckExpression(left, BORROW);
        if err.Some? { return; }
        err := CheckExpression(right, BORROW);
      case OrReturn(value, error, _) =>
        err := CheckExpression(value, if value.ty.affine then ctx else BORROW);
        if err.Some? || error.None? { return; }
        err := CheckExpression(error.value, if error.value.ty.affine then MOVE else BORROW);
      case OrElse(value, fallback, _) =>
        err := CheckExpression(value, if value.ty.affine then ctx else BORROW);
        if err.Some? { return; }
        err := CheckExpression(fallback, if fallback.ty.affine then ctx else BORROW);
      case OrBlock(value, handler, _) =>
        err := CheckExpression(value, if value.ty.affine then ctx else BORROW);
        if err.Some? { return; }
        err := CheckNested(handler);
      case Match(value, arms, _) =>
        err := CheckExpression(value, BORROW);
        if err.Some? { return; }
        err := CheckMatchArms(arms, ctx);
      case _ => err := CheckStrict(e);
    }

    method CheckMember(e: Expr, ctx: Context) returns (err: Raised)
      requires e.Member?
      modifies this
      ensures Gives(CheckExpr(e, ctx, old(Now())), err, Now()) && |scopes| == |old(scopes)|
      decreases e, 1
    {
      err := CheckExpression(e.obj, BORROW);
      if err.Some? { return; }
      if ctx == MOVE && e.ty.affine && !(e.obj.ty.name == "SystemCaps" && e.obj.ty.arguments == []) {
        var root := RootIdentifier(e.obj);
        if root.Some? {
          var b := ResolveName(root.value);
          if b.Some? && b.value.ty.affine {
            if b.value.id in moved { return Some(KS3931); }
            moved := moved + {b.value.id};
          }
        }
      }
    }

    method CheckMatchArms(arms: seq<Arm>, ctx: Context) returns (err: Raised)
      modifies this
      ensures Gives(CheckArms(arms, ctx, old(Now()), old(Now())), err, Now()) && |scopes| == |old(scopes)|
      decreases arms
    {
      var outer := Ids(scopes);
      var before := moved;
      var joined := before;
      err := None;
      for i := 0 to |arms|
        invariant scopes == old(scopes) && err == None
        invariant CheckArms(arms, ctx, old(Now()), old(Now()))
               == CheckArms(arms[i..], ctx, old(Now()), Now().(moved := joined))
      {
        assert arms[i..][1..] == arms[i + 1..];
        ghost var acc := Now().(moved := joined);
        moved := before;
        scopes := scopes + [map[]];
        assert Now() == ArmStart(old(Now()), acc);
        err := CheckMatchArm(arms[i], ctx);
        if err == None { joined := joined + moved * outer; }
        scopes := scopes[..|scopes| - 1];
        if err.Some? { return; }
      }
      moved := joined;
    }

    method CheckMatchArm(arm: Arm, ctx: Context) returns (err: Raised)
      requires scopes != []
      modifies this
      ensures Gives(CheckArm(arm, ctx, old(Now())), err, Now()) && |scopes| == |old(scopes)|
      decreases arm
    {
      if arm.binding.Some? {
        err := DeclareBinding(arm.binding.value, UNKNOWN, false);
      }
      match arm
      case ArmBlock(_, block) => err := CheckStatements(block);
      case ArmExpr(_, body) => err := CheckExpression(body, if body.ty.affine then ctx else BORROW);
    }

    /** The expressions that visit each of their parts once, in order. */
    method CheckStrict(e: Expr) returns (err: Raised)
      requires Strict(e)
      modifies this
      ensures Gives(CheckOperands(e, 0, old(Now())), err, Now()) && |scopes| == |old(scopes)|
      decreases e, 1, 1
    {
      hide CheckExpr, CheckOperands, EntryOperands, Resolve, Ids;
      assert StrictOperands(e)[0..] == StrictOperands(e);
      match e
      case Interpolated(parts, _) => err := CheckEach(e, parts, 0, BORROW);
      case ListLiteral(items, _) => err := CheckEach(e, items, 0, MOVE);
      case StructLiteral(fields, _) => err := CheckEach(e, fields, 0, MOVE);
      case MapLiteral(_, _) => err := CheckEntries(e);
      case Call(_, _, _) => err := CheckCall(e);
      case Unary(_, _) => err := CheckUnary(e);
      case Assignment(_, _, _) => err := CheckAssignment(e);
    }

    method CheckUnary(e: Expr) returns (err: Raised)
      requires e.Unary?
      modifies this
      ensures Gives(CheckOperands(e, 0, old(Now())), err, Now()) && |scopes| == |old(scopes)|
      decreases e, 1, 0
    {
      hide CheckExpr, EntryOperands, Resolve, Ids;
      err := CheckExpression(e.operand, BORROW);
      assert err == None ==> CheckOperands(e, 0, old(Now())) == CheckOperands(e, 1, Now());
    }

    method CheckAssignment(e: Expr) returns (err: Raised)
      requires e.Assignment?
      modifies this
      ensures Gives(CheckOperands(e, 0, old(Now())), err, Now()) && |scopes| == |old(scopes)|
      decreases e, 1, 0
    {
      hide CheckExpr, EntryOperands, Resolve, Ids;
      err := CheckExpression(e.value, if e.value.ty.affine then MOVE else BORROW);
      if err.Some? { return; }
      assert CheckOperands(e, 0, old(Now())) == CheckOperands(e, 1, Now());
      err := CheckExpression(e.target, BORROW);
      assert err == None ==> CheckOperands(e, 0, old(Now())) == CheckOperands(e, 2, Now());
    }

    method CheckCall(e: Expr) returns (err: Raised)
      requires e.Call?
      modifies this
      ensures Gives(CheckOperands(e, 0, old(Now())), err, Now()) && |scopes| == |old(scopes)|
      decreases e, 1, 0
    {
      hide CheckExpr, EntryOperands, Resolve, Ids;
      if e.callee.Member? {
        err := CheckExpression(e.callee.obj, BORROW);
      } else {
        err := CheckExpression(e.callee, BORROW);
      }
      if err.Some? { return; }
      assert StrictOperands(e)[1..] == Operands(e.arguments, MOVE);
      err := CheckEach(e, e.arguments, 1, MOVE);
    }

    method CheckEntries(e: Expr) returns (err: Raised)
      requires e.MapLiteral?
      modifies this
      ensures Gives(CheckOperands(e, 0, old(Now())), err, Now()) && |scopes| == |old(scopes)|
      decreases e, 0
    {
      var entries := e.entries;
      for i := 0 to |entries|
        invariant |scopes| == |old(scopes)|
        invariant CheckOperands(e, 0, old(Now())) == CheckOperands(e, 2 * i, Now())
      {
        EntryOperandsAt(entries, i);
        assert entries[i] in entries;
        err := CheckExpression(entries[i].key, BORROW);
        if err.Some? { return; }
        assert CheckOperands(e, 0, old(Now())) == CheckOperands(e, 2 * i + 1, Now());
        err := CheckExpression(entries[i].value, if entries[i].value.ty.affine then MOVE else BORROW);
        if err.Some? { return; }
      }
      return None;
    }

    /** The loop over the parts of a literal or the arguments of a call. */
    method CheckEach(e: Expr, parts: seq<Expr>, skip: nat, ctx: Context) returns (err: Raised)
      requires Strict(e) && skip <= |StrictOperands(e)| && StrictOperands(e)[skip..] == Operands(parts, ctx)
      modifies this
      ensures Gives(CheckOperands(e, skip, old(Now())), err, Now()) && |scopes| == |old(scopes)|
      decreases e, 0
    {
      hide CheckExpr, EntryOperands, Resolve, Ids, StrictOperands;
      for i := 0 to |parts|
        invariant |scopes| == |old(scopes)|
        invariant CheckOperands(e, skip, old(Now())) == CheckOperands(e, skip + i, Now())
      {
        var part := parts[i];
        assert StrictOperands(e)[skip..][i] == Operand(part, Transfer(ctx, part));
        assert part < e by { assert StrictOperands(e)[skip + i].expr == part; }
        err := CheckExpression(part, if part.ty.affine then ctx else BORROW);
        if err.Some? { return; }
      }
      return None;
    }
  }
}
