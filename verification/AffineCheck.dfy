/** What the ownership pass computes, as functions from a checker state to the next one. */
module AffineCheck {
  import opened Options
  import opened AffineSyntax

  /** The mutable state of the checker.  `quiet` is not part of the program: it records that
      no `while` condition checked so far moved a binding that was there before it. */
  datatype State = State(scopes: seq<Scope>, moved: set<nat>, next: nat, quiet: bool)

  datatype Code = KS3930 | KS3931 | KS3932

  datatype Verdict = Ok(s: State) | Error(code: Code)

  ghost predicate Open(s: State) {
    s.scopes != []
  }

  function Push(s: State): State {
    s.(scopes := s.scopes + [map[]])
  }

  /** `t` differs from `s` at most in its innermost scope. */
  ghost predicate SameOuter(s: State, t: State) {
    && |s.scopes| == |t.scopes| > 0
    && s.scopes[..|s.scopes| - 1] == t.scopes[..|s.scopes| - 1]
  }

  function Declare(s: State, name: string, ty: Ty, mutable: bool): (r: Verdict)
    requires Open(s)
    ensures r.Ok? ==> SameOuter(s, r.s)
  {
    if mutable && ty.affine then Error(KS3930)
    else Ok(s.(scopes := Bind(s.scopes, name, Binding(s.next, ty)), next := s.next + 1))
  }

  function UseName(s: State, name: string, ctx: Context): (r: Verdict)
    ensures r.Ok? ==> r.s.scopes == s.scopes
  {
    match AffineBinding(s.scopes, name)
    case None => Ok(s)
    case Some(id) =>
      if id in s.moved then Error(KS3931)
      else if ctx == MOVE then Ok(s.(moved := s.moved + {id})) else Ok(s)
  }

  /** Leaving a block forgets its own bindings. */
  function Pop(entry: State, s: State): State
    requires |s.scopes| == |entry.scopes| + 1
  {
    var local := set name | name in s.scopes[|entry.scopes|] :: s.scopes[|entry.scopes|][name].id;
    State(s.scopes[..|entry.scopes|], s.moved - local, s.next, s.quiet)
  }

  function CheckExpr(e: Expr, ctx: Context, s: State): (r: Verdict)
    ensures r.Ok? ==> r.s.scopes == s.scopes
    decreases e, 1
  {
    match e
    case Literal(_) => Ok(s)
    case Identifier(name, _) => UseName(s, name, ctx)
    case Member(obj, _) =>
      var r := CheckExpr(obj, BORROW, s);
      if r.Error? || !MovesOwner(e, ctx) || Root(obj).None? then r
      else UseName(r.s, Root(obj).value, MOVE)
    case Binary(left, right, _) =>
      var r := CheckExpr(left, BORROW, s);
      if r.Error? then r else CheckExpr(right, BORROW, r.s)
    case OrReturn(value, error, _) =>
      var r := CheckExpr(value, Transfer(ctx, value), s);
      if r.Error? || error.None? then r
      else CheckExpr(error.value, Transfer(MOVE, error.value), r.s)
    case OrElse(value, fallback, _) =>
      var r := CheckExpr(value, Transfer(ctx, value), s);
      if r.Error? then r else CheckExpr(fallback, Transfer(ctx, fallback), r.s)
    case OrBlock(value, handler, _) =>
      var r := CheckExpr(value, Transfer(ctx, value), s);
      if r.Error? then r else CheckBlock(handler, r.s)
    case Match(value, arms, _) =>
      var r := CheckExpr(value, BORROW, s);
      if r.Error? then r else CheckArms(arms, ctx, r.s, r.s)
    case _ => CheckOperands(e, 0, s)
  }

  function CheckOperands(e: Expr, i: nat, s: State): (r: Verdict)
    requires Strict(e) && i <= |StrictOperands(e)|
    ensures r.Ok? ==> r.s.scopes == s.scopes
    decreases e, 0, |StrictOperands(e)| - i
  {
    var ops := StrictOperands(e);
    if i == |ops| then Ok(s)
    else
      var r := CheckExpr(ops[i].expr, ops[i].ctx, s);
      if r.Error? then r else CheckOperands(e, i + 1, r.s)
  }

  /** Every arm starts from `before`; `joined` accumulates what the arms moved. */
  function CheckArms(arms: seq<Arm>, ctx: Context, before: State, joined: State): (r: Verdict)
    requires joined.scopes == before.scopes
    ensures r.Ok? ==> r.s.scopes == before.scopes
    decreases arms, 0
  {
    if arms == [] then Ok(joined)
    else
      var r := CheckArm(arms[0], ctx, ArmStart(before, joined));
      if r.Error? then r else CheckArms(arms[1..], ctx, before, ArmJoin(before, joined, r.s))
  }

  function ArmStart(before: State, joined: State): State {
    Push(State(before.scopes, before.moved, joined.next, joined.quiet))
  }

  function ArmJoin(before: State, joined: State, arm: State): State {
    State(before.scopes, joined.moved + arm.moved * Ids(before.scopes), arm.next, arm.quiet)
  }

  function CheckArm(arm: Arm, ctx: Context, s: State): (r: Verdict)
    requires Open(s)
    ensures r.Ok? ==> SameOuter(s, r.s)
    decreases arm
  {
    var d := if arm.binding.Some? then Declare(s, arm.binding.value, UNKNOWN, false) else Ok(s);
    if d.Error? then d
    else match arm
      case ArmBlock(_, block) => CheckStmts(block, d.s)
      case ArmExpr(_, body) => CheckExpr(body, Transfer(ctx, body), d.s)
  }

  function CheckBlock(block: seq<Stmt>, s: State): (r: Verdict)
    ensures r.Ok? ==> r.s.scopes == s.scopes
    decreases block, 1
  {
    var r := CheckStmts(block, Push(s));
    if r.Error? then r else Ok(Pop(s, r.s))
  }

  function CheckStmts(block: seq<Stmt>, s: State): (r: Verdict)
    requires Open(s)
    ensures r.Ok? ==> SameOuter(s, r.s)
    decreases block, 0
  {
    if block == [] then Ok(s)
    else
      var r := CheckStmt(block[0], s);
      if r.Error? then r else CheckStmts(block[1..], r.s)
  }

  function CheckStmt(stmt: Stmt, s: State): (r: Verdict)
    requires Open(s)
    ensures r.Ok? ==> SameOuter(s, r.s)
    decreases stmt
  {
    match stmt
    case Let(name, mutable, value) =>
      var r := CheckExpr(value, Transfer(MOVE, value), s);
      if r.Error? then r else Declare(r.s, name, value.ty, mutable)
    case Return(None) => Ok(s)
    case Return(Some(value)) => CheckExpr(value, Transfer(MOVE, value), s)
    case ExprStmt(expr) => CheckExpr(expr, BORROW, s)
    case IfStmt(branch) => CheckIf(branch, s)
    case While(condition, body) =>
      var r := CheckExpr(condition, BORROW, s);
      if r.Error? then r
      else
        var before := WhileStart(s, r.s);
        Repeat(before, CheckBlock(body, before))
    case For(variable, iterable, body) =>
      var r := CheckExpr(iterable, BORROW, s);
      if r.Error? then r else Repeat(r.s, CheckStmts(body, ForStart(stmt, r.s)))
    case Break => Ok(s)
    case Continue => Ok(s)
  }

  /** The condition of a `while` is checked once, before the body, and not as part of what repeats. */
  function WhileStart(s: State, c: State): State {
    c.(quiet := c.quiet && (c.moved - s.moved) * Ids(s.scopes) == {})
  }

  function ForStart(loop: Stmt, c: State): (r: State)
    requires loop.For?
    ensures Open(r) && r.next == c.next + 1 && r.quiet == c.quiet
  {
    Declare(Push(c), loop.variable, ItemType(loop.iterable), false).s
  }

  /** A repeated body may not move a binding that outlives one iteration; the ownership state
      after the loop is the one before it. */
  function Repeat(before: State, body: Verdict): (r: Verdict)
    ensures r.Ok? ==> r.s.scopes == before.scopes
  {
    if body.Error? then body
    else if (body.s.moved - before.moved) * Ids(before.scopes) != {} then Error(KS3932)
    else Ok(before.(next := body.s.next, quiet := body.s.quiet))
  }

  /** Either branch may have run: what one of them moved is gone afterwards. */
  function CheckIf(branch: If, s: State): (r: Verdict)
    ensures r.Ok? ==> r.s.scopes == s.scopes
    decreases branch
  {
    var c := CheckExpr(branch.condition, BORROW, s);
    if c.Error? then c
    else
      var t := CheckBlock(branch.thenBlock, c.s);
      if t.Error? then t
      else
        var f := CheckElse(branch.els, c.s.(next := t.s.next, quiet := t.s.quiet));
        if f.Error? then f
        else Ok(f.s.(moved := c.s.moved + t.s.moved * Ids(c.s.scopes) + f.s.moved * Ids(c.s.scopes)))
  }

  function CheckElse(els: Else, s: State): (r: Verdict)
    ensures r.Ok? ==> r.s.scopes == s.scopes
    decreases els
  {
    match els
    case NoElse => Ok(s)
    case ElseBlock(block) => CheckBlock(block, s)
    case ElseIf(branch) => CheckIf(branch, s)
  }

  function DeclareAll(parameters: seq<Parameter>, s: State): (r: State)
    requires Open(s)
    ensures SameOuter(s, r)
  {
    if parameters == [] then s
    else DeclareAll(parameters[1..], Declare(s, parameters[0].name, parameters[0].ty, false).s)
  }

  /** One function, starting from whatever identities earlier functions already used up. */
  function CheckFunction(f: Function, next: nat): Verdict {
    CheckStmts(f.body, DeclareAll(f.parameters, State([map[]], {}, next, true)))
  }

  /** The checks of a whole program, function by function; `quiet` is the conjunction over all of them. */
  datatype ProgramVerdict = Accepted(next: nat, quiet: bool) | Rejected(code: Code)

  function CheckProgram(functions: seq<Function>, next: nat): ProgramVerdict {
    if functions == [] then Accepted(next, true)
    else
      match CheckFunction(functions[0], next)
      case Error(code) => Rejected(code)
      case Ok(s) =>
        match CheckProgram(functions[1..], s.next)
        case Accepted(n, q) => Accepted(n, s.quiet && q)
        case Rejected(code) => Rejected(code)
  }
}
