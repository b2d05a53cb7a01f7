/** Execution paths of a function body: which affine binding instances a run uses and moves.
    Every declaration that a run executes creates a fresh instance, so the variable of a loop
    is a new instance in each iteration.  A path is picked by a list of choices; when the list
    runs out the run stops, so finite prefixes of endless runs are paths too.  */
module AffinePaths {
  import opened Options
  import opened AffineSyntax

  datatype Event = Use(inst: nat) | Move(inst: nat)

  /** Scopes hold instances, `next` is the first unused one, `trace` is everything done so far. */
  datatype Run = Run(scopes: seq<Scope>, next: nat, trace: seq<Event>)

  datatype Flow = Normal | Broke | Continued | Returned | Halted

  datatype Outcome = Outcome(run: Run, choices: seq<nat>, flow: Flow)

  /** The promise: once moved, an instance is never used or moved again. */
  ghost predicate Safe(trace: seq<Event>) {
    forall i, j :: 0 <= i < j < |trace| && trace[i].Move? ==> trace[j].inst != trace[i].inst
  }

  function Touch(d: Run, name: string, ctx: Context): (r: Run)
    ensures r.scopes == d.scopes && r.next == d.next
  {
    match AffineBinding(d.scopes, name)
    case None => d
    case Some(inst) => d.(trace := d.trace + [if ctx == MOVE then Move(inst) else Use(inst)])
  }

  function Enter(d: Run): Run {
    d.(scopes := d.scopes + [map[]])
  }

  function Fresh(d: Run, name: string, ty: Ty): Run
    requires d.scopes != []
  {
    d.(scopes := Bind(d.scopes, name, Binding(d.next, ty)), next := d.next + 1)
  }

  /** Whatever way a scope is left, the scopes around it are current again. */
  function Leave(entry: Run, r: Outcome): Outcome {
    r.(run := r.run.(scopes := entry.scopes))
  }

  /** Sequencing stops as soon as control leaves the normal flow or the choices run out. */
  predicate Stops(r: Outcome) {
    r.flow != Normal || r.choices == []
  }

  function Stop(r: Outcome): Outcome
    requires Stops(r)
  {
    if r.flow != Normal then r else r.(flow := Halted)
  }

  function RunExpr(e: Expr, ctx: Context, d: Run, c: seq<nat>): (r: Outcome)
    ensures |r.choices| <= |c| && d.next <= r.run.next && r.run.scopes == d.scopes
    decreases |c|, e, 1
  {
    match e
    case Literal(_) => Outcome(d, c, Normal)
    case Identifier(name, _) => Outcome(Touch(d, name, ctx), c, Normal)
    case Member(obj, _) =>
      var r := RunExpr(obj, BORROW, d, c);
      if r.flow != Normal || !MovesOwner(e, ctx) || Root(obj).None? then r
      else r.(run := Touch(r.run, Root(obj).value, MOVE))
    case Binary(left, right, _) =>
      // The right operand may be skipped: `&&`, `||`, or an error value on the left.
      var r := RunExpr(left, BORROW, d, c);
      if Stops(r) then Stop(r)
      else if r.choices[0] == 0 then r.(choices := r.choices[1..])
      else RunExpr(right, BORROW, r.run, r.choices[1..])
    case OrReturn(value, error, _) =>
      var r := RunExpr(value, Transfer(ctx, value), d, c);
      if Stops(r) then Stop(r)
      else if r.choices[0] == 0 then r.(choices := r.choices[1..])
      else if error.None? then r.(flow := Returned)
      else
        var f := RunExpr(error.value, Transfer(MOVE, error.value), r.run, r.choices[1..]);
        if f.flow != Normal then f else f.(flow := Returned)
    case OrElse(value, fallback, _) =>
      var r := RunExpr(value, Transfer(ctx, value), d, c);
      if Stops(r) then Stop(r)
      else if r.choices[0] == 0 then r.(choices := r.choices[1..])
      else RunExpr(fallback, Transfer(ctx, fallback), r.run, r.choices[1..])
    case OrBlock(value, handler, _) =>
      var r := RunExpr(value, Transfer(ctx, value), d, c);
      if Stops(r) then Stop(r)
      else if r.choices[0] == 0 then r.(choices := r.choices[1..])
      else RunBlock(handler, r.run, r.choices[1..])
    case Match(value, arms, _) =>
      var r := RunExpr(value, BORROW, d, c);
      if Stops(r) then Stop(r)
      else if r.choices[0] >= |arms| then r.(flow := Halted)
      else Leave(r.run, RunArm(arms[r.choices[0]], ctx, Enter(r.run), r.choices[1..]))
    case _ => RunOperands(e, 0, d, c)
  }

  function RunOperands(e: Expr, i: nat, d: Run, c: seq<nat>): (r: Outcome)
    requires Strict(e) && i <= |StrictOperands(e)|
    ensures |r.choices| <= |c| && d.next <= r.run.next && r.run.scopes == d.scopes
    decreases |c|, e, 0, |StrictOperands(e)| - i
  {
    var ops := StrictOperands(e);
    if i == |ops| then Outcome(d, c, Normal)
    else
      var r := RunExpr(ops[i].expr, ops[i].ctx, d, c);
      if r.flow != Normal then r else RunOperands(e, i + 1, r.run, r.choices)
  }

  function RunArm(arm: Arm, ctx: Context, d: Run, c: seq<nat>): (r: Outcome)
    requires d.scopes != []
    ensures |r.choices| <= |c| && d.next <= r.run.next
    decreases |c|, arm
  {
    var d' := if arm.binding.Some? then Fresh(d, arm.binding.value, UNKNOWN) else d;
    match arm
    case ArmBlock(_, block) => RunStmts(block, d', c)
    case ArmExpr(_, body) => RunExpr(body, Transfer(ctx, body), d', c)
  }

  function RunBlock(block: seq<Stmt>, d: Run, c: seq<nat>): (r: Outcome)
    ensures |r.choices| <= |c| && d.next <= r.run.next && r.run.scopes == d.scopes
    decreases |c|, block, 1
  {
    Leave(d, RunStmts(block, Enter(d), c))
  }

  function RunStmts(block: seq<Stmt>, d: Run, c: seq<nat>): (r: Outcome)
    requires d.scopes != []
    ensures |r.choices| <= |c| && d.next <= r.run.next
    decreases |c|, block, 0
  {
    if block == [] then Outcome(d, c, Normal)
    else
      var r := RunStmt(block[0], d, c);
      if r.flow != Normal then r else RunStmts(block[1..], r.run, r.choices)
  }

  function RunStmt(stmt: Stmt, d: Run, c: seq<nat>): (r: Outcome)
    requires d.scopes != []
    ensures |r.choices| <= |c| && d.next <= r.run.next && r.run.scopes != []
    decreases |c|, stmt, 1
  {
    match stmt
    case Let(name, _, value) =>
      var r := RunExpr(value, Transfer(MOVE, value), d, c);
      if r.flow != Normal then r else r.(run := Fresh(r.run, name, value.ty))
    case Return(None) => Outcome(d, c, Returned)
    case Return(Some(value)) =>
      var r := RunExpr(value, Transfer(MOVE, value), d, c);
      if r.flow != Normal then r else r.(flow := Returned)
    case ExprStmt(expr) => RunExpr(expr, BORROW, d, c)
    case IfStmt(branch) => RunIf(branch, d, c)
    case While(_, _) => RunWhile(stmt, d, c)
    case For(_, iterable, _) =>
      var r := RunExpr(iterable, BORROW, d, c);
      if r.flow != Normal then r else RunFor(stmt, r.run, r.choices)
    case Break => Outcome(d, c, Broke)
    case Continue => Outcome(d, c, Continued)
  }

  /** The condition is evaluated before every iteration; any number of iterations may follow. */
  function RunWhile(loop: Stmt, d: Run, c: seq<nat>): (r: Outcome)
    requires loop.While?
    ensures |r.choices| <= |c| && d.next <= r.run.next && r.run.scopes == d.scopes
    decreases |c|, loop, 0
  {
    var r := RunExpr(loop.condition, BORROW, d, c);
    if Stops(r) then Stop(r)
    else if r.choices[0] == 0 then r.(choices := r.choices[1..])
    else
      var b := RunBlock(loop.body, r.run, r.choices[1..]);
      if b.flow == Broke then b.(flow := Normal)
      else if b.flow == Returned || b.flow == Halted then b
      else if b.choices == [] then b.(flow := Halted)
      else if b.choices[0] == 0 then b.(choices := b.choices[1..], flow := Normal)  // the body gave an error value
      else RunWhile(loop, b.run, b.choices[1..])
  }

  function RunFor(loop: Stmt, d: Run, c: seq<nat>): (r: Outcome)
    requires loop.For?
    ensures |r.choices| <= |c| && d.next <= r.run.next && r.run.scopes == d.scopes
    decreases |c|, loop, 0
  {
    if c == [] then Outcome(d, c, Halted)
    else if c[0] == 0 then Outcome(d, c[1..], Normal)
    else
      var b := Leave(d, RunStmts(loop.body, Fresh(Enter(d), loop.variable, ItemType(loop.iterable)), c[1..]));
      if b.flow == Broke then b.(flow := Normal)
      else if b.flow == Returned || b.flow == Halted then b
      else RunFor(loop, b.run, b.choices)
  }

  /** 0 takes the `then` block, 1 the `else` branch; otherwise the condition was an error value. */
  function RunIf(branch: If, d: Run, c: seq<nat>): (r: Outcome)
    ensures |r.choices| <= |c| && d.next <= r.run.next && r.run.scopes == d.scopes
    decreases |c|, branch
  {
    var r := RunExpr(branch.condition, BORROW, d, c);
    if Stops(r) then Stop(r)
    else if r.choices[0] == 0 then RunBlock(branch.thenBlock, r.run, r.choices[1..])
    else if r.choices[0] == 1 then RunElse(branch.els, r.run, r.choices[1..])
    else r.(choices := r.choices[1..])
  }

  function RunElse(els: Else, d: Run, c: seq<nat>): (r: Outcome)
    ensures |r.choices| <= |c| && d.next <= r.run.next && r.run.scopes == d.scopes
    decreases |c|, els
  {
    match els
    case NoElse => Outcome(d, c, Normal)
    case ElseBlock(block) => RunBlock(block, d, c)
    case ElseIf(branch) => RunIf(branch, d, c)
  }

  function FreshAll(parameters: seq<Parameter>, d: Run): (r: Run)
    requires d.scopes != []
    ensures r.scopes != []
  {
    if parameters == [] then d
    else FreshAll(parameters[1..], Fresh(d, parameters[0].name, parameters[0].ty))
  }

  /** The events of the path of `f` that the given choices pick. */
  function Path(f: Function, choices: seq<nat>): seq<Event> {
    RunStmts(f.body, FreshAll(f.parameters, Run([map[]], 0, [])), choices).run.trace
  }
}
