/** Why `while` conditions must not move: a condition that moves an outer instance and can be reached
    again is unsafe.  The proof replays a path from another state with the same scopes.  */
module AffineConverse {
  import opened Options
  import opened AffineSyntax
  import opened AffinePaths

  /** Instances below `n` are the same on both sides; newer ones may differ. */
  ghost predicate Alike(n: nat, a: nat, b: nat) {
    a < n || b < n ==> a == b
  }

  ghost predicate AlikeTraces(n: nat, a: seq<Event>, b: seq<Event>) {
    && |a| == |b|
    && forall i :: 0 <= i < |a| ==> a[i].Move? == b[i].Move? && Alike(n, a[i].inst, b[i].inst)
  }

  ghost predicate AlikeScopes(n: nat, a: seq<Scope>, b: seq<Scope>) {
    && |a| == |b|
    && (forall k :: 0 <= k < |a| ==> a[k].Keys == b[k].Keys)
    && forall k, name :: 0 <= k < |a| && name in a[k] ==>
         a[k][name].ty == b[k][name].ty && Alike(n, a[k][name].id, b[k][name].id)
  }

  /** A replay: the original run began after the trace `t`, the second one after `t'`, which has
      `more` choices to spare; instances below `n` are those both runs started with. */
  datatype Replay = Replay(n: nat, t: seq<Event>, t': seq<Event>, more: seq<nat>)

  ghost predicate Twins(w: Replay, d: Run, d': Run) {
    && AlikeScopes(w.n, d.scopes, d'.scopes)
    && w.n <= d.next && w.n <= d'.next
    && w.t <= d.trace && w.t' <= d'.trace
    && AlikeTraces(w.n, d.trace[|w.t|..], d'.trace[|w.t'|..])
  }

  ghost predicate SameCourse(w: Replay, r: Outcome, r': Outcome) {
    r.flow != Halted ==>
      r'.flow == r.flow && r'.choices == r.choices + w.more && Twins(w, r.run, r'.run)
  }

  lemma Tail(c: seq<nat>, more: seq<nat>)
    requires c != []
    ensures (c + more)[0] == c[0] && (c + more)[1..] == c[1..] + more
  {
  }

  lemma {:induction false} ResolveAlike(n: nat, a: seq<Scope>, b: seq<Scope>, name: string)
    requires AlikeScopes(n, a, b)
    ensures var x, y := AffineBinding(a, name), AffineBinding(b, name);
      x.Some? == y.Some? && (x.Some? ==> Alike(n, x.value, y.value))
  {
    if a != [] {
      var k := |a| - 1;
      if name !in a[k] { ResolveAlike(n, a[..k], b[..k], name); }
    }
  }

  lemma TouchTwins(w: Replay, d: Run, d': Run, name: string, ctx: Context)
    requires Twins(w, d, d')
    ensures Twins(w, Touch(d, name, ctx), Touch(d', name, ctx))
  {
    ResolveAlike(w.n, d.scopes, d'.scopes, name);
    var e, e' := Touch(d, name, ctx), Touch(d', name, ctx);
    if AffineBinding(d.scopes, name).Some? {
      assert e.trace[|w.t|..] == d.trace[|w.t|..] + e.trace[|d.trace|..];
      assert e'.trace[|w.t'|..] == d'.trace[|w.t'|..] + e'.trace[|d'.trace|..];
    }
  }

  lemma FreshTwins(w: Replay, d: Run, d': Run, name: string, ty: Ty)
    requires d.scopes != [] && d'.scopes != [] && Twins(w, d, d')
    ensures Twins(w, Fresh(d, name, ty), Fresh(d', name, ty))
  {
  }

  lemma EnterTwins(w: Replay, d: Run, d': Run)
    requires Twins(w, d, d')
    ensures Twins(w, Enter(d), Enter(d'))
  {
  }

  lemma LeaveTwins(w: Replay, d: Run, d': Run, r: Run, r': Run)
    requires Twins(w, d, d') && Twins(w, r, r')
    ensures Twins(w, r.(scopes := d.scopes), r'.(scopes := d'.scopes))
  {
  }

  lemma {:induction false} ExprTwins(e: Expr, ctx: Context, w: Replay, d: Run, d': Run, c: seq<nat>)
    requires Twins(w, d, d')
    ensures SameCourse(w, RunExpr(e, ctx, d, c), RunExpr(e, ctx, d', c + w.more))
    decreases |c|, e, 1
  {
    hide RunStmts, RunBlock, Resolve, AlikeTraces;
    match e
    case Literal(_) =>
    case Identifier(name, _) => TouchTwins(w, d, d', name, ctx);
    case Member(_, _) => MemberTwins(e, ctx, w, d, d', c);
    case Binary(left, right, _) => TwoTwins(e, left, BORROW, right, BORROW, w, d, d', c);
    case OrReturn(_, _, _) => OrReturnTwins(e, ctx, w, d, d', c);
    case OrElse(value, fallback, _) =>
      TwoTwins(e, value, Transfer(ctx, value), fallback, Transfer(ctx, fallback), w, d, d', c);
    case OrBlock(_, _, _) => OrBlockTwins(e, ctx, w, d, d', c);
    case Match(_, _, _) => MatchTwins(e, ctx, w, d, d', c);
    case _ => OperandsTwins(e, 0, w, d, d', c);
  }

  lemma {:induction false} MemberTwins(e: Expr, ctx: Context, w: Replay, d: Run, d': Run, c: seq<nat>)
    requires e.Member? && Twins(w, d, d')
    ensures SameCourse(w, RunExpr(e, ctx, d, c), RunExpr(e, ctx, d', c + w.more))
    decreases |c|, e, 0, 2
  {
    ExprTwins(e.obj, BORROW, w, d, d', c);
    var r, r' := RunExpr(e.obj, BORROW, d, c), RunExpr(e.obj, BORROW, d', c + w.more);
    if r.flow == Normal && Root(e.obj).Some? { TouchTwins(w, r.run, r'.run, Root(e.obj).value, MOVE); }
  }

  lemma {:induction false} OrReturnTwins(e: Expr, ctx: Context, w: Replay, d: Run, d': Run, c: seq<nat>)
    requires e.OrReturn? && Twins(w, d, d')
    ensures SameCourse(w, RunExpr(e, ctx, d, c), RunExpr(e, ctx, d', c + w.more))
    decreases |c|, e, 0, 2
  {
    FirstTwins(e, e.value, Transfer(ctx, e.value), w, d, d', c);
    if e.error.Some? {
      TwoTwins(e, e.value, Transfer(ctx, e.value), e.error.value, Transfer(MOVE, e.error.value), w, d, d', c);
    }
  }

  lemma {:induction false} OrBlockTwins(e: Expr, ctx: Context, w: Replay, d: Run, d': Run, c: seq<nat>)
    requires e.OrBlock? && Twins(w, d, d')
    ensures SameCourse(w, RunExpr(e, ctx, d, c), RunExpr(e, ctx, d', c + w.more))
    decreases |c|, e, 0, 2
  {
    var v := Transfer(ctx, e.value);
    FirstTwins(e, e.value, v, w, d, d', c);
    var r, r' := RunExpr(e.value, v, d, c), RunExpr(e.value, v, d', c + w.more);
    if !Stops(r) { BlockTwins(e.handler, w, r.run, r'.run, r.choices[1..]); }
  }

  lemma {:induction false} TwoTwins(
      e: Expr, a: Expr, actx: Context, b: Expr, bctx: Context, w: Replay, d: Run, d': Run, c: seq<nat>)
    requires a < e && b < e && Twins(w, d, d')
    ensures var r, r' := RunExpr(a, actx, d, c), RunExpr(a, actx, d', c + w.more);
      && SameCourse(w, r, r')
      && (!Stops(r) ==>
            && !Stops(r') && r'.choices[0] == r.choices[0] && r'.choices[1..] == r.choices[1..] + w.more
            && SameCourse(w, RunExpr(b, bctx, r.run, r.choices[1..]), RunExpr(b, bctx, r'.run, r'.choices[1..])))
    decreases |c|, e, 0, 1
  {
    FirstTwins(e, a, actx, w, d, d', c);
    var r, r' := RunExpr(a, actx, d, c), RunExpr(a, actx, d', c + w.more);
    if !Stops(r) { ExprTwins(b, bctx, w, r.run, r'.run, r.choices[1..]); }
  }

  lemma {:induction false} MatchTwins(e: Expr, ctx: Context, w: Replay, d: Run, d': Run, c: seq<nat>)
    requires e.Match? && Twins(w, d, d')
    ensures SameCourse(w, RunExpr(e, ctx, d, c), RunExpr(e, ctx, d', c + w.more))
    decreases |c|, e, 0, 1
  {
    FirstTwins(e, e.value, BORROW, w, d, d', c);
    var r, r' := RunExpr(e.value, BORROW, d, c), RunExpr(e.value, BORROW, d', c + w.more);
    if !Stops(r) && r.choices[0] < |e.arms| {
      ArmTwins(e.arms[r.choices[0]], ctx, w, Enter(r.run), Enter(r'.run), r.choices[1..]);
    }
  }

  /** The first part of an expression, and the choice that follows it. */
  lemma {:induction false} FirstTwins(e: Expr, a: Expr, ctx: Context, w: Replay, d: Run, d': Run, c: seq<nat>)
    requires a < e && Twins(w, d, d')
    ensures var r, r' := RunExpr(a, ctx, d, c), RunExpr(a, ctx, d', c + w.more);
      && SameCourse(w, r, r')
      && (!Stops(r) ==> !Stops(r') && r'.choices[0] == r.choices[0] && r'.choices[1..] == r.choices[1..] + w.more)
    decreases |c|, e, 0, 0
  {
    ExprTwins(a, ctx, w, d, d', c);
    var r := RunExpr(a, ctx, d, c);
    if !Stops(r) { Tail(r.choices, w.more); }
  }

  lemma {:induction false} OperandsTwins(e: Expr, i: nat, w: Replay, d: Run, d': Run, c: seq<nat>)
    requires Strict(e) && i <= |StrictOperands(e)| && Twins(w, d, d')
    ensures SameCourse(w, RunOperands(e, i, d, c), RunOperands(e, i, d', c + w.more))
    decreases |c|, e, 0, |StrictOperands(e)| - i
  {
    var ops := StrictOperands(e);
    if i < |ops| {
      ExprTwins(ops[i].expr, ops[i].ctx, w, d, d', c);
      var r, r' := RunExpr(ops[i].expr, ops[i].ctx, d, c), RunExpr(ops[i].expr, ops[i].ctx, d', c + w.more);
      if r.flow == Normal { OperandsTwins(e, i + 1, w, r.run, r'.run, r.choices); }
    }
  }

  lemma {:induction false} ArmTwins(arm: Arm, ctx: Context, w: Replay, d: Run, d': Run, c: seq<nat>)
    requires d.scopes != [] && d'.scopes != [] && Twins(w, d, d')
    ensures SameCourse(w, RunArm(arm, ctx, d, c), RunArm(arm, ctx, d', c + w.more))
    decreases |c|, arm
  {
    var f, f' := d, d';
    if arm.binding.Some? { f, f' := Fresh(d, arm.binding.value, UNKNOWN), Fresh(d', arm.binding.value, UNKNOWN); }
    match arm
    case ArmBlock(_, block) => StmtsTwins(block, w, f, f', c);
    case ArmExpr(_, body) => ExprTwins(body, Transfer(ctx, body), w, f, f', c);
  }

  lemma {:induction false} BlockTwins(block: seq<Stmt>, w: Replay, d: Run, d': Run, c: seq<nat>)
    requires Twins(w, d, d')
    ensures SameCourse(w, RunBlock(block, d, c), RunBlock(block, d', c + w.more))
    decreases |c|, block, 1
  {
    StmtsTwins(block, w, Enter(d), Enter(d'), c);
  }

  lemma {:induction false} StmtsTwins(block: seq<Stmt>, w: Replay, d: Run, d': Run, c: seq<nat>)
    requires d.scopes != [] && d'.scopes != [] && Twins(w, d, d')
    ensures SameCourse(w, RunStmts(block, d, c), RunStmts(block, d', c + w.more))
    decreases |c|, block, 0
  {
    if block != [] {
      StmtTwins(block[0], w, d, d', c);
      var r, r' := RunStmt(block[0], d, c), RunStmt(block[0], d', c + w.more);
      if r.flow == Normal { StmtsTwins(block[1..], w, r.run, r'.run, r.choices); }
    }
  }

  lemma {:induction false} StmtTwins(stmt: Stmt, w: Replay, d: Run, d': Run, c: seq<nat>)
    requires d.scopes != [] && d'.scopes != [] && Twins(w, d, d')
    ensures SameCourse(w, RunStmt(stmt, d, c), RunStmt(stmt, d', c + w.more))
    decreases |c|, stmt, 1
  {
    match stmt
    case Let(_, _, _) => LetTwins(stmt, w, d, d', c);
    case Return(None) =>
    case Return(Some(value)) => ExprTwins(value, Transfer(MOVE, value), w, d, d', c);
    case ExprStmt(expr) => ExprTwins(expr, BORROW, w, d, d', c);
    case IfStmt(branch) => IfTwins(branch, w, d, d', c);
    case While(_, _) => WhileTwins(stmt, w, d, d', c);
    case For(_, iterable, _) =>
      ExprTwins(iterable, BORROW, w, d, d', c);
      var r, r' := RunExpr(iterable, BORROW, d, c), RunExpr(iterable, BORROW, d', c + w.more);
      if r.flow == Normal { ForTwins(stmt, w, r.run, r'.run, r.choices); }
    case Break =>
    case Continue =>
  }

  lemma {:induction false} LetTwins(stmt: Stmt, w: Replay, d: Run, d': Run, c: seq<nat>)
    requires stmt.Let? && d.scopes != [] && d'.scopes != [] && Twins(w, d, d')
    ensures SameCourse(w, RunStmt(stmt, d, c), RunStmt(stmt, d', c + w.more))
    decreases |c|, stmt, 0
  {
    hide RunExpr, Twins;
    var ctx := Transfer(MOVE, stmt.value);
    ExprTwins(stmt.value, ctx, w, d, d', c);
    var r, r' := RunExpr(stmt.value, ctx, d, c), RunExpr(stmt.value, ctx, d', c + w.more);
    if r.flow == Normal { FreshTwins(w, r.run, r'.run, stmt.name, stmt.value.ty); }
  }

  lemma {:induction false} WhileTwins(loop: Stmt, w: Replay, d: Run, d': Run, c: seq<nat>)
    requires loop.While? && Twins(w, d, d')
    ensures SameCourse(w, RunWhile(loop, d, c), RunWhile(loop, d', c + w.more))
    decreases |c|, loop, 0
  {
    ExprTwins(loop.condition, BORROW, w, d, d', c);
    var r, r' := RunExpr(loop.condition, BORROW, d, c), RunExpr(loop.condition, BORROW, d', c + w.more);
    if !Stops(r) {
      Tail(r.choices, w.more);
      if r.choices[0] != 0 {
        BlockTwins(loop.body, w, r.run, r'.run, r.choices[1..]);
        var b, b' := RunBlock(loop.body, r.run, r.choices[1..]), RunBlock(loop.body, r'.run, r'.choices[1..]);
        if (b.flow == Normal || b.flow == Continued) && b.choices != [] {
          Tail(b.choices, w.more);
          WhileTwins(loop, w, b.run, b'.run, b.choices[1..]);
        }
      }
    }
  }

  lemma {:induction false} ForTwins(loop: Stmt, w: Replay, d: Run, d': Run, c: seq<nat>)
    requires loop.For? && Twins(w, d, d')
    ensures SameCourse(w, RunFor(loop, d, c), RunFor(loop, d', c + w.more))
    decreases |c|, loop, 0
  {
    hide RunStmts, RunExpr, Twins;
    if c != [] {
      Tail(c, w.more);
      if c[0] != 0 {
        var ty := ItemType(loop.iterable);
        var f, f' := Fresh(Enter(d), loop.variable, ty), Fresh(Enter(d'), loop.variable, ty);
        EnterTwins(w, d, d');
        FreshTwins(w, Enter(d), Enter(d'), loop.variable, ty);
        StmtsTwins(loop.body, w, f, f', c[1..]);
        var q, q' := RunStmts(loop.body, f, c[1..]), RunStmts(loop.body, f', c[1..] + w.more);
        if q.flow != Halted { LeaveTwins(w, d, d', q.run, q'.run); }
        var b, b' := Leave(d, RunStmts(loop.body, f, c[1..])), Leave(d', RunStmts(loop.body, f', c[1..] + w.more));
        if b.flow == Normal || b.flow == Continued { ForTwins(loop, w, b.run, b'.run, b.choices); }
      }
    }
  }

  lemma {:induction false} IfTwins(branch: If, w: Replay, d: Run, d': Run, c: seq<nat>)
    requires Twins(w, d, d')
    ensures SameCourse(w, RunIf(branch, d, c), RunIf(branch, d', c + w.more))
    decreases |c|, branch
  {
    ExprTwins(branch.condition, BORROW, w, d, d', c);
    var r, r' := RunExpr(branch.condition, BORROW, d, c), RunExpr(branch.condition, BORROW, d', c + w.more);
    if !Stops(r) {
      Tail(r.choices, w.more);
      if r.choices[0] == 0 {
        BlockTwins(branch.thenBlock, w, r.run, r'.run, r.choices[1..]);
      } else if r.choices[0] == 1 {
        ElseTwins(branch.els, w, r.run, r'.run, r.choices[1..]);
      }
    }
  }

  lemma {:induction false} ElseTwins(els: Else, w: Replay, d: Run, d': Run, c: seq<nat>)
    requires Twins(w, d, d')
    ensures SameCourse(w, RunElse(els, d, c), RunElse(els, d', c + w.more))
    decreases |c|, els
  {
    match els
    case NoElse =>
    case ElseBlock(block) => BlockTwins(block, w, d, d', c);
    case ElseIf(branch) => IfTwins(branch, w, d, d', c);
  }

  /** Instance `j` is moved between the traces `t` and `u`. */
  ghost predicate MovedSince(t: seq<Event>, u: seq<Event>, j: nat) {
    t <= u && Move(j) in u[|t|..]
  }

  lemma AlikeMoves(w: Replay, d: Run, d': Run, j: nat)
    requires Twins(w, d, d') && j < w.n && MovedSince(w.t, d.trace, j)
    ensures MovedSince(w.t', d'.trace, j)
  {
    var i :| 0 <= i < |d.trace| - |w.t| && d.trace[|w.t|..][i] == Move(j);
    assert d'.trace[|w.t'|..][i] == Move(j);
  }

  lemma SameStart(w: Replay, d: Run, d': Run)
    requires d'.scopes == d.scopes && w.n == d.next <= d'.next && w.t == d.trace && w.t' == d'.trace
    ensures Twins(w, d, d')
  {
  }

  lemma Rebase(w: Replay, w': Replay, d: Run, d': Run)
    requires Twins(w, d, d') && w'.n == w.n && w'.t == d.trace && w'.t' == d'.trace
    ensures Twins(w', d, d')
  {
  }

  lemma MovedStaysMoved(t: seq<Event>, u: seq<Event>, v: seq<Event>, j: nat)
    requires MovedSince(t, u, j) && u <= v
    ensures MovedSince(t, v, j)
  {
    var i :| 0 <= i < |u| - |t| && u[|t|..][i] == Move(j);
    assert v[|t|..][i] == Move(j);
  }

  lemma RoundChoices(c2: seq<nat>, rest: seq<nat>)
    ensures var more := [1] + c2 + rest; more[0] == 1 && more[1..] == c2 + rest && [] + more == more && [] + rest == rest
  {
  }

  /** One round of a loop with enough choices left for more: the condition, then the body. */
  lemma RoundLeadsBack(loop: Stmt, d: Run, c1: seq<nat>, c2: seq<nat>, rest: seq<nat>, j: nat) returns (d': Run)
    requires loop.While? && j < d.next && rest != []
    requires ReentersAfterMove(loop, d, c1, c2, j)
    ensures d'.scopes == d.scopes && d.next <= d'.next && MovedSince(d.trace, d'.trace, j)
    ensures rest[0] != 0 ==> RunWhile(loop, d, c1 + ([1] + c2 + rest)) == RunWhile(loop, d', rest[1..])
  {
    hide RunExpr, RunBlock, RunStmts, Resolve, MovedSince, AlikeTraces, AlikeScopes;
    var more := [1] + c2 + rest;
    var w1 := Replay(d.next, d.trace, d.trace, more);
    SameStart(w1, d, d);
    ExprTwins(loop.condition, BORROW, w1, d, d, c1);
    var r, r' := RunExpr(loop.condition, BORROW, d, c1), RunExpr(loop.condition, BORROW, d, c1 + more);
    AlikeMoves(w1, r.run, r'.run, j);
    RoundChoices(c2, rest);
    assert !Stops(r');
    var w2 := Replay(d.next, r.run.trace, r'.run.trace, rest);
    Rebase(w1, w2, r.run, r'.run);
    BlockTwins(loop.body, w2, r.run, r'.run, c2);
    var b' := RunBlock(loop.body, r'.run, c2 + rest);
    d' := b'.run;
    MovedStaysMoved(d.trace, r'.run.trace, d'.trace, j);
  }

  /** `c1` leads through the condition and moves `j`; `c2` then leads through the body back to the condition. */
  ghost predicate ReentersAfterMove(loop: Stmt, d: Run, c1: seq<nat>, c2: seq<nat>, j: nat)
    requires loop.While?
  {
    var r := RunExpr(loop.condition, BORROW, d, c1);
    && r.flow == Normal && r.choices == [] && MovedSince(d.trace, r.run.trace, j)
    && var b := RunBlock(loop.body, r.run, c2); (b.flow == Normal || b.flow == Continued) && b.choices == []
  }

  /** The hypothesis on conditions is needed for every loop: if some path through the condition moves an
      instance that was there before, and some path through the body leads back to the condition,
      then the loop has an unsafe path. */
  lemma ReenteredMoveIsUnsafe(loop: Stmt, d: Run, c1: seq<nat>, c2: seq<nat>, j: nat)
    requires loop.While? && j < d.next && ReentersAfterMove(loop, d, c1, c2, j)
    ensures exists choices :: !Safe(RunWhile(loop, d, choices).run.trace)
  {
    hide RunBlock, RunStmts, Resolve, MovedSince, AlikeTraces, AlikeScopes, Safe;
    var d' := RoundLeadsBack(loop, d, c1, c2, [1] + c1, j);
    assert ([1] + c1)[1..] == c1 == c1 + [];
    var w := Replay(d.next, d.trace, d'.trace, []);
    SameStart(w, d, d');
    ExprTwins(loop.condition, BORROW, w, d, d', c1);
    var r, s := RunExpr(loop.condition, BORROW, d, c1), RunExpr(loop.condition, BORROW, d', c1);
    AlikeMoves(w, r.run, s.run, j);
    assert RunWhile(loop, d', c1).run == s.run;
    TwoMovesAreUnsafe(d.trace, d'.trace, s.run.trace, j);
    assert !Safe(RunWhile(loop, d, c1 + ([1] + c2 + ([1] + c1))).run.trace);
  }

  lemma TwoMovesAreUnsafe(t: seq<Event>, u: seq<Event>, v: seq<Event>, j: nat)
    requires MovedSince(t, u, j) && MovedSince(u, v, j)
    ensures !Safe(v)
  {
    var a :| 0 <= a < |u| - |t| && u[|t|..][a] == Move(j);
    var b :| 0 <= b < |v| - |u| && v[|u|..][b] == Move(j);
    assert v[|t| + a] == u[|t| + a] == Move(j) && v[|u| + b] == Move(j);
  }
}
