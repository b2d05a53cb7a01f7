/** Soundness of the ownership pass: what it accepts has no path on which a moved instance is touched again. */
module AffineSoundness {
  import opened Options
  import opened AffineSyntax
  import opened AffineCheck
  import opened AffinePaths

  // ----- How one check changes the checker state

  /** Identities in use are below `next`. */
  ghost predicate Fits(s: State) {
    && (forall id :: id in s.moved ==> id < s.next)
    && (forall k, name :: 0 <= k < |s.scopes| && name in s.scopes[k] ==> s.scopes[k][name].id < s.next)
  }

  /** Moves are never forgotten, a new move concerns a binding in scope or a newer one, and
      scope entries are kept or replaced by newer ones. */
  ghost predicate Grows(s: State, t: State) {
    && s.next <= t.next
    && s.moved <= t.moved
    && (forall id :: id in t.moved ==> id in s.moved || id in Ids(s.scopes) || id >= s.next)
    && (t.quiet ==> s.quiet)
    && |s.scopes| == |t.scopes|
    && forall k, name :: 0 <= k < |t.scopes| && name in t.scopes[k] ==>
         (name in s.scopes[k] && s.scopes[k][name] == t.scopes[k][name]) || t.scopes[k][name].id >= s.next
  }

  lemma IdsAt(scopes: seq<Scope>, k: int, name: string)
    requires 0 <= k < |scopes| && name in scopes[k]
    ensures scopes[k][name].id in Ids(scopes)
  {
  }

  lemma GrowsIds(s: State, t: State)
    requires Grows(s, t)
    ensures forall id :: id in Ids(t.scopes) ==> id in Ids(s.scopes) || id >= s.next
  {
    forall id | id in Ids(t.scopes) && id < s.next ensures id in Ids(s.scopes) {
      var k, name :| 0 <= k < |t.scopes| && name in t.scopes[k] && t.scopes[k][name].id == id;
      IdsAt(s.scopes, k, name);
    }
  }

  lemma GrowsTransitive(s: State, t: State, u: State)
    requires Grows(s, t) && Grows(t, u)
    ensures Grows(s, u)
  {
    GrowsIds(s, t);
  }

  lemma PushIds(s: State)
    ensures Ids(Push(s).scopes) == Ids(s.scopes)
  {
    var sc := Push(s).scopes;
    forall id | id in Ids(s.scopes) ensures id in Ids(sc) {
      var k, name :| 0 <= k < |s.scopes| && name in s.scopes[k] && s.scopes[k][name].id == id;
      IdsAt(sc, k, name);
    }
  }

  lemma UseGrows(s: State, name: string, ctx: Context)
    requires Fits(s) && UseName(s, name, ctx).Ok?
    ensures var t := UseName(s, name, ctx).s; Fits(t) && Grows(s, t)
  {
    if AffineBinding(s.scopes, name).Some? {
      var k :| 0 <= k < |s.scopes| && name in s.scopes[k] && s.scopes[k][name] == Resolve(s.scopes, name).value;
      IdsAt(s.scopes, k, name);
    }
  }

  lemma PopGrows(entry: State, s: State)
    requires Fits(entry) && Fits(s) && SameOuter(Push(entry), s) && Grows(Push(entry), s)
    ensures Fits(Pop(entry, s)) && Grows(entry, Pop(entry, s))
  {
    PushIds(entry);
    assert s.scopes[..|entry.scopes|] == entry.scopes;
  }

  lemma {:induction false} ExprGrows(e: Expr, ctx: Context, s: State)
    requires Fits(s) && CheckExpr(e, ctx, s).Ok?
    ensures var t := CheckExpr(e, ctx, s).s; Fits(t) && Grows(s, t)
    decreases e, 1
  {
    match e
    case Literal(_) =>
    case Identifier(name, _) => UseGrows(s, name, ctx);
    case Member(obj, _) =>
      ExprGrows(obj, BORROW, s);
      if MovesOwner(e, ctx) && Root(obj).Some? { UseGrows(CheckExpr(obj, BORROW, s).s, Root(obj).value, MOVE); }
    case Binary(left, right, _) =>
      ExprGrows(left, BORROW, s);
      ExprGrows(right, BORROW, CheckExpr(left, BORROW, s).s);
    case OrReturn(value, error, _) =>
      ExprGrows(value, Transfer(ctx, value), s);
      if error.Some? { ExprGrows(error.value, Transfer(MOVE, error.value), CheckExpr(value, Transfer(ctx, value), s).s); }
    case OrElse(value, fallback, _) =>
      ExprGrows(value, Transfer(ctx, value), s);
      ExprGrows(fallback, Transfer(ctx, fallback), CheckExpr(value, Transfer(ctx, value), s).s);
    case OrBlock(value, handler, _) =>
      ExprGrows(value, Transfer(ctx, value), s);
      BlockGrows(handler, CheckExpr(value, Transfer(ctx, value), s).s);
    case Match(value, arms, _) =>
      ExprGrows(value, BORROW, s);
      var b := CheckExpr(value, BORROW, s).s;
      ArmsGrow(arms, ctx, b, b);
    case _ => OperandsGrow(e, 0, s);
  }

  lemma {:induction false} OperandsGrow(e: Expr, i: nat, s: State)
    requires Strict(e) && i <= |StrictOperands(e)| && Fits(s) && CheckOperands(e, i, s).Ok?
    ensures var t := CheckOperands(e, i, s).s; Fits(t) && Grows(s, t)
    decreases e, 0, |StrictOperands(e)| - i
  {
    var ops := StrictOperands(e);
    if i < |ops| {
      ExprGrows(ops[i].expr, ops[i].ctx, s);
      OperandsGrow(e, i + 1, CheckExpr(ops[i].expr, ops[i].ctx, s).s);
    }
  }

  lemma {:induction false} ArmsGrow(arms: seq<Arm>, ctx: Context, before: State, joined: State)
    requires joined.scopes == before.scopes && Fits(before) && Fits(joined) && Grows(before, joined)
    requires CheckArms(arms, ctx, before, joined).Ok?
    ensures var t := CheckArms(arms, ctx, before, joined).s; Fits(t) && Grows(joined, t)
    decreases arms, 0
  {
    if arms != [] {
      var a := CheckArm(arms[0], ctx, ArmStart(before, joined)).s;
      PushIds(before);
      ArmGrows(arms[0], ctx, ArmStart(before, joined));
      ArmsGrow(arms[1..], ctx, before, ArmJoin(before, joined, a));
    }
  }

  lemma {:induction false} ArmGrows(arm: Arm, ctx: Context, s: State)
    requires Open(s) && Fits(s) && CheckArm(arm, ctx, s).Ok?
    ensures var t := CheckArm(arm, ctx, s).s; Fits(t) && Grows(s, t)
    decreases arm
  {
    var d := if arm.binding.Some? then Declare(s, arm.binding.value, UNKNOWN, false).s else s;
    match arm
    case ArmBlock(_, block) => StmtsGrow(block, d); GrowsTransitive(s, d, CheckArm(arm, ctx, s).s);
    case ArmExpr(_, body) => ExprGrows(body, Transfer(ctx, body), d); GrowsTransitive(s, d, CheckArm(arm, ctx, s).s);
  }

  lemma {:induction false} BlockGrows(block: seq<Stmt>, s: State)
    requires Fits(s) && CheckBlock(block, s).Ok?
    ensures var t := CheckBlock(block, s).s; Fits(t) && Grows(s, t)
    decreases block, 1
  {
    StmtsGrow(block, Push(s));
    PopGrows(s, CheckStmts(block, Push(s)).s);
  }

  lemma {:induction false} StmtsGrow(block: seq<Stmt>, s: State)
    requires Open(s) && Fits(s) && CheckStmts(block, s).Ok?
    ensures var t := CheckStmts(block, s).s; Fits(t) && Grows(s, t)
    decreases block, 0
  {
    if block != [] {
      var m := CheckStmt(block[0], s).s;
      StmtGrows(block[0], s);
      StmtsGrow(block[1..], m);
      GrowsTransitive(s, m, CheckStmts(block, s).s);
    }
  }

  lemma {:induction false} StmtGrows(stmt: Stmt, s: State)
    requires Open(s) && Fits(s) && CheckStmt(stmt, s).Ok?
    ensures var t := CheckStmt(stmt, s).s; Fits(t) && Grows(s, t)
    decreases stmt
  {
    match stmt
    case Let(name, mutable, value) =>
      ExprGrows(value, Transfer(MOVE, value), s);
      DeclareGrows(CheckExpr(value, Transfer(MOVE, value), s).s, name, value.ty, mutable);
    case Return(None) =>
    case Return(Some(value)) => ExprGrows(value, Transfer(MOVE, value), s);
    case ExprStmt(expr) => ExprGrows(expr, BORROW, s);
    case IfStmt(branch) => IfGrows(branch, s);
    case While(condition, body) =>
      ExprGrows(condition, BORROW, s);
      var c := WhileStart(s, CheckExpr(condition, BORROW, s).s);
      BlockGrows(body, c);
      RepeatGrows(c, CheckBlock(body, c));
    case For(variable, iterable, body) =>
      ExprGrows(iterable, BORROW, s);
      var c := CheckExpr(iterable, BORROW, s).s;
      ForBodyGrows(stmt, c);
      RepeatGrows(c, CheckStmts(body, ForStart(stmt, c)));
    case Break =>
    case Continue =>
  }

  lemma {:induction false} ForBodyGrows(loop: Stmt, c: State)
    requires loop.For? && Fits(c) && CheckStmts(loop.body, ForStart(loop, c)).Ok?
    ensures var t := CheckStmts(loop.body, ForStart(loop, c)).s; Fits(t) && Grows(ForStart(loop, c), t)
    decreases loop, 0
  {
    StmtsGrow(loop.body, ForStart(loop, c));
  }

  lemma DeclareGrows(s: State, name: string, ty: Ty, mutable: bool)
    requires Open(s) && Fits(s) && Declare(s, name, ty, mutable).Ok?
    ensures var t := Declare(s, name, ty, mutable).s; Fits(t) && Grows(s, t)
  {
  }

  lemma RepeatGrows(before: State, body: Verdict)
    requires Fits(before) && Repeat(before, body).Ok? && before.next <= body.s.next && (body.s.quiet ==> before.quiet)
    ensures var t := Repeat(before, body).s; Fits(t) && Grows(before, t)
  {
  }

  lemma {:induction false} IfGrows(branch: If, s: State)
    requires Fits(s) && CheckIf(branch, s).Ok?
    ensures var t := CheckIf(branch, s).s; Fits(t) && Grows(s, t)
    decreases branch
  {
    ExprGrows(branch.condition, BORROW, s);
    var c := CheckExpr(branch.condition, BORROW, s).s;
    BlockGrows(branch.thenBlock, c);
    var t := CheckBlock(branch.thenBlock, c).s;
    ElseGrows(branch.els, c.(next := t.next, quiet := t.quiet));
  }

  lemma {:induction false} ElseGrows(els: Else, s: State)
    requires Fits(s) && CheckElse(els, s).Ok?
    ensures var t := CheckElse(els, s).s; Fits(t) && Grows(s, t)
    decreases els
  {
    match els
    case NoElse =>
    case ElseBlock(block) => BlockGrows(block, s);
    case ElseIf(branch) => IfGrows(branch, s);
  }

  // ----- The checker state stands for the run

  /** Maps an instance to the identity of the declaration it comes from. */
  type Link = map<nat, nat>

  ghost predicate SameShape(link: Link, s: State, d: Run) {
    && |s.scopes| == |d.scopes|
    && (forall k :: 0 <= k < |d.scopes| ==> s.scopes[k].Keys == d.scopes[k].Keys)
    && (forall k, name :: 0 <= k < |d.scopes| && name in d.scopes[k] ==>
          && d.scopes[k][name].ty == s.scopes[k][name].ty
          && d.scopes[k][name].id in link
          && link[d.scopes[k][name].id] == s.scopes[k][name].id)
    && (forall j :: j in link ==> j < d.next && link[j] < s.next)
  }

  /** The run is safe so far, and what it moved the checker knows to be moved. */
  ghost predicate Covered(link: Link, moved: set<nat>, d: Run) {
    && Safe(d.trace)
    && forall j: nat :: Move(j) in d.trace ==> j < d.next && (j in link ==> link[j] in moved)
  }

  ghost predicate Stands(link: Link, s: State, d: Run) {
    SameShape(link, s, d) && Covered(link, s.moved, d)
  }

  lemma {:induction false} ResolveAgrees(link: Link, s: seq<Scope>, d: seq<Scope>, name: string)
    requires |s| == |d| && forall k :: 0 <= k < |d| ==> s[k].Keys == d[k].Keys
    requires forall k, n :: 0 <= k < |d| && n in d[k] ==>
      d[k][n].ty == s[k][n].ty && d[k][n].id in link && link[d[k][n].id] == s[k][n].id
    ensures AffineBinding(s, name).Some? == AffineBinding(d, name).Some?
    ensures var b := AffineBinding(d, name); b.Some? ==> b.value in link && link[b.value] == AffineBinding(s, name).value
  {
    if d != [] {
      var n := |d| - 1;
      if name !in d[n] { ResolveAgrees(link, s[..n], d[..n], name); }
    }
  }

  lemma TouchSafe(trace: seq<Event>, e: Event)
    requires Safe(trace) && Move(e.inst) !in trace
    ensures Safe(trace + [e])
    ensures forall j: nat :: Move(j) in trace + [e] <==> Move(j) in trace || e == Move(j)
  {
    forall i | 0 <= i < |trace| && trace[i].Move? ensures trace[i].inst != e.inst {
      assert trace[i] == Move(trace[i].inst) && trace[i] in trace;
    }
  }

  lemma UseSound(link: Link, s: State, d: Run, name: string, ctx: Context)
    requires Stands(link, s, d) && UseName(s, name, ctx).Ok?
    ensures Stands(link, UseName(s, name, ctx).s, Touch(d, name, ctx))
  {
    ResolveAgrees(link, s.scopes, d.scopes, name);
    var b := AffineBinding(d.scopes, name);
    if b.Some? { TouchSafe(d.trace, if ctx == MOVE then Move(b.value) else Use(b.value)); }
  }

  lemma DeclareSound(link: Link, s: State, d: Run, name: string, ty: Ty, mutable: bool) returns (link': Link)
    requires Open(s) && Stands(link, s, d) && Declare(s, name, ty, mutable).Ok?
    ensures Stands(link', Declare(s, name, ty, mutable).s, Fresh(d, name, ty)) && Extends(link, link')
  {
    link' := link[d.next := s.next];
  }

  ghost predicate Extends(link: Link, link': Link) {
    forall j :: j in link ==> j in link' && link'[j] == link[j]
  }

  /** Entering a scope changes nothing for the bindings around it. */
  lemma EnterSound(link: Link, s: State, d: Run)
    requires Stands(link, s, d)
    ensures Stands(link, Push(s), Enter(d))
  {
  }

  lemma {:induction false} ExprSound(e: Expr, ctx: Context, s: State, link: Link, d: Run, c: seq<nat>)
    requires Fits(s) && CheckExpr(e, ctx, s).Ok? && CheckExpr(e, ctx, s).s.quiet && Stands(link, s, d)
    ensures Stands(link, CheckExpr(e, ctx, s).s, RunExpr(e, ctx, d, c).run)
    decreases |c|, e, 1
  {
    ExprGrows(e, ctx, s);
    match e
    case Literal(_) =>
    case Identifier(name, _) => UseSound(link, s, d, name, ctx);
    case Member(obj, _) => MemberSound(e, ctx, s, link, d, c);
    case Binary(left, right, _) =>
      TwoSound(e, left, BORROW, right, BORROW, s, link, d, c);
    case OrReturn(value, error, _) =>
      if error.Some? {
        TwoSound(e, value, Transfer(ctx, value), error.value, Transfer(MOVE, error.value), s, link, d, c);
      } else {
        ExprSound(value, Transfer(ctx, value), s, link, d, c);
      }
    case OrElse(value, fallback, _) =>
      TwoSound(e, value, Transfer(ctx, value), fallback, Transfer(ctx, fallback), s, link, d, c);
    case OrBlock(value, handler, _) => OrBlockSound(e, ctx, s, link, d, c);
    case Match(value, arms, _) => MatchSound(e, ctx, s, link, d, c);
    case _ => OperandsSound(e, 0, s, link, d, c);
  }

  lemma {:induction false} MemberSound(e: Expr, ctx: Context, s: State, link: Link, d: Run, c: seq<nat>)
    requires e.Member? && Fits(s) && CheckExpr(e, ctx, s).Ok? && CheckExpr(e, ctx, s).s.quiet && Stands(link, s, d)
    ensures Stands(link, CheckExpr(e, ctx, s).s, RunExpr(e, ctx, d, c).run)
    decreases |c|, e, 0
  {
    var m := CheckExpr(e.obj, BORROW, s).s;
    var r := RunExpr(e.obj, BORROW, d, c);
    ExprSound(e.obj, BORROW, s, link, d, c);
    if MovesOwner(e, ctx) && Root(e.obj).Some? {
      var t := UseName(m, Root(e.obj).value, MOVE).s;
      if r.flow == Normal { UseSound(link, m, r.run, Root(e.obj).value, MOVE); }
      else { WeakenMoved(link, m, t, r.run); }
    }
  }

  /** A later checker state over the same scopes still stands for the run. */
  lemma WeakenMoved(link: Link, s: State, t: State, d: Run)
    requires Stands(link, s, d) && t.scopes == s.scopes && s.moved <= t.moved && s.next <= t.next
    ensures Stands(link, t, d)
  {
  }

  /** The second sub-expression is checked after the first, but a path may leave it out. */
  lemma {:induction false} TwoSound(
      e: Expr, a: Expr, actx: Context, b: Expr, bctx: Context, s: State, link: Link, d: Run, c: seq<nat>)
    requires a < e && b < e && Fits(s) && CheckExpr(a, actx, s).Ok?
    requires var m := CheckExpr(a, actx, s).s; CheckExpr(b, bctx, m).Ok? && CheckExpr(b, bctx, m).s.quiet
    requires Stands(link, s, d)
    ensures var r := RunExpr(a, actx, d, c); var t := CheckExpr(b, bctx, CheckExpr(a, actx, s).s).s;
      && Stands(link, t, r.run)
      && (r.choices != [] ==> Stands(link, t, RunExpr(b, bctx, r.run, r.choices[1..]).run))
    decreases |c|, e, 0
  {
    var m := CheckExpr(a, actx, s).s;
    var r := RunExpr(a, actx, d, c);
    ExprGrows(a, actx, s);
    ExprGrows(b, bctx, m);
    ExprSound(a, actx, s, link, d, c);
    WeakenMoved(link, m, CheckExpr(b, bctx, m).s, r.run);
    if r.choices != [] { ExprSound(b, bctx, m, link, r.run, r.choices[1..]); }
  }

  lemma {:induction false} OrBlockSound(e: Expr, ctx: Context, s: State, link: Link, d: Run, c: seq<nat>)
    requires e.OrBlock? && Fits(s) && CheckExpr(e, ctx, s).Ok? && CheckExpr(e, ctx, s).s.quiet && Stands(link, s, d)
    ensures Stands(link, CheckExpr(e, ctx, s).s, RunExpr(e, ctx, d, c).run)
    decreases |c|, e, 0
  {
    var vctx := Transfer(ctx, e.value);
    var m := CheckExpr(e.value, vctx, s).s;
    var r := RunExpr(e.value, vctx, d, c);
    ExprGrows(e.value, vctx, s);
    BlockGrows(e.handler, m);
    ExprSound(e.value, vctx, s, link, d, c);
    WeakenMoved(link, m, CheckBlock(e.handler, m).s, r.run);
    if r.choices != [] { BlockSound(e.handler, m, link, r.run, r.choices[1..]); }
  }

  lemma {:induction false} OperandsSound(e: Expr, i: nat, s: State, link: Link, d: Run, c: seq<nat>)
    requires Strict(e) && i <= |StrictOperands(e)| && Fits(s)
    requires CheckOperands(e, i, s).Ok? && CheckOperands(e, i, s).s.quiet && Stands(link, s, d)
    ensures Stands(link, CheckOperands(e, i, s).s, RunOperands(e, i, d, c).run)
    decreases |c|, e, 0, |StrictOperands(e)| - i
  {
    var ops := StrictOperands(e);
    if i < |ops| {
      var m := CheckExpr(ops[i].expr, ops[i].ctx, s).s;
      var r := RunExpr(ops[i].expr, ops[i].ctx, d, c);
      ExprGrows(ops[i].expr, ops[i].ctx, s);
      OperandsGrow(e, i + 1, m);
      ExprSound(ops[i].expr, ops[i].ctx, s, link, d, c);
      if r.flow == Normal { OperandsSound(e, i + 1, m, link, r.run, r.choices); }
    }
  }

  lemma {:induction false} MatchSound(e: Expr, ctx: Context, s: State, link: Link, d: Run, c: seq<nat>)
    requires e.Match? && Fits(s) && CheckExpr(e, ctx, s).Ok? && CheckExpr(e, ctx, s).s.quiet && Stands(link, s, d)
    ensures Stands(link, CheckExpr(e, ctx, s).s, RunExpr(e, ctx, d, c).run)
    decreases |c|, e, 0
  {
    var m := CheckExpr(e.value, BORROW, s).s;
    var r := RunExpr(e.value, BORROW, d, c);
    ExprGrows(e.value, BORROW, s);
    ArmsGrow(e.arms, ctx, m, m);
    ExprSound(e.value, BORROW, s, link, d, c);
    WeakenMoved(link, m, CheckArms(e.arms, ctx, m, m).s, r.run);
    if r.choices != [] && r.choices[0] < |e.arms| {
      ArmsSound(e.arms, r.choices[0], ctx, m, m, link, r.run, r.choices[1..]);
    }
  }

  lemma {:induction false} ArmsSound(
      arms: seq<Arm>, i: nat, ctx: Context, before: State, joined: State, link: Link, d: Run, c: seq<nat>)
    requires i < |arms| && joined.scopes == before.scopes && Fits(before) && Fits(joined) && Grows(before, joined)
    requires CheckArms(arms, ctx, before, joined).Ok? && CheckArms(arms, ctx, before, joined).s.quiet
    requires Stands(link, before, d)
    ensures Stands(link, CheckArms(arms, ctx, before, joined).s, RunArm(arms[i], ctx, Enter(d), c).run.(scopes := d.scopes))
    decreases |c|, arms, 0
  {
    var start := ArmStart(before, joined);
    var a := CheckArm(arms[0], ctx, start).s;
    var next := ArmJoin(before, joined, a);
    PushIds(before);
    ArmGrows(arms[0], ctx, start);
    ArmsGrow(arms[1..], ctx, before, next);
    if i == 0 {
      EnterSound(link, before, d);
      ArmSound(arms[0], ctx, start, link, Enter(d), c);
    } else {
      ArmsSound(arms[1..], i - 1, ctx, before, next, link, d, c);
    }
  }

  lemma {:induction false} ArmSound(arm: Arm, ctx: Context, s: State, link: Link, d: Run, c: seq<nat>)
    requires Open(s) && Fits(s) && CheckArm(arm, ctx, s).Ok? && CheckArm(arm, ctx, s).s.quiet && Stands(link, s, d)
    ensures var r := RunArm(arm, ctx, d, c).run; Covered(link, CheckArm(arm, ctx, s).s.moved, r)
    decreases |c|, arm
  {
    var s', d', link' := s, d, link;
    if arm.binding.Some? {
      link' := DeclareSound(link, s, d, arm.binding.value, UNKNOWN, false);
      DeclareGrows(s, arm.binding.value, UNKNOWN, false);
      s', d' := Declare(s, arm.binding.value, UNKNOWN, false).s, Fresh(d, arm.binding.value, UNKNOWN);
    }
    match arm
    case ArmBlock(_, block) => StmtsSound(block, s', link', d', c);
    case ArmExpr(_, body) => ExprSound(body, Transfer(ctx, body), s', link', d', c);
  }

  lemma {:induction false} BlockSound(block: seq<Stmt>, s: State, link: Link, d: Run, c: seq<nat>)
    requires Fits(s) && CheckBlock(block, s).Ok? && CheckBlock(block, s).s.quiet && Stands(link, s, d)
    ensures Stands(link, CheckBlock(block, s).s, RunBlock(block, d, c).run)
    decreases |c|, block, 1
  {
    EnterSound(link, s, d);
    StmtsGrow(block, Push(s));
    StmtsSound(block, Push(s), link, Enter(d), c);
  }

  lemma {:induction false} StmtsSound(block: seq<Stmt>, s: State, link: Link, d: Run, c: seq<nat>)
    requires Open(s) && Fits(s) && CheckStmts(block, s).Ok? && CheckStmts(block, s).s.quiet && Stands(link, s, d)
    ensures var r := RunStmts(block, d, c).run; Covered(link, CheckStmts(block, s).s.moved, r)
    decreases |c|, block, 0
  {
    if block != [] {
      var m := CheckStmt(block[0], s).s;
      var r := RunStmt(block[0], d, c);
      StmtGrows(block[0], s);
      StmtsGrow(block[1..], m);
      var link' := StmtSound(block[0], s, link, d, c);
      if r.flow == Normal { StmtsSound(block[1..], m, link', r.run, r.choices); }
    }
  }

  lemma {:induction false} StmtSound(stmt: Stmt, s: State, link: Link, d: Run, c: seq<nat>) returns (link': Link)
    requires Open(s) && Fits(s) && CheckStmt(stmt, s).Ok? && CheckStmt(stmt, s).s.quiet && Stands(link, s, d)
    ensures var r := RunStmt(stmt, d, c); var t := CheckStmt(stmt, s).s;
      && Covered(link, t.moved, r.run)
      && (r.flow == Normal ==> Stands(link', t, r.run) && Extends(link, link'))
    decreases |c|, stmt, 1
  {
    link' := link;
    match stmt
    case Let(name, mutable, value) =>
      ExprSound(value, Transfer(MOVE, value), s, link, d, c);
      var r := RunExpr(value, Transfer(MOVE, value), d, c);
      link' := DeclareSound(link, CheckExpr(value, Transfer(MOVE, value), s).s, r.run, name, value.ty, mutable);
    case Return(None) =>
    case Return(Some(value)) => ExprSound(value, Transfer(MOVE, value), s, link, d, c);
    case ExprStmt(expr) => ExprSound(expr, BORROW, s, link, d, c);
    case IfStmt(branch) => IfSound(branch, s, link, d, c);
    case While(condition, body) => WhileSound(stmt, s, link, d, c);
    case For(variable, iterable, body) =>
      var m := CheckExpr(iterable, BORROW, s).s;
      ExprGrows(iterable, BORROW, s);
      ForBodyGrows(stmt, m);
      ExprSound(iterable, BORROW, s, link, d, c);
      var r := RunExpr(iterable, BORROW, d, c);
      if r.flow == Normal { ForSound(stmt, m, link, r.run, r.choices); }
    case Break =>
    case Continue =>
  }

  /** An accepted iteration moves nothing that a later one could touch. */
  lemma IterationCovered(link: Link, before: State, body: Verdict, d: Run, r: Run)
    requires Fits(before) && Stands(link, before, d) && Repeat(before, body).Ok?
    requires forall id :: id in body.s.moved ==> id in before.moved || id in Ids(before.scopes) || id >= before.next
    requires Covered(link, body.s.moved, r) && r.scopes == d.scopes && d.next <= r.next
    ensures Stands(link, before, r)
  {
    var leaked := (body.s.moved - before.moved) * Ids(before.scopes);
    forall j: nat | Move(j) in r.trace && j in link ensures link[j] in before.moved {
      assert link[j] !in leaked;
    }
  }

  lemma {:induction false} WhileSound(loop: Stmt, s: State, link: Link, d: Run, c: seq<nat>)
    requires loop.While? && Open(s) && Fits(s) && CheckStmt(loop, s).Ok? && CheckStmt(loop, s).s.quiet
    requires Stands(link, s, d)
    ensures Stands(link, CheckStmt(loop, s).s, RunWhile(loop, d, c).run)
    decreases |c|, loop, 0
  {
    hide CheckStmts, RunStmts, Resolve, CheckBlock, RunBlock, CheckExpr, RunExpr;
    var m := CheckExpr(loop.condition, BORROW, s).s;
    var before := WhileStart(s, m);
    var body := CheckBlock(loop.body, before);
    ExprGrows(loop.condition, BORROW, s);
    BlockGrows(loop.body, before);
    ExprSound(loop.condition, BORROW, s, link, d, c);
    var r := RunExpr(loop.condition, BORROW, d, c);
    WeakenMoved(link, m, CheckStmt(loop, s).s, r.run);
    if !Stops(r) && r.choices[0] != 0 {
      var b := RunBlock(loop.body, r.run, r.choices[1..]);
      BlockSound(loop.body, before, link, r.run, r.choices[1..]);
      IterationCovered(link, before, body, r.run, b.run);
      QuietCovered(link, s, before, d, b.run);
      if b.choices != [] { WhileSound(loop, s, link, b.run, b.choices[1..]); }
    }
  }

  /** A quiet condition leaves every binding from before it as it was. */
  lemma QuietCovered(link: Link, s: State, m: State, d: Run, r: Run)
    requires Fits(s) && Stands(link, s, d) && (m.moved - s.moved) * Ids(s.scopes) == {}
    requires forall id :: id in m.moved ==> id in s.moved || id in Ids(s.scopes) || id >= s.next
    requires Covered(link, m.moved, r) && r.scopes == d.scopes && d.next <= r.next
    ensures Stands(link, s, r)
  {
    var leaked := (m.moved - s.moved) * Ids(s.scopes);
    forall j: nat | Move(j) in r.trace && j in link ensures link[j] in s.moved {
      assert link[j] !in leaked;
    }
  }

  lemma {:induction false} ForSound(loop: Stmt, before: State, link: Link, d: Run, c: seq<nat>)
    requires loop.For? && Fits(before) && Stands(link, before, d)
    requires Repeat(before, CheckStmts(loop.body, ForStart(loop, before))).Ok?
    requires Repeat(before, CheckStmts(loop.body, ForStart(loop, before))).s.quiet
    ensures Stands(link, Repeat(before, CheckStmts(loop.body, ForStart(loop, before))).s, RunFor(loop, d, c).run)
    decreases |c|, loop, 0
  {
    hide CheckStmts, RunStmts, Resolve, Ids, Stands, Fits;
    ForBodyGrows(loop, before);
    WeakenMoved(link, before, Repeat(before, CheckStmts(loop.body, ForStart(loop, before))).s, d);
    if c != [] && c[0] != 0 {
      ForBodySound(loop, before, link, d, c);
      var b := ForBody(loop, d, c);
      WeakenMoved(link, before, Repeat(before, CheckStmts(loop.body, ForStart(loop, before))).s, b.run);
      if b.flow == Normal || b.flow == Continued { ForSound(loop, before, link, b.run, b.choices); }
    }
  }

  /** One iteration of a `for`: a fresh loop variable, then the body. */
  function ForBody(loop: Stmt, d: Run, c: seq<nat>): Outcome
    requires loop.For? && c != []
  {
    Leave(d, RunStmts(loop.body, Fresh(Enter(d), loop.variable, ItemType(loop.iterable)), c[1..]))
  }

  lemma ForMovesOuter(loop: Stmt, before: State)
    requires loop.For? && Fits(before) && CheckStmts(loop.body, ForStart(loop, before)).Ok?
    ensures var t := CheckStmts(loop.body, ForStart(loop, before)).s;
      forall id :: id in t.moved ==> id in before.moved || id in Ids(before.scopes) || id >= before.next
  {
    var start := ForStart(loop, before);
    PushIds(before);
    DeclareGrows(Push(before), loop.variable, ItemType(loop.iterable), false);
    ForBodyGrows(loop, before);
    GrowsTransitive(Push(before), start, CheckStmts(loop.body, start).s);
  }

  lemma {:induction false} ForBodySound(loop: Stmt, before: State, link: Link, d: Run, c: seq<nat>)
    requires loop.For? && Fits(before) && Stands(link, before, d) && c != []
    requires Repeat(before, CheckStmts(loop.body, ForStart(loop, before))).Ok?
    requires Repeat(before, CheckStmts(loop.body, ForStart(loop, before))).s.quiet
    ensures Stands(link, before, ForBody(loop, d, c).run)
    decreases |c| - 1, loop, 0
  {
    hide CheckStmts, RunStmts, Resolve;
    var start := ForStart(loop, before);
    var body := CheckStmts(loop.body, start);
    var ty := ItemType(loop.iterable);
    ForMovesOuter(loop, before);
    EnterSound(link, before, d);
    var link' := DeclareSound(link, Push(before), Enter(d), loop.variable, ty, false);
    StmtsSound(loop.body, start, link', Fresh(Enter(d), loop.variable, ty), c[1..]);
    IterationCovered(link, before, body, d, ForBody(loop, d, c).run);
  }

  lemma {:induction false} IfSound(branch: If, s: State, link: Link, d: Run, c: seq<nat>)
    requires Fits(s) && CheckIf(branch, s).Ok? && CheckIf(branch, s).s.quiet && Stands(link, s, d)
    ensures Stands(link, CheckIf(branch, s).s, RunIf(branch, d, c).run)
    decreases |c|, branch
  {
    var m := CheckExpr(branch.condition, BORROW, s).s;
    var t := CheckBlock(branch.thenBlock, m).s;
    var f0 := m.(next := t.next, quiet := t.quiet);
    var f := CheckElse(branch.els, f0).s;
    ExprGrows(branch.condition, BORROW, s);
    BlockGrows(branch.thenBlock, m);
    ElseGrows(branch.els, f0);
    ExprSound(branch.condition, BORROW, s, link, d, c);
    var r := RunExpr(branch.condition, BORROW, d, c);
    WeakenMoved(link, m, CheckIf(branch, s).s, r.run);
    if !Stops(r) {
      if r.choices[0] == 0 {
        BlockSound(branch.thenBlock, m, link, r.run, r.choices[1..]);
      } else if r.choices[0] == 1 {
        ElseSound(branch.els, f0, link, r.run, r.choices[1..]);
      }
    }
  }

  lemma {:induction false} ElseSound(els: Else, s: State, link: Link, d: Run, c: seq<nat>)
    requires Fits(s) && CheckElse(els, s).Ok? && CheckElse(els, s).s.quiet && Stands(link, s, d)
    ensures Stands(link, CheckElse(els, s).s, RunElse(els, d, c).run)
    decreases |c|, els
  {
    match els
    case NoElse =>
    case ElseBlock(block) => BlockSound(block, s, link, d, c);
    case ElseIf(branch) => IfSound(branch, s, link, d, c);
  }

  // ----- Whole functions

  lemma {:induction false} ParametersSound(parameters: seq<Parameter>, s: State, link: Link, d: Run) returns (link': Link)
    requires Open(s) && Fits(s) && Stands(link, s, d)
    ensures var t := DeclareAll(parameters, s); Fits(t) && t.quiet == s.quiet && Stands(link', t, FreshAll(parameters, d))
  {
    link' := link;
    if parameters != [] {
      var p := parameters[0];
      link' := DeclareSound(link, s, d, p.name, p.ty, false);
      DeclareGrows(s, p.name, p.ty, false);
      link' := ParametersSound(parameters[1..], Declare(s, p.name, p.ty, false).s, link', Fresh(d, p.name, p.ty));
    }
  }

  /** Soundness: if the pass accepts a function and no `while` condition changed the moved set, then on
      every path no affine binding instance is used or moved after it was moved. */
  lemma AcceptedIsSafe(f: Function, next: nat, choices: seq<nat>)
    requires CheckFunction(f, next).Ok? && CheckFunction(f, next).s.quiet
    ensures Safe(Path(f, choices))
  {
    var s0 := State([map[]], {}, next, true);
    var d0 := Run([map[]], 0, []);
    var link := ParametersSound(f.parameters, s0, map[], d0);
    StmtsSound(f.body, DeclareAll(f.parameters, s0), link, FreshAll(f.parameters, d0), choices);
  }

  /** The same for every function of an accepted program. */
  lemma {:induction false} AcceptedProgramIsSafe(functions: seq<Function>, next: nat, i: nat, choices: seq<nat>)
    requires CheckProgram(functions, next).Accepted? && CheckProgram(functions, next).quiet && i < |functions|
    ensures Safe(Path(functions[i], choices))
  {
    if i == 0 {
      AcceptedIsSafe(functions[0], next, choices);
    } else {
      AcceptedProgramIsSafe(functions[1..], CheckFunction(functions[0], next).s.next, i - 1, choices);
    }
  }

  /** `while consume(token) { }` with an affine parameter `token`. */
  function ConsumingLoop(): Function {
    var caps := Ty("NetCaps", [], true);
    var condition := Call(Identifier("consume", UNKNOWN), [Identifier("token", caps)], Ty("Bool", [], false));
    Function([Parameter("token", caps)], [While(condition, [])])
  }

  lemma ConditionMoves(d: Run, c: seq<nat>)
    requires d.scopes == [map["token" := Binding(0, Ty("NetCaps", [], true))]]
    ensures RunExpr(ConsumingLoop().body[0].condition, BORROW, d, c)
         == Outcome(d.(trace := d.trace + [Move(0)]), c, Normal)
  {
    var cond := ConsumingLoop().body[0].condition;
    var ops := StrictOperands(cond);
    assert ops == [Operand(cond.callee, BORROW), Operand(cond.arguments[0], MOVE)];
    assert Resolve(d.scopes, "consume") == None by { assert d.scopes[..0] == []; }
    var d' := d.(trace := d.trace + [Move(0)]);
    assert RunExpr(ops[1].expr, ops[1].ctx, d, c) == Outcome(d', c, Normal);
    assert RunOperands(cond, 2, d', c) == Outcome(d', c, Normal);
    assert RunOperands(cond, 1, d, c) == RunOperands(cond, 2, d', c);
    assert RunOperands(cond, 0, d, c) == RunOperands(cond, 1, d, c);
  }

  lemma LoopMovesTwice(d0: Run)
    requires d0.scopes == [map["token" := Binding(0, Ty("NetCaps", [], true))]]
    ensures RunWhile(ConsumingLoop().body[0], d0, [1, 1, 0])
         == Outcome(d0.(trace := d0.trace + [Move(0), Move(0)]), [], Normal)
  {
    hide RunExpr;
    var loop := ConsumingLoop().body[0];
    var d1 := d0.(trace := d0.trace + [Move(0)]);
    var d2 := d1.(trace := d1.trace + [Move(0)]);
    ConditionMoves(d0, [1, 1, 0]);
    ConditionMoves(d1, [0]);
    assert RunBlock([], d1, [1, 0]) == Outcome(d1, [1, 0], Normal);
    assert RunWhile(loop, d1, [0]) == Outcome(d2, [], Normal);
    assert d2.trace == d0.trace + [Move(0), Move(0)];
  }

  lemma ConditionIsAccepted(s0: State, id: nat)
    requires s0.scopes == [map["token" := Binding(id, Ty("NetCaps", [], true))]] && s0.moved == {}
    ensures CheckExpr(ConsumingLoop().body[0].condition, BORROW, s0) == Ok(s0.(moved := {id}))
  {
    var cond := ConsumingLoop().body[0].condition;
    var ops := StrictOperands(cond);
    var s1 := s0.(moved := {id});
    assert ops == [Operand(cond.callee, BORROW), Operand(cond.arguments[0], MOVE)];
    assert Resolve(s0.scopes, "consume") == None by { assert s0.scopes[..0] == []; }
    assert CheckExpr(ops[1].expr, ops[1].ctx, s0) == Ok(s1);
    assert CheckOperands(cond, 2, s1) == Ok(s1);
    assert CheckOperands(cond, 1, s0) == Ok(s1);
  }

  lemma LoopIsAccepted(s0: State, id: nat)
    requires s0.scopes == [map["token" := Binding(id, Ty("NetCaps", [], true))]] && s0.moved == {}
    ensures CheckStmt(ConsumingLoop().body[0], s0).Ok? && !CheckStmt(ConsumingLoop().body[0], s0).s.quiet
  {
    hide CheckExpr, CheckStmt;
    ConditionIsAccepted(s0, id);
    IdsAt(s0.scopes, 0, "token");
    assert id in ({id} - s0.moved) * Ids(s0.scopes);
    EmptyLoop(ConsumingLoop().body[0].condition, s0, s0.(moved := {id}));
  }

  /** A loop without statements is accepted whatever its condition moves. */
  lemma EmptyLoop(condition: Expr, s: State, t: State)
    requires Open(s) && CheckExpr(condition, BORROW, s) == Ok(t) && (t.moved - s.moved) * Ids(s.scopes) != {}
    ensures CheckStmt(While(condition, []), s).Ok? && !CheckStmt(While(condition, []), s).s.quiet
  {
    hide CheckExpr, Ids;
    var before := WhileStart(s, t);
    assert CheckBlock([], before) == Ok(before) by { assert Push(before).scopes[..|before.scopes|] == before.scopes; }
  }

  /** Without that hypothesis the promise fails: the pass accepts this loop, yet its second
      evaluation of the condition moves the token again. */
  lemma MovingConditionIsAcceptedButUnsafe(next: nat)
    ensures CheckFunction(ConsumingLoop(), next).Ok? && !CheckFunction(ConsumingLoop(), next).s.quiet
    ensures !Safe(Path(ConsumingLoop(), [1, 1, 0]))
  {
    var f := ConsumingLoop();
    var ty := Ty("NetCaps", [], true);
    var s0 := State([map["token" := Binding(next, ty)]], {}, next + 1, true);
    assert DeclareAll(f.parameters[1..], s0) == s0;
    assert DeclareAll(f.parameters, State([map[]], {}, next, true)) == s0;
    LoopIsAccepted(s0, next);
    assert CheckStmts(f.body[1..], CheckStmt(f.body[0], s0).s).Ok?;
    var d0 := Run([map["token" := Binding(0, ty)]], 1, []);
    assert FreshAll(f.parameters[1..], d0) == d0;
    assert FreshAll(f.parameters, Run([map[]], 0, [])) == d0;
    LoopMovesTwice(d0);
    assert RunStmts(f.body[1..], RunWhile(f.body[0], d0, [1, 1, 0]).run, []).run.trace == [Move(0), Move(0)];
    var trace := Path(f, [1, 1, 0]);
    assert trace[0] == Move(0) && trace[1].inst == 0;
  }
}
