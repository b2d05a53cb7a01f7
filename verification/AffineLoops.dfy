/** A loop that moves an outer instance in one round can do so again in the next. */
module AffineLoops {
  import opened Options
  import opened AffineSyntax
  import opened AffinePaths
  import opened AffineConverse
  import opened AffineTraces
  import opened AffineParts
  import opened AffineJoins
  import opened AffineWitness

  // ----- `for`

  lemma RoundRun(loop: Stmt, d: Run, c: seq<nat>)
    requires loop.For? && d.scopes != []
    ensures Valid(RoundPart(loop))
    ensures RunPart(RoundPart(loop), d, c) ==
      Leave(d, RunStmts(loop.body, Fresh(Enter(d), loop.variable, ItemType(loop.iterable)), c))
  {
    hide RunStmts, Fresh;
    assert Valid(Seq(loop.body));
    var o := Fresh(Enter(d), loop.variable, ItemType(loop.iterable));
    assert Opened(RoundPart(loop).binding, d) == o;
    assert RunPart(Seq(loop.body), o, c) == RunStmts(loop.body, o, c);
  }

  /** The first round's events come first. */
  lemma RoundTrace(loop: Stmt, d: Run, c: seq<nat>)
    requires loop.For? && d.scopes != []
    ensures Valid(RoundPart(loop)) && RunPart(RoundPart(loop), d, c).run.trace <= RunFor(loop, d, [1] + c).run.trace
  {
    hide RunStmts, Later, RoundPart, RunPart, Fresh, Enter, ItemType;
    RoundRun(loop, d, c);
    assert ([1] + c)[1..] == c;
    var b := RunPart(RoundPart(loop), d, c);
    if b.flow == Normal || b.flow == Continued {
      ForLater(loop, b.run, b.choices);
      LaterTrace(b.run, RunFor(loop, b.run, b.choices).run);
    }
  }

  lemma RoundThenMore(loop: Stmt, d: Run, c: seq<nat>, e: Run, x: seq<nat>)
    requires loop.For? && Goes(RoundPart(loop), d, c, e)
    ensures d.scopes != [] && e.scopes == d.scopes && RunFor(loop, d, [1] + (c + x)) == RunFor(loop, e, x)
  {
    hide RunStmts, Later, Goes, RoundPart;
    Going(RoundPart(loop), d, c, e, x);
    RoundRun(loop, d, c + x);
    assert ([1] + (c + x))[1..] == c + x;
  }

  /** The same choices in a second round move the same outer instance. */
  lemma RoundAgain(loop: Stmt, d: Run, c: seq<nat>, e: Run, j: nat)
    requires loop.For? && Goes(RoundPart(loop), d, c, e) && j < d.next && MovedSince(d.trace, e.trace, j)
    ensures e.scopes == d.scopes != [] && Valid(RoundPart(loop))
    ensures MovedSince(e.trace, RunPart(RoundPart(loop), e, c).run.trace, j)
  {
    hide RunStmts, Goes, RoundPart, Twins, MovedSince, Fresh;
    RoundThenMore(loop, d, c, e, []);
    Going(RoundPart(loop), d, c, e, []);
    assert c + [] == c;
    RoundRun(loop, d, c);
    RoundRun(loop, e, c);
    var w := Replay(d.next, d.trace, e.trace, []);
    var ty := ItemType(loop.iterable);
    var f, f' := Fresh(Enter(d), loop.variable, ty), Fresh(Enter(e), loop.variable, ty);
    SameStart(w, d, e);
    EnterTwins(w, d, e);
    FreshTwins(w, Enter(d), Enter(e), loop.variable, ty);
    FreshOpen(Enter(d), loop.variable, ty);
    FreshOpen(Enter(e), loop.variable, ty);
    StmtsTwins(loop.body, w, f, f', c);
    var q, q' := RunStmts(loop.body, f, c), RunStmts(loop.body, f', c);
    AlikeMoves(w, q.run, q'.run, j);
  }

  lemma FreshOpen(d: Run, name: string, ty: Ty)
    requires d.scopes != []
    ensures Fresh(d, name, ty).scopes != []
  {
  }

  lemma TwoRounds(loop: Stmt, d: Run, c: seq<nat>, e: Run, j: nat)
    requires loop.For? && Goes(RoundPart(loop), d, c, e) && j < d.next && MovedSince(d.trace, e.trace, j)
    ensures UnsafeRun(Rounds(loop), d, [1] + (c + ([1] + c)))
  {
    hide RunFor, Goes, RoundPart, MovedSince, Safe;
    RoundAgain(loop, d, c, e, j);
    RoundThenMore(loop, d, c, e, [1] + c);
    RoundTrace(loop, e, c);
    var u := RunPart(RoundPart(loop), e, c).run.trace;
    TwoMovesAreUnsafe(d.trace, e.trace, u, j);
    UnsafeStays(u, RunFor(loop, e, [1] + c).run.trace);
  }

  // ----- `while`

  /** One round of a `while`, and on with the choices that follow. */
  lemma WhileRound(loop: Stmt, d: Run, c: seq<nat>, e: Run, c': seq<nat>, f: Run, x: seq<nat>)
    requires loop.While? && Goes(Ex(loop.condition, BORROW), d, c, e) && Goes(Block(loop.body), e, c', f)
    ensures d.scopes != [] && e.scopes == d.scopes && f.scopes == e.scopes
    ensures RunWhile(loop, d, c + ([1] + (c' + ([1] + x)))) == RunWhile(loop, f, x)
  {
    hide RunExpr, RunBlock, Later, Goes;
    var rest := c' + ([1] + x);
    Going(Ex(loop.condition, BORROW), d, c, e, [1] + rest);
    assert ([1] + rest)[1..] == rest;
    Going(Block(loop.body), e, c', f, [1] + x);
    BlockRun(loop.body, e, rest);
    assert ([1] + x)[1..] == x;
  }

  /** The events of the condition and then of the body are in the loop's. */
  lemma WhileInside(loop: Stmt, d: Run, c: seq<nat>, e: Run, c': seq<nat>)
    requires loop.While? && Goes(Ex(loop.condition, BORROW), d, c, e)
    ensures d.scopes != [] && e.scopes != [] && Valid(Block(loop.body))
    ensures RunPart(Block(loop.body), e, c').run.trace <= RunWhile(loop, d, c + ([1] + c')).run.trace
  {
    hide RunExpr, RunBlock, Later, Goes, RunWhile;
    Going(Ex(loop.condition, BORROW), d, c, e, [1] + c');
    assert ([1] + c')[1..] == c';
    BlockRun(loop.body, e, c');
    WhileTrace(loop, d, c + ([1] + c'));
  }

  lemma BlockAgain(body: seq<Stmt>, e: Run, c: seq<nat>, f: Run, e': Run, j: nat)
    requires Goes(Block(body), e, c, f) && j < e.next && MovedSince(e.trace, f.trace, j)
    requires e'.scopes == e.scopes && e.next <= e'.next && e.scopes != []
    ensures Valid(Block(body)) && MovedSince(e'.trace, RunPart(Block(body), e', c).run.trace, j)
  {
    hide RunBlock, Goes, Twins, MovedSince, Later;
    Going(Block(body), e, c, f, []);
    assert c + [] == c;
    BlockRun(body, e, c);
    BlockRun(body, e', c);
    var w := Replay(e.next, e.trace, e'.trace, []);
    SameStart(w, e, e');
    BlockTwins(body, w, e, e', c);
    AlikeMoves(w, RunBlock(body, e, c).run, RunBlock(body, e', c).run, j);
  }

  /** A body that moves an outer instance, twice. */
  lemma TwoBodies(loop: Stmt, d: Run, c: seq<nat>, e: Run, c': seq<nat>, f: Run, j: nat) returns (x: seq<nat>)
    requires loop.While? && Passable(Ex(loop.condition, BORROW))
    requires Goes(Ex(loop.condition, BORROW), d, c, e) && Goes(Block(loop.body), e, c', f)
    requires j < e.next && MovedSince(e.trace, f.trace, j)
    ensures UnsafeRun(St(loop), d, x)
  {
    hide RunWhile, Goes, MovedSince, Safe, Later, Passable;
    WhileRound(loop, d, c, e, c', f, []);
    var c3, f3 := WayThrough(loop.condition, f);
    LaterSteps(loop, d, c, e, c', f, c3, f3);
    BlockAgain(loop.body, e, c', f, f3, j);
    var u := RunPart(Block(loop.body), f3, c').run.trace;
    MovedStaysMoved(e.trace, f.trace, f3.trace, j);
    TwoMovesAreUnsafe(e.trace, f3.trace, u, j);
    WhileInside(loop, f, c3, f3, c');
    UnsafeStays(u, RunWhile(loop, f, c3 + ([1] + c')).run.trace);
    WhileRound(loop, d, c, e, c', f, c3 + ([1] + c'));
    x := c + ([1] + (c' + ([1] + (c3 + ([1] + c')))));
    assert RunPart(St(loop), d, x) == RunWhile(loop, d, x);
  }

  lemma WayThrough(condition: Expr, d: Run) returns (c: seq<nat>, e: Run)
    requires Passable(Ex(condition, BORROW)) && d.scopes != []
    ensures Goes(Ex(condition, BORROW), d, c, e)
  {
    hide Goes;
    c, e :| Goes(Ex(condition, BORROW), d, c, e);
  }

  lemma LaterSteps(loop: Stmt, d: Run, c: seq<nat>, e: Run, c': seq<nat>, f: Run, c3: seq<nat>, f3: Run)
    requires loop.While? && Goes(Ex(loop.condition, BORROW), d, c, e) && Goes(Block(loop.body), e, c', f)
    requires Goes(Ex(loop.condition, BORROW), f, c3, f3)
    ensures f3.scopes == e.scopes != [] && e.next <= f3.next && f.trace <= f3.trace
  {
    hide Goes, RunExpr, RunBlock;
    Going(Ex(loop.condition, BORROW), d, c, e, []);
    Going(Block(loop.body), e, c', f, []);
    Going(Ex(loop.condition, BORROW), f, c3, f3, []);
    BlockRun(loop.body, e, c' + []);
  }

  /** A condition that moves an outer instance, twice. */
  lemma TwoConditions(loop: Stmt, d: Run, c: seq<nat>, e: Run, j: nat) returns (x: seq<nat>)
    requires loop.While? && Passable(Block(loop.body))
    requires Goes(Ex(loop.condition, BORROW), d, c, e) && j < d.next && MovedSince(d.trace, e.trace, j)
    ensures UnsafeRun(St(loop), d, x)
  {
    hide RunExpr, RunBlock, RunWhile, Later, Goes, MovedSince, Safe;
    Going(Ex(loop.condition, BORROW), d, c, e, []);
    assert c + [] == c;
    var c', f :| Goes(Block(loop.body), e, c', f);
    Going(Block(loop.body), e, c', f, []);
    assert c' + [] == c';
    BlockRun(loop.body, e, c');
    ReenteredMoveIsUnsafe(loop, d, c, c', j);
    x :| !Safe(RunWhile(loop, d, x).run.trace);
  }
}
