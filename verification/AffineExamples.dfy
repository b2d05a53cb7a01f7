/** Why exactness needs code without early exits: with a `return` in a branch the pass rejects a safe function. */
module AffineExamples {
  import opened Options
  import opened AffineSyntax
  import opened AffineCheck
  import opened AffinePaths

  const CAPS: Ty := Ty("NetCaps", [], true)

  /** `consume(token)` */
  const CONSUME: Expr := Call(Identifier("consume", UNKNOWN), [Identifier("token", CAPS)], UNKNOWN)

  /** `if flag { consume(token); return } consume(token)` */
  function ReturningBranch(): Function {
    Function([Parameter("token", CAPS)],
      [IfStmt(If(Literal(UNKNOWN), [ExprStmt(CONSUME), Return(None)], NoElse)), ExprStmt(CONSUME)])
  }

  lemma ConsumeOperands()
    ensures StrictOperands(CONSUME) == [Operand(CONSUME.callee, BORROW), Operand(CONSUME.arguments[0], MOVE)]
  {
  }

  lemma ConsumeRuns(d: Run, c: seq<nat>, j: nat)
    requires AffineBinding(d.scopes, "token") == Some(j) && AffineBinding(d.scopes, "consume") == None
    ensures RunExpr(CONSUME, BORROW, d, c) == Outcome(d.(trace := d.trace + [Move(j)]), c, Normal)
  {
    hide AffineBinding, StrictOperands;
    ConsumeOperands();
    var e := d.(trace := d.trace + [Move(j)]);
    assert RunOperands(CONSUME, 2, e, c) == Outcome(e, c, Normal);
    assert RunOperands(CONSUME, 1, d, c) == RunOperands(CONSUME, 2, e, c);
    assert RunOperands(CONSUME, 0, d, c) == RunOperands(CONSUME, 1, d, c);
  }

  lemma ConsumeChecks(s: State, id: nat)
    requires AffineBinding(s.scopes, "token") == Some(id) && AffineBinding(s.scopes, "consume") == None
    ensures CheckExpr(CONSUME, BORROW, s) == if id in s.moved then Error(KS3931) else Ok(s.(moved := s.moved + {id}))
  {
    hide AffineBinding, StrictOperands;
    ConsumeOperands();
    var t := s.(moved := s.moved + {id});
    assert CheckOperands(CONSUME, 2, t) == Ok(t);
    assert CheckOperands(CONSUME, 1, s) == if id in s.moved then Error(KS3931) else CheckOperands(CONSUME, 2, t);
    assert CheckOperands(CONSUME, 0, s) == CheckOperands(CONSUME, 1, s);
  }

  lemma Bound(scopes: seq<Scope>, id: nat)
    requires scopes == [map["token" := Binding(id, CAPS)]]
    ensures AffineBinding(scopes, "token") == Some(id) && AffineBinding(scopes, "consume") == None
    ensures AffineBinding(scopes + [map[]], "token") == Some(id) && AffineBinding(scopes + [map[]], "consume") == None
  {
    var inner: seq<Scope> := scopes + [map[]];
    assert scopes[..0] == [] && inner[..1] == scopes;
    assert Resolve(scopes, "consume") == None && Resolve(scopes, "token") == Some(Binding(id, CAPS));
    assert Resolve(inner, "consume") == None && Resolve(inner, "token") == Some(Binding(id, CAPS));
  }

  /** The pass rejects the function, yet every path moves the token once. */
  lemma EarlyExitIsConservative(next: nat, choices: seq<nat>)
    ensures CheckFunction(ReturningBranch(), next) == Error(KS3931)
    ensures Safe(Path(ReturningBranch(), choices))
  {
    RejectsReturning(next);
    RunsReturning(choices);
  }

  lemma RejectsReturning(next: nat)
    ensures CheckFunction(ReturningBranch(), next) == Error(KS3931)
  {
    hide AffineBinding, CheckExpr;
    var f := ReturningBranch();
    var s := State([map["token" := Binding(next, CAPS)]], {}, next + 1, true);
    assert DeclareAll(f.parameters[1..], s) == s;
    assert DeclareAll(f.parameters, State([map[]], {}, next, true)) == s;
    Bound(s.scopes, next);
    BranchChecks(s, next);
    var t := CheckStmt(f.body[0], s).s;
    ConsumeChecks(t, next);
    assert f.body[1..][0] == f.body[1];
    assert CheckStmts(f.body[1..], t) == Error(KS3931);
  }

  lemma BranchChecks(s: State, id: nat)
    requires s.scopes == [map["token" := Binding(id, CAPS)]] && s.moved == {}
    ensures var v := CheckStmt(ReturningBranch().body[0], s); v.Ok? && v.s.scopes == s.scopes && id in v.s.moved
  {
    hide AffineBinding;
    var branch := ReturningBranch().body[0].branch;
    Bound(s.scopes, id);
    assert CheckExpr(branch.condition, BORROW, s) == Ok(s);
    var p := Push(s);
    ConsumeChecks(p, id);
    hide CheckExpr;
    var q := p.(moved := {id});
    assert p.moved + {id} == {id};
    var block := branch.thenBlock;
    assert block[1..] == [Return(None)] && block[1..][1..] == [];
    assert CheckStmts(block[1..], q) == Ok(q);
    assert CheckStmt(block[0], p) == Ok(q);
    assert CheckStmts(block, p) == Ok(q);
    assert CheckBlock(block, s) == Ok(Pop(s, q));
    assert CheckElse(NoElse, s.(next := Pop(s, q).next, quiet := Pop(s, q).quiet)).Ok?;
    assert q.scopes[..1] == s.scopes;
    assert id in Ids(s.scopes) by { assert s.scopes[0]["token"].id == id; }
  }

  lemma RunsReturning(choices: seq<nat>)
    ensures Safe(Path(ReturningBranch(), choices))
  {
    hide AffineBinding, RunExpr;
    var f := ReturningBranch();
    var d := Run([map["token" := Binding(0, CAPS)]], 1, []);
    assert FreshAll(f.parameters[1..], d) == d;
    assert FreshAll(f.parameters, Run([map[]], 0, [])) == d;
    Bound(d.scopes, 0);
    BranchRuns(d, choices);
    var r := RunStmt(f.body[0], d, choices);
    if r.flow == Normal {
      ConsumeRuns(r.run, r.choices, 0);
      assert f.body[1..][0] == f.body[1];
      var q := RunStmt(f.body[1], r.run, r.choices);
      assert RunStmts(f.body[1..][1..], q.run, q.choices).run == q.run;
      assert RunStmts(f.body[1..], r.run, r.choices).run == q.run;
    }
    assert |Path(f, choices)| <= 1;
  }

  lemma BranchRuns(d: Run, c: seq<nat>)
    requires d == Run([map["token" := Binding(0, CAPS)]], 1, [])
    ensures var r := RunStmt(ReturningBranch().body[0], d, c);
      if r.flow == Normal then r.run == d else |r.run.trace| <= 1
  {
    hide AffineBinding;
    var branch := ReturningBranch().body[0].branch;
    Bound(d.scopes, 0);
    assert RunExpr(branch.condition, BORROW, d, c) == Outcome(d, c, Normal);
    assert RunStmt(ReturningBranch().body[0], d, c) == RunIf(branch, d, c);
    if c != [] && c[0] == 1 { assert RunElse(NoElse, d, c[1..]) == Outcome(d, c[1..], Normal); }
    if c != [] && c[0] == 0 {
      var e := Enter(d);
      ConsumeRuns(e, c[1..], 0);
      hide RunExpr;
      var block := branch.thenBlock;
      assert block[1..][0] == Return(None);
      var q := RunStmt(block[0], e, c[1..]);
      assert RunStmts(block[1..], q.run, q.choices) == Outcome(q.run, q.choices, Returned);
      assert RunStmts(block, e, c[1..]) == Outcome(q.run, q.choices, Returned);
      assert RunIf(branch, d, c) == RunBlock(block, d, c[1..]);
    }
  }
}
