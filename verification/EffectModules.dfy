/** Effects across a module graph: each module is analysed once, in dependency order, with the reports of the
    modules it imports; the result is what reachability in the whole program gives. */
module EffectModules {
  import opened Options
  import opened EffectGraphs
  import opened EffectInference

  type Key = string

  /** A declared function: its own effects, the local functions and the `alias.name` functions it calls. */
  datatype Function = Function(isPure: bool, direct: Effects, calls: set<string>, foreign: set<(string, string)>)

  datatype Module = Module(functions: map<string, Function>, imports: map<string, Key>)

  type Report = map<string, Effects>

  ghost predicate ValidModule(m: Module) {
    forall f, c :: f in m.functions && c in m.functions[f].calls ==> c in m.functions
  }

  function UnknownImport(call: (string, string)): string {
    "unknown.import:" + call.0 + "." + call.1
  }

  // ----- One module, given the reports of its imports

  /** What one imported call contributes. */
  function Imported(m: Module, reports: map<Key, Report>, call: (string, string)): Effects {
    if call.0 in m.imports && m.imports[call.0] in reports && call.1 in reports[m.imports[call.0]]
    then reports[m.imports[call.0]][call.1]
    else {UnknownImport(call)}
  }

  function Bound(m: Module, reports: map<Key, Report>, f: string): Effects
    requires f in m.functions
  {
    m.functions[f].direct + (set call, e | call in m.functions[f].foreign && e in Imported(m, reports, call) :: e)
  }

  function Calls(m: Module): map<string, set<string>> {
    map f | f in m.functions :: m.functions[f].calls
  }

  /** The local call graph with imported effects bound in. */
  function Local(m: Module, reports: map<Key, Report>): Graph<string> {
    Graph(map f | f in m.functions :: Bound(m, reports, f), Calls(m))
  }

  // ----- The whole program

  type Node = (Key, string)

  predicate Resolves(modules: map<Key, Module>, m: Module, call: (string, string)) {
    call.0 in m.imports && m.imports[call.0] in modules && call.1 in modules[m.imports[call.0]].functions
  }

  predicate Declared(modules: map<Key, Module>, n: Node) {
    n.0 in modules && n.1 in modules[n.0].functions
  }

  function Nodes(modules: map<Key, Module>): set<Node> {
    set k, f | k in modules && f in modules[k].functions :: (k, f)
  }

  /** The effects of a function itself; an import that names no declared function is an effect. */
  function Own(modules: map<Key, Module>, n: Node): Effects
    requires Declared(modules, n)
  {
    var m := modules[n.0];
    m.functions[n.1].direct + (set call | call in m.functions[n.1].foreign && !Resolves(modules, m, call) :: UnknownImport(call))
  }

  function Callees(modules: map<Key, Module>, n: Node): set<Node>
    requires Declared(modules, n)
  {
    var m := modules[n.0];
    (set c | c in m.functions[n.1].calls :: (n.0, c))
    + (set call | call in m.functions[n.1].foreign && Resolves(modules, m, call) :: (m.imports[call.0], call.1))
  }

  function Whole(modules: map<Key, Module>): Graph<Node> {
    Graph(map n | n in Nodes(modules) :: Own(modules, n), map n | n in Nodes(modules) :: Callees(modules, n))
  }

  ghost predicate ValidModules(modules: map<Key, Module>) {
    forall k :: k in modules ==> ValidModule(modules[k])
  }

  /** Imports come first. */
  ghost predicate DependencyOrder(modules: map<Key, Module>, order: seq<Key>) {
    && (forall k :: k in modules <==> k in order)
    && (forall i, j :: 0 <= i < j < |order| ==> order[i] != order[j])
    && (forall i, alias :: 0 <= i < |order| && order[i] in modules && alias in modules[order[i]].imports ==>
          modules[order[i]].imports[alias] in order[..i] || modules[order[i]].imports[alias] !in modules)
  }

  lemma WholeIsWellFormed(modules: map<Key, Module>)
    requires ValidModules(modules)
    ensures WellFormed(Whole(modules))
  {
    forall n, c | n in Whole(modules).calls && c in Whole(modules).calls[n] ensures c in Nodes(modules) { }
  }

  /** The report of module `k` says exactly what its functions reach in the whole program. */
  ghost predicate Faithful(modules: map<Key, Module>, k: Key, report: Report)
    requires k in modules
  {
    && report.Keys == modules[k].functions.Keys
    && forall f, e :: f in report ==> (e in report[f] <==> Has(Whole(modules), (k, f), e))
  }

  /** The reports of the modules seen so far. */
  ghost predicate FaithfulReports(modules: map<Key, Module>, reports: map<Key, Report>, seen: seq<Key>) {
    && (forall k :: k in reports <==> k in seen)
    && (forall k :: k in reports ==> k in modules && Faithful(modules, k, reports[k]))
  }

  /** With the imports seen, an imported call contributes what it reaches, or is unresolved in both views. */
  lemma ImportedIsWhole(modules: map<Key, Module>, reports: map<Key, Report>, order: seq<Key>, i: nat, call: (string, string))
    requires DependencyOrder(modules, order) && i < |order| && FaithfulReports(modules, reports, order[..i])
    ensures order[i] in modules
    ensures var m := modules[order[i]];
      if Resolves(modules, m, call)
      then forall e :: e in Imported(m, reports, call) <==> Has(Whole(modules), (m.imports[call.0], call.1), e)
      else Imported(m, reports, call) == {UnknownImport(call)}
  {
    hide Has, Whole;
    assert order[i] in order;
    var m := modules[order[i]];
    if call.0 in m.imports && m.imports[call.0] in modules {
      var k := m.imports[call.0];
      assert k in order[..i];
      assert Faithful(modules, k, reports[k]);
    }
  }

  /** Analysing one module keeps the reports faithful: local effects found in the whole program. */
  lemma LocalIsWhole(modules: map<Key, Module>, reports: map<Key, Report>, order: seq<Key>, i: nat, p: seq<string>, f: string, g: string, e: string)
    requires DependencyOrder(modules, order) && ValidModules(modules) && i < |order| && FaithfulReports(modules, reports, order[..i])
    requires order[i] in modules && Leads(Local(modules[order[i]], reports), p, f, g)
    requires e in Bound(modules[order[i]], reports, g)
    ensures Has(Whole(modules), (order[i], f), e)
    decreases |p|
  {
    var k := order[i];
    var m := modules[k];
    var w := Whole(modules);
    WholeIsWellFormed(modules);
    FirstCall(Local(m, reports), p, f, g);
    assert (k, f) in Nodes(modules);
    if |p| > 1 {
      LocalIsWhole(modules, reports, order, i, p[1..], p[1], g, e);
      assert (k, p[1]) in Callees(modules, (k, f));
      CallHas(w, (k, f), (k, p[1]), e);
    } else if e in Own(modules, (k, f)) {
      BaseHas(w, (k, f), e);
    } else {
      var call :| call in m.functions[f].foreign && e in Imported(m, reports, call);
      ImportedIsWhole(modules, reports, order, i, call);
      var target := (m.imports[call.0], call.1);
      assert target in Callees(modules, (k, f));
      CallHas(w, (k, f), target, e);
    }
  }

  /** And nothing that the whole program reaches is lost. */
  lemma {:induction false} WholeIsLocal(modules: map<Key, Module>, reports: map<Key, Report>, order: seq<Key>, i: nat, resolved: Report, p: seq<Node>, f: string, n: Node, e: string)
    requires DependencyOrder(modules, order) && ValidModules(modules) && i < |order| && FaithfulReports(modules, reports, order[..i])
    requires order[i] in modules && Closed(Local(modules[order[i]], reports), resolved)
    requires Leads(Whole(modules), p, (order[i], f), n) && e in Own(modules, n)
    ensures f in resolved && e in resolved[f]
    decreases |p|
  {
    var k := order[i];
    var m := modules[k];
    var w := Whole(modules);
    FirstCall(w, p, (k, f), n);
    assert Local(m, reports).base[f] <= resolved[f];
    if |p| == 1 {
      assert n == (k, f);
      OwnIsBound(modules, reports, order, i, f, e);
    } else if p[1].0 == k && p[1].1 in m.functions[f].calls {
      WholeIsLocal(modules, reports, order, i, resolved, p[1..], p[1].1, n, e);
      assert resolved[p[1].1] <= resolved[f];
    } else {
      var call :| call in m.functions[f].foreign && Resolves(modules, m, call) && p[1] == (m.imports[call.0], call.1);
      ImportedIsWhole(modules, reports, order, i, call);
      assert Reaches(w, p[1], n);
      assert Has(w, p[1], e);
      assert e in Bound(m, reports, f);
    }
  }

  lemma OwnIsBound(modules: map<Key, Module>, reports: map<Key, Report>, order: seq<Key>, i: nat, f: string, e: string)
    requires DependencyOrder(modules, order) && i < |order| && FaithfulReports(modules, reports, order[..i])
    requires order[i] in modules && Declared(modules, (order[i], f)) && e in Own(modules, (order[i], f))
    ensures e in Bound(modules[order[i]], reports, f)
  {
    var m := modules[order[i]];
    if e !in m.functions[f].direct {
      var call :| call in m.functions[f].foreign && !Resolves(modules, m, call) && UnknownImport(call) == e;
      ImportedIsWhole(modules, reports, order, i, call);
    }
  }

  /** Exact in the module means faithful to the whole program. */
  lemma ModularIsWhole(modules: map<Key, Module>, reports: map<Key, Report>, order: seq<Key>, i: nat, resolved: Report)
    requires DependencyOrder(modules, order) && ValidModules(modules) && i < |order| && FaithfulReports(modules, reports, order[..i])
    requires order[i] in modules && Exact(Local(modules[order[i]], reports), resolved)
    ensures Faithful(modules, order[i], resolved)
  {
    hide Has, Whole, Local, Bound, DependencyOrder, FaithfulReports;
    var k := order[i];
    var g := Local(modules[k], reports);
    LocalIsWellFormed(modules[k], reports);
    ExactIffLeast(g, resolved);
    forall f, e | f in resolved ensures e in resolved[f] <==> Has(Whole(modules), (k, f), e) {
      if Has(g, f, e) { FoundInWhole(modules, reports, order, i, f, e); }
      if Has(Whole(modules), (k, f), e) { FoundInModule(modules, reports, order, i, resolved, f, e); }
    }
  }

  lemma LocalIsWellFormed(m: Module, reports: map<Key, Report>)
    requires ValidModule(m)
    ensures WellFormed(Local(m, reports)) && Local(m, reports).calls.Keys == m.functions.Keys
    ensures forall f :: f in m.functions ==> Local(m, reports).base[f] == Bound(m, reports, f)
  {
  }

  lemma FoundInWhole(modules: map<Key, Module>, reports: map<Key, Report>, order: seq<Key>, i: nat, f: string, e: string)
    requires DependencyOrder(modules, order) && ValidModules(modules) && i < |order| && FaithfulReports(modules, reports, order[..i])
    requires order[i] in modules && Has(Local(modules[order[i]], reports), f, e)
    ensures Has(Whole(modules), (order[i], f), e)
  {
    hide Whole, DependencyOrder, FaithfulReports;
    var g := Local(modules[order[i]], reports);
    var h :| Reaches(g, f, h) && h in g.base && e in g.base[h];
    var p :| Leads(g, p, f, h);
    LocalIsWhole(modules, reports, order, i, p, f, h, e);
  }

  lemma FoundInModule(modules: map<Key, Module>, reports: map<Key, Report>, order: seq<Key>, i: nat, resolved: Report, f: string, e: string)
    requires DependencyOrder(modules, order) && ValidModules(modules) && i < |order| && FaithfulReports(modules, reports, order[..i])
    requires order[i] in modules && Closed(Local(modules[order[i]], reports), resolved)
    requires Has(Whole(modules), (order[i], f), e)
    ensures f in resolved && e in resolved[f]
  {
    hide Local, DependencyOrder, FaithfulReports, Closed;
    var w := Whole(modules);
    var n :| Reaches(w, (order[i], f), n) && n in w.base && e in w.base[n];
    var p :| Leads(w, p, (order[i], f), n);
    WholeIsLocal(modules, reports, order, i, resolved, p, f, n, e);
  }

  // ----- The analysis

  /** The imported calls of one function, in any order. */
  method BindCalls(m: Module, reports: map<Key, Report>, f: string) returns (effects: Effects)
    requires f in m.functions
    ensures effects == Bound(m, reports, f)
  {
    hide Imported;
    var foreign := m.functions[f].foreign;
    var calls := foreign;
    effects := m.functions[f].direct;
    while calls != {}
      invariant calls <= foreign
      invariant forall e :: e in effects <==>
        e in m.functions[f].direct || exists call :: call in foreign - calls && e in Imported(m, reports, call)
    {
      var call :| call in calls;
      effects := effects + Imported(m, reports, call);
      calls := calls - {call};
    }
  }

  /** Binding the imported effects of every function. */
  method BindImports(m: Module, reports: map<Key, Report>) returns (base: map<string, Effects>)
    ensures base == Local(m, reports).base
  {
    hide Bound;
    base := map f | f in m.functions :: m.functions[f].direct;
    var todo := m.functions.Keys;
    while todo != {}
      invariant todo <= m.functions.Keys == base.Keys
      invariant forall f :: f in m.functions.Keys - todo ==> base[f] == Bound(m, reports, f)
    {
      var f :| f in todo;
      var effects := BindCalls(m, reports, f);
      base := base[f := effects];
      todo := todo - {f};
    }
  }

  /** `check_effect_contracts`: the report of a module, and the first pure function with an effect. */
  method CheckContracts(m: Module, reports: map<Key, Report>, order: seq<string>) returns (report: Report, bad: Option<string>)
    requires ValidModule(m) && forall f :: f in order <==> f in m.functions
    ensures Exact(Local(m, reports), report)
    ensures bad == None <==> forall f :: f in m.functions && m.functions[f].isPure ==> f in report && report[f] == {}
    ensures bad.Some? ==> bad.value in m.functions && m.functions[bad.value].isPure && bad.value in report && report[bad.value] != {}
  {
    hide Has, Bound, WellFormed, ValidModule, UnknownImport;
    LocalIsWellFormed(m, reports);
    var base := BindImports(m, reports);
    report := InferContracts(Graph(base, Calls(m)), order);
    bad := None;
    for i := 0 to |order|
      invariant bad == None && forall j :: 0 <= j < i ==> m.functions[order[j]].isPure ==> report[order[j]] == {}
    {
      assert order[i] in order;
      if m.functions[order[i]].isPure && report[order[i]] != {} { return report, Some(order[i]); }
    }
  }

  /** The effect analysis of `check_graph`: accepted exactly when every `pure` contract holds. */
  method CheckGraph(modules: map<Key, Module>, order: seq<Key>, names: map<Key, seq<string>>)
    returns (reports: map<Key, Report>, bad: Option<Node>)
    requires ValidModules(modules) && DependencyOrder(modules, order)
    requires names.Keys == modules.Keys && forall k :: k in modules ==> forall f :: f in names[k] <==> f in modules[k].functions
    ensures bad == None ==> FaithfulReports(modules, reports, order)
    ensures bad == None <==> ContractsHold(modules)
    ensures bad.Some? ==> Declared(modules, bad.value) && modules[bad.value.0].functions[bad.value.1].isPure
  {
    hide Has, Whole, Faithful, Exact, Local, ContractsHold, ValidModule, Own, UnknownImport, Kept, DependencyOrder, FaithfulReports;
    reports := map[];
    bad := None;
    NoReports(modules, order);
    for i := 0 to |order|
      invariant FaithfulReports(modules, reports, order[..i])
      invariant forall k :: k in reports ==> Kept(modules, k, reports[k])
    {
      var k := order[i];
      InOrder(modules, order, i);
      var report, culprit := CheckContracts(modules[k], reports, names[k]);
      ModularIsWhole(modules, reports, order, i, report);
      if culprit.Some? {
        Violates(modules, k, report, culprit.value);
        return reports, Some((k, culprit.value));
      }
      AddReport(modules, reports, order, i, report);
      reports := reports[k := report];
    }
    AllKept(modules, reports, order);
  }

  /** No function declared pure reaches, through local and imported calls, one with an effect of its own. */
  ghost predicate ContractsHold(modules: map<Key, Module>) {
    forall n, n' :: Declared(modules, n) && modules[n.0].functions[n.1].isPure && Reaches(Whole(modules), n, n') ==>
      Declared(modules, n') && Own(modules, n') == {}
  }

  lemma AllKept(modules: map<Key, Module>, reports: map<Key, Report>, order: seq<Key>)
    requires ValidModules(modules) && DependencyOrder(modules, order) && FaithfulReports(modules, reports, order)
    requires forall k :: k in reports ==> Kept(modules, k, reports[k])
    ensures ContractsHold(modules)
  {
    hide Whole, Own, Reaches, Faithful, ValidModule;
    forall n, n' | Declared(modules, n) && modules[n.0].functions[n.1].isPure && Reaches(Whole(modules), n, n')
      ensures Declared(modules, n') && Own(modules, n') == {}
    {
      assert n.0 in order;
      assert Kept(modules, n.0, reports[n.0]);
      Honours(modules, n.0, reports[n.0], n.1, n');
    }
  }

  lemma NoReports(modules: map<Key, Module>, order: seq<Key>)
    ensures FaithfulReports(modules, map[], order[..0]) && order[..|order|] == order
  {
  }

  lemma InOrder(modules: map<Key, Module>, order: seq<Key>, i: nat)
    requires DependencyOrder(modules, order) && i < |order|
    ensures order[i] in modules
  {
    assert order[i] in order;
  }

  lemma AddReport(modules: map<Key, Module>, reports: map<Key, Report>, order: seq<Key>, i: nat, report: Report)
    requires i < |order| && order[i] in modules && FaithfulReports(modules, reports, order[..i])
    requires Faithful(modules, order[i], report)
    ensures FaithfulReports(modules, reports[order[i] := report], order[..i + 1])
    ensures Kept(modules, order[i], report) <==>
      forall f :: f in modules[order[i]].functions && modules[order[i]].functions[f].isPure ==> f in report && report[f] == {}
  {
    hide Faithful;
    assert order[..i + 1] == order[..i] + [order[i]];
  }

  ghost predicate Kept(modules: map<Key, Module>, k: Key, report: Report) {
    k in modules && forall f :: f in modules[k].functions && modules[k].functions[f].isPure ==> f in report && report[f] == {}
  }

  lemma Honours(modules: map<Key, Module>, k: Key, report: Report, f: string, n: Node)
    requires k in modules && ValidModules(modules) && Faithful(modules, k, report) && f in report && report[f] == {}
    requires Reaches(Whole(modules), (k, f), n)
    ensures Declared(modules, n) && Own(modules, n) == {}
  {
    var w := Whole(modules);
    var p :| Leads(w, p, (k, f), n);
    assert n in Nodes(modules);
    if e :| e in Own(modules, n) { assert Has(w, (k, f), e); }
  }

  lemma Violates(modules: map<Key, Module>, k: Key, report: Report, f: string)
    requires k in modules && Faithful(modules, k, report) && f in report && report[f] != {}
    ensures Declared(modules, (k, f))
    ensures modules[k].functions[f].isPure ==> !ContractsHold(modules)
  {
    var w := Whole(modules);
    var e :| e in report[f];
    assert Has(w, (k, f), e);
    var n :| Reaches(w, (k, f), n) && n in w.base && e in w.base[n];
    assert Declared(modules, n) && Own(modules, n) != {};
  }
}
