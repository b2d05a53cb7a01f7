/** The bounded goroutine pool behind `parallel_map` against the interpreter's sequential loop. */
module ParallelMap {
  import opened Options

  datatype Value =
    | Bool(b: bool) | Int(i: int) | Float(bits: int) | Str(s: string)
    | Error(message: string)
    | Other(capability: bool)

  predicate Scalar(v: Value) {
    v.Bool? || v.Int? || v.Float? || v.Str?
  }

  predicate ContainsCapability(v: Value) {
    v.Other? && v.capability
  }

  predicate ShareSafe(v: Value) {
    Scalar(v) && !ContainsCapability(v)
  }

  datatype Outcome = List(items: seq<Value>) | Failed(message: string)

  /** A worker is a deterministic function: the checker only admits leaf functions without effects. */
  type Worker = Value -> Value

  /** The arguments as the runtime receives them; `None` is a value of the wrong kind. */
  datatype Call = Call(list: Option<seq<Value>>, worker: Option<Worker>, maxWorkers: Option<int>)

  const KS3920 := "KS3920: parallel_map max_workers must be between 1 and 64"
  const KS3923 := "KS3923: parallel worker returned a non-scalar value"
  const NOT_A_LIST := "KS3921: parallel_map expects List<scalar>"
  const NOT_A_WORKER := "KS3921: parallel_map expects a direct unary worker"
  const NOT_SHARE_SAFE := "KS3921: parallel_map input items must be share-safe scalars"

  /** The argument checks, which both backends make in this order. */
  function Rejection(call: Call): Option<string> {
    if call.list.None? then Some(NOT_A_LIST)
    else if call.worker.None? then Some(NOT_A_WORKER)
    else if call.maxWorkers.None? || !(1 <= call.maxWorkers.value <= 64) then Some(KS3920)
    else if exists i :: 0 <= i < |call.list.value| && !ShareSafe(call.list.value[i]) then Some(NOT_SHARE_SAFE)
    else None
  }

  /** The error that one mapped value stands for, if it is one. */
  function Fault(v: Value): Option<string> {
    if v.Error? then Some(v.message) else if !ShareSafe(v) then Some(KS3923) else None
  }

  /** The contract: all results in order, or the error of the first failing item. */
  function Mapped(items: seq<Value>, f: Worker): Outcome {
    if items == [] then List([])
    else
      match Fault(f(items[0]))
      case Some(e) => Failed(e)
      case None =>
        match Mapped(items[1..], f)
        case Failed(e) => Failed(e)
        case List(rest) => List([f(items[0])] + rest)
  }

  /** Index `i` is the lowest whose mapped value is an error or no scalar, and `e` is what that gives. */
  ghost predicate FirstFault(items: seq<Value>, f: Worker, i: nat, e: string) {
    && i < |items| && (forall j :: 0 <= j < i ==> f(items[j]).Bool? || f(items[j]).Int? || f(items[j]).Float? || f(items[j]).Str?)
    && match f(items[i])
       case Error(message) => e == message
       case Other(_) => e == KS3923
       case _ => false
  }

  /** The contract without recursion: the results of all items in order when each is a scalar, and otherwise the error
      of the lowest index where one is not. */
  lemma {:induction false} MappedExactly(items: seq<Value>, f: Worker)
    ensures match Mapped(items, f)
      case List(vs) => |vs| == |items| && forall i :: 0 <= i < |items| ==>
        vs[i] == f(items[i]) && (vs[i].Bool? || vs[i].Int? || vs[i].Float? || vs[i].Str?)
      case Failed(e) => exists i :: FirstFault(items, f, i, e)
  {
    if items != [] {
      MappedExactly(items[1..], f);
      match Fault(f(items[0]))
      case Some(e) => assert FirstFault(items, f, 0, e);
      case None =>
        match Mapped(items[1..], f)
        case Failed(e) =>
          var i: nat :| FirstFault(items[1..], f, i, e);
          assert forall j :: 0 < j < |items| ==> items[j] == items[1..][j - 1];
          assert FirstFault(items, f, i + 1, e);
        case List(_) =>
    }
  }

  function Contract(call: Call): Outcome {
    match Rejection(call)
    case Some(e) => Failed(e)
    case None => Mapped(call.list.value, call.worker.value)
  }

  // ----- The interpreter

  method Interpret(call: Call) returns (r: Outcome)
    ensures r == Contract(call)
  {
    var rejected := Rejection(call);
    if rejected.Some? { return Failed(rejected.value); }
    var items, f := call.list.value, call.worker.value;
    var results: seq<Value> := [];
    for i := 0 to |items|
      invariant Mapped(items, f) == match Mapped(items[i..], f)
        case Failed(e) => Failed(e)
        case List(rest) => List(results + rest)
    {
      assert items[i..][0] == items[i] && items[i..][1..] == items[i + 1..];
      var mapped := f(items[i]);
      if mapped.Error? { return Failed(mapped.message); }
      if !Scalar(mapped) || ContainsCapability(mapped) { return Failed(KS3923); }
      results := results + [mapped];
    }
    assert results + [] == results;
    return List(results);
  }

  // ----- The pool

  /** What one goroutine is about to do. */
  datatype Pc = Ready | Claimed(index: nat) | Computed(index: nat, value: Value) | Done

  /** Shared memory and program counters; `calls` counts how often the worker ran on each index. */
  datatype Pool = Pool(next: nat, results: seq<Option<Value>>, failures: seq<Option<string>>, pcs: seq<Pc>, calls: multiset<nat>)

  function Start(n: nat, workers: nat): Pool {
    Pool(0, seq(n, _ => None), seq(n, _ => None), seq(workers, _ => Ready), multiset{})
  }

  predicate Enabled(p: Pool, w: nat) {
    w < |p.pcs| && p.pcs[w] != Done
  }

  /** One atomic step of goroutine `w`: fetch-and-add, call the worker, or write one slot. */
  function Step(p: Pool, items: seq<Value>, f: Worker, w: nat): Pool
    requires Inv(p, items, f) && Enabled(p, w)
  {
    assert WorkerOk(p, items, f, w);
    match p.pcs[w]
    case Ready =>
      var index := p.next;
      p.(next := index + 1, pcs := p.pcs[w := if index >= |items| then Done else Claimed(index)])
    case Claimed(i) => p.(pcs := p.pcs[w := Computed(i, f(items[i]))], calls := p.calls + multiset{i})
    case Computed(i, v) =>
      match Fault(v) {
        case Some(e) => p.(failures := p.failures[i := Some(e)], pcs := p.pcs[w := Ready])
        case None => p.(results := p.results[i := Some(v)], pcs := p.pcs[w := Ready])
      }
    case Done => p
  }

  predicate Finished(p: Pool, i: nat)
    requires i < |p.results| == |p.failures|
  {
    p.results[i].Some? || p.failures[i].Some?
  }

  ghost predicate Holds(pc: Pc, i: nat) {
    (pc.Claimed? || pc.Computed?) && pc.index == i
  }

  ghost predicate HeldBy(p: Pool, w: nat, i: nat) {
    w < |p.pcs| && Holds(p.pcs[w], i)
  }

  /** A slot is empty or holds what the worker gives for its item. */
  ghost predicate RightSlot(p: Pool, items: seq<Value>, f: Worker, i: nat)
    requires i < |items| && |p.results| == |p.failures| == |items|
  {
    && (p.results[i].Some? ==> p.results[i].value == f(items[i]) && Fault(f(items[i])) == None && p.failures[i] == None)
    && (p.failures[i].Some? ==> p.failures[i] == Fault(f(items[i])) && p.results[i] == None)
  }

  /** The state of index `i` in a reachable pool: unclaimed, held by one goroutine, or finished. */
  ghost predicate IndexOk(p: Pool, items: seq<Value>, f: Worker, i: nat)
    requires i < |items| && |p.results| == |p.failures| == |items|
  {
    && RightSlot(p, items, f, i)
    && (i >= p.next ==> !Finished(p, i) && p.calls[i] == 0)
    && (i < p.next && !Finished(p, i) ==> exists w :: HeldBy(p, w, i))
    && (Finished(p, i) ==> p.calls[i] == 1)
  }

  ghost predicate WorkerOk(p: Pool, items: seq<Value>, f: Worker, w: nat)
    requires w < |p.pcs| && |p.results| == |p.failures| == |items|
  {
    match p.pcs[w]
    case Ready => true
    case Claimed(i) => i < |items| && i < p.next && !Finished(p, i) && p.calls[i] == 0
    case Computed(i, v) => i < |items| && i < p.next && !Finished(p, i) && v == f(items[i]) && p.calls[i] == 1
    case Done => p.next > |items|
  }

  ghost predicate Inv(p: Pool, items: seq<Value>, f: Worker) {
    && |p.results| == |p.failures| == |items|
    && (forall i :: 0 <= i < |items| ==> IndexOk(p, items, f, i))
    && (forall w :: 0 <= w < |p.pcs| ==> WorkerOk(p, items, f, w))
    && (forall v, w, i: nat :: 0 <= v < w < |p.pcs| && Holds(p.pcs[v], i) ==> !Holds(p.pcs[w], i))
  }

  lemma StartIsOk(items: seq<Value>, f: Worker, workers: nat)
    ensures Inv(Start(|items|, workers), items, f)
  {
  }

  lemma ClaimKeeps(p: Pool, items: seq<Value>, f: Worker, w: nat)
    requires Inv(p, items, f) && Enabled(p, w) && p.pcs[w].Ready?
    ensures Inv(Step(p, items, f, w), items, f)
  {
    var q := Step(p, items, f, w);
    forall i | 0 <= i < |items| ensures IndexOk(q, items, f, i) {
      assert IndexOk(p, items, f, i);
      if i == p.next {
        assert HeldBy(q, w, i);
      } else if i < p.next && !Finished(p, i) {
        var v: nat :| HeldBy(p, v, i);
        assert HeldBy(q, v, i);
      }
    }
    assert p.next < |items| ==> IndexOk(p, items, f, p.next);
    forall v | 0 <= v < |q.pcs| ensures WorkerOk(q, items, f, v) && (v != w ==> !Holds(p.pcs[v], p.next)) {
      assert WorkerOk(p, items, f, v);
    }
  }

  lemma ComputeKeeps(p: Pool, items: seq<Value>, f: Worker, w: nat)
    requires Inv(p, items, f) && Enabled(p, w) && p.pcs[w].Claimed?
    ensures Inv(Step(p, items, f, w), items, f)
  {
    assert WorkerOk(p, items, f, w);
    var q := Step(p, items, f, w);
    var mine := p.pcs[w].index;
    forall i | 0 <= i < |items| ensures IndexOk(q, items, f, i) {
      assert IndexOk(p, items, f, i);
      if i < p.next && !Finished(p, i) {
        var v: nat :| HeldBy(p, v, i);
        assert HeldBy(q, v, i);
      }
    }
    forall v | 0 <= v < |q.pcs| ensures WorkerOk(q, items, f, v) {
      assert WorkerOk(p, items, f, v);
      if v != w { assert !Holds(p.pcs[v], mine) by { assert Holds(p.pcs[w], mine); } }
    }
  }

  lemma StoreKeeps(p: Pool, items: seq<Value>, f: Worker, w: nat)
    requires Inv(p, items, f) && Enabled(p, w) && p.pcs[w].Computed?
    ensures Inv(Step(p, items, f, w), items, f)
  {
    assert WorkerOk(p, items, f, w);
    var q := Step(p, items, f, w);
    var mine := p.pcs[w].index;
    forall i | 0 <= i < |items| ensures IndexOk(q, items, f, i) {
      assert IndexOk(p, items, f, i);
      if i != mine && i < p.next && !Finished(p, i) {
        var v: nat :| HeldBy(p, v, i);
        assert HeldBy(q, v, i);
      }
    }
    forall v | 0 <= v < |q.pcs| ensures WorkerOk(q, items, f, v) {
      assert WorkerOk(p, items, f, v);
      if v != w { assert !Holds(p.pcs[v], mine) by { assert Holds(p.pcs[w], mine); } }
    }
  }

  /** Every step of every goroutine keeps the invariant and makes progress. */
  lemma StepKeeps(p: Pool, items: seq<Value>, f: Worker, w: nat)
    requires Inv(p, items, f) && Enabled(p, w)
    ensures var q := Step(p, items, f, w); Inv(q, items, f) && |q.pcs| == |p.pcs| && Work(q, |items|) < Work(p, |items|)
  {
    assert WorkerOk(p, items, f, w);
    match p.pcs[w] {
      case Ready => ClaimKeeps(p, items, f, w);
      case Claimed(_) => ComputeKeeps(p, items, f, w);
      case Computed(_, _) => StoreKeeps(p, items, f, w);
    }
    LoadUpdate(p.pcs, w, Step(p, items, f, w).pcs[w]);
  }

  // ----- Termination: the work left

  function Weight(pc: Pc): nat {
    match pc
    case Done => 0
    case Ready => 1
    case Computed(_, _) => 2
    case Claimed(_) => 3
  }

  function Load(pcs: seq<Pc>): nat {
    if pcs == [] then 0 else Weight(pcs[0]) + Load(pcs[1..])
  }

  function Work(p: Pool, n: nat): nat {
    4 * (if p.next < n then n - p.next else 0) + Load(p.pcs)
  }

  lemma {:induction false} LoadUpdate(pcs: seq<Pc>, w: nat, pc: Pc)
    requires w < |pcs|
    ensures Load(pcs[w := pc]) == Load(pcs) - Weight(pcs[w]) + Weight(pc)
  {
    if w == 0 {
      assert pcs[w := pc][1..] == pcs[1..];
    } else {
      LoadUpdate(pcs[1..], w - 1, pc);
      assert pcs[w := pc][1..] == pcs[1..][w - 1 := pc];
    }
  }

  lemma {:induction false} LoadAtStart(workers: nat)
    ensures Load(seq(workers, _ => Ready)) == workers
  {
    if workers > 0 {
      LoadAtStart(workers - 1);
      assert seq(workers, _ => Ready)[1..] == seq(workers - 1, _ => Ready);
    }
  }

  // ----- The result

  /** The final scan: the lowest failing index decides. */
  method Collect(results: seq<Option<Value>>, failures: seq<Option<string>>) returns (r: Outcome)
    requires |results| == |failures| && Filled(results, failures)
    ensures r == Lowest(results, failures)
  {
    for i := 0 to |failures|
      invariant forall j :: 0 <= j < i ==> failures[j].None?
    {
      if failures[i].Some? {
        FirstFailureDecides(results, failures, i);
        return Failed(failures[i].value);
      }
    }
    NoFailureGivesAll(results, failures);
    return List(Values(results));
  }

  function Values(results: seq<Option<Value>>): seq<Value>
    requires forall i :: 0 <= i < |results| ==> results[i].Some?
  {
    if results == [] then [] else [results[0].value] + Values(results[1..])
  }

  lemma {:induction false} FirstFailureDecides(results: seq<Option<Value>>, failures: seq<Option<string>>, i: nat)
    requires |results| == |failures| && Filled(results, failures)
    requires i < |failures| && failures[i].Some? && forall j :: 0 <= j < i ==> failures[j].None?
    ensures Lowest(results, failures) == Failed(failures[i].value)
  {
    if i > 0 { FirstFailureDecides(results[1..], failures[1..], i - 1); }
  }

  lemma {:induction false} NoFailureGivesAll(results: seq<Option<Value>>, failures: seq<Option<string>>)
    requires |results| == |failures| && Filled(results, failures)
    requires forall j :: 0 <= j < |failures| ==> failures[j].None?
    ensures Lowest(results, failures) == List(Values(results))
  {
    if results != [] { NoFailureGivesAll(results[1..], failures[1..]); }
  }

  ghost predicate Filled(results: seq<Option<Value>>, failures: seq<Option<string>>)
    requires |results| == |failures|
  {
    forall i :: 0 <= i < |results| ==> results[i].Some? || failures[i].Some?
  }

  /** Results in order, unless some slot failed; then the first failure. */
  function Lowest(results: seq<Option<Value>>, failures: seq<Option<string>>): Outcome
    requires |results| == |failures|
    requires Filled(results, failures)
  {
    if results == [] then List([])
    else if failures[0].Some? then Failed(failures[0].value)
    else
      match Lowest(results[1..], failures[1..])
      case Failed(e) => Failed(e)
      case List(rest) => List([results[0].value] + rest)
  }

  ghost predicate AllDone(p: Pool) {
    forall w :: 0 <= w < |p.pcs| ==> p.pcs[w] == Done
  }

  /** When every goroutine has returned, every index was mapped exactly once. */
  lemma DoneMeansFinished(p: Pool, items: seq<Value>, f: Worker)
    requires Inv(p, items, f) && AllDone(p) && p.pcs != []
    ensures forall i :: 0 <= i < |items| ==> p.calls[i] == 1
    ensures Filled(p.results, p.failures) && Lowest(p.results, p.failures) == Mapped(items, f)
  {
    assert WorkerOk(p, items, f, 0);
    forall i | 0 <= i < |items|
      ensures p.calls[i] == 1
      ensures if Fault(f(items[i])).Some? then p.failures[i] == Fault(f(items[i]))
              else p.failures[i] == None && p.results[i] == Some(f(items[i]))
    {
      assert IndexOk(p, items, f, i);
    }
    RightSlotsGiveContract(p.results, p.failures, items, f);
  }

  lemma {:induction false} RightSlotsGiveContract(results: seq<Option<Value>>, failures: seq<Option<string>>, items: seq<Value>, f: Worker)
    requires |results| == |failures| == |items|
    requires forall i :: 0 <= i < |items| ==>
      if Fault(f(items[i])).Some? then failures[i] == Fault(f(items[i]))
      else failures[i] == None && results[i] == Some(f(items[i]))
    ensures Lowest(results, failures) == Mapped(items, f)
  {
    if items != [] { RightSlotsGiveContract(results[1..], failures[1..], items[1..], f); }
  }

  /** Run a schedule: a list of goroutines to let take their next step. */
  ghost predicate Runs(p: Pool, items: seq<Value>, f: Worker, schedule: seq<nat>, q: Pool)
    requires Inv(p, items, f)
    decreases |schedule|
  {
    if schedule == [] then p == q
    else
      && Enabled(p, schedule[0])
      && (StepKeeps(p, items, f, schedule[0]); Runs(Step(p, items, f, schedule[0]), items, f, schedule[1..], q))
  }

  ghost predicate RunFromStart(items: seq<Value>, f: Worker, workers: nat, schedule: seq<nat>, q: Pool) {
    StartIsOk(items, f, workers);
    Runs(Start(|items|, workers), items, f, schedule, q)
  }

  lemma {:induction false} RunKeeps(p: Pool, items: seq<Value>, f: Worker, schedule: seq<nat>, q: Pool)
    requires Inv(p, items, f) && Runs(p, items, f, schedule, q)
    ensures Inv(q, items, f) && |q.pcs| == |p.pcs| && |schedule| + Work(q, |items|) <= Work(p, |items|)
    decreases |schedule|
  {
    if schedule != [] {
      StepKeeps(p, items, f, schedule[0]);
      RunKeeps(Step(p, items, f, schedule[0]), items, f, schedule[1..], q);
    }
  }

  /** Schedule independence: for every interleaving of any number of goroutines, the run is at most
      4 * items + workers steps long, and if nothing is left to step then every index was mapped exactly once
      and the scan returns exactly what the sequential loop returns. */
  lemma ScheduleIndependence(items: seq<Value>, f: Worker, workers: nat, schedule: seq<nat>, q: Pool)
    requires workers > 0 && RunFromStart(items, f, workers, schedule, q)
    ensures |schedule| <= 4 * |items| + workers
    ensures (forall w: nat :: !Enabled(q, w)) ==>
      && (forall i: nat :: i < |items| ==> q.calls[i] == 1)
      && |q.results| == |q.failures| == |items|
      && Filled(q.results, q.failures)
      && Lowest(q.results, q.failures) == Mapped(items, f)
  {
    var p := Start(|items|, workers);
    StartIsOk(items, f, workers);
    LoadAtStart(workers);
    RunKeeps(p, items, f, schedule, q);
    if forall w: nat :: !Enabled(q, w) {
      forall w | 0 <= w < |q.pcs| ensures q.pcs[w] == Done { assert !Enabled(q, w); }
      DoneMeansFinished(q, items, f);
    }
  }

  /** `ksParallelMap`, with the scheduler picking any goroutine that has not returned. */
  method RunPool(call: Call) returns (r: Outcome)
    ensures r == Contract(call)
  {
    var rejected := Rejection(call);
    if rejected.Some? { return Failed(rejected.value); }
    var items, f := call.list.value, call.worker.value;
    if |items| == 0 { return List([]); }
    var workers := if call.maxWorkers.value > |items| then |items| else call.maxWorkers.value;
    var p := Start(|items|, workers);
    StartIsOk(items, f, workers);
    while exists w :: 0 <= w < |p.pcs| && p.pcs[w] != Done
      invariant Inv(p, items, f) && |p.pcs| == workers
      decreases Work(p, |items|)
    {
      var w :| 0 <= w < |p.pcs| && p.pcs[w] != Done;
      StepKeeps(p, items, f, w);
      p := Step(p, items, f, w);
    }
    assert AllDone(p);
    DoneMeansFinished(p, items, f);
    r := Collect(p.results, p.failures);
  }
}
