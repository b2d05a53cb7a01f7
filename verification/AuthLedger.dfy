/** The in-memory ledger of current heads: no accepted sequence of commits brings a superseded state back. */
module AuthLedger {
  import opened Options
  import opened AuthConstraints
  import opened AuthState

  type Heads = map<string, StateDigest>

  datatype Operation =
    | Register(state: State)
    | Commit(previous: State, next: State, transition: Transition)

  predicate IsCurrent(heads: Heads, s: State) {
    Sealed(s) && s.subject in heads && heads[s.subject] == s.digest.value
  }

  /** Whether an operation is accepted; states may be hand-built, only seals and linkage are checked. */
  predicate Accepts(heads: Heads, op: Operation) {
    match op
    case Register(s) => Sealed(s) && s.previous == None && s.status == Active && s.subject !in heads
    case Commit(p, n, t) =>
      && IsCurrent(heads, p) && Sealed(n) && TransitionSealed(t)
      && p.subject == n.subject && n.previous == p.digest
      && t.previous == p.digest && t.next == n.digest && t.epoch == n.epoch
  }

  function Apply(heads: Heads, op: Operation): Heads {
    if !Accepts(heads, op) then heads
    else match op
      case Register(s) => heads[s.subject := s.digest.value]
      case Commit(p, n, _) => heads[p.subject := n.digest.value]
  }

  class Ledger {
    var heads: Heads

    constructor ()
      ensures heads == map[]
    {
      heads := map[];
    }

    /** Each method returns whether the program returns instead of raising. */
    method RegisterInitial(state: State) returns (ok: bool)
      modifies this
      ensures ok == Accepts(old(heads), Register(state)) && heads == Apply(old(heads), Register(state))
    {
      if !Sealed(state) || state.previous.Some? || state.status != Active || state.subject in heads { return false; }
      heads := heads[state.subject := state.digest.value];
      return true;
    }

    method AssertCurrent(state: State) returns (ok: bool)
      ensures ok == IsCurrent(heads, state)
    {
      if !Sealed(state) || state.subject !in heads { return false; }
      return heads[state.subject] == state.digest.value;
    }

    method CommitTransition(previous: State, next: State, transition: Transition) returns (ok: bool)
      modifies this
      ensures ok == Accepts(old(heads), Commit(previous, next, transition))
      ensures heads == Apply(old(heads), Commit(previous, next, transition))
    {
      ok := AssertCurrent(previous);
      if !ok || !Sealed(next) || !TransitionSealed(transition) { return false; }
      if previous.subject != next.subject || next.previous != previous.digest { return false; }
      if transition.previous != previous.digest || transition.next != next.digest { return false; }
      if transition.epoch != next.epoch { return false; }
      heads := heads[previous.subject := next.digest.value];
    }
  }

  // ----- No rollback

  /** How many states precede the digested one. */
  function Age(d: StateDigest): nat {
    match d.previous
    case None => 0
    case Some(p) => 1 + Age(p)
  }

  function Run(heads: Heads, ops: seq<Operation>): Heads
    decreases |ops|
  {
    if ops == [] then heads else Run(Apply(heads, ops[0]), ops[1..])
  }

  /** Heads never disappear, and a changed head is strictly younger in its predecessor chain. */
  lemma {:induction false} HeadsGrow(heads: Heads, ops: seq<Operation>, subject: string)
    requires subject in heads
    ensures subject in Run(heads, ops)
    ensures var now := Run(heads, ops)[subject]; now == heads[subject] || Age(now) > Age(heads[subject])
    decreases |ops|
  {
    if ops != [] { HeadsGrow(Apply(heads, ops[0]), ops[1..], subject); }
  }

  /** No rollback: once a head has been superseded, no further operations make it the head again. */
  lemma SupersededStaysSuperseded(heads: Heads, first: seq<Operation>, later: seq<Operation>, subject: string)
    requires subject in heads && subject in Run(heads, first) && Run(heads, first)[subject] != heads[subject]
    ensures subject in Run(Run(heads, first), later)
    ensures Run(Run(heads, first), later)[subject] != heads[subject]
  {
    HeadsGrow(heads, first, subject);
    HeadsGrow(Run(heads, first), later, subject);
  }
}
