/** The durable store: three tables, each transaction one atomic step that commits or leaves everything unchanged. */
module AuthStore {
  import opened Options
  import opened AuthConstraints
  import opened AuthState

  datatype HeadRow = HeadRow(digest: StateDigest, epoch: int, status: Status, intent: string)
  datatype TransitionRow = TransitionRow(subject: string, previous: StateDigest, next: StateDigest, epoch: int, kind: Kind)
  datatype ClaimRow = ClaimRow(subject: string, state: StateDigest, executionEpoch: int)

  datatype Tables = Tables(
    heads: map<string, HeadRow>, transitions: map<TransitionDigest, TransitionRow>, claims: map<string, ClaimRow>)

  /** `admitted` stands for the binding, permit and key checks, whose code is not part of this model. */
  datatype Operation =
    | Register(state: State)
    | Commit(previous: State, next: State, transition: Transition)
    | Claim(state: State, chain: seq<Link>, now: int, permit: string, admitted: bool)

  function RowOf(s: State): HeadRow {
    HeadRow(DigestOf(s), s.epoch, s.status, s.intent)
  }

  predicate Accepts(db: Tables, op: Operation) {
    match op
    case Register(s) => Sealed(s) && s.previous == None && s.status == Active && s.subject !in db.heads
    case Commit(p, n, t) =>
      && Sealed(p) && Sealed(n) && TransitionSealed(t)
      && p.subject == n.subject && n.previous == p.digest
      && t.previous == p.digest && t.next == n.digest && t.epoch == n.epoch
      && p.subject in db.heads && db.heads[p.subject].digest == p.digest.value
      && t.digest.value !in db.transitions
    case Claim(s, chain, now, permit, admitted) =>
      && admitted && Sealed(s) && SnapshotAllowed(s, chain, now)
      && s.subject in db.heads && db.heads[s.subject].digest == s.digest.value
      && db.heads[s.subject].epoch == s.epoch && db.heads[s.subject].status == Active
      && db.heads[s.subject].intent == s.intent
      && permit !in db.claims
  }

  function Apply(db: Tables, op: Operation): Tables {
    if !Accepts(db, op) then db
    else match op
      case Register(s) => db.(heads := db.heads[s.subject := RowOf(s)])
      case Commit(p, n, t) =>
        db.(heads := db.heads[p.subject := RowOf(n)],
            transitions := db.transitions[t.digest.value :=
              TransitionRow(p.subject, p.digest.value, n.digest.value, t.epoch, t.kind)])
      case Claim(s, _, now, permit, _) =>
        db.(claims := db.claims[permit := ClaimRow(s.subject, s.digest.value, now)])
  }

  class Store {
    var heads: map<string, HeadRow>
    var transitions: map<TransitionDigest, TransitionRow>
    var claims: map<string, ClaimRow>

    ghost function Now(): Tables
      reads this
    {
      Tables(heads, transitions, claims)
    }

    constructor ()
      ensures Now() == Tables(map[], map[], map[])
    {
      heads, transitions, claims := map[], map[], map[];
    }

    /** Each method returns whether the transaction committed. */
    method RegisterInitial(state: State) returns (ok: bool)
      modifies this
      ensures ok == Accepts(old(Now()), Register(state)) && Now() == Apply(old(Now()), Register(state))
    {
      if !Sealed(state) || state.previous.Some? || state.status != Active { return false; }
      if state.subject in heads { return false; }
      heads := heads[state.subject := HeadRow(state.digest.value, state.epoch, state.status, state.intent)];
      return true;
    }

    method CommitTransition(previous: State, next: State, transition: Transition) returns (ok: bool)
      modifies this
      ensures ok == Accepts(old(Now()), Commit(previous, next, transition))
      ensures Now() == Apply(old(Now()), Commit(previous, next, transition))
    {
      if !Sealed(previous) || !Sealed(next) || !TransitionSealed(transition) { return false; }
      if previous.subject != next.subject || next.previous != previous.digest { return false; }
      if transition.previous != previous.digest || transition.next != next.digest { return false; }
      if transition.epoch != next.epoch { return false; }
      var subject := previous.subject;
      if subject !in heads || heads[subject].digest != previous.digest.value { return false; }
      // The head is updated first; a replayed transition then rolls the whole transaction back.
      var saved := heads;
      heads := heads[subject := HeadRow(next.digest.value, next.epoch, next.status, next.intent)];
      if transition.digest.value in transitions {
        heads := saved;
        return false;
      }
      transitions := transitions[transition.digest.value :=
        TransitionRow(subject, previous.digest.value, next.digest.value, transition.epoch, transition.kind)];
      return true;
    }

    method ClaimExecution(state: State, chain: seq<Link>, now: int, permit: string, admitted: bool) returns (ok: bool)
      modifies this
      ensures ok == Accepts(old(Now()), Claim(state, chain, now, permit, admitted))
      ensures Now() == Apply(old(Now()), Claim(state, chain, now, permit, admitted))
    {
      if !admitted || !Sealed(state) || !SnapshotAllowed(state, chain, now) { return false; }
      if state.subject !in heads { return false; }
      var row := heads[state.subject];
      if row.digest != state.digest.value || row.epoch != state.epoch || row.status != Active { return false; }
      if row.intent != state.intent || permit in claims { return false; }
      claims := claims[permit := ClaimRow(state.subject, state.digest.value, now)];
      return true;
    }
  }

  // ----- Runs

  function Run(db: Tables, ops: seq<Operation>): Tables
    decreases |ops|
  {
    if ops == [] then db else Run(Apply(db, ops[0]), ops[1..])
  }

  /** A permit once claimed stays claimed, unchanged, and cannot be claimed again. */
  lemma {:induction false} ClaimedForGood(db: Tables, ops: seq<Operation>, permit: string, again: Operation)
    requires permit in db.claims && again.Claim? && again.permit == permit
    ensures permit in Run(db, ops).claims && Run(db, ops).claims[permit] == db.claims[permit]
    ensures !Accepts(Run(db, ops), again)
    decreases |ops|
  {
    if ops != [] { ClaimedForGood(Apply(db, ops[0]), ops[1..], permit, again); }
  }

  /** At an allowed snapshot no link is revoked, unsigned, stale or out of its validity. */
  lemma LinksAtSnapshot(s: State, chain: seq<Link>, now: int)
    requires SnapshotAllowed(s, chain, now)
    ensures forall i :: 0 <= i < |chain| ==>
      && chain[i].revocation == NotRevoked && chain[i].signatureValid && chain[i].checkedEpoch == now
      && Live(chain[i].constraints, now)
  {
    forall i | 0 <= i < |chain| ensures Current(chain[i], now) { assert LinkOk(chain, i, now); }
  }

  /** Every recorded claim has its moment: one step of the run inserted it, and in the tables of that moment its
      state was the active current head and its snapshot was allowed. */
  lemma {:induction false} ClaimHadActiveHead(db: Tables, ops: seq<Operation>, permit: string) returns (k: nat)
    requires permit in Run(db, ops).claims && permit !in db.claims
    ensures k < |ops| && ops[k].Claim? && ops[k].permit == permit
    ensures var moment := Run(db, ops[..k]); var row := Run(db, ops).claims[permit]; var s := ops[k].state;
      && permit !in moment.claims && row == ClaimRow(s.subject, DigestOf(s), ops[k].now)
      && s.subject in moment.heads && moment.heads[s.subject].digest == DigestOf(s) && moment.heads[s.subject].status == Active
      && SnapshotAllowed(s, ops[k].chain, ops[k].now)
    ensures var chain, now, s := ops[k].chain, ops[k].now, ops[k].state;
      && now >= s.epoch && s.status == Active && Live(s.effective, now) && ChainDigest(chain) == s.chain
      && (forall i :: 0 <= i < |chain| ==>
            && chain[i].revocation == NotRevoked && chain[i].signatureValid && chain[i].checkedEpoch == now
            && Live(chain[i].constraints, now))
    decreases |ops|
  {
    var next := Apply(db, ops[0]);
    if permit in next.claims {
      k := 0;
      assert ops[..0] == [];
      LinksAtSnapshot(ops[0].state, ops[0].chain, ops[0].now);
      ClaimedForGood(next, ops[1..], permit, ops[0]);
    } else {
      var j := ClaimHadActiveHead(next, ops[1..], permit);
      k := j + 1;
      assert ops[..k][1..] == ops[1..][..j] && ops[..k][0] == ops[0];
    }
  }

  // ----- Lifecycle

  /** A transition that `transition_authorization_state_v1` returned for its predecessor. */
  ghost predicate Built(previous: State, next: State, transition: Transition) {
    exists kind, epoch, reason, constraints: Option<Constraints> ::
      && (constraints.Some? ==> WellFormed(constraints.value))
      && Advance(previous, kind, epoch, reason, constraints) == Some((next, transition))
  }

  ghost predicate Lawful(op: Operation) {
    match op
    case Register(s) => WellFormedState(s)
    case Commit(p, n, t) => WellFormedState(p) && Built(p, n, t)
    case Claim(_, _, _, _, _) => true
  }

  /** Rows agree with the states they digest, and those states stay within their ceilings. */
  ghost predicate Consistent(db: Tables) {
    forall s :: s in db.heads ==>
      var row := db.heads[s]; var d := row.digest;
      && d.subject == s && row.epoch == d.epoch && row.status == d.status && row.intent == d.intent
      && Included(d.effective, d.ceiling)
  }

  /** What may become of a head: nothing, or a later epoch of the same grant along the lifecycle. */
  ghost predicate Evolves(a: StateDigest, b: StateDigest) {
    || a == b
    || (&& a.epoch < b.epoch && a.subject == b.subject && a.intent == b.intent && a.chain == b.chain && a.ceiling == b.ceiling
        && LegalStep(a.status, b.status))
  }

  lemma StepEvolves(db: Tables, op: Operation, subject: string)
    requires Consistent(db) && Lawful(op)
    ensures Consistent(Apply(db, op))
    ensures subject in db.heads ==>
      subject in Apply(db, op).heads && Evolves(db.heads[subject].digest, Apply(db, op).heads[subject].digest)
  {
    hide Included, Attenuates, ChainCurrent;
    if Accepts(db, op) {
      match op
      case Register(s) => AttenuationIsExact(s.effective, s.ceiling);
      case Commit(p, n, t) =>
        var kind, epoch, reason, constraints: Option<Constraints> :|
          && (constraints.Some? ==> WellFormed(constraints.value))
          && Advance(p, kind, epoch, reason, constraints) == Some((n, t));
        AdvanceIsLawful(p, kind, epoch, reason, constraints);
      case Claim(_, _, _, _, _) =>
    }
  }

  /** Over every run whose transitions were built by the transition function, each subject's head evolves: its epoch
      strictly increases with every change, ceiling, intent and chain never change, the effective constraints
      stay within the ceiling, suspended leads only to revoked or expired, and those two are final. */
  lemma {:induction false} HeadsEvolve(db: Tables, ops: seq<Operation>, subject: string)
    requires Consistent(db) && (forall i :: 0 <= i < |ops| ==> Lawful(ops[i])) && subject in db.heads
    ensures Consistent(Run(db, ops)) && subject in Run(db, ops).heads
    ensures Evolves(db.heads[subject].digest, Run(db, ops).heads[subject].digest)
    decreases |ops|
  {
    if ops != [] {
      StepEvolves(db, ops[0], subject);
      HeadsEvolve(Apply(db, ops[0]), ops[1..], subject);
    }
  }

  /** A subject whose head is not active gets no claim, however the run continues. */
  lemma NoClaimWhileInactive(db: Tables, ops: seq<Operation>, claim: Operation)
    requires Consistent(db) && (forall i :: 0 <= i < |ops| ==> Lawful(ops[i]))
    requires claim.Claim? && claim.state.subject in db.heads && db.heads[claim.state.subject].status != Active
    ensures !Accepts(Run(db, ops), claim)
  {
    HeadsEvolve(db, ops, claim.state.subject);
  }

  /** After a committed SUSPEND, REVOKE or EXPIRE no later claim for that subject succeeds. */
  lemma NoClaimAfterStop(db: Tables, stop: Operation, ops: seq<Operation>, claim: Operation)
    requires Consistent(db) && Lawful(stop) && (forall i :: 0 <= i < |ops| ==> Lawful(ops[i]))
    requires stop.Commit? && Accepts(db, stop) && stop.transition.kind in {SUSPEND, REVOKE, EXPIRE}
    requires claim.Claim? && claim.state.subject == stop.previous.subject
    ensures !Accepts(Run(Apply(db, stop), ops), claim)
  {
    StepEvolves(db, stop, stop.previous.subject);
    NoClaimWhileInactive(Apply(db, stop), ops, claim);
  }

  /** In consistent tables a claim is accepted exactly when it is admitted, its snapshot is allowed, its state is the
      subject's head, and its permit is new: the comparisons of epoch, status and intent add nothing. */
  lemma ClaimExactly(db: Tables, s: State, chain: seq<Link>, now: int, permit: string, admitted: bool)
    requires Consistent(db)
    ensures Accepts(db, Claim(s, chain, now, permit, admitted)) <==>
      && admitted && SnapshotAllowed(s, chain, now) && permit !in db.claims
      && s.subject in db.heads && db.heads[s.subject].digest == DigestOf(s)
  {
    hide ChainCurrent, Included;
  }

  /** Revoked and expired are the end: after such a commit no further transition of that subject is accepted, however
      the run continues. */
  lemma NoCommitAfterEnd(db: Tables, end: Operation, ops: seq<Operation>, commit: Operation)
    requires Consistent(db) && Lawful(end) && (forall i :: 0 <= i < |ops| ==> Lawful(ops[i]))
    requires end.Commit? && Accepts(db, end) && end.transition.kind in {REVOKE, EXPIRE}
    requires commit.Commit? && Lawful(commit) && commit.previous.subject == end.previous.subject
    ensures !Accepts(Run(Apply(db, end), ops), commit)
  {
    hide Included, Attenuates, Accepts;
    EndIsFinal(db, end);
    var subject := end.previous.subject;
    StepEvolves(db, end, subject);
    HeadsEvolve(Apply(db, end), ops, subject);
    FinalRejects(Run(Apply(db, end), ops), commit);
  }

  lemma EndIsFinal(db: Tables, end: Operation)
    requires Consistent(db) && Lawful(end) && end.Commit? && Accepts(db, end) && end.transition.kind in {REVOKE, EXPIRE}
    ensures end.previous.subject in Apply(db, end).heads
    ensures Apply(db, end).heads[end.previous.subject].digest.status in {Revoked, Expired}
  {
    hide Included, Attenuates;
  }

  lemma FinalRejects(db: Tables, commit: Operation)
    requires Consistent(db) && commit.Commit? && Lawful(commit) && commit.previous.subject in db.heads
    requires db.heads[commit.previous.subject].digest.status in {Revoked, Expired}
    ensures !Accepts(db, commit)
  {
    hide Included, Attenuates;
  }
}
