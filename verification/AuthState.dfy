/** Time-evolving authorization states and their transitions.  Digests are ideal: the digest of a state is the
    term of the fields that are hashed, so a state contains its predecessors and hash chains are well founded. */
module AuthState {
  import opened Options
  import opened AuthConstraints

  datatype Status = Active | Suspended | Revoked | Expired

  datatype Kind = NARROW | STEP_UP | SUSPEND | REVOKE | EXPIRE | UNKNOWN_KIND

  datatype StateDigest = StateDigest(
    subject: string, intent: string, chain: seq<LinkDigest>, ceiling: Constraints, effective: Constraints,
    status: Status, epoch: int, previous: Option<StateDigest>)

  /** `digest` is `None` before a state is sealed. */
  datatype State = State(
    subject: string, intent: string, chain: seq<LinkDigest>, ceiling: Constraints, effective: Constraints,
    status: Status, epoch: int, previous: Option<StateDigest>, digest: Option<StateDigest>)

  function DigestOf(s: State): StateDigest {
    StateDigest(s.subject, s.intent, s.chain, s.ceiling, s.effective, s.status, s.epoch, s.previous)
  }

  predicate Sealed(s: State) {
    s.digest == Some(DigestOf(s))
  }

  function Seal(s: State): State {
    s.(digest := Some(DigestOf(s)))
  }

  /** What the constructor enforces. */
  predicate WellFormedState(s: State) {
    && s.epoch >= 0 && WellFormed(s.ceiling) && WellFormed(s.effective) && Attenuates(s.effective, s.ceiling, false)
  }

  datatype TransitionDigest = TransitionDigest(kind: Kind, epoch: int, previous: StateDigest, next: StateDigest, reason: string)

  datatype Transition = Transition(
    kind: Kind, epoch: int, previous: Option<StateDigest>, next: Option<StateDigest>, reason: string,
    digest: Option<TransitionDigest>)

  predicate TransitionSealed(t: Transition) {
    && t.previous.Some? && t.next.Some?
    && t.digest == Some(TransitionDigest(t.kind, t.epoch, t.previous.value, t.next.value, t.reason))
  }

  datatype Intent = Intent(principal: string, digest: string)

  /** `issue_authorization_state_v1`; `None` where the program raises. */
  function Issue(intent: Intent, chain: seq<Link>, now: int, effective: Option<Constraints>): (r: Option<State>)
    requires forall i :: 0 <= i < |chain| ==> WellFormed(chain[i].constraints)
    requires effective.Some? ==> WellFormed(effective.value)
    ensures r.Some? ==> Sealed(r.value) && WellFormedState(r.value) && r.value.status == Active && r.value.previous == None
    ensures r.Some? ==> ChainCurrent(chain, now) && Live(r.value.effective, now) && r.value.subject == intent.principal
  {
    if !ChainCurrent(chain, now) then None
    else
      var leaf := chain[|chain| - 1];
      var constraints := if effective.Some? then effective.value else leaf.constraints;
      if intent.principal != leaf.subject || !Attenuates(constraints, leaf.constraints, false) || !Live(constraints, now) then None
      else Some(Seal(State(leaf.subject, intent.digest, ChainDigest(chain), leaf.constraints, constraints, Active, now, None, None)))
  }

  function ChainDigest(chain: seq<Link>): seq<LinkDigest> {
    seq(|chain|, i requires 0 <= i < |chain| => AuthorityDigest(chain[i]))
  }

  function NextStatus(kind: Kind): Status {
    match kind
    case SUSPEND => Suspended
    case REVOKE => Revoked
    case EXPIRE => Expired
    case _ => Active
  }

  /** The constraints after a transition, if it may change or keep them so. */
  function NextEffective(current: State, kind: Kind, next: Option<Constraints>): Option<Constraints> {
    match kind
    case NARROW => if next.Some? && Attenuates(next.value, current.effective, false) then next else None
    case STEP_UP => if next.Some? && Attenuates(next.value, current.ceiling, false) then next else None
    case _ => if next.Some? then None else Some(current.effective)
  }

  /** `transition_authorization_state_v1`; `reason` is `None` when it is no digest. */
  function Advance(current: State, kind: Kind, epoch: int, reason: Option<string>, next: Option<Constraints>): (r: Option<(State, Transition)>)
  {
    if !Sealed(current) || kind == UNKNOWN_KIND || epoch < 0 || epoch <= current.epoch || reason.None? then None
    else if current.status == Revoked || current.status == Expired then None
    else if current.status == Suspended && kind != REVOKE && kind != EXPIRE then None
    else
      var effective := NextEffective(current, kind, next);
      if effective.None? || !Attenuates(effective.value, current.ceiling, false) then None
      else
        var s := Seal(State(current.subject, current.intent, current.chain, current.ceiling, effective.value,
                            NextStatus(kind), epoch, current.digest, None));
        Some((s, Transition(kind, epoch, current.digest, s.digest, reason.value,
                            Some(TransitionDigest(kind, epoch, current.digest.value, s.digest.value, reason.value)))))
  }

  /** Status changes that the lifecycle allows in one step. */
  predicate LegalStep(a: Status, b: Status) {
    match a
    case Active => true
    case Suspended => b == Revoked || b == Expired
    case _ => false
  }

  /** What one transition may do to a sealed, well-formed state. */
  lemma AdvanceIsLawful(current: State, kind: Kind, epoch: int, reason: Option<string>, next: Option<Constraints>)
    requires WellFormedState(current) && (next.Some? ==> WellFormed(next.value))
    requires Advance(current, kind, epoch, reason, next).Some?
    ensures var (s, t) := Advance(current, kind, epoch, reason, next).value;
      && Sealed(s) && WellFormedState(s) && TransitionSealed(t)
      && s.subject == current.subject && s.intent == current.intent && s.chain == current.chain && s.ceiling == current.ceiling
      && s.previous == current.digest && t.previous == current.digest && t.next == s.digest && t.epoch == s.epoch
      && s.epoch > current.epoch && LegalStep(current.status, s.status)
      && Included(s.effective, s.ceiling)
      && (kind == NARROW ==> Included(s.effective, current.effective))
      && (kind == NARROW || kind == STEP_UP ==> next == Some(s.effective) && s.status == Active)
      && (kind == SUSPEND ==> s.status == Suspended) && (kind == REVOKE ==> s.status == Revoked)
      && (kind == EXPIRE ==> s.status == Expired)
      && (kind != NARROW && kind != STEP_UP ==> s.effective == current.effective)
      && t.kind == kind && t.epoch == epoch && Some(t.reason) == reason
  {
    var s := Advance(current, kind, epoch, reason, next).value.0;
    AttenuationIsExact(s.effective, s.ceiling);
    AttenuationIsExact(s.effective, current.effective);
  }

  /** Exactly when a transition is allowed: a known kind and a reason, a later epoch, a step of the lifecycle, and new
      constraints given for NARROW and STEP_UP only, within the current ones or the ceiling. */
  lemma AdvanceExactly(current: State, kind: Kind, epoch: int, reason: Option<string>, next: Option<Constraints>)
    requires WellFormedState(current) && (next.Some? ==> WellFormed(next.value))
    ensures Advance(current, kind, epoch, reason, next).Some? <==>
      && Sealed(current) && reason.Some? && epoch > current.epoch
      && match kind
         case NARROW => current.status == Active && next.Some? && Within(next.value, current.effective)
         case STEP_UP => current.status == Active && next.Some? && Within(next.value, current.ceiling)
         case SUSPEND => current.status == Active && next == None
         case REVOKE => current.status in {Active, Suspended} && next == None
         case EXPIRE => current.status in {Active, Suspended} && next == None
         case UNKNOWN_KIND => false
  {
    hide Attenuates, Included;
    if next.Some? {
      AttenuationIsExact(next.value, current.effective);
      AttenuationIsExact(next.value, current.ceiling);
      if Attenuates(next.value, current.effective, false) {
        AttenuationIsTransitive(next.value, current.effective, current.ceiling, false);
      }
    }
  }

  /** No request, depth or right to redelegate beyond the parent's. */
  ghost predicate Within(child: Constraints, parent: Constraints) {
    Included(child, parent) && child.delegationDepth <= parent.delegationDepth && (child.redelegation ==> parent.redelegation)
  }

  /** Exactly when a state is issued, and with what: an accepted chain whose leaf is the intent's principal, and live
      constraints within the leaf's, the leaf's own by default. */
  lemma IssueExactly(intent: Intent, chain: seq<Link>, now: int, effective: Option<Constraints>)
    requires forall i :: 0 <= i < |chain| ==> WellFormed(chain[i].constraints)
    requires effective.Some? ==> WellFormed(effective.value)
    ensures Issue(intent, chain, now, effective).Some? <==>
      && ChainCurrent(chain, now) && chain[|chain| - 1].subject == intent.principal
      && (effective.Some? ==> Within(effective.value, chain[|chain| - 1].constraints) && Live(effective.value, now))
    ensures Issue(intent, chain, now, effective).Some? ==>
      var s, leaf := Issue(intent, chain, now, effective).value, chain[|chain| - 1];
      && s.intent == intent.digest && s.chain == ChainDigest(chain) && s.epoch == now && s.ceiling == leaf.constraints
      && s.effective == (if effective.Some? then effective.value else leaf.constraints)
  {
    hide Attenuates, Included, Live;
    if ChainCurrent(chain, now) {
      var leaf := chain[|chain| - 1];
      assert LinkOk(chain, |chain| - 1, now);
      if effective.Some? {
        AttenuationIsExact(effective.value, leaf.constraints);
      } else {
        AttenuationIsReflexive(leaf.constraints);
      }
    }
  }

  // ----- Execution snapshots

  /** `authorization_snapshot_for_execution_v1` returns. */
  predicate SnapshotAllowed(s: State, chain: seq<Link>, now: int) {
    && now >= 0 && Sealed(s)
    && s.status == Active && now >= s.epoch && Live(s.effective, now)
    && ChainCurrent(chain, now)
    && ChainDigest(chain) == s.chain
    && chain[|chain| - 1].subject == s.subject
    && Attenuates(s.effective, chain[|chain| - 1].constraints, false)
  }

  /** A snapshot's effective constraints stay within every link of the chain: whatever it permits, each delegator
      up to the root permits. */
  lemma SnapshotWithinWholeChain(s: State, chain: seq<Link>, now: int, i: nat)
    requires SnapshotAllowed(s, chain, now) && WellFormed(s.effective) && i < |chain|
    requires forall k :: 0 <= k < |chain| ==> WellFormed(chain[k].constraints)
    ensures Attenuates(s.effective, chain[i].constraints, false) && Included(s.effective, chain[i].constraints)
    ensures Live(chain[i].constraints, now)
  {
    var leaf := |chain| - 1;
    assert LinkOk(chain, i, now);
    if i < leaf {
      DescendantAttenuates(chain, now, i, leaf);
      AttenuationIsTransitive(s.effective, chain[leaf].constraints, chain[i].constraints, false);
    }
    AttenuationIsExact(s.effective, chain[i].constraints);
  }
}
