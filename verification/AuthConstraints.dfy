/** The attenuation lattice of `ConstraintSetV1`, and delegation chains. */
module AuthConstraints {
  import opened Options

  datatype Constraints = Constraints(
    resources: set<string>, operations: set<string>, arguments: set<string>, audience: set<string>,
    magnitudeMax: Option<int>, validFrom: int, expiresBefore: Option<int>,
    delegationDepth: int, redelegation: bool)

  /** What the constructor enforces. */
  predicate WellFormed(c: Constraints) {
    && c.resources != {} && c.operations != {} && c.arguments != {} && c.audience != {}
    && (c.magnitudeMax.Some? ==> c.magnitudeMax.value >= 0)
    && c.validFrom >= 0
    && (c.expiresBefore.Some? ==> c.expiresBefore.value > c.validFrom)
    && c.delegationDepth >= 0
  }

  predicate Live(c: Constraints, now: int) {
    c.validFrom <= now && (c.expiresBefore.Some? ==> now < c.expiresBefore.value)
  }

  /** `assert_attenuates`: true where the program returns instead of raising. */
  predicate Attenuates(child: Constraints, parent: Constraints, hop: bool) {
    && child.resources <= parent.resources && child.operations <= parent.operations
    && child.arguments <= parent.arguments && child.audience <= parent.audience
    && (parent.magnitudeMax.Some? ==> child.magnitudeMax.Some? && child.magnitudeMax.value <= parent.magnitudeMax.value)
    && child.validFrom >= parent.validFrom
    && (parent.expiresBefore.Some? ==> child.expiresBefore.Some? && child.expiresBefore.value <= parent.expiresBefore.value)
    && child.delegationDepth <= parent.delegationDepth
    && (child.redelegation ==> parent.redelegation)
    && (hop ==> parent.redelegation && parent.delegationDepth != 0 && child.delegationDepth < parent.delegationDepth)
  }

  // ----- Exactness

  /** A concrete use of authority. */
  datatype Request = Request(resource: string, operation: string, argument: string, audience: string, magnitude: nat, epoch: nat)

  ghost predicate Permits(c: Constraints, r: Request) {
    && r.resource in c.resources && r.operation in c.operations && r.argument in c.arguments && r.audience in c.audience
    && (c.magnitudeMax.Some? ==> r.magnitude <= c.magnitudeMax.value)
    && Live(c, r.epoch)
  }

  /** Everything the child permits the parent permits. */
  ghost predicate Included(child: Constraints, parent: Constraints) {
    forall r :: Permits(child, r) ==> Permits(parent, r)
  }

  /** The check is exact: it accepts a well-formed child if and only if it permits no request that the parent
      does not permit, and neither depth nor the right to redelegate grows. */
  lemma AttenuationIsExact(child: Constraints, parent: Constraints)
    requires WellFormed(child)
    ensures Attenuates(child, parent, false) <==>
      && Included(child, parent)
      && child.delegationDepth <= parent.delegationDepth && (child.redelegation ==> parent.redelegation)
  {
    if Included(child, parent) {
      var res :| res in child.resources;
      var op :| op in child.operations;
      var arg :| arg in child.arguments;
      var aud :| aud in child.audience;
      var base := Request(res, op, arg, aud, 0, child.validFrom);
      assert Permits(child, base);
      forall x | x in child.resources ensures x in parent.resources { assert Permits(child, base.(resource := x)); }
      forall x | x in child.operations ensures x in parent.operations { assert Permits(child, base.(operation := x)); }
      forall x | x in child.arguments ensures x in parent.arguments { assert Permits(child, base.(argument := x)); }
      forall x | x in child.audience ensures x in parent.audience { assert Permits(child, base.(audience := x)); }
      if parent.magnitudeMax.Some? {
        var beyond := if child.magnitudeMax.Some? then child.magnitudeMax.value
                      else if parent.magnitudeMax.value < 0 then 0 else parent.magnitudeMax.value + 1;
        assert Permits(child, base.(magnitude := beyond));
      }
      if parent.expiresBefore.Some? {
        var end := parent.expiresBefore.value;
        var late := if child.expiresBefore.Some? then child.expiresBefore.value - 1
                    else if end < child.validFrom then child.validFrom else end;
        assert Permits(child, base.(epoch := late));
      }
    }
  }

  lemma AttenuationIsReflexive(c: Constraints)
    ensures Attenuates(c, c, false)
  {
  }

  lemma AttenuationIsTransitive(a: Constraints, b: Constraints, c: Constraints, hop: bool)
    requires Attenuates(a, b, hop) && Attenuates(b, c, false)
    ensures Attenuates(a, c, false) && (hop ==> a.delegationDepth < c.delegationDepth)
  {
  }

  // ----- Delegation chains

  datatype Revocation = NotRevoked | LinkRevoked | RevocationUnknown

  /** Ideal digest of a link: the hashed fields themselves, so that equal digests mean equal fields. */
  datatype LinkDigest = LinkDigest(
    id: string, parentId: Option<string>, issuer: string, subject: string,
    constraints: Constraints, parentCommitment: Option<LinkDigest>)

  datatype Link = Link(
    id: string, parentId: Option<string>, issuer: string, subject: string,
    constraints: Constraints, parentCommitment: Option<LinkDigest>,
    checkedEpoch: int, signatureValid: bool, revocation: Revocation)

  function AuthorityDigest(l: Link): LinkDigest {
    LinkDigest(l.id, l.parentId, l.issuer, l.subject, l.constraints, l.parentCommitment)
  }

  predicate Current(l: Link, now: int) {
    l.checkedEpoch == now && l.signatureValid && l.revocation == NotRevoked && Live(l.constraints, now)
  }

  /** What the loop checks for the link at `i`. */
  predicate LinkOk(chain: seq<Link>, i: nat, now: int)
    requires i < |chain|
  {
    && Current(chain[i], now)
    && if i == 0 then chain[i].parentId == None && chain[i].parentCommitment == None
       else
         var parent := chain[i - 1];
         && Current(parent, now)
         && chain[i].parentId == Some(parent.id)
         && chain[i].parentCommitment == Some(AuthorityDigest(parent))
         && chain[i].issuer == parent.subject
         && Attenuates(chain[i].constraints, parent.constraints, true)
  }

  predicate ChainCurrent(chain: seq<Link>, now: int) {
    now >= 0 && chain != [] && forall i :: 0 <= i < |chain| ==> LinkOk(chain, i, now)
  }

  method AssertChainCurrent(chain: seq<Link>, now: int) returns (ok: bool)
    ensures ok <==> ChainCurrent(chain, now)
  {
    if now < 0 || chain == [] { return false; }
    for i := 0 to |chain|
      invariant forall j :: 0 <= j < i ==> LinkOk(chain, j, now)
    {
      if !LinkOk(chain, i, now) { return false; }
    }
    return true;
  }

  lemma {:induction false} DescendantAttenuates(chain: seq<Link>, now: int, i: nat, j: nat)
    requires ChainCurrent(chain, now) && i < j < |chain|
    ensures Attenuates(chain[j].constraints, chain[i].constraints, false)
    ensures chain[j].constraints.delegationDepth + (j - i) <= chain[i].constraints.delegationDepth
    ensures chain[i].constraints.redelegation
  {
    assert LinkOk(chain, j, now);
    if i + 1 < j { DescendantAttenuates(chain, now, i, j - 1); }
  }

  /** An accepted chain is no longer than the root's depth allows, all its links are live now, every link
      permits at most what each of its ancestors permits, and only its leaf may forbid redelegation. */
  lemma AcceptedChain(chain: seq<Link>, now: int)
    requires ChainCurrent(chain, now) && forall i :: 0 <= i < |chain| ==> WellFormed(chain[i].constraints)
    ensures |chain| <= chain[0].constraints.delegationDepth + 1
    ensures forall i :: 0 <= i < |chain| ==> Live(chain[i].constraints, now)
    ensures forall i, j :: 0 <= i < j < |chain| ==>
      Attenuates(chain[j].constraints, chain[i].constraints, false) && Included(chain[j].constraints, chain[i].constraints)
    ensures forall i :: 0 <= i < |chain| - 1 ==> chain[i].constraints.redelegation
  {
    forall i | 0 <= i < |chain| ensures Live(chain[i].constraints, now) { assert LinkOk(chain, i, now); }
    forall i, j | 0 <= i < j < |chain|
      ensures Attenuates(chain[j].constraints, chain[i].constraints, false) && Included(chain[j].constraints, chain[i].constraints)
    {
      DescendantAttenuates(chain, now, i, j);
      AttenuationIsExact(chain[j].constraints, chain[i].constraints);
    }
    forall i | 0 <= i < |chain| - 1 ensures chain[i].constraints.redelegation { DescendantAttenuates(chain, now, i, i + 1); }
    if |chain| > 1 { DescendantAttenuates(chain, now, 0, |chain| - 1); }
  }

  /** What each link of an accepted chain must show at the execution epoch. */
  ghost predicate Fresh(l: Link, now: int) {
    && l.checkedEpoch == now && l.signatureValid && l.revocation.NotRevoked?
    && l.constraints.validFrom <= now
    && (l.constraints.expiresBefore == None || now < l.constraints.expiresBefore.value)
  }

  /** How a link hangs on its parent: it names the parent and commits to every hashed field of it, the parent's
      subject issued it, and it permits no more, one level deeper, with the parent's leave to redelegate. */
  ghost predicate HangsOn(child: Link, parent: Link) {
    && child.parentId == Some(parent.id) && child.issuer == parent.subject
    && child.parentCommitment.Some?
    && (var d := child.parentCommitment.value;
        && d.id == parent.id && d.parentId == parent.parentId && d.issuer == parent.issuer && d.subject == parent.subject
        && d.constraints == parent.constraints && d.parentCommitment == parent.parentCommitment)
    && Included(child.constraints, parent.constraints)
    && parent.constraints.redelegation && child.constraints.delegationDepth < parent.constraints.delegationDepth
  }

  /** Exactly which chains are accepted: every link is fresh, signed, unrevoked and live, the root has no parent, and
      every other link hangs on the one before it. */
  lemma ChainExactly(chain: seq<Link>, now: int)
    requires forall i :: 0 <= i < |chain| ==> WellFormed(chain[i].constraints)
    ensures ChainCurrent(chain, now) <==>
      && now >= 0 && chain != []
      && (forall i :: 0 <= i < |chain| ==> Fresh(chain[i], now))
      && chain[0].parentId == None && chain[0].parentCommitment == None
      && (forall i :: 1 <= i < |chain| ==> HangsOn(chain[i], chain[i - 1]))
  {
    hide LinkOk, Fresh, HangsOn, WellFormed;
    forall i | 0 <= i < |chain| ensures LinkOk(chain, i, now) <==> LinkHolds(chain, i, now) { LinkExactly(chain, i, now); }
    if ChainCurrent(chain, now) {
      forall i | 0 <= i < |chain| ensures LinkHolds(chain, i, now) { assert LinkOk(chain, i, now); }
      assert LinkHolds(chain, 0, now);
      assert forall i :: 0 <= i < |chain| ==> LinkHolds(chain, i, now) ==> Fresh(chain[i], now);
      assert forall i :: 1 <= i < |chain| ==> LinkHolds(chain, i, now) ==> HangsOn(chain[i], chain[i - 1]);
    } else if now >= 0 && chain != [] {
      var i :| 0 <= i < |chain| && !LinkOk(chain, i, now);
      assert !LinkHolds(chain, i, now);
    }
  }

  ghost predicate LinkHolds(chain: seq<Link>, i: nat, now: int)
    requires i < |chain|
  {
    && Fresh(chain[i], now)
    && if i == 0 then chain[0].parentId == None && chain[0].parentCommitment == None
       else Fresh(chain[i - 1], now) && HangsOn(chain[i], chain[i - 1])
  }

  lemma LinkExactly(chain: seq<Link>, i: nat, now: int)
    requires i < |chain| && forall j :: 0 <= j < |chain| ==> WellFormed(chain[j].constraints)
    ensures LinkOk(chain, i, now) <==> LinkHolds(chain, i, now)
  {
    hide Included, Attenuates;
    if i > 0 { HopIsExact(chain[i].constraints, chain[i - 1].constraints); }
  }

  /** The check for a delegation hop in terms of what is permitted. */
  lemma HopIsExact(child: Constraints, parent: Constraints)
    requires WellFormed(child) && WellFormed(parent)
    ensures Attenuates(child, parent, true) <==>
      Included(child, parent) && parent.redelegation && child.delegationDepth < parent.delegationDepth
  {
    AttenuationIsExact(child, parent);
  }

  /** Replacing any one link of an accepted chain by one that is revoked, of unknown revocation, unsigned, checked at
      another epoch or not live, that names another issuer, parent or commitment, or that differs from the original in
      any field its child commits to, makes the chain rejected. */
  lemma TamperedChainIsRejected(chain: seq<Link>, now: int, i: nat, link: Link)
    requires ChainCurrent(chain, now) && i < |chain|
    ensures link.revocation != NotRevoked || !link.signatureValid || link.checkedEpoch != now || !Live(link.constraints, now) ==>
      !ChainCurrent(chain[i := link], now)
    ensures link.parentId != chain[i].parentId || link.parentCommitment != chain[i].parentCommitment ==>
      !ChainCurrent(chain[i := link], now)
    ensures i > 0 && link.issuer != chain[i].issuer ==> !ChainCurrent(chain[i := link], now)
    ensures i + 1 < |chain| && (link.id != chain[i].id || link.issuer != chain[i].issuer) ==> !ChainCurrent(chain[i := link], now)
    ensures i + 1 < |chain| && (link.subject != chain[i].subject || link.constraints != chain[i].constraints) ==>
      !ChainCurrent(chain[i := link], now)
  {
    hide Attenuates, Live;
    var forged := chain[i := link];
    assert LinkOk(chain, i, now);
    if i + 1 < |chain| { assert LinkOk(chain, i + 1, now); }
    if ChainCurrent(forged, now) {
      assert LinkOk(forged, i, now);
      if i + 1 < |chain| { assert LinkOk(forged, i + 1, now); }
    }
  }
}
