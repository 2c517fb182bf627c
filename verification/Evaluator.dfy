/** The evaluator as it runs: a decision table filled attempt by attempt, then lists selected through the table. */
module Evaluator {
  import opened Outcomes
  import opened Contract
  import opened Sequences
  import opened CanonicalOrder
  import opened Decisions
  import opened Attributions
  import opened Evaluation

  type DecisionKey = (string, string, string, string, string, string, string)

  function DecisionKeyOf(env: Env, a: Attempt): DecisionKey {
    (a.batchId, a.server.tenantId, a.server.appId, a.record.deliveryId, a.record.recordId, a.record.schemaVersion,
     env.digest(RecordArtifact(a.record)))
  }

  /** A batch gives every record of one scope the same server context. */
  ghost predicate ContextByBatch(attempts: seq<Attempt>) {
    forall x, y :: x in attempts && y in attempts && x.batchId == y.batchId && Scope(x) == Scope(y) ==>
        x.server == y.server
  }

  /** Under that condition the table key names the attempt, so no decision overwrites another. */
  lemma DecisionKeyNames(env: Env, attempts: seq<Attempt>, x: Attempt, y: Attempt)
    requires Injective(env.digest) && ContextByBatch(attempts) && x in attempts && y in attempts
    requires DecisionKeyOf(env, x) == DecisionKeyOf(env, y)
    ensures x == y
  {
  }

  ghost predicate TableFor(env: Env, table: map<DecisionKey, Decision>, attempts: seq<Attempt>,
                           decide: Attempt -> Decision) {
    forall a :: a in attempts ==> DecisionKeyOf(env, a) in table && table[DecisionKeyOf(env, a)] == decide(a)
  }

  /**
   The decision loop; `decide` is the decision of one attempt, an invalid timestamp already turned into a
   rejection.
   */
  method DecideAll(env: Env, attempts: seq<Attempt>, decide: Attempt -> Decision)
    returns (list: seq<Decision>, table: map<DecisionKey, Decision>)
    requires Injective(env.digest) && ContextByBatch(attempts)
    ensures list == Map(attempts, decide)
    ensures TableFor(env, table, attempts, decide)
  {
    list, table := [], map[];
    for i := 0 to |attempts|
      invariant list == Map(attempts[..i], decide)
      invariant TableFor(env, table, attempts[..i], decide)
    {
      var a := attempts[i];
      assert attempts[..i + 1] == attempts[..i] + [a];
      MapConcat(attempts[..i], [a], decide);
      list := list + [decide(a)];
      forall b | b in attempts[..i] && DecisionKeyOf(env, b) == DecisionKeyOf(env, a) ensures a == b {
        DecisionKeyNames(env, attempts, a, b);
      }
      table := table[DecisionKeyOf(env, a) := decide(a)];
    }
    assert attempts[..|attempts|] == attempts;
  }

  function UniqueBy(decide: Attempt -> Decision): Attempt -> bool {
    (a: Attempt) => decide(a).status.Accepted? && decide(a).duplicate.Unique?
  }

  function ConflictBy(decide: Attempt -> Decision): Attempt -> bool {
    (a: Attempt) => decide(a).reason == Some(EventIdConflicted)
  }

  /** The accepted unique attempts, the conflict evidence and the rejected attempts, in input order. */
  method Select(env: Env, attempts: seq<Attempt>, table: map<DecisionKey, Decision>, ghost decide: Attempt -> Decision)
    returns (accepted: seq<Attempt>, conflicts: seq<Attempt>, rejected: seq<Attempt>)
    requires TableFor(env, table, attempts, decide)
    ensures accepted == Filter(attempts, UniqueBy(decide))
    ensures conflicts == Filter(attempts, ConflictBy(decide))
    ensures rejected == Filter(attempts, RejectedBy(decide))
  {
    accepted, conflicts, rejected := [], [], [];
    for i := 0 to |attempts|
      invariant accepted == Filter(attempts[..i], UniqueBy(decide))
      invariant conflicts == Filter(attempts[..i], ConflictBy(decide))
      invariant rejected == Filter(attempts[..i], RejectedBy(decide))
    {
      var a := attempts[i];
      var d := table[DecisionKeyOf(env, a)];
      assert attempts[..i + 1] == attempts[..i] + [a];
      FilterConcat(attempts[..i], [a], UniqueBy(decide));
      FilterConcat(attempts[..i], [a], ConflictBy(decide));
      FilterConcat(attempts[..i], [a], RejectedBy(decide));
      if d.status.Accepted? && d.duplicate.Unique? {
        accepted := accepted + [a];
      }
      if d.reason == Some(EventIdConflicted) {
        conflicts := conflicts + [a];
      }
      if d.status.Rejected? {
        rejected := rejected + [a];
      }
    }
    assert attempts[..|attempts|] == attempts;
  }

  lemma SelectionsAreTheDecided(env: Env, attempts: seq<Attempt>)
    ensures Filter(attempts, UniqueBy(DecisionOf(env, attempts))) == AcceptedOf(env, attempts)
    ensures Filter(attempts, ConflictBy(DecisionOf(env, attempts))) == ConflictsOf(env, attempts)
  {
    FilterAgree(attempts, UniqueBy(DecisionOf(env, attempts)), AcceptedUnique(env, attempts));
    FilterAgree(attempts, ConflictBy(DecisionOf(env, attempts)), Conflicting(env, attempts));
  }

  /** The installation-anchor check: a set of anchors already seen, and the first violation stops it. */
  method CheckAnchors(installs: seq<Attempt>) returns (ok: bool)
    ensures ok == AnchorsHold(installs)
  {
    var anchors: set<EvidenceKey> := {};
    var keys := Map(installs, InstallKey);
    MapAt(installs, InstallKey);
    for i := 0 to |installs|
      invariant AnchoredUpTo(installs, keys, anchors, i)
    {
      var a := installs[i];
      if InstallKey(a) in anchors {
        AnchorSeen(installs, keys, i);
        return false;
      }
      if !AnchorNamed(a, installs) {
        AnchorUnnamed(installs, i);
        return false;
      }
      AnchoredNext(installs, keys, anchors, i);
      anchors := anchors + {InstallKey(a)};
    }
    assert keys[..|installs|] == keys && installs[..|installs|] == installs;
    AllAnchored(installs);
    return true;
  }

  ghost predicate AnchoredUpTo(installs: seq<Attempt>, keys: seq<EvidenceKey>, anchors: set<EvidenceKey>, i: nat)
    requires i <= |installs| == |keys|
  {
    && (forall k :: k in anchors <==> k in keys[..i])
    && Distinct(keys[..i])
    && forall a :: a in installs[..i] ==> AnchorNamed(a, installs)
  }

  lemma {:induction false} AnchoredNext(installs: seq<Attempt>, keys: seq<EvidenceKey>, anchors: set<EvidenceKey>,
                                        i: nat)
    requires keys == Map(installs, InstallKey) && i < |installs| == |keys| && AnchoredUpTo(installs, keys, anchors, i)
    requires InstallKey(installs[i]) !in anchors && AnchorNamed(installs[i], installs)
    ensures AnchoredUpTo(installs, keys, anchors + {InstallKey(installs[i])}, i + 1)
  {
    MapAt(installs, InstallKey);
    assert keys[..i + 1] == keys[..i] + [keys[i]];
    assert installs[..i + 1] == installs[..i] + [installs[i]];
  }

  lemma {:induction false} AnchorSeen(installs: seq<Attempt>, keys: seq<EvidenceKey>, i: nat)
    requires keys == Map(installs, InstallKey) && i < |installs| == |keys| && InstallKey(installs[i]) in keys[..i]
    ensures !AnchorsHold(installs)
  {
    MapAt(installs, InstallKey);
    var j :| 0 <= j < i && keys[..i][j] == InstallKey(installs[i]);
    RepeatedCount(keys, j, i);
    assert !AnchorRules(installs[i], installs);
  }

  lemma {:induction false} AnchorUnnamed(installs: seq<Attempt>, i: nat)
    requires i < |installs| && !AnchorNamed(installs[i], installs)
    ensures !AnchorsHold(installs)
  {
    assert !AnchorRules(installs[i], installs);
  }

  lemma {:induction false} AllAnchored(installs: seq<Attempt>)
    requires Distinct(Map(installs, InstallKey)) && forall a :: a in installs ==> AnchorNamed(a, installs)
    ensures AnchorsHold(installs)
  {
    forall a | a in installs ensures AnchorRules(a, installs) {
      MapMember(installs, InstallKey, InstallKey(a));
      DistinctCount(Map(installs, InstallKey), InstallKey(a));
    }
  }

  /** The part of the anchor rules that concerns one install alone. */
  predicate AnchorNamed(a: Attempt, installs: seq<Attempt>) {
    var p := a.record.payload;
    && p.installationId.Some?
    && (if p.installType.FirstInstall? then !Given(p.priorInstallationId)
        else Given(p.priorInstallationId) && p.priorInstallationId != p.installationId
             && exists c :: c in installs && InstallKey(c) == (a.server.tenantId, a.server.appId, p.priorInstallationId.value))
  }

  /** Running the evaluator computes `Evaluate`: the table-driven lists are the lists the decisions define. */
  method Run(env: Env, input: Input) returns (result: Result<Output>)
    requires Injective(env.digest) && ContextByBatch(RawAttempts(input.batches))
    ensures result == Evaluate(env, input)
  {
    var attempts := Flatten(env, input.batches);
    SortMembers(RawAttempts(input.batches), AttemptKey(env));
    if !ChecksPass(env, attempts) {
      return Err;
    }
    var _, table := DecideAll(env, attempts, DecisionOf(env, attempts));
    var accepted, conflicts, rejected := Select(env, attempts, table, DecisionOf(env, attempts));
    SelectionsAreTheDecided(env, attempts);
    var anchored := CheckAnchors(Filter(accepted, IsInstall));
    if !anchored || !VerdictsExist(env, accepted) {
      return Err;
    }
    var decide := (a: Attempt) => if DecisionKeyOf(env, a) in table then table[DecisionKeyOf(env, a)]
        else InvalidTimestamp(a);
    assert forall a :: a in attempts ==> decide(a) == DecisionOf(env, attempts)(a);
    var raw := Sort(Map(Filter(accepted + conflicts, Retained(input.lifecycle)), RawRecordFor(env)), RawKey(env));
    var deliveries := Sort(Map(attempts, DeliveryFor(decide)), DeliveryKey(env));
    MapAgree(attempts, DeliveryFor(decide), DeliveryFor(DecisionOf(env, attempts)));
    deliveries := Sort(deliveries + Map(input.preRejections, PreDelivery), DeliveryKey(env));
    var logical := Sort(Map(Filter(accepted, Retained(input.lifecycle)), LogicalFor), LogicalKey(env));
    var attributions := Sort(BaseAttributions(env, accepted, input.lifecycle), AttributionKey(env));
    FilterMembers(attempts, RejectedBy(DecisionOf(env, attempts)));
    MapAgree(rejected, RejectionFor(decide), RejectionFor(DecisionOf(env, attempts)));
    var rejections := Sort(Map(rejected, RejectionFor(decide)) + Map(input.preRejections, PreRejected),
                           RejectionKey(env));
    return Ok(Output(raw, deliveries, logical, attributions, rejections));
  }
}
