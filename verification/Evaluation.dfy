/** The whole evaluation of a contract input: flatten, check, decide, and sort every output list canonically. */
module Evaluation {
  import opened Outcomes
  import opened Contract
  import opened Sequences
  import opened CanonicalOrder
  import opened Decisions
  import opened Attributions
  import opened LogicalIds

  function BatchAttempts(b: Batch): seq<Attempt> {
    Map(b.records, (r: Record) => Attempt(b.server, r, b.id))
  }

  function RawAttempts(batches: seq<Batch>): seq<Attempt> {
    if batches == [] then [] else BatchAttempts(batches[0]) + RawAttempts(batches[1..])
  }

  function Flatten(env: Env, batches: seq<Batch>): seq<Attempt> {
    Sort(RawAttempts(batches), AttemptKey(env))
  }

  // ---- Checks that stop the evaluation ----

  predicate ProviderMatches(a: Attempt) {
    IsImported(a) && a.record.payload.importContext.Some?
    ==> a.record.producer == "import:" + a.record.payload.importContext.value.provider
  }

  predicate AnchorSourceAllowed(a: Attempt) {
    a.record.event.AdRevenue? && a.record.payload.anchorSource.Some? ==> "postback:" <= a.record.producer
  }

  predicate PoliciesConsistent(env: Env, a: Attempt) {
    && (a.server.stale.Some? ==>
          var p := a.server.stale.value; p.policyDigest == env.digest(StaleArtifact(p.before, p.authority, p.version)))
    && (a.server.injection.Some? ==>
          var p := a.server.injection.value; p.policyDigest == env.digest(InjectionArtifact(p.threshold, p.authority, p.version)))
  }

  predicate RefundTargetExists(a: Attempt, attempts: seq<Attempt>) {
    a.record.event.Refund? ==>
      exists x :: x in attempts && Scope(x) == Scope(a) && x.record.recordId == a.record.payload.correctionTarget
  }

  predicate ChecksPass(env: Env, attempts: seq<Attempt>) {
    forall a :: a in attempts ==>
      ProviderMatches(a) && AnchorSourceAllowed(a) && PoliciesConsistent(env, a) && RefundTargetExists(a, attempts)
  }

  function InstallKey(a: Attempt): EvidenceKey {
    (a.server.tenantId, a.server.appId, a.record.payload.installationId.Or(""))
  }

  predicate AnchorRules(a: Attempt, installs: seq<Attempt>) {
    var p := a.record.payload;
    && p.installationId.Some?
    && multiset(Map(installs, InstallKey))[InstallKey(a)] == 1
    && (if p.installType.FirstInstall? then !Given(p.priorInstallationId)
        else Given(p.priorInstallationId) && p.priorInstallationId != p.installationId
             && exists c :: c in installs && InstallKey(c) == (a.server.tenantId, a.server.appId, p.priorInstallationId.value))
  }

  /** Every accepted install names its own installation, and a reinstall names an accepted prior one. */
  predicate AnchorsHold(installs: seq<Attempt>) {
    forall a :: a in installs ==> AnchorRules(a, installs)
  }

  predicate VerdictsExist(env: Env, accepted: seq<Attempt>) {
    forall a :: a in accepted && IsInstall(a) ==> InstallVerdict(env, a, accepted).Ok?
  }

  // ---- Outputs ----

  function OutputKey(env: Env, parts: seq<string>, artifact: Artifact): Key {
    KeyOf(parts + [env.digest(artifact)])
  }

  lemma OutputKeyInjective(env: Env, p: seq<string>, x: Artifact, q: seq<string>, y: Artifact)
    requires Injective(env.digest) && OutputKey(env, p, x) == OutputKey(env, q, y)
    ensures x == y
  {
    var s, t := p + [env.digest(x)], q + [env.digest(y)];
    KeyOfInjective(s, t);
    assert s[|s| - 1] == t[|t| - 1];
  }

  function DeliveryKey(env: Env): Delivery -> Key {
    (d: Delivery) => OutputKey(env, [d.deliveryId, d.recordId, d.tenantId, d.appId], DeliveryArtifact(d))
  }

  function RejectionKey(env: Env): Rejection -> Key {
    (r: Rejection) => OutputKey(env, [r.deliveryId, r.recordId, r.tenantId, r.appId], RejectionArtifact(r))
  }

  function RawKey(env: Env): RawRecord -> Key {
    (r: RawRecord) => OutputKey(env, [r.recordId, r.tenantId, r.appId, r.deliveryId], RawArtifact(r))
  }

  function LogicalKey(env: Env): LogicalEvent -> Key {
    (l: LogicalEvent) => OutputKey(env, [l.logicalEventId, l.tenantId, l.appId], LogicalArtifact(l))
  }

  function AttributionKey(env: Env): Attribution -> Key {
    (x: Attribution) => OutputKey(env, [x.id, x.tenantId, x.appId], AttributionArtifact(x))
  }

  function DeliveryFor(decide: Attempt -> Decision): Attempt -> Delivery {
    (a: Attempt) => Delivery(a.record.deliveryId, a.record.recordId, a.server.tenantId, a.server.appId,
                             a.record.receivedAt, decide(a))
  }

  function PreDecision(p: PreRejection): Decision {
    Decision(Rejected, Unique, false, false, Discarded, None, Some(PreIngestion(p.reason)),
             ConsentTrace(p.policyVersion, if Given(p.purposeId) then p.purposeId else None, None, p.consentReason, None, None),
             None)
  }

  function PreDelivery(p: PreRejection): Delivery {
    Delivery(p.deliveryId, p.recordId, p.tenantId, p.appId, p.receivedAt, PreDecision(p))
  }

  function RejectionFor(decide: Attempt -> Decision): Attempt -> Rejection {
    (a: Attempt) =>
      var d := decide(a);
      Rejection(a.record.deliveryId, a.record.recordId, a.server.tenantId, a.server.appId,
                d.reason.Or(TimestampInvalid), d.disposition, d.reason == Some(EventIdConflicted),
                d.consent.policyVersion, d.consent.reason, d.consent.purposeId, d.consent.withdrawalAt, d.staleness)
  }

  function PreRejected(p: PreRejection): Rejection {
    Rejection(p.deliveryId, p.recordId, p.tenantId, p.appId, PreIngestion(p.reason), Discarded, false,
              p.policyVersion, p.consentReason, p.purposeId, None, None)
  }

  function RejectedBy(decide: Attempt -> Decision): Attempt -> bool {
    (a: Attempt) => decide(a).status.Rejected?
  }

  function RawRecordFor(env: Env): Attempt -> RawRecord {
    (a: Attempt) =>
      var consent := ConsentDecision(env, a).Or((true, ConsentTrace("", None, None, ConsentNotRequired, None, None))).1;
      RawRecord(a.record.recordId, a.server.tenantId, a.server.appId, a.record.producer, a.record.eventId,
                a.record.deliveryId, a.record.event, a.record.schemaVersion,
                env.digest(PayloadArtifact(a.record.payload)), a.record.occurredAt, a.record.receivedAt,
                "protected:" + a.record.recordId, consent, a.record.rest)
  }

  function LogicalFor(a: Attempt): LogicalEvent {
    LogicalEvent(LogicalId(a.server.tenantId, a.server.appId, a.record.producer, a.record.eventId),
                 a.record.recordId, a.server.tenantId, a.server.appId, a.record.producer, a.record.eventId,
                 a.record.event, a.record.late)
  }

  function Retained(lifecycle: map<EvidenceKey, Lifecycle>): Attempt -> bool {
    (a: Attempt) => EvidenceOf(a) !in lifecycle
  }

  function AcceptedOf(env: Env, attempts: seq<Attempt>): seq<Attempt> {
    Filter(attempts, AcceptedUnique(env, attempts))
  }

  function ConflictsOf(env: Env, attempts: seq<Attempt>): seq<Attempt> {
    Filter(attempts, Conflicting(env, attempts))
  }

  function DeliveriesOf(env: Env, attempts: seq<Attempt>, pre: seq<PreRejection>): seq<Delivery> {
    Sort(Sort(Map(attempts, DeliveryFor(DecisionOf(env, attempts))), DeliveryKey(env)) + Map(pre, PreDelivery),
         DeliveryKey(env))
  }

  function RejectionsOf(env: Env, attempts: seq<Attempt>, pre: seq<PreRejection>): seq<Rejection> {
    var decide := DecisionOf(env, attempts);
    Sort(Map(Filter(attempts, RejectedBy(decide)), RejectionFor(decide)) + Map(pre, PreRejected), RejectionKey(env))
  }

  function RawOf(env: Env, attempts: seq<Attempt>, lifecycle: map<EvidenceKey, Lifecycle>): seq<RawRecord> {
    Sort(Map(Filter(AcceptedOf(env, attempts) + ConflictsOf(env, attempts), Retained(lifecycle)), RawRecordFor(env)),
         RawKey(env))
  }

  function LogicalOf(env: Env, attempts: seq<Attempt>, lifecycle: map<EvidenceKey, Lifecycle>): seq<LogicalEvent> {
    Sort(Map(Filter(AcceptedOf(env, attempts), Retained(lifecycle)), LogicalFor), LogicalKey(env))
  }

  function AttributionsOf(env: Env, attempts: seq<Attempt>, lifecycle: map<EvidenceKey, Lifecycle>): seq<Attribution> {
    Sort(BaseAttributions(env, AcceptedOf(env, attempts), lifecycle), AttributionKey(env))
  }

  predicate Evaluable(env: Env, attempts: seq<Attempt>) {
    && ChecksPass(env, attempts)
    && AnchorsHold(Filter(AcceptedOf(env, attempts), IsInstall))
    && VerdictsExist(env, AcceptedOf(env, attempts))
  }

  function OutputOf(env: Env, attempts: seq<Attempt>, input: Input): Output {
    Output(RawOf(env, attempts, input.lifecycle), DeliveriesOf(env, attempts, input.preRejections),
           LogicalOf(env, attempts, input.lifecycle), AttributionsOf(env, attempts, input.lifecycle),
           RejectionsOf(env, attempts, input.preRejections))
  }

  function Evaluate(env: Env, input: Input): Result<Output> {
    var attempts := Flatten(env, input.batches);
    if Evaluable(env, attempts) then Ok(OutputOf(env, attempts, input)) else Err
  }
}
