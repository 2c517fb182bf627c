/** What stands in the output lists of an evaluation: every row, column by column, and the order of the rows. */
module Outputs {
  import opened Outcomes
  import opened Contract
  import opened Sequences
  import opened CanonicalOrder
  import opened TextOrder
  import opened Decisions
  import opened Attributions
  import opened Evaluation
  import opened Meaning
  import opened Conservation
  import opened Acceptance
  import opened Verdicts
  import Metrics
  import MetricOrder

  /** A record of one of the batches, with that batch's context. */
  ghost predicate Delivered(batches: seq<Batch>, a: Attempt) {
    exists i, j :: 0 <= i < |batches| && 0 <= j < |batches[i].records|
      && a.record == batches[i].records[j] && a.server == batches[i].server && a.batchId == batches[i].id
  }

  lemma {:induction false} RawAttemptsMean(batches: seq<Batch>, a: Attempt)
    ensures a in RawAttempts(batches) <==> Delivered(batches, a)
  {
    if batches != [] {
      var b := batches[0];
      RawAttemptsMean(batches[1..], a);
      MapMember(b.records, (r: Record) => Attempt(b.server, r, b.id), a);
      if a in BatchAttempts(b) {
        var r :| r in b.records && Attempt(b.server, r, b.id) == a;
        var j :| 0 <= j < |b.records| && b.records[j] == r;
        assert batches[0].records[j] == a.record;
      }
      if Delivered(batches[1..], a) {
        var i, j :| 0 <= i < |batches[1..]| && 0 <= j < |batches[1..][i].records| && a.record == batches[1..][i].records[j]
                    && a.server == batches[1..][i].server && a.batchId == batches[1..][i].id;
        assert batches[i + 1] == batches[1..][i];
        assert a.record == batches[i + 1].records[j];
      }
      if Delivered(batches, a) {
        var i, j :| 0 <= i < |batches| && 0 <= j < |batches[i].records| && a.record == batches[i].records[j]
                    && a.server == batches[i].server && a.batchId == batches[i].id;
        if i == 0 {
          assert b.records[j] in b.records;
        } else {
          assert batches[1..][i - 1] == batches[i];
          assert Delivered(batches[1..], a);
        }
      }
    }
  }

  /** The accepted delivery of its event. */
  ghost predicate Accepts(env: Env, batches: seq<Batch>, a: Attempt) {
    var raw := RawAttempts(batches);
    && Delivered(batches, a) && Dated(env, a, raw) && !OtherScope(a) && OnlyRecord(a, raw) && !ConsentRefuses(env, a)
    && !TooOld(env, a) && !JoinsInstallation(a) && ReceivedFirst(a, raw)
  }

  lemma AcceptedListed(env: Env, batches: seq<Batch>, a: Attempt)
    requires Injective(env.digest)
    ensures a in AcceptedOf(env, Flatten(env, batches)) <==> Accepts(env, batches, a)
  {
    var raw := RawAttempts(batches);
    RawAttemptsMean(batches, a);
    FilterMember(Flatten(env, batches), AcceptedUnique(env, Flatten(env, batches)), a);
    SortMember(raw, AttemptKey(env), a);
    if a in raw {
      AcceptedWhenReceivedFirst(env, a, raw);
    }
  }

  ghost predicate Retained(lifecycle: map<EvidenceKey, Lifecycle>, a: Attempt) {
    (a.server.tenantId, a.server.appId, a.record.recordId) !in lifecycle
  }

  // ---- Logical events ----

  ghost predicate LogicalRow(l: LogicalEvent, a: Attempt) {
    && l.tenantId == a.server.tenantId && l.appId == a.server.appId && l.producer == a.record.producer
    && l.eventId == a.record.eventId && l.recordId == a.record.recordId && l.event == a.record.event && l.late == a.record.late
    && l.logicalEventId
       == "logical:" + a.server.tenantId + ":" + a.server.appId + ":" + a.record.producer + ":" + a.record.eventId
  }

  /** The logical events are the accepted deliveries that privacy has not removed, and no others. */
  lemma LogicalRows(env: Env, input: Input, l: LogicalEvent)
    requires Injective(env.digest) && Evaluate(env, input).Ok?
    ensures l in Evaluate(env, input).value.logical
       <==> exists a :: Accepts(env, input.batches, a) && Retained(input.lifecycle, a) && LogicalRow(l, a)
  {
    var s := Flatten(env, input.batches);
    var accepted := AcceptedOf(env, s);
    var kept := Filter(accepted, Evaluation.Retained(input.lifecycle));
    SortMember(Map(kept, LogicalFor), LogicalKey(env), l);
    MapMember(kept, LogicalFor, l);
    forall a ensures a in kept <==> Accepts(env, input.batches, a) && Retained(input.lifecycle, a) {
      FilterMember(accepted, Evaluation.Retained(input.lifecycle), a);
      AcceptedListed(env, input.batches, a);
    }
    forall a ensures LogicalFor(a) == l <==> LogicalRow(l, a) {
      LogicalRowIs(l, a);
    }
  }

  lemma LogicalRowIs(l: LogicalEvent, a: Attempt)
    ensures LogicalFor(a) == l <==> LogicalRow(l, a)
  {
  }

  // ---- Raw records ----

  ghost predicate RawRow(env: Env, r: RawRecord, a: Attempt) {
    && r.recordId == a.record.recordId && r.tenantId == a.server.tenantId && r.appId == a.server.appId
    && r.producer == a.record.producer && r.eventId == a.record.eventId && r.deliveryId == a.record.deliveryId
    && r.event == a.record.event && r.schemaVersion == a.record.schemaVersion && r.rest == a.record.rest
    && r.payloadDigest == env.digest(PayloadArtifact(a.record.payload)) && r.payloadRef == "protected:" + a.record.recordId
    && r.occurredAt == a.record.occurredAt && r.receivedAt == a.record.receivedAt
    && PurposeTraced(a, r.consent) && WithdrawalTraced(a, r.consent) && BasisTraced(env, a, r.consent)
    && ReasonTraced(env, a, r.consent.reason)
  }

  /** Kept as evidence: the accepted delivery of its event, or one that conflicts with it. */
  ghost predicate Evidential(env: Env, batches: seq<Batch>, a: Attempt) {
    || Accepts(env, batches, a)
    || (Delivered(batches, a) && RejectedFor(env, a, RawAttempts(batches), EventIdConflicted))
  }

  lemma ConflictListed(env: Env, batches: seq<Batch>, a: Attempt)
    requires Injective(env.digest)
    ensures a in ConflictsOf(env, Flatten(env, batches))
       <==> Delivered(batches, a) && RejectedFor(env, a, RawAttempts(batches), EventIdConflicted)
  {
    var raw := RawAttempts(batches);
    RawAttemptsMean(batches, a);
    FilterMember(Flatten(env, batches), Conflicting(env, Flatten(env, batches)), a);
    SortMember(raw, AttemptKey(env), a);
    if a in raw {
      RejectedExactlyFor(env, a, raw, EventIdConflicted);
    }
  }

  lemma RawRowIs(env: Env, a: Attempt, r: RawRecord)
    requires env.parse(a.record.receivedAt).Some? && ConsentDecision(env, a).Ok? && r == RawRecordFor(env)(a)
    ensures RawRow(env, r, a)
  {
    var c := ConsentDecision(env, a).value.1;
    var decided := ConsentDecision(env, a);
    var default := (true, ConsentTrace("", None, None, ConsentNotRequired, None, None));
    assert decided.Or(default) == decided.value;
    assert r.consent == decided.Or(default).1;
    PurposeIsTraced(a, c);
    WithdrawalIsTraced(a, c);
    BasisIsTraced(env, a);
    ConsentMeans(env, a);
  }

  lemma EvidentialDated(env: Env, batches: seq<Batch>, a: Attempt)
    requires Evidential(env, batches, a)
    ensures env.parse(a.record.receivedAt).Some? && ConsentDecision(env, a).Ok?
  {
    ConsentMeans(env, a);
  }

  /**
   Each raw record is the row of an accepted or conflicting delivery that privacy has not removed, and each has
   one.
   */
  lemma RawRows(env: Env, input: Input)
    requires Injective(env.digest) && Evaluate(env, input).Ok?
    ensures forall r :: r in Evaluate(env, input).value.raw ==>
              exists a :: Evidential(env, input.batches, a) && Retained(input.lifecycle, a) && RawRow(env, r, a)
    ensures forall a :: Evidential(env, input.batches, a) && Retained(input.lifecycle, a) ==>
              exists r :: r in Evaluate(env, input).value.raw && RawRow(env, r, a)
  {
    var s, raw := Flatten(env, input.batches), Evaluate(env, input).value.raw;
    forall r | r in raw
      ensures exists a :: Evidential(env, input.batches, a) && Retained(input.lifecycle, a) && RawRow(env, r, a)
    {
      var a := RawSource(env, input, r);
      EvidentialDated(env, input.batches, a);
      RawRowIs(env, a, r);
    }
    forall a | Evidential(env, input.batches, a) && Retained(input.lifecycle, a)
      ensures exists r :: r in raw && RawRow(env, r, a)
    {
      RawListed(env, input, a);
      EvidentialDated(env, input.batches, a);
      RawRowIs(env, a, RawRecordFor(env)(a));
    }
  }

  lemma EvidenceListed(env: Env, input: Input, a: Attempt)
    requires Injective(env.digest)
    ensures a in Filter(AcceptedOf(env, Flatten(env, input.batches)) + ConflictsOf(env, Flatten(env, input.batches)),
                        Evaluation.Retained(input.lifecycle))
       <==> Evidential(env, input.batches, a) && Retained(input.lifecycle, a)
  {
    var s := Flatten(env, input.batches);
    FilterMember(AcceptedOf(env, s) + ConflictsOf(env, s), Evaluation.Retained(input.lifecycle), a);
    AcceptedListed(env, input.batches, a);
    ConflictListed(env, input.batches, a);
  }

  lemma RawSource(env: Env, input: Input, r: RawRecord) returns (a: Attempt)
    requires Injective(env.digest) && Evaluate(env, input).Ok? && r in Evaluate(env, input).value.raw
    ensures Evidential(env, input.batches, a) && Retained(input.lifecycle, a) && r == RawRecordFor(env)(a)
  {
    var s := Flatten(env, input.batches);
    var kept := Filter(AcceptedOf(env, s) + ConflictsOf(env, s), Evaluation.Retained(input.lifecycle));
    SortMember(Map(kept, RawRecordFor(env)), RawKey(env), r);
    MapMember(kept, RawRecordFor(env), r);
    a :| a in kept && RawRecordFor(env)(a) == r;
    EvidenceListed(env, input, a);
  }

  lemma RawListed(env: Env, input: Input, a: Attempt)
    requires Injective(env.digest) && Evaluate(env, input).Ok?
    requires Evidential(env, input.batches, a) && Retained(input.lifecycle, a)
    ensures RawRecordFor(env)(a) in Evaluate(env, input).value.raw
  {
    var s := Flatten(env, input.batches);
    var kept := Filter(AcceptedOf(env, s) + ConflictsOf(env, s), Evaluation.Retained(input.lifecycle));
    EvidenceListed(env, input, a);
    MapMember(kept, RawRecordFor(env), RawRecordFor(env)(a));
    SortMember(Map(kept, RawRecordFor(env)), RawKey(env), RawRecordFor(env)(a));
  }

  // ---- Deliveries and rejections ----

  /** Everything that a decision says is what the input makes it. */
  ghost predicate DecisionIs(env: Env, a: Attempt, raw: seq<Attempt>, d: Decision) {
    && (forall reason :: d.reason == Some(reason) <==> RejectedFor(env, a, raw, reason))
    && (d.status == Rejected <==> d.reason.Some?) && ColumnsOf(env, a, raw, d)
    && PurposeTraced(a, d.consent) && WithdrawalTraced(a, d.consent) && BasisTraced(env, a, d.consent)
    && (Dated(env, a, raw) ==> ReasonTraced(env, a, d.consent.reason))
  }

  lemma DecisionMeans(env: Env, a: Attempt, raw: seq<Attempt>)
    requires Injective(env.digest) && a in raw
    ensures DecisionIs(env, a, raw, DecisionOf(env, Sort(raw, AttemptKey(env)))(a))
  {
    var s := Sort(raw, AttemptKey(env));
    forall reason ensures DecisionOf(env, s)(a).reason == Some(reason) <==> RejectedFor(env, a, raw, reason) {
      RejectedExactlyFor(env, a, raw, reason);
    }
    RejectedWithReason(env, a, s);
    DecisionColumns(env, a, raw);
    ConsentTraced(env, a, s);
    InvalidExactlyWhen(env, a, raw);
    TraceReason(env, a, s);
  }

  ghost predicate DeliveryRow(d: Delivery, a: Attempt) {
    && d.deliveryId == a.record.deliveryId && d.recordId == a.record.recordId && d.receivedAt == a.record.receivedAt
    && d.tenantId == a.server.tenantId && d.appId == a.server.appId
  }

  ghost predicate PreDeliveryRow(d: Delivery, p: PreRejection) {
    && d.deliveryId == p.deliveryId && d.recordId == p.recordId && d.receivedAt == p.receivedAt
    && d.tenantId == p.tenantId && d.appId == p.appId && d.decision.reason == Some(PreIngestion(p.reason))
    && d.decision.status == Rejected && d.decision.disposition == Discarded && d.decision.consent.policyVersion == p.policyVersion
    && d.decision.consent.reason == p.consentReason
  }

  lemma DeliverySource(env: Env, input: Input, d: Delivery)
    requires Evaluate(env, input).Ok?
    ensures d in Evaluate(env, input).value.deliveries
       <==> || (exists a :: a in RawAttempts(input.batches) && DeliveryFor(DecisionOf(env, Flatten(env, input.batches)))(a) == d)
            || exists p :: p in input.preRejections && PreDelivery(p) == d
  {
    var s, raw := Flatten(env, input.batches), RawAttempts(input.batches);
    var f := DeliveryFor(DecisionOf(env, s));
    SortMember(Sort(Map(s, f), DeliveryKey(env)) + Map(input.preRejections, PreDelivery), DeliveryKey(env), d);
    SortMember(Map(s, f), DeliveryKey(env), d);
    MapMember(s, f, d);
    MapMember(input.preRejections, PreDelivery, d);
    forall a ensures a in s <==> a in raw {
      SortMember(raw, AttemptKey(env), a);
    }
  }

  lemma AttemptsDelivered(batches: seq<Batch>)
    ensures forall a :: Delivered(batches, a) <==> a in RawAttempts(batches)
  {
    forall a ensures Delivered(batches, a) <==> a in RawAttempts(batches) {
      RawAttemptsMean(batches, a);
    }
  }

  ghost predicate DeliveryOf(env: Env, d: Delivery, a: Attempt, raw: seq<Attempt>) {
    DeliveryRow(d, a) && DecisionIs(env, a, raw, d.decision)
  }

  lemma DeliveryRowIs(env: Env, batches: seq<Batch>, a: Attempt)
    requires Injective(env.digest) && Delivered(batches, a)
    ensures DeliveryOf(env, DeliveryFor(DecisionOf(env, Flatten(env, batches)))(a), a, RawAttempts(batches))
  {
    RawAttemptsMean(batches, a);
    DecisionMeans(env, a, RawAttempts(batches));
  }

  /** Every delivery row is an attempt's with its decision, or a refusal's. */
  lemma DeliveryRows(env: Env, input: Input, d: Delivery)
    requires Injective(env.digest) && Evaluate(env, input).Ok? && d in Evaluate(env, input).value.deliveries
    ensures || (exists a :: Delivered(input.batches, a) && DeliveryOf(env, d, a, RawAttempts(input.batches)))
            || exists p :: p in input.preRejections && PreDeliveryRow(d, p)
  {
    var f := DeliveryFor(DecisionOf(env, Flatten(env, input.batches)));
    DeliverySource(env, input, d);
    AttemptsDelivered(input.batches);
    if a :| a in RawAttempts(input.batches) && f(a) == d {
      DeliveryRowIs(env, input.batches, a);
    }
  }

  /** Every attempt has its row. */
  lemma AttemptHasDelivery(env: Env, input: Input, a: Attempt)
    requires Injective(env.digest) && Evaluate(env, input).Ok? && Delivered(input.batches, a)
    ensures exists d :: d in Evaluate(env, input).value.deliveries && DeliveryOf(env, d, a, RawAttempts(input.batches))
  {
    var f := DeliveryFor(DecisionOf(env, Flatten(env, input.batches)));
    AttemptsDelivered(input.batches);
    DeliverySource(env, input, f(a));
    DeliveryRowIs(env, input.batches, a);
  }

  /** The row of a rejected delivery, with what its decision says. */
  ghost predicate RejectionRow(r: Rejection, a: Attempt, d: Decision) {
    && r.deliveryId == a.record.deliveryId && r.recordId == a.record.recordId
    && r.tenantId == a.server.tenantId && r.appId == a.server.appId
    && d.reason == Some(r.reason) && r.disposition == d.disposition && (r.conflictEvidence <==> r.reason == EventIdConflicted)
    && r.policyVersion == d.consent.policyVersion && r.consentReason == d.consent.reason
    && r.purposeId == d.consent.purposeId && r.withdrawalAt == d.consent.withdrawalAt && r.staleness == d.staleness
  }

  ghost predicate PreRejectionRow(r: Rejection, p: PreRejection) {
    && r.deliveryId == p.deliveryId && r.recordId == p.recordId && r.tenantId == p.tenantId && r.appId == p.appId
    && r.reason == PreIngestion(p.reason) && r.disposition == Discarded && !r.conflictEvidence
    && r.policyVersion == p.policyVersion && r.consentReason == p.consentReason && r.purposeId == p.purposeId
    && r.withdrawalAt.None? && r.staleness.None?
  }

  lemma RejectionSource(env: Env, input: Input, r: Rejection)
    requires Evaluate(env, input).Ok?
    ensures var decide := DecisionOf(env, Flatten(env, input.batches));
            r in Evaluate(env, input).value.rejections
            <==> || (exists a :: a in RawAttempts(input.batches) && decide(a).status.Rejected? && RejectionFor(decide)(a) == r)
                 || exists p :: p in input.preRejections && PreRejected(p) == r
  {
    var s, raw := Flatten(env, input.batches), RawAttempts(input.batches);
    var decide := DecisionOf(env, s);
    var rejected := Filter(s, RejectedBy(decide));
    SortMember(Map(rejected, RejectionFor(decide)) + Map(input.preRejections, PreRejected), RejectionKey(env), r);
    MapMember(rejected, RejectionFor(decide), r);
    MapMember(input.preRejections, PreRejected, r);
    forall a ensures a in rejected <==> a in raw && decide(a).status.Rejected? {
      FilterMember(s, RejectedBy(decide), a);
      SortMember(raw, AttemptKey(env), a);
    }
  }

  lemma RejectionRowIs(env: Env, a: Attempt, s: seq<Attempt>)
    requires DecisionOf(env, s)(a).status.Rejected?
    ensures RejectionRow(RejectionFor(DecisionOf(env, s))(a), a, DecisionOf(env, s)(a))
  {
    RejectedWithReason(env, a, s);
    var d := DecisionOf(env, s)(a);
    assert RejectionFor(DecisionOf(env, s))(a).reason == d.reason.value;
  }

  ghost predicate RejectionOf(env: Env, r: Rejection, a: Attempt, raw: seq<Attempt>) {
    exists d :: DecisionIs(env, a, raw, d) && RejectionRow(r, a, d)
  }

  /** Every rejection is the row of a rejected attempt with its decision, or of a refusal. */
  lemma RejectionRows(env: Env, input: Input, r: Rejection)
    requires Injective(env.digest) && Evaluate(env, input).Ok? && r in Evaluate(env, input).value.rejections
    ensures || (exists a :: Delivered(input.batches, a) && RejectionOf(env, r, a, RawAttempts(input.batches)))
            || exists p :: p in input.preRejections && PreRejectionRow(r, p)
  {
    var decide := DecisionOf(env, Flatten(env, input.batches));
    RejectionSource(env, input, r);
    AttemptsDelivered(input.batches);
    if a :| a in RawAttempts(input.batches) && decide(a).status.Rejected? && RejectionFor(decide)(a) == r {
      RejectionOfAttempt(env, input.batches, a);
    } else {
      var p :| p in input.preRejections && PreRejected(p) == r;
      assert PreRejectionRow(r, p);
    }
  }

  /** Every rejected attempt and every refusal has its row. */
  lemma RejectedHasRow(env: Env, input: Input, a: Attempt, reason: Reason)
    requires Injective(env.digest) && Evaluate(env, input).Ok? && Delivered(input.batches, a)
    requires RejectedFor(env, a, RawAttempts(input.batches), reason)
    ensures exists r :: r in Evaluate(env, input).value.rejections && RejectionOf(env, r, a, RawAttempts(input.batches))
  {
    var decide := DecisionOf(env, Flatten(env, input.batches));
    AttemptsDelivered(input.batches);
    RejectedExactlyFor(env, a, RawAttempts(input.batches), reason);
    RejectionSource(env, input, RejectionFor(decide)(a));
    RejectionOfAttempt(env, input.batches, a);
  }

  lemma RejectionOfAttempt(env: Env, batches: seq<Batch>, a: Attempt)
    requires Injective(env.digest) && a in RawAttempts(batches)
    requires DecisionOf(env, Flatten(env, batches))(a).status.Rejected?
    ensures RejectionOf(env, RejectionFor(DecisionOf(env, Flatten(env, batches)))(a), a, RawAttempts(batches))
  {
    DecisionMeans(env, a, RawAttempts(batches));
    RejectionRowIs(env, a, Flatten(env, batches));
  }

  lemma RefusalHasRow(env: Env, input: Input, p: PreRejection)
    requires Evaluate(env, input).Ok? && p in input.preRejections
    ensures exists r :: r in Evaluate(env, input).value.rejections && PreRejectionRow(r, p)
  {
    RejectionSource(env, input, PreRejected(p));
    assert PreRejectionRow(PreRejected(p), p);
  }

  // ---- Attributions ----

  /** The references are the given records of the attempt's scope, each with what privacy did to it. */
  ghost predicate EvidenceOn(evidence: seq<Evidence>, refs: seq<string>, a: Attempt,
                             lifecycle: map<EvidenceKey, Lifecycle>) {
    && |evidence| == |refs|
    && forall i :: 0 <= i < |refs| ==>
         var e, key := evidence[i], (a.server.tenantId, a.server.appId, refs[i]);
         && e.tenantId == a.server.tenantId && e.appId == a.server.appId && e.ref == refs[i]
         && (e.lifecycle == None <==> key !in lifecycle) && (key in lifecycle ==> e.lifecycle == Some(lifecycle[key]))
  }

  ghost predicate AttributedAs(env: Env, x: Attribution, a: Attempt, accepted: seq<Attempt>) {
    && (x.status == Organic <==> IsOrganic(a)) && (x.status == NonOrganic <==> IsNonOrganic(env, a, accepted))
  }

  ghost predicate AttributionRow(x: Attribution, a: Attempt) {
    && x.tenantId == a.server.tenantId && x.appId == a.server.appId
    && x.effectiveAt == a.record.occurredAt && x.decidedAt == a.server.receivedAt
  }

  /** An install's attribution: superseded as soon as privacy removed a record it rests on. */
  ghost predicate InstallRow(env: Env, x: Attribution, a: Attempt, accepted: seq<Attempt>, refs: seq<string>,
                             lifecycle: map<EvidenceKey, Lifecycle>) {
    && AttributionRow(x, a) && AttributedAs(env, x, a, accepted) && EvidenceOn(x.evidence, refs, a, lifecycle)
    && Explained(env, a, accepted, Verdict(x.status, x.channel, x.model, x.reason, refs))
    && x.scope == InstallationLevel && Some(x.subjectRef) == a.record.payload.installationId
    && x.ruleBundle == "attribution-default" && a.record.recordId in refs
    && (x.superseded <==> exists ref :: ref in refs && (a.server.tenantId, a.server.appId, ref) in lifecycle)
    && x.id == (if x.superseded then "attr:" + a.record.recordId + ":recalculated" else "attr:" + a.record.recordId)
    && x.supersedes == (if x.superseded then Some("attr:" + a.record.recordId) else None)
  }

  ghost predicate PostbackRow(x: Attribution, a: Attempt, lifecycle: map<EvidenceKey, Lifecycle>) {
    var p := a.record.payload;
    && AttributionRow(x, a) && EvidenceOn(x.evidence, [a.record.recordId], a, lifecycle)
    && x.scope == AggregateLevel && x.id == "attr:" + a.record.recordId && !x.superseded && x.supersedes.None?
    && x.channel == (if a.record.event == SkanPostback then "skadnetwork" else "adattributionkit")
    && x.subjectRef == "aggregate:" + x.channel + ":" + a.record.recordId && x.status != Organic
    && (x.status == NonOrganic
        <==> p.signatureVerified && p.didWin && p.sourceIdentifier != None && !(p.conversionValue == None && p.coarseValue == None))
    && PostbackExplained(p, x.reason)
  }

  ghost predicate PostbackExplained(p: Payload, reason: string) {
    && (!p.signatureVerified ==> reason == "skan_signature_invalid")
    && (p.signatureVerified && !p.didWin ==> reason == "postback_not_winner")
    && (p.signatureVerified && p.didWin && p.sourceIdentifier == None ==> reason == "crowd_anonymity_suppressed")
    && (p.signatureVerified && p.didWin && p.sourceIdentifier != None ==>
          reason == if p.conversionValue == None && p.coarseValue == None then "conversion_value_null"
              else "skan_postback_verified")
  }

  ghost predicate OpenExplained(a: Attempt, reason: string) {
    var reused := a.record.payload.deferredOpen
                  && (if a.server.deepLink == None then None else a.server.deepLink.value.installClickId) == a.record.payload.clickId;
    && (reused ==> reason == "deep_link_install_click_reused")
    && (!reused && a.server.deepLink == None ==> reason == "deep_link_unknown_link")
    && (forall link :: !reused && a.server.deepLink == Some(link) ==>
          reason == match link.status
                    case LinkActive => "deep_link_open_attributed"
                    case LinkInactive => "deep_link_link_inactive"
                    case LinkUnknown => "deep_link_unknown_link")
  }

  ghost predicate OpenRow(x: Attribution, a: Attempt, lifecycle: map<EvidenceKey, Lifecycle>) {
    && AttributionRow(x, a) && EvidenceOn(x.evidence, [a.record.recordId], a, lifecycle)
    && x.scope == EngagementLevel && x.id == "attr:engagement:" + a.record.recordId && !x.superseded && x.supersedes.None?
    && x.subjectRef == "engagement:" + a.record.recordId && x.channel == "deep_link" && x.status != Organic
    && (x.status == NonOrganic
        <==> exists link :: a.server.deepLink == Some(link) && link.status == LinkActive
                            && !(a.record.payload.deferredOpen && link.installClickId == a.record.payload.clickId))
    && OpenExplained(a, x.reason)
  }

  lemma EvidenceIsOn(refs: seq<string>, a: Attempt, lifecycle: map<EvidenceKey, Lifecycle>)
    ensures EvidenceOn(Map(refs, EvidenceFor(a, lifecycle)), refs, a, lifecycle)
    ensures (exists e :: e in Map(refs, EvidenceFor(a, lifecycle)) && e.lifecycle.Some?)
       <==> exists ref :: ref in refs && (a.server.tenantId, a.server.appId, ref) in lifecycle
  {
    var evidence := Map(refs, EvidenceFor(a, lifecycle));
    MapAt(refs, EvidenceFor(a, lifecycle));
    if e :| e in evidence && e.lifecycle.Some? {
      var i :| 0 <= i < |evidence| && evidence[i] == e;
      assert refs[i] in refs;
    }
    if ref :| ref in refs && (a.server.tenantId, a.server.appId, ref) in lifecycle {
      var i :| 0 <= i < |refs| && refs[i] == ref;
      assert evidence[i] in evidence;
    }
  }

  lemma InstallRowIs(env: Env, a: Attempt, accepted: seq<Attempt>, lifecycle: map<EvidenceKey, Lifecycle>)
    requires InstallVerdict(env, a, accepted).Ok? && a.record.payload.installationId.Some?
    ensures InstallRow(env, InstallAttribution(env, accepted, lifecycle)(a), a, accepted,
                       InstallVerdict(env, a, accepted).value.refs, lifecycle)
  {
    var v := InstallVerdict(env, a, accepted);
    StatusExactlyWhen(env, a, accepted);
    VerdictExplained(env, a, accepted);
    EvidenceIsOn(v.value.refs, a, lifecycle);
    OwnEvidence(env, a, accepted);
    assert v.Or(Verdict(Unattributed, "", "", "", [])) == v.value;
  }

  lemma OwnEvidence(env: Env, a: Attempt, accepted: seq<Attempt>)
    requires InstallVerdict(env, a, accepted).Ok?
    ensures a.record.recordId in InstallVerdict(env, a, accepted).value.refs
  {
  }

  lemma PostbackRowIs(a: Attempt, lifecycle: map<EvidenceKey, Lifecycle>)
    ensures PostbackRow(PostbackAttribution(lifecycle)(a), a, lifecycle)
  {
    OwnRecordOnly(a, lifecycle);
    assert PostbackAttribution(lifecycle)(a).evidence == [EvidenceFor(a, lifecycle)(a.record.recordId)];
  }

  lemma OpenStatus(a: Attempt)
    ensures DeepLinkReason(a).0 != Organic && OpenExplained(a, DeepLinkReason(a).1)
    ensures DeepLinkReason(a).0 == NonOrganic
       <==> exists link :: a.server.deepLink == Some(link) && link.status == LinkActive
                           && !(a.record.payload.deferredOpen && link.installClickId == a.record.payload.clickId)
  {
    var none := DeepLink(LinkUnknown, None, None);
    if a.server.deepLink.Some? {
      assert a.server.deepLink.Or(none) == a.server.deepLink.value;
    } else {
      assert a.server.deepLink.Or(none) == none;
    }
  }

  lemma OwnRecordOnly(a: Attempt, lifecycle: map<EvidenceKey, Lifecycle>)
    ensures EvidenceOn([EvidenceFor(a, lifecycle)(a.record.recordId)], [a.record.recordId], a, lifecycle)
  {
  }

  lemma OpenRowIs(a: Attempt, lifecycle: map<EvidenceKey, Lifecycle>)
    ensures OpenRow(OpenAttribution(lifecycle)(a), a, lifecycle)
  {
    OpenStatus(a);
    OwnRecordOnly(a, lifecycle);
    assert OpenAttribution(lifecycle)(a).status == DeepLinkReason(a).0 && OpenAttribution(lifecycle)(a).reason == DeepLinkReason(a).1;
    assert OpenAttribution(lifecycle)(a).evidence == [EvidenceFor(a, lifecycle)(a.record.recordId)];
  }

  /** The row of an accepted install, postback or deep-link open. */
  ghost predicate AttributionOf(env: Env, x: Attribution, a: Attempt, accepted: seq<Attempt>,
                                lifecycle: map<EvidenceKey, Lifecycle>) {
    match a.record.event
    case Install => exists refs :: InstallRow(env, x, a, accepted, refs, lifecycle)
    case SkanPostback => PostbackRow(x, a, lifecycle)
    case AakPostback => PostbackRow(x, a, lifecycle)
    case DeepLinkOpen => OpenRow(x, a, lifecycle)
    case _ => false
  }

  ghost predicate Attributable(a: Attempt) {
    a.record.event in {Install, SkanPostback, AakPostback, DeepLinkOpen}
  }

  function RowOf(env: Env, a: Attempt, accepted: seq<Attempt>, lifecycle: map<EvidenceKey, Lifecycle>): Attribution {
    if IsInstall(a) then InstallAttribution(env, accepted, lifecycle)(a)
    else if IsPostback(a) then PostbackAttribution(lifecycle)(a) else OpenAttribution(lifecycle)(a)
  }

  lemma SelectedImage<T, U>(xs: seq<T>, keep: T -> bool, f: T -> U, y: U)
    ensures y in Map(Filter(xs, keep), f) <==> exists x :: x in xs && keep(x) && f(x) == y
  {
    MapMember(Filter(xs, keep), f, y);
    FilterMembers(xs, keep);
  }

  lemma ThreeKinds<T, U>(xs: seq<T>, p: T -> bool, q: T -> bool, r: T -> bool, f: T -> U, g: T -> U, h: T -> U, y: U)
    ensures y in Map(Filter(xs, p), f) + Map(Filter(xs, q), g) + Map(Filter(xs, r), h)
       <==> exists x :: x in xs && ((p(x) && f(x) == y) || (q(x) && g(x) == y) || (r(x) && h(x) == y))
  {
    SelectedImage(xs, p, f, y);
    SelectedImage(xs, q, g, y);
    SelectedImage(xs, r, h, y);
  }

  lemma AttributionSource(env: Env, accepted: seq<Attempt>, lifecycle: map<EvidenceKey, Lifecycle>, x: Attribution)
    ensures x in BaseAttributions(env, accepted, lifecycle)
       <==> exists a :: a in accepted && Attributable(a) && RowOf(env, a, accepted, lifecycle) == x
  {
    var f, g, h := InstallAttribution(env, accepted, lifecycle), PostbackAttribution(lifecycle), OpenAttribution(lifecycle);
    ThreeKinds(accepted, IsInstall, IsPostback, IsOpen, f, g, h, x);
    forall a
      ensures Attributable(a) && RowOf(env, a, accepted, lifecycle) == x
         <==> (IsInstall(a) && f(a) == x) || (IsPostback(a) && g(a) == x) || (IsOpen(a) && h(a) == x)
    {
      KindRow(env, a, accepted, lifecycle);
    }
  }

  lemma KindRow(env: Env, a: Attempt, accepted: seq<Attempt>, lifecycle: map<EvidenceKey, Lifecycle>)
    ensures Attributable(a) <==> IsInstall(a) || IsPostback(a) || IsOpen(a)
    ensures IsInstall(a) ==> RowOf(env, a, accepted, lifecycle) == InstallAttribution(env, accepted, lifecycle)(a)
    ensures IsPostback(a) ==> !IsInstall(a) && RowOf(env, a, accepted, lifecycle) == PostbackAttribution(lifecycle)(a)
    ensures IsOpen(a) ==>
              !IsInstall(a) && !IsPostback(a) && RowOf(env, a, accepted, lifecycle) == OpenAttribution(lifecycle)(a)
  {
  }

  lemma RowIsAttribution(env: Env, s: seq<Attempt>, a: Attempt, lifecycle: map<EvidenceKey, Lifecycle>)
    requires Evaluable(env, s) && a in AcceptedOf(env, s) && Attributable(a)
    ensures AttributionOf(env, RowOf(env, a, AcceptedOf(env, s), lifecycle), a, AcceptedOf(env, s), lifecycle)
  {
    var accepted := AcceptedOf(env, s);
    if IsInstall(a) {
      FilterMember(accepted, IsInstall, a);
      assert AnchorRules(a, Filter(accepted, IsInstall));
      InstallRowIs(env, a, accepted, lifecycle);
    } else if IsPostback(a) {
      PostbackRowIs(a, lifecycle);
    } else {
      OpenRowIs(a, lifecycle);
    }
  }

  /** Every base attribution is the row of an accepted install, postback or open, and every one of those has its row. */
  lemma AttributionRows(env: Env, input: Input)
    requires Injective(env.digest) && Evaluate(env, input).Ok?
    ensures var accepted := AcceptedOf(env, Flatten(env, input.batches));
            && (forall a :: a in accepted <==> Accepts(env, input.batches, a))
            && (forall x :: x in Evaluate(env, input).value.attributions ==>
                  exists a :: a in accepted && Attributable(a) && AttributionOf(env, x, a, accepted, input.lifecycle))
            && (forall a :: a in accepted && Attributable(a) ==>
                  exists x :: x in Evaluate(env, input).value.attributions && AttributionOf(env, x, a, accepted, input.lifecycle))
  {
    var s := Flatten(env, input.batches);
    var accepted, attributions := AcceptedOf(env, s), Evaluate(env, input).value.attributions;
    forall a ensures a in accepted <==> Accepts(env, input.batches, a) {
      AcceptedListed(env, input.batches, a);
    }
    forall x
      ensures x in attributions
         <==> exists a :: a in accepted && Attributable(a) && RowOf(env, a, accepted, input.lifecycle) == x
    {
      SortMember(BaseAttributions(env, accepted, input.lifecycle), AttributionKey(env), x);
      AttributionSource(env, accepted, input.lifecycle, x);
    }
    forall a | a in accepted && Attributable(a)
      ensures AttributionOf(env, RowOf(env, a, accepted, input.lifecycle), a, accepted, input.lifecycle)
    {
      RowIsAttribution(env, s, a, input.lifecycle);
    }
  }

  // ---- When there is an output ----

  ghost predicate SameApp(a: Attempt, x: Attempt) {
    a.server.tenantId == x.server.tenantId && a.server.appId == x.server.appId
  }

  /** What is asked of every delivery, accepted or not. */
  ghost predicate Passes(env: Env, batches: seq<Batch>, a: Attempt) {
    var r := a.record;
    && (ImportedRecord(a) && r.payload.importContext.Some? ==>
          r.producer[7..] == r.payload.importContext.value.provider)
    && (r.event == AdRevenue && r.payload.anchorSource != None ==> |r.producer| >= 9 && r.producer[..9] == "postback:")
    && (forall p :: a.server.stale == Some(p) ==>
         p.policyDigest == env.digest(StaleArtifact(p.before, p.authority, p.version)))
    && (forall p :: a.server.injection == Some(p) ==>
          p.policyDigest == env.digest(InjectionArtifact(p.threshold, p.authority, p.version)))
    && (r.event == Refund ==>
          exists x :: Delivered(batches, x) && SameApp(a, x) && x.record.recordId == r.payload.correctionTarget)
  }

  /** Another accepted install of the application. */
  ghost predicate Anchored(a: Attempt, installs: seq<Attempt>) {
    var p := a.record.payload;
    && p.installationId != None
    && (forall x :: x in installs && SameApp(a, x) && SameInstallation(a, x) ==> x == a)
    && match p.installType
       case FirstInstall => p.priorInstallationId in {None, Some("")}
       case _ => p.priorInstallationId !in {None, Some(""), p.installationId}
                 && exists x :: x in installs && SameApp(a, x) && x.record.payload.installationId == p.priorInstallationId
  }

  lemma PassesIsChecked(env: Env, batches: seq<Batch>, a: Attempt, s: seq<Attempt>)
    requires forall x :: x in s <==> Delivered(batches, x)
    ensures Passes(env, batches, a)
       <==> ProviderMatches(a) && AnchorSourceAllowed(a) && PoliciesConsistent(env, a) && RefundTargetExists(a, s)
  {
    if ImportedRecord(a) {
      assert a.record.producer == "import:" + a.record.producer[7..];
    }
    assert ImportedRecord(a) <==> IsImported(a);
    if a.record.payload.importContext.Some? {
      var provider := a.record.payload.importContext.value.provider;
      assert ("import:" + provider)[7..] == provider;
    }
  }
  lemma AnchorsAreAnchored(installs: seq<Attempt>)
    requires forall a :: a in installs ==> multiset(installs)[a] == 1
    ensures AnchorsHold(installs) <==> forall a :: a in installs ==> Anchored(a, installs)
  {
    if forall a :: a in installs ==> a.record.payload.installationId.Some? {
      forall a | a in installs ensures AnchorRules(a, installs) <==> Anchored(a, installs) {
        AnchorIsAnchored(a, installs);
      }
    } else {
      var a :| a in installs && a.record.payload.installationId.None?;
      assert !AnchorRules(a, installs) && !Anchored(a, installs);
    }
  }

  ghost predicate SameInstallation(a: Attempt, x: Attempt) {
    a.record.payload.installationId == x.record.payload.installationId
  }

  lemma AtMostOne<T>(xs: seq<T>, keep: T -> bool, x: T)
    requires x in xs && keep(x) && multiset(xs)[x] == 1
    ensures |Filter(xs, keep)| == 1 <==> forall y :: y in xs && keep(y) ==> y == x
  {
    if forall y :: y in xs && keep(y) ==> y == x {
      FilterCounts(xs, keep, x);
    } else {
      var y :| y in xs && keep(y) && y != x;
      if |Filter(xs, keep)| == 1 {
        OnlyOneKept(xs, keep, x, y);
      }
    }
  }

  lemma OwnInstallation(a: Attempt, installs: seq<Attempt>)
    requires a in installs && multiset(installs)[a] == 1
    requires forall x :: x in installs ==> x.record.payload.installationId.Some?
    ensures multiset(Map(installs, InstallKey))[InstallKey(a)] == 1
       <==> forall x :: x in installs && SameApp(a, x) && SameInstallation(a, x) ==> x == a
  {
    MetricOrder.InstallationCount(installs, a);
    AtMostOne(installs, Metrics.InstallationOf(a), a);
    forall x ensures Metrics.InstallationOf(a)(x) <==> SameApp(a, x) && SameInstallation(a, x) {
      InstallationIs(a, x);
    }
  }

  lemma InstallationIs(a: Attempt, x: Attempt)
    ensures Metrics.InstallationOf(a)(x) <==> SameApp(a, x) && SameInstallation(a, x)
  {
  }

  lemma AnchorIsAnchored(a: Attempt, installs: seq<Attempt>)
    requires a in installs && multiset(installs)[a] == 1
    requires forall x :: x in installs ==> x.record.payload.installationId.Some?
    ensures AnchorRules(a, installs) <==> Anchored(a, installs)
  {
    OwnInstallation(a, installs);
    var prior := a.record.payload.priorInstallationId;
    assert prior !in {None, Some("")} <==> Given(prior);
    if Given(prior) {
      forall c | c in installs
        ensures InstallKey(c) == (a.server.tenantId, a.server.appId, prior.value)
           <==> SameApp(a, c) && c.record.payload.installationId == prior
      {
      }
    }
  }

  /**
   There is an output exactly when every delivery passes its checks, every accepted install is anchored, and every one
   of them has a status.
   */
  lemma EvaluatesExactlyWhen(env: Env, input: Input)
    requires Injective(env.digest)
    ensures Evaluate(env, input).Ok?
       <==> && (forall a :: Delivered(input.batches, a) ==> Passes(env, input.batches, a))
            && InstallsStand(env, AcceptedOf(env, Flatten(env, input.batches)))
  {
    ChecksAre(env, input.batches);
    InstallsAre(env, input.batches);
    EvaluatedWhenEvaluable(env, input);
  }

  /** Every accepted install is anchored and has a status. */
  ghost predicate InstallsStand(env: Env, accepted: seq<Attempt>) {
    forall a :: a in accepted && a.record.event == Install ==>
      Anchored(a, Filter(accepted, IsInstall)) && !Uncomputable(env, a, accepted)
  }

  lemma EvaluatedWhenEvaluable(env: Env, input: Input)
    ensures Evaluate(env, input).Ok? <==> Evaluable(env, Flatten(env, input.batches))
  {
  }

  lemma InstallsAre(env: Env, batches: seq<Batch>)
    requires Injective(env.digest)
    ensures var accepted := AcceptedOf(env, Flatten(env, batches));
            AnchorsHold(Filter(accepted, IsInstall)) && VerdictsExist(env, accepted) <==> InstallsStand(env, accepted)
  {
    var accepted := AcceptedOf(env, Flatten(env, batches));
    FilterMembers(accepted, IsInstall);
    InstallsOnce(env, batches);
    AnchorsAreAnchored(Filter(accepted, IsInstall));
    VerdictsAre(env, accepted);
  }

  lemma InstallsOnce(env: Env, batches: seq<Batch>)
    requires Injective(env.digest)
    ensures var installs := Filter(AcceptedOf(env, Flatten(env, batches)), IsInstall);
            forall a :: a in installs ==> multiset(installs)[a] == 1
  {
    var accepted := AcceptedOf(env, Flatten(env, batches));
    FilterMembers(accepted, IsInstall);
    forall a | a in Filter(accepted, IsInstall) ensures multiset(Filter(accepted, IsInstall))[a] == 1 {
      AcceptedOnce(env, batches, a);
      FilterCount(accepted, IsInstall, a);
    }
  }

  lemma VerdictsAre(env: Env, accepted: seq<Attempt>)
    ensures VerdictsExist(env, accepted)
       <==> forall a :: a in accepted && a.record.event == Install ==> !Uncomputable(env, a, accepted)
  {
    forall a ensures InstallVerdict(env, a, accepted).Err? <==> Uncomputable(env, a, accepted) {
      StatusExactlyWhen(env, a, accepted);
    }
  }

  lemma ChecksAre(env: Env, batches: seq<Batch>)
    ensures ChecksPass(env, Flatten(env, batches)) <==> forall a :: Delivered(batches, a) ==> Passes(env, batches, a)
  {
    var s := Flatten(env, batches);
    forall a ensures a in s <==> Delivered(batches, a) {
      SortMember(RawAttempts(batches), AttemptKey(env), a);
      RawAttemptsMean(batches, a);
    }
    forall a
      ensures Passes(env, batches, a)
         <==> ProviderMatches(a) && AnchorSourceAllowed(a) && PoliciesConsistent(env, a) && RefundTargetExists(a, s)
    {
      PassesIsChecked(env, batches, a, s);
    }
  }

  lemma AcceptedOnce(env: Env, batches: seq<Batch>, a: Attempt)
    requires Injective(env.digest) && a in AcceptedOf(env, Flatten(env, batches))
    ensures multiset(AcceptedOf(env, Flatten(env, batches)))[a] == 1
  {
    var s := Flatten(env, batches);
    AcceptedListed(env, batches, a);
    FilterMember(s, AcceptedUnique(env, s), a);
    FilterCount(s, AcceptedUnique(env, s), a);
    SortPermutes(RawAttempts(batches), AttemptKey(env));
  }

  // ---- The order of the rows ----

  /** The rows never go back in their listed texts. */
  ghost predicate InOrder<T>(rows: seq<T>, texts: T -> seq<string>) {
    forall i, j :: 0 <= i < j < |rows| ==> !PartsBefore(texts(rows[j]), texts(rows[i]))
  }

  lemma PrefixOrder(p: seq<string>, q: seq<string>, d: string, e: string)
    requires KeyLe(KeyOf(p + [d]), KeyOf(q + [e])) && |p| == |q|
    ensures !PartsBefore(q, p)
  {
    KeyOrderMeans(q, p);
    if PartsBefore(q, p) {
      LongerBefore(q, p, [e], [d]);
      KeyOrderMeans(q + [e], p + [d]);
      KeyTotal(KeyOf(p + [d]), KeyOf(q + [e]));
      KeyOfInjective(p + [d], q + [e]);
    }
  }

  lemma LongerBefore(q: seq<string>, p: seq<string>, s: seq<string>, t: seq<string>)
    requires PartsBefore(q, p) && |q| == |p|
    ensures PartsBefore(q + s, p + t)
  {
    var k: nat :| k <= |q| && k < |p| && q[..k] == p[..k] && (k == |q| || TextBefore(q[k], p[k]));
    assert (q + s)[..k] == q[..k] && (p + t)[..k] == p[..k];
  }

  lemma OrderFromKeys<T>(rows: seq<T>, key: T -> Key, texts: T -> seq<string>, last: T -> string)
    requires Sorted(rows, key) && forall x :: key(x) == KeyOf(texts(x) + [last(x)])
    requires forall x, y :: |texts(x)| == |texts(y)|
    ensures InOrder(rows, texts)
  {
    forall i, j | 0 <= i < j < |rows| ensures !PartsBefore(texts(rows[j]), texts(rows[i])) {
      PrefixOrder(texts(rows[i]), texts(rows[j]), last(rows[i]), last(rows[j]));
    }
  }

  function DeliveryTexts(): Delivery -> seq<string> { (d: Delivery) => [d.deliveryId, d.recordId, d.tenantId, d.appId] }
  function RejectionTexts(): Rejection -> seq<string> {
    (r: Rejection) => [r.deliveryId, r.recordId, r.tenantId, r.appId]
  }
  function RawTexts(): RawRecord -> seq<string> { (r: RawRecord) => [r.recordId, r.tenantId, r.appId, r.deliveryId] }
  function LogicalTexts(): LogicalEvent -> seq<string> { (l: LogicalEvent) => [l.logicalEventId, l.tenantId, l.appId] }
  function AttributionTexts(): Attribution -> seq<string> { (x: Attribution) => [x.id, x.tenantId, x.appId] }

  /**
   Deliveries and rejections stand by delivery and record ID, raw records by record ID, the others by their own ID.
   */
  lemma OutputsInOrder(env: Env, input: Input)
    requires Evaluate(env, input).Ok?
    ensures InOrder(Evaluate(env, input).value.deliveries, DeliveryTexts())
    ensures InOrder(Evaluate(env, input).value.rejections, RejectionTexts())
    ensures InOrder(Evaluate(env, input).value.raw, RawTexts())
    ensures InOrder(Evaluate(env, input).value.logical, LogicalTexts())
    ensures InOrder(Evaluate(env, input).value.attributions, AttributionTexts())
  {
    var s, out := Flatten(env, input.batches), Evaluate(env, input).value;
    var decide := DecisionOf(env, s);
    SortSorted(Sort(Map(s, DeliveryFor(decide)), DeliveryKey(env)) + Map(input.preRejections, PreDelivery),
               DeliveryKey(env));
    OrderFromKeys(out.deliveries, DeliveryKey(env), DeliveryTexts(), (d: Delivery) => env.digest(DeliveryArtifact(d)));
    SortSorted(Map(Filter(s, RejectedBy(decide)), RejectionFor(decide)) + Map(input.preRejections, PreRejected),
               RejectionKey(env));
    OrderFromKeys(out.rejections, RejectionKey(env), RejectionTexts(),
                  (r: Rejection) => env.digest(RejectionArtifact(r)));
    LedgerInOrder(env, s, input.lifecycle);
  }

  lemma LedgerInOrder(env: Env, s: seq<Attempt>, lifecycle: map<EvidenceKey, Lifecycle>)
    ensures InOrder(RawOf(env, s, lifecycle), RawTexts())
    ensures InOrder(LogicalOf(env, s, lifecycle), LogicalTexts())
    ensures InOrder(AttributionsOf(env, s, lifecycle), AttributionTexts())
  {
    var accepted, conflicts := AcceptedOf(env, s), ConflictsOf(env, s);
    var kept := Evaluation.Retained(lifecycle);
    SortSorted(Map(Filter(accepted + conflicts, kept), RawRecordFor(env)), RawKey(env));
    OrderFromKeys(RawOf(env, s, lifecycle), RawKey(env), RawTexts(), (r: RawRecord) => env.digest(RawArtifact(r)));
    SortSorted(Map(Filter(accepted, kept), LogicalFor), LogicalKey(env));
    OrderFromKeys(LogicalOf(env, s, lifecycle), LogicalKey(env), LogicalTexts(),
                  (l: LogicalEvent) => env.digest(LogicalArtifact(l)));
    SortSorted(BaseAttributions(env, accepted, lifecycle), AttributionKey(env));
    OrderFromKeys(AttributionsOf(env, s, lifecycle), AttributionKey(env), AttributionTexts(),
                  (x: Attribution) => env.digest(AttributionArtifact(x)));
  }
}
