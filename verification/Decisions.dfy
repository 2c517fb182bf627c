/** Per-delivery decisions: consent, duplicates, rejection reasons. */
module Decisions {
  import opened Outcomes
  import opened Contract
  import opened Sequences
  import opened CanonicalOrder

  type ScopeKey = (string, string, string, string)

  function Scope(a: Attempt): (string, string) {
    (a.server.tenantId, a.server.appId)
  }

  function EventScope(a: Attempt): ScopeKey {
    (a.server.tenantId, a.server.appId, a.record.producer, a.record.eventId)
  }

  function EvidenceOf(a: Attempt): EvidenceKey {
    (a.server.tenantId, a.server.appId, a.record.recordId)
  }

  function AttemptKey(env: Env): Attempt -> Key {
    (a: Attempt) => KeyOf([
      a.record.receivedAt, a.record.recordId, a.record.deliveryId, a.server.tenantId, a.server.appId,
      a.record.schemaVersion, env.digest(RecordArtifact(a.record))])
  }

  /** Attempts that tie on the whole sort key carry one record in one scope; only batch and context may differ. */
  lemma AttemptKeyTies(env: Env, a: Attempt, b: Attempt)
    requires Injective(env.digest) && AttemptKey(env)(a) == AttemptKey(env)(b)
    ensures a.record == b.record && Scope(a) == Scope(b)
  {
    var p := [a.record.receivedAt, a.record.recordId, a.record.deliveryId, a.server.tenantId, a.server.appId,
              a.record.schemaVersion, env.digest(RecordArtifact(a.record))];
    var q := [b.record.receivedAt, b.record.recordId, b.record.deliveryId, b.server.tenantId, b.server.appId,
              b.record.schemaVersion, env.digest(RecordArtifact(b.record))];
    KeyOfInjective(p, q);
    assert p[3] == q[3] && p[4] == q[4] && p[6] == q[6];
  }

  // ---- Consent ----

  function FindBasis(env: Env, bases: seq<LegalBasis>, record: Record): Result<Option<LegalBasis>> {
    if bases == [] then Ok(None)
    else if record.basisId == Some(bases[0].id) && record.purposeId == Some(bases[0].purposeId) then
      match (env.parse(bases[0].effectiveAt), env.parse(record.receivedAt))
      case (Some(effective), Some(received)) =>
        if effective <= received then Ok(Some(bases[0])) else FindBasis(env, bases[1..], record)
      case _ => Err
    else FindBasis(env, bases[1..], record)
  }

  function PurposeOf(a: Attempt): Option<Purpose> {
    FindFirst(a.server.purposes, (p: Purpose) => a.record.purposeId == Some(p.id))
  }

  function WithdrawalOf(a: Attempt): Option<Withdrawal> {
    FindFirst(a.server.withdrawals, (w: Withdrawal) => a.record.purposeId == Some(w.purposeId))
  }

  predicate ConsentExempt(a: Attempt) {
    !Given(a.record.purposeId) || PurposeOf(a).None? || !PurposeOf(a).value.consentRequired
    || a.record.event.ConsentChanged? || a.record.event.PrivacyControl?
  }

  predicate BeforeWithdrawal(a: Attempt) {
    WithdrawalOf(a).None? || a.record.processingSequence < WithdrawalOf(a).value.recognizedSequence
  }

  function PolicyVersionOf(a: Attempt): string {
    if PurposeOf(a).Some? then PurposeOf(a).value.policyVersion else "not-applicable"
  }

  function PurposeGiven(a: Attempt): Option<string> {
    if Given(a.record.purposeId) then a.record.purposeId else None
  }

  /** The trace of the consent decision and whether it allows processing; Err when a timestamp it needs is invalid. */
  function ConsentDecision(env: Env, a: Attempt): Result<(bool, ConsentTrace)> {
    var w := WithdrawalOf(a);
    var base := ConsentTrace(PolicyVersionOf(a), PurposeGiven(a),
                             if w.Some? then Some(w.value.recognizedAt) else None, ConsentNotRequired, None, None);
    if ConsentExempt(a) then Ok((true, base))
    else if BeforeWithdrawal(a) then Ok((true, base.(reason := ValidBeforeWithdrawal)))
    else
      var basis :- FindBasis(env, a.server.bases, a.record);
      if basis.Some? then
        Ok((true, base.(reason := DocumentedBasis, basisId := Some(basis.value.id),
                        basisVersion := Some(basis.value.policyVersion))))
      else Ok((false, base.(reason := ConsentWithdrawn)))
  }

  // ---- Duplicates ----

  function SameRecordId(a: Attempt): Attempt -> bool {
    (x: Attempt) => x.record.recordId == a.record.recordId
  }

  function SameEvent(a: Attempt): Attempt -> bool {
    (x: Attempt) => EventScope(x) == EventScope(a)
  }

  function FirstDelivery(a: Attempt, attempts: seq<Attempt>): Attempt {
    var matches := Filter(attempts, SameEvent(a));
    if matches == [] then a else matches[0]
  }

  // The source compares the first match by identity. A record ID that occurs once names one attempt, and the
  // collision test comes first, so comparing values is the same test.
  function DuplicateOf(env: Env, a: Attempt, attempts: seq<Attempt>): Duplicate {
    var first := FirstDelivery(a, attempts);
    if |Filter(attempts, SameRecordId(a))| > 1 then RecordIdCollision
    else if first == a then Unique
    else if env.digest(PayloadArtifact(first.record.payload)) == env.digest(PayloadArtifact(a.record.payload))
    then DuplicateDelivery
    else EventIdConflict
  }

  // ---- The decision ----

  /** The first reason that rejects the attempt, in the order the evaluator tests them. */
  function RejectionReason(env: Env, a: Attempt, duplicate: Duplicate, allowed: bool): Result<Option<Reason>> {
    if a.record.tenantId != a.server.tenantId || a.record.appId != a.server.appId then Ok(Some(ScopeMismatch))
    else if duplicate == RecordIdCollision then Ok(Some(RecordIdCollided))
    else if !allowed then Ok(Some(Withdrawn))
    else
      var stale :- IsStale(env, a);
      if stale then Ok(Some(Stale))
      else if a.record.aggregateSubject && Given(a.record.payload.installationId) then Ok(Some(AggregateJoin))
      else if duplicate == EventIdConflict then Ok(Some(EventIdConflicted))
      else Ok(None)
  }

  function IsStale(env: Env, a: Attempt): Result<bool> {
    if a.server.stale.None? then Ok(false)
    else match (env.parse(a.record.occurredAt), env.parse(a.server.stale.value.before))
      case (Some(occurred), Some(before)) => Ok(occurred < before)
      case _ => Err
  }

  const FIVE_MINUTES_MS := 300_000

  function Decide(env: Env, a: Attempt, attempts: seq<Attempt>): Result<Decision> {
    var duplicate := DuplicateOf(env, a, attempts);
    var consent :- ConsentDecision(env, a);
    var reason :- RejectionReason(env, a, duplicate, consent.0);
    match (env.parse(a.record.occurredAt), env.parse(a.record.receivedAt))
    case (Some(occurred), Some(received)) =>
      Ok(Decision(
        if reason.Some? then Rejected else Accepted, duplicate, a.record.late,
        occurred > received + FIVE_MINUTES_MS,
        if reason.Some? && reason.value != EventIdConflicted then Discarded else Protected,
        CanonicalRecord(a, duplicate, attempts), reason, consent.1,
        if reason == Some(Stale) then a.server.stale else None))
    case _ => Err
  }

  function CanonicalRecord(a: Attempt, duplicate: Duplicate, attempts: seq<Attempt>): Option<string> {
    var id := if duplicate == Unique then a.record.recordId else FirstDelivery(a, attempts).record.recordId;
    if duplicate == RecordIdCollision || id == "" then None else Some(id)
  }

  function InvalidTimestamp(a: Attempt): Decision {
    var w := WithdrawalOf(a);
    var reason := if ConsentExempt(a) then ConsentNotRequired
                  else if BeforeWithdrawal(a) then ValidBeforeWithdrawal else ConsentWithdrawn;
    Decision(Rejected, Unique, false, false, Discarded, None, Some(TimestampInvalid),
             ConsentTrace(PolicyVersionOf(a), PurposeGiven(a),
                          if w.Some? && w.value.recognizedAt != "" then Some(w.value.recognizedAt) else None,
                          reason, None, None),
             None)
  }

  /** The decision an attempt ends up with: an invalid timestamp turns into a rejection of that attempt alone. */
  function DecisionOf(env: Env, attempts: seq<Attempt>): Attempt -> Decision {
    (a: Attempt) => Decide(env, a, attempts).Or(InvalidTimestamp(a))
  }

  function AcceptedUnique(env: Env, attempts: seq<Attempt>): Attempt -> bool {
    (a: Attempt) => DecisionOf(env, attempts)(a).status.Accepted? && DecisionOf(env, attempts)(a).duplicate.Unique?
  }

  function Conflicting(env: Env, attempts: seq<Attempt>): Attempt -> bool {
    (a: Attempt) => DecisionOf(env, attempts)(a).reason == Some(EventIdConflicted)
  }

  /** A decision reads the other attempts only through the record-ID count and the first delivery of the event. */
  lemma DecisionDependsOn(env: Env, a: Attempt, s: seq<Attempt>, t: seq<Attempt>)
    requires |Filter(s, SameRecordId(a))| > 1 <==> |Filter(t, SameRecordId(a))| > 1
    requires FirstDelivery(a, s).record == FirstDelivery(a, t).record
    requires |Filter(s, SameRecordId(a))| > 1 || (FirstDelivery(a, s) == a <==> FirstDelivery(a, t) == a)
    ensures DecisionOf(env, s)(a) == DecisionOf(env, t)(a)
    ensures AcceptedUnique(env, s)(a) == AcceptedUnique(env, t)(a)
    ensures Conflicting(env, s)(a) == Conflicting(env, t)(a)
  {
    SameDuplicate(env, a, s, t);
    assert Decide(env, a, s) == Decide(env, a, t);
  }

  lemma SameDuplicate(env: Env, a: Attempt, s: seq<Attempt>, t: seq<Attempt>)
    requires |Filter(s, SameRecordId(a))| > 1 <==> |Filter(t, SameRecordId(a))| > 1
    requires FirstDelivery(a, s).record == FirstDelivery(a, t).record
    requires |Filter(s, SameRecordId(a))| > 1 || (FirstDelivery(a, s) == a <==> FirstDelivery(a, t) == a)
    ensures DuplicateOf(env, a, s) == DuplicateOf(env, a, t)
    ensures CanonicalRecord(a, DuplicateOf(env, a, s), s) == CanonicalRecord(a, DuplicateOf(env, a, t), t)
  {
  }

  /** No attempt whose record ID occurs twice is accepted, wherever the other occurrence is. */
  lemma CollisionRejected(env: Env, a: Attempt, attempts: seq<Attempt>)
    requires |Filter(attempts, SameRecordId(a))| > 1
    ensures DecisionOf(env, attempts)(a).status == Rejected
    ensures DecisionOf(env, attempts)(a).reason in {Some(ScopeMismatch), Some(RecordIdCollided), Some(TimestampInvalid)}
  {
    assert DuplicateOf(env, a, attempts) == RecordIdCollision;
  }

  lemma KeptDoesNotCollide(env: Env, a: Attempt, attempts: seq<Attempt>)
    requires AcceptedUnique(env, attempts)(a) || Conflicting(env, attempts)(a)
    ensures |Filter(attempts, SameRecordId(a))| <= 1
  {
    if |Filter(attempts, SameRecordId(a))| > 1 {
      CollisionRejected(env, a, attempts);
    }
  }

  lemma AcceptedMeans(env: Env, a: Attempt, attempts: seq<Attempt>)
    requires AcceptedUnique(env, attempts)(a)
    ensures Decide(env, a, attempts).Ok? && DuplicateOf(env, a, attempts) == Unique
    ensures FirstDelivery(a, attempts) == a && |Filter(attempts, SameRecordId(a))| <= 1
  {
    var decided := Decide(env, a, attempts);
    assert DecisionOf(env, attempts)(a) == decided.Or(InvalidTimestamp(a));
    assert decided.Ok?;
    assert decided.value.duplicate == DuplicateOf(env, a, attempts);
  }

  /** At most one position per event scope is accepted as the unique delivery. */
  lemma UniquePerEvent(env: Env, attempts: seq<Attempt>, i: nat, j: nat)
    requires i < |attempts| && j < |attempts| && EventScope(attempts[i]) == EventScope(attempts[j])
    requires AcceptedUnique(env, attempts)(attempts[i]) && AcceptedUnique(env, attempts)(attempts[j])
    ensures i == j
  {
    var a, b := attempts[i], attempts[j];
    FilterAgree(attempts, SameEvent(a), SameEvent(b));
    FilterMember(attempts, SameEvent(a), a);
    AcceptedMeans(env, a, attempts);
    AcceptedMeans(env, b, attempts);
    if i != j {
      FilterTwo(attempts, SameRecordId(a), if i < j then i else j, if i < j then j else i);
    }
  }
}
