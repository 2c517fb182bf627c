/** What each delivery's decision means, said of the texts and times of the input and not of the steps that decide. */
module Acceptance {
  import opened Outcomes
  import opened Contract
  import opened Sequences
  import opened CanonicalOrder
  import opened TextOrder
  import opened Decisions
  import opened Evaluation
  import opened Meaning

  // ---- Which delivery of an event is first ----

  /** Received at a text that comes first or, at the same one, with the record ID that comes first. */
  ghost predicate ReceivedBefore(a: Attempt, x: Attempt) {
    || TextBefore(a.record.receivedAt, x.record.receivedAt)
    || (a.record.receivedAt == x.record.receivedAt && TextBefore(a.record.recordId, x.record.recordId))
  }

  ghost predicate OneEvent(a: Attempt, x: Attempt) {
    && a.server.tenantId == x.server.tenantId && a.server.appId == x.server.appId
    && a.record.producer == x.record.producer && a.record.eventId == x.record.eventId
  }

  /** Every other delivery of the event was received later. */
  ghost predicate ReceivedFirst(a: Attempt, raw: seq<Attempt>) {
    forall x :: x in raw && OneEvent(a, x) && x != a ==> ReceivedBefore(a, x)
  }

  lemma PartsDiffer(p: seq<string>, q: seq<string>)
    requires |p| == |q| > 1 && p[..2] != q[..2]
    ensures PartsBefore(p, q) <==> TextBefore(p[0], q[0]) || (p[0] == q[0] && TextBefore(p[1], q[1]))
  {
    TextBeforeIrreflexive();
    PrecedesStep(p, q, TextBefore);
    PrecedesStep(p[1..], q[1..], TextBefore);
    assert p[..2] == [p[0], p[1]] && q[..2] == [q[0], q[1]];
  }

  lemma KeyOrderIsReceipt(env: Env, a: Attempt, x: Attempt)
    requires a.record.recordId != x.record.recordId
    ensures KeyLe(AttemptKey(env)(a), AttemptKey(env)(x)) <==> ReceivedBefore(a, x)
  {
    var p := [a.record.receivedAt, a.record.recordId, a.record.deliveryId, a.server.tenantId, a.server.appId,
              a.record.schemaVersion, env.digest(RecordArtifact(a.record))];
    var q := [x.record.receivedAt, x.record.recordId, x.record.deliveryId, x.server.tenantId, x.server.appId,
              x.record.schemaVersion, env.digest(RecordArtifact(x.record))];
    assert p[1] != q[1] && p[..2][1] == p[1] && q[..2][1] == q[1];
    KeyOrderMeans(p, q);
    PartsDiffer(p, q);
  }

  lemma EarliestIsReceivedFirst(env: Env, a: Attempt, raw: seq<Attempt>)
    requires OnlyRecord(a, raw)
    ensures EarliestOfEvent(env, a, raw) <==> ReceivedFirst(a, raw)
  {
    forall x | x in raw && x != a ensures KeyLe(AttemptKey(env)(a), AttemptKey(env)(x)) <==> ReceivedBefore(a, x) {
      KeyOrderIsReceipt(env, a, x);
    }
    KeyTotal(AttemptKey(env)(a), AttemptKey(env)(a));
  }

  // ---- Consent ----

  /** The first element with the property. */
  ghost predicate FirstWith<T>(xs: seq<T>, p: T -> bool, x: T) {
    exists i :: 0 <= i < |xs| && xs[i] == x && p(x) && forall j :: 0 <= j < i ==> !p(xs[j])
  }

  lemma {:induction false} FindFirstMeans<T>(xs: seq<T>, p: T -> bool)
    ensures FindFirst(xs, p).None? <==> forall x :: x in xs ==> !p(x)
    ensures FindFirst(xs, p).Some? ==> FirstWith(xs, p, FindFirst(xs, p).value)
  {
    if xs != [] {
      FindFirstMeans(xs[1..], p);
      assert xs == [xs[0]] + xs[1..];
      if !p(xs[0]) && FindFirst(xs, p).Some? {
        var x := FindFirst(xs, p).value;
        var i :| 0 <= i < |xs[1..]| && xs[1..][i] == x && p(x) && forall j :: 0 <= j < i ==> !p(xs[1..][j]);
        assert xs[i + 1] == x && forall j :: 0 <= j < i + 1 ==> !p(xs[j]) by {
          assert forall j :: 0 < j < i + 1 ==> xs[j] == xs[1..][j - 1];
        }
      }
    }
  }

  lemma OneFirst<T>(xs: seq<T>, p: T -> bool, x: T, y: T)
    requires FirstWith(xs, p, x) && FirstWith(xs, p, y)
    ensures x == y
  {
    var i :| 0 <= i < |xs| && xs[i] == x && p(x) && forall j :: 0 <= j < i ==> !p(xs[j]);
    var k :| 0 <= k < |xs| && xs[k] == y && p(y) && forall j :: 0 <= j < k ==> !p(xs[j]);
    assert i == k;
  }

  function ForPurpose(id: string): Purpose -> bool { (p: Purpose) => p.id == id }
  function Withdraws(id: string): Withdrawal -> bool { (w: Withdrawal) => w.purposeId == id }

  /** The purpose the record names asks for consent; consent changes and privacy controls are processed without. */
  ghost predicate AsksConsent(a: Attempt) {
    && !(a.record.event == ConsentChanged || a.record.event == PrivacyControl)
    && exists id: string, p: Purpose :: id != "" && a.record.purposeId == Some(id) && p.consentRequired
         && FirstWith(a.server.purposes, ForPurpose(id), p)
  }

  /** The withdrawal of the record's purpose was recognized at or before the record in processing order. */
  ghost predicate CameAfterWithdrawal(a: Attempt) {
    exists id: string, w: Withdrawal :: a.record.purposeId == Some(id) && FirstWith(a.server.withdrawals, Withdraws(id), w)
      && w.recognizedSequence <= a.record.processingSequence
  }

  /** The basis the record names, for its purpose. */
  ghost predicate NamedBasis(b: LegalBasis, r: Record) {
    r.basisId == Some(b.id) && r.purposeId == Some(b.purposeId)
  }

  ghost predicate Covers(env: Env, b: LegalBasis, r: Record) {
    NamedBasis(b, r) && match (env.parse(b.effectiveAt), env.parse(r.receivedAt))
                        case (Some(from), Some(at)) => from <= at
                        case _ => false
  }

  ghost predicate BasisCovers(env: Env, bases: seq<LegalBasis>, r: Record) {
    exists b :: b in bases && Covers(env, b, r)
  }

  /** A named basis without a valid time stands behind one that covers the record. */
  ghost predicate BasesDated(env: Env, bases: seq<LegalBasis>, r: Record) {
    forall i :: 0 <= i < |bases| && NamedBasis(bases[i], r) && env.parse(bases[i].effectiveAt).None? ==>
      exists j :: 0 <= j < i && Covers(env, bases[j], r)
  }

  ghost predicate ConsentRefuses(env: Env, a: Attempt) {
    AsksConsent(a) && CameAfterWithdrawal(a) && !BasisCovers(env, a.server.bases, a.record)
  }

  ghost predicate ConsentDated(env: Env, a: Attempt) {
    AsksConsent(a) && CameAfterWithdrawal(a) ==> BasesDated(env, a.server.bases, a.record)
  }

  lemma DatedTail(env: Env, bases: seq<LegalBasis>, r: Record)
    requires bases != [] && !Covers(env, bases[0], r)
    ensures BasesDated(env, bases, r)
       <==> !(NamedBasis(bases[0], r) && env.parse(bases[0].effectiveAt).None?) && BasesDated(env, bases[1..], r)
  {
    var tail := bases[1..];
    assert forall i :: 0 <= i < |tail| ==> tail[i] == bases[i + 1];
    if BasesDated(env, bases, r) {
      forall i | 0 <= i < |tail| && NamedBasis(tail[i], r) && env.parse(tail[i].effectiveAt).None?
        ensures exists j :: 0 <= j < i && Covers(env, tail[j], r)
      {
        assert NamedBasis(bases[i + 1], r);
        var j :| 0 <= j < i + 1 && Covers(env, bases[j], r);
        assert tail[j - 1] == bases[j];
      }
    }
    if BasesDated(env, tail, r) {
      forall i | 0 < i < |bases| && NamedBasis(bases[i], r) && env.parse(bases[i].effectiveAt).None?
        ensures exists j :: 0 <= j < i && Covers(env, bases[j], r)
      {
        assert tail[i - 1] == bases[i];
        var j :| 0 <= j < i - 1 && Covers(env, tail[j], r);
        assert Covers(env, bases[j + 1], r);
      }
    }
  }

  lemma {:induction false} FindBasisMeans(env: Env, bases: seq<LegalBasis>, r: Record)
    requires env.parse(r.receivedAt).Some?
    ensures FindBasis(env, bases, r).Ok? <==> BasesDated(env, bases, r)
    ensures FindBasis(env, bases, r).Ok? ==> (FindBasis(env, bases, r).value.Some? <==> BasisCovers(env, bases, r))
  {
    if bases != [] {
      FindBasisMeans(env, bases[1..], r);
      assert bases == [bases[0]] + bases[1..];
      if Covers(env, bases[0], r) {
        assert bases[0] in bases;
        forall i | 0 <= i < |bases| && NamedBasis(bases[i], r) && env.parse(bases[i].effectiveAt).None?
          ensures exists j :: 0 <= j < i && Covers(env, bases[j], r)
        {
          assert i > 0;
        }
      } else {
        DatedTail(env, bases, r);
      }
    }
  }

  lemma AsksConsentMeans(a: Attempt)
    ensures AsksConsent(a) <==> !ConsentExempt(a)
  {
    if a.record.purposeId.Some? {
      var id := a.record.purposeId.value;
      FindFirstMeans(a.server.purposes, ForPurpose(id));
      FindSame(a.server.purposes, ForPurpose(id), (p: Purpose) => a.record.purposeId == Some(p.id));
      assert PurposeOf(a) == FindFirst(a.server.purposes, ForPurpose(id));
      if PurposeOf(a).Some? {
        forall p | FirstWith(a.server.purposes, ForPurpose(id), p) ensures p == PurposeOf(a).value {
          OneFirst(a.server.purposes, ForPurpose(id), p, PurposeOf(a).value);
        }
      }
    }
  }

  lemma {:induction false} FindSame<T>(xs: seq<T>, p: T -> bool, q: T -> bool)
    requires forall x :: p(x) == q(x)
    ensures FindFirst(xs, p) == FindFirst(xs, q)
  {
    if xs != [] {
      FindSame(xs[1..], p, q);
    }
  }

  lemma AfterWithdrawalMeans(a: Attempt)
    ensures CameAfterWithdrawal(a) <==> !BeforeWithdrawal(a)
  {
    if a.record.purposeId.Some? {
      var id := a.record.purposeId.value;
      FindFirstMeans(a.server.withdrawals, Withdraws(id));
      FindSame(a.server.withdrawals, Withdraws(id), (w: Withdrawal) => a.record.purposeId == Some(w.purposeId));
      assert WithdrawalOf(a) == FindFirst(a.server.withdrawals, Withdraws(id));
      if WithdrawalOf(a).Some? {
        forall w | FirstWith(a.server.withdrawals, Withdraws(id), w) ensures w == WithdrawalOf(a).value {
          OneFirst(a.server.withdrawals, Withdraws(id), w, WithdrawalOf(a).value);
        }
      }
    } else {
      NoneFound(a.server.withdrawals, (w: Withdrawal) => a.record.purposeId == Some(w.purposeId));
    }
  }

  lemma {:induction false} NoneFound<T>(xs: seq<T>, p: T -> bool)
    requires forall x :: !p(x)
    ensures FindFirst(xs, p).None?
  {
    if xs != [] {
      NoneFound(xs[1..], p);
    }
  }

  ghost predicate ReasonTraced(env: Env, a: Attempt, reason: ConsentReason) {
    match reason
    case ConsentNotRequired => !AsksConsent(a)
    case ValidBeforeWithdrawal => AsksConsent(a) && !CameAfterWithdrawal(a)
    case DocumentedBasis => AsksConsent(a) && CameAfterWithdrawal(a) && BasisCovers(env, a.server.bases, a.record)
    case ConsentWithdrawn => ConsentRefuses(env, a)
  }

  lemma ConsentMeans(env: Env, a: Attempt)
    requires env.parse(a.record.receivedAt).Some?
    ensures ConsentDecision(env, a).Ok? <==> ConsentDated(env, a)
    ensures ConsentDecision(env, a).Ok? ==> (ConsentDecision(env, a).value.0 <==> !ConsentRefuses(env, a))
    ensures ConsentDecision(env, a).Ok? ==> ReasonTraced(env, a, ConsentDecision(env, a).value.1.reason)
  {
    AsksConsentMeans(a);
    AfterWithdrawalMeans(a);
    FindBasisMeans(env, a.server.bases, a.record);
  }

  // ---- The decision ----

  ghost predicate OtherScope(a: Attempt) {
    a.record.tenantId != a.server.tenantId || a.record.appId != a.server.appId
  }

  ghost predicate TooOld(env: Env, a: Attempt) {
    a.server.stale.Some? && match (env.parse(a.record.occurredAt), env.parse(a.server.stale.value.before))
                            case (Some(occurred), Some(limit)) => occurred < limit
                            case _ => false
  }

  ghost predicate JoinsInstallation(a: Attempt) {
    a.record.aggregateSubject && exists id: string :: a.record.payload.installationId == Some(id) && id != ""
  }

  /** The texts that order deliveries, by the first that differs. */
  function ArrivalOf(env: Env, a: Attempt): seq<string> {
    [a.record.receivedAt, a.record.recordId, a.record.deliveryId, a.server.tenantId, a.server.appId,
     a.record.schemaVersion, env.digest(RecordArtifact(a.record))]
  }

  /** The record that the event's first delivery carries. */
  ghost predicate OpensEvent(env: Env, x: Attempt, a: Attempt, raw: seq<Attempt>) {
    x in raw && OneEvent(a, x)
    && forall y :: y in raw && OneEvent(a, y) && y.record != x.record ==>
         PartsBefore(ArrivalOf(env, x), ArrivalOf(env, y))
  }

  ghost predicate Contradicts(env: Env, a: Attempt, raw: seq<Attempt>) {
    exists x :: OpensEvent(env, x, a, raw) && x.record.payload != a.record.payload
  }

  /** The staleness limit is a valid time, where the staleness is tested. */
  ghost predicate LimitDated(env: Env, a: Attempt, raw: seq<Attempt>) {
    a.server.stale.Some? && !OtherScope(a) && OnlyRecord(a, raw) && !ConsentRefuses(env, a) ==>
      env.parse(a.server.stale.value.before).Some?
  }

  ghost predicate Dated(env: Env, a: Attempt, raw: seq<Attempt>) {
    && env.parse(a.record.occurredAt).Some? && env.parse(a.record.receivedAt).Some?
    && ConsentDated(env, a) && LimitDated(env, a, raw)
  }

  /** The reason an attempt is rejected for: the first of the seven that applies. */
  ghost predicate RejectedFor(env: Env, a: Attempt, raw: seq<Attempt>, reason: Reason) {
    match reason
    case TimestampInvalid => !Dated(env, a, raw)
    case ScopeMismatch => Dated(env, a, raw) && OtherScope(a)
    case RecordIdCollided => Dated(env, a, raw) && !OtherScope(a) && !OnlyRecord(a, raw)
    case Withdrawn => Dated(env, a, raw) && !OtherScope(a) && OnlyRecord(a, raw) && ConsentRefuses(env, a)
    case Stale =>
      Dated(env, a, raw) && !OtherScope(a) && OnlyRecord(a, raw) && !ConsentRefuses(env, a) && TooOld(env, a)
    case AggregateJoin =>
      && Dated(env, a, raw) && !OtherScope(a) && OnlyRecord(a, raw) && !ConsentRefuses(env, a) && !TooOld(env, a)
      && JoinsInstallation(a)
    case EventIdConflicted =>
      && Dated(env, a, raw) && !OtherScope(a) && OnlyRecord(a, raw) && !ConsentRefuses(env, a) && !TooOld(env, a)
      && !JoinsInstallation(a) && Contradicts(env, a, raw)
    case PreIngestion(_) => false
  }

  lemma ArrivalOrder(env: Env, a: Attempt, x: Attempt)
    requires Injective(env.digest) && a.record != x.record
    ensures KeyLe(AttemptKey(env)(a), AttemptKey(env)(x)) <==> PartsBefore(ArrivalOf(env, a), ArrivalOf(env, x))
  {
    assert ArrivalOf(env, a)[6] != ArrivalOf(env, x)[6];
    KeyOrderMeans(ArrivalOf(env, a), ArrivalOf(env, x));
  }

  /** The evaluator's first delivery of the event carries the record that opens it. */
  lemma FirstOpens(env: Env, a: Attempt, raw: seq<Attempt>)
    requires Injective(env.digest) && a in raw
    ensures OpensEvent(env, FirstDelivery(a, Sort(raw, AttemptKey(env))), a, raw)
    ensures forall x :: OpensEvent(env, x, a, raw) ==> x.record == FirstDelivery(a, Sort(raw, AttemptKey(env))).record
  {
    EventInOrder(env, a, raw);
    var m := Filter(Sort(raw, AttemptKey(env)), SameEvent(a));
    var first := m[0];
    assert first in m;
    forall y | y in raw && OneEvent(a, y) && y.record != first.record
      ensures PartsBefore(ArrivalOf(env, first), ArrivalOf(env, y))
      ensures !PartsBefore(ArrivalOf(env, y), ArrivalOf(env, first))
    {
      FirstInOrder(env, m, y);
      ArrivalOrder(env, first, y);
      ArrivalOrder(env, y, first);
    }
  }

  lemma FirstInOrder(env: Env, m: seq<Attempt>, y: Attempt)
    requires Injective(env.digest) && Sorted(m, AttemptKey(env)) && y in m && y.record != m[0].record
    ensures KeyLe(AttemptKey(env)(m[0]), AttemptKey(env)(y)) && !KeyLe(AttemptKey(env)(y), AttemptKey(env)(m[0]))
  {
    var i :| 0 <= i < |m| && m[i] == y;
    KeyTotal(AttemptKey(env)(m[0]), AttemptKey(env)(y));
    if AttemptKey(env)(m[0]) == AttemptKey(env)(y) {
      AttemptKeyTies(env, m[0], y);
    }
  }

  // ---- The theorems ----

  /**
   A delivery is the accepted one of its event if and only if it is valid in itself, its record ID is its alone, and
   every other delivery of the event was received later: at a later text or, at the same, under a later record ID.
   */
  lemma AcceptedWhenReceivedFirst(env: Env, a: Attempt, raw: seq<Attempt>)
    requires Injective(env.digest) && a in raw
    ensures AcceptedUnique(env, Sort(raw, AttemptKey(env)))(a)
       <==> && Dated(env, a, raw) && !OtherScope(a) && OnlyRecord(a, raw) && !ConsentRefuses(env, a) && !TooOld(env, a)
            && !JoinsInstallation(a) && ReceivedFirst(a, raw)
  {
    AcceptedExactlyWhen(env, a, raw);
    if OnlyRecord(a, raw) {
      EarliestIsReceivedFirst(env, a, raw);
    }
    if env.parse(a.record.receivedAt).Some? {
      ConsentMeans(env, a);
    }
  }

  lemma CollidesExactlyWhen(env: Env, a: Attempt, raw: seq<Attempt>)
    requires a in raw
    ensures |Filter(Sort(raw, AttemptKey(env)), SameRecordId(a))| > 1 <==> !OnlyRecord(a, raw)
  {
    SortPermutes(raw, AttemptKey(env));
    FilterPermuted(raw, Sort(raw, AttemptKey(env)), SameRecordId(a));
    OnlyRecordCounts(a, raw);
  }

  lemma ConflictsExactlyWhen(env: Env, a: Attempt, raw: seq<Attempt>)
    requires Injective(env.digest) && a in raw && OnlyRecord(a, raw)
    ensures DuplicateOf(env, a, Sort(raw, AttemptKey(env))) == EventIdConflict
       <==> Contradicts(env, a, raw)
    ensures DuplicateOf(env, a, Sort(raw, AttemptKey(env))) == Unique <==> ReceivedFirst(a, raw)
  {
    CollidesExactlyWhen(env, a, raw);
    DuplicateMeans(env, a, Sort(raw, AttemptKey(env)));
    FirstOpens(env, a, raw);
    FirstIsEarliest(env, a, raw);
    EarliestIsReceivedFirst(env, a, raw);
  }

  /** The rejection reason, given what else is known of the delivery. */
  lemma ReasonGiven(env: Env, a: Attempt, duplicate: Duplicate, allowed: bool)
    requires env.parse(a.record.occurredAt).Some?
    ensures var tested := !OtherScope(a) && !duplicate.RecordIdCollision? && allowed;
            var reason := RejectionReason(env, a, duplicate, allowed);
            && (reason.Err? <==> tested && a.server.stale.Some? && env.parse(a.server.stale.value.before).None?)
            && (reason.Ok? ==>
                 match reason.value
                 case None => tested && !TooOld(env, a) && !JoinsInstallation(a) && !duplicate.EventIdConflict?
                 case Some(ScopeMismatch) => OtherScope(a)
                 case Some(RecordIdCollided) => !OtherScope(a) && duplicate.RecordIdCollision?
                 case Some(Withdrawn) => !OtherScope(a) && !duplicate.RecordIdCollision? && !allowed
                 case Some(Stale) => tested && TooOld(env, a)
                 case Some(AggregateJoin) => tested && !TooOld(env, a) && JoinsInstallation(a)
                 case Some(EventIdConflicted) =>
                   tested && !TooOld(env, a) && !JoinsInstallation(a) && duplicate.EventIdConflict?
                 case _ => false)
  {
  }

  lemma DecidedParts(env: Env, a: Attempt, s: seq<Attempt>)
    requires env.parse(a.record.occurredAt).Some? && env.parse(a.record.receivedAt).Some?
    ensures var consent := ConsentDecision(env, a);
            && (consent.Err? ==> DecisionOf(env, s)(a).reason == Some(TimestampInvalid))
            && (consent.Ok? ==>
                 var reason := RejectionReason(env, a, DuplicateOf(env, a, s), consent.value.0);
                 && (reason.Err? ==> DecisionOf(env, s)(a).reason == Some(TimestampInvalid))
                 && (reason.Ok? ==> DecisionOf(env, s)(a).reason == reason.value))
    ensures DecisionOf(env, s)(a).status.Rejected? <==> DecisionOf(env, s)(a).reason.Some?
  {
    var decided := Decide(env, a, s);
    assert DecisionOf(env, s)(a) == decided.Or(InvalidTimestamp(a));
  }

  lemma UndatedParts(env: Env, a: Attempt, s: seq<Attempt>)
    requires env.parse(a.record.occurredAt).None? || env.parse(a.record.receivedAt).None?
    ensures DecisionOf(env, s)(a) == InvalidTimestamp(a)
  {
    var decided := Decide(env, a, s);
    assert DecisionOf(env, s)(a) == decided.Or(InvalidTimestamp(a));
  }

  lemma ReasonApplies(env: Env, a: Attempt, raw: seq<Attempt>, duplicate: Duplicate, allowed: bool, reason: Reason)
    requires env.parse(a.record.occurredAt).Some? && env.parse(a.record.receivedAt).Some? && ConsentDated(env, a)
    requires (duplicate.RecordIdCollision? <==> !OnlyRecord(a, raw)) && (allowed <==> !ConsentRefuses(env, a))
    requires OnlyRecord(a, raw) ==> (duplicate.EventIdConflict? <==> Contradicts(env, a, raw))
    ensures var given := RejectionReason(env, a, duplicate, allowed);
            && (given.Ok? ==> (given.value == Some(reason) <==> RejectedFor(env, a, raw, reason)))
            && (given.Err? ==> (reason == TimestampInvalid <==> RejectedFor(env, a, raw, reason)))
  {
    ReasonGiven(env, a, duplicate, allowed);
  }

  /** Every delivery is rejected for the first of the seven reasons that applies, and accepted when none does. */
  lemma RejectedExactlyFor(env: Env, a: Attempt, raw: seq<Attempt>, reason: Reason)
    requires Injective(env.digest) && a in raw
    ensures DecisionOf(env, Sort(raw, AttemptKey(env)))(a).reason == Some(reason) <==> RejectedFor(env, a, raw, reason)
    ensures DecisionOf(env, Sort(raw, AttemptKey(env)))(a).status.Rejected?
       <==> DecisionOf(env, Sort(raw, AttemptKey(env)))(a).reason.Some?
  {
    var s := Sort(raw, AttemptKey(env));
    if env.parse(a.record.occurredAt).Some? && env.parse(a.record.receivedAt).Some? {
      DecidedParts(env, a, s);
      ConsentMeans(env, a);
      if ConsentDecision(env, a).Ok? {
        DuplicateParts(env, a, raw);
        ReasonApplies(env, a, raw, DuplicateOf(env, a, s), ConsentDecision(env, a).value.0, reason);
      }
    } else {
      UndatedParts(env, a, s);
    }
  }

  lemma DuplicateParts(env: Env, a: Attempt, raw: seq<Attempt>)
    requires Injective(env.digest) && a in raw
    ensures DuplicateOf(env, a, Sort(raw, AttemptKey(env))).RecordIdCollision? <==> !OnlyRecord(a, raw)
    ensures OnlyRecord(a, raw) ==>
              (DuplicateOf(env, a, Sort(raw, AttemptKey(env))).EventIdConflict? <==> Contradicts(env, a, raw))
    ensures OnlyRecord(a, raw) ==>
              (DuplicateOf(env, a, Sort(raw, AttemptKey(env))).Unique? <==> ReceivedFirst(a, raw))
  {
    CollidesExactlyWhen(env, a, raw);
    if OnlyRecord(a, raw) {
      ConflictsExactlyWhen(env, a, raw);
    }
  }

  // ---- The other columns of a decision ----

  ghost function Covering(env: Env, r: Record): LegalBasis -> bool { (b: LegalBasis) => Covers(env, b, r) }

  lemma {:induction false} BasisIsFirst(env: Env, bases: seq<LegalBasis>, r: Record)
    requires FindBasis(env, bases, r).Ok? && FindBasis(env, bases, r).value.Some? && env.parse(r.receivedAt).Some?
    ensures FirstWith(bases, Covering(env, r), FindBasis(env, bases, r).value.value)
  {
    if !Covers(env, bases[0], r) {
      BasisIsFirst(env, bases[1..], r);
      var b := FindBasis(env, bases, r).value.value;
      var i :| 0 <= i < |bases[1..]| && bases[1..][i] == b && Covers(env, b, r)
               && forall j :: 0 <= j < i ==> !Covering(env, r)(bases[1..][j]);
      assert bases[i + 1] == b;
      forall j | 0 <= j < i + 1 ensures !Covering(env, r)(bases[j]) {
        assert j > 0 ==> bases[j] == bases[1..][j - 1];
      }
    }
  }

  /** The policy version is that of the first purpose with the record's purpose ID. */
  ghost predicate PurposeTraced(a: Attempt, c: ConsentTrace) {
    && c.purposeId == (if a.record.purposeId == Some("") then None else a.record.purposeId)
    && (forall id, p :: a.record.purposeId == Some(id) && FirstWith(a.server.purposes, ForPurpose(id), p) ==>
          c.policyVersion == p.policyVersion)
    && ((forall id, p :: p in a.server.purposes && a.record.purposeId == Some(id) ==> p.id != id) ==>
          c.policyVersion == "not-applicable")
  }

  /** The withdrawal is the first one for the record's purpose ID; an empty time may be left out. */
  ghost predicate WithdrawalTraced(a: Attempt, c: ConsentTrace) {
    && (forall id, w :: a.record.purposeId == Some(id) && FirstWith(a.server.withdrawals, Withdraws(id), w) ==>
          c.withdrawalAt == Some(w.recognizedAt) || (w.recognizedAt == "" && c.withdrawalAt == None))
    && ((forall id, w :: w in a.server.withdrawals && a.record.purposeId == Some(id) ==> w.purposeId != id) ==>
          c.withdrawalAt.None?)
  }

  ghost predicate BasisTraced(env: Env, a: Attempt, c: ConsentTrace) {
    if c.reason.DocumentedBasis? then
      exists b :: FirstWith(a.server.bases, Covering(env, a.record), b) && c.basisId == Some(b.id)
                  && c.basisVersion == Some(b.policyVersion)
    else c.basisId.None? && c.basisVersion.None?
  }

  lemma PurposeIsTraced(a: Attempt, c: ConsentTrace)
    requires c.policyVersion == PolicyVersionOf(a) && c.purposeId == PurposeGiven(a)
    ensures PurposeTraced(a, c)
  {
    var p := (p: Purpose) => a.record.purposeId == Some(p.id);
    FindFirstMeans(a.server.purposes, p);
    assert PurposeOf(a) == FindFirst(a.server.purposes, p);
    if a.record.purposeId.Some? {
      FirstSame(a.server.purposes, p, ForPurpose(a.record.purposeId.value));
      forall q | FirstWith(a.server.purposes, p, q) ensures PurposeOf(a) == Some(q) {
        FoundFirst(a.server.purposes, p, q);
      }
    }
  }

  lemma WithdrawalIsTraced(a: Attempt, c: ConsentTrace)
    requires WithdrawalOf(a).None? ==> c.withdrawalAt.None?
    requires WithdrawalOf(a).Some? ==>
               || c.withdrawalAt == Some(WithdrawalOf(a).value.recognizedAt)
               || (WithdrawalOf(a).value.recognizedAt == "" && c.withdrawalAt == None)
    ensures WithdrawalTraced(a, c)
  {
    var p := (w: Withdrawal) => a.record.purposeId == Some(w.purposeId);
    FindFirstMeans(a.server.withdrawals, p);
    assert WithdrawalOf(a) == FindFirst(a.server.withdrawals, p);
    if a.record.purposeId.Some? {
      FirstSame(a.server.withdrawals, p, Withdraws(a.record.purposeId.value));
      forall w | FirstWith(a.server.withdrawals, p, w) ensures WithdrawalOf(a) == Some(w) {
        FoundFirst(a.server.withdrawals, p, w);
      }
    }
  }

  lemma FirstSame<T>(xs: seq<T>, p: T -> bool, q: T -> bool)
    requires forall x :: p(x) == q(x)
    ensures forall x :: FirstWith(xs, p, x) <==> FirstWith(xs, q, x)
  {
    forall x ensures FirstWith(xs, p, x) <==> FirstWith(xs, q, x) {
      if FirstWith(xs, p, x) {
        var i :| 0 <= i < |xs| && xs[i] == x && p(x) && forall j :: 0 <= j < i ==> !p(xs[j]);
        assert q(x) && forall j :: 0 <= j < i ==> !q(xs[j]);
      }
      if FirstWith(xs, q, x) {
        var i :| 0 <= i < |xs| && xs[i] == x && q(x) && forall j :: 0 <= j < i ==> !q(xs[j]);
        assert p(x) && forall j :: 0 <= j < i ==> !p(xs[j]);
      }
    }
  }

  lemma FoundFirst<T>(xs: seq<T>, p: T -> bool, x: T)
    requires FirstWith(xs, p, x)
    ensures FindFirst(xs, p) == Some(x)
  {
    FindFirstMeans(xs, p);
    var i :| 0 <= i < |xs| && xs[i] == x && p(x) && forall j :: 0 <= j < i ==> !p(xs[j]);
    assert x in xs;
    OneFirst(xs, p, x, FindFirst(xs, p).value);
  }

  lemma TraceFields(env: Env, a: Attempt, s: seq<Attempt>)
    ensures var c := DecisionOf(env, s)(a).consent;
            && c.policyVersion == PolicyVersionOf(a) && c.purposeId == PurposeGiven(a)
            && (WithdrawalOf(a).None? ==> c.withdrawalAt.None?)
            && (WithdrawalOf(a).Some? ==>
                  || c.withdrawalAt == Some(WithdrawalOf(a).value.recognizedAt)
                  || (WithdrawalOf(a).value.recognizedAt == "" && c.withdrawalAt == None))
            && (Decide(env, a, s).Ok? ==>
                  && env.parse(a.record.receivedAt).Some? && ConsentDecision(env, a).Ok? && c == ConsentDecision(env, a).value.1)
            && (Decide(env, a, s).Err? ==> c.basisId.None? && c.basisVersion.None? && !c.reason.DocumentedBasis?)
  {
    var decided := Decide(env, a, s);
    assert DecisionOf(env, s)(a) == decided.Or(InvalidTimestamp(a));
  }

  lemma TraceReason(env: Env, a: Attempt, s: seq<Attempt>)
    ensures DecisionOf(env, s)(a).reason != Some(TimestampInvalid) ==>
              ReasonTraced(env, a, DecisionOf(env, s)(a).consent.reason)
  {
    TraceFields(env, a, s);
    if Decide(env, a, s).Ok? {
      ConsentMeans(env, a);
    } else {
      DecidedIsNot(env, a, s);
    }
  }

  lemma DecidedIsNot(env: Env, a: Attempt, s: seq<Attempt>)
    requires Decide(env, a, s).Err?
    ensures DecisionOf(env, s)(a) == InvalidTimestamp(a)
  {
    assert DecisionOf(env, s)(a) == Decide(env, a, s).Or(InvalidTimestamp(a));
  }

  lemma BasisIsTraced(env: Env, a: Attempt)
    requires ConsentDecision(env, a).Ok? && env.parse(a.record.receivedAt).Some?
    ensures BasisTraced(env, a, ConsentDecision(env, a).value.1)
  {
    if ConsentDecision(env, a).value.1.reason.DocumentedBasis? {
      BasisIsFirst(env, a.server.bases, a.record);
    }
  }

  /** Consent is traced to the purpose, the withdrawal and the basis that stand first among those the record names. */
  lemma ConsentTraced(env: Env, a: Attempt, s: seq<Attempt>)
    ensures PurposeTraced(a, DecisionOf(env, s)(a).consent) && WithdrawalTraced(a, DecisionOf(env, s)(a).consent)
    ensures BasisTraced(env, a, DecisionOf(env, s)(a).consent)
  {
    TraceFields(env, a, s);
    PurposeIsTraced(a, DecisionOf(env, s)(a).consent);
    WithdrawalIsTraced(a, DecisionOf(env, s)(a).consent);
    if Decide(env, a, s).Ok? {
      BasisIsTraced(env, a);
    }
  }

  ghost predicate FiveMinutesAhead(env: Env, a: Attempt) {
    && env.parse(a.record.occurredAt).Some? && env.parse(a.record.receivedAt).Some?
    && env.parse(a.record.occurredAt).value - env.parse(a.record.receivedAt).value > 5 * 60 * 1000
  }

  /** The columns beside reason and consent. */
  ghost predicate ColumnsOf(env: Env, a: Attempt, raw: seq<Attempt>, d: Decision) {
    && (d.duplicate == RecordIdCollision <==> Dated(env, a, raw) && !OnlyRecord(a, raw))
    && (d.duplicate == Unique <==> !Dated(env, a, raw) || (OnlyRecord(a, raw) && ReceivedFirst(a, raw)))
    && (d.duplicate == EventIdConflict <==> Dated(env, a, raw) && OnlyRecord(a, raw) && Contradicts(env, a, raw))
    && (d.late <==> Dated(env, a, raw) && a.record.late)
    && (d.clockSkew <==> Dated(env, a, raw) && FiveMinutesAhead(env, a))
    && (d.disposition == Protected <==> d.reason == None || d.reason == Some(EventIdConflicted))
    && d.staleness == (if d.reason == Some(Stale) then a.server.stale else None)
    && forall x :: OpensEvent(env, x, a, raw) ==>
         d.canonicalRecordId == if !Dated(env, a, raw) || !OnlyRecord(a, raw) || x.record.recordId == "" then None
                                else Some(x.record.recordId)
  }

  ghost predicate Fields(env: Env, a: Attempt, d: Decision, duplicate: Duplicate, first: string) {
    && (d.disposition == Protected <==> d.reason == None || d.reason == Some(EventIdConflicted))
    && d.staleness == (if d.reason == Some(Stale) then a.server.stale else None)
    && (d.reason == Some(TimestampInvalid) ==>
          d.duplicate.Unique? && !d.late && !d.clockSkew && d.canonicalRecordId.None?)
    && (d.reason != Some(TimestampInvalid) ==>
          && d.duplicate == duplicate && d.late == a.record.late && d.clockSkew == FiveMinutesAhead(env, a)
          && d.canonicalRecordId == if duplicate.RecordIdCollision? || first == "" then None else Some(first))
  }

  lemma DecidedFields(env: Env, a: Attempt, s: seq<Attempt>)
    ensures Fields(env, a, DecisionOf(env, s)(a), DuplicateOf(env, a, s), FirstDelivery(a, s).record.recordId)
  {
    var decided := Decide(env, a, s);
    assert DecisionOf(env, s)(a) == decided.Or(InvalidTimestamp(a));
  }

  lemma ColumnsFrom(env: Env, a: Attempt, raw: seq<Attempt>, d: Decision, duplicate: Duplicate, first: string)
    requires Fields(env, a, d, duplicate, first) && (d.reason == Some(TimestampInvalid) <==> !Dated(env, a, raw))
    requires duplicate.RecordIdCollision? <==> !OnlyRecord(a, raw)
    requires OnlyRecord(a, raw) ==> (duplicate.EventIdConflict? <==> Contradicts(env, a, raw))
    requires OnlyRecord(a, raw) ==> (duplicate.Unique? <==> ReceivedFirst(a, raw))
    requires forall x :: OpensEvent(env, x, a, raw) ==> x.record.recordId == first
    ensures ColumnsOf(env, a, raw, d)
  {
  }

  lemma DecisionColumns(env: Env, a: Attempt, raw: seq<Attempt>)
    requires Injective(env.digest) && a in raw
    ensures ColumnsOf(env, a, raw, DecisionOf(env, Sort(raw, AttemptKey(env)))(a))
  {
    var s := Sort(raw, AttemptKey(env));
    InvalidExactlyWhen(env, a, raw);
    DuplicateParts(env, a, raw);
    DecidedFields(env, a, s);
    OpenedBy(env, a, raw);
    ColumnsFrom(env, a, raw, DecisionOf(env, s)(a), DuplicateOf(env, a, s), FirstDelivery(a, s).record.recordId);
  }

  lemma InvalidExactlyWhen(env: Env, a: Attempt, raw: seq<Attempt>)
    requires Injective(env.digest) && a in raw
    ensures DecisionOf(env, Sort(raw, AttemptKey(env)))(a).reason == Some(TimestampInvalid) <==> !Dated(env, a, raw)
  {
    RejectedExactlyFor(env, a, raw, TimestampInvalid);
  }

  lemma OpenedBy(env: Env, a: Attempt, raw: seq<Attempt>)
    requires Injective(env.digest) && a in raw
    ensures forall x :: OpensEvent(env, x, a, raw) ==>
              x.record.recordId == FirstDelivery(a, Sort(raw, AttemptKey(env))).record.recordId
  {
    FirstOpens(env, a, raw);
  }
}
