/** What an accepted, duplicate or attributed delivery means, said without the steps that decide it. */
module Meaning {
  import opened Outcomes
  import opened Contract
  import opened Sequences
  import opened CanonicalOrder
  import opened Decisions
  import opened Attributions
  import opened Evaluation

  /** No other delivery carries the record ID. */
  ghost predicate OnlyRecord(a: Attempt, raw: seq<Attempt>) {
    multiset(raw)[a] == 1 && forall x :: x in raw && x.record.recordId == a.record.recordId ==> x == a
  }

  /** No delivery of the same event comes before this one in canonical order. */
  ghost predicate EarliestOfEvent(env: Env, a: Attempt, raw: seq<Attempt>) {
    forall x :: x in raw && EventScope(x) == EventScope(a) ==> KeyLe(AttemptKey(env)(a), AttemptKey(env)(x))
  }

  ghost predicate Admissible(env: Env, a: Attempt) {
    && a.record.tenantId == a.server.tenantId && a.record.appId == a.server.appId
    && env.parse(a.record.occurredAt).Some? && env.parse(a.record.receivedAt).Some?
    && ConsentDecision(env, a).Ok? && ConsentDecision(env, a).value.0
    && IsStale(env, a) == Ok(false)
    && !(a.record.aggregateSubject && Given(a.record.payload.installationId))
  }

  lemma {:induction false} FilterCounts<T>(xs: seq<T>, keep: T -> bool, x: T)
    requires keep(x) && forall y :: y in xs && keep(y) ==> y == x
    ensures |Filter(xs, keep)| == multiset(xs)[x]
  {
    if xs != [] {
      FilterCounts(xs[1..], keep, x);
      assert xs == [xs[0]] + xs[1..];
    }
  }

  lemma OnlyRecordCounts(a: Attempt, raw: seq<Attempt>)
    requires a in raw
    ensures OnlyRecord(a, raw) <==> |Filter(raw, SameRecordId(a))| <= 1
  {
    FilterMember(raw, SameRecordId(a), a);
    if forall x :: x in raw && SameRecordId(a)(x) ==> x == a {
      FilterCounts(raw, SameRecordId(a), a);
    } else {
      var x :| x in raw && SameRecordId(a)(x) && x != a;
      if |Filter(raw, SameRecordId(a))| <= 1 {
        OnlyOneKept(raw, SameRecordId(a), a, x);
      }
    }
  }

  /** The deliveries of an event, in canonical order. */
  lemma EventInOrder(env: Env, a: Attempt, raw: seq<Attempt>)
    requires a in raw
    ensures var m := Filter(Sort(raw, AttemptKey(env)), SameEvent(a));
            && m != [] && Sorted(m, AttemptKey(env)) && m[0] == FirstDelivery(a, Sort(raw, AttemptKey(env)))
            && forall x :: x in m <==> x in raw && EventScope(x) == EventScope(a)
  {
    var key := AttemptKey(env);
    FilterSort(raw, key, SameEvent(a));
    SortSorted(Filter(raw, SameEvent(a)), key);
    forall x ensures x in Filter(Sort(raw, key), SameEvent(a)) <==> x in raw && EventScope(x) == EventScope(a) {
      SortMember(raw, key, x);
      FilterMember(Sort(raw, key), SameEvent(a), x);
    }
  }

  lemma FirstIsEarliest(env: Env, a: Attempt, raw: seq<Attempt>)
    requires Injective(env.digest) && a in raw && OnlyRecord(a, raw)
    ensures FirstDelivery(a, Sort(raw, AttemptKey(env))) == a <==> EarliestOfEvent(env, a, raw)
  {
    EventInOrder(env, a, raw);
    FirstOfSorted(env, a, raw, Filter(Sort(raw, AttemptKey(env)), SameEvent(a)));
  }

  lemma FirstOfSorted(env: Env, a: Attempt, raw: seq<Attempt>, m: seq<Attempt>)
    requires Injective(env.digest) && a in m && Sorted(m, AttemptKey(env)) && OnlyRecord(a, raw)
    requires forall x :: x in m <==> x in raw && EventScope(x) == EventScope(a)
    ensures m[0] == a <==> EarliestOfEvent(env, a, raw)
  {
    var key := AttemptKey(env);
    assert m[0] in m;
    if m[0] == a {
      forall x | x in raw && EventScope(x) == EventScope(a) ensures KeyLe(key(a), key(x)) {
        var i :| 0 <= i < |m| && m[i] == x;
        KeyTotal(key(a), key(x));
      }
    }
    if EarliestOfEvent(env, a, raw) {
      var i :| 0 <= i < |m| && m[i] == a;
      if i > 0 {
        KeyTotal(key(m[0]), key(a));
        AttemptKeyTies(env, m[0], a);
      }
    }
  }

  lemma AcceptedByParts(env: Env, a: Attempt, attempts: seq<Attempt>)
    ensures AcceptedUnique(env, attempts)(a) <==> Admissible(env, a) && DuplicateOf(env, a, attempts) == Unique
  {
    var decided := Decide(env, a, attempts);
    assert DecisionOf(env, attempts)(a) == decided.Or(InvalidTimestamp(a));
  }

  /**
   A delivery becomes the logical event exactly when it is admissible on its own, its record ID is unique in the
   input, and it is the earliest delivery of its event.
   */
  lemma AcceptedExactlyWhen(env: Env, a: Attempt, raw: seq<Attempt>)
    requires Injective(env.digest) && a in raw
    ensures AcceptedUnique(env, Sort(raw, AttemptKey(env)))(a)
       <==> Admissible(env, a) && OnlyRecord(a, raw) && EarliestOfEvent(env, a, raw)
  {
    var s := Sort(raw, AttemptKey(env));
    AcceptedByParts(env, a, s);
    SortPermutes(raw, AttemptKey(env));
    FilterPermuted(raw, s, SameRecordId(a));
    OnlyRecordCounts(a, raw);
    if OnlyRecord(a, raw) {
      FirstIsEarliest(env, a, raw);
    }
  }

  /** A later delivery of an event is a duplicate when it repeats the first payload and a conflict when it does not. */
  lemma DuplicateMeans(env: Env, a: Attempt, attempts: seq<Attempt>)
    requires Injective(env.digest) && |Filter(attempts, SameRecordId(a))| <= 1
    ensures DuplicateOf(env, a, attempts) == DuplicateDelivery
       <==> FirstDelivery(a, attempts) != a && FirstDelivery(a, attempts).record.payload == a.record.payload
    ensures DuplicateOf(env, a, attempts) == EventIdConflict
       <==> FirstDelivery(a, attempts).record.payload != a.record.payload
  {
    var first := FirstDelivery(a, attempts);
    assert env.digest(PayloadArtifact(first.record.payload)) == env.digest(PayloadArtifact(a.record.payload))
       <==> PayloadArtifact(first.record.payload) == PayloadArtifact(a.record.payload);
  }

  // ---- Consent ----

  /** A documented basis for the record's purpose that was in effect when the record arrived. */
  ghost predicate InEffect(env: Env, b: LegalBasis, record: Record) {
    && record.basisId == Some(b.id) && record.purposeId == Some(b.purposeId)
    && env.parse(b.effectiveAt).Some? && env.parse(record.receivedAt).Some?
    && env.parse(b.effectiveAt).value <= env.parse(record.receivedAt).value
  }

  lemma {:induction false} BasisFoundExactlyWhen(env: Env, bases: seq<LegalBasis>, record: Record)
    requires env.parse(record.receivedAt).Some? && forall b :: b in bases ==> env.parse(b.effectiveAt).Some?
    ensures FindBasis(env, bases, record).Ok?
    ensures FindBasis(env, bases, record).value.Some? <==> exists b :: b in bases && InEffect(env, b, record)
  {
    if bases != [] {
      BasisFoundExactlyWhen(env, bases[1..], record);
      assert bases == [bases[0]] + bases[1..];
      assert InEffect(env, bases[0], record) ==> bases[0] in bases;
    }
  }

  /**
   Where its timestamps are valid, a record is refused for consent exactly when it is withdrawn and nothing
   documented replaces it.
   */
  lemma ConsentRefusedExactlyWhen(env: Env, a: Attempt)
    requires env.parse(a.record.receivedAt).Some? && forall b :: b in a.server.bases ==> env.parse(b.effectiveAt).Some?
    ensures ConsentDecision(env, a).Ok?
    ensures !ConsentDecision(env, a).value.0
       <==> !ConsentExempt(a) && !BeforeWithdrawal(a) && !exists b :: b in a.server.bases && InEffect(env, b, a.record)
  {
    BasisFoundExactlyWhen(env, a.server.bases, a.record);
  }

  // ---- Install-referrer attribution ----

  ghost predicate ReachesReferrer(a: Attempt) {
    var p := a.record.payload;
    !IsImported(a) && p.referrer.FirstParty?
    && p.metaStatus != Some(Decrypted) && p.metaStatus != Some(DecryptFailed) && p.metaStatus != Some(AuthFailed)
    && (p.lookup.None? || p.lookup == Some(OtherLookup))
  }

  /**
   The click's and the install's authoritative times are present, and the install began within seven days after the
   click.
   */
  ghost predicate InsideWindow(env: Env, a: Attempt, click: Attempt) {
    var began, clicked := a.record.payload.installBeginAt, click.record.payload.redirectorClickAt;
    && Given(began) && Given(clicked)
    && click.record.payload.redirectorTimeStatus.Or(TimeAvailable).TimeAvailable?
    && a.record.payload.installBeginStatus.Or(TimeAvailable).TimeAvailable?
    && env.parse(began.value).Some? && env.parse(clicked.value).Some?
    && 0 <= env.parse(began.value).value - env.parse(clicked.value).value < SEVEN_DAYS_MS
  }

  ghost predicate SoleClick(a: Attempt, click: Attempt, accepted: seq<Attempt>) {
    && click in accepted && ClickOf(a)(click) && multiset(accepted)[click] == 1
    && forall x :: x in accepted && ClickOf(a)(x) ==> x == click
  }

  lemma SoleClickKept(a: Attempt, click: Attempt, accepted: seq<Attempt>)
    requires SoleClick(a, click, accepted)
    ensures Filter(accepted, ClickOf(a)) == [click]
  {
    FilterCounts(accepted, ClickOf(a), click);
    var kept := Filter(accepted, ClickOf(a));
    assert kept == [kept[0]];
    FilterMember(accepted, ClickOf(a), kept[0]);
  }

  lemma OneKeptIsSole(a: Attempt, accepted: seq<Attempt>)
    requires |Filter(accepted, ClickOf(a))| == 1
    ensures SoleClick(a, Filter(accepted, ClickOf(a))[0], accepted)
  {
    var click := Filter(accepted, ClickOf(a))[0];
    FilterMember(accepted, ClickOf(a), click);
    forall x | x in accepted && ClickOf(a)(x) ensures x == click {
      OnlyOneKept(accepted, ClickOf(a), x, click);
    }
    FilterCounts(accepted, ClickOf(a), click);
  }

  /**
   An install is credited to a click through the install referrer exactly when one accepted click of its scope carries
   its click ID, that click is not a prefetch, and the install began within seven days after it; the click and the
   install are then its evidence.
   */
  lemma ReferrerCreditExactlyWhen(env: Env, a: Attempt, accepted: seq<Attempt>)
    requires ReachesReferrer(a)
    ensures InstallVerdict(env, a, accepted).Ok? && InstallVerdict(env, a, accepted).value.status == NonOrganic
       <==> exists click :: SoleClick(a, click, accepted) && !click.record.payload.botPrefetch && InsideWindow(env, a, click)
    ensures forall click :: (SoleClick(a, click, accepted) && !click.record.payload.botPrefetch && InsideWindow(env, a, click) ==>
              InstallVerdict(env, a, accepted) == Ok(Verdict(NonOrganic, "install_referrer", "last_click",
                                                             "valid_install_referrer", [click.record.recordId, a.record.recordId])))
  {
    var verdict := ReferrerVerdict(env, a, accepted);
    assert InstallVerdict(env, a, accepted) == verdict;
    forall click | SoleClick(a, click, accepted) && !click.record.payload.botPrefetch && InsideWindow(env, a, click)
      ensures verdict == Ok(Verdict(NonOrganic, "install_referrer", "last_click", "valid_install_referrer",
                                    [click.record.recordId, a.record.recordId]))
    {
      SoleClickKept(a, click, accepted);
      assert [click.record.recordId] + [a.record.recordId] == [click.record.recordId, a.record.recordId];
    }
    if verdict.Ok? && verdict.value.status == NonOrganic {
      OneKeptIsSole(a, accepted);
    }
  }
}
