/** The evaluation does not depend on the order in which records and batches arrive. */
module OrderIndependence {
  import opened Outcomes
  import opened Contract
  import opened Sequences
  import opened CanonicalOrder
  import opened Decisions
  import opened Attributions
  import opened Evaluation

  /** Same attempts, same sequence of sort keys; attempts that tie may have changed places. */
  ghost predicate Reordered(env: Env, s: seq<Attempt>, t: seq<Attempt>) {
    multiset(s) == multiset(t) && Map(s, AttemptKey(env)) == Map(t, AttemptKey(env))
  }

  lemma {:induction false} FilterKeepsKeys<T>(s: seq<T>, t: seq<T>, key: T -> Key, keep: T -> bool)
    requires Map(s, key) == Map(t, key)
    requires forall x, y :: x in s && y in t && key(x) == key(y) ==> keep(x) == keep(y)
    ensures Map(Filter(s, keep), key) == Map(Filter(t, keep), key)
  {
    MapAt(s, key);
    MapAt(t, key);
    if s != [] {
      assert Map(s, key)[0] == key(s[0]) && Map(t, key)[0] == key(t[0]);
      assert Map(s[1..], key) == Map(s, key)[1..] == Map(t, key)[1..] == Map(t[1..], key);
      FilterKeepsKeys(s[1..], t[1..], key, keep);
      if keep(s[0]) {
        assert Filter(s, keep)[1..] == Filter(s[1..], keep);
        assert Filter(t, keep)[1..] == Filter(t[1..], keep);
      }
    }
  }

  lemma FirstDeliveryReordered(env: Env, a: Attempt, s: seq<Attempt>, t: seq<Attempt>)
    requires Injective(env.digest) && Reordered(env, s, t) && a in s
    ensures FirstDelivery(a, s).record == FirstDelivery(a, t).record
    ensures FirstDelivery(a, s) in s && FirstDelivery(a, t) in t
    ensures FirstDelivery(a, s) in Filter(s, SameEvent(a))
  {
    var key := AttemptKey(env);
    forall x, y | x in s && y in t && key(x) == key(y) ensures SameEvent(a)(x) == SameEvent(a)(y) {
      AttemptKeyTies(env, x, y);
    }
    FilterKeepsKeys(s, t, key, SameEvent(a));
    var p, q := Filter(s, SameEvent(a)), Filter(t, SameEvent(a));
    FilterMember(s, SameEvent(a), a);
    MapAt(p, key);
    MapAt(q, key);
    assert Map(p, key)[0] == key(p[0]) && Map(q, key)[0] == key(q[0]);
    AttemptKeyTies(env, p[0], q[0]);
    FilterMember(s, SameEvent(a), p[0]);
    FilterMember(t, SameEvent(a), q[0]);
  }

  /** An attempt's decision is the same in any arrival order. */
  lemma DecisionReordered(env: Env, a: Attempt, s: seq<Attempt>, t: seq<Attempt>)
    requires Injective(env.digest) && Reordered(env, s, t) && a in s
    ensures DecisionOf(env, s)(a) == DecisionOf(env, t)(a)
    ensures AcceptedUnique(env, s)(a) == AcceptedUnique(env, t)(a)
    ensures Conflicting(env, s)(a) == Conflicting(env, t)(a)
  {
    FilterPermuted(s, t, SameRecordId(a));
    PermutedMembers(s, t);
    FirstDeliveryReordered(env, a, s, t);
    if |Filter(s, SameRecordId(a))| <= 1 {
      FilterMember(s, SameRecordId(a), a);
      var f, g := FirstDelivery(a, s), FirstDelivery(a, t);
      if f == a {
        OnlyOneKept(t, SameRecordId(a), g, a);
      }
      if g == a {
        OnlyOneKept(s, SameRecordId(a), f, a);
      }
    }
    DecisionDependsOn(env, a, s, t);
  }

  lemma DecisionsReordered(env: Env, s: seq<Attempt>, t: seq<Attempt>)
    requires Injective(env.digest) && Reordered(env, s, t)
    ensures forall a :: a in s ==> DecisionOf(env, s)(a) == DecisionOf(env, t)(a)
    ensures forall a :: a in s ==> AcceptedUnique(env, s)(a) == AcceptedUnique(env, t)(a)
    ensures forall a :: a in s ==> Conflicting(env, s)(a) == Conflicting(env, t)(a)
  {
    forall a | a in s
      ensures DecisionOf(env, s)(a) == DecisionOf(env, t)(a)
      ensures AcceptedUnique(env, s)(a) == AcceptedUnique(env, t)(a)
      ensures Conflicting(env, s)(a) == Conflicting(env, t)(a)
    {
      DecisionReordered(env, a, s, t);
    }
  }

  /** Filters that agree on the elements keep permuted lists permuted. */
  lemma SelectionReordered<T>(s: seq<T>, t: seq<T>, keep: T -> bool, keep': T -> bool)
    requires multiset(s) == multiset(t) && forall a :: a in s ==> keep(a) == keep'(a)
    ensures multiset(Filter(s, keep)) == multiset(Filter(t, keep'))
  {
    FilterAgree(s, keep, keep');
    FilterPermuted(s, t, keep');
  }

  lemma ImageReordered<T, U>(s: seq<T>, t: seq<T>, f: T -> U, g: T -> U)
    requires multiset(s) == multiset(t) && forall a :: a in s ==> f(a) == g(a)
    ensures multiset(Map(s, f)) == multiset(Map(t, g))
  {
    MapAgree(s, f, g);
    MapPermuted(s, t, g);
  }

  lemma AcceptedReordered(env: Env, s: seq<Attempt>, t: seq<Attempt>)
    requires Injective(env.digest) && Reordered(env, s, t)
    ensures multiset(AcceptedOf(env, s)) == multiset(AcceptedOf(env, t))
    ensures multiset(ConflictsOf(env, s)) == multiset(ConflictsOf(env, t))
  {
    DecisionsReordered(env, s, t);
    SelectionReordered(s, t, AcceptedUnique(env, s), AcceptedUnique(env, t));
    SelectionReordered(s, t, Conflicting(env, s), Conflicting(env, t));
  }

  lemma SameOrNotOne<T>(s: seq<T>, t: seq<T>, keep: T -> bool)
    requires multiset(s) == multiset(t)
    ensures Filter(s, keep) == Filter(t, keep) || (|Filter(s, keep)| == |Filter(t, keep)| != 1)
  {
    FilterPermuted(s, t, keep);
    var p, q := Filter(s, keep), Filter(t, keep);
    if |p| == 1 {
      assert p == [p[0]] && q == [q[0]];
      assert p[0] in multiset(p) && p[0] in multiset(q);
    }
  }

  lemma VerdictReordered(env: Env, a: Attempt, s: seq<Attempt>, t: seq<Attempt>)
    requires multiset(s) == multiset(t)
    ensures InstallVerdict(env, a, s) == InstallVerdict(env, a, t)
  {
    SameOrNotOne(s, t, ClickOf(a));
    forall ref
      ensures Filter(s, ReferencedClick(a, ref)) == Filter(t, ReferencedClick(a, ref))
           || (|Filter(s, ReferencedClick(a, ref))| == |Filter(t, ReferencedClick(a, ref))| != 1)
    {
      SameOrNotOne(s, t, ReferencedClick(a, ref));
    }
    VerdictDependsOn(env, a, s, t);
  }

  lemma AttributionsReordered(env: Env, s: seq<Attempt>, t: seq<Attempt>, lifecycle: map<EvidenceKey, Lifecycle>)
    requires multiset(s) == multiset(t)
    ensures multiset(BaseAttributions(env, s, lifecycle)) == multiset(BaseAttributions(env, t, lifecycle))
  {
    FilterPermuted(s, t, IsInstall);
    FilterPermuted(s, t, IsPostback);
    FilterPermuted(s, t, IsOpen);
    forall a ensures InstallAttribution(env, s, lifecycle)(a) == InstallAttribution(env, t, lifecycle)(a) {
      VerdictReordered(env, a, s, t);
    }
    ImageReordered(Filter(s, IsInstall), Filter(t, IsInstall), InstallAttribution(env, s, lifecycle),
                   InstallAttribution(env, t, lifecycle));
    MapPermuted(Filter(s, IsPostback), Filter(t, IsPostback), PostbackAttribution(lifecycle));
    MapPermuted(Filter(s, IsOpen), Filter(t, IsOpen), OpenAttribution(lifecycle));
  }

  // ---- Each output list, then the whole output ----

  lemma DeliveriesReordered(env: Env, s: seq<Attempt>, t: seq<Attempt>, pre: seq<PreRejection>, pre': seq<PreRejection>)
    requires Injective(env.digest) && Reordered(env, s, t) && multiset(pre) == multiset(pre')
    ensures DeliveriesOf(env, s, pre) == DeliveriesOf(env, t, pre')
  {
    var key := DeliveryKey(env);
    DecisionsReordered(env, s, t);
    var f, g := DeliveryFor(DecisionOf(env, s)), DeliveryFor(DecisionOf(env, t));
    ImageReordered(s, t, f, g);
    SortPermutes(Map(s, f), key);
    SortPermutes(Map(t, g), key);
    MapPermuted(pre, pre', PreDelivery);
    forall x: Delivery, y: Delivery | key(x) == key(y) ensures x == y {
      OutputKeyInjective(env, [x.deliveryId, x.recordId, x.tenantId, x.appId], DeliveryArtifact(x),
                         [y.deliveryId, y.recordId, y.tenantId, y.appId], DeliveryArtifact(y));
    }
    SortCanonical(Sort(Map(s, f), key) + Map(pre, PreDelivery), Sort(Map(t, g), key) + Map(pre', PreDelivery), key);
  }

  lemma RejectionsReordered(env: Env, s: seq<Attempt>, t: seq<Attempt>, pre: seq<PreRejection>, pre': seq<PreRejection>)
    requires Injective(env.digest) && Reordered(env, s, t) && multiset(pre) == multiset(pre')
    ensures RejectionsOf(env, s, pre) == RejectionsOf(env, t, pre')
  {
    var key := RejectionKey(env);
    var d, e := DecisionOf(env, s), DecisionOf(env, t);
    DecisionsReordered(env, s, t);
    SelectionReordered(s, t, RejectedBy(d), RejectedBy(e));
    FilterMembers(s, RejectedBy(d));
    ImageReordered(Filter(s, RejectedBy(d)), Filter(t, RejectedBy(e)), RejectionFor(d), RejectionFor(e));
    MapPermuted(pre, pre', PreRejected);
    forall x: Rejection, y: Rejection | key(x) == key(y) ensures x == y {
      OutputKeyInjective(env, [x.deliveryId, x.recordId, x.tenantId, x.appId], RejectionArtifact(x),
                         [y.deliveryId, y.recordId, y.tenantId, y.appId], RejectionArtifact(y));
    }
    SortCanonical(Map(Filter(s, RejectedBy(d)), RejectionFor(d)) + Map(pre, PreRejected),
                  Map(Filter(t, RejectedBy(e)), RejectionFor(e)) + Map(pre', PreRejected), key);
  }

  lemma RawReordered(env: Env, s: seq<Attempt>, t: seq<Attempt>, lifecycle: map<EvidenceKey, Lifecycle>)
    requires Injective(env.digest) && Reordered(env, s, t)
    ensures RawOf(env, s, lifecycle) == RawOf(env, t, lifecycle)
  {
    var key := RawKey(env);
    AcceptedReordered(env, s, t);
    var p, q := AcceptedOf(env, s) + ConflictsOf(env, s), AcceptedOf(env, t) + ConflictsOf(env, t);
    FilterPermuted(p, q, Retained(lifecycle));
    MapPermuted(Filter(p, Retained(lifecycle)), Filter(q, Retained(lifecycle)), RawRecordFor(env));
    forall x: RawRecord, y: RawRecord | key(x) == key(y) ensures x == y {
      OutputKeyInjective(env, [x.recordId, x.tenantId, x.appId, x.deliveryId], RawArtifact(x),
                         [y.recordId, y.tenantId, y.appId, y.deliveryId], RawArtifact(y));
    }
    SortCanonical(Map(Filter(p, Retained(lifecycle)), RawRecordFor(env)),
                  Map(Filter(q, Retained(lifecycle)), RawRecordFor(env)), key);
  }

  lemma LogicalReordered(env: Env, s: seq<Attempt>, t: seq<Attempt>, lifecycle: map<EvidenceKey, Lifecycle>)
    requires Injective(env.digest) && Reordered(env, s, t)
    ensures LogicalOf(env, s, lifecycle) == LogicalOf(env, t, lifecycle)
  {
    var key := LogicalKey(env);
    AcceptedReordered(env, s, t);
    var p, q := AcceptedOf(env, s), AcceptedOf(env, t);
    FilterPermuted(p, q, Retained(lifecycle));
    MapPermuted(Filter(p, Retained(lifecycle)), Filter(q, Retained(lifecycle)), LogicalFor);
    LogicalKeyInjective(env);
    SortCanonical(Map(Filter(p, Retained(lifecycle)), LogicalFor), Map(Filter(q, Retained(lifecycle)), LogicalFor),
                  key);
  }

  lemma LogicalKeyInjective(env: Env)
    requires Injective(env.digest)
    ensures forall x, y :: LogicalKey(env)(x) == LogicalKey(env)(y) ==> x == y
  {
    forall x: LogicalEvent, y: LogicalEvent | LogicalKey(env)(x) == LogicalKey(env)(y) ensures x == y {
      OutputKeyInjective(env, [x.logicalEventId, x.tenantId, x.appId], LogicalArtifact(x),
                         [y.logicalEventId, y.tenantId, y.appId], LogicalArtifact(y));
    }
  }

  lemma AttributionOutputReordered(env: Env, s: seq<Attempt>, t: seq<Attempt>, lifecycle: map<EvidenceKey, Lifecycle>)
    requires Injective(env.digest) && Reordered(env, s, t)
    ensures AttributionsOf(env, s, lifecycle) == AttributionsOf(env, t, lifecycle)
  {
    var key := AttributionKey(env);
    AcceptedReordered(env, s, t);
    AttributionsReordered(env, AcceptedOf(env, s), AcceptedOf(env, t), lifecycle);
    forall x: Attribution, y: Attribution | key(x) == key(y) ensures x == y {
      OutputKeyInjective(env, [x.id, x.tenantId, x.appId], AttributionArtifact(x),
                         [y.id, y.tenantId, y.appId], AttributionArtifact(y));
    }
    SortCanonical(BaseAttributions(env, AcceptedOf(env, s), lifecycle),
                  BaseAttributions(env, AcceptedOf(env, t), lifecycle), key);
  }

  lemma EvaluableReordered(env: Env, s: seq<Attempt>, t: seq<Attempt>)
    requires Injective(env.digest) && Reordered(env, s, t) && Evaluable(env, s)
    ensures Evaluable(env, t)
  {
    var p, q := AcceptedOf(env, s), AcceptedOf(env, t);
    PermutedMembers(s, t);
    assert ChecksPass(env, t) by {
      forall a | a in t ensures RefundTargetExists(a, t) {
        assert RefundTargetExists(a, s);
      }
    }
    AcceptedReordered(env, s, t);
    PermutedMembers(p, q);
    forall a | a in q && IsInstall(a) ensures InstallVerdict(env, a, q).Ok? {
      VerdictReordered(env, a, p, q);
    }
    var i, j := Filter(p, IsInstall), Filter(q, IsInstall);
    FilterPermuted(p, q, IsInstall);
    PermutedMembers(i, j);
    MapPermuted(i, j, InstallKey);
    forall a | a in j ensures AnchorRules(a, j) {
      assert AnchorRules(a, i);
    }
  }

  lemma FlattenReordered(env: Env, a: seq<Batch>, b: seq<Batch>)
    requires multiset(RawAttempts(a)) == multiset(RawAttempts(b))
    ensures Reordered(env, Flatten(env, a), Flatten(env, b))
    ensures Reordered(env, Flatten(env, b), Flatten(env, a))
  {
    SortPermutes(RawAttempts(a), AttemptKey(env));
    SortPermutes(RawAttempts(b), AttemptKey(env));
    SortKeysCanonical(RawAttempts(a), RawAttempts(b), AttemptKey(env));
  }

  /**
   Two inputs that deliver the same attempts in any order, grouped into the same batches, fail together or give
   identical output sequences, including when deliveries tie on the whole sort key.
   */
  lemma EvaluateOrderIndependent(env: Env, a: Input, b: Input)
    requires Injective(env.digest)
    requires multiset(RawAttempts(a.batches)) == multiset(RawAttempts(b.batches))
    requires multiset(a.preRejections) == multiset(b.preRejections) && a.lifecycle == b.lifecycle
    ensures Evaluate(env, a) == Evaluate(env, b)
  {
    var s, t := Flatten(env, a.batches), Flatten(env, b.batches);
    FlattenReordered(env, a.batches, b.batches);
    if Evaluable(env, s) {
      EvaluableReordered(env, s, t);
    }
    if Evaluable(env, t) {
      EvaluableReordered(env, t, s);
    }
    DeliveriesReordered(env, s, t, a.preRejections, b.preRejections);
    RejectionsReordered(env, s, t, a.preRejections, b.preRejections);
    RawReordered(env, s, t, a.lifecycle);
    LogicalReordered(env, s, t, a.lifecycle);
    AttributionOutputReordered(env, s, t, a.lifecycle);
  }

  // ---- Reordering batches, and records inside batches, is such a rearrangement ----

  lemma {:induction false} RawAttemptsConcat(a: seq<Batch>, b: seq<Batch>)
    ensures RawAttempts(a + b) == RawAttempts(a) + RawAttempts(b)
  {
    if a == [] {
      assert a + b == b;
    } else {
      assert (a + b)[1..] == a[1..] + b;
      RawAttemptsConcat(a[1..], b);
    }
  }

  lemma {:induction false} BatchesPermuted(a: seq<Batch>, b: seq<Batch>)
    requires multiset(a) == multiset(b)
    ensures multiset(RawAttempts(a)) == multiset(RawAttempts(b))
    decreases |a|
  {
    if a == [] {
      assert |multiset(b)| == 0;
    } else {
      var i := IndexOf(b, a[0], multiset(a));
      RemoveHead(a, b, i);
      BatchesPermuted(a[1..], b[..i] + b[i + 1..]);
      RawAttemptsConcat(b[..i], b[i + 1..]);
      RawAttemptsConcat(b[..i], [b[i]] + b[i + 1..]);
    }
  }

  /** Batch by batch the same batch with its records in another order. */
  ghost predicate RecordsPermuted(a: seq<Batch>, b: seq<Batch>) {
    |a| == |b| && forall i :: 0 <= i < |a| ==>
      a[i].id == b[i].id && a[i].server == b[i].server && multiset(a[i].records) == multiset(b[i].records)
  }

  lemma {:induction false} RecordsPermutedAttempts(a: seq<Batch>, b: seq<Batch>)
    requires RecordsPermuted(a, b)
    ensures multiset(RawAttempts(a)) == multiset(RawAttempts(b))
  {
    if a != [] {
      assert a[0].id == b[0].id;
      MapPermuted(a[0].records, b[0].records, (r: Record) => Attempt(a[0].server, r, a[0].id));
      assert RecordsPermuted(a[1..], b[1..]);
      RecordsPermutedAttempts(a[1..], b[1..]);
    }
  }

  /** Any reordering of the batches, and of the records inside each batch, leaves every output sequence unchanged. */
  lemma ReorderingInvariant(env: Env, a: Input, shuffled: seq<Batch>, b: Input)
    requires Injective(env.digest)
    requires RecordsPermuted(a.batches, shuffled) && multiset(shuffled) == multiset(b.batches)
    requires multiset(a.preRejections) == multiset(b.preRejections) && a.lifecycle == b.lifecycle
    ensures Evaluate(env, a) == Evaluate(env, b)
  {
    RecordsPermutedAttempts(a.batches, shuffled);
    BatchesPermuted(shuffled, b.batches);
    EvaluateOrderIndependent(env, a, b);
  }
}
