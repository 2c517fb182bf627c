/** Nothing delivered is lost or counted twice. */
module Conservation {
  import opened Outcomes
  import opened Contract
  import opened Sequences
  import opened CanonicalOrder
  import opened Decisions
  import opened Evaluation
  import opened LogicalIds

  datatype Receipt = Receipt(deliveryId: string, recordId: string, tenantId: string, appId: string)
  datatype Refusal = Refusal(receipt: Receipt, reason: Option<Reason>, disposition: Disposition)

  function ReceiptOf(a: Attempt): Receipt {
    Receipt(a.record.deliveryId, a.record.recordId, a.server.tenantId, a.server.appId)
  }

  function PreReceipt(p: PreRejection): Receipt { Receipt(p.deliveryId, p.recordId, p.tenantId, p.appId) }

  function DeliveryReceipt(d: Delivery): Receipt { Receipt(d.deliveryId, d.recordId, d.tenantId, d.appId) }

  function DeliveryRefusal(d: Delivery): Refusal {
    Refusal(DeliveryReceipt(d), d.decision.reason, d.decision.disposition)
  }

  function RejectionRefusal(r: Rejection): Refusal {
    Refusal(Receipt(r.deliveryId, r.recordId, r.tenantId, r.appId), Some(r.reason), r.disposition)
  }

  predicate IsRejected(d: Delivery) { d.decision.status.Rejected? }

  lemma {:induction false} MapMap<T, U, V>(xs: seq<T>, f: T -> U, g: U -> V, h: T -> V)
    requires forall x :: x in xs ==> g(f(x)) == h(x)
    ensures Map(Map(xs, f), g) == Map(xs, h)
  {
    if xs != [] {
      MapMap(xs[1..], f, g, h);
      assert Map(xs, f)[1..] == Map(xs[1..], f);
    }
  }

  function AllDeliveries(env: Env, s: seq<Attempt>, pre: seq<PreRejection>): seq<Delivery> {
    Map(s, DeliveryFor(DecisionOf(env, s))) + Map(pre, PreDelivery)
  }

  lemma DeliveriesUnsorted(env: Env, s: seq<Attempt>, pre: seq<PreRejection>)
    ensures multiset(DeliveriesOf(env, s, pre)) == multiset(AllDeliveries(env, s, pre))
  {
    var f, key := DeliveryFor(DecisionOf(env, s)), DeliveryKey(env);
    SortPermutes(Map(s, f), key);
    SortPermutes(Sort(Map(s, f), key) + Map(pre, PreDelivery), key);
  }

  /** Every attempt, and every delivery refused beforehand, has exactly one delivery in the output. */
  lemma OneDeliveryPerAttempt(env: Env, s: seq<Attempt>, pre: seq<PreRejection>)
    ensures multiset(Map(DeliveriesOf(env, s, pre), DeliveryReceipt))
         == multiset(Map(s, ReceiptOf)) + multiset(Map(pre, PreReceipt))
  {
    var f := DeliveryFor(DecisionOf(env, s));
    DeliveriesUnsorted(env, s, pre);
    MapPermuted(DeliveriesOf(env, s, pre), AllDeliveries(env, s, pre), DeliveryReceipt);
    MapConcat(Map(s, f), Map(pre, PreDelivery), DeliveryReceipt);
    MapMap(s, f, DeliveryReceipt, ReceiptOf);
    MapMap(pre, PreDelivery, DeliveryReceipt, PreReceipt);
  }

  /** A decision is rejected exactly when it has a reason. */
  lemma RejectedWithReason(env: Env, a: Attempt, s: seq<Attempt>)
    ensures DecisionOf(env, s)(a).status.Rejected? <==> DecisionOf(env, s)(a).reason.Some?
  {
    var decided := Decide(env, a, s);
    assert DecisionOf(env, s)(a) == decided.Or(InvalidTimestamp(a));
  }

  function AttemptRefusal(decide: Attempt -> Decision): Attempt -> Refusal {
    (a: Attempt) => Refusal(ReceiptOf(a), decide(a).reason, decide(a).disposition)
  }

  function PreRefusal(p: PreRejection): Refusal {
    Refusal(PreReceipt(p), Some(PreIngestion(p.reason)), Discarded)
  }

  /**
   Every rejected delivery has exactly one rejection, with the same reason and disposition, and nothing else has
   one.
   */
  lemma OneRejectionPerRejectedDelivery(env: Env, s: seq<Attempt>, pre: seq<PreRejection>)
    ensures multiset(Map(RejectionsOf(env, s, pre), RejectionRefusal))
         == multiset(Map(Filter(DeliveriesOf(env, s, pre), IsRejected), DeliveryRefusal))
  {
    var decide := DecisionOf(env, s);
    var f, rejected := DeliveryFor(decide), Filter(s, RejectedBy(decide));
    // Rejections, unsorted, are the refusals of the rejected attempts and of the refused deliveries.
    var listed := Map(rejected, RejectionFor(decide)) + Map(pre, PreRejected);
    SortPermutes(listed, RejectionKey(env));
    MapPermuted(RejectionsOf(env, s, pre), listed, RejectionRefusal);
    MapConcat(Map(rejected, RejectionFor(decide)), Map(pre, PreRejected), RejectionRefusal);
    forall a | a in rejected ensures RejectionRefusal(RejectionFor(decide)(a)) == AttemptRefusal(decide)(a) {
      FilterMember(s, RejectedBy(decide), a);
      RejectedWithReason(env, a, s);
    }
    MapMap(rejected, RejectionFor(decide), RejectionRefusal, AttemptRefusal(decide));
    MapMap(pre, PreRejected, RejectionRefusal, PreRefusal);
    // So are the rejected deliveries.
    DeliveriesUnsorted(env, s, pre);
    FilterPermuted(DeliveriesOf(env, s, pre), AllDeliveries(env, s, pre), IsRejected);
    FilterConcat(Map(s, f), Map(pre, PreDelivery), IsRejected);
    MapFilter(s, f, RejectedBy(decide), IsRejected);
    MapMembers(pre, PreDelivery);
    FilterAll(Map(pre, PreDelivery), IsRejected);
    MapPermuted(Filter(DeliveriesOf(env, s, pre), IsRejected), Map(rejected, f) + Map(pre, PreDelivery),
                DeliveryRefusal);
    MapConcat(Map(rejected, f), Map(pre, PreDelivery), DeliveryRefusal);
    MapMap(rejected, f, DeliveryRefusal, AttemptRefusal(decide));
    MapMap(pre, PreDelivery, DeliveryRefusal, PreRefusal);
  }

  lemma MapMembers<T, U>(xs: seq<T>, f: T -> U)
    ensures forall y :: y in Map(xs, f) ==> exists x :: x in xs && f(x) == y
  {
    forall y | y in Map(xs, f) ensures exists x :: x in xs && f(x) == y {
      MapMember(xs, f, y);
    }
  }

  // ---- Logical events and raw records ----

  /** A filter that keeps no two equal-tagged positions keeps distinct tags. */
  lemma {:induction false} DistinctTags<T, U>(xs: seq<T>, keep: T -> bool, tag: T -> U)
    requires forall i, j :: 0 <= i < j < |xs| && keep(xs[i]) && keep(xs[j]) ==> tag(xs[i]) != tag(xs[j])
    ensures Distinct(Map(Filter(xs, keep), tag))
  {
    if xs != [] {
      DistinctTags(xs[1..], keep, tag);
      var rest := Map(Filter(xs[1..], keep), tag);
      if keep(xs[0]) {
        forall k | 0 <= k < |rest| ensures rest[k] != tag(xs[0]) {
          assert rest[k] in rest;
          MapMember(Filter(xs[1..], keep), tag, rest[k]);
          var x :| x in Filter(xs[1..], keep) && tag(x) == rest[k];
          FilterMember(xs[1..], keep, x);
          var j :| 0 <= j < |xs| - 1 && xs[1..][j] == x;
          assert xs[j + 1] == x;
        }
        assert Filter(xs, keep)[1..] == Filter(xs[1..], keep);
        assert Map(Filter(xs, keep), tag) == [tag(xs[0])] + rest;
      }
    }
  }

  function LogicalScope(l: LogicalEvent): ScopeKey { (l.tenantId, l.appId, l.producer, l.eventId) }

  /** No two logical events stand for the same event of the same producer in the same scope. */
  lemma LogicalEventsDistinct(env: Env, s: seq<Attempt>, lifecycle: map<EvidenceKey, Lifecycle>)
    ensures Distinct(Map(LogicalOf(env, s, lifecycle), LogicalScope))
  {
    var accept, retain := AcceptedUnique(env, s), Retained(lifecycle);
    var both := (a: Attempt) => accept(a) && retain(a);
    FilterBoth(s, accept, retain, both);
    forall i, j | 0 <= i < j < |s| && both(s[i]) && both(s[j]) ensures EventScope(s[i]) != EventScope(s[j]) {
      if EventScope(s[i]) == EventScope(s[j]) {
        UniquePerEvent(env, s, i, j);
      }
    }
    DistinctTags(s, both, EventScope);
    var events := Map(Filter(s, both), LogicalFor);
    MapMap(Filter(s, both), LogicalFor, LogicalScope, EventScope);
    SortPermutes(events, LogicalKey(env));
    MapPermuted(events, LogicalOf(env, s, lifecycle), LogicalScope);
    DistinctPermuted(Map(events, LogicalScope), Map(LogicalOf(env, s, lifecycle), LogicalScope));
  }

  lemma LogicalComesFrom(env: Env, s: seq<Attempt>, lifecycle: map<EvidenceKey, Lifecycle>,
                         l: LogicalEvent) returns (a: Attempt)
    requires l in LogicalOf(env, s, lifecycle)
    ensures a in s && AcceptedUnique(env, s)(a) && LogicalFor(a) == l
  {
    var kept := Filter(AcceptedOf(env, s), Retained(lifecycle));
    SortMember(Map(kept, LogicalFor), LogicalKey(env), l);
    MapMember(kept, LogicalFor, l);
    a :| a in kept && LogicalFor(a) == l;
    FilterMember(AcceptedOf(env, s), Retained(lifecycle), a);
    FilterMember(s, AcceptedUnique(env, s), a);
  }

  /** Attempts of one scope, with producers the contract allows. */
  ghost predicate OneScope(s: seq<Attempt>) {
    && (forall a, b :: a in s && b in s ==> Scope(a) == Scope(b))
    && forall a :: a in s ==> ContractProducer(a.record.producer)
  }

  ghost predicate DistinctIds(events: seq<LogicalEvent>) {
    forall i, j :: 0 <= i < j < |events| ==> events[i].logicalEventId != events[j].logicalEventId
  }

  lemma SameIdSameEvent(env: Env, s: seq<Attempt>, lifecycle: map<EvidenceKey, Lifecycle>, l: LogicalEvent,
                        m: LogicalEvent)
    requires OneScope(s) && l in LogicalOf(env, s, lifecycle) && m in LogicalOf(env, s, lifecycle)
    requires l.logicalEventId == m.logicalEventId
    ensures LogicalScope(l) == LogicalScope(m)
  {
    var a := LogicalComesFrom(env, s, lifecycle, l);
    var b := LogicalComesFrom(env, s, lifecycle, m);
    assert Scope(a) == Scope(b);
    LogicalIdNamesEvent(l.tenantId, l.appId, l.producer, l.eventId, m.producer, m.eventId);
  }

  /** In one scope the evaluator never gives two logical events one ID. */
  lemma OneScopeIdsDistinct(env: Env, s: seq<Attempt>, lifecycle: map<EvidenceKey, Lifecycle>)
    requires OneScope(s)
    ensures DistinctIds(LogicalOf(env, s, lifecycle))
  {
    var events := LogicalOf(env, s, lifecycle);
    LogicalEventsDistinct(env, s, lifecycle);
    MapAt(events, LogicalScope);
    forall i, j | 0 <= i < j < |events| ensures events[i].logicalEventId != events[j].logicalEventId {
      assert Map(events, LogicalScope)[i] != Map(events, LogicalScope)[j];
      if events[i].logicalEventId == events[j].logicalEventId {
        SameIdSameEvent(env, s, lifecycle, events[i], events[j]);
      }
    }
  }

  /** An attempt kept as accepted or as conflict evidence has a record ID that occurs once among all attempts. */
  lemma KeptIdsOccurOnce(env: Env, s: seq<Attempt>, i: nat)
    requires i < |s| && (AcceptedUnique(env, s)(s[i]) || Conflicting(env, s)(s[i]))
    ensures Filter(s, SameRecordId(s[i])) == [s[i]]
  {
    KeptDoesNotCollide(env, s[i], s);
    FilterMember(s, SameRecordId(s[i]), s[i]);
  }
}
