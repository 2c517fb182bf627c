/**
 Evaluating history plus the pending deliveries, and keeping only what is new, agrees with one evaluation of
 everything.
 */
module Incremental {
  import opened Contract
  import opened Sequences
  import opened CanonicalOrder
  import opened Decisions
  import opened Evaluation
  import opened Conservation

  function At(env: Env, attempts: seq<Attempt>): seq<Attempt> { Sort(attempts, AttemptKey(env)) }

  /** The pending deliveries sort after the history and name none of its record IDs. */
  ghost predicate ComesAfter(env: Env, history: seq<Attempt>, pending: seq<Attempt>) {
    forall h, p :: h in history && p in pending ==>
      KeyLe(AttemptKey(env)(h), AttemptKey(env)(p)) && h.record.recordId != p.record.recordId
  }

  lemma SplitsAtHistory(env: Env, history: seq<Attempt>, pending: seq<Attempt>)
    requires ComesAfter(env, history, pending)
    ensures At(env, history + pending) == At(env, history) + At(env, pending)
  {
    SortAppend(history, pending, AttemptKey(env));
  }

  /** No earlier delivery's decision changes when later deliveries are evaluated with it. */
  lemma DecisionIsFinal(env: Env, a: Attempt, history: seq<Attempt>, pending: seq<Attempt>)
    requires ComesAfter(env, history, pending) && a in history
    ensures DecisionOf(env, At(env, history + pending))(a) == DecisionOf(env, At(env, history))(a)
    ensures AcceptedUnique(env, At(env, history + pending))(a) == AcceptedUnique(env, At(env, history))(a)
    ensures Conflicting(env, At(env, history + pending))(a) == Conflicting(env, At(env, history))(a)
  {
    var s, t := At(env, history), At(env, pending);
    SplitsAtHistory(env, history, pending);
    forall x | x in t ensures !SameRecordId(a)(x) {
      SortMember(pending, AttemptKey(env), x);
    }
    FilterNone(t, SameRecordId(a));
    FilterConcat(s, t, SameRecordId(a));
    assert Filter(s, SameRecordId(a)) + [] == Filter(s, SameRecordId(a));
    FilterConcat(s, t, SameEvent(a));
    SortMember(history, AttemptKey(env), a);
    FilterMember(s, SameEvent(a), a);
    DecisionDependsOn(env, a, s + t, s);
  }

  lemma HistorySelected(env: Env, history: seq<Attempt>, pending: seq<Attempt>, keep: Attempt -> bool,
                        keep': Attempt -> bool)
    requires ComesAfter(env, history, pending)
    requires forall a :: a in history ==> keep(a) == keep'(a)
    ensures Filter(At(env, history + pending), keep) == Filter(At(env, history), keep') + Filter(At(env, pending), keep)
  {
    SplitsAtHistory(env, history, pending);
    FilterConcat(At(env, history), At(env, pending), keep);
    forall a | a in At(env, history) ensures keep(a) == keep'(a) {
      SortMember(history, AttemptKey(env), a);
    }
    FilterAgree(At(env, history), keep, keep');
  }

  /** The accepted attempts of everything are those of the history followed by newly accepted pending ones. */
  lemma AcceptedGrow(env: Env, history: seq<Attempt>, pending: seq<Attempt>)
    requires ComesAfter(env, history, pending)
    ensures AcceptedOf(env, At(env, history + pending))
         == AcceptedOf(env, At(env, history))
            + Filter(At(env, pending), AcceptedUnique(env, At(env, history + pending)))
  {
    var all, s := At(env, history + pending), At(env, history);
    forall a | a in history ensures AcceptedUnique(env, all)(a) == AcceptedUnique(env, s)(a) {
      DecisionIsFinal(env, a, history, pending);
    }
    HistorySelected(env, history, pending, AcceptedUnique(env, all), AcceptedUnique(env, s));
  }

  // ---- The runtime's selection of current artifacts ----

  function RecordIds(attempts: seq<Attempt>): set<string> { set a | a in attempts :: a.record.recordId }
  function DeliveryIds(attempts: seq<Attempt>): set<string> { set a | a in attempts :: a.record.deliveryId }

  function CurrentLogical(pending: seq<Attempt>): LogicalEvent -> bool {
    (l: LogicalEvent) => l.recordId in RecordIds(pending)
  }

  function CurrentDelivery(pending: seq<Attempt>): Delivery -> bool {
    (d: Delivery) => d.recordId in RecordIds(pending) || d.deliveryId in DeliveryIds(pending)
  }

  /** The logical events one ingestion keeps: those of the combined evaluation that name a pending record. */
  function KeptLogical(env: Env, history: seq<Attempt>, pending: seq<Attempt>,
                       lifecycle: map<EvidenceKey, Lifecycle>): seq<LogicalEvent> {
    Filter(LogicalOf(env, At(env, history + pending), lifecycle), CurrentLogical(pending))
  }

  function KeptDeliveries(env: Env, history: seq<Attempt>, pending: seq<Attempt>): seq<Delivery> {
    Filter(DeliveriesOf(env, At(env, history + pending), []), CurrentDelivery(pending))
  }

  /** A filter that keeps nothing of one part and all of the other keeps, after sorting, exactly the other part. */
  lemma KeepsSecondPart<U>(xs: seq<U>, ys: seq<U>, key: U -> Key, keep: U -> bool)
    requires (forall x :: x in xs ==> !keep(x)) && (forall y :: y in ys ==> keep(y))
    ensures multiset(Filter(Sort(xs + ys, key), keep)) == multiset(ys)
  {
    FilterSort(xs + ys, key, keep);
    FilterConcat(xs, ys, keep);
    FilterNone(xs, keep);
    FilterAll(ys, keep);
    assert [] + ys == ys;
    SortPermutes(ys, key);
  }

  lemma LogicalParts(env: Env, history: seq<Attempt>, pending: seq<Attempt>, lifecycle: map<EvidenceKey, Lifecycle>)
    returns (old_: seq<LogicalEvent>, new_: seq<LogicalEvent>)
    requires ComesAfter(env, history, pending)
    ensures LogicalOf(env, At(env, history + pending), lifecycle) == Sort(old_ + new_, LogicalKey(env))
    ensures LogicalOf(env, At(env, history), lifecycle) == Sort(old_, LogicalKey(env))
    ensures forall x :: x in old_ ==> !CurrentLogical(pending)(x)
    ensures forall y :: y in new_ ==> CurrentLogical(pending)(y)
  {
    var all, s, t := At(env, history + pending), At(env, history), At(env, pending);
    var p, q := AcceptedOf(env, s), Filter(t, AcceptedUnique(env, all));
    AcceptedGrow(env, history, pending);
    FilterConcat(p, q, Retained(lifecycle));
    MapConcat(Filter(p, Retained(lifecycle)), Filter(q, Retained(lifecycle)), LogicalFor);
    old_, new_ := Map(Filter(p, Retained(lifecycle)), LogicalFor), Map(Filter(q, Retained(lifecycle)), LogicalFor);
    forall x | x in old_ ensures !CurrentLogical(pending)(x) {
      var a := LogicalSource(p, lifecycle, x);
      FilterMember(s, AcceptedUnique(env, s), a);
      SortMember(history, AttemptKey(env), a);
    }
    forall y | y in new_ ensures CurrentLogical(pending)(y) {
      var a := LogicalSource(q, lifecycle, y);
      FilterMember(t, AcceptedUnique(env, all), a);
      SortMember(pending, AttemptKey(env), a);
    }
  }

  lemma LogicalSource(accepted: seq<Attempt>, lifecycle: map<EvidenceKey, Lifecycle>,
                      l: LogicalEvent) returns (a: Attempt)
    requires l in Map(Filter(accepted, Retained(lifecycle)), LogicalFor)
    ensures a in accepted && LogicalFor(a) == l
  {
    MapMember(Filter(accepted, Retained(lifecycle)), LogicalFor, l);
    a :| a in Filter(accepted, Retained(lifecycle)) && LogicalFor(a) == l;
    FilterMember(accepted, Retained(lifecycle), a);
  }

  /** One ingestion adds to the logical events of the history exactly what one evaluation of everything adds. */
  lemma LogicalStep(env: Env, history: seq<Attempt>, pending: seq<Attempt>, lifecycle: map<EvidenceKey, Lifecycle>)
    requires ComesAfter(env, history, pending)
    ensures multiset(LogicalOf(env, At(env, history + pending), lifecycle))
         == multiset(LogicalOf(env, At(env, history), lifecycle)) + multiset(KeptLogical(env, history, pending, lifecycle))
  {
    var key := LogicalKey(env);
    var o, n := LogicalParts(env, history, pending, lifecycle);
    KeepsSecondPart(o, n, key, CurrentLogical(pending));
    SortPermutes(o + n, key);
    SortPermutes(o, key);
  }

  // ---- Deliveries: appended without a conflict clause ----

  function ReusesDeliveryId(pending: seq<Attempt>): Attempt -> bool {
    (a: Attempt) => a.record.deliveryId in DeliveryIds(pending)
  }

  /** The deliveries an ingestion appends: all pending ones, and again each earlier one whose delivery ID is reused. */
  lemma DeliveryStep(env: Env, history: seq<Attempt>, pending: seq<Attempt>)
    requires ComesAfter(env, history, pending)
    ensures multiset(KeptDeliveries(env, history, pending))
         == multiset(Map(pending, DeliveryFor(DecisionOf(env, At(env, history + pending)))))
            + multiset(Map(Filter(history, ReusesDeliveryId(pending)), DeliveryFor(DecisionOf(env, At(env, history)))))
  {
    var all, s, t := At(env, history + pending), At(env, history), At(env, pending);
    var f, keep := DeliveryFor(DecisionOf(env, all)), CurrentDelivery(pending);
    SplitsAtHistory(env, history, pending);
    KeptUnsorted(env, all, keep);
    MapConcat(s, t, f);
    FilterConcat(Map(s, f), Map(t, f), keep);
    OldDeliveriesKept(env, history, pending);
    NewDeliveriesKept(env, pending, DecisionOf(env, all));
  }

  lemma KeptUnsorted(env: Env, all: seq<Attempt>, keep: Delivery -> bool)
    ensures multiset(Filter(DeliveriesOf(env, all, []), keep))
         == multiset(Filter(Map(all, DeliveryFor(DecisionOf(env, all))), keep))
  {
    var f, key := DeliveryFor(DecisionOf(env, all)), DeliveryKey(env);
    var inner := Sort(Map(all, f), key);
    assert inner + Map([], PreDelivery) == inner;
    SortPermutes(Map(all, f), key);
    SortPermutes(inner, key);
    FilterPermuted(DeliveriesOf(env, all, []), Map(all, f), keep);
  }

  lemma NewDeliveriesKept(env: Env, pending: seq<Attempt>, decide: Attempt -> Decision)
    ensures multiset(Filter(Map(At(env, pending), DeliveryFor(decide)), CurrentDelivery(pending)))
         == multiset(Map(pending, DeliveryFor(decide)))
  {
    var t, f := At(env, pending), DeliveryFor(decide);
    forall d | d in Map(t, f) ensures CurrentDelivery(pending)(d) {
      MapMember(t, f, d);
      var a :| a in t && f(a) == d;
      SortMember(pending, AttemptKey(env), a);
    }
    FilterAll(Map(t, f), CurrentDelivery(pending));
    SortPermutes(pending, AttemptKey(env));
    MapPermuted(t, pending, f);
  }

  lemma OldDeliveriesKept(env: Env, history: seq<Attempt>, pending: seq<Attempt>)
    requires ComesAfter(env, history, pending)
    ensures multiset(Filter(Map(At(env, history), DeliveryFor(DecisionOf(env, At(env, history + pending)))),
                            CurrentDelivery(pending)))
         == multiset(Map(Filter(history, ReusesDeliveryId(pending)), DeliveryFor(DecisionOf(env, At(env, history)))))
  {
    var all, s := At(env, history + pending), At(env, history);
    var f, g := DeliveryFor(DecisionOf(env, all)), DeliveryFor(DecisionOf(env, s));
    forall a | a in s ensures f(a) == g(a) && ReusesDeliveryId(pending)(a) == CurrentDelivery(pending)(g(a)) {
      SortMember(history, AttemptKey(env), a);
      DecisionIsFinal(env, a, history, pending);
    }
    MapAgree(s, f, g);
    MapFilter(s, g, ReusesDeliveryId(pending), CurrentDelivery(pending));
    SortPermutes(history, AttemptKey(env));
    FilterPermuted(s, history, ReusesDeliveryId(pending));
    MapPermuted(Filter(s, ReusesDeliveryId(pending)), Filter(history, ReusesDeliveryId(pending)), g);
  }

  /**
   Appending the kept deliveries gives the deliveries of one evaluation of everything if and only if no earlier
   delivery's ID is reused by a pending one.
   */
  lemma DeliveriesAgreeExactlyWhenIdsAreFresh(env: Env, history: seq<Attempt>, pending: seq<Attempt>)
    requires ComesAfter(env, history, pending)
    ensures multiset(DeliveriesOf(env, At(env, history + pending), []))
            == multiset(DeliveriesOf(env, At(env, history), [])) + multiset(KeptDeliveries(env, history, pending))
       <==> forall h, p :: h in history && p in pending ==> h.record.deliveryId != p.record.deliveryId
  {
    var again := Filter(history, ReusesDeliveryId(pending));
    var g := DeliveryFor(DecisionOf(env, At(env, history)));
    DeliveryStep(env, history, pending);
    OneShotDeliveries(env, history);
    OneShotSplits(env, history, pending);
    MapAt(again, g);
    var f := DeliveryFor(DecisionOf(env, At(env, history + pending)));
    NothingExtra(multiset(Map(history, g)), multiset(Map(pending, f)), Map(again, g));
    FreshIffNoneAgain(history, pending);
  }

  lemma OneShotSplits(env: Env, history: seq<Attempt>, pending: seq<Attempt>)
    requires ComesAfter(env, history, pending)
    ensures multiset(DeliveriesOf(env, At(env, history + pending), []))
         == multiset(Map(history, DeliveryFor(DecisionOf(env, At(env, history)))))
            + multiset(Map(pending, DeliveryFor(DecisionOf(env, At(env, history + pending)))))
  {
    var f := DeliveryFor(DecisionOf(env, At(env, history + pending)));
    var g := DeliveryFor(DecisionOf(env, At(env, history)));
    OneShotDeliveries(env, history + pending);
    MapConcat(history, pending, f);
    forall a | a in history ensures f(a) == g(a) {
      DecisionIsFinal(env, a, history, pending);
    }
    MapAgree(history, f, g);
  }

  lemma NothingExtra(a: multiset<Delivery>, b: multiset<Delivery>, extra: seq<Delivery>)
    ensures a + b == a + (b + multiset(extra)) <==> extra == []
  {
    var m := a + b;
    assert a + (b + multiset(extra)) == m + multiset(extra);
    assert |m + multiset(extra)| == |m| + |multiset(extra)| && |multiset(extra)| == |extra|;
  }

  lemma FreshIffNoneAgain(history: seq<Attempt>, pending: seq<Attempt>)
    ensures Filter(history, ReusesDeliveryId(pending)) == []
       <==> forall h, p :: h in history && p in pending ==> h.record.deliveryId != p.record.deliveryId
  {
    FilterMembers(history, ReusesDeliveryId(pending));
    if h, p :| h in history && p in pending && h.record.deliveryId == p.record.deliveryId {
      assert ReusesDeliveryId(pending)(h);
      FilterMember(history, ReusesDeliveryId(pending), h);
    } else {
      FilterNone(history, ReusesDeliveryId(pending));
    }
  }

  lemma OneShotDeliveries(env: Env, attempts: seq<Attempt>)
    ensures multiset(DeliveriesOf(env, At(env, attempts), []))
         == multiset(Map(attempts, DeliveryFor(DecisionOf(env, At(env, attempts)))))
  {
    var s := At(env, attempts);
    var f, key := DeliveryFor(DecisionOf(env, s)), DeliveryKey(env);
    var inner := Sort(Map(s, f), key);
    assert inner + Map([], PreDelivery) == inner;
    SortPermutes(inner, key);
    SortPermutes(Map(s, f), key);
    SortPermutes(attempts, AttemptKey(env));
    MapPermuted(s, attempts, f);
  }
}
