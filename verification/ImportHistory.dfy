/** An import evaluates a chunk of rows with the earlier deliveries of the chunk's own events, not with all history. */
module ImportHistory {
  import opened Outcomes
  import opened Contract
  import opened Sequences
  import opened CanonicalOrder
  import opened Decisions
  import opened Evaluation
  import opened Incremental
  import opened ScopeSplit

  function EventsOf(chunk: seq<Attempt>): set<(string, string, string, string)> { set a | a in chunk :: EventScope(a) }

  function OfChunk(chunk: seq<Attempt>): Attempt -> bool {
    (a: Attempt) => EventScope(a) in EventsOf(chunk)
  }

  function ChunkHistory(history: seq<Attempt>, chunk: seq<Attempt>): seq<Attempt> { Filter(history, OfChunk(chunk)) }

  function RecordOfChunk(chunk: seq<Attempt>): Attempt -> bool {
    (a: Attempt) => a.record.recordId in RecordIds(chunk)
  }

  ghost predicate NewRecords(history: seq<Attempt>, chunk: seq<Attempt>) {
    forall h, p :: h in history && p in chunk ==> h.record.recordId != p.record.recordId
  }

  ghost predicate NewDeliveries(history: seq<Attempt>, chunk: seq<Attempt>) {
    forall h, p :: h in history && p in chunk ==> h.record.deliveryId != p.record.deliveryId
  }

  lemma ChunkEvaluated(env: Env, history: seq<Attempt>, chunk: seq<Attempt>)
    ensures At(env, ChunkHistory(history, chunk) + chunk) == Filter(At(env, history + chunk), OfChunk(chunk))
  {
    FilterConcat(history, chunk, OfChunk(chunk));
    FilterAll(chunk, OfChunk(chunk));
    FilterSort(history + chunk, AttemptKey(env), OfChunk(chunk));
  }

  /** The chunk's own deliveries are decided as with all history. */
  lemma ChunkHistoryDecides(env: Env, history: seq<Attempt>, chunk: seq<Attempt>, a: Attempt)
    requires NewRecords(history, chunk) && a in chunk
    ensures DecisionOf(env, At(env, ChunkHistory(history, chunk) + chunk))(a)
         == DecisionOf(env, At(env, history + chunk))(a)
    ensures AcceptedUnique(env, At(env, ChunkHistory(history, chunk) + chunk))(a)
         == AcceptedUnique(env, At(env, history + chunk))(a)
  {
    var all := At(env, history + chunk);
    ChunkEvaluated(env, history, chunk);
    forall x | x in all && (SameRecordId(a)(x) || SameEvent(a)(x)) ensures OfChunk(chunk)(x) {
      SortMember(history + chunk, AttemptKey(env), x);
    }
    FilterWithin(all, OfChunk(chunk), SameRecordId(a));
    FilterWithin(all, OfChunk(chunk), SameEvent(a));
    DecisionDependsOn(env, a, Filter(all, OfChunk(chunk)), all);
  }

  lemma OwnRecords(env: Env, history: seq<Attempt>, chunk: seq<Attempt>, x: Attempt)
    requires NewRecords(history, chunk) && x in At(env, history + chunk) && RecordOfChunk(chunk)(x)
    ensures x in chunk
  {
    SortMember(history + chunk, AttemptKey(env), x);
  }

  lemma KeptOfChunk(env: Env, history: seq<Attempt>, chunk: seq<Attempt>, lifecycle: map<EvidenceKey, Lifecycle>)
    ensures KeptLogical(env, history, chunk, lifecycle)
         == Sort(Map(Filter(Filter(Filter(At(env, history + chunk), RecordOfChunk(chunk)), AcceptedUnique(env, At(env, history + chunk))),
                            Retained(lifecycle)), LogicalFor), LogicalKey(env))
  {
    var all := At(env, history + chunk);
    var kept := Filter(AcceptedOf(env, all), Retained(lifecycle));
    SortedImageInScope(kept, LogicalKey(env), LogicalFor, LogicalFor, RecordOfChunk(chunk), CurrentLogical(chunk));
    FilterSwap(AcceptedOf(env, all), Retained(lifecycle), RecordOfChunk(chunk));
    FilterSwap(all, AcceptedUnique(env, all), RecordOfChunk(chunk));
  }

  lemma ChunkRecords(env: Env, history: seq<Attempt>, chunk: seq<Attempt>)
    requires NewRecords(history, chunk)
    ensures Filter(At(env, ChunkHistory(history, chunk) + chunk), RecordOfChunk(chunk))
         == Filter(At(env, history + chunk), RecordOfChunk(chunk))
    ensures forall a :: a in Filter(At(env, history + chunk), RecordOfChunk(chunk)) ==> a in chunk
  {
    var all := At(env, history + chunk);
    ChunkEvaluated(env, history, chunk);
    forall x | x in all && RecordOfChunk(chunk)(x) ensures OfChunk(chunk)(x) && x in chunk {
      OwnRecords(env, history, chunk, x);
    }
    FilterWithin(all, OfChunk(chunk), RecordOfChunk(chunk));
    forall a | a in Filter(all, RecordOfChunk(chunk)) ensures a in chunk {
      FilterMember(all, RecordOfChunk(chunk), a);
    }
  }

  /** A chunk adds the same logical events as with all history. */
  lemma ChunkHistoryKeepsLogical(env: Env, history: seq<Attempt>, chunk: seq<Attempt>,
                                 lifecycle: map<EvidenceKey, Lifecycle>)
    requires NewRecords(history, chunk)
    ensures KeptLogical(env, ChunkHistory(history, chunk), chunk, lifecycle)
         == KeptLogical(env, history, chunk, lifecycle)
  {
    var all, some := At(env, history + chunk), At(env, ChunkHistory(history, chunk) + chunk);
    KeptOfChunk(env, history, chunk, lifecycle);
    KeptOfChunk(env, ChunkHistory(history, chunk), chunk, lifecycle);
    ChunkRecords(env, history, chunk);
    forall a | a in Filter(all, RecordOfChunk(chunk))
      ensures AcceptedUnique(env, some)(a) == AcceptedUnique(env, all)(a)
    {
      ChunkHistoryDecides(env, history, chunk, a);
    }
    FilterAgree(Filter(all, RecordOfChunk(chunk)), AcceptedUnique(env, some), AcceptedUnique(env, all));
  }

  lemma DeliveriesOfChunk(env: Env, history: seq<Attempt>, chunk: seq<Attempt>)
    requires NewDeliveries(history, chunk)
    ensures KeptDeliveries(env, history, chunk)
         == Sort(Sort(Map(Filter(At(env, history + chunk), RecordOfChunk(chunk)), DeliveryFor(DecisionOf(env, At(env, history + chunk)))),
                      DeliveryKey(env)), DeliveryKey(env))
  {
    var all, key := At(env, history + chunk), DeliveryKey(env);
    var f, keep := DeliveryFor(DecisionOf(env, all)), CurrentDelivery(chunk);
    forall x | x in all ensures RecordOfChunk(chunk)(x) == keep(f(x)) {
      SortMember(history + chunk, AttemptKey(env), x);
    }
    SortedImageInScope(all, key, f, f, RecordOfChunk(chunk), keep);
    var inner := Sort(Map(all, f), key);
    assert inner + Map([], PreDelivery) == inner;
    FilterSort(inner, key, keep);
  }

  /**
   A chunk appends the same deliveries, with the same decisions, as with all history, when its delivery IDs are new
   too.
   */
  lemma ChunkHistoryKeepsDeliveries(env: Env, history: seq<Attempt>, chunk: seq<Attempt>)
    requires NewRecords(history, chunk) && NewDeliveries(history, chunk)
    ensures KeptDeliveries(env, ChunkHistory(history, chunk), chunk) == KeptDeliveries(env, history, chunk)
  {
    var all, some := At(env, history + chunk), At(env, ChunkHistory(history, chunk) + chunk);
    var f, g := DeliveryFor(DecisionOf(env, some)), DeliveryFor(DecisionOf(env, all));
    forall h | h in ChunkHistory(history, chunk) ensures h in history {
      FilterMember(history, OfChunk(chunk), h);
    }
    DeliveriesOfChunk(env, history, chunk);
    DeliveriesOfChunk(env, ChunkHistory(history, chunk), chunk);
    ChunkRecords(env, history, chunk);
    forall a | a in Filter(all, RecordOfChunk(chunk)) ensures f(a) == g(a) {
      ChunkHistoryDecides(env, history, chunk, a);
    }
    MapAgree(Filter(all, RecordOfChunk(chunk)), f, g);
  }
}
