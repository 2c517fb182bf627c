/**
 Whole runs of the ingestion: which calls store, which throw, and when the ledger is what one evaluation would
 give.
 */
module Runs {
  import opened Outcomes
  import opened Contract
  import opened Sequences
  import opened CanonicalOrder
  import opened LogicalIds
  import opened Decisions
  import opened Evaluation
  import opened Meaning
  import opened Conservation
  import opened Incremental
  import opened ScopeSplit

  // ---- The table of logical events: keyed by ID, and an existing row stays ----

  type LogicalTable = map<string, LogicalEvent>

  function Store(table: LogicalTable, events: seq<LogicalEvent>): LogicalTable {
    if events == [] then table
    else
      var before, last := Store(table, events[..|events| - 1]), events[|events| - 1];
      if last.logicalEventId in before then before else before[last.logicalEventId := last]
  }

  lemma {:induction false} StoreConcat(table: LogicalTable, a: seq<LogicalEvent>, b: seq<LogicalEvent>)
    ensures Store(table, a + b) == Store(Store(table, a), b)
    decreases |b|
  {
    if b == [] {
      assert a + b == a;
    } else {
      assert (a + b)[..|a + b| - 1] == a + b[..|b| - 1];
      StoreConcat(table, a, b[..|b| - 1]);
    }
  }

  lemma {:induction false} StoreKeeps(table: LogicalTable, events: seq<LogicalEvent>, id: string)
    requires id in table
    ensures id in Store(table, events) && Store(table, events)[id] == table[id]
    decreases |events|
  {
    if events != [] {
      StoreKeeps(table, events[..|events| - 1], id);
    }
  }

  /** No earlier event has the ID. */
  ghost predicate FirstUnderId(events: seq<LogicalEvent>, i: nat)
    requires i < |events|
  {
    forall j :: 0 <= j < i ==> events[j].logicalEventId != events[i].logicalEventId
  }

  /** A row is the first event offered under its ID. */
  lemma {:induction false} StoredFirst(events: seq<LogicalEvent>, id: string)
    ensures id in Store(map[], events) <==> exists i :: 0 <= i < |events| && events[i].logicalEventId == id
    ensures id in Store(map[], events) ==>
              exists i :: 0 <= i < |events| && events[i].logicalEventId == id && FirstUnderId(events, i) && Store(map[], events)[id] == events[i]
    decreases |events|
  {
    if events != [] {
      var before, last := events[..|events| - 1], |events| - 1;
      StoredFirst(before, id);
      assert forall i :: 0 <= i < last ==> before[i] == events[i];
      if id in Store(map[], before) {
        var i :| 0 <= i < last && before[i].logicalEventId == id && FirstUnderId(before, i) && Store(map[], before)[id] == before[i];
        assert FirstUnderId(events, i);
      } else if events[last].logicalEventId == id {
        assert FirstUnderId(events, last);
      }
    }
  }

  lemma FirstIsStored(events: seq<LogicalEvent>, i: nat)
    requires i < |events| && FirstUnderId(events, i)
    ensures events[i].logicalEventId in Store(map[], events)
    ensures Store(map[], events)[events[i].logicalEventId] == events[i]
  {
    StoredFirst(events, events[i].logicalEventId);
    var j :| 0 <= j < |events| && events[j].logicalEventId == events[i].logicalEventId && FirstUnderId(events, j)
             && Store(map[], events)[events[i].logicalEventId] == events[j];
  }

  // ---- Calls ----

  predicate ScopeEvaluable(env: Env, history: seq<Attempt>, pending: seq<Attempt>, scope: ScopePair) {
    Evaluable(env, At(env, Own(history, scope) + Own(pending, scope)))
  }

  function EvaluableIn(env: Env, history: seq<Attempt>, pending: seq<Attempt>): ScopePair -> bool {
    (sc: ScopePair) => ScopeEvaluable(env, history, pending, sc)
  }

  function TakeWhile<T>(xs: seq<T>, keep: T -> bool): seq<T> {
    if xs == [] || !keep(xs[0]) then [] else [xs[0]] + TakeWhile(xs[1..], keep)
  }

  /** The scopes that are evaluated and stored before one throws. */
  function StoredScopes(env: Env, history: seq<Attempt>, pending: seq<Attempt>,
                        scopes: seq<ScopePair>): seq<ScopePair> {
    TakeWhile(scopes, EvaluableIn(env, history, pending))
  }

  type Offers = ScopePair -> seq<LogicalEvent>

  /** What the evaluation of a scope keeps. */
  function KeptIn(env: Env, history: seq<Attempt>, pending: seq<Attempt>,
                  lifecycle: map<EvidenceKey, Lifecycle>): Offers {
    (sc: ScopePair) => KeptLogical(env, Own(history, sc), Own(pending, sc), lifecycle)
  }

  /** Scope after scope. */
  function Gathered(scopes: seq<ScopePair>, offers: Offers): seq<LogicalEvent> {
    if scopes == [] then [] else Gathered(scopes[..|scopes| - 1], offers) + offers(scopes[|scopes| - 1])
  }

  /** The attempts of processed calls, and the rows stored. */
  datatype Runtime = Runtime(history: seq<Attempt>, table: LogicalTable)

  /**
   A call joins the history only if all its scopes are stored; a throw fails the whole call but undoes no scope
   before it.
   */
  function Called(env: Env, r: Runtime, pending: seq<Attempt>, lifecycle: map<EvidenceKey, Lifecycle>): Runtime {
    var scopes := ScopeList(pending);
    var stored := StoredScopes(env, r.history, pending, scopes);
    Runtime(if stored == scopes then r.history + pending else r.history,
            Store(r.table, Gathered(stored, KeptIn(env, r.history, pending, lifecycle))))
  }

  class Inbox {
    var history: seq<Attempt>
    var table: LogicalTable

    function Value(): Runtime reads this { Runtime(history, table) }

    constructor ()
      ensures Value() == Runtime([], map[])
    {
      history, table := [], map[];
    }

    method StoreEvents(events: seq<LogicalEvent>)
      modifies this`table
      ensures table == Store(old(table), events)
    {
      for i := 0 to |events|
        invariant table == Store(old(table), events[..i])
      {
        assert events[..i + 1][..i] == events[..i];
        if events[i].logicalEventId !in table {
          table := table[events[i].logicalEventId := events[i]];
        }
      }
      assert events[..|events|] == events;
    }

    method Process(env: Env, pending: seq<Attempt>, lifecycle: map<EvidenceKey, Lifecycle>) returns (processed: bool)
      modifies this
      ensures Value() == Called(env, old(Value()), pending, lifecycle)
      ensures processed <==> StoredScopes(env, old(history), pending, ScopeList(pending)) == ScopeList(pending)
    {
      var scopes := ScopesOf(pending);
      processed := StoreByScope(env, pending, scopes, lifecycle);
      if processed {
        history := history + pending;
      }
    }

    method StoreByScope(env: Env, pending: seq<Attempt>, scopes: seq<ScopePair>,
                        lifecycle: map<EvidenceKey, Lifecycle>) returns (ok: bool)
      modifies this`table
      ensures ok <==> StoredScopes(env, history, pending, scopes) == scopes
      ensures table
           == Store(old(table),
                    Gathered(StoredScopes(env, history, pending, scopes), KeptIn(env, history, pending, lifecycle)))
    {
      ghost var evaluable, offers := EvaluableIn(env, history, pending), KeptIn(env, history, pending, lifecycle);
      for i := 0 to |scopes|
        invariant i <= |TakeWhile(scopes, evaluable)|
        invariant table == Store(old(table), Gathered(scopes[..i], offers))
      {
        WhileNext(scopes, evaluable, i);
        ok := StoreScope(env, pending, scopes[i], lifecycle);
        if !ok {
          return false;
        }
        NextStored(scopes, offers, i, old(table));
      }
      assert scopes[..|scopes|] == scopes;
      WhileWithin(scopes, evaluable);
      return true;
    }

    method StoreScope(env: Env, pending: seq<Attempt>, scope: ScopePair, lifecycle: map<EvidenceKey, Lifecycle>)
      returns (ok: bool)
      modifies this`table
      ensures ok <==> EvaluableIn(env, history, pending)(scope)
      ensures table == if ok then Store(old(table), KeptIn(env, history, pending, lifecycle)(scope)) else old(table)
    {
      ok := ScopeEvaluable(env, history, pending, scope);
      if ok {
        StoreEvents(KeptLogical(env, Own(history, scope), Own(pending, scope), lifecycle));
      }
    }
  }

  lemma {:induction false} WhileWithin<T>(xs: seq<T>, keep: T -> bool)
    ensures TakeWhile(xs, keep) <= xs
    ensures forall x :: x in TakeWhile(xs, keep) ==> keep(x)
  {
    if xs != [] {
      WhileWithin(xs[1..], keep);
    }
  }

  /** What is taken so far goes on exactly with a next element that is to be kept. */
  lemma {:induction false} WhileNext<T>(xs: seq<T>, keep: T -> bool, i: nat)
    requires i < |xs| && i <= |TakeWhile(xs, keep)|
    ensures keep(xs[i]) <==> i < |TakeWhile(xs, keep)|
    ensures !keep(xs[i]) ==> TakeWhile(xs, keep) == xs[..i]
    decreases i
  {
    WhileWithin(xs, keep);
    if i > 0 {
      WhileNext(xs[1..], keep, i - 1);
    }
  }

  lemma NextStored(scopes: seq<ScopePair>, offers: Offers, i: nat, table: LogicalTable)
    requires i < |scopes|
    ensures Store(table, Gathered(scopes[..i + 1], offers))
         == Store(Store(table, Gathered(scopes[..i], offers)), offers(scopes[i]))
  {
    GatheredNext(scopes, offers, i);
    StoreConcat(table, Gathered(scopes[..i], offers), offers(scopes[i]));
  }

  lemma GatheredNext(scopes: seq<ScopePair>, offers: Offers, i: nat)
    requires i < |scopes|
    ensures Gathered(scopes[..i + 1], offers) == Gathered(scopes[..i], offers) + offers(scopes[i])
  {
    assert scopes[..i + 1][..i] == scopes[..i];
  }

  // ---- Runs ----

  function Together(calls: seq<seq<Attempt>>): seq<Attempt> {
    if calls == [] then [] else Together(calls[..|calls| - 1]) + calls[|calls| - 1]
  }

  function After(env: Env, calls: seq<seq<Attempt>>, lifecycle: map<EvidenceKey, Lifecycle>): Runtime {
    if calls == [] then Runtime([], map[])
    else Called(env, After(env, calls[..|calls| - 1], lifecycle), calls[|calls| - 1], lifecycle)
  }

  function HistoryBefore(env: Env, calls: seq<seq<Attempt>>, k: nat): seq<Attempt>
    requires k <= |calls|
  {
    After(env, calls[..k], map[]).history
  }

  /** The scopes the k-th call stores. */
  function StoredAt(env: Env, calls: seq<seq<Attempt>>, k: nat): seq<ScopePair>
    requires k < |calls|
  {
    StoredScopes(env, HistoryBefore(env, calls, k), calls[k], ScopeList(calls[k]))
  }

  /** The attempts the k-th call evaluates for a scope. */
  function Evaluated(env: Env, calls: seq<seq<Attempt>>, k: nat, sc: ScopePair): seq<Attempt>
    requires k < |calls|
  {
    Own(HistoryBefore(env, calls, k), sc) + Own(calls[k], sc)
  }

  function OffersAt(env: Env, calls: seq<seq<Attempt>>, lifecycle: map<EvidenceKey, Lifecycle>, k: nat): Offers
    requires k < |calls|
  {
    KeptIn(env, HistoryBefore(env, calls, k), calls[k], lifecycle)
  }

  /** What the k-th call offers to the table, scope after scope. */
  function StepOffers(env: Env, calls: seq<seq<Attempt>>,
                      lifecycle: map<EvidenceKey, Lifecycle>): nat -> seq<LogicalEvent> {
    (k: nat) => if k < |calls| then Gathered(StoredAt(env, calls, k), OffersAt(env, calls, lifecycle, k)) else []
  }

  function UpTo<T>(n: nat, step: nat -> seq<T>): seq<T> {
    if n == 0 then [] else UpTo(n - 1, step) + step(n - 1)
  }

  /** Everything offered to the table, in order. */
  function Offered(env: Env, calls: seq<seq<Attempt>>, lifecycle: map<EvidenceKey, Lifecycle>): seq<LogicalEvent> {
    UpTo(|calls|, StepOffers(env, calls, lifecycle))
  }

  lemma {:induction false} UpToAgree<T>(n: nat, step: nat -> seq<T>, step': nat -> seq<T>)
    requires forall k: nat :: k < n ==> step(k) == step'(k)
    ensures UpTo(n, step) == UpTo(n, step')
  {
    if n > 0 {
      UpToAgree(n - 1, step, step');
    }
  }

  lemma {:induction false} UpToMember<T>(n: nat, step: nat -> seq<T>, x: T)
    ensures x in UpTo(n, step) <==> exists k: nat :: k < n && x in step(k)
  {
    if n > 0 {
      UpToMember(n - 1, step, x);
    }
  }

  lemma PrefixSame(env: Env, calls: seq<seq<Attempt>>, lifecycle: map<EvidenceKey, Lifecycle>, n: nat, k: nat)
    requires k < n <= |calls|
    ensures StepOffers(env, calls[..n], lifecycle)(k) == StepOffers(env, calls, lifecycle)(k)
  {
    assert calls[..n][..k] == calls[..k];
  }

  lemma CalledOffers(env: Env, r: Runtime, calls: seq<seq<Attempt>>, k: nat, lifecycle: map<EvidenceKey, Lifecycle>)
    requires k < |calls| && r.history == HistoryBefore(env, calls, k)
    ensures Called(env, r, calls[k], lifecycle).table == Store(r.table, StepOffers(env, calls, lifecycle)(k))
    ensures Called(env, r, calls[k], lifecycle).history
         == if StoredAt(env, calls, k) == ScopeList(calls[k]) then r.history + calls[k] else r.history
  {
  }

  lemma AfterNext(env: Env, calls: seq<seq<Attempt>>, lifecycle: map<EvidenceKey, Lifecycle>)
    requires calls != []
    requires After(env, calls[..|calls| - 1], lifecycle).history == HistoryBefore(env, calls, |calls| - 1)
    ensures After(env, calls, lifecycle).history == HistoryBefore(env, calls, |calls|)
    ensures After(env, calls, lifecycle).table
         == Store(After(env, calls[..|calls| - 1], lifecycle).table, StepOffers(env, calls, lifecycle)(|calls| - 1))
  {
    HistoryNext(env, calls, |calls| - 1);
    CalledOffers(env, After(env, calls[..|calls| - 1], lifecycle), calls, |calls| - 1, lifecycle);
  }

  lemma {:induction false} AfterMeans(env: Env, calls: seq<seq<Attempt>>, lifecycle: map<EvidenceKey, Lifecycle>)
    ensures After(env, calls, lifecycle).history == HistoryBefore(env, calls, |calls|)
    ensures After(env, calls, lifecycle).table == Store(map[], Offered(env, calls, lifecycle))
    decreases |calls|
  {
    if calls == [] {
      assert calls[..|calls|] == calls;
    } else {
      var n := |calls| - 1;
      AfterMeans(env, calls[..n], lifecycle);
      assert calls[..n][..n] == calls[..n];
      AfterNext(env, calls, lifecycle);
      OfferedNext(env, calls, lifecycle);
      StoreConcat(map[], Offered(env, calls[..n], lifecycle), StepOffers(env, calls, lifecycle)(n));
    }
  }

  lemma UpToNext<T>(n: nat, step: nat -> seq<T>, step': nat -> seq<T>)
    requires forall k: nat :: k < n ==> step'(k) == step(k)
    ensures UpTo(n + 1, step) == UpTo(n, step') + step(n)
  {
    UpToAgree(n, step', step);
  }

  lemma PrefixesSame(env: Env, calls: seq<seq<Attempt>>, lifecycle: map<EvidenceKey, Lifecycle>, n: nat)
    requires n <= |calls|
    ensures forall k: nat :: k < n ==>
              StepOffers(env, calls[..n], lifecycle)(k) == StepOffers(env, calls, lifecycle)(k)
  {
    forall k: nat | k < n ensures StepOffers(env, calls[..n], lifecycle)(k) == StepOffers(env, calls, lifecycle)(k) {
      PrefixSame(env, calls, lifecycle, n, k);
    }
  }

  lemma OfferedNext(env: Env, calls: seq<seq<Attempt>>, lifecycle: map<EvidenceKey, Lifecycle>)
    requires calls != []
    ensures Offered(env, calls, lifecycle)
         == Offered(env, calls[..|calls| - 1], lifecycle) + StepOffers(env, calls, lifecycle)(|calls| - 1)
  {
    var n := |calls| - 1;
    PrefixesSame(env, calls, lifecycle, n);
    UpToNext(n, StepOffers(env, calls, lifecycle), StepOffers(env, calls[..n], lifecycle));
  }

  // ---- Which events are offered ----

  /** The k-th call stores the scope and offers the event for it. */
  ghost predicate OfferedAt(env: Env, calls: seq<seq<Attempt>>, lifecycle: map<EvidenceKey, Lifecycle>, k: nat,
                            sc: ScopePair, l: LogicalEvent)
    requires k < |calls|
  {
    sc in StoredAt(env, calls, k) && l in OffersAt(env, calls, lifecycle, k)(sc)
  }

  lemma {:induction false} GatheredMember(scopes: seq<ScopePair>, offers: Offers, l: LogicalEvent)
    ensures l in Gathered(scopes, offers) <==> exists sc :: sc in scopes && l in offers(sc)
    decreases |scopes|
  {
    if scopes != [] {
      GatheredMember(scopes[..|scopes| - 1], offers, l);
      assert scopes == scopes[..|scopes| - 1] + [scopes[|scopes| - 1]];
    }
  }

  lemma OfferFound(env: Env, calls: seq<seq<Attempt>>, lifecycle: map<EvidenceKey, Lifecycle>,
                   l: LogicalEvent) returns (k: nat, sc: ScopePair)
    requires l in Offered(env, calls, lifecycle)
    ensures k < |calls| && OfferedAt(env, calls, lifecycle, k, sc, l)
  {
    UpToMember(|calls|, StepOffers(env, calls, lifecycle), l);
    k :| k < |calls| && l in StepOffers(env, calls, lifecycle)(k);
    GatheredMember(StoredAt(env, calls, k), OffersAt(env, calls, lifecycle, k), l);
    sc :| sc in StoredAt(env, calls, k) && l in OffersAt(env, calls, lifecycle, k)(sc);
  }

  lemma OfferMade(env: Env, calls: seq<seq<Attempt>>, lifecycle: map<EvidenceKey, Lifecycle>, k: nat, sc: ScopePair,
                  l: LogicalEvent)
    requires k < |calls| && OfferedAt(env, calls, lifecycle, k, sc, l)
    ensures l in Offered(env, calls, lifecycle)
  {
    GatheredMember(StoredAt(env, calls, k), OffersAt(env, calls, lifecycle, k), l);
    assert l in StepOffers(env, calls, lifecycle)(k);
    UpToMember(|calls|, StepOffers(env, calls, lifecycle), l);
  }

  /** Accepted in an evaluation of the attempts, whatever their order. */
  ghost predicate Accepts(env: Env, a: Attempt, raw: seq<Attempt>) {
    Admissible(env, a) && OnlyRecord(a, raw) && EarliestOfEvent(env, a, raw)
  }

  /** The attempt behind a logical event of an evaluation. */
  ghost predicate Behind(env: Env, raw: seq<Attempt>, lifecycle: map<EvidenceKey, Lifecycle>, a: Attempt,
                         l: LogicalEvent) {
    a in raw && Accepts(env, a, raw) && Retained(lifecycle)(a) && LogicalFor(a) == l
  }

  lemma LogicalMember(env: Env, raw: seq<Attempt>, lifecycle: map<EvidenceKey, Lifecycle>, l: LogicalEvent)
    requires Injective(env.digest)
    ensures l in LogicalOf(env, At(env, raw), lifecycle) <==> exists a :: Behind(env, raw, lifecycle, a, l)
  {
    var s := At(env, raw);
    var kept := Filter(AcceptedOf(env, s), Retained(lifecycle));
    SortMember(Map(kept, LogicalFor), LogicalKey(env), l);
    MapMember(kept, LogicalFor, l);
    forall a ensures a in kept <==> a in raw && Accepts(env, a, raw) && Retained(lifecycle)(a) {
      FilterMember(AcceptedOf(env, s), Retained(lifecycle), a);
      FilterMember(s, AcceptedUnique(env, s), a);
      SortMember(raw, AttemptKey(env), a);
      if a in raw {
        AcceptedExactlyWhen(env, a, raw);
      }
    }
    BehindImage(env, raw, lifecycle, kept, l);
  }

  lemma BehindImage(env: Env, raw: seq<Attempt>, lifecycle: map<EvidenceKey, Lifecycle>, kept: seq<Attempt>,
                    l: LogicalEvent)
    requires forall a :: a in kept <==> a in raw && Accepts(env, a, raw) && Retained(lifecycle)(a)
    ensures (exists a :: a in kept && LogicalFor(a) == l) <==> exists a :: Behind(env, raw, lifecycle, a, l)
  {
    if a :| a in kept && LogicalFor(a) == l {
      assert Behind(env, raw, lifecycle, a, l);
    }
    if a :| Behind(env, raw, lifecycle, a, l) {
      assert a in kept;
    }
  }

  /** What a scope's evaluation keeps comes from the pending attempts. */
  lemma KeptMember(env: Env, history: seq<Attempt>, pending: seq<Attempt>, lifecycle: map<EvidenceKey, Lifecycle>,
                   l: LogicalEvent)
    requires Injective(env.digest)
    requires forall h, p :: h in history && p in pending ==> h.record.recordId != p.record.recordId
    ensures l in KeptLogical(env, history, pending, lifecycle)
       <==> exists a :: a in pending && Behind(env, history + pending, lifecycle, a, l)
  {
    var events := LogicalOf(env, At(env, history + pending), lifecycle);
    FilterMember(events, CurrentLogical(pending), l);
    LogicalMember(env, history + pending, lifecycle, l);
    if l in events && l.recordId in RecordIds(pending) {
      var a :| Behind(env, history + pending, lifecycle, a, l);
      assert a in pending;
    }
    if a :| a in pending && Behind(env, history + pending, lifecycle, a, l) {
      assert l.recordId in RecordIds(pending);
    }
  }

  // ---- An evaluation inside the evaluation of everything ----

  /** Record IDs differ between calls, and between the scopes of one call. */
  ghost predicate FreshCalls(calls: seq<seq<Attempt>>) {
    && (forall j, k, a, b :: 0 <= j < k < |calls| && a in calls[j] && b in calls[k] ==>
         a.record.recordId != b.record.recordId)
    && forall k :: 0 <= k < |calls| ==> IdsStayInScope(calls[k])
  }

  lemma HistoryNext(env: Env, calls: seq<seq<Attempt>>, k: nat)
    requires k < |calls|
    ensures HistoryBefore(env, calls, k + 1)
         == if StoredAt(env, calls, k) == ScopeList(calls[k]) then HistoryBefore(env, calls, k) + calls[k]
              else HistoryBefore(env, calls, k)
  {
    assert calls[..k + 1][..k] == calls[..k];
  }

  /** What each call adds to the history: all its attempts or none. */
  function Joined(env: Env, calls: seq<seq<Attempt>>): nat -> seq<Attempt> {
    (k: nat) => if k < |calls| && StoredAt(env, calls, k) == ScopeList(calls[k]) then calls[k] else []
  }

  function Histories(env: Env, calls: seq<seq<Attempt>>): nat -> seq<Attempt> {
    (k: nat) => if k <= |calls| then HistoryBefore(env, calls, k) else []
  }

  lemma HistoryStep(env: Env, calls: seq<seq<Attempt>>, k: nat)
    requires k < |calls|
    ensures Histories(env, calls)(k + 1) == Histories(env, calls)(k) + Joined(env, calls)(k)
  {
    HistoryNext(env, calls, k);
    assert HistoryBefore(env, calls, k) + [] == HistoryBefore(env, calls, k);
  }

  lemma NoHistory(env: Env, calls: seq<seq<Attempt>>)
    ensures Histories(env, calls)(0) == []
  {
    assert calls[..0] == [];
  }

  lemma {:induction false} SumsUp<T>(n: nat, total: nat -> seq<T>, step: nat -> seq<T>)
    requires total(0) == [] && forall k: nat :: k < n ==> total(k + 1) == total(k) + step(k)
    ensures total(n) == UpTo(n, step)
  {
    if n > 0 {
      SumsUp(n - 1, total, step);
    }
  }

  lemma HistoryJoined(env: Env, calls: seq<seq<Attempt>>, k: nat)
    requires k <= |calls|
    ensures HistoryBefore(env, calls, k) == UpTo(k, Joined(env, calls))
  {
    NoHistory(env, calls);
    forall i: nat | i < k ensures Histories(env, calls)(i + 1) == Histories(env, calls)(i) + Joined(env, calls)(i) {
      HistoryStep(env, calls, i);
    }
    SumsUp(k, Histories(env, calls), Joined(env, calls));
  }

  lemma HistoryWithin(env: Env, calls: seq<seq<Attempt>>, k: nat, x: Attempt)
    requires k <= |calls|
    ensures x in HistoryBefore(env, calls, k) <==> exists j: nat :: j < k && x in Joined(env, calls)(j)
    ensures forall j: nat :: j < k && x in Joined(env, calls)(j) ==> x in calls[j]
  {
    HistoryJoined(env, calls, k);
    UpToMember(k, Joined(env, calls), x);
  }

  lemma {:induction false} TogetherMember(calls: seq<seq<Attempt>>, x: Attempt)
    ensures x in Together(calls) <==> exists k: nat :: k < |calls| && x in calls[k]
    decreases |calls|
  {
    if calls != [] {
      var last := |calls| - 1;
      TogetherMember(calls[..last], x);
      assert forall k :: 0 <= k < last ==> calls[..last][k] == calls[k];
    }
  }

  lemma {:induction false} TogetherCount(calls: seq<seq<Attempt>>, k: nat, x: Attempt)
    requires FreshCalls(calls) && k < |calls| && x in calls[k]
    ensures multiset(Together(calls))[x] == multiset(calls[k])[x]
    decreases |calls|
  {
    var last := |calls| - 1;
    assert forall j :: 0 <= j < last ==> calls[..last][j] == calls[j];
    if k < last {
      TogetherCount(calls[..last], k, x);
      assert x !in calls[last];
    } else {
      TogetherMember(calls[..last], x);
      assert x !in Together(calls[..last]);
    }
  }

  /** The attempts a call evaluates for a scope: of the scope, and from that call or an earlier one. */
  lemma EvaluatedFrom(env: Env, calls: seq<seq<Attempt>>, k: nat, sc: ScopePair, x: Attempt)
    requires k < |calls|
    ensures x in Evaluated(env, calls, k, sc)
       <==> Scope(x) == sc && (x in calls[k] || x in HistoryBefore(env, calls, k))
    ensures x in Evaluated(env, calls, k, sc) ==> x in Together(calls)
  {
    FilterMember(calls[k], InScope(sc), x);
    FilterMember(HistoryBefore(env, calls, k), InScope(sc), x);
    HistoryWithin(env, calls, k, x);
    TogetherMember(calls, x);
  }

  lemma NotInHistory(env: Env, calls: seq<seq<Attempt>>, k: nat, a: Attempt, x: Attempt)
    requires FreshCalls(calls) && k < |calls| && a in calls[k] && x in HistoryBefore(env, calls, k)
    ensures x.record.recordId != a.record.recordId
  {
    HistoryWithin(env, calls, k, x);
  }

  lemma EvaluatedCount(env: Env, calls: seq<seq<Attempt>>, k: nat, a: Attempt)
    requires FreshCalls(calls) && k < |calls| && a in calls[k]
    ensures multiset(Evaluated(env, calls, k, Scope(a)))[a] == multiset(Together(calls))[a]
  {
    TogetherCount(calls, k, a);
    FilterCount(calls[k], InScope(Scope(a)), a);
    if a in Own(HistoryBefore(env, calls, k), Scope(a)) {
      FilterMember(HistoryBefore(env, calls, k), InScope(Scope(a)), a);
      NotInHistory(env, calls, k, a, a);
    }
  }

  /** Everything with the record ID of an attempt was in its own call, and evaluated with it. */
  lemma SameRecordEvaluated(env: Env, calls: seq<seq<Attempt>>, k: nat, a: Attempt, x: Attempt)
    requires FreshCalls(calls) && k < |calls| && a in calls[k] && x in Together(calls)
    requires x.record.recordId == a.record.recordId
    ensures x in calls[k] && Scope(x) == Scope(a) && x in Evaluated(env, calls, k, Scope(a))
  {
    TogetherMember(calls, x);
    var j: nat :| j < |calls| && x in calls[j];
    EvaluatedFrom(env, calls, k, Scope(a), x);
  }

  /** What a call accepts is accepted in an evaluation of everything exactly if it is the earliest delivery there. */
  lemma AcceptedWithin(env: Env, calls: seq<seq<Attempt>>, k: nat, a: Attempt)
    requires FreshCalls(calls) && k < |calls| && a in calls[k]
    ensures Accepts(env, a, Together(calls)) <==>
              Accepts(env, a, Evaluated(env, calls, k, Scope(a))) && EarliestOfEvent(env, a, Together(calls))
  {
    var s, e := Evaluated(env, calls, k, Scope(a)), Together(calls);
    EvaluatedCount(env, calls, k, a);
    forall x | x in s ensures x in e {
      EvaluatedFrom(env, calls, k, Scope(a), x);
    }
    forall x | x in e && x.record.recordId == a.record.recordId ensures x in s {
      SameRecordEvaluated(env, calls, k, a, x);
    }
    AcceptedInPart(env, a, s, e);
  }

  lemma AcceptedInPart(env: Env, a: Attempt, s: seq<Attempt>, e: seq<Attempt>)
    requires multiset(s)[a] == multiset(e)[a] && forall x :: x in s ==> x in e
    requires forall x :: x in e && x.record.recordId == a.record.recordId ==> x in s
    ensures Accepts(env, a, e) <==> Accepts(env, a, s) && EarliestOfEvent(env, a, e)
  {
  }

  // ---- When a run leaves what one evaluation of everything gives ----

  /** The table holds the events, each under its ID, and nothing else. */
  ghost predicate Holds(table: LogicalTable, events: seq<LogicalEvent>) {
    && (forall l :: l in events ==> l.logicalEventId in table && table[l.logicalEventId] == l)
    && (forall id :: id in table ==> table[id] in events && table[id].logicalEventId == id)
  }

  ghost predicate IdsNameEvents(events: seq<LogicalEvent>) {
    forall l, m :: l in events && m in events && l.logicalEventId == m.logicalEventId ==> l == m
  }

  /** The logical events of one evaluation of everything. */
  ghost function OneShot(env: Env, calls: seq<seq<Attempt>>,
                         lifecycle: map<EvidenceKey, Lifecycle>): seq<LogicalEvent> {
    LogicalOf(env, At(env, Together(calls)), lifecycle)
  }

  /** The k-th call threw before it stored the attempt's scope. */
  ghost predicate Dropped(env: Env, calls: seq<seq<Attempt>>, k: nat, a: Attempt)
    requires k < |calls|
  {
    a in calls[k] && Scope(a) !in StoredAt(env, calls, k)
  }

  /** Nothing that was dropped would be accepted and kept by an evaluation of everything. */
  ghost predicate NothingLost(env: Env, calls: seq<seq<Attempt>>, lifecycle: map<EvidenceKey, Lifecycle>) {
    forall k: nat, a :: k < |calls| && Dropped(env, calls, k, a) && Accepts(env, a, Together(calls)) ==>
        !Retained(lifecycle)(a)
  }

  /** The first event offered under an ID comes from the earliest delivery of its event, among everything. */
  ghost predicate FirstOffersStand(env: Env, calls: seq<seq<Attempt>>, lifecycle: map<EvidenceKey, Lifecycle>) {
    var offered := Offered(env, calls, lifecycle);
    forall i, a :: 0 <= i < |offered| && FirstUnderId(offered, i) && a in Together(calls) && LogicalFor(a) == offered[i] ==>
      EarliestOfEvent(env, a, Together(calls))
  }

  /** The attempt behind an offer. */
  lemma OfferBehind(env: Env, calls: seq<seq<Attempt>>, lifecycle: map<EvidenceKey, Lifecycle>,
                    l: LogicalEvent) returns (k: nat, a: Attempt)
    requires Injective(env.digest) && FreshCalls(calls) && l in Offered(env, calls, lifecycle)
    ensures k < |calls| && a in calls[k] && !Dropped(env, calls, k, a) && LogicalFor(a) == l && Retained(lifecycle)(a)
    ensures Accepts(env, a, Evaluated(env, calls, k, Scope(a))) && a in Together(calls)
  {
    var sc: ScopePair;
    k, sc := OfferFound(env, calls, lifecycle, l);
    a := KeptBehind(env, calls, lifecycle, k, sc, l);
    TogetherMember(calls, a);
  }

  lemma KeptBehind(env: Env, calls: seq<seq<Attempt>>, lifecycle: map<EvidenceKey, Lifecycle>, k: nat, sc: ScopePair,
                   l: LogicalEvent)
    returns (a: Attempt)
    requires Injective(env.digest) && FreshCalls(calls) && k < |calls| && l in OffersAt(env, calls, lifecycle, k)(sc)
    ensures a in calls[k] && Scope(a) == sc && LogicalFor(a) == l && Retained(lifecycle)(a)
    ensures Accepts(env, a, Evaluated(env, calls, k, sc))
  {
    FreshPart(env, calls, k, sc);
    a := KeptFrom(env, Own(HistoryBefore(env, calls, k), sc), Own(calls[k], sc), lifecycle, l);
    FilterMember(calls[k], InScope(sc), a);
  }

  lemma KeptFrom(env: Env, history: seq<Attempt>, pending: seq<Attempt>, lifecycle: map<EvidenceKey, Lifecycle>,
                 l: LogicalEvent)
    returns (a: Attempt)
    requires Injective(env.digest) && l in KeptLogical(env, history, pending, lifecycle)
    requires forall h, p :: h in history && p in pending ==> h.record.recordId != p.record.recordId
    ensures a in pending && LogicalFor(a) == l && Retained(lifecycle)(a) && Accepts(env, a, history + pending)
  {
    KeptMember(env, history, pending, lifecycle, l);
    a :| a in pending && Behind(env, history + pending, lifecycle, a, l);
  }

  lemma FreshPart(env: Env, calls: seq<seq<Attempt>>, k: nat, sc: ScopePair)
    requires FreshCalls(calls) && k < |calls|
    ensures forall h, p :: h in Own(HistoryBefore(env, calls, k), sc) && p in Own(calls[k], sc) ==>
              h.record.recordId != p.record.recordId
  {
    forall h, p | h in Own(HistoryBefore(env, calls, k), sc) && p in Own(calls[k], sc)
      ensures h.record.recordId != p.record.recordId
    {
      FilterMember(HistoryBefore(env, calls, k), InScope(sc), h);
      FilterMember(calls[k], InScope(sc), p);
      NotInHistory(env, calls, k, p, h);
    }
  }

  lemma AcceptedIsOffered(env: Env, calls: seq<seq<Attempt>>, lifecycle: map<EvidenceKey, Lifecycle>, k: nat,
                          a: Attempt)
    requires Injective(env.digest) && FreshCalls(calls) && k < |calls| && a in calls[k] && !Dropped(env, calls, k, a)
    requires Accepts(env, a, Evaluated(env, calls, k, Scope(a))) && Retained(lifecycle)(a)
    ensures LogicalFor(a) in Offered(env, calls, lifecycle)
  {
    FreshPart(env, calls, k, Scope(a));
    FilterMember(calls[k], InScope(Scope(a)), a);
    assert Behind(env, Evaluated(env, calls, k, Scope(a)), lifecycle, a, LogicalFor(a));
    KeptMember(env, Own(HistoryBefore(env, calls, k), Scope(a)), Own(calls[k], Scope(a)), lifecycle, LogicalFor(a));
    OfferMade(env, calls, lifecycle, k, Scope(a), LogicalFor(a));
  }

  /** Attempts with one logical event are one, when one of them is the only one with its record ID. */
  lemma SameLogicalSameAttempt(env: Env, a: Attempt, b: Attempt, raw: seq<Attempt>)
    requires Accepts(env, a, raw) && b in raw && LogicalFor(a) == LogicalFor(b)
    ensures a == b
  {
    assert LogicalFor(a).recordId == LogicalFor(b).recordId;
  }

  lemma HeldNamesEvents(table: LogicalTable, events: seq<LogicalEvent>)
    requires Holds(table, events)
    ensures IdsNameEvents(events)
  {
  }

  /** A row of the table is offered, first under its ID. */
  lemma RowOffered(env: Env, calls: seq<seq<Attempt>>, lifecycle: map<EvidenceKey, Lifecycle>,
                   id: string) returns (i: nat)
    requires id in After(env, calls, lifecycle).table
    ensures i < |Offered(env, calls, lifecycle)| && FirstUnderId(Offered(env, calls, lifecycle), i)
    ensures Offered(env, calls, lifecycle)[i] == After(env, calls, lifecycle).table[id]
    ensures Offered(env, calls, lifecycle)[i].logicalEventId == id
  {
    AfterMeans(env, calls, lifecycle);
    StoredFirst(Offered(env, calls, lifecycle), id);
    i :| 0 <= i < |Offered(env, calls, lifecycle)| && Offered(env, calls, lifecycle)[i].logicalEventId == id
         && FirstUnderId(Offered(env, calls, lifecycle), i)
         && Store(map[], Offered(env, calls, lifecycle))[id] == Offered(env, calls, lifecycle)[i];
  }

  lemma HoldsLosesNothing(env: Env, calls: seq<seq<Attempt>>, lifecycle: map<EvidenceKey, Lifecycle>, k: nat,
                          d: Attempt)
    requires Injective(env.digest) && FreshCalls(calls) && k < |calls|
    requires Holds(After(env, calls, lifecycle).table, OneShot(env, calls, lifecycle))
    requires Dropped(env, calls, k, d) && Accepts(env, d, Together(calls))
    ensures !Retained(lifecycle)(d)
  {
    if Retained(lifecycle)(d) {
      var l := LogicalFor(d);
      TogetherMember(calls, d);
      assert Behind(env, Together(calls), lifecycle, d, l);
      LogicalMember(env, Together(calls), lifecycle, l);
      var i := RowOffered(env, calls, lifecycle, l.logicalEventId);
      var j, a := OfferBehind(env, calls, lifecycle, l);
      SameLogicalSameAttempt(env, d, a, Together(calls));
    }
  }

  lemma HoldsOffersStand(env: Env, calls: seq<seq<Attempt>>, lifecycle: map<EvidenceKey, Lifecycle>, i: nat, a: Attempt)
    requires Injective(env.digest) && FreshCalls(calls)
    requires Holds(After(env, calls, lifecycle).table, OneShot(env, calls, lifecycle))
    requires i < |Offered(env, calls, lifecycle)| && FirstUnderId(Offered(env, calls, lifecycle), i)
    requires a in Together(calls) && LogicalFor(a) == Offered(env, calls, lifecycle)[i]
    ensures EarliestOfEvent(env, a, Together(calls))
  {
    AfterMeans(env, calls, lifecycle);
    FirstIsStored(Offered(env, calls, lifecycle), i);
    LogicalMember(env, Together(calls), lifecycle, LogicalFor(a));
    var b :| Behind(env, Together(calls), lifecycle, b, LogicalFor(a));
    SameLogicalSameAttempt(env, b, a, Together(calls));
  }

  lemma ConditionsGiveRows(env: Env, calls: seq<seq<Attempt>>, lifecycle: map<EvidenceKey, Lifecycle>, id: string)
    requires Injective(env.digest) && FreshCalls(calls) && FirstOffersStand(env, calls, lifecycle)
    requires id in After(env, calls, lifecycle).table
    ensures var l := After(env, calls, lifecycle).table[id];
            l in OneShot(env, calls, lifecycle) && l.logicalEventId == id
  {
    var i := RowOffered(env, calls, lifecycle, id);
    var l := Offered(env, calls, lifecycle)[i];
    var k, a := OfferBehind(env, calls, lifecycle, l);
    AcceptedWithin(env, calls, k, a);
    assert Behind(env, Together(calls), lifecycle, a, l);
    LogicalMember(env, Together(calls), lifecycle, l);
  }

  lemma ConditionsGiveEvents(env: Env, calls: seq<seq<Attempt>>, lifecycle: map<EvidenceKey, Lifecycle>,
                             l: LogicalEvent)
    requires Injective(env.digest) && FreshCalls(calls) && l in OneShot(env, calls, lifecycle)
    requires IdsNameEvents(OneShot(env, calls, lifecycle)) && NothingLost(env, calls, lifecycle)
    requires FirstOffersStand(env, calls, lifecycle)
    ensures l.logicalEventId in After(env, calls, lifecycle).table
    ensures After(env, calls, lifecycle).table[l.logicalEventId] == l
  {
    LogicalMember(env, Together(calls), lifecycle, l);
    var a :| Behind(env, Together(calls), lifecycle, a, l);
    TogetherMember(calls, a);
    var k: nat :| k < |calls| && a in calls[k];
    assert !Dropped(env, calls, k, a);
    AcceptedWithin(env, calls, k, a);
    AcceptedIsOffered(env, calls, lifecycle, k, a);
    AfterMeans(env, calls, lifecycle);
    StoredFirst(Offered(env, calls, lifecycle), l.logicalEventId);
    ConditionsGiveRows(env, calls, lifecycle, l.logicalEventId);
  }

  /**
   A run, some of whose calls may throw, leaves exactly the logical events of one evaluation of everything if and only
   if no two of those share an ID, nothing dropped would have been among them, and whatever was offered first under an
   ID comes from the earliest delivery of its event.
   */
  lemma RunHoldsExactlyWhen(env: Env, calls: seq<seq<Attempt>>, lifecycle: map<EvidenceKey, Lifecycle>)
    requires Injective(env.digest) && FreshCalls(calls)
    ensures Holds(After(env, calls, lifecycle).table, OneShot(env, calls, lifecycle))
       <==> IdsNameEvents(OneShot(env, calls, lifecycle)) && NothingLost(env, calls, lifecycle) && FirstOffersStand(env, calls, lifecycle)
  {
    var table, events := After(env, calls, lifecycle).table, OneShot(env, calls, lifecycle);
    if Holds(table, events) {
      HeldNamesEvents(table, events);
      forall k: nat, d | k < |calls| && Dropped(env, calls, k, d) && Accepts(env, d, Together(calls))
        ensures !Retained(lifecycle)(d)
      {
        HoldsLosesNothing(env, calls, lifecycle, k, d);
      }
      var offered := Offered(env, calls, lifecycle);
      forall i, a | 0 <= i < |offered| && FirstUnderId(offered, i) && a in Together(calls) && LogicalFor(a) == offered[i]
        ensures EarliestOfEvent(env, a, Together(calls))
      {
        HoldsOffersStand(env, calls, lifecycle, i, a);
      }
    }
    if IdsNameEvents(events) && NothingLost(env, calls, lifecycle) && FirstOffersStand(env, calls, lifecycle) {
      forall l | l in events ensures l.logicalEventId in table && table[l.logicalEventId] == l {
        ConditionsGiveEvents(env, calls, lifecycle, l);
      }
      forall id | id in table ensures table[id] in events && table[id].logicalEventId == id {
        ConditionsGiveRows(env, calls, lifecycle, id);
      }
    }
  }

  /** Over a run no stored row changes or goes. */
  lemma {:induction false} LedgerOnlyGrows(env: Env, calls: seq<seq<Attempt>>, n: nat,
                                           lifecycle: map<EvidenceKey, Lifecycle>, id: string)
    requires n <= |calls| && id in After(env, calls[..n], lifecycle).table
    ensures id in After(env, calls, lifecycle).table
    ensures After(env, calls, lifecycle).table[id] == After(env, calls[..n], lifecycle).table[id]
    decreases |calls|
  {
    if n == |calls| {
      assert calls[..n] == calls;
    } else {
      var before := calls[..|calls| - 1];
      assert before[..n] == calls[..n];
      LedgerOnlyGrows(env, before, n, lifecycle, id);
      CalledKeeps(env, After(env, before, lifecycle), calls[|calls| - 1], lifecycle, id);
    }
  }

  lemma CalledKeeps(env: Env, r: Runtime, pending: seq<Attempt>, lifecycle: map<EvidenceKey, Lifecycle>, id: string)
    requires id in r.table
    ensures id in Called(env, r, pending, lifecycle).table
    ensures Called(env, r, pending, lifecycle).table[id] == r.table[id]
  {
    StoreKeeps(r.table,
               Gathered(StoredScopes(env, r.history, pending, ScopeList(pending)),
                        KeptIn(env, r.history, pending, lifecycle)), id);
  }

  // ---- Runs in arrival order ----

  ghost predicate InTurn<T>(calls: seq<seq<T>>, key: T -> Key) {
    forall j, k, a, b :: 0 <= j < k < |calls| && a in calls[j] && b in calls[k] ==> KeyLe(key(a), key(b))
  }

  /** Every call comes after all the calls before it. */
  ghost predicate InArrivalOrder(env: Env, calls: seq<seq<Attempt>>) {
    InTurn(calls, AttemptKey(env)) && FreshCalls(calls)
  }

  /** No call throws. */
  ghost predicate NothingThrown(env: Env, calls: seq<seq<Attempt>>) {
    forall k :: 0 <= k < |calls| ==> StoredAt(env, calls, k) == ScopeList(calls[k])
  }

  /** The earliest delivery of an attempt's event. */
  lemma EarliestExists(env: Env, raw: seq<Attempt>, a: Attempt) returns (x: Attempt)
    requires a in raw
    ensures x in raw && EventScope(x) == EventScope(a) && EarliestOfEvent(env, x, raw)
  {
    EventInOrder(env, a, raw);
    var m := Filter(Sort(raw, AttemptKey(env)), SameEvent(a));
    x := m[0];
    assert x in m;
    forall y | y in raw && EventScope(y) == EventScope(x) ensures KeyLe(AttemptKey(env)(x), AttemptKey(env)(y)) {
      assert y in m;
      var i :| 0 <= i < |m| && m[i] == y;
      KeyTotal(AttemptKey(env)(x), AttemptKey(env)(y));
    }
  }

  lemma NoLaterThanEarliest(env: Env, raw: seq<Attempt>, a: Attempt, x: Attempt)
    requires x in raw && EventScope(x) == EventScope(a) && EarliestOfEvent(env, x, raw)
    requires KeyLe(AttemptKey(env)(a), AttemptKey(env)(x))
    ensures EarliestOfEvent(env, a, raw)
  {
    forall y | y in raw && EventScope(y) == EventScope(a) ensures KeyLe(AttemptKey(env)(a), AttemptKey(env)(y)) {
      KeyTransitive(AttemptKey(env)(a), AttemptKey(env)(x), AttemptKey(env)(y));
    }
  }

  /**
   An accepted attempt is the earliest of its event, unless the earliest is of an earlier call outside its history.
   */
  lemma EarliestUnlessForgotten(env: Env, calls: seq<seq<Attempt>>, k: nat, a: Attempt, j: nat, x: Attempt)
    requires InArrivalOrder(env, calls) && k < |calls| && a in calls[k]
    requires Accepts(env, a, Evaluated(env, calls, k, Scope(a)))
    requires j < |calls| && x in calls[j] && x in Together(calls) && EventScope(x) == EventScope(a)
    requires EarliestOfEvent(env, x, Together(calls))
    ensures EarliestOfEvent(env, a, Together(calls)) || (j < k && x !in HistoryBefore(env, calls, k))
  {
    if j > k {
      LaterCall(AttemptKey(env), calls, k, a, j, x);
      NoLaterThanEarliest(env, Together(calls), a, x);
    } else if j == k || x in HistoryBefore(env, calls, k) {
      EvaluatedFrom(env, calls, k, Scope(a), x);
      EarliestBefore(env, Evaluated(env, calls, k, Scope(a)), a, x);
      NoLaterThanEarliest(env, Together(calls), a, x);
    }
  }

  lemma LaterCall<T>(key: T -> Key, calls: seq<seq<T>>, k: nat, a: T, j: nat, x: T)
    requires InTurn(calls, key) && k < j < |calls| && a in calls[k] && x in calls[j]
    ensures KeyLe(key(a), key(x))
  {
  }

  lemma EarliestBefore(env: Env, s: seq<Attempt>, a: Attempt, x: Attempt)
    requires EarliestOfEvent(env, a, s) && x in s && EventScope(x) == EventScope(a)
    ensures KeyLe(AttemptKey(env)(a), AttemptKey(env)(x))
  {
  }

  lemma InHistory(env: Env, calls: seq<seq<Attempt>>, j: nat, k: nat, x: Attempt)
    requires j < k <= |calls| && x in calls[j] && StoredAt(env, calls, j) == ScopeList(calls[j])
    ensures x in HistoryBefore(env, calls, k)
  {
    HistoryWithin(env, calls, k, x);
    assert x in Joined(env, calls)(j);
  }

  /** An accepted attempt is the earliest of its event, unless the earliest is of an earlier call that threw. */
  lemma EarliestUnlessThrown(env: Env, calls: seq<seq<Attempt>>, k: nat, b: Attempt) returns (j: nat, x: Attempt)
    requires InArrivalOrder(env, calls) && k < |calls| && b in calls[k]
    requires Accepts(env, b, Evaluated(env, calls, k, Scope(b)))
    ensures j < |calls| && x in calls[j] && EventScope(x) == EventScope(b) && EarliestOfEvent(env, x, Together(calls))
    ensures EarliestOfEvent(env, b, Together(calls)) || (j < k && StoredAt(env, calls, j) != ScopeList(calls[j]))
  {
    TogetherMember(calls, b);
    x := EarliestExists(env, Together(calls), b);
    TogetherMember(calls, x);
    j :| j < |calls| && x in calls[j];
    EarliestUnlessForgotten(env, calls, k, b, j, x);
    if j < k && StoredAt(env, calls, j) == ScopeList(calls[j]) {
      InHistory(env, calls, j, k, x);
    }
  }

  /** The attempt behind an offer that stands is the earliest of its event. */
  lemma OfferStands(env: Env, calls: seq<seq<Attempt>>, k: nat, b: Attempt, a: Attempt)
    requires FreshCalls(calls) && k < |calls| && b in calls[k] && Accepts(env, b, Evaluated(env, calls, k, Scope(b)))
    requires EarliestOfEvent(env, b, Together(calls)) && a in Together(calls) && LogicalFor(a) == LogicalFor(b)
    ensures EarliestOfEvent(env, a, Together(calls))
  {
    AcceptedWithin(env, calls, k, b);
    SameLogicalSameAttempt(env, b, a, Together(calls));
  }

  lemma OfferedIsEarliest(env: Env, calls: seq<seq<Attempt>>, lifecycle: map<EvidenceKey, Lifecycle>, l: LogicalEvent,
                          a: Attempt)
    requires Injective(env.digest) && InArrivalOrder(env, calls) && NothingThrown(env, calls)
    requires l in Offered(env, calls, lifecycle) && a in Together(calls) && LogicalFor(a) == l
    ensures EarliestOfEvent(env, a, Together(calls))
  {
    var k, b := OfferBehind(env, calls, lifecycle, l);
    var j, x := EarliestUnlessThrown(env, calls, k, b);
    OfferStands(env, calls, k, b, a);
  }

  /**
   If no call throws, a run in arrival order leaves exactly the logical events of one evaluation of everything if and
   only if no two of those share an ID.
   */
  lemma RunAgreesExactlyWhenIdsDiffer(env: Env, calls: seq<seq<Attempt>>, lifecycle: map<EvidenceKey, Lifecycle>)
    requires Injective(env.digest) && InArrivalOrder(env, calls) && NothingThrown(env, calls)
    ensures Holds(After(env, calls, lifecycle).table, OneShot(env, calls, lifecycle))
       <==> IdsNameEvents(OneShot(env, calls, lifecycle))
  {
    RunHoldsExactlyWhen(env, calls, lifecycle);
    forall k: nat, d | k < |calls| ensures !Dropped(env, calls, k, d) {
      ScopeListMeans(calls[k]);
    }
    var offered := Offered(env, calls, lifecycle);
    forall i, a | 0 <= i < |offered| && FirstUnderId(offered, i) && a in Together(calls) && LogicalFor(a) == offered[i]
      ensures EarliestOfEvent(env, a, Together(calls))
    {
      OfferedIsEarliest(env, calls, lifecycle, offered[i], a);
    }
  }

  lemma OneScopeNames(env: Env, calls: seq<seq<Attempt>>, lifecycle: map<EvidenceKey, Lifecycle>)
    requires OneScope(Together(calls))
    ensures IdsNameEvents(OneShot(env, calls, lifecycle))
  {
    var s := At(env, Together(calls));
    forall a ensures a in s <==> a in Together(calls) {
      SortMember(Together(calls), AttemptKey(env), a);
    }
    OneScopeIdsDistinct(env, s, lifecycle);
  }

  /** In one scope, with the producers the contract allows, a run in which no call throws agrees with one evaluation. */
  lemma RunAgreesInOneScope(env: Env, calls: seq<seq<Attempt>>, lifecycle: map<EvidenceKey, Lifecycle>)
    requires Injective(env.digest) && InArrivalOrder(env, calls) && NothingThrown(env, calls)
    requires OneScope(Together(calls))
    ensures Holds(After(env, calls, lifecycle).table, OneShot(env, calls, lifecycle))
  {
    OneScopeNames(env, calls, lifecycle);
    RunAgreesExactlyWhenIdsDiffer(env, calls, lifecycle);
  }

  // ---- One scope, when calls throw ----

  /**
   What the run stored does not depend on the dropped delivery: its event is neither its own to give nor given by a
   later one.
   */
  ghost predicate Immaterial(env: Env, calls: seq<seq<Attempt>>, lifecycle: map<EvidenceKey, Lifecycle>, d: Attempt) {
    && (Accepts(env, d, Together(calls)) ==> !Retained(lifecycle)(d))
    && (EarliestOfEvent(env, d, Together(calls)) ==> forall l :: l in Offered(env, calls, lifecycle) ==>
         LogicalScope(l) != EventScope(d))
  }

  lemma EarliestAreOne(env: Env, raw: seq<Attempt>, a: Attempt, b: Attempt)
    requires Injective(env.digest) && a in raw && b in raw && EventScope(a) == EventScope(b)
    requires EarliestOfEvent(env, a, raw) && EarliestOfEvent(env, b, raw)
    ensures a.record == b.record
  {
    KeyTotal(AttemptKey(env)(a), AttemptKey(env)(b));
    AttemptKeyTies(env, a, b);
  }

  /** In one scope an ID stands for one event. */
  lemma OneScopeSameEvent(calls: seq<seq<Attempt>>, a: Attempt, b: Attempt)
    requires OneScope(Together(calls)) && a in Together(calls) && b in Together(calls)
    requires LogicalFor(a).logicalEventId == LogicalFor(b).logicalEventId
    ensures EventScope(a) == EventScope(b)
  {
    assert Scope(a) == Scope(b);
    LogicalIdNamesEvent(a.server.tenantId, a.server.appId, a.record.producer, a.record.eventId, b.record.producer,
                        b.record.eventId);
  }

  lemma {:induction false} FirstWithId(events: seq<LogicalEvent>, i: nat) returns (m: nat)
    requires i < |events|
    ensures m <= i && events[m].logicalEventId == events[i].logicalEventId && FirstUnderId(events, m)
  {
    StoredFirst(events[..i + 1], events[i].logicalEventId);
    assert events[..i + 1][i] == events[i];
    m :| 0 <= m < i + 1 && events[..i + 1][m].logicalEventId == events[i].logicalEventId && FirstUnderId(events[..i + 1], m);
    assert forall j :: 0 <= j <= i ==> events[..i + 1][j] == events[j];
  }

  lemma OneScopeStored(env: Env, calls: seq<seq<Attempt>>, j: nat, x: Attempt)
    requires OneScope(Together(calls)) && j < |calls| && x in calls[j] && StoredAt(env, calls, j) != ScopeList(calls[j])
    ensures Dropped(env, calls, j, x)
  {
    var scopes := ScopeList(calls[j]);
    ScopeListMeans(calls[j]);
    WhileWithin(scopes, EvaluableIn(env, HistoryBefore(env, calls, j), calls[j]));
    TogetherMember(calls, x);
    forall sc | sc in scopes ensures sc == Scope(x) {
      var a :| a in calls[j] && Scope(a) == sc;
      TogetherMember(calls, a);
    }
    OneOrTwo(scopes);
  }

  lemma OneOrTwo<T>(xs: seq<T>)
    requires Distinct(xs)
    ensures |xs| <= 1 || exists y, z :: y in xs && z in xs && y != z
  {
    if |xs| > 1 {
      assert xs[0] in xs && xs[1] in xs;
    }
  }

  /** If the table is right, an event offered is stored from its earliest delivery. */
  lemma StoredFromEarliest(env: Env, calls: seq<seq<Attempt>>, lifecycle: map<EvidenceKey, Lifecycle>, l: LogicalEvent)
    returns (n: nat, b: Attempt)
    requires Injective(env.digest) && InArrivalOrder(env, calls) && OneScope(Together(calls))
    requires FirstOffersStand(env, calls, lifecycle) && l in Offered(env, calls, lifecycle)
    ensures n < |calls| && b in calls[n] && !Dropped(env, calls, n, b) && EventScope(b) == LogicalScope(l)
    ensures b in Together(calls) && EarliestOfEvent(env, b, Together(calls))
  {
    var offered := Offered(env, calls, lifecycle);
    var i: nat :| i < |offered| && offered[i] == l;
    var m := FirstWithId(offered, i);
    var j, a := OfferBehind(env, calls, lifecycle, l);
    n, b := OfferBehind(env, calls, lifecycle, offered[m]);
    OneScopeSameEvent(calls, a, b);
  }

  lemma DroppedOnce(env: Env, calls: seq<seq<Attempt>>, k: nat, d: Attempt, n: nat, b: Attempt)
    requires FreshCalls(calls) && k < |calls| && Dropped(env, calls, k, d)
    requires n < |calls| && b in calls[n] && !Dropped(env, calls, n, b) && Scope(b) == Scope(d)
    ensures b.record != d.record
  {
  }

  /** If the table is right, no event is offered whose earliest delivery was dropped. */
  lemma DroppedNotOffered(env: Env, calls: seq<seq<Attempt>>, lifecycle: map<EvidenceKey, Lifecycle>, k: nat,
                          d: Attempt, l: LogicalEvent)
    requires Injective(env.digest) && InArrivalOrder(env, calls) && OneScope(Together(calls))
    requires FirstOffersStand(env, calls, lifecycle)
    requires k < |calls| && Dropped(env, calls, k, d) && EarliestOfEvent(env, d, Together(calls))
    requires l in Offered(env, calls, lifecycle)
    ensures LogicalScope(l) != EventScope(d)
  {
    TogetherMember(calls, d);
    if LogicalScope(l) == EventScope(d) {
      var n, b := StoredFromEarliest(env, calls, lifecycle, l);
      EarliestAreOne(env, Together(calls), b, d);
      DroppedOnce(env, calls, k, d, n, b);
    }
  }

  lemma NotOfferedOnceDropped(env: Env, calls: seq<seq<Attempt>>, lifecycle: map<EvidenceKey, Lifecycle>, j: nat,
                              x: Attempt, l: LogicalEvent)
    requires OneScope(Together(calls)) && l in Offered(env, calls, lifecycle)
    requires forall k: nat, d :: k < |calls| && Dropped(env, calls, k, d) ==> Immaterial(env, calls, lifecycle, d)
    requires j < |calls| && x in calls[j] && StoredAt(env, calls, j) != ScopeList(calls[j])
    requires EarliestOfEvent(env, x, Together(calls))
    ensures LogicalScope(l) != EventScope(x)
  {
    OneScopeStored(env, calls, j, x);
    assert Immaterial(env, calls, lifecycle, x);
  }

  lemma StandsUnlessDropped(env: Env, calls: seq<seq<Attempt>>, lifecycle: map<EvidenceKey, Lifecycle>,
                            l: LogicalEvent, a: Attempt)
    requires Injective(env.digest) && InArrivalOrder(env, calls) && OneScope(Together(calls))
    requires forall k: nat, d :: k < |calls| && Dropped(env, calls, k, d) ==> Immaterial(env, calls, lifecycle, d)
    requires l in Offered(env, calls, lifecycle) && a in Together(calls) && LogicalFor(a) == l
    ensures EarliestOfEvent(env, a, Together(calls))
  {
    var k, b := OfferBehind(env, calls, lifecycle, l);
    var j, x := EarliestUnlessThrown(env, calls, k, b);
    if !EarliestOfEvent(env, b, Together(calls)) {
      NotOfferedOnceDropped(env, calls, lifecycle, j, x, l);
    }
    OfferStands(env, calls, k, b, a);
  }

  lemma AgreementMakesDropsImmaterial(env: Env, calls: seq<seq<Attempt>>, lifecycle: map<EvidenceKey, Lifecycle>,
                                      k: nat, d: Attempt)
    requires Injective(env.digest) && InArrivalOrder(env, calls) && OneScope(Together(calls))
    requires NothingLost(env, calls, lifecycle) && FirstOffersStand(env, calls, lifecycle) && k < |calls|
    requires Dropped(env, calls, k, d)
    ensures Immaterial(env, calls, lifecycle, d)
  {
    if EarliestOfEvent(env, d, Together(calls)) {
      forall l | l in Offered(env, calls, lifecycle) ensures LogicalScope(l) != EventScope(d) {
        DroppedNotOffered(env, calls, lifecycle, k, d, l);
      }
    }
  }

  lemma ImmaterialDropsStand(env: Env, calls: seq<seq<Attempt>>, lifecycle: map<EvidenceKey, Lifecycle>)
    requires Injective(env.digest) && InArrivalOrder(env, calls) && OneScope(Together(calls))
    requires forall k: nat, d :: k < |calls| && Dropped(env, calls, k, d) ==> Immaterial(env, calls, lifecycle, d)
    ensures FirstOffersStand(env, calls, lifecycle)
  {
    var offered := Offered(env, calls, lifecycle);
    forall i, a | 0 <= i < |offered| && FirstUnderId(offered, i) && a in Together(calls) && LogicalFor(a) == offered[i]
      ensures EarliestOfEvent(env, a, Together(calls))
    {
      StandsUnlessDropped(env, calls, lifecycle, offered[i], a);
    }
  }

  lemma ImmaterialDropsLoseNothing(env: Env, calls: seq<seq<Attempt>>, lifecycle: map<EvidenceKey, Lifecycle>)
    requires forall k: nat, d :: k < |calls| && Dropped(env, calls, k, d) ==> Immaterial(env, calls, lifecycle, d)
    ensures NothingLost(env, calls, lifecycle)
  {
  }

  /**
   In one scope, with the producers the contract allows, a run in arrival order whose calls may throw agrees with one
   evaluation of everything if and only if every dropped delivery is immaterial: it would not have been kept, and if it is
   the earliest of its event, no later delivery of that event was stored in its place.
   */
  lemma RunAgreesExactlyWhenDropsAreImmaterial(env: Env, calls: seq<seq<Attempt>>,
                                               lifecycle: map<EvidenceKey, Lifecycle>)
    requires Injective(env.digest) && InArrivalOrder(env, calls) && OneScope(Together(calls))
    ensures Holds(After(env, calls, lifecycle).table, OneShot(env, calls, lifecycle))
       <==> forall k: nat, d :: k < |calls| && Dropped(env, calls, k, d) ==> Immaterial(env, calls, lifecycle, d)
  {
    RunHoldsExactlyWhen(env, calls, lifecycle);
    OneScopeNames(env, calls, lifecycle);
    if Holds(After(env, calls, lifecycle).table, OneShot(env, calls, lifecycle)) {
      forall k: nat, d | k < |calls| && Dropped(env, calls, k, d) ensures Immaterial(env, calls, lifecycle, d) {
        AgreementMakesDropsImmaterial(env, calls, lifecycle, k, d);
      }
    }
    if forall k: nat, d :: k < |calls| && Dropped(env, calls, k, d) ==> Immaterial(env, calls, lifecycle, d) {
      ImmaterialDropsStand(env, calls, lifecycle);
      ImmaterialDropsLoseNothing(env, calls, lifecycle);
    }
  }
}
