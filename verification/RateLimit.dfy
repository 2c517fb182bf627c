/**
 Token buckets, and the keyed limiter that forgets idle keys. Times are milliseconds and, like tokens, exact reals.
 */
module RateLimit {

  datatype Limits = Limits(ratePerSecond: real, burst: real, maximumKeys: nat, idleTtlMs: real)

  ghost predicate Sound(l: Limits) {
    l.ratePerSecond > 0.0 && l.burst >= 1.0 && l.maximumKeys >= 1 && l.idleTtlMs > 0.0
  }

  datatype Bucket = Bucket(tokens: real, updatedAt: real)

  function Min(a: real, b: real): real { if a <= b then a else b }
  function Max(a: real, b: real): real { if a >= b then a else b }

  function Earned(l: Limits, elapsedMs: real): real { elapsedMs / 1000.0 * l.ratePerSecond }

  function Refilled(l: Limits, b: Bucket, now: real): real {
    Min(l.burst, b.tokens + Earned(l, Max(0.0, now - b.updatedAt)))
  }

  function Take(l: Limits, b: Bucket, now: real): (Bucket, bool) {
    var tokens := Refilled(l, b, now);
    if tokens < 1.0 then (Bucket(tokens, now), false) else (Bucket(tokens - 1.0, now), true)
  }

  class TokenBucket {
    const limits: Limits
    var tokens: real
    var updatedAt: real

    function Value(): Bucket reads this { Bucket(tokens, updatedAt) }

    constructor (limits: Limits, now: real)
      requires Sound(limits)
      ensures this.limits == limits && Value() == Bucket(limits.burst, now)
    {
      this.limits := limits;
      tokens := limits.burst;
      updatedAt := now;
    }

    method Allow(now: real) returns (allowed: bool)
      modifies this
      ensures (Value(), allowed) == Take(limits, old(Value()), now)
    {
      var elapsed := Max(0.0, now - updatedAt) / 1000.0;
      tokens := Min(limits.burst, tokens + elapsed * limits.ratePerSecond);
      updatedAt := now;
      if tokens < 1.0 {
        return false;
      }
      tokens := tokens - 1.0;
      return true;
    }
  }

  // ---- The keyed limiter ----

  datatype Entry = Entry(bucket: Bucket, lastSeenAt: real)
  type Entries = map<string, Entry>

  function Unexpired(l: Limits, entries: Entries, now: real): Entries {
    map k | k in entries && now - entries[k].lastSeenAt < l.idleTtlMs :: entries[k]
  }

  ghost predicate IsOldest(entries: Entries, k: string) {
    k in entries && forall j :: j in entries ==> entries[k].lastSeenAt <= entries[j].lastSeenAt
  }

  /** Room for a new key: nothing is dropped below capacity, one of the longest unseen keys at capacity. */
  ghost predicate MadeRoom(l: Limits, live: Entries, room: Entries) {
    if |live| < l.maximumKeys then room == live else exists k :: IsOldest(live, k) && room == live - {k}
  }

  /** One call: expired entries go, a missing entry starts full, and the entry's bucket answers. */
  ghost predicate KeyedStep(l: Limits, before: Entries, key: string, now: real, after: Entries, allowed: bool) {
    var live := Unexpired(l, before, now);
    if key in live then
      var taken := Take(l, live[key].bucket, now);
      after == live[key := Entry(taken.0, now)] && allowed == taken.1
    else
      var taken := Take(l, Bucket(l.burst, now), now);
      allowed == taken.1 && exists room :: MadeRoom(l, live, room) && after == room[key := Entry(taken.0, now)]
  }

  datatype BucketEntry = BucketEntry(bucket: TokenBucket, lastSeenAt: real)

  class KeyedTokenBucket {
    const limits: Limits
    var entries: map<string, BucketEntry>

    ghost function Buckets(): set<TokenBucket> reads this { set k | k in entries :: entries[k].bucket }

    ghost predicate Valid()
      reads this, Buckets()
    {
      && Sound(limits)
      && (forall k :: k in entries ==> entries[k].bucket.limits == limits)
      && (forall j, k :: j in entries && k in entries && j != k ==> entries[j].bucket != entries[k].bucket)
    }

    ghost function Value(): Entries
      reads this, Buckets()
    {
      map k | k in entries :: Entry(entries[k].bucket.Value(), entries[k].lastSeenAt)
    }

    constructor (limits: Limits)
      requires Sound(limits)
      ensures Valid() && Value() == map[] && this.limits == limits
    {
      this.limits := limits;
      entries := map[];
    }

    method Expire(now: real)
      requires Valid()
      modifies this
      ensures Valid() && Buckets() <= old(Buckets()) && Value() == Unexpired(limits, old(Value()), now)
    {
      ghost var all := entries;
      var pending := entries.Keys;
      while pending != {}
        invariant pending <= all.Keys
        invariant entries == map k | k in all && (k in pending || now - all[k].lastSeenAt < limits.idleTtlMs) :: all[k]
        decreases pending
      {
        var candidate :| candidate in pending;
        if now - entries[candidate].lastSeenAt >= limits.idleTtlMs {
          entries := entries - {candidate};
        }
        pending := pending - {candidate};
      }
    }

    method DropOldest()
      requires Valid() && entries != map[]
      modifies this
      ensures Valid() && Buckets() <= old(Buckets())
      ensures exists k :: IsOldest(old(Value()), k) && Value() == old(Value()) - {k}
    {
      ghost var before := Value();
      var oldest :| oldest in entries;
      var seen, pending := {oldest}, entries.Keys - {oldest};
      while pending != {}
        invariant seen + pending == entries.Keys && oldest in seen
        invariant forall k :: k in seen ==> entries[oldest].lastSeenAt <= entries[k].lastSeenAt
        decreases pending
      {
        var k :| k in pending;
        if entries[k].lastSeenAt < entries[oldest].lastSeenAt {
          oldest := k;
        }
        seen, pending := seen + {k}, pending - {k};
      }
      assert IsOldest(before, oldest);
      entries := entries - {oldest};
      assert Value() == before - {oldest};
    }

    lemma SameKeys()
      ensures Value().Keys == entries.Keys && |Value()| == |entries|
    {
      assert Value().Keys == entries.Keys;
      assert |Value()| == |Value().Keys| && |entries| == |entries.Keys|;
    }

    method MakeRoom()
      requires Valid()
      modifies this
      ensures Valid() && Buckets() <= old(Buckets()) && MadeRoom(limits, old(Value()), Value())
      ensures entries.Keys <= old(entries.Keys)
    {
      SameKeys();
      if |entries| >= limits.maximumKeys {
        assert |entries| > 0;
        DropOldest();
        assert Value().Keys <= old(Value().Keys);
        SameKeys();
      }
    }

    /** A new key starts with a full bucket. */
    method Enter(key: string, now: real)
      requires Valid() && key !in entries
      modifies this
      ensures Valid() && fresh(Buckets() - old(Buckets())) && key in entries && fresh(entries[key].bucket)
      ensures Value() == old(Value())[key := Entry(Bucket(limits.burst, now), now)]
    {
      var created := new TokenBucket(limits, now);
      entries := entries[key := BucketEntry(created, now)];
    }

    /** The key's own bucket answers; no other entry changes. */
    method Answer(key: string, now: real) returns (allowed: bool)
      requires Valid() && key in entries
      modifies this, entries[key].bucket
      ensures Valid() && Buckets() <= old(Buckets())
      ensures var taken := Take(limits, old(Value())[key].bucket, now);
              Value() == old(Value())[key := Entry(taken.0, now)] && allowed == taken.1
    {
      var entry := entries[key];
      entries := entries[key := BucketEntry(entry.bucket, now)];
      allowed := entry.bucket.Allow(now);
    }

    method AllowNewKey(key: string, now: real) returns (allowed: bool)
      requires Valid() && key !in entries
      modifies this
      ensures Valid() && fresh(Buckets() - old(Buckets()))
      ensures exists room :: MadeRoom(limits, old(Value()), room)
                             && Value() == room[key := Entry(Take(limits, Bucket(limits.burst, now), now).0, now)]
      ensures allowed == Take(limits, Bucket(limits.burst, now), now).1
    {
      MakeRoom();
      ghost var room := Value();
      Enter(key, now);
      allowed := Answer(key, now);
      assert Value() == room[key := Entry(Take(limits, Bucket(limits.burst, now), now).0, now)];
    }

    method Allow(key: string, now: real) returns (allowed: bool)
      requires Valid()
      modifies this, Buckets()
      ensures Valid() && fresh(Buckets() - old(Buckets()))
      ensures KeyedStep(limits, old(Value()), key, now, Value(), allowed)
    {
      Expire(now);
      SameKeys();
      if key in entries {
        assert entries[key].bucket in Buckets();
        allowed := Answer(key, now);
      } else {
        allowed := AllowNewKey(key, now);
      }
    }
  }

  // ---- Runs ----

  datatype Call = Call(key: string, now: real)

  /** A run of the limiter: the table before each call and after the last, and the answers. */
  datatype Run = Run(tables: seq<Entries>, answers: seq<bool>)

  ghost predicate IsRun(l: Limits, calls: seq<Call>, run: Run) {
    && |run.tables| == |calls| + 1 && |run.answers| == |calls| && run.tables[0] == map[]
    && forall i :: 0 <= i < |calls| ==>
         KeyedStep(l, run.tables[i], calls[i].key, calls[i].now, run.tables[i + 1], run.answers[i])
  }

  ghost predicate ClockNeverRunsBack(calls: seq<Call>) {
    forall i, j :: 0 <= i < j < |calls| ==> calls[i].now <= calls[j].now
  }

  /** Every call finds its key live or room for it, however many keys the run uses over its life. */
  ghost predicate NeverFull(l: Limits, calls: seq<Call>, run: Run)
    requires |run.tables| == |calls| + 1
  {
    forall i :: 0 <= i < |calls| ==>
      var live := Unexpired(l, run.tables[i], calls[i].now);
      calls[i].key in live || |live| < l.maximumKeys
  }

  /** The reference: one bucket per key that is never dropped. */
  function Reference(l: Limits, calls: seq<Call>): map<string, Bucket> {
    if calls == [] then map[]
    else
      var before, c := Reference(l, calls[..|calls| - 1]), calls[|calls| - 1];
      before[c.key := Take(l, BucketFor(l, before, c), c.now).0]
  }

  function BucketFor(l: Limits, table: map<string, Bucket>, c: Call): Bucket {
    if c.key in table then table[c.key] else Bucket(l.burst, c.now)
  }

  function ReferenceAnswer(l: Limits, calls: seq<Call>, i: nat): bool
    requires i < |calls|
  {
    Take(l, BucketFor(l, Reference(l, calls[..i]), calls[i]), calls[i].now).1
  }

  ghost predicate Sane(l: Limits, b: Bucket) { 0.0 <= b.tokens <= l.burst }

  lemma EarnedNotNegative(l: Limits, elapsed: real)
    requires Sound(l) && elapsed >= 0.0
    ensures Earned(l, elapsed) >= 0.0
  {
  }

  lemma EarnedAdds(l: Limits, a: real, b: real)
    ensures Earned(l, a + b) == Earned(l, a) + Earned(l, b)
  {
  }

  lemma TakeKeepsSane(l: Limits, b: Bucket, now: real)
    requires Sound(l) && Sane(l, b)
    ensures Sane(l, Take(l, b, now).0) && Take(l, b, now).0.updatedAt == now
  {
    EarnedNotNegative(l, Max(0.0, now - b.updatedAt));
  }

  /** A bucket idle for the whole time-to-live answers like a new one, when that time refills a bucket completely. */
  lemma IdleBucketIsFull(l: Limits, b: Bucket, now: real)
    requires Sound(l) && Sane(l, b) && Earned(l, l.idleTtlMs) >= l.burst && now - b.updatedAt >= l.idleTtlMs
    ensures Take(l, b, now) == Take(l, Bucket(l.burst, now), now)
  {
    EarnedAdds(l, l.idleTtlMs, now - b.updatedAt - l.idleTtlMs);
    EarnedNotNegative(l, now - b.updatedAt - l.idleTtlMs);
    EarnedNotNegative(l, 0.0);
  }

  /** Kept entries are the reference buckets; dropped ones have been idle for the time-to-live. */
  ghost predicate Simulates(l: Limits, table: Entries, reference: map<string, Bucket>, clock: real) {
    && table.Keys <= reference.Keys
    && (forall k :: k in table ==> table[k].bucket == reference[k] && table[k].lastSeenAt == reference[k].updatedAt)
    && (forall k :: k in reference ==> Sane(l, reference[k]) && reference[k].updatedAt <= clock)
    && (forall k :: k in reference && k !in table ==> clock - reference[k].updatedAt >= l.idleTtlMs)
  }

  lemma StepSimulates(l: Limits, before: Entries, c: Call, after: Entries, answer: bool,
                      reference: map<string, Bucket>, clock: real)
    requires Sound(l) && Earned(l, l.idleTtlMs) >= l.burst && clock <= c.now
    requires Simulates(l, before, reference, clock) && KeyedStep(l, before, c.key, c.now, after, answer)
    requires c.key !in Unexpired(l, before, c.now) ==> |Unexpired(l, before, c.now)| < l.maximumKeys
    ensures answer == Take(l, BucketFor(l, reference, c), c.now).1
    ensures Simulates(l, after, reference[c.key := Take(l, BucketFor(l, reference, c), c.now).0], c.now)
  {
    var live := Unexpired(l, before, c.now);
    TakeKeepsSane(l, BucketFor(l, reference, c), c.now);
    if c.key !in live && c.key in reference {
      IdleBucketIsFull(l, reference[c.key], c.now);
    }
  }

  lemma {:induction false} RunSimulates(l: Limits, calls: seq<Call>, run: Run, i: nat)
    requires Sound(l) && Earned(l, l.idleTtlMs) >= l.burst && ClockNeverRunsBack(calls)
    requires IsRun(l, calls, run) && NeverFull(l, calls, run) && i <= |calls|
    ensures Simulates(l, run.tables[i], Reference(l, calls[..i]), if i == 0 then 0.0 else calls[i - 1].now)
    ensures forall k :: 0 <= k < i ==> run.answers[k] == ReferenceAnswer(l, calls, k)
    decreases i
  {
    if i > 0 {
      RunSimulates(l, calls, run, i - 1);
      assert calls[..i][..i - 1] == calls[..i - 1];
      StepSimulates(l, run.tables[i - 1], calls[i - 1], run.tables[i], run.answers[i - 1], Reference(l, calls[..i - 1]),
                    if i == 1 then calls[i - 1].now else calls[i - 2].now);
    }
  }

  /**
   When the time-to-live refills a bucket completely, the clock never runs back and the table is never full, forgetting
   idle keys is unobservable: every answer is that of a bucket that is never dropped.
   */
  lemma ForgettingIsUnobservable(l: Limits, calls: seq<Call>, run: Run)
    requires Sound(l) && Earned(l, l.idleTtlMs) >= l.burst && ClockNeverRunsBack(calls)
    requires IsRun(l, calls, run) && NeverFull(l, calls, run)
    ensures forall i :: 0 <= i < |calls| ==> run.answers[i] == ReferenceAnswer(l, calls, i)
  {
    RunSimulates(l, calls, run, |calls|);
  }

  /** What one call drops: idle keys, and at capacity for a new key one that no kept key was unseen longer than. */
  lemma DroppedByCall(l: Limits, before: Entries, key: string, now: real, after: Entries, allowed: bool, k: string)
    requires KeyedStep(l, before, key, now, after, allowed) && k in before && k !in after
    ensures || now - before[k].lastSeenAt >= l.idleTtlMs
            || (&& (forall j :: j in before && j in after && j != key ==> before[k].lastSeenAt <= before[j].lastSeenAt)
                && (forall j :: j in before && j !in after && j != k ==> now - before[j].lastSeenAt >= l.idleTtlMs)
                && |Unexpired(l, before, now)| >= l.maximumKeys && key !in Unexpired(l, before, now))
  {
  }

  /** The key that is called has the time of the call, and the other keys that are kept have what they had. */
  lemma KeptByCall(l: Limits, before: Entries, key: string, now: real, after: Entries, allowed: bool, k: string)
    requires KeyedStep(l, before, key, now, after, allowed) && k in after
    ensures k == key ==> after[k].lastSeenAt == now
    ensures k != key ==> k in before && after[k] == before[k] && now - before[k].lastSeenAt < l.idleTtlMs
  {
  }

  // ---- Admissions in a window ----

  /** How many of the calls i..j of a key the answers admit. */
  function Admitted(calls: seq<Call>, answers: seq<bool>, key: string, i: nat, j: nat): nat
    requires i <= j <= |calls| == |answers|
    decreases j
  {
    if i == j then 0
    else Admitted(calls, answers, key, i, j - 1) + if calls[j - 1].key == key && answers[j - 1] then 1 else 0
  }

  ghost predicate AnswersReference(l: Limits, calls: seq<Call>, answers: seq<bool>) {
    |answers| == |calls| && forall i :: 0 <= i < |calls| ==> answers[i] == ReferenceAnswer(l, calls, i)
  }

  lemma {:induction false} ReferenceSane(l: Limits, calls: seq<Call>, key: string)
    requires Sound(l) && ClockNeverRunsBack(calls) && key in Reference(l, calls)
    ensures calls != [] && Sane(l, Reference(l, calls)[key])
    ensures Reference(l, calls)[key].updatedAt <= calls[|calls| - 1].now
    decreases |calls|
  {
    var before, c := calls[..|calls| - 1], calls[|calls| - 1];
    if c.key in Reference(l, before) {
      ReferenceSane(l, before, c.key);
    }
    TakeKeepsSane(l, BucketFor(l, Reference(l, before), c), c.now);
    if key != c.key {
      ReferenceSane(l, before, key);
    }
  }

  /** What a key was admitted since the start, plus what it has left, fits the burst and what was earned since. */
  ghost predicate Fits(l: Limits, admitted: nat, table: map<string, Bucket>, key: string, start: real, end: real) {
    admitted > 0 ==>
      key in table && table[key].tokens >= 0.0 && start <= table[key].updatedAt <= end
      && admitted as real + table[key].tokens <= l.burst + Earned(l, table[key].updatedAt - start)
  }

  /** A call of the key itself: the bucket it finds fits the budget, and so does the one it leaves. */
  lemma OwnCallFits(l: Limits, b: Bucket, admitted: nat, start: real, now: real)
    requires Sound(l) && Sane(l, b) && b.updatedAt <= now && start <= now
    requires admitted > 0 ==>
               start <= b.updatedAt && admitted as real + b.tokens <= l.burst + Earned(l, b.updatedAt - start)
    ensures var (after, allowed) := Take(l, b, now);
            var total := admitted + if allowed then 1 else 0;
            total > 0 ==> after.tokens >= 0.0 && after.updatedAt == now && total as real + after.tokens <= l.burst + Earned(l, now - start)
  {
    EarnedNotNegative(l, now - start);
    EarnedNotNegative(l, now - b.updatedAt);
    TakeKeepsSane(l, b, now);
    if admitted > 0 {
      EarnedAdds(l, b.updatedAt - start, now - b.updatedAt);
    }
  }

  lemma AdmittedNext(l: Limits, calls: seq<Call>, answers: seq<bool>, key: string, i: nat, j: nat)
    requires AnswersReference(l, calls, answers) && i < j <= |calls|
    ensures var c, before := calls[j - 1], Reference(l, calls[..j - 1]);
            var (after, allowed) := Take(l, BucketFor(l, before, c), c.now);
            && Reference(l, calls[..j]) == before[c.key := after]
            && Admitted(calls, answers, key, i, j)
               == Admitted(calls, answers, key, i, j - 1) + if c.key == key && allowed then 1 else 0
  {
    assert calls[..j][..j - 1] == calls[..j - 1];
  }

  lemma FitsNext(l: Limits, admitted: nat, table: map<string, Bucket>, c: Call, key: string, start: real, end: real)
    requires Sound(l) && start <= end <= c.now && Fits(l, admitted, table, key, start, end)
    requires key in table ==> Sane(l, table[key]) && table[key].updatedAt <= c.now
    ensures var (after, allowed) := Take(l, BucketFor(l, table, c), c.now);
            Fits(l, admitted + if c.key == key && allowed then 1 else 0, table[c.key := after], key, start, c.now)
  {
    if c.key == key {
      OwnCallFits(l, BucketFor(l, table, c), admitted, start, c.now);
    }
  }

  lemma {:induction false} BudgetKept(l: Limits, calls: seq<Call>, answers: seq<bool>, key: string, i: nat, j: nat)
    requires Sound(l) && ClockNeverRunsBack(calls) && AnswersReference(l, calls, answers) && i < j <= |calls|
    ensures Fits(l, Admitted(calls, answers, key, i, j), Reference(l, calls[..j]), key, calls[i].now, calls[j - 1].now)
    decreases j
  {
    var c, before := calls[j - 1], Reference(l, calls[..j - 1]);
    AdmittedNext(l, calls, answers, key, i, j);
    if i < j - 1 {
      BudgetKept(l, calls, answers, key, i, j - 1);
    }
    if key in before {
      ReferenceSane(l, calls[..j - 1], key);
    }
    FitsNext(l, Admitted(calls, answers, key, i, j - 1), before, c, key, calls[i].now,
             if i < j - 1 then calls[j - 2].now else calls[i].now);
  }

  /** What fits the budget at the last use of the bucket fits it later on. */
  lemma BudgetBounds(l: Limits, admitted: nat, table: map<string, Bucket>, key: string, start: real, end: real)
    requires Sound(l) && start <= end && Fits(l, admitted, table, key, start, end)
    ensures admitted as real <= l.burst + Earned(l, end - start)
  {
    EarnedNotNegative(l, end - start);
    if admitted > 0 {
      EarnedAdds(l, table[key].updatedAt - start, end - table[key].updatedAt);
      EarnedNotNegative(l, end - table[key].updatedAt);
    }
  }

  lemma ReferenceBounded(l: Limits, calls: seq<Call>, answers: seq<bool>, key: string, i: nat, j: nat)
    requires Sound(l) && ClockNeverRunsBack(calls) && AnswersReference(l, calls, answers) && i < j <= |calls|
    ensures Admitted(calls, answers, key, i, j) as real <= l.burst + Earned(l, calls[j - 1].now - calls[i].now)
  {
    BudgetKept(l, calls, answers, key, i, j);
    BudgetBounds(l, Admitted(calls, answers, key, i, j), Reference(l, calls[..j]), key, calls[i].now, calls[j - 1].now);
  }

  /** In any window of the run a key is admitted at most the burst plus the rate times the window's length. */
  lemma AdmissionsBounded(l: Limits, calls: seq<Call>, run: Run, key: string, i: nat, j: nat)
    requires Sound(l) && Earned(l, l.idleTtlMs) >= l.burst && ClockNeverRunsBack(calls)
    requires IsRun(l, calls, run) && NeverFull(l, calls, run) && i < j <= |calls|
    ensures Admitted(calls, run.answers, key, i, j) as real <= l.burst + Earned(l, calls[j - 1].now - calls[i].now)
  {
    ForgettingIsUnobservable(l, calls, run);
    ReferenceBounded(l, calls, run.answers, key, i, j);
  }

  // ---- Which calls are admitted ----

  /** What a key may still be admitted at a time, counted from one of its calls. */
  ghost function Left(l: Limits, calls: seq<Call>, answers: seq<bool>, key: string, j: nat, n: nat, at: real): real
    requires j < |calls| == |answers| && j <= n <= |calls|
  {
    l.burst + l.ratePerSecond * ((at - calls[j].now) / 1000.0) - Admitted(calls, answers, key, j, n) as real
  }

  /** The tokens are the least of what is left, counted from the key's calls. */
  ghost predicate Tightest(l: Limits, calls: seq<Call>, answers: seq<bool>, key: string, n: nat, at: real, tokens: real)
    requires n <= |calls| == |answers|
  {
    && (forall j :: 0 <= j < n && calls[j].key == key ==> tokens <= Left(l, calls, answers, key, j, n, at))
    && exists j :: 0 <= j < n && calls[j].key == key && tokens == Left(l, calls, answers, key, j, n, at)
  }

  lemma LeftLater(l: Limits, calls: seq<Call>, answers: seq<bool>, key: string, j: nat, n: nat, at: real, later: real)
    requires j < |calls| == |answers| && j <= n <= |calls|
    ensures Left(l, calls, answers, key, j, n, later) == Left(l, calls, answers, key, j, n, at) + Earned(l, later - at)
  {
  }

  lemma LeftNext(l: Limits, calls: seq<Call>, answers: seq<bool>, key: string, j: nat, n: nat, at: real)
    requires j <= n < |calls| == |answers|
    ensures Left(l, calls, answers, key, j, n + 1, at)
         == Left(l, calls, answers, key, j, n, at) - if calls[n].key == key && answers[n] then 1.0 else 0.0
  {
  }

  lemma LeftNow(l: Limits, calls: seq<Call>, answers: seq<bool>, key: string, n: nat)
    requires n < |calls| == |answers|
    ensures Left(l, calls, answers, key, n, n, calls[n].now) == l.burst
  {
    assert (calls[n].now - calls[n].now) / 1000.0 == 0.0;
    TimesZero(l.ratePerSecond);
  }

  lemma TimesZero(x: real)
    ensures x * 0.0 == 0.0
  {
  }

  /** Before and after one of the key's own calls. */
  lemma TightestAtCall(l: Limits, calls: seq<Call>, answers: seq<bool>, key: string, n: nat, at: real, b: Bucket,
                       full: bool)
    requires Sound(l) && n < |calls| == |answers| && calls[n].key == key && at <= calls[n].now
    requires !full ==> b.updatedAt == at && Tightest(l, calls, answers, key, n, at, b.tokens)
    requires full ==> b == Bucket(l.burst, calls[n].now) && forall j :: 0 <= j < n ==> calls[j].key != key
    requires answers[n] == Take(l, b, calls[n].now).1
    ensures var tokens := Refilled(l, b, calls[n].now);
            && (forall j :: 0 <= j <= n && calls[j].key == key ==>
                 tokens <= Left(l, calls, answers, key, j, n, calls[n].now))
            && (exists j :: 0 <= j <= n && calls[j].key == key && tokens == Left(l, calls, answers, key, j, n, calls[n].now))
    ensures Tightest(l, calls, answers, key, n + 1, calls[n].now, Take(l, b, calls[n].now).0.tokens)
  {
    var now, tokens := calls[n].now, Refilled(l, b, calls[n].now);
    EarnedNotNegative(l, 0.0);
    LeftNow(l, calls, answers, key, n);
    forall j | 0 <= j <= n && calls[j].key == key
      ensures tokens <= Left(l, calls, answers, key, j, n, now)
      ensures Left(l, calls, answers, key, j, n + 1, now) == Left(l, calls, answers, key, j, n, now) - if answers[n] then 1.0 else 0.0
    {
      LeftNext(l, calls, answers, key, j, n, now);
      if j < n {
        LeftLater(l, calls, answers, key, j, n, at, now);
      }
    }
    var k := n;
    assert full ==> tokens == l.burst;
    if tokens < l.burst {
      assert Max(0.0, now - b.updatedAt) == now - at && tokens == b.tokens + Earned(l, now - at);
      k :| 0 <= k < n && calls[k].key == key && b.tokens == Left(l, calls, answers, key, k, n, at);
      LeftLater(l, calls, answers, key, k, n, at, now);
    }
    assert tokens == Left(l, calls, answers, key, k, n, now);
    assert Take(l, b, now).0.tokens == Left(l, calls, answers, key, k, n + 1, now);
  }

  lemma {:induction false} ReferenceTightest(l: Limits, calls: seq<Call>, answers: seq<bool>, key: string, n: nat)
    requires Sound(l) && ClockNeverRunsBack(calls) && AnswersReference(l, calls, answers) && n <= |calls|
    ensures key in Reference(l, calls[..n]) <==> exists j :: 0 <= j < n && calls[j].key == key
    ensures key in Reference(l, calls[..n]) ==>
              var b := Reference(l, calls[..n])[key];
              (n > 0 && b.updatedAt <= calls[n - 1].now) && Tightest(l, calls, answers, key, n, b.updatedAt, b.tokens)
    decreases n
  {
    if n > 0 {
      ReferenceTightest(l, calls, answers, key, n - 1);
      ReferenceNext(l, calls, n);
      var before, c := Reference(l, calls[..n - 1]), calls[n - 1];
      var b := BucketFor(l, before, c);
      if c.key == key {
        TightestAtCall(l, calls, answers, key, n - 1, if key in before then b.updatedAt else c.now, b, key !in before);
      } else if key in before {
        TightestElsewhere(l, calls, answers, key, n - 1, before[key].updatedAt, before[key].tokens);
      }
    }
  }

  lemma ReferenceNext(l: Limits, calls: seq<Call>, n: nat)
    requires 0 < n <= |calls|
    ensures var before, c := Reference(l, calls[..n - 1]), calls[n - 1];
            && Reference(l, calls[..n]) == before[c.key := Take(l, BucketFor(l, before, c), c.now).0]
            && ReferenceAnswer(l, calls, n - 1) == Take(l, BucketFor(l, before, c), c.now).1
  {
    assert calls[..n][..n - 1] == calls[..n - 1];
  }

  lemma TightestElsewhere(l: Limits, calls: seq<Call>, answers: seq<bool>, key: string, n: nat, at: real, tokens: real)
    requires n < |calls| == |answers| && calls[n].key != key && Tightest(l, calls, answers, key, n, at, tokens)
    ensures Tightest(l, calls, answers, key, n + 1, at, tokens)
  {
    forall j | 0 <= j < n && calls[j].key == key
      ensures Left(l, calls, answers, key, j, n + 1, at) == Left(l, calls, answers, key, j, n, at)
    {
      LeftNext(l, calls, answers, key, j, n, at);
    }
  }

  /** In every window from one of the key's calls to this one, there is room for one more. */
  ghost predicate RoomInEveryWindow(l: Limits, calls: seq<Call>, answers: seq<bool>, i: nat)
    requires i < |calls| == |answers|
  {
    forall j :: 0 <= j <= i && calls[j].key == calls[i].key ==>
      Admitted(calls, answers, calls[i].key, j, i) as real + 1.0
      <= l.burst + l.ratePerSecond * ((calls[i].now - calls[j].now) / 1000.0)
  }

  lemma LeastLeft(l: Limits, calls: seq<Call>, answers: seq<bool>, i: nat, tokens: real)
    requires i < |calls| == |answers|
    requires forall j :: 0 <= j <= i && calls[j].key == calls[i].key ==>
               tokens <= Left(l, calls, answers, calls[i].key, j, i, calls[i].now)
    requires exists j :: 0 <= j <= i && calls[j].key == calls[i].key
                         && tokens == Left(l, calls, answers, calls[i].key, j, i, calls[i].now)
    ensures tokens >= 1.0 <==> RoomInEveryWindow(l, calls, answers, i)
  {
  }

  lemma ReferenceAdmits(l: Limits, calls: seq<Call>, answers: seq<bool>, i: nat)
    requires Sound(l) && ClockNeverRunsBack(calls) && AnswersReference(l, calls, answers) && i < |calls|
    ensures answers[i] <==> RoomInEveryWindow(l, calls, answers, i)
  {
    var key, before := calls[i].key, Reference(l, calls[..i]);
    var b := BucketFor(l, before, calls[i]);
    ReferenceTightest(l, calls, answers, key, i);
    TightestAtCall(l, calls, answers, key, i, if key in before then b.updatedAt else calls[i].now, b, key !in before);
    LeastLeft(l, calls, answers, i, Refilled(l, b, calls[i].now));
  }

  /**
   A call is admitted if and only if, in every window from one of its key's calls up to it, the admissions and this one are
   at most the burst plus the rate times the window's seconds.
   */
  lemma AdmittedExactlyWhen(l: Limits, calls: seq<Call>, run: Run, i: nat)
    requires Sound(l) && l.ratePerSecond * (l.idleTtlMs / 1000.0) >= l.burst && ClockNeverRunsBack(calls)
    requires IsRun(l, calls, run) && NeverFull(l, calls, run) && i < |calls|
    ensures run.answers[i] <==> RoomInEveryWindow(l, calls, run.answers, i)
  {
    ForgettingIsUnobservable(l, calls, run);
    ReferenceAdmits(l, calls, run.answers, i);
  }

  // ---- When forgetting can be observed ----

  /** Some answer of the run is not the one of a bucket that is never dropped. */
  ghost predicate Observed(l: Limits, calls: seq<Call>, run: Run) {
    && ClockNeverRunsBack(calls) && IsRun(l, calls, run) && NeverFull(l, calls, run)
    && exists i :: 0 <= i < |calls| && run.answers[i] != ReferenceAnswer(l, calls, i)
  }

  ghost predicate Observable(l: Limits) { exists calls, run :: Observed(l, calls, run) }

  /** A run of one key, its time, and the tokens of the kept bucket and of the bucket that is never dropped. */
  datatype Probe = Probe(calls: seq<Call>, run: Run, now: real, kept: real, never: real)

  const ProbeKey := "k"

  ghost predicate Reached(l: Limits, p: Probe) {
    && p.calls != [] && ClockNeverRunsBack(p.calls) && IsRun(l, p.calls, p.run) && NeverFull(l, p.calls, p.run)
    && p.calls[|p.calls| - 1].now == p.now
    && p.run.tables[|p.calls|] == map[ProbeKey := Entry(Bucket(p.kept, p.now), p.now)]
    && Reference(l, p.calls) == map[ProbeKey := Bucket(p.never, p.now)]
    && 0.0 <= p.kept <= l.burst && 0.0 <= p.never <= l.burst
  }

  /** What the limiter works with at the next call: the kept bucket, or a full one when the key has been forgotten. */
  function Found(l: Limits, p: Probe, at: real): Bucket {
    if at - p.now < l.idleTtlMs then Bucket(p.kept, p.now) else Bucket(l.burst, at)
  }

  function Extended(l: Limits, p: Probe, at: real): Probe {
    var (kept, answer) := Take(l, Found(l, p, at), at);
    Probe(p.calls + [Call(ProbeKey, at)], Run(p.run.tables + [map[ProbeKey := Entry(kept, at)]], p.run.answers + [answer]), at,
          kept.tokens, Take(l, Bucket(p.never, p.now), at).0.tokens)
  }

  lemma ExtendedStep(l: Limits, p: Probe, at: real)
    requires Sound(l) && Reached(l, p) && at >= p.now
    ensures KeyedStep(l, p.run.tables[|p.calls|], ProbeKey, at, map[ProbeKey := Entry(Take(l, Found(l, p, at), at).0, at)],
                      Take(l, Found(l, p, at), at).1)
    ensures var live := Unexpired(l, p.run.tables[|p.calls|], at); ProbeKey in live || |live| < l.maximumKeys
  {
    var before := p.run.tables[|p.calls|];
    var live := Unexpired(l, before, at);
    if at - p.now < l.idleTtlMs {
      assert live == before;
    } else {
      assert live == map[];
      assert MadeRoom(l, live, map[]);
    }
  }

  lemma ExtendedReached(l: Limits, p: Probe, at: real)
    requires Sound(l) && Reached(l, p) && at >= p.now
    ensures Reached(l, Extended(l, p, at))
    ensures Take(l, Found(l, p, at), at).1 != Take(l, Bucket(p.never, p.now), at).1 ==> Observable(l)
  {
    var q, n := Extended(l, p, at), |p.calls|;
    ExtendedStep(l, p, at);
    ExtendedIsRun(l, p, at);
    assert q.calls[..n] == p.calls;
    TakeKeepsSane(l, Found(l, p, at), at);
    TakeKeepsSane(l, Bucket(p.never, p.now), at);
    assert ReferenceAnswer(l, q.calls, n) == Take(l, Bucket(p.never, p.now), at).1;
    if Take(l, Found(l, p, at), at).1 != Take(l, Bucket(p.never, p.now), at).1 {
      assert q.run.answers[n] != ReferenceAnswer(l, q.calls, n);
      assert Observed(l, q.calls, q.run);
    }
  }

  /** The run goes on with one call whose two answers are given; if they differ, forgetting has shown. */
  lemma Moved(l: Limits, p: Probe, at: real, kept: real, never: real, answer: bool, expected: bool) returns (q: Probe)
    requires Sound(l) && Reached(l, p) && at >= p.now
    requires Take(l, Found(l, p, at), at) == (Bucket(kept, at), answer)
    requires Take(l, Bucket(p.never, p.now), at) == (Bucket(never, at), expected)
    ensures Reached(l, q) && q.now == at && q.kept == kept && q.never == never
    ensures answer != expected ==> Observable(l)
  {
    ExtendedReached(l, p, at);
    q := Extended(l, p, at);
  }

  lemma ExtendedIsRun(l: Limits, p: Probe, at: real)
    requires Sound(l) && Reached(l, p) && at >= p.now
    ensures var q := Extended(l, p, at);
            ClockNeverRunsBack(q.calls) && IsRun(l, q.calls, q.run) && NeverFull(l, q.calls, q.run)
  {
    var q, n := Extended(l, p, at), |p.calls|;
    ExtendedStep(l, p, at);
    forall i | 0 <= i < n + 1
      ensures KeyedStep(l, q.run.tables[i], q.calls[i].key, q.calls[i].now, q.run.tables[i + 1], q.run.answers[i])
    {
      if i < n {
        assert q.run.tables[i] == p.run.tables[i] && q.run.tables[i + 1] == p.run.tables[i + 1];
      }
    }
    forall i | 0 <= i < n + 1
      ensures q.calls[i].key in Unexpired(l, q.run.tables[i], q.calls[i].now) || |Unexpired(l, q.run.tables[i], q.calls[i].now)| < l.maximumKeys
    {
      assert i < n ==> q.run.tables[i] == p.run.tables[i];
    }
  }

  function FirstProbe(l: Limits): Probe {
    Probe([Call(ProbeKey, 0.0)], Run([map[], map[ProbeKey := Entry(Bucket(l.burst - 1.0, 0.0), 0.0)]], [true]), 0.0,
          l.burst - 1.0, l.burst - 1.0)
  }

  lemma FirstReached(l: Limits)
    requires Sound(l)
    ensures Reached(l, FirstProbe(l))
  {
    var p := FirstProbe(l);
    TakeAtOnce(l, l.burst, 0.0);
    assert Unexpired(l, map[], 0.0) == map[] && MadeRoom(l, map[], map[]);
    assert p.calls[..0] == [] && Reference(l, p.calls[..0]) == map[];
  }

  /** The time it takes to earn some tokens. */
  function TimeFor(l: Limits, tokens: real): real
    requires Sound(l)
  {
    tokens * 1000.0 / l.ratePerSecond
  }

  lemma TimeForEarns(l: Limits, tokens: real)
    requires Sound(l) && tokens >= 0.0
    ensures Earned(l, TimeFor(l, tokens)) == tokens && TimeFor(l, tokens) >= 0.0
  {
  }

  lemma SoonerThanTtl(l: Limits, elapsed: real)
    requires Sound(l) && Earned(l, elapsed) < Earned(l, l.idleTtlMs)
    ensures elapsed < l.idleTtlMs
  {
    if elapsed >= l.idleTtlMs {
      EarnedAdds(l, l.idleTtlMs, elapsed - l.idleTtlMs);
      EarnedNotNegative(l, elapsed - l.idleTtlMs);
    }
  }

  lemma NothingEarned(l: Limits, b: Bucket)
    requires Sound(l) && Sane(l, b)
    ensures Refilled(l, b, b.updatedAt) == b.tokens
  {
    assert Earned(l, 0.0) == 0.0;
  }

  lemma TakeAtOnce(l: Limits, tokens: real, now: real)
    requires Sound(l) && 0.0 <= tokens <= l.burst
    ensures Take(l, Bucket(tokens, now), now)
         == if tokens < 1.0 then (Bucket(tokens, now), false) else (Bucket(tokens - 1.0, now), true)
  {
    NothingEarned(l, Bucket(tokens, now));
  }

  /** Waiting until the fuller of two buckets has a whole token, which the other one then has not. */
  lemma WaitForFuller(l: Limits, kept: real, never: real, now: real) returns (wait: real)
    requires Sound(l) && 0.0 <= never < kept < 1.0
    ensures wait >= 0.0 && Take(l, Bucket(kept, now), now + wait) == (Bucket(0.0, now + wait), true)
    ensures Take(l, Bucket(never, now), now + wait) == (Bucket(never + 1.0 - kept, now + wait), false)
  {
    wait := TimeFor(l, 1.0 - kept);
    TimeForEarns(l, 1.0 - kept);
    assert Refilled(l, Bucket(kept, now), now + wait) == 1.0;
    assert Refilled(l, Bucket(never, now), now + wait) == never + 1.0 - kept;
  }

  /** Once the bucket that is never dropped has fewer tokens, some answer comes to differ. */
  lemma {:induction false} GapShows(l: Limits, p: Probe)
    requires Sound(l) && Reached(l, p) && p.never < p.kept
    ensures Observable(l)
    decreases p.kept.Floor
  {
    if p.kept >= 1.0 {
      TakeAtOnce(l, p.kept, p.now);
      TakeAtOnce(l, p.never, p.now);
      var q := Moved(l, p, p.now, p.kept - 1.0, if p.never < 1.0 then p.never else p.never - 1.0, true, p.never >= 1.0);
      if p.never >= 1.0 {
        GapShows(l, q);
      }
    } else {
      var wait := WaitForFuller(l, p.kept, p.never, p.now);
      TakeAtOnce(l, l.burst, p.now + wait);
      var q := Moved(l, p, p.now + wait, if wait < l.idleTtlMs then 0.0 else l.burst - 1.0, p.never + 1.0 - p.kept,
                     true, false);
    }
  }

  /** Two buckets low enough that a time-to-live does not refill them come apart when the key is forgotten. */
  lemma ForgettingShows(l: Limits, p: Probe)
    requires Sound(l) && Reached(l, p) && p.never == p.kept && p.never + Earned(l, l.idleTtlMs) < l.burst
    ensures Observable(l)
  {
    var at := p.now + l.idleTtlMs;
    EarnedNotNegative(l, l.idleTtlMs);
    assert Found(l, p, at) == Bucket(l.burst, at);
    NothingEarned(l, Bucket(l.burst, at));
    assert Refilled(l, Bucket(p.never, p.now), at) == p.never + Earned(l, l.idleTtlMs);
    ExtendedReached(l, p, at);
    if p.never + Earned(l, l.idleTtlMs) >= 1.0 {
      GapShows(l, Extended(l, p, at));
    }
  }

  /** Calls at one time empty both buckets below one token. */
  lemma {:induction false} Drained(l: Limits, p: Probe) returns (q: Probe)
    requires Sound(l) && Reached(l, p) && p.never == p.kept
    ensures Reached(l, q) && q.never == q.kept && q.kept < 1.0 && q.kept <= p.kept
    decreases p.kept.Floor
  {
    q := p;
    if p.kept >= 1.0 {
      NothingEarned(l, Bucket(p.kept, p.now));
      ExtendedReached(l, p, p.now);
      q := Drained(l, Extended(l, p, p.now));
    }
  }

  lemma WaitForWhole(l: Limits, tokens: real, now: real) returns (wait: real)
    requires Sound(l) && 0.0 <= tokens < 1.0 && 1.0 - tokens < Earned(l, l.idleTtlMs)
    ensures 0.0 <= wait < l.idleTtlMs
    ensures Take(l, Bucket(tokens, now), now + wait) == (Bucket(0.0, now + wait), true)
  {
    wait := TimeFor(l, 1.0 - tokens);
    TimeForEarns(l, 1.0 - tokens);
    SoonerThanTtl(l, wait);
    assert Refilled(l, Bucket(tokens, now), now + wait) == 1.0;
  }

  /** Waiting for one whole token and taking it empties both buckets. */
  lemma Emptied(l: Limits, p: Probe) returns (q: Probe)
    requires Sound(l) && Reached(l, p) && p.never == p.kept && p.kept < 1.0 && 1.0 - p.kept < Earned(l, l.idleTtlMs)
    ensures Reached(l, q) && q.never == q.kept == 0.0
  {
    var wait := WaitForWhole(l, p.kept, p.now);
    q := Moved(l, p, p.now + wait, 0.0, 0.0, true, true);
  }

  /**
   With the clock never running back and the table never full, forgetting idle keys can be told from never dropping a
   bucket exactly when the time-to-live does not refill one.
   */
  lemma ForgettingShowsExactlyWhen(l: Limits)
    requires Sound(l)
    ensures Observable(l) <==> l.ratePerSecond * (l.idleTtlMs / 1000.0) < l.burst
  {
    assert Earned(l, l.idleTtlMs) == l.ratePerSecond * (l.idleTtlMs / 1000.0);
    if Earned(l, l.idleTtlMs) < l.burst {
      FirstReached(l);
      var p := Drained(l, FirstProbe(l));
      if p.kept + Earned(l, l.idleTtlMs) >= l.burst {
        p := Emptied(l, p);
      }
      ForgettingShows(l, p);
    } else {
      forall calls, run | ClockNeverRunsBack(calls) && IsRun(l, calls, run) && NeverFull(l, calls, run)
        ensures !Observed(l, calls, run)
      {
        ForgettingIsUnobservable(l, calls, run);
      }
    }
  }
}
