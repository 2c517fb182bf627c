/** The hourly ledger quota: a counter per tenant, app and hour whose table is pruned when it grows. */
module HourlyQuota {
  import opened Joining
  import opened Decimals

  const HOUR_MS := 3_600_000
  const PRUNE_ABOVE := 4_096

  // ---- Keys are texts: tenant, app and hour joined by NUL ----

  function KeyText(tenantId: string, appId: string, hour: int): string {
    tenantId + "\0" + appId + "\0" + IntText(hour)
  }

  /** The text after the last NUL. */
  function AfterLastNul(text: string): string {
    if text == "" then "" else if '\0' in text[1..] then AfterLastNul(text[1..]) else if text[0] == '\0' then text[1..]
        else text
  }

  lemma {:induction false} AfterLastNulOf(prefix: string, tail: string)
    requires '\0' !in tail
    ensures AfterLastNul(prefix + "\0" + tail) == tail
  {
    var text := prefix + "\0" + tail;
    if prefix == "" {
      assert text[1..] == tail;
    } else {
      assert text[1..] == prefix[1..] + "\0" + tail;
      assert text[1..][|prefix| - 1] == '\0';
      AfterLastNulOf(prefix[1..], tail);
    }
  }

  /** Pruning reads back from a key exactly the hour that was written into it. */
  lemma KeyHour(tenantId: string, appId: string, hour: int)
    ensures ParseInt(AfterLastNul(KeyText(tenantId, appId, hour))) == hour
  {
    IntTextParses(hour);
    AfterLastNulOf(tenantId + "\0" + appId, IntText(hour));
  }

  lemma ThreePartsSplit(a: string, b: string, c: string, a': string, b': string, c': string)
    requires '\0' !in a && '\0' !in b && '\0' !in a' && '\0' !in b'
    requires a + "\0" + b + "\0" + c == a' + "\0" + b' + "\0" + c'
    ensures a == a' && b == b' && c == c'
  {
    assert a + "\0" + b + "\0" + c == a + "\0" + (b + "\0" + c);
    assert a' + "\0" + b' + "\0" + c' == a' + "\0" + (b' + "\0" + c');
    SplitAt('\0', a, b + "\0" + c, a', b' + "\0" + c');
    SplitAt('\0', b, c, b', c');
  }

  /** Identifiers without NUL make different texts for different tenants, apps or hours. */
  lemma KeyTextInjective(tenant: string, app: string, hour: int, tenant': string, app': string, hour': int)
    requires '\0' !in tenant && '\0' !in app && '\0' !in tenant' && '\0' !in app'
    requires KeyText(tenant, app, hour) == KeyText(tenant', app', hour')
    ensures tenant == tenant' && app == app' && hour == hour'
  {
    ThreePartsSplit(tenant, app, IntText(hour), tenant', app', IntText(hour'));
    IntTextParses(hour);
    IntTextParses(hour');
  }

  // ---- The counter ----

  type Counts = map<string, nat>

  datatype Call = Call(tenantId: string, appId: string, nowMs: int)

  function HourOf(c: Call): int { c.nowMs / HOUR_MS }
  function KeyOf(c: Call): string { KeyText(c.tenantId, c.appId, HourOf(c)) }

  function Pruned(counts: Counts, hour: int): Counts {
    map k | k in counts && ParseInt(AfterLastNul(k)) >= hour - 1 :: counts[k]
  }

  function Record(counts: Counts, c: Call): (Counts, nat) {
    var count := (if KeyOf(c) in counts then counts[KeyOf(c)] else 0) + 1;
    var counted := counts[KeyOf(c) := count];
    (if |counted| > PRUNE_ABOVE then Pruned(counted, HourOf(c)) else counted, count)
  }

  class HourlyLedgerQuota {
    const limit: nat
    var counts: Counts

    constructor (limit: nat)
      ensures this.limit == limit && counts == map[]
    {
      this.limit := limit;
      counts := map[];
    }

    method RecordCall(c: Call) returns (count: nat, withinLimit: bool)
      modifies this
      ensures (counts, count) == Record(old(counts), c)
      ensures withinLimit == (count <= limit)
    {
      var hour, key := HourOf(c), KeyOf(c);
      count := (if key in counts then counts[key] else 0) + 1;
      counts := counts[key := count];
      if |counts| > PRUNE_ABOVE {
        ghost var all := counts;
        var pending := counts.Keys;
        while pending != {}
          invariant pending <= all.Keys
          invariant counts == map k | k in all && (k in pending || ParseInt(AfterLastNul(k)) >= hour - 1) :: all[k]
          decreases pending
        {
          var candidate :| candidate in pending;
          if ParseInt(AfterLastNul(candidate)) < hour - 1 {
            counts := counts - {candidate};
          }
          pending := pending - {candidate};
        }
        assert counts == Pruned(all, hour);
      }
      withinLimit := count <= limit;
    }
  }

  // ---- Runs ----

  function TableAfter(calls: seq<Call>): Counts {
    if calls == [] then map[] else Record(TableAfter(calls[..|calls| - 1]), calls[|calls| - 1]).0
  }

  function CountAt(calls: seq<Call>, i: nat): nat
    requires i < |calls|
  {
    Record(TableAfter(calls[..i]), calls[i]).1
  }

  ghost predicate ClockNeverRunsBack(calls: seq<Call>) {
    forall i, j :: 0 <= i < j < |calls| ==> calls[i].nowMs <= calls[j].nowMs
  }

  /** How many of the calls so far have the given tenant, app and hour: a counter that never forgets. */
  function Occurrences(calls: seq<Call>, tenantId: string, appId: string, hour: int): nat {
    if calls == [] then 0
    else
      var last := calls[|calls| - 1];
      Occurrences(calls[..|calls| - 1], tenantId, appId, hour)
      + if last.tenantId == tenantId && last.appId == appId && HourOf(last) == hour then 1 else 0
  }

  ghost predicate NoNul(calls: seq<Call>) {
    forall c :: c in calls ==> '\0' !in c.tenantId && '\0' !in c.appId
  }

  /** How many of the calls so far have the given key text. */
  function KeyOccurrences(calls: seq<Call>, key: string): nat {
    if calls == [] then 0
    else KeyOccurrences(calls[..|calls| - 1], key) + if KeyOf(calls[|calls| - 1]) == key then 1 else 0
  }

  lemma {:induction false} TableIsExact(calls: seq<Call>, key: string)
    requires ClockNeverRunsBack(calls)
    requires calls == [] || ParseInt(AfterLastNul(key)) >= HourOf(calls[|calls| - 1]) - 1
    ensures (if key in TableAfter(calls) then TableAfter(calls)[key] else 0) == KeyOccurrences(calls, key)
    decreases |calls|
  {
    if calls != [] {
      TableIsExact(calls[..|calls| - 1], key);
    }
  }

  lemma {:induction false} KeysCountScopes(calls: seq<Call>, tenantId: string, appId: string, hour: int)
    requires NoNul(calls) && '\0' !in tenantId && '\0' !in appId
    ensures KeyOccurrences(calls, KeyText(tenantId, appId, hour)) == Occurrences(calls, tenantId, appId, hour)
    decreases |calls|
  {
    if calls != [] {
      var c := calls[|calls| - 1];
      assert c in calls;
      KeysCountScopes(calls[..|calls| - 1], tenantId, appId, hour);
      if KeyText(tenantId, appId, hour) == KeyOf(c) {
        KeyTextInjective(tenantId, appId, hour, c.tenantId, c.appId, HourOf(c));
      }
    }
  }

  /**
   With a clock that never runs back, pruning never changes a count: it is the number of calls so far with the same
   key.
   */
  lemma PruningIsUnobservable(calls: seq<Call>, i: nat)
    requires ClockNeverRunsBack(calls) && i < |calls|
    ensures CountAt(calls, i) == KeyOccurrences(calls[..i + 1], KeyOf(calls[i]))
  {
    var c := calls[i];
    assert calls[..i + 1][..i] == calls[..i];
    KeyHour(c.tenantId, c.appId, HourOf(c));
    TableIsExact(calls[..i], KeyOf(c));
  }

  /**
   Where identifiers hold no NUL, a call is within the limit exactly when fewer than `limit` earlier calls share its
   tenant, app and hour.
   */
  lemma FirstCallsAreWithinLimit(calls: seq<Call>, i: nat, limit: nat)
    requires ClockNeverRunsBack(calls) && NoNul(calls) && i < |calls|
    ensures CountAt(calls, i) <= limit
       <==> Occurrences(calls[..i], calls[i].tenantId, calls[i].appId, HourOf(calls[i])) < limit
  {
    assert calls[i] in calls;
    PruningIsUnobservable(calls, i);
    assert calls[..i + 1][..i] == calls[..i];
    KeysCountScopes(calls[..i], calls[i].tenantId, calls[i].appId, HourOf(calls[i]));
  }

  // ---- The limit, said of the clock ----

  ghost predicate SameScopeAndHour(c: Call, d: Call) {
    && c.tenantId == d.tenantId && c.appId == d.appId && c.nowMs / (60 * 60 * 1000) == d.nowMs / (60 * 60 * 1000)
  }

  ghost function Earlier(calls: seq<Call>, n: nat, c: Call): set<int>
    requires n <= |calls|
  {
    set j | 0 <= j < n && SameScopeAndHour(calls[j], c)
  }

  lemma {:induction false} OccurrencesAre(calls: seq<Call>, n: nat, c: Call)
    requires n <= |calls|
    ensures Occurrences(calls[..n], c.tenantId, c.appId, HourOf(c)) == |Earlier(calls, n, c)|
  {
    if n > 0 {
      OccurrencesAre(calls, n - 1, c);
      assert calls[..n][..n - 1] == calls[..n - 1];
      if SameScopeAndHour(calls[n - 1], c) {
        assert Earlier(calls, n, c) == Earlier(calls, n - 1, c) + {n - 1};
      } else {
        assert Earlier(calls, n, c) == Earlier(calls, n - 1, c);
      }
    }
  }

  /** A call is within the limit if and only if fewer earlier calls share its tenant, app and hour of the clock. */
  lemma WithinLimitExactlyWhen(calls: seq<Call>, i: nat, limit: nat)
    requires ClockNeverRunsBack(calls) && NoNul(calls) && i < |calls|
    ensures CountAt(calls, i) <= limit <==> |Earlier(calls, i, calls[i])| < limit
  {
    FirstCallsAreWithinLimit(calls, i, limit);
    OccurrencesAre(calls, i, calls[i]);
  }

  /** Beyond 4,096 keys only those of the current hour and the one before it, or later ones, are kept. */
  lemma PrunedExactly(counts: Counts, c: Call, tenantId: string, appId: string, hour: int)
    ensures var key, after := KeyText(tenantId, appId, hour), Record(counts, c).0;
            var known := key in counts || key == KeyOf(c);
            && (key in after <==> known && (|counts.Keys + {KeyOf(c)}| <= 4096 || hour >= c.nowMs / (60 * 60 * 1000) - 1))
            && (key in after && key != KeyOf(c) ==> after[key] == counts[key])
  {
    KeyHour(tenantId, appId, hour);
    var counted := counts[KeyOf(c) := Record(counts, c).1];
    assert counted.Keys == counts.Keys + {KeyOf(c)} && |counted| == |counted.Keys|;
  }
}
