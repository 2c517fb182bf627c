/** The metric report query: filters bound to placeholders, and what the built statement selects. */
module MetricQueries {
  import opened Outcomes
  import opened CanonicalOrder

  datatype Dimension =
    | CampaignId | Network | Country | CohortDate | MetricDate | AttributionStatus | AppleConversionBucket

  /** A stored metric run, with the columns the report reads. */
  datatype MetricRow = MetricRow(
    runId: string, tenantId: string, appId: string, metricName: string, definitionVersion: string,
    grouping: map<Dimension, string>, groupingDigest: string, watermark: string, supersedes: Option<string>)

  datatype MetricCursor = MetricCursor(metricName: string, groupingDigest: string, metricRunId: string)

  datatype MetricQuery = MetricQuery(
    tenantId: string, appId: string, metricNames: Option<seq<string>>, definitionVersion: Option<string>,
    grouping: seq<(Dimension, string)>, dateFrom: Option<string>, dateTo: Option<string>,
    watermarkAtMost: Option<string>, latestOnly: bool, limit: nat, after: Option<MetricCursor>)

  // ---- Row order: the "C" collation compares code points ----

  function RowKey(r: MetricRow): Key { [CodePoints(r.metricName), CodePoints(r.groupingDigest), CodePoints(r.runId)] }
  function CursorKey(c: MetricCursor): Key {
    [CodePoints(c.metricName), CodePoints(c.groupingDigest), CodePoints(c.metricRunId)]
  }

  predicate Before(a: Key, b: Key) { KeyLe(a, b) && a != b }

  // ---- The statement ----

  datatype Value = Text(text: string) | TextArray(texts: seq<string>) | Number(number: int)

  /** A predicate of the statement; a slot is the number of its placeholder, counted from 1. */
  datatype Predicate =
    | TenantIs(slot: nat) | AppIs(slot: nat) | NameIsAny(slot: nat) | VersionIs(slot: nat)
    | DimensionIs(dimension: Dimension, slot: nat) | DateAtLeast(slot: nat) | DateBefore(slot: nat)
    | WatermarkAtMost(slot: nat) | NotSuperseded | KeyAfter(nameSlot: nat, digestSlot: nat, runSlot: nat)

  /**
   The statement: its conjoined predicates, the values bound to its placeholders, and the placeholder of its limit.
   */
  datatype Statement = Statement(predicates: seq<Predicate>, values: seq<Value>, limitSlot: nat)

  function TextAt(values: seq<Value>, slot: nat): Option<string> {
    if 1 <= slot <= |values| && values[slot - 1].Text? then Some(values[slot - 1].text) else None
  }

  /** The first of the two date dimensions that is present and not empty; absent when neither is. */
  function RunDate(r: MetricRow): Option<string> {
    if MetricDate in r.grouping && r.grouping[MetricDate] != "" then Some(r.grouping[MetricDate])
    else if CohortDate in r.grouping && r.grouping[CohortDate] != "" then Some(r.grouping[CohortDate])
    else None
  }

  predicate Superseded(r: MetricRow, ledger: seq<MetricRow>) {
    exists x :: x in ledger && x.tenantId == r.tenantId && x.appId == r.appId && x.supersedes == Some(r.runId)
  }

  /** SQL evaluation of one predicate; a comparison with an absent value is not true. */
  predicate Holds(p: Predicate, values: seq<Value>, ledger: seq<MetricRow>, r: MetricRow) {
    match p
    case TenantIs(slot) => TextAt(values, slot) == Some(r.tenantId)
    case AppIs(slot) => TextAt(values, slot) == Some(r.appId)
    case NameIsAny(slot) => 1 <= slot <= |values| && values[slot - 1].TextArray? && r.metricName in values[slot - 1].texts
    case VersionIs(slot) => TextAt(values, slot) == Some(r.definitionVersion)
    case DimensionIs(d, slot) => d in r.grouping && TextAt(values, slot) == Some(r.grouping[d])
    case DateAtLeast(slot) => RunDate(r).Some? && TextAt(values, slot).Some? && TextLe(TextAt(values, slot).value, RunDate(r).value)
    case DateBefore(slot) => RunDate(r).Some? && TextAt(values, slot).Some? && !TextLe(TextAt(values, slot).value, RunDate(r).value)
    case WatermarkAtMost(slot) => TextAt(values, slot).Some? && TextLe(r.watermark, TextAt(values, slot).value)
    case NotSuperseded => !Superseded(r, ledger)
    case KeyAfter(n, d, i) =>
      TextAt(values, n).Some? && TextAt(values, d).Some? && TextAt(values, i).Some?
      && Before([CodePoints(TextAt(values, n).value), CodePoints(TextAt(values, d).value), CodePoints(TextAt(values, i).value)], RowKey(r))
  }

  /** All the predicates hold of the row. */
  predicate AllHold(ps: seq<Predicate>, values: seq<Value>, ledger: seq<MetricRow>, r: MetricRow) {
    ps == [] || (AllHold(ps[..|ps| - 1], values, ledger, r) && Holds(ps[|ps| - 1], values, ledger, r))
  }

  predicate Selects(s: Statement, ledger: seq<MetricRow>, r: MetricRow) { AllHold(s.predicates, s.values, ledger, r) }

  // ---- Building it ----

  /** Binds one more value and adds the predicate over its placeholder. */
  function Push(s: Statement, value: Value, predicate_: nat -> Predicate): Statement {
    s.(values := s.values + [value], predicates := s.predicates + [predicate_(|s.values| + 1)])
  }

  function PushGiven(s: Statement, text: Option<string>, predicate_: nat -> Predicate): Statement {
    if Given(text) then Push(s, Text(text.value), predicate_) else s
  }

  function PushGrouping(s: Statement, grouping: seq<(Dimension, string)>): Statement {
    if grouping == [] then s
    else
      var last := grouping[|grouping| - 1];
      Push(PushGrouping(s, grouping[..|grouping| - 1]), Text(last.1), (slot: nat) => DimensionIs(last.0, slot))
  }

  function PushCursor(s: Statement, c: MetricCursor): Statement {
    var n := |s.values|;
    s.(values := s.values + [Text(c.metricName), Text(c.groupingDigest), Text(c.metricRunId)],
       predicates := s.predicates + [KeyAfter(n + 1, n + 2, n + 3)])
  }

  function ScopeClauses(q: MetricQuery): Statement {
    var s := Statement([TenantIs(1), AppIs(2)], [Text(q.tenantId), Text(q.appId)], 0);
    var s := if q.metricNames.Some? then Push(s, TextArray(q.metricNames.value), (slot: nat) => NameIsAny(slot)) else s;
    PushGiven(s, q.definitionVersion, (slot: nat) => VersionIs(slot))
  }

  function FromClause(s: Statement, from: Option<string>): Statement {
    PushGiven(s, from, (slot: nat) => DateAtLeast(slot))
  }
  function ToClause(s: Statement, to: Option<string>): Statement { PushGiven(s, to, (slot: nat) => DateBefore(slot)) }
  function MarkClause(s: Statement, mark: Option<string>): Statement {
    PushGiven(s, mark, (slot: nat) => WatermarkAtMost(slot))
  }

  function RangeClauses(s: Statement, q: MetricQuery): Statement {
    MarkClause(ToClause(FromClause(s, q.dateFrom), q.dateTo), q.watermarkAtMost)
  }

  function PageClauses(s: Statement, q: MetricQuery): Statement {
    var s := if q.latestOnly then s.(predicates := s.predicates + [NotSuperseded]) else s;
    var s := if q.after.Some? then PushCursor(s, q.after.value) else s;
    s.(values := s.values + [Number(q.limit + 1)], limitSlot := |s.values| + 1)
  }

  function Built(q: MetricQuery): Statement {
    PageClauses(RangeClauses(PushGrouping(ScopeClauses(q), q.grouping), q), q)
  }

  // The builder as it runs: two lists that grow in place, and a push that returns the new placeholder.
  class StatementBuilder {
    var values: seq<Value>
    var predicates: seq<Predicate>

    function Clauses(): Statement reads this { Statement(predicates, values, 0) }

    constructor (q: MetricQuery)
      ensures Clauses() == Statement([TenantIs(1), AppIs(2)], [Text(q.tenantId), Text(q.appId)], 0)
    {
      values := [Text(q.tenantId), Text(q.appId)];
      predicates := [TenantIs(1), AppIs(2)];
    }

    method PushValue(value: Value) returns (slot: nat)
      modifies this`values
      ensures values == old(values) + [value] && slot == |values|
    {
      values := values + [value];
      slot := |values|;
    }

    method AddScope(q: MetricQuery)
      requires Clauses() == Statement([TenantIs(1), AppIs(2)], [Text(q.tenantId), Text(q.appId)], 0)
      modifies this
      ensures Clauses() == ScopeClauses(q)
    {
      if q.metricNames.Some? {
        var slot := PushValue(TextArray(q.metricNames.value));
        predicates := predicates + [NameIsAny(slot)];
      }
      if Given(q.definitionVersion) {
        var slot := PushValue(Text(q.definitionVersion.value));
        predicates := predicates + [VersionIs(slot)];
      }
    }

    method AddGrouping(grouping: seq<(Dimension, string)>)
      modifies this
      ensures Clauses() == PushGrouping(old(Clauses()), grouping)
    {
      ghost var start := Clauses();
      for i := 0 to |grouping|
        invariant Clauses() == PushGrouping(start, grouping[..i])
      {
        var slot := PushValue(Text(grouping[i].1));
        predicates := predicates + [DimensionIs(grouping[i].0, slot)];
        assert grouping[..i + 1][..i] == grouping[..i];
      }
      assert grouping[..|grouping|] == grouping;
    }

    method AddRange(q: MetricQuery)
      modifies this
      ensures Clauses() == RangeClauses(old(Clauses()), q)
    {
      if Given(q.dateFrom) {
        var slot := PushValue(Text(q.dateFrom.value));
        predicates := predicates + [DateAtLeast(slot)];
      }
      if Given(q.dateTo) {
        var slot := PushValue(Text(q.dateTo.value));
        predicates := predicates + [DateBefore(slot)];
      }
      if Given(q.watermarkAtMost) {
        var slot := PushValue(Text(q.watermarkAtMost.value));
        predicates := predicates + [WatermarkAtMost(slot)];
      }
    }

    method Finish(q: MetricQuery) returns (s: Statement)
      modifies this
      ensures s == PageClauses(old(Clauses()), q)
    {
      if q.latestOnly {
        predicates := predicates + [NotSuperseded];
      }
      if q.after.Some? {
        var name := PushValue(Text(q.after.value.metricName));
        var digest := PushValue(Text(q.after.value.groupingDigest));
        var run := PushValue(Text(q.after.value.metricRunId));
        predicates := predicates + [KeyAfter(name, digest, run)];
      }
      var slot := PushValue(Number(q.limit + 1));
      s := Statement(predicates, values, slot);
    }
  }

  method BuildMetricQuery(q: MetricQuery) returns (s: Statement)
    ensures s == Built(q)
  {
    var builder := new StatementBuilder(q);
    builder.AddScope(q);
    builder.AddGrouping(q.grouping);
    builder.AddRange(q);
    s := builder.Finish(q);
  }

  // ---- What it selects ----

  predicate WantedScope(q: MetricQuery, r: MetricRow) {
    && r.tenantId == q.tenantId && r.appId == q.appId
    && (q.metricNames.Some? ==> r.metricName in q.metricNames.value)
    && (Given(q.definitionVersion) ==> r.definitionVersion == q.definitionVersion.value)
  }

  predicate WantedGrouping(grouping: seq<(Dimension, string)>, r: MetricRow) {
    forall i :: 0 <= i < |grouping| ==> grouping[i].0 in r.grouping && r.grouping[grouping[i].0] == grouping[i].1
  }

  predicate WantedRange(q: MetricQuery, r: MetricRow) {
    && (Given(q.dateFrom) ==> RunDate(r).Some? && TextLe(q.dateFrom.value, RunDate(r).value))
    && (Given(q.dateTo) ==> RunDate(r).Some? && !TextLe(q.dateTo.value, RunDate(r).value))
    && (Given(q.watermarkAtMost) ==> TextLe(r.watermark, q.watermarkAtMost.value))
  }

  /** Filtering by the query directly. */
  predicate Wanted(q: MetricQuery, ledger: seq<MetricRow>, r: MetricRow) {
    && WantedScope(q, r) && WantedGrouping(q.grouping, r) && WantedRange(q, r)
    && (q.latestOnly ==> !Superseded(r, ledger))
    && (q.after.Some? ==> Before(CursorKey(q.after.value), RowKey(r)))
  }

  /** Every placeholder a predicate mentions is bound. */
  predicate Bound(p: Predicate, count: nat) {
    match p
    case NotSuperseded => true
    case KeyAfter(n, d, i) => 1 <= n <= count && 1 <= d <= count && 1 <= i <= count
    case DimensionIs(_, slot) => 1 <= slot <= count
    case _ => 1 <= p.slot <= count
  }

  predicate EachBound(ps: seq<Predicate>, count: nat) {
    ps == [] || (EachBound(ps[..|ps| - 1], count) && Bound(ps[|ps| - 1], count))
  }

  predicate AllBound(s: Statement) { EachBound(s.predicates, |s.values|) }

  lemma HoldsStable(p: Predicate, values: seq<Value>, more: seq<Value>, ledger: seq<MetricRow>, r: MetricRow)
    requires Bound(p, |values|)
    ensures Holds(p, values + more, ledger, r) == Holds(p, values, ledger, r)
    ensures Bound(p, |values + more|)
  {
    assert forall slot: nat :: 1 <= slot <= |values| ==> TextAt(values + more, slot) == TextAt(values, slot);
  }

  /** Adding a clause narrows the selection by exactly that clause. */
  lemma {:induction false} AllStable(ps: seq<Predicate>, values: seq<Value>, more: seq<Value>, ledger: seq<MetricRow>,
                                     r: MetricRow)
    requires EachBound(ps, |values|)
    ensures AllHold(ps, values + more, ledger, r) == AllHold(ps, values, ledger, r)
    ensures EachBound(ps, |values + more|)
    decreases |ps|
  {
    if ps != [] {
      AllStable(ps[..|ps| - 1], values, more, ledger, r);
      HoldsStable(ps[|ps| - 1], values, more, ledger, r);
    }
  }

  lemma ClauseAdds(s: Statement, more: seq<Value>, p: Predicate, ledger: seq<MetricRow>, r: MetricRow)
    requires AllBound(s) && Bound(p, |s.values + more|)
    ensures var t := s.(values := s.values + more, predicates := s.predicates + [p]);
            && AllBound(t)
            && (Selects(t, ledger, r) <==> Selects(s, ledger, r) && Holds(p, s.values + more, ledger, r))
  {
    AllStable(s.predicates, s.values, more, ledger, r);
    assert (s.predicates + [p])[..|s.predicates|] == s.predicates;
  }

  lemma {:induction false} GroupingAdds(s: Statement, grouping: seq<(Dimension, string)>, ledger: seq<MetricRow>,
                                        r: MetricRow)
    requires AllBound(s)
    ensures AllBound(PushGrouping(s, grouping))
    ensures Selects(PushGrouping(s, grouping), ledger, r)
       <==> Selects(s, ledger, r) && WantedGrouping(grouping, r)
    decreases |grouping|
  {
    if grouping != [] {
      var before, last := grouping[..|grouping| - 1], grouping[|grouping| - 1];
      GroupingAdds(s, before, ledger, r);
      var t := PushGrouping(s, before);
      ClauseAdds(t, [Text(last.1)], DimensionIs(last.0, |t.values| + 1), ledger, r);
      assert forall i :: 0 <= i < |before| ==> before[i] == grouping[i];
    }
  }

  lemma GivenAdds(s: Statement, text: Option<string>, predicate_: nat -> Predicate, ledger: seq<MetricRow>,
                  r: MetricRow)
    requires AllBound(s) && Bound(predicate_(|s.values| + 1), |s.values| + 1)
    ensures AllBound(PushGiven(s, text, predicate_))
    ensures Selects(PushGiven(s, text, predicate_), ledger, r)
       <==> Selects(s, ledger, r)
            && (Given(text) ==> Holds(predicate_(|s.values| + 1), s.values + [Text(text.value)], ledger, r))
  {
    if Given(text) {
      ClauseAdds(s, [Text(text.value)], predicate_(|s.values| + 1), ledger, r);
    }
  }

  lemma ScopeMeans(q: MetricQuery, ledger: seq<MetricRow>, r: MetricRow)
    ensures AllBound(ScopeClauses(q)) && (Selects(ScopeClauses(q), ledger, r) <==> WantedScope(q, r))
  {
    var s0 := Statement([TenantIs(1), AppIs(2)], [Text(q.tenantId), Text(q.appId)], 0);
    assert s0.predicates[..1] == [TenantIs(1)] && [TenantIs(1)][..0] == [];
    assert AllHold([TenantIs(1)], s0.values, ledger, r) <==> Holds(TenantIs(1), s0.values, ledger, r);
    assert EachBound([TenantIs(1)], 2) && AllBound(s0);
    var s1 := if q.metricNames.Some? then Push(s0, TextArray(q.metricNames.value), (slot: nat) => NameIsAny(slot))
        else s0;
    if q.metricNames.Some? {
      ClauseAdds(s0, [TextArray(q.metricNames.value)], NameIsAny(3), ledger, r);
    }
    GivenAdds(s1, q.definitionVersion, (slot: nat) => VersionIs(slot), ledger, r);
  }

  lemma FromMeans(s: Statement, from: Option<string>, ledger: seq<MetricRow>, r: MetricRow)
    requires AllBound(s)
    ensures AllBound(FromClause(s, from))
    ensures Selects(FromClause(s, from), ledger, r)
       <==> Selects(s, ledger, r) && (Given(from) ==> RunDate(r).Some? && TextLe(from.value, RunDate(r).value))
  {
    GivenAdds(s, from, (slot: nat) => DateAtLeast(slot), ledger, r);
  }

  lemma ToMeans(s: Statement, to: Option<string>, ledger: seq<MetricRow>, r: MetricRow)
    requires AllBound(s)
    ensures AllBound(ToClause(s, to))
    ensures Selects(ToClause(s, to), ledger, r)
       <==> Selects(s, ledger, r) && (Given(to) ==> RunDate(r).Some? && !TextLe(to.value, RunDate(r).value))
  {
    GivenAdds(s, to, (slot: nat) => DateBefore(slot), ledger, r);
  }

  lemma MarkMeans(s: Statement, mark: Option<string>, ledger: seq<MetricRow>, r: MetricRow)
    requires AllBound(s)
    ensures AllBound(MarkClause(s, mark))
    ensures Selects(MarkClause(s, mark), ledger, r)
       <==> Selects(s, ledger, r) && (Given(mark) ==> TextLe(r.watermark, mark.value))
  {
    GivenAdds(s, mark, (slot: nat) => WatermarkAtMost(slot), ledger, r);
  }

  lemma RangeMeans(s: Statement, q: MetricQuery, ledger: seq<MetricRow>, r: MetricRow)
    requires AllBound(s)
    ensures AllBound(RangeClauses(s, q))
    ensures (Selects(RangeClauses(s, q), ledger, r) <==> Selects(s, ledger, r) && WantedRange(q, r))
  {
    var from := FromClause(s, q.dateFrom);
    FromMeans(s, q.dateFrom, ledger, r);
    ToMeans(from, q.dateTo, ledger, r);
    MarkMeans(ToClause(from, q.dateTo), q.watermarkAtMost, ledger, r);
  }

  lemma PageMeans(s: Statement, q: MetricQuery, ledger: seq<MetricRow>, r: MetricRow)
    requires AllBound(s)
    ensures var t := PageClauses(s, q);
            && AllBound(t) && 1 <= t.limitSlot <= |t.values| && t.values[t.limitSlot - 1] == Number(q.limit + 1)
            && (Selects(t, ledger, r) <==>
                  Selects(s, ledger, r) && (q.latestOnly ==> !Superseded(r, ledger))
                  && (q.after.Some? ==> Before(CursorKey(q.after.value), RowKey(r))))
  {
    LatestAdds(s, q.latestOnly, ledger, r);
    AfterMeans(if q.latestOnly then s.(predicates := s.predicates + [NotSuperseded]) else s, q, ledger, r);
  }

  lemma AfterMeans(s: Statement, q: MetricQuery, ledger: seq<MetricRow>, r: MetricRow)
    requires AllBound(s)
    ensures var u := if q.after.Some? then PushCursor(s, q.after.value) else s;
            var t := u.(values := u.values + [Number(q.limit + 1)], limitSlot := |u.values| + 1);
            && AllBound(t)
            && (Selects(t, ledger, r) <==>
                  Selects(s, ledger, r) && (q.after.Some? ==> Before(CursorKey(q.after.value), RowKey(r))))
  {
    CursorAdds(s, q.after, ledger, r);
    LimitAdds(if q.after.Some? then PushCursor(s, q.after.value) else s, q.limit, ledger, r);
  }

  /** The built statement, with its values bound, selects exactly the rows the query asks for. */
  lemma StatementMeansQuery(q: MetricQuery, ledger: seq<MetricRow>, r: MetricRow)
    ensures Selects(Built(q), ledger, r) <==> Wanted(q, ledger, r)
    ensures AllBound(Built(q))
    ensures 1 <= Built(q).limitSlot <= |Built(q).values|
    ensures Built(q).values[Built(q).limitSlot - 1] == Number(q.limit + 1)
  {
    var s1 := ScopeClauses(q);
    ScopeMeans(q, ledger, r);
    var s2 := PushGrouping(s1, q.grouping);
    GroupingAdds(s1, q.grouping, ledger, r);
    RangeMeans(s2, q, ledger, r);
    PageMeans(RangeClauses(s2, q), q, ledger, r);
  }

  lemma LatestAdds(s: Statement, latestOnly: bool, ledger: seq<MetricRow>, r: MetricRow)
    requires AllBound(s)
    ensures var t := if latestOnly then s.(predicates := s.predicates + [NotSuperseded]) else s;
            AllBound(t) && (Selects(t, ledger, r) <==> Selects(s, ledger, r) && (latestOnly ==> !Superseded(r, ledger)))
  {
    if latestOnly {
      assert s.values + [] == s.values;
      ClauseAdds(s, [], NotSuperseded, ledger, r);
    }
  }

  lemma CursorAdds(s: Statement, after: Option<MetricCursor>, ledger: seq<MetricRow>, r: MetricRow)
    requires AllBound(s)
    ensures var t := if after.Some? then PushCursor(s, after.value) else s;
            AllBound(t) && (Selects(t, ledger, r) <==> Selects(s, ledger, r) && (after.Some? ==>
                Before(CursorKey(after.value), RowKey(r))))
  {
    if after.Some? {
      var n, c := |s.values|, after.value;
      var more := [Text(c.metricName), Text(c.groupingDigest), Text(c.metricRunId)];
      var values := s.values + more;
      assert values[n] == more[0] && values[n + 1] == more[1] && values[n + 2] == more[2];
      ClauseAdds(s, more, KeyAfter(n + 1, n + 2, n + 3), ledger, r);
    }
  }

  lemma LimitAdds(s: Statement, limit: nat, ledger: seq<MetricRow>, r: MetricRow)
    requires AllBound(s)
    ensures var t := s.(values := s.values + [Number(limit + 1)], limitSlot := |s.values| + 1);
            AllBound(t) && (Selects(t, ledger, r) <==> Selects(s, ledger, r))
  {
    AllStable(s.predicates, s.values, [Number(limit + 1)], ledger, r);
  }
}

/** Keyset paging over the report: following the cursor of each page. */
module Paging {
  import opened Outcomes
  import opened Sequences
  import opened CanonicalOrder
  import opened MetricQueries

  // ---- Cursors ----

  /** Cursor texts, as base64url JSON; only that decoding undoes encoding is used. */
  datatype Codec = Codec(encode: MetricCursor -> string, decode: string -> Option<MetricCursor>)

  ghost predicate RoundTrips(codec: Codec) {
    forall c :: codec.decode(codec.encode(c)) == Some(c)
  }

  predicate Lower(c: char) { 'a' <= c <= 'z' }
  predicate DigitChar(c: char) { '0' <= c <= '9' }
  predicate NameChar(c: char) { Lower(c) || DigitChar(c) || c == '_' }
  predicate IdentifierChar(c: char) {
    Lower(c) || 'A' <= c <= 'Z' || DigitChar(c) || c == '.' || c == '_' || c == ':' || c == '-'
  }
  predicate HexChar(c: char) { DigitChar(c) || 'a' <= c <= 'f' }

  predicate ValidMetricName(s: string) { 3 <= |s| <= 128 && Lower(s[0]) && forall c :: c in s ==> NameChar(c) }
  predicate ValidDigest(s: string) { |s| == 64 && forall c :: c in s ==> HexChar(c) }
  predicate ValidIdentifier(s: string) { 1 <= |s| <= 128 && forall c :: c in s ==> IdentifierChar(c) }

  predicate ValidCursor(c: MetricCursor) {
    ValidMetricName(c.metricName) && ValidDigest(c.groupingDigest) && ValidIdentifier(c.metricRunId)
  }

  function ParseCursor(codec: Codec, token: string): Result<MetricCursor> {
    match codec.decode(token)
    case None => Err
    case Some(c) => if ValidCursor(c) then Ok(c) else Err
  }

  function CursorOf(r: MetricRow): MetricCursor { MetricCursor(r.metricName, r.groupingDigest, r.runId) }

  // ---- Pages ----

  function WantedBy(q: MetricQuery, ledger: seq<MetricRow>): MetricRow -> bool {
    (r: MetricRow) => Wanted(q, ledger, r)
  }

  /** All rows of the ledger that match the query, in report order. */
  function Matching(q: MetricQuery, ledger: seq<MetricRow>): seq<MetricRow> {
    Sort(Filter(ledger, WantedBy(q, ledger)), RowKey)
  }

  datatype Page = Page(data: seq<MetricRow>, next: Option<string>)

  /** One report page: at most `limit` rows, and a cursor when the statement found one more. */
  function Report(codec: Codec, q: MetricQuery, ledger: seq<MetricRow>): Page {
    var found := Matching(q, ledger);
    var rows := if |found| > q.limit + 1 then found[..q.limit + 1] else found;
    if |rows| > q.limit && q.limit > 0 then Page(rows[..q.limit], Some(codec.encode(CursorOf(rows[q.limit - 1]))))
    else Page(if |rows| > q.limit then rows[..q.limit] else rows, None)
  }

  /** Run IDs are unique, so no two rows share a key. */
  ghost predicate UniqueRuns(ledger: seq<MetricRow>) {
    forall i, j :: 0 <= i < j < |ledger| ==> ledger[i].runId != ledger[j].runId
  }

  function AfterKey<T>(key: T -> Key, cut: Key): T -> bool {
    (x: T) => Before(cut, key(x))
  }

  ghost predicate Increasing<T>(xs: seq<T>, key: T -> Key) {
    forall i, j :: 0 <= i < j < |xs| ==> Before(key(xs[i]), key(xs[j]))
  }

  lemma {:induction false} FilterKeepsRunsUnique(ledger: seq<MetricRow>, keep: MetricRow -> bool)
    requires UniqueRuns(ledger)
    ensures UniqueRuns(Filter(ledger, keep))
  {
    if ledger != [] {
      FilterKeepsRunsUnique(ledger[1..], keep);
      var rest := Filter(ledger[1..], keep);
      forall j | 0 <= j < |rest| ensures rest[j].runId != ledger[0].runId {
        assert rest[j] in rest;
        FilterMember(ledger[1..], keep, rest[j]);
        var k :| 0 <= k < |ledger| - 1 && ledger[1..][k] == rest[j];
        assert ledger[k + 1] == rest[j];
      }
    }
  }

  /** Matching rows come in strictly increasing key order, each exactly as often as in the ledger. */
  lemma MatchingIncreasing(q: MetricQuery, ledger: seq<MetricRow>)
    requires UniqueRuns(ledger)
    ensures Increasing(Matching(q, ledger), RowKey)
    ensures multiset(Matching(q, ledger)) == multiset(Filter(ledger, WantedBy(q, ledger)))
  {
    var kept := Filter(ledger, WantedBy(q, ledger));
    var s := Matching(q, ledger);
    FilterKeepsRunsUnique(ledger, WantedBy(q, ledger));
    SortPermutes(kept, RowKey);
    SortSorted(kept, RowKey);
    var id := (r: MetricRow) => r.runId;
    MapAt(kept, id);
    MapAt(s, id);
    MapPermuted(kept, s, id);
    DistinctPermuted(Map(kept, id), Map(s, id));
    forall i, j | 0 <= i < j < |s| ensures Before(RowKey(s[i]), RowKey(s[j])) {
      assert Map(s, id)[i] != Map(s, id)[j];
      if RowKey(s[i]) == RowKey(s[j]) {
        assert RowKey(s[i])[2] == RowKey(s[j])[2];
        CodePointsInjective(s[i].runId, s[j].runId);
      }
    }
  }

  lemma BeforeTransitive(a: Key, b: Key, c: Key)
    requires Before(a, b) && Before(b, c)
    ensures Before(a, c)
  {
    KeyTransitive(a, b, c);
    KeyTotal(a, b);
  }

  lemma NotBeforeEarlier(a: Key, b: Key)
    requires a == b || Before(a, b)
    ensures !Before(b, a)
  {
    KeyTotal(a, b);
  }

  lemma AfterPosition<T>(xs: seq<T>, key: T -> Key, n: nat)
    requires Increasing(xs, key) && 0 < n <= |xs|
    ensures Filter(xs, AfterKey(key, key(xs[n - 1]))) == xs[n..]
  {
    var keep := AfterKey(key, key(xs[n - 1]));
    assert xs == xs[..n] + xs[n..];
    FilterConcat(xs[..n], xs[n..], keep);
    NoneUpTo(xs, key, n);
    AllAfter(xs, key, n);
  }

  lemma NoneUpTo<T>(xs: seq<T>, key: T -> Key, n: nat)
    requires Increasing(xs, key) && 0 < n <= |xs|
    ensures Filter(xs[..n], AfterKey(key, key(xs[n - 1]))) == []
  {
    forall x | x in xs[..n] ensures !AfterKey(key, key(xs[n - 1]))(x) {
      var i :| 0 <= i < n && xs[i] == x;
      NotBeforeEarlier(key(x), key(xs[n - 1]));
    }
    FilterNone(xs[..n], AfterKey(key, key(xs[n - 1])));
  }

  lemma AllAfter<T>(xs: seq<T>, key: T -> Key, n: nat)
    requires Increasing(xs, key) && 0 < n <= |xs|
    ensures Filter(xs[n..], AfterKey(key, key(xs[n - 1]))) == xs[n..]
  {
    forall x | x in xs[n..] ensures AfterKey(key, key(xs[n - 1]))(x) {
      var i :| n <= i < |xs| && xs[i] == x;
    }
    FilterAll(xs[n..], AfterKey(key, key(xs[n - 1])));
  }

  lemma WantedAfter(q: MetricQuery, c: MetricCursor, ledger: seq<MetricRow>, r: MetricRow)
    requires q.after.Some? ==> Before(CursorKey(q.after.value), CursorKey(c))
    ensures Wanted(q.(after := Some(c)), ledger, r) <==> Wanted(q, ledger, r) && Before(CursorKey(c), RowKey(r))
  {
    if q.after.Some? && Before(CursorKey(c), RowKey(r)) {
      BeforeTransitive(CursorKey(q.after.value), CursorKey(c), RowKey(r));
    }
  }

  /** The rows that match with the page's cursor are the matching rows that follow the page. */
  lemma NextPageContinues(q: MetricQuery, ledger: seq<MetricRow>, n: nat)
    requires UniqueRuns(ledger) && 0 < n <= |Matching(q, ledger)|
    ensures Matching(q.(after := Some(CursorOf(Matching(q, ledger)[n - 1]))), ledger) == Matching(q, ledger)[n..]
  {
    var rows, wanted := Matching(q, ledger), WantedBy(q, ledger);
    var last := rows[n - 1];
    var next, later := q.(after := Some(CursorOf(last))), AfterKey(RowKey, RowKey(last));
    MatchingIncreasing(q, ledger);
    AfterPosition(rows, RowKey, n);
    FilterSort(Filter(ledger, wanted), RowKey, later);
    SortMember(Filter(ledger, wanted), RowKey, last);
    FilterMember(ledger, wanted, last);
    var both := (r: MetricRow) => wanted(r) && later(r);
    forall r | r in ledger ensures WantedBy(next, ledger)(r) == both(r) {
      WantedAfter(q, CursorOf(last), ledger, r);
    }
    FilterAgree(ledger, WantedBy(next, ledger), both);
    FilterBoth(ledger, wanted, later, both);
  }

  lemma ReportShape(codec: Codec, q: MetricQuery, ledger: seq<MetricRow>)
    requires q.limit > 0
    ensures var rows := Matching(q, ledger);
            Report(codec, q, ledger) == if |rows| <= q.limit then Page(rows, None)
                                        else Page(rows[..q.limit], Some(codec.encode(CursorOf(rows[q.limit - 1]))))
  {
    var rows := Matching(q, ledger);
    if |rows| > q.limit + 1 {
      assert rows[..q.limit + 1][..q.limit] == rows[..q.limit];
    }
  }

  /** Following the cursor of each page to the end, with the same filters; a refused cursor ends in an error. */
  function Follow(codec: Codec, q: MetricQuery, ledger: seq<MetricRow>, pages: nat): Result<seq<MetricRow>>
    decreases pages
  {
    var page := Report(codec, q, ledger);
    if page.next.None? || pages == 0 then Ok(page.data)
    else
      var cursor :- ParseCursor(codec, page.next.value);
      var rest :- Follow(codec, q.(after := Some(cursor)), ledger, pages - 1);
      Ok(page.data + rest)
  }

  lemma FollowStep(codec: Codec, q: MetricQuery, ledger: seq<MetricRow>, pages: nat, rows: seq<MetricRow>)
    requires RoundTrips(codec) && q.limit > 0 && pages > 0 && rows == Matching(q, ledger) && |rows| > q.limit
    ensures var rest := Follow(codec, q.(after := Some(CursorOf(rows[q.limit - 1]))), ledger, pages - 1);
            Follow(codec, q, ledger, pages)
            == if ValidCursor(CursorOf(rows[q.limit - 1])) && rest.Ok? then Ok(rows[..q.limit] + rest.value) else Err
  {
    ReportShape(codec, q, ledger);
    var c := CursorOf(rows[q.limit - 1]);
    assert ParseCursor(codec, codec.encode(c)) == if ValidCursor(c) then Ok(c) else Err;
  }

  lemma FollowLast(codec: Codec, q: MetricQuery, ledger: seq<MetricRow>, pages: nat)
    requires q.limit > 0 && |Matching(q, ledger)| <= q.limit
    ensures Follow(codec, q, ledger, pages) == Ok(Matching(q, ledger))
  {
    ReportShape(codec, q, ledger);
  }

  /** The last row of every full page that another row follows can be written as a cursor the API accepts. */
  ghost predicate BoundariesValid(rows: seq<MetricRow>, limit: nat) {
    forall k: nat :: k > 0 && k * limit < |rows| ==> ValidBoundary(rows, k * limit)
  }

  ghost predicate ValidBoundary(rows: seq<MetricRow>, n: nat) {
    0 < n <= |rows| ==> ValidCursor(CursorOf(rows[n - 1]))
  }

  lemma BoundariesShift(rows: seq<MetricRow>, limit: nat)
    requires limit > 0 && |rows| > limit
    ensures BoundariesValid(rows, limit)
       <==> ValidCursor(CursorOf(rows[limit - 1])) && BoundariesValid(rows[limit..], limit)
  {
    var rest := rows[limit..];
    if BoundariesValid(rows, limit) {
      assert 1 * limit == limit;
      assert ValidBoundary(rows, 1 * limit);
      forall k: nat | k > 0 && k * limit < |rest| ensures ValidBoundary(rest, k * limit) {
        assert (k + 1) * limit == k * limit + limit;
        assert ValidBoundary(rows, (k + 1) * limit);
        PositiveProduct(k, limit);
      }
    }
    if ValidCursor(CursorOf(rows[limit - 1])) && BoundariesValid(rest, limit) {
      forall k: nat | k > 0 && k * limit < |rows| ensures ValidBoundary(rows, k * limit) {
        if k == 1 {
          assert k * limit == limit;
        } else {
          assert k * limit == (k - 1) * limit + limit;
          PositiveProduct(k - 1, limit);
          assert ValidBoundary(rest, (k - 1) * limit);
        }
      }
    }
  }

  lemma PositiveProduct(k: nat, limit: nat)
    requires k > 0 && limit > 0
    ensures k * limit >= limit
  {
  }

  lemma NoBoundaries(rows: seq<MetricRow>, limit: nat)
    requires limit > 0 && |rows| <= limit
    ensures BoundariesValid(rows, limit)
  {
    forall k: nat | k > 0 ensures k * limit >= |rows| {
      PositiveProduct(k, limit);
    }
  }

  /**
   The outcome of following the cursors is all the rows, or an error at the first boundary that is no valid cursor.
   */
  ghost predicate Yields(outcome: Result<seq<MetricRow>>, rows: seq<MetricRow>, limit: nat) {
    (outcome.Ok? <==> BoundariesValid(rows, limit)) && (outcome.Ok? ==> outcome.value == rows)
  }

  lemma PageThenRest(rows: seq<MetricRow>, limit: nat, rest: Result<seq<MetricRow>>)
    requires limit > 0 && |rows| > limit
    requires ValidCursor(CursorOf(rows[limit - 1])) ==> Yields(rest, rows[limit..], limit)
    ensures Yields(if ValidCursor(CursorOf(rows[limit - 1])) && rest.Ok? then Ok(rows[..limit] + rest.value) else Err,
                   rows, limit)
  {
    BoundariesShift(rows, limit);
    assert rows[..limit] + rows[limit..] == rows;
  }

  /**
   Following the cursors over a fixed ledger ends with every matching row exactly once, in order, as soon as as many
   pages are followed as there are rows; and it gets there if and only if each page boundary is a valid cursor.
   */
  lemma {:induction false} FollowYieldsEverything(codec: Codec, q: MetricQuery, ledger: seq<MetricRow>, pages: nat)
    requires RoundTrips(codec) && UniqueRuns(ledger) && q.limit > 0 && pages >= |Matching(q, ledger)|
    ensures Yields(Follow(codec, q, ledger, pages), Matching(q, ledger), q.limit)
    decreases pages
  {
    if |Matching(q, ledger)| <= q.limit {
      FollowLast(codec, q, ledger, pages);
      NoBoundaries(Matching(q, ledger), q.limit);
    } else {
      var next, rows := NextQuery(q, ledger), Matching(q, ledger);
      NextPageContinues(q, ledger, q.limit);
      assert Matching(next, ledger) == rows[q.limit..];
      FollowYieldsEverything(codec, next, ledger, pages - 1);
      PageYields(codec, q, ledger, pages, rows, Follow(codec, next, ledger, pages - 1));
    }
  }

  function NextQuery(q: MetricQuery, ledger: seq<MetricRow>): MetricQuery
    requires 0 < q.limit < |Matching(q, ledger)|
  {
    q.(after := Some(CursorOf(Matching(q, ledger)[q.limit - 1])))
  }

  lemma PageYields(codec: Codec, q: MetricQuery, ledger: seq<MetricRow>, pages: nat, rows: seq<MetricRow>,
                   rest: Result<seq<MetricRow>>)
    requires RoundTrips(codec) && q.limit > 0 && pages > 0 && rows == Matching(q, ledger) && |rows| > q.limit
    requires rest == Follow(codec, q.(after := Some(CursorOf(rows[q.limit - 1]))), ledger, pages - 1)
    requires Yields(rest, rows[q.limit..], q.limit)
    ensures Yields(Follow(codec, q, ledger, pages), rows, q.limit)
  {
    FollowStep(codec, q, ledger, pages, rows);
    PageThenRest(rows, q.limit, rest);
  }

  // ---- A report that cannot be followed ----

  function Repeated(c: char, n: nat): string { if n == 0 then "" else [c] + Repeated(c, n - 1) }

  lemma {:induction false} RepeatedMeans(c: char, n: nat)
    ensures |Repeated(c, n)| == n && forall x :: x in Repeated(c, n) ==> x == c
  {
    if n > 0 {
      RepeatedMeans(c, n - 1);
    }
  }

  /** The run ID of a manual evaluation: its day, 24 hex digits and the metric's name. */
  function ManualRunId(day: string, hex: string, name: string): string { "manual:" + day + ":" + hex + ":" + name }

  /** A name of 86 characters or more makes a run ID too long for a cursor. */
  lemma LongNameRefused(day: string, hex: string, name: string, digest: string)
    requires |day| == 10 && |hex| == 24 && |name| >= 86
    ensures !ValidCursor(MetricCursor(name, digest, ManualRunId(day, hex, name)))
  {
    assert |ManualRunId(day, hex, name)| == 43 + |name|;
  }

  lemma TwoRowsMatch(q: MetricQuery, a: MetricRow, b: MetricRow)
    requires Wanted(q, [a, b], a) && Wanted(q, [a, b], b)
    ensures |Matching(q, [a, b])| == 2
    ensures forall r :: r in Matching(q, [a, b]) ==> r == a || r == b
  {
    FilterAll([a, b], WantedBy(q, [a, b]));
    TwoSorted(a, b);
  }

  lemma TwoSorted(a: MetricRow, b: MetricRow)
    ensures |Sort([a, b], RowKey)| == 2 && forall r :: r in Sort([a, b], RowKey) ==> r == a || r == b
  {
    SortPermutes([a, b], RowKey);
    assert |multiset([a, b])| == 2 && |multiset(Sort([a, b], RowKey))| == |Sort([a, b], RowKey)|;
    forall r | r in Sort([a, b], RowKey) ensures r == a || r == b {
      SortMember([a, b], RowKey, r);
    }
  }

  function ManualRow(day: string, hex: string, name: string, digest: string): MetricRow {
    MetricRow(ManualRunId(day, hex, name), "t", "a", name, "1", map[], digest, day, None)
  }

  lemma ManualRowsDiffer(day: string, hex: string, other: string, name: string, digest: string)
    requires |day| == 10 && |hex| == |other| == 24 && hex != other
    ensures UniqueRuns([ManualRow(day, hex, name, digest), ManualRow(day, other, name, digest)])
  {
    var x, y := ManualRunId(day, hex, name), ManualRunId(day, other, name);
    assert x[18..42] == hex && y[18..42] == other;
  }

  lemma AllRowsWanted(q: MetricQuery, ledger: seq<MetricRow>, r: MetricRow)
    requires q == MetricQuery("t", "a", None, None, [], None, None, None, false, 1, None) && r.tenantId == "t"
    requires r.appId == "a"
    ensures Wanted(q, ledger, r)
  {
  }

  lemma AllowedName()
    ensures ValidMetricName(Repeated('m', 86)) && ValidDigest(Repeated('0', 64))
  {
    RepeatedMeans('m', 86);
    RepeatedMeans('0', 64);
    assert Repeated('m', 86)[0] in Repeated('m', 86);
  }

  /** The second page of a report over two manual runs of a metric with a long, allowed name is refused. */
  lemma LongRunIdStopsReport(codec: Codec, day: string, hex: string, other: string, pages: nat)
    returns (q: MetricQuery, a: MetricRow, b: MetricRow)
    requires RoundTrips(codec) && |day| == 10 && |hex| == |other| == 24 && hex != other && pages >= 2
    ensures ValidMetricName(a.metricName) && ValidDigest(a.groupingDigest)
    ensures ValidMetricName(b.metricName) && ValidDigest(b.groupingDigest)
    ensures q.limit == 1 && UniqueRuns([a, b]) && |Matching(q, [a, b])| == 2
    ensures Follow(codec, q, [a, b], pages).Err?
  {
    var name, digest := Repeated('m', 86), Repeated('0', 64);
    AllowedName();
    a, b := ManualRow(day, hex, name, digest), ManualRow(day, other, name, digest);
    q := MetricQuery("t", "a", None, None, [], None, None, None, false, 1, None);
    RepeatedMeans('m', 86);
    ManualRowsDiffer(day, hex, other, name, digest);
    LongNameRefused(day, hex, name, digest);
    LongNameRefused(day, other, name, digest);
    RefusedRowsStop(codec, q, a, b, pages);
  }

  lemma RefusedRowsStop(codec: Codec, q: MetricQuery, a: MetricRow, b: MetricRow, pages: nat)
    requires RoundTrips(codec) && q == MetricQuery("t", "a", None, None, [], None, None, None, false, 1, None)
    requires pages >= 2
    requires a.tenantId == b.tenantId == "t" && a.appId == b.appId == "a" && UniqueRuns([a, b])
    requires !ValidCursor(CursorOf(a)) && !ValidCursor(CursorOf(b))
    ensures |Matching(q, [a, b])| == 2 && Follow(codec, q, [a, b], pages).Err?
  {
    AllRowsWanted(q, [a, b], a);
    AllRowsWanted(q, [a, b], b);
    TwoRowsMatch(q, a, b);
    FollowRefused(codec, q, [a, b], pages);
  }

  lemma FollowRefused(codec: Codec, q: MetricQuery, ledger: seq<MetricRow>, pages: nat)
    requires RoundTrips(codec) && UniqueRuns(ledger) && q.limit == 1 && pages >= |Matching(q, ledger)| == 2
    requires forall r :: r in Matching(q, ledger) ==> !ValidCursor(CursorOf(r))
    ensures Follow(codec, q, ledger, pages).Err?
  {
    var rows := Matching(q, ledger);
    assert rows[0] in rows;
    FollowYieldsEverything(codec, q, ledger, pages);
    FirstBoundaryRefused(rows);
  }

  lemma FirstBoundaryRefused(rows: seq<MetricRow>)
    requires |rows| > 1 && !ValidCursor(CursorOf(rows[0]))
    ensures !BoundariesValid(rows, 1)
  {
    assert !ValidBoundary(rows, 1 * 1);
  }
}

/** Which rows a report shows and in which order, said of the rows' own texts. */
module ReportMeaning {
  import opened Outcomes
  import opened Sequences
  import opened CanonicalOrder
  import opened TextOrder
  import opened MetricQueries
  import Paging

  /** The row's date is its metric date or, where that is missing or empty, its cohort date. */
  ghost predicate DatedOn(r: MetricRow, date: string) {
    date != "" && (
      || (MetricDate in r.grouping && r.grouping[MetricDate] == date)
      || ((MetricDate !in r.grouping || r.grouping[MetricDate] == "") && CohortDate in r.grouping && r.grouping[CohortDate] == date))
  }

  ghost predicate NotBefore(text: string, from: string) { text == from || Precedes(from, text, PointBefore) }

  /** Some run of the same application replaces this one. */
  ghost predicate Replaced(r: MetricRow, ledger: seq<MetricRow>) {
    exists i :: 0 <= i < |ledger| && ledger[i].tenantId == r.tenantId && ledger[i].appId == r.appId
                && ledger[i].supersedes == Some(r.runId)
  }

  ghost function Texts(r: MetricRow): seq<string> { [r.metricName, r.groupingDigest, r.runId] }

  /** What a report query asks of a row. */
  ghost predicate AskedFor(q: MetricQuery, ledger: seq<MetricRow>, r: MetricRow) {
    && r.tenantId == q.tenantId && r.appId == q.appId
    && (q.metricNames.Some? ==> exists i :: 0 <= i < |q.metricNames.value| && q.metricNames.value[i] == r.metricName)
    && (forall v :: q.definitionVersion == Some(v) && v != "" ==> r.definitionVersion == v)
    && (forall i :: 0 <= i < |q.grouping| ==>
         q.grouping[i].0 in r.grouping && r.grouping[q.grouping[i].0] == q.grouping[i].1)
    && (forall from :: q.dateFrom == Some(from) && from != "" ==>
         exists date :: DatedOn(r, date) && NotBefore(date, from))
    && (forall to :: q.dateTo == Some(to) && to != "" ==> exists date :: DatedOn(r, date) && !NotBefore(date, to))
    && (forall mark :: q.watermarkAtMost == Some(mark) && mark != "" ==> NotBefore(mark, r.watermark))
    && (q.latestOnly ==> !Replaced(r, ledger))
    && (forall c :: q.after == Some(c) ==> Precedes([c.metricName, c.groupingDigest, c.metricRunId], Texts(r),
                                                    PointTextBefore))
  }

  lemma DateMeans(r: MetricRow)
    ensures forall date :: RunDate(r) == Some(date) <==> DatedOn(r, date)
  {
  }

  lemma NotBeforeMeans(text: string, from: string)
    ensures TextLe(from, text) <==> NotBefore(text, from)
  {
    TextOrderMeans(from, text);
    UnitsTotal(CodePoints(text), CodePoints(text));
  }

  lemma RangeMeans(q: MetricQuery, r: MetricRow)
    ensures WantedRange(q, r)
       <==> && (forall from :: q.dateFrom == Some(from) && from != "" ==>
              exists date :: DatedOn(r, date) && NotBefore(date, from))
            && (forall to :: q.dateTo == Some(to) && to != "" ==>
                 exists date :: DatedOn(r, date) && !NotBefore(date, to))
            && (forall mark :: q.watermarkAtMost == Some(mark) && mark != "" ==> NotBefore(mark, r.watermark))
  {
    DateMeans(r);
    if RunDate(r).Some? {
      if q.dateFrom.Some? {
        NotBeforeMeans(RunDate(r).value, q.dateFrom.value);
      }
      if q.dateTo.Some? {
        NotBeforeMeans(RunDate(r).value, q.dateTo.value);
      }
    }
    if q.watermarkAtMost.Some? {
      NotBeforeMeans(q.watermarkAtMost.value, r.watermark);
    }
  }

  lemma KeysAre(r: MetricRow, c: MetricCursor)
    ensures RowKey(r) == Map(Texts(r), CodePoints)
    ensures CursorKey(c) == Map([c.metricName, c.groupingDigest, c.metricRunId], CodePoints)
  {
    MapAt(Texts(r), CodePoints);
    MapAt([c.metricName, c.groupingDigest, c.metricRunId], CodePoints);
  }

  lemma BeforeMeans(p: seq<string>, q: seq<string>)
    ensures Before(Map(p, CodePoints), Map(q, CodePoints)) <==> Precedes(p, q, PointTextBefore)
  {
    PointKeyOrderMeans(p, q);
    if Map(p, CodePoints) == Map(q, CodePoints) {
      MapAt(p, CodePoints);
      MapAt(q, CodePoints);
      forall i | 0 <= i < |p| ensures p[i] == q[i] {
        assert Map(p, CodePoints)[i] == Map(q, CodePoints)[i];
        CodePointsInjective(p[i], q[i]);
      }
    }
  }

  /** A page has the first rows up to its limit, and a cursor if and only if more rows match. */
  lemma PageMeans(codec: Paging.Codec, q: MetricQuery, ledger: seq<MetricRow>)
    requires q.limit > 0
    ensures var rows, page := Paging.Matching(q, ledger), Paging.Report(codec, q, ledger);
            && page.data == (if |rows| <= q.limit then rows else rows[..q.limit])
            && (page.next.Some? <==> |rows| > q.limit)
            && (page.next.Some? ==>
                  page.next == Some(codec.encode(MetricCursor(rows[q.limit - 1].metricName, rows[q.limit - 1].groupingDigest,
                                                              rows[q.limit - 1].runId))))
  {
  }

  /** A row is selected if and only if the query asks for it. */
  lemma WantedMeans(q: MetricQuery, ledger: seq<MetricRow>, r: MetricRow)
    ensures Wanted(q, ledger, r) <==> AskedFor(q, ledger, r)
  {
    RangeMeans(q, r);
    assert Superseded(r, ledger) <==> Replaced(r, ledger);
    if q.after.Some? {
      KeysAre(r, q.after.value);
      BeforeMeans([q.after.value.metricName, q.after.value.groupingDigest, q.after.value.metricRunId], Texts(r));
    }
  }

  /** A report's rows stand by metric name, then grouping digest, then run ID, each compared by code points. */
  lemma ReportInOrder(q: MetricQuery, ledger: seq<MetricRow>, i: nat, j: nat)
    requires Paging.UniqueRuns(ledger) && i < j < |Paging.Matching(q, ledger)|
    ensures Precedes(Texts(Paging.Matching(q, ledger)[i]), Texts(Paging.Matching(q, ledger)[j]), PointTextBefore)
  {
    var rows := Paging.Matching(q, ledger);
    Paging.MatchingIncreasing(q, ledger);
    KeysAre(rows[i], MetricCursor("", "", ""));
    KeysAre(rows[j], MetricCursor("", "", ""));
    BeforeMeans(Texts(rows[i]), Texts(rows[j]));
  }
}
