/** Metric runs over the accepted attempts: revenue windows, event counts and their groupings. */
module Metrics {
  import opened Outcomes
  import opened Contract
  import opened Sequences
  import opened Partitions
  import opened CanonicalOrder
  import opened Decisions
  import opened Attributions
  import opened Evaluation
  import opened Money

  const DAY_MS := 86_400_000
  const TOKYO_OFFSET_MS := 32_400_000

  datatype Zone = Utc | Tokyo
  datatype Window = Elapsed(day: int) | CalendarDay(day: int, zone: Zone)

  /** The calendar day of an instant, as a day number in the zone. */
  function DayNumber(ms: int, zone: Zone): int {
    (ms + if zone.Tokyo? then TOKYO_OFFSET_MS else 0) / DAY_MS
  }

  function DayOf(env: Env, text: string, zone: Zone): Option<int> {
    match env.parse(text)
    case Some(ms) => Some(DayNumber(ms, zone))
    case None => None
  }

  function SeenBy(watermark: string, afterPrivacy: bool, lifecycle: map<EvidenceKey, Lifecycle>): Attempt -> bool {
    (a: Attempt) => TextLe(a.record.receivedAt, watermark) && (!afterPrivacy || EvidenceOf(a) !in lifecycle)
  }

  /** The accepted attempts a metric evaluation may look at, already in the order it sorts them into. */
  function Visible(env: Env, s: seq<Attempt>, watermark: string, afterPrivacy: bool,
                   lifecycle: map<EvidenceKey, Lifecycle>): seq<Attempt> {
    Filter(AcceptedOf(env, s), SeenBy(watermark, afterPrivacy, lifecycle))
  }

  // ---- Revenue ----

  function EligibleRevenue(env: Env, window: Window, install: Record, revenue: Record): Result<bool> {
    match (env.parse(install.occurredAt), env.parse(revenue.occurredAt))
    case (Some(installed), Some(earned)) =>
      Ok(match window
         case CalendarDay(day, zone) => DayNumber(earned, zone) == DayNumber(installed + day * DAY_MS, zone)
         case Elapsed(day) => 0 <= earned - installed < (day + 1) * DAY_MS)
    case _ => Err
  }

  function InstallationOf(item: Attempt): Attempt -> bool {
    (x: Attempt) => Scope(x) == Scope(item) && x.record.payload.installationId == item.record.payload.installationId
  }

  function AmountOf(a: Attempt): Amount {
    Amount(a.record.payload.amountUnscaled, a.record.payload.amountScale, a.record.payload.currency)
  }

  predicate IsRevenue(a: Attempt) { a.record.event.AdRevenue? && a.record.payload.installationLevel }

  /** Whether a revenue item belongs to an install of the cohort, inside the window. */
  function Counts(env: Env, window: Window, installs: seq<Attempt>, item: Attempt): Result<bool> {
    match FindFirst(installs, InstallationOf(item))
    case None => Ok(false)
    case Some(installation) => EligibleRevenue(env, window, installation.record, item.record)
  }

  function RevenueItem(env: Env, window: Window, installs: seq<Attempt>, item: Attempt, policy: FxPolicy): Result<int> {
    var counts :- Counts(env, window, installs, item);
    if counts then Convert(AmountOf(item), policy) else Ok(0)
  }

  function RevenueSum(env: Env, window: Window, installs: seq<Attempt>, revenue: seq<Attempt>,
                      policy: FxPolicy): Result<int> {
    if revenue == [] then Ok(0)
    else
      var before :- RevenueSum(env, window, installs, revenue[..|revenue| - 1], policy);
      var last :- RevenueItem(env, window, installs, revenue[|revenue| - 1], policy);
      Ok(before + last)
  }

  /** The running total over the revenue items; the first item that cannot be evaluated stops the run. */
  method RevenueValue(env: Env, window: Window, installs: seq<Attempt>, revenue: seq<Attempt>, policy: FxPolicy)
    returns (value: Result<int>)
    ensures value == RevenueSum(env, window, installs, revenue, policy)
  {
    var total := 0;
    for i := 0 to |revenue|
      invariant RevenueSum(env, window, installs, revenue[..i], policy) == Ok(total)
    {
      var amount := RevenueItem(env, window, installs, revenue[i], policy);
      assert revenue[..i + 1][..i] == revenue[..i];
      if amount.Err? {
        RevenueErrors(env, window, installs, revenue, i + 1, policy);
        return Err;
      }
      total := total + amount.value;
    }
    assert revenue[..|revenue|] == revenue;
    return Ok(total);
  }

  lemma {:induction false} RevenueErrors(env: Env, window: Window, installs: seq<Attempt>, revenue: seq<Attempt>,
                                         i: nat, policy: FxPolicy)
    requires i <= |revenue| && RevenueSum(env, window, installs, revenue[..i], policy).Err?
    ensures RevenueSum(env, window, installs, revenue, policy).Err?
    decreases |revenue|
  {
    if i < |revenue| {
      assert revenue[..|revenue| - 1][..i] == revenue[..i];
      RevenueErrors(env, window, installs, revenue[..|revenue| - 1], i, policy);
    } else {
      assert revenue[..i] == revenue;
    }
  }

  /** The amounts that count, in order. */
  function CountedAmounts(env: Env, window: Window, installs: seq<Attempt>, revenue: seq<Attempt>): seq<Amount> {
    if revenue == [] then []
    else
      var last := revenue[|revenue| - 1];
      CountedAmounts(env, window, installs, revenue[..|revenue| - 1])
      + if Counts(env, window, installs, last) == Ok(true) then [AmountOf(last)] else []
  }

  lemma {:induction false} SumAppend(amounts: seq<Amount>, last: Amount, policy: FxPolicy)
    requires SumConverted(amounts, policy).Ok? && Convert(last, policy).Ok?
    ensures SumConverted(amounts + [last], policy)
         == Ok(SumConverted(amounts, policy).value + Convert(last, policy).value)
  {
    if amounts == [] {
      assert amounts + [last] == [last];
      assert [last][1..] == [];
    } else {
      assert (amounts + [last])[1..] == amounts[1..] + [last];
      SumAppend(amounts[1..], last, policy);
    }
  }

  /**
   Revenue is the sum of the converted counted amounts, hence within half a unit per counted item of the exact sum.
   */
  lemma {:induction false} RevenueIsCountedSum(env: Env, window: Window, installs: seq<Attempt>,
                                               revenue: seq<Attempt>, policy: FxPolicy)
    requires RevenueSum(env, window, installs, revenue, policy).Ok?
    ensures var counted := CountedAmounts(env, window, installs, revenue);
            SumConverted(counted, policy) == RevenueSum(env, window, installs, revenue, policy)
            && |counted| <= |revenue|
    decreases |revenue|
  {
    if revenue != [] {
      var before, last := revenue[..|revenue| - 1], revenue[|revenue| - 1];
      RevenueIsCountedSum(env, window, installs, before, policy);
      var counted := CountedAmounts(env, window, installs, before);
      if Counts(env, window, installs, last) == Ok(true) {
        SumAppend(counted, AmountOf(last), policy);
      } else {
        assert counted + [] == counted;
      }
    }
  }

  lemma RevenueWithinHalfEach(env: Env, window: Window, installs: seq<Attempt>, revenue: seq<Attempt>, policy: FxPolicy)
    requires RevenueSum(env, window, installs, revenue, policy).Ok?
    ensures var counted := CountedAmounts(env, window, installs, revenue);
            && SumConverted(counted, policy).Ok?
            && var off := RevenueSum(env, window, installs, revenue, policy).value as real - ExactSum(counted, policy);
               -(|counted| as real / 2.0) <= off <= |counted| as real / 2.0
  {
    RevenueIsCountedSum(env, window, installs, revenue, policy);
    SumWithinHalfEach(CountedAmounts(env, window, installs, revenue), policy);
  }

  /** No refunds: every amount and every rate is at least zero. */
  ghost predicate NonNegative(revenue: seq<Attempt>, policy: FxPolicy) {
    && (forall r :: r in revenue ==> AmountOf(r).unscaled >= 0)
    && (forall r :: r in policy.rates ==> r.unscaled >= 0)
  }

  lemma {:induction false} RateListed(rates: seq<Rate>, currency: string)
    ensures FindRate(rates, currency).Some? ==> FindRate(rates, currency).value in rates
  {
    if rates != [] {
      RateListed(rates[1..], currency);
    }
  }

  /** With amounts that are not negative, a longer elapsed window never earns less. */
  lemma {:induction false} ElapsedRevenueMonotone(env: Env, day: int, later: int, installs: seq<Attempt>,
                                                  revenue: seq<Attempt>, policy: FxPolicy)
    requires day <= later && NonNegative(revenue, policy)
    requires RevenueSum(env, Elapsed(day), installs, revenue, policy).Ok?
    requires RevenueSum(env, Elapsed(later), installs, revenue, policy).Ok?
    ensures RevenueSum(env, Elapsed(day), installs, revenue, policy).value
         <= RevenueSum(env, Elapsed(later), installs, revenue, policy).value
    decreases |revenue|
  {
    if revenue != [] {
      var before, last := revenue[..|revenue| - 1], revenue[|revenue| - 1];
      ElapsedRevenueMonotone(env, day, later, installs, before, policy);
      if Counts(env, Elapsed(later), installs, last) == Ok(true) {
        var amount := AmountOf(last);
        RateListed(policy.rates, amount.currency);
        ConvertMonotone(amount, amount, policy);
      }
    }
  }

  // ---- Event counts ----

  datatype Grouping = Grouping(
    campaign: Option<string>, network: Option<string>, country: Option<string>, cohortDate: Option<int>,
    status: Option<AttributionStatus>)

  predicate Matches<T(==)>(wanted: Option<T>, actual: Option<T>) {
    wanted.Some? ==> actual == wanted
  }

  function FirstGiven<T>(a: Option<T>, b: Option<T>): Option<T> { if a.Some? then a else b }

  predicate MatchesDimensions(env: Env, a: Attempt, g: Grouping) {
    var p := a.record.payload;
    var context := p.importContext;
    var linked := if a.server.deepLink.Some? then a.server.deepLink.value.campaignId else None;
    var importedCampaign := if context.Some? then context.value.campaignRef else None;
    && Matches(g.campaign, FirstGiven(p.campaignId, FirstGiven(linked, importedCampaign)))
    && Matches(g.network,
               FirstGiven(p.network, FirstGiven(p.adNetwork, if context.Some? then context.value.network else None)))
    && Matches(g.country, FirstGiven(p.country, if context.Some? then context.value.country else None))
    && (IsInstall(a) ==> Matches(g.cohortDate, DayOf(env, a.record.occurredAt, Utc)))
  }

  predicate HasStatus(a: Attempt) { IsInstall(a) || IsOpen(a) }

  function SubjectOf(a: Attempt): EvidenceKey {
    (a.server.tenantId, a.server.appId,
     if IsInstall(a) then a.record.payload.installationId.Or("") else "engagement:" + a.record.recordId)
  }

  function StatusOf(a: Attempt, statuses: map<EvidenceKey, AttributionStatus>): Option<AttributionStatus> {
    if SubjectOf(a) in statuses then Some(statuses[SubjectOf(a)]) else None
  }

  predicate MatchesGrouping(env: Env, a: Attempt, g: Grouping, statuses: map<EvidenceKey, AttributionStatus>) {
    MatchesDimensions(env, a, g) && (HasStatus(a) ==> Matches(g.status, StatusOf(a, statuses)))
  }

  predicate HasStatusScope(x: Attribution) { x.scope.InstallationLevel? || x.scope.EngagementLevel? }

  function AttributedKey(x: Attribution): EvidenceKey { (x.tenantId, x.appId, x.subjectRef) }

  /** Subject to status; a later attribution of the same subject replaces an earlier one. */
  function StatusTable(attributions: seq<Attribution>): map<EvidenceKey, AttributionStatus> {
    if attributions == [] then map[]
    else
      var last := attributions[|attributions| - 1];
      var before := StatusTable(attributions[..|attributions| - 1]);
      if HasStatusScope(last) then before[AttributedKey(last) := last.status] else before
  }

  lemma {:induction false} StatusListed(attributions: seq<Attribution>, x: Attribution)
    requires x in attributions && HasStatusScope(x)
    ensures AttributedKey(x) in StatusTable(attributions)
    decreases |attributions|
  {
    var before := attributions[..|attributions| - 1];
    assert attributions == before + [attributions[|attributions| - 1]];
    if x in before {
      StatusListed(before, x);
    }
  }

  /** The kind of event counted, on one date, minus the installs a net metric excludes. */
  predicate CountedOn(env: Env, a: Attempt, event: EventName, date: int, zone: Zone, excluded: set<string>) {
    && a.record.event == event
    && (IsInstall(a) ==> a.record.payload.installationId.Or("") !in excluded)
    && DayOf(env, a.record.occurredAt, zone) == Some(date)
  }

  function Counted(env: Env, event: EventName, date: int, zone: Zone, excluded: set<string>, g: Grouping,
                   statuses: map<EvidenceKey, AttributionStatus>): Attempt -> bool {
    (a: Attempt) => CountedOn(env, a, event, date, zone, excluded) && MatchesGrouping(env, a, g, statuses)
  }

  function EventCount(env: Env, visible: seq<Attempt>, event: EventName, date: int, zone: Zone, excluded: set<string>,
                      g: Grouping, statuses: map<EvidenceKey, AttributionStatus>): nat {
    |Filter(visible, Counted(env, event, date, zone, excluded, g, statuses))|
  }

  /** The attributions a metric sees: those of the accepted attempts, and later ones that supersede some of them. */
  function AllAttributions(env: Env, s: seq<Attempt>, lifecycle: map<EvidenceKey, Lifecycle>,
                           superseding: seq<Attribution>): seq<Attribution> {
    Sort(BaseAttributions(env, AcceptedOf(env, s), lifecycle) + superseding, AttributionKey(env))
  }

  /** Every accepted install and deep-link open has a status. */
  lemma AcceptedHasStatus(env: Env, s: seq<Attempt>, lifecycle: map<EvidenceKey, Lifecycle>,
                          superseding: seq<Attribution>, a: Attempt)
    requires a in AcceptedOf(env, s) && HasStatus(a)
    ensures StatusOf(a, StatusTable(AllAttributions(env, s, lifecycle, superseding))).Some?
  {
    var accepted := AcceptedOf(env, s);
    var x := if IsInstall(a) then InstallAttribution(env, accepted, lifecycle)(a) else OpenAttribution(lifecycle)(a);
    FilterMember(accepted, IsInstall, a);
    FilterMember(accepted, IsOpen, a);
    MapMember(Filter(accepted, IsInstall), InstallAttribution(env, accepted, lifecycle), x);
    MapMember(Filter(accepted, IsOpen), OpenAttribution(lifecycle), x);
    assert x in BaseAttributions(env, accepted, lifecycle);
    SortMember(BaseAttributions(env, accepted, lifecycle) + superseding, AttributionKey(env), x);
    StatusListed(AllAttributions(env, s, lifecycle, superseding), x);
  }

  const ALL_STATUSES := [Organic, NonOrganic, Unattributed]

  /** The counted installs or opens of one status. */
  function CountedWithStatus(env: Env, event: EventName, date: int, zone: Zone, excluded: set<string>, g: Grouping,
                             statuses: map<EvidenceKey, AttributionStatus>): AttributionStatus -> Attempt -> bool {
    (status: AttributionStatus) => Counted(env, event, date, zone, excluded, g.(status := Some(status)), statuses)
  }

  lemma ThreeStatusCounts(xs: seq<Attempt>, part: AttributionStatus -> Attempt -> bool)
    ensures SumCounts(xs, ALL_STATUSES, part)
         == |Filter(xs, part(Organic))| + |Filter(xs, part(NonOrganic))| + |Filter(xs, part(Unattributed))|
  {
    var rest := ALL_STATUSES[1..];
    assert rest == [NonOrganic, Unattributed] && rest[1..] == [Unattributed] && rest[1..][1..] == [];
    assert SumCounts(xs, rest[1..][1..], part) == 0;
    assert SumCounts(xs, rest[1..], part) == |Filter(xs, part(Unattributed))|;
    assert SumCounts(xs, rest, part) == |Filter(xs, part(NonOrganic))| + |Filter(xs, part(Unattributed))|;
  }

  /** The partition itself, for any attempts that all have a status. */
  lemma StatusPartition(env: Env, xs: seq<Attempt>, event: EventName, date: int, zone: Zone, excluded: set<string>,
                        g: Grouping, statuses: map<EvidenceKey, AttributionStatus>)
    requires event.Install? || event.DeepLinkOpen?
    requires g.status.None?
    requires forall a :: a in xs && HasStatus(a) ==> StatusOf(a, statuses).Some?
    ensures SumCounts(xs, ALL_STATUSES, CountedWithStatus(env, event, date, zone, excluded, g, statuses))
         == EventCount(env, xs, event, date, zone, excluded, g, statuses)
  {
    var keep := Counted(env, event, date, zone, excluded, g, statuses);
    // Every attempt here has a status, so the default is never a class.
    var classOf := (a: Attempt) => StatusOf(a, statuses).Or(Unattributed);
    var known := (a: Attempt) => keep(a) && StatusOf(a, statuses).Some?;
    FilterAgree(xs, keep, known);
    forall status: AttributionStatus ensures status in ALL_STATUSES {
      assert status == ALL_STATUSES[0] || status == ALL_STATUSES[1] || status == ALL_STATUSES[2];
    }
    CountPartition(xs, known, classOf, ALL_STATUSES, CountedWithStatus(env, event, date, zone, excluded, g, statuses));
  }

  function StatusesOf(env: Env, s: seq<Attempt>, lifecycle: map<EvidenceKey, Lifecycle>,
                      superseding: seq<Attribution>): map<EvidenceKey, AttributionStatus> {
    StatusTable(AllAttributions(env, s, lifecycle, superseding))
  }

  lemma VisibleHasStatus(env: Env, s: seq<Attempt>, lifecycle: map<EvidenceKey, Lifecycle>,
                         superseding: seq<Attribution>,
                         watermark: string, afterPrivacy: bool, a: Attempt)
    requires a in Visible(env, s, watermark, afterPrivacy, lifecycle) && HasStatus(a)
    ensures StatusOf(a, StatusesOf(env, s, lifecycle, superseding)).Some?
  {
    FilterMember(AcceptedOf(env, s), SeenBy(watermark, afterPrivacy, lifecycle), a);
    AcceptedHasStatus(env, s, lifecycle, superseding, a);
  }

  /** For any date and dimensions, the counts of the three attribution statuses add up to the count without status. */
  lemma StatusCountsConserved(env: Env, s: seq<Attempt>, lifecycle: map<EvidenceKey, Lifecycle>,
                              superseding: seq<Attribution>,
                              watermark: string, afterPrivacy: bool, event: EventName, date: int, zone: Zone,
                              excluded: set<string>, g: Grouping)
    requires event.Install? || event.DeepLinkOpen?
    requires g.status.None?
    ensures EventCount(env, Visible(env, s, watermark, afterPrivacy, lifecycle), event, date, zone, excluded,
                       g, StatusesOf(env, s, lifecycle, superseding))
         == EventCount(env, Visible(env, s, watermark, afterPrivacy, lifecycle), event, date, zone, excluded,
                       g.(status := Some(Organic)), StatusesOf(env, s, lifecycle, superseding))
            + EventCount(env, Visible(env, s, watermark, afterPrivacy, lifecycle), event, date, zone, excluded,
                         g.(status := Some(NonOrganic)), StatusesOf(env, s, lifecycle, superseding))
            + EventCount(env, Visible(env, s, watermark, afterPrivacy, lifecycle), event, date, zone, excluded,
                         g.(status := Some(Unattributed)), StatusesOf(env, s, lifecycle, superseding))
  {
    var visible := Visible(env, s, watermark, afterPrivacy, lifecycle);
    var statuses := StatusesOf(env, s, lifecycle, superseding);
    forall a | a in visible && HasStatus(a) ensures StatusOf(a, statuses).Some? {
      VisibleHasStatus(env, s, lifecycle, superseding, watermark, afterPrivacy, a);
    }
    StatusPartition(env, visible, event, date, zone, excluded, g, statuses);
    ThreeStatusCounts(visible, CountedWithStatus(env, event, date, zone, excluded, g, statuses));
  }

  // ---- Aggregate postback counts ----

  datatype Bucket = Fine(value: int) | Coarse(level: string)

  function BucketOf(p: Payload): Option<Bucket> {
    if p.conversionValue.Some? then Some(Fine(p.conversionValue.value))
    else if p.coarseValue.Some? then Some(Coarse(p.coarseValue.value))
    else None
  }

  predicate Vouches(x: Attribution, a: Attempt) {
    && (x.tenantId, x.appId) == Scope(a) && x.scope.AggregateLevel? && x.status.NonOrganic?
    && exists e :: e in x.evidence && e.ref == a.record.recordId
  }

  function Qualifies(env: Env, event: EventName, date: int, attributions: seq<Attribution>,
                     bucket: Option<Bucket>): Attempt -> bool {
    (a: Attempt) =>
      && a.record.event == event && DayOf(env, a.record.receivedAt, Utc) == Some(date)
      && (exists x :: x in attributions && Vouches(x, a))
      && (bucket.None? || BucketOf(a.record.payload) == bucket)
  }

  function QualifiesInBucket(env: Env, event: EventName, date: int,
                             attributions: seq<Attribution>): Bucket -> Attempt -> bool {
    (b: Bucket) => Qualifies(env, event, date, attributions, Some(b))
  }

  function AggregateCount(env: Env, visible: seq<Attempt>, event: EventName, date: int,
                          attributions: seq<Attribution>, bucket: Option<Bucket>): nat {
    |Filter(visible, Qualifies(env, event, date, attributions, bucket))|
  }

  /** No two accepted attempts share a record ID, so an aggregate attribution vouches only for its own postback. */
  lemma VouchedCounts(env: Env, s: seq<Attempt>, lifecycle: map<EvidenceKey, Lifecycle>,
                      superseding: seq<Attribution>, a: Attempt, x: Attribution)
    requires a in AcceptedOf(env, s) && x in AllAttributions(env, s, lifecycle, superseding) && Vouches(x, a)
    requires forall y :: y in superseding && y.scope.AggregateLevel? ==> !y.status.NonOrganic?
    ensures PostbackCounts(a.record.payload)
  {
    var accepted := AcceptedOf(env, s);
    SortMember(BaseAttributions(env, accepted, lifecycle) + superseding, AttributionKey(env), x);
    MapMember(Filter(accepted, IsInstall), InstallAttribution(env, accepted, lifecycle), x);
    MapMember(Filter(accepted, IsOpen), OpenAttribution(lifecycle), x);
    MapMember(Filter(accepted, IsPostback), PostbackAttribution(lifecycle), x);
    var b :| b in Filter(accepted, IsPostback) && PostbackAttribution(lifecycle)(b) == x;
    FilterMember(accepted, IsPostback, b);
    AcceptedIdNames(env, s, a, b);
  }

  lemma AcceptedIdNames(env: Env, s: seq<Attempt>, a: Attempt, b: Attempt)
    requires a in AcceptedOf(env, s) && b in AcceptedOf(env, s) && a.record.recordId == b.record.recordId
    ensures a == b
  {
    FilterMember(s, AcceptedUnique(env, s), a);
    FilterMember(s, AcceptedUnique(env, s), b);
    KeptDoesNotCollide(env, a, s);
    FilterMember(s, SameRecordId(a), a);
    OnlyOneKept(s, SameRecordId(a), a, b);
  }

  /**
   SKAN conversion counts are conserved: over any complete list of distinct conversion buckets they add up to the
   attributed installs of the date.
   */
  lemma BucketCountsConserved(env: Env, s: seq<Attempt>, lifecycle: map<EvidenceKey, Lifecycle>,
                              superseding: seq<Attribution>,
                              watermark: string, afterPrivacy: bool, event: EventName, date: int, buckets: seq<Bucket>)
    requires forall y :: y in superseding && y.scope.AggregateLevel? ==> !y.status.NonOrganic?
    requires Distinct(buckets)
    requires forall a :: a in AcceptedOf(env, s) && BucketOf(a.record.payload).Some? ==>
               BucketOf(a.record.payload).value in buckets
    ensures SumCounts(Visible(env, s, watermark, afterPrivacy, lifecycle), buckets,
                      QualifiesInBucket(env, event, date, AllAttributions(env, s, lifecycle, superseding)))
         == AggregateCount(env, Visible(env, s, watermark, afterPrivacy, lifecycle), event, date,
                           AllAttributions(env, s, lifecycle, superseding), None)
  {
    var visible := Visible(env, s, watermark, afterPrivacy, lifecycle);
    var attributions := AllAttributions(env, s, lifecycle, superseding);
    var keep := Qualifies(env, event, date, attributions, None);
    var known := (a: Attempt) => keep(a) && BucketOf(a.record.payload).Some?;
    var classOf := (a: Attempt) => BucketOf(a.record.payload).Or(Fine(0));
    forall a | a in visible
      ensures keep(a) == known(a)
      ensures known(a) ==> classOf(a) in buckets
    {
      FilterMember(AcceptedOf(env, s), SeenBy(watermark, afterPrivacy, lifecycle), a);
      if keep(a) {
        var x :| x in attributions && Vouches(x, a);
        VouchedCounts(env, s, lifecycle, superseding, a, x);
      }
    }
    FilterAgree(visible, keep, known);
    CountPartition(visible, known, classOf, buckets, QualifiesInBucket(env, event, date, attributions));
  }
}
