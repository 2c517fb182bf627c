/** Which installs, events and revenue a metric counts, and in which window, said of the accepted deliveries. */
module MetricMeaning {
  import opened Outcomes
  import opened Contract
  import opened Sequences
  import opened CanonicalOrder
  import opened TextOrder
  import opened Decisions
  import opened Attributions
  import opened Evaluation
  import opened Acceptance
  import opened Money
  import opened Metrics
  import opened MetricOrder

  // ---- Days ----

  /** Whole days from one instant to another, rounded down. */
  function WholeDays(from: int, to: int): int { (to - from) / (24 * 60 * 60 * 1000) }

  /** The day an instant falls on where clocks are ahead of UTC by the offset. */
  function LocalDay(ms: int, offset: int): int { (ms + offset) / (24 * 60 * 60 * 1000) }

  function Offset(zone: Zone): int { if zone == Tokyo then 9 * 60 * 60 * 1000 else 0 }

  ghost predicate InWindow(installed: int, earned: int, window: Window) {
    match window
    case Elapsed(day) => 0 <= WholeDays(installed, earned) <= day
    case CalendarDay(day, zone) => LocalDay(earned, Offset(zone)) - LocalDay(installed, Offset(zone)) == day
  }

  lemma WindowMeans(env: Env, window: Window, install: Record, revenue: Record)
    ensures EligibleRevenue(env, window, install, revenue).Ok?
       <==> env.parse(install.occurredAt).Some? && env.parse(revenue.occurredAt).Some?
    ensures EligibleRevenue(env, window, install, revenue).Ok? ==>
              (EligibleRevenue(env, window, install, revenue).value
               <==> InWindow(env.parse(install.occurredAt).value, env.parse(revenue.occurredAt).value, window))
  {
  }

  /** Every item falls on exactly one day of its install's calendar. */
  lemma OneCalendarDay(installed: int, earned: int, zone: Zone)
    ensures exists day :: InWindow(installed, earned, CalendarDay(day, zone))
    ensures forall d, e :: InWindow(installed, earned, CalendarDay(d, zone)) && InWindow(installed, earned, CalendarDay(e, zone)) ==> d == e
  {
    var day := LocalDay(earned, Offset(zone)) - LocalDay(installed, Offset(zone));
    assert InWindow(installed, earned, CalendarDay(day, zone));
  }

  // ---- An item of revenue ----

  ghost predicate OfInstallation(item: Attempt, x: Attempt) {
    && x.server.tenantId == item.server.tenantId && x.server.appId == item.server.appId
    && x.record.payload.installationId == item.record.payload.installationId
  }

  /** An item counts if and only if the cohort's install of its installation has it in the window. */
  lemma CountsExactlyWhen(env: Env, window: Window, installs: seq<Attempt>, item: Attempt)
    requires forall x :: x in installs ==> env.parse(x.record.occurredAt).Some?
    requires env.parse(item.record.occurredAt).Some?
    ensures Counts(env, window, installs, item).Ok?
    ensures Counts(env, window, installs, item).value
       <==> exists x :: FirstWith(installs, InstallationOf(item), x) && OfInstallation(item, x)
                        && InWindow(env.parse(x.record.occurredAt).value, env.parse(item.record.occurredAt).value,
                                    window)
  {
    var p := InstallationOf(item);
    FindFirstMeans(installs, p);
    if FindFirst(installs, p).Some? {
      var install := FindFirst(installs, p).value;
      WindowMeans(env, window, install.record, item.record);
      forall x | FirstWith(installs, p, x) ensures x == install {
        OneFirst(installs, p, x, install);
      }
    }
  }

  // ---- What a metric looks at ----

  /** What is asked: the privacy state and watermark, later attributions, excluded installations and the grouping. */
  datatype Question = Question(
    lifecycle: map<EvidenceKey, Lifecycle>, afterPrivacy: bool, watermark: string, superseding: seq<Attribution>,
    excluded: set<string>, grouping: Grouping)

  /** Received by the watermark and, after privacy, not removed. */
  ghost predicate Seen(q: Question, a: Attempt) {
    && (a.record.receivedAt == q.watermark || Precedes(a.record.receivedAt, q.watermark, PointBefore))
    && (q.afterPrivacy ==> (a.server.tenantId, a.server.appId, a.record.recordId) !in q.lifecycle)
  }

  lemma SeenMeans(q: Question, a: Attempt)
    ensures SeenBy(q.watermark, q.afterPrivacy, q.lifecycle)(a) <==> Seen(q, a)
  {
    TextOrderMeans(a.record.receivedAt, q.watermark);
    UnitsTotal(CodePoints(q.watermark), CodePoints(q.watermark));
  }

  /** The first of the values that is there. */
  ghost predicate Says<T>(values: seq<Option<T>>, x: T) {
    exists i :: 0 <= i < |values| && values[i] == Some(x) && forall j :: 0 <= j < i ==> values[j] == None
  }

  ghost function LinkCampaign(a: Attempt): Option<string> {
    match a.server.deepLink case Some(link) => link.campaignId case None => None
  }

  ghost function ImportCampaign(a: Attempt): Option<string> {
    match a.record.payload.importContext case Some(context) => context.campaignRef case None => None
  }

  ghost function ImportNetwork(a: Attempt): Option<string> {
    match a.record.payload.importContext case Some(context) => context.network case None => None
  }

  ghost function ImportCountry(a: Attempt): Option<string> {
    match a.record.payload.importContext case Some(context) => context.country case None => None
  }

  /** Campaign, network and country are the record's own, or else those of its link or its import. */
  ghost predicate InGroup(env: Env, g: Grouping, a: Attempt) {
    var p := a.record.payload;
    && (g.campaign.Some? ==> Says([p.campaignId, LinkCampaign(a), ImportCampaign(a)], g.campaign.value))
    && (g.network.Some? ==> Says([p.network, p.adNetwork, ImportNetwork(a)], g.network.value))
    && (g.country.Some? ==> Says([p.country, ImportCountry(a)], g.country.value))
    && (a.record.event == Install && g.cohortDate.Some? ==>
          env.parse(a.record.occurredAt).Some? && LocalDay(env.parse(a.record.occurredAt).value, 0) == g.cohortDate.value)
  }

  lemma TwoSay<T>(a: Option<T>, b: Option<T>, x: T)
    ensures Says([a, b], x) <==> FirstGiven(a, b) == Some(x)
  {
    var values := [a, b];
    assert values[0] == a && values[1] == b;
    if FirstGiven(a, b) == Some(x) {
      assert values[if a.Some? then 0 else 1] == Some(x);
    }
  }

  lemma ThreeSay<T>(a: Option<T>, b: Option<T>, c: Option<T>, x: T)
    ensures Says([a, b, c], x) <==> FirstGiven(a, FirstGiven(b, c)) == Some(x)
  {
    var values := [a, b, c];
    assert values[0] == a && values[1] == b && values[2] == c;
    if FirstGiven(a, FirstGiven(b, c)) == Some(x) {
      assert values[if a.Some? then 0 else if b.Some? then 1 else 2] == Some(x);
    }
  }

  lemma InGroupMeans(env: Env, g: Grouping, a: Attempt)
    ensures MatchesDimensions(env, a, g) <==> InGroup(env, g, a)
  {
    var p := a.record.payload;
    if g.campaign.Some? {
      ThreeSay(p.campaignId, LinkCampaign(a), ImportCampaign(a), g.campaign.value);
    }
    if g.network.Some? {
      ThreeSay(p.network, p.adNetwork, ImportNetwork(a), g.network.value);
    }
    if g.country.Some? {
      TwoSay(p.country, ImportCountry(a), g.country.value);
    }
  }

  // ---- Attribution statuses ----

  ghost predicate About(x: Attribution, a: Attempt) {
    && x.scope in {InstallationLevel, EngagementLevel} && x.tenantId == a.server.tenantId && x.appId == a.server.appId
    && x.subjectRef == if a.record.event == Install then a.record.payload.installationId.Or("")
                       else "engagement:" + a.record.recordId
  }

  /** The last element with the property has the other one, too. */
  ghost predicate LastHas<T>(xs: seq<T>, p: T -> bool, q: T -> bool) {
    exists i :: 0 <= i < |xs| && p(xs[i]) && q(xs[i]) && forall j :: i < j < |xs| ==> !p(xs[j])
  }

  lemma LastNext<T>(xs: seq<T>, p: T -> bool, q: T -> bool)
    requires xs != []
    ensures LastHas(xs, p, q) <==> if p(xs[|xs| - 1]) then q(xs[|xs| - 1]) else LastHas(xs[..|xs| - 1], p, q)
  {
    var n := |xs| - 1;
    var before := xs[..n];
    assert forall i :: 0 <= i < n ==> before[i] == xs[i];
    if LastHas(before, p, q) && !p(xs[n]) {
      var i :| 0 <= i < |before| && p(before[i]) && q(before[i]) && forall j :: i < j < |before| ==> !p(before[j]);
      assert p(xs[i]) && q(xs[i]) && forall j :: i < j < |xs| ==> !p(xs[j]);
    }
    if LastHas(xs, p, q) && !p(xs[n]) {
      var i :| 0 <= i < |xs| && p(xs[i]) && q(xs[i]) && forall j :: i < j < |xs| ==> !p(xs[j]);
      assert p(before[i]) && q(before[i]) && forall j :: i < j < |before| ==> !p(before[j]);
    }
  }

  ghost function AboutIt(a: Attempt): Attribution -> bool { (x: Attribution) => About(x, a) }
  function HasIt(status: AttributionStatus): Attribution -> bool { (x: Attribution) => x.status == status }

  /** The last attribution about it has the status. */
  ghost predicate LastStatus(attributions: seq<Attribution>, a: Attempt, status: AttributionStatus) {
    LastHas(attributions, AboutIt(a), HasIt(status))
  }

  lemma AboutMeans(x: Attribution, a: Attempt)
    ensures About(x, a) <==> HasStatusScope(x) && AttributedKey(x) == SubjectOf(a)
  {
  }


  lemma {:induction false} StatusMeans(attributions: seq<Attribution>, a: Attempt, status: AttributionStatus)
    ensures StatusOf(a, StatusTable(attributions)) == Some(status) <==> LastStatus(attributions, a, status)
    decreases |attributions|
  {
    if attributions != [] {
      LastNext(attributions, AboutIt(a), HasIt(status));
      StatusMeans(attributions[..|attributions| - 1], a, status);
      AboutMeans(attributions[|attributions| - 1], a);
    }
  }

  /** In the group, attribution status included where the event has one. */
  ghost predicate Grouped(env: Env, q: Question, attributions: seq<Attribution>, a: Attempt) {
    && InGroup(env, q.grouping, a)
    && (a.record.event in {Install, DeepLinkOpen} && q.grouping.status.Some? ==>
          LastStatus(attributions, a, q.grouping.status.value))
  }

  lemma GroupedMeans(env: Env, q: Question, attributions: seq<Attribution>, a: Attempt)
    ensures MatchesGrouping(env, a, q.grouping, StatusTable(attributions)) <==> Grouped(env, q, attributions, a)
  {
    InGroupMeans(env, q.grouping, a);
    if q.grouping.status.Some? {
      StatusMeans(attributions, a, q.grouping.status.value);
    }
  }

  // ---- The amount of a revenue metric ----

  /** An install the metric counts revenue of. */
  ghost predicate CohortInstall(env: Env, q: Question, attributions: seq<Attribution>, x: Attempt) {
    && x.record.event == Install && Seen(q, x) && Grouped(env, q, attributions, x)
    && x.record.payload.installationId.Or("") !in q.excluded
  }

  /** Accepted installation-level ad revenue, of an accepted install of the cohort and in its window. */
  ghost predicate Earns(env: Env, q: Question, attributions: seq<Attribution>, accepted: seq<Attempt>, window: Window,
                        item: Attempt) {
    && item.record.event == AdRevenue && item.record.payload.installationLevel && Seen(q, item)
    && env.parse(item.record.occurredAt).Some?
    && exists x :: x in accepted && CohortInstall(env, q, attributions, x) && OfInstallation(item, x)
         && env.parse(x.record.occurredAt).Some?
         && InWindow(env.parse(x.record.occurredAt).value, env.parse(item.record.occurredAt).value, window)
  }

  /** What a delivery adds to the amount. */
  ghost function Earned(env: Env, q: Question, attributions: seq<Attribution>, accepted: seq<Attempt>, window: Window,
                        policy: FxPolicy): Attempt -> Result<int> {
    (a: Attempt) =>
      if Earns(env, q, attributions, accepted, window, a) then
        Convert(Amount(a.record.payload.amountUnscaled, a.record.payload.amountScale, a.record.payload.currency),
                policy)
      else Ok(0)
  }

  ghost function Where<T>(keep: T -> bool, amount: T -> Result<int>): T -> Result<int> {
    (x: T) => if keep(x) then amount(x) else Ok(0)
  }

  lemma {:induction false} TotalWhere<T>(xs: seq<T>, keep: T -> bool, amount: T -> Result<int>)
    ensures Total(Filter(xs, keep), amount) == Total(xs, Where(keep, amount))
  {
    if xs != [] {
      TotalWhere(xs[1..], keep, amount);
      assert xs == [xs[0]] + xs[1..];
      TotalConcat([xs[0]], xs[1..], Where(keep, amount));
      TotalConcat([xs[0]], Filter(xs[1..], keep), amount);
      assert [xs[0]][..0] == [];
      assert Total([xs[0]], Where(keep, amount)) == Where(keep, amount)(xs[0]);
      assert Total([xs[0]], amount) == amount(xs[0]);
    }
  }

  lemma AcceptedDated(env: Env, s: seq<Attempt>, a: Attempt)
    requires a in AcceptedOf(env, s)
    ensures a in s && env.parse(a.record.occurredAt).Some?
  {
    FilterMember(s, AcceptedUnique(env, s), a);
    Meaning.AcceptedByParts(env, a, s);
  }

  lemma CohortMember(env: Env, q: Question, s: seq<Attempt>, x: Attempt)
    ensures var statuses := StatusesOf(env, s, q.lifecycle, q.superseding);
            x in Filter(Visible(env, s, q.watermark, q.afterPrivacy, q.lifecycle),
                        InCohort(env, q.grouping, statuses, q.excluded))
            <==> x in AcceptedOf(env, s) && CohortInstall(env, q, AllAttributions(env, s, q.lifecycle, q.superseding),
                                                          x)
  {
    var statuses := StatusesOf(env, s, q.lifecycle, q.superseding);
    var visible := Visible(env, s, q.watermark, q.afterPrivacy, q.lifecycle);
    FilterMember(visible, InCohort(env, q.grouping, statuses, q.excluded), x);
    FilterMember(AcceptedOf(env, s), SeenBy(q.watermark, q.afterPrivacy, q.lifecycle), x);
    SeenMeans(q, x);
    GroupedMeans(env, q, AllAttributions(env, s, q.lifecycle, q.superseding), x);
  }

  /** For one revenue delivery, the cohort's amount is what it earns. */
  lemma ItemEarns(env: Env, q: Question, s: seq<Attempt>, window: Window, policy: FxPolicy, item: Attempt)
    requires Evaluable(env, s) && item in AcceptedOf(env, s)
    ensures var cohort := Filter(Visible(env, s, q.watermark, q.afterPrivacy, q.lifecycle),
                                 InCohort(env, q.grouping, StatusesOf(env, s, q.lifecycle, q.superseding), q.excluded));
            var attributions := AllAttributions(env, s, q.lifecycle, q.superseding);
            Where(IsRevenue, Where(SeenBy(q.watermark, q.afterPrivacy, q.lifecycle), ItemAmount(env, window, cohort, policy)))(item)
            == Earned(env, q, attributions, AcceptedOf(env, s), window, policy)(item)
  {
    var cohort := Filter(Visible(env, s, q.watermark, q.afterPrivacy, q.lifecycle),
                         InCohort(env, q.grouping, StatusesOf(env, s, q.lifecycle, q.superseding), q.excluded));
    var attributions := AllAttributions(env, s, q.lifecycle, q.superseding);
    AcceptedDated(env, s, item);
    SeenMeans(q, item);
    forall x ensures x in cohort <==> x in AcceptedOf(env, s) && CohortInstall(env, q, attributions, x) {
      CohortMember(env, q, s, x);
    }
    forall x | x in cohort ensures env.parse(x.record.occurredAt).Some? {
      AcceptedDated(env, s, x);
    }
    CohortIsAnchored(env, s, q.lifecycle, q.superseding, q.watermark, q.afterPrivacy, q.excluded, q.grouping);
    CountsAnywhere(env, window, cohort, item);
  }

  /** With one install for each installation, being first of it is being there. */
  lemma CountsAnywhere(env: Env, window: Window, installs: seq<Attempt>, item: Attempt)
    requires OnePerInstallation(installs) && env.parse(item.record.occurredAt).Some?
    requires forall x :: x in installs ==> env.parse(x.record.occurredAt).Some?
    ensures Counts(env, window, installs, item)
         == Ok(exists x :: x in installs && OfInstallation(item, x) && env.parse(x.record.occurredAt).Some?
                   && InWindow(env.parse(x.record.occurredAt).value, env.parse(item.record.occurredAt).value, window))
  {
    var p := InstallationOf(item);
    CountsExactlyWhen(env, window, installs, item);
    FindFirstMeans(installs, p);
    forall x | x in installs && OfInstallation(item, x) ensures FirstWith(installs, p, x) {
      assert p(x);
      var first := FindFirst(installs, p).value;
      assert first in installs;
      if first != x {
        TwoKept(installs, p, first, x);
      }
    }
  }

  lemma TwoKept<T>(xs: seq<T>, keep: T -> bool, x: T, y: T)
    requires x in xs && y in xs && keep(x) && keep(y) && x != y
    ensures |Filter(xs, keep)| > 1
  {
    if |Filter(xs, keep)| <= 1 {
      OnlyOneKept(xs, keep, x, y);
    }
  }

  /**
   The amount of a revenue metric is the sum, over the accepted deliveries, of the converted amounts that it earns.
   */
  lemma MetricRevenueMeans(env: Env, q: Question, s: seq<Attempt>, window: Window, policy: FxPolicy)
    requires Evaluable(env, s)
    ensures MetricRevenue(env, s, q.lifecycle, q.superseding, q.watermark, q.afterPrivacy, q.excluded, q.grouping,
                          window, policy)
         == Total(AcceptedOf(env, s),
                  Earned(env, q, AllAttributions(env, s, q.lifecycle, q.superseding), AcceptedOf(env, s), window, policy))
  {
    var accepted, seen := AcceptedOf(env, s), SeenBy(q.watermark, q.afterPrivacy, q.lifecycle);
    var cohort := Filter(Visible(env, s, q.watermark, q.afterPrivacy, q.lifecycle),
                         InCohort(env, q.grouping, StatusesOf(env, s, q.lifecycle, q.superseding), q.excluded));
    var amount := ItemAmount(env, window, cohort, policy);
    RevenueIsTotal(env, window, cohort, Filter(Filter(accepted, seen), IsRevenue), policy);
    FilterSwap(accepted, seen, IsRevenue);
    TotalWhere(Filter(accepted, IsRevenue), seen, amount);
    TotalWhere(accepted, IsRevenue, Where(seen, amount));
    forall item | item in accepted
      ensures Where(IsRevenue, Where(seen, amount))(item)
           == Earned(env, q, AllAttributions(env, s, q.lifecycle, q.superseding), accepted, window, policy)(item)
    {
      ItemEarns(env, q, s, window, policy, item);
    }
    TotalAgree(accepted, Where(IsRevenue, Where(seen, amount)),
               Earned(env, q, AllAttributions(env, s, q.lifecycle, q.superseding), accepted, window, policy));
  }

  /** Whole days after an install: the window of just one of the elapsed days. */
  ghost predicate OnDay(installed: int, earned: int, day: int) { WholeDays(installed, earned) == day }

  /** What one more elapsed day adds. */
  ghost function EarnedOnDay(env: Env, installs: seq<Attempt>, day: int, policy: FxPolicy): Attempt -> Result<int> {
    (item: Attempt) =>
      match FindFirst(installs, InstallationOf(item))
      case None => Ok(0)
      case Some(install) =>
        match (env.parse(install.record.occurredAt), env.parse(item.record.occurredAt))
        case (Some(installed), Some(earned)) =>
          if OnDay(installed, earned, day) then Convert(AmountOf(item), policy) else Ok(0)
        case _ => Err
  }

  /** The revenue of one more elapsed day is that of the days before and what is earned on the day itself. */
  lemma NextElapsedDay(env: Env, installs: seq<Attempt>, revenue: seq<Attempt>, day: nat, policy: FxPolicy)
    ensures RevenueSum(env, Elapsed(day), installs, revenue, policy)
         == Combine(RevenueSum(env, Elapsed(day - 1), installs, revenue, policy),
                    Total(revenue, EarnedOnDay(env, installs, day, policy)))
  {
    var before := ItemAmount(env, Elapsed(day - 1), installs, policy);
    var onDay := EarnedOnDay(env, installs, day, policy);
    RevenueIsTotal(env, Elapsed(day), installs, revenue, policy);
    RevenueIsTotal(env, Elapsed(day - 1), installs, revenue, policy);
    forall item | item in revenue
      ensures ItemAmount(env, Elapsed(day), installs, policy)(item) == Both(before, onDay)(item)
    {
      NextDayOfItem(env, installs, item, day, policy);
    }
    TotalAgree(revenue, ItemAmount(env, Elapsed(day), installs, policy), Both(before, onDay));
    TotalOfBoth(revenue, before, onDay);
  }

  lemma NextDayOfItem(env: Env, installs: seq<Attempt>, item: Attempt, day: nat, policy: FxPolicy)
    ensures RevenueItem(env, Elapsed(day), installs, item, policy)
         == Combine(RevenueItem(env, Elapsed(day - 1), installs, item, policy),
                    EarnedOnDay(env, installs, day, policy)(item))
  {
    ItemIsFound(env, Elapsed(day), installs, item, policy);
    ItemIsFound(env, Elapsed(day - 1), installs, item, policy);
    var found := FindFirst(installs, InstallationOf(item));
    if found.Some? {
      WindowMeans(env, Elapsed(day), found.value.record, item.record);
      WindowMeans(env, Elapsed(day - 1), found.value.record, item.record);
    }
  }

  // ---- Counts ----

  /** An accepted delivery that a count metric counts on a date. */
  ghost predicate CountsOn(env: Env, q: Question, attributions: seq<Attribution>, event: EventName, date: int,
                           zone: Zone, a: Attempt) {
    && a.record.event == event && Seen(q, a) && Grouped(env, q, attributions, a)
    && (a.record.event == Install ==> a.record.payload.installationId.Or("") !in q.excluded)
    && env.parse(a.record.occurredAt).Some? && LocalDay(env.parse(a.record.occurredAt).value, Offset(zone)) == date
  }

  ghost function CountedOnDate(env: Env, q: Question, attributions: seq<Attribution>, event: EventName, date: int,
                               zone: Zone): Attempt -> bool {
    (a: Attempt) => CountsOn(env, q, attributions, event, date, zone, a)
  }

  lemma EventCountMeans(env: Env, q: Question, s: seq<Attempt>, event: EventName, date: int, zone: Zone)
    ensures EventCount(env, Visible(env, s, q.watermark, q.afterPrivacy, q.lifecycle), event, date, zone, q.excluded, q.grouping,
                       StatusesOf(env, s, q.lifecycle, q.superseding))
         == |Filter(AcceptedOf(env, s),
                    CountedOnDate(env, q, AllAttributions(env, s, q.lifecycle, q.superseding), event, date, zone))|
  {
    var attributions := AllAttributions(env, s, q.lifecycle, q.superseding);
    var seen := SeenBy(q.watermark, q.afterPrivacy, q.lifecycle);
    var both := CountedOnDate(env, q, attributions, event, date, zone);
    var counted := Counted(env, event, date, zone, q.excluded, q.grouping,
                           StatusesOf(env, s, q.lifecycle, q.superseding));
    forall a ensures both(a) == (seen(a) && counted(a)) {
      SeenMeans(q, a);
      GroupedMeans(env, q, attributions, a);
      DateMeans(env, a, date, zone);
    }
    FilterBoth(AcceptedOf(env, s), seen, counted, both);
  }

  lemma DateMeans(env: Env, a: Attempt, date: int, zone: Zone)
    ensures DayOf(env, a.record.occurredAt, zone) == Some(date)
       <==> env.parse(a.record.occurredAt).Some? && LocalDay(env.parse(a.record.occurredAt).value, Offset(zone)) == date
    ensures DayOf(env, a.record.receivedAt, zone) == Some(date)
       <==> env.parse(a.record.receivedAt).Some? && LocalDay(env.parse(a.record.receivedAt).value, Offset(zone)) == date
  {
  }

  /** Some non-organic aggregate attribution of the application rests on the postback. */
  ghost predicate Vouched(attributions: seq<Attribution>, a: Attempt) {
    exists x, e :: x in attributions && e in x.evidence && e.ref == a.record.recordId
      && x.tenantId == a.server.tenantId && x.appId == a.server.appId && x.scope == AggregateLevel && x.status == NonOrganic
  }

  /** A postback's fine conversion value is its bucket, or its coarse one when it has no fine value. */
  ghost predicate InBucket(a: Attempt, bucket: Bucket) {
    match bucket
    case Fine(value) => a.record.payload.conversionValue == Some(value)
    case Coarse(level) => a.record.payload.conversionValue == None && a.record.payload.coarseValue == Some(level)
  }

  ghost predicate PostbackOn(env: Env, q: Question, attributions: seq<Attribution>, event: EventName, date: int,
                             bucket: Option<Bucket>, a: Attempt) {
    && a.record.event == event && Seen(q, a) && Vouched(attributions, a) && (bucket.Some? ==> InBucket(a, bucket.value))
    && env.parse(a.record.receivedAt).Some? && LocalDay(env.parse(a.record.receivedAt).value, 0) == date
  }

  ghost function PostbackOnDate(env: Env, q: Question, attributions: seq<Attribution>, event: EventName, date: int,
                                bucket: Option<Bucket>): Attempt -> bool {
    (a: Attempt) => PostbackOn(env, q, attributions, event, date, bucket, a)
  }

  lemma AggregateCountMeans(env: Env, q: Question, s: seq<Attempt>, event: EventName, date: int, bucket: Option<Bucket>)
    ensures AggregateCount(env, Visible(env, s, q.watermark, q.afterPrivacy, q.lifecycle), event, date,
                           AllAttributions(env, s, q.lifecycle, q.superseding), bucket)
         == |Filter(AcceptedOf(env, s),
                    PostbackOnDate(env, q, AllAttributions(env, s, q.lifecycle, q.superseding), event, date, bucket))|
  {
    var attributions := AllAttributions(env, s, q.lifecycle, q.superseding);
    var seen := SeenBy(q.watermark, q.afterPrivacy, q.lifecycle);
    var both := PostbackOnDate(env, q, attributions, event, date, bucket);
    var counted := Qualifies(env, event, date, attributions, bucket);
    forall a ensures both(a) == (seen(a) && counted(a)) {
      SeenMeans(q, a);
      PostbackMeans(env, q, attributions, event, date, bucket, a);
    }
    FilterBoth(AcceptedOf(env, s), seen, counted, both);
  }

  lemma VouchedMeans(attributions: seq<Attribution>, a: Attempt)
    ensures (exists x :: x in attributions && Vouches(x, a)) <==> Vouched(attributions, a)
  {
  }

  lemma PostbackMeans(env: Env, q: Question, attributions: seq<Attribution>, event: EventName, date: int,
                      bucket: Option<Bucket>, a: Attempt)
    ensures PostbackOn(env, q, attributions, event, date, bucket, a)
       <==> Seen(q, a) && Qualifies(env, event, date, attributions, bucket)(a)
  {
    DateMeans(env, a, date, Utc);
    QualifiesMeans(env, event, date, attributions, bucket, a);
    VouchedMeans(attributions, a);
    if bucket.Some? {
      BucketMeans(a, bucket.value);
    }
  }

  lemma QualifiesMeans(env: Env, event: EventName, date: int, attributions: seq<Attribution>, bucket: Option<Bucket>,
                       a: Attempt)
    ensures Qualifies(env, event, date, attributions, bucket)(a)
       <==> && a.record.event == event && DayOf(env, a.record.receivedAt, Utc) == Some(date)
            && (exists x :: x in attributions && Vouches(x, a)) && (bucket.None? || BucketOf(a.record.payload) == bucket)
  {
  }

  lemma BucketMeans(a: Attempt, bucket: Bucket)
    ensures BucketOf(a.record.payload) == Some(bucket) <==> InBucket(a, bucket)
  {
  }
}
