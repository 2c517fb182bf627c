/** Metric amounts, too, do not depend on the arrival order. */
module MetricOrder {
  import opened Outcomes
  import opened Contract
  import opened Sequences
  import opened CanonicalOrder
  import opened Decisions
  import opened Attributions
  import opened Evaluation
  import opened OrderIndependence
  import opened Money
  import opened Metrics

  function Combine(a: Result<int>, b: Result<int>): Result<int> {
    if a.Ok? && b.Ok? then Ok(a.value + b.value) else Err
  }

  /** A running total of fallible amounts. */
  function Total<T>(xs: seq<T>, amount: T -> Result<int>): Result<int> {
    if xs == [] then Ok(0) else Combine(Total(xs[..|xs| - 1], amount), amount(xs[|xs| - 1]))
  }

  lemma {:induction false} TotalConcat<T>(a: seq<T>, b: seq<T>, amount: T -> Result<int>)
    ensures Total(a + b, amount) == Combine(Total(a, amount), Total(b, amount))
    decreases |b|
  {
    if b == [] {
      assert a + b == a;
    } else {
      assert (a + b)[..|a + b| - 1] == a + b[..|b| - 1];
      TotalConcat(a, b[..|b| - 1], amount);
    }
  }

  lemma {:induction false} TotalPermuted<T>(xs: seq<T>, ys: seq<T>, amount: T -> Result<int>)
    requires multiset(xs) == multiset(ys)
    ensures Total(xs, amount) == Total(ys, amount)
    decreases |xs|
  {
    if xs == [] {
      assert |multiset(ys)| == 0;
    } else {
      var i := IndexOf(ys, xs[0], multiset(xs));
      RemoveHead(xs, ys, i);
      TotalPermuted(xs[1..], ys[..i] + ys[i + 1..], amount);
      assert xs == [xs[0]] + xs[1..];
      TotalConcat([xs[0]], xs[1..], amount);
      TotalConcat(ys[..i], ys[i + 1..], amount);
      TotalConcat(ys[..i], [ys[i]] + ys[i + 1..], amount);
      TotalConcat([ys[i]], ys[i + 1..], amount);
    }
  }

  function ItemAmount(env: Env, window: Window, installs: seq<Attempt>, policy: FxPolicy): Attempt -> Result<int> {
    (item: Attempt) => RevenueItem(env, window, installs, item, policy)
  }

  lemma {:induction false} RevenueIsTotal(env: Env, window: Window, installs: seq<Attempt>, revenue: seq<Attempt>,
                                          policy: FxPolicy)
    ensures RevenueSum(env, window, installs, revenue, policy)
         == Total(revenue, ItemAmount(env, window, installs, policy))
    decreases |revenue|
  {
    if revenue != [] {
      RevenueIsTotal(env, window, installs, revenue[..|revenue| - 1], policy);
    }
  }

  lemma RevenuePermuted(env: Env, window: Window, installs: seq<Attempt>, xs: seq<Attempt>, ys: seq<Attempt>,
                        policy: FxPolicy)
    requires multiset(xs) == multiset(ys)
    ensures RevenueSum(env, window, installs, xs, policy) == RevenueSum(env, window, installs, ys, policy)
  {
    RevenueIsTotal(env, window, installs, xs, policy);
    RevenueIsTotal(env, window, installs, ys, policy);
    TotalPermuted(xs, ys, ItemAmount(env, window, installs, policy));
  }

  lemma {:induction false} FindFirstIsHead<T>(xs: seq<T>, p: T -> bool)
    ensures FindFirst(xs, p) == if Filter(xs, p) == [] then None else Some(Filter(xs, p)[0])
  {
    if xs != [] {
      FindFirstIsHead(xs[1..], p);
    }
  }

  /** No two installs of the list share an installation, and each names one. */
  ghost predicate OnePerInstallation(installs: seq<Attempt>) {
    forall item :: |Filter(installs, InstallationOf(item))| <= 1
  }

  lemma {:induction false} TotalAgree<T>(xs: seq<T>, f: T -> Result<int>, g: T -> Result<int>)
    requires forall x :: x in xs ==> f(x) == g(x)
    ensures Total(xs, f) == Total(xs, g)
    decreases |xs|
  {
    if xs != [] {
      var before := xs[..|xs| - 1];
      assert xs[|xs| - 1] in xs && forall x :: x in before ==> x in xs;
      TotalAgree(before, f, g);
    }
  }

  lemma {:induction false} CohortPermuted(env: Env, window: Window, s: seq<Attempt>, t: seq<Attempt>,
                                          revenue: seq<Attempt>, policy: FxPolicy)
    requires multiset(s) == multiset(t) && OnePerInstallation(s)
    ensures RevenueSum(env, window, s, revenue, policy) == RevenueSum(env, window, t, revenue, policy)
  {
    RevenueIsTotal(env, window, s, revenue, policy);
    RevenueIsTotal(env, window, t, revenue, policy);
    forall item | item in revenue
      ensures ItemAmount(env, window, s, policy)(item) == ItemAmount(env, window, t, policy)(item)
    {
      CountsPermuted(env, window, s, t, item);
    }
    TotalAgree(revenue, ItemAmount(env, window, s, policy), ItemAmount(env, window, t, policy));
  }

  lemma CountsPermuted(env: Env, window: Window, s: seq<Attempt>, t: seq<Attempt>, item: Attempt)
    requires multiset(s) == multiset(t) && OnePerInstallation(s)
    ensures Counts(env, window, s, item) == Counts(env, window, t, item)
  {
    FindFirstIsHead(s, InstallationOf(item));
    FindFirstIsHead(t, InstallationOf(item));
    SameOrNotOne(s, t, InstallationOf(item));
  }

  /** The installs of a revenue metric's cohort; a net metric excludes the installations of fraud decisions. */
  function InCohort(env: Env, g: Grouping, statuses: map<EvidenceKey, AttributionStatus>,
                    excluded: set<string>): Attempt -> bool {
    (a: Attempt) => IsInstall(a) && MatchesGrouping(env, a, g, statuses) && a.record.payload.installationId.Or("") !in excluded
  }

  function MetricRevenue(env: Env, s: seq<Attempt>, lifecycle: map<EvidenceKey, Lifecycle>,
                         superseding: seq<Attribution>,
                         watermark: string, afterPrivacy: bool, excluded: set<string>, g: Grouping, window: Window,
                         policy: FxPolicy): Result<int> {
    var visible := Visible(env, s, watermark, afterPrivacy, lifecycle);
    var cohort := Filter(visible, InCohort(env, g, StatusesOf(env, s, lifecycle, superseding), excluded));
    RevenueSum(env, window, cohort, Filter(visible, IsRevenue), policy)
  }

  lemma {:induction false} InstallationCount(installs: seq<Attempt>, item: Attempt)
    requires forall a :: a in installs ==> a.record.payload.installationId.Some?
    requires item.record.payload.installationId.Some?
    ensures |Filter(installs, InstallationOf(item))| == multiset(Map(installs, InstallKey))[InstallKey(item)]
  {
    if installs != [] {
      InstallationCount(installs[1..], item);
      assert installs[0] in installs;
    }
  }

  /** The anchor check leaves at most one accepted install per installation. */
  lemma AnchoredInstallsAreOne(installs: seq<Attempt>)
    requires AnchorsHold(installs)
    ensures OnePerInstallation(installs)
  {
    forall item ensures |Filter(installs, InstallationOf(item))| <= 1 {
      assert forall a :: a in installs ==> AnchorRules(a, installs);
      if item.record.payload.installationId.None? {
        FilterNone(installs, InstallationOf(item));
      } else {
        InstallationCount(installs, item);
        if |Filter(installs, InstallationOf(item))| > 0 {
          var a := Filter(installs, InstallationOf(item))[0];
          FilterMember(installs, InstallationOf(item), a);
          assert AnchorRules(a, installs);
        }
      }
    }
  }

  lemma {:induction false} FewerAfterFilter<T>(xs: seq<T>, keep: T -> bool, p: T -> bool)
    ensures |Filter(Filter(xs, keep), p)| <= |Filter(xs, p)|
  {
    if xs != [] {
      FewerAfterFilter(xs[1..], keep, p);
      if keep(xs[0]) {
        assert Filter(xs, keep)[1..] == Filter(xs[1..], keep);
      }
    }
  }

  lemma CohortIsAnchored(env: Env, s: seq<Attempt>, lifecycle: map<EvidenceKey, Lifecycle>,
                         superseding: seq<Attribution>,
                         watermark: string, afterPrivacy: bool, excluded: set<string>, g: Grouping)
    requires AnchorsHold(Filter(AcceptedOf(env, s), IsInstall))
    ensures OnePerInstallation(Filter(Visible(env, s, watermark, afterPrivacy, lifecycle),
                                      InCohort(env, g, StatusesOf(env, s, lifecycle, superseding), excluded)))
  {
    var accepted := AcceptedOf(env, s);
    var seen := SeenBy(watermark, afterPrivacy, lifecycle);
    var inside := InCohort(env, g, StatusesOf(env, s, lifecycle, superseding), excluded);
    var cohort := Filter(Filter(accepted, seen), inside);
    AnchoredInstallsAreOne(Filter(accepted, IsInstall));
    forall item ensures |Filter(cohort, InstallationOf(item))| <= 1 {
      FilterSwap(Filter(accepted, seen), inside, IsInstall);
      FilterMembers(Filter(accepted, seen), inside);
      FilterAll(cohort, IsInstall);
      FilterSwap(accepted, seen, IsInstall);
      FewerAfterFilter(Filter(Filter(accepted, seen), IsInstall), inside, InstallationOf(item));
      FewerAfterFilter(Filter(accepted, IsInstall), seen, InstallationOf(item));
      assert |Filter(Filter(accepted, IsInstall), InstallationOf(item))| <= 1;
    }
  }

  lemma AllAttributionsReordered(env: Env, s: seq<Attempt>, t: seq<Attempt>, lifecycle: map<EvidenceKey, Lifecycle>,
                                 superseding: seq<Attribution>)
    requires Injective(env.digest) && Reordered(env, s, t)
    ensures AllAttributions(env, s, lifecycle, superseding) == AllAttributions(env, t, lifecycle, superseding)
  {
    var key := AttributionKey(env);
    AcceptedReordered(env, s, t);
    AttributionsReordered(env, AcceptedOf(env, s), AcceptedOf(env, t), lifecycle);
    forall x: Attribution, y: Attribution | key(x) == key(y) ensures x == y {
      OutputKeyInjective(env, [x.id, x.tenantId, x.appId], AttributionArtifact(x),
                         [y.id, y.tenantId, y.appId], AttributionArtifact(y));
    }
    SortCanonical(BaseAttributions(env, AcceptedOf(env, s), lifecycle) + superseding,
                  BaseAttributions(env, AcceptedOf(env, t), lifecycle) + superseding, key);
  }

  lemma VisibleReordered(env: Env, s: seq<Attempt>, t: seq<Attempt>, lifecycle: map<EvidenceKey, Lifecycle>,
                         watermark: string, afterPrivacy: bool)
    requires Injective(env.digest) && Reordered(env, s, t)
    ensures multiset(Visible(env, s, watermark, afterPrivacy, lifecycle))
         == multiset(Visible(env, t, watermark, afterPrivacy, lifecycle))
  {
    AcceptedReordered(env, s, t);
    FilterPermuted(AcceptedOf(env, s), AcceptedOf(env, t), SeenBy(watermark, afterPrivacy, lifecycle));
  }

  /** Event counts and aggregate postback counts are the same for inputs that differ only in order. */
  lemma CountsOrderIndependent(env: Env, a: Input, b: Input, superseding: seq<Attribution>, watermark: string,
                               afterPrivacy: bool, event: EventName, date: int, zone: Zone, excluded: set<string>,
                               g: Grouping, bucket: Option<Bucket>)
    requires Injective(env.digest) && multiset(RawAttempts(a.batches)) == multiset(RawAttempts(b.batches))
    requires a.lifecycle == b.lifecycle
    ensures EventCount(env, Visible(env, Flatten(env, a.batches), watermark, afterPrivacy, a.lifecycle), event, date, zone,
                       excluded, g, StatusesOf(env, Flatten(env, a.batches), a.lifecycle, superseding))
         == EventCount(env, Visible(env, Flatten(env, b.batches), watermark, afterPrivacy, b.lifecycle), event, date, zone,
                       excluded, g, StatusesOf(env, Flatten(env, b.batches), b.lifecycle, superseding))
    ensures AggregateCount(env, Visible(env, Flatten(env, a.batches), watermark, afterPrivacy, a.lifecycle), event, date,
                           AllAttributions(env, Flatten(env, a.batches), a.lifecycle, superseding), bucket)
         == AggregateCount(env, Visible(env, Flatten(env, b.batches), watermark, afterPrivacy, b.lifecycle), event, date,
                           AllAttributions(env, Flatten(env, b.batches), b.lifecycle, superseding), bucket)
  {
    var s, t := Flatten(env, a.batches), Flatten(env, b.batches);
    FlattenReordered(env, a.batches, b.batches);
    VisibleReordered(env, s, t, a.lifecycle, watermark, afterPrivacy);
    AllAttributionsReordered(env, s, t, a.lifecycle, superseding);
    var p := Visible(env, s, watermark, afterPrivacy, a.lifecycle);
    var q := Visible(env, t, watermark, afterPrivacy, a.lifecycle);
    FilterPermuted(p, q, Counted(env, event, date, zone, excluded, g, StatusesOf(env, s, a.lifecycle, superseding)));
    FilterPermuted(p, q, Qualifies(env, event, date, AllAttributions(env, s, a.lifecycle, superseding), bucket));
  }

  /** The revenue of a cohort is the same for evaluable inputs that differ only in order. */
  lemma RevenueOrderIndependent(env: Env, a: Input, b: Input, superseding: seq<Attribution>, watermark: string,
                                afterPrivacy: bool, excluded: set<string>, g: Grouping, window: Window, policy: FxPolicy)
    requires Injective(env.digest) && multiset(RawAttempts(a.batches)) == multiset(RawAttempts(b.batches))
    requires a.lifecycle == b.lifecycle && Evaluate(env, a).Ok?
    ensures MetricRevenue(env, Flatten(env, a.batches), a.lifecycle, superseding, watermark, afterPrivacy, excluded,
                          g, window, policy)
         == MetricRevenue(env, Flatten(env, b.batches), b.lifecycle, superseding, watermark, afterPrivacy, excluded,
                          g, window, policy)
  {
    var s, t := Flatten(env, a.batches), Flatten(env, b.batches);
    FlattenReordered(env, a.batches, b.batches);
    VisibleReordered(env, s, t, a.lifecycle, watermark, afterPrivacy);
    AllAttributionsReordered(env, s, t, a.lifecycle, superseding);
    var p := Visible(env, s, watermark, afterPrivacy, a.lifecycle);
    var q := Visible(env, t, watermark, afterPrivacy, a.lifecycle);
    var inside := InCohort(env, g, StatusesOf(env, s, a.lifecycle, superseding), excluded);
    FilterPermuted(p, q, inside);
    FilterPermuted(p, q, IsRevenue);
    CohortIsAnchored(env, s, a.lifecycle, superseding, watermark, afterPrivacy, excluded, g);
    CohortPermuted(env, window, Filter(p, inside), Filter(q, inside), Filter(p, IsRevenue), policy);
    RevenuePermuted(env, window, Filter(q, inside), Filter(p, IsRevenue), Filter(q, IsRevenue), policy);
  }

  // ---- Revenue by attribution status ----

  function Both<T>(f: T -> Result<int>, g: T -> Result<int>): T -> Result<int> {
    (x: T) => Combine(f(x), g(x))
  }

  lemma {:induction false} TotalOfBoth<T>(xs: seq<T>, f: T -> Result<int>, g: T -> Result<int>)
    ensures Total(xs, Both(f, g)) == Combine(Total(xs, f), Total(xs, g))
    decreases |xs|
  {
    if xs != [] {
      TotalOfBoth(xs[..|xs| - 1], f, g);
    }
  }

  function WithStatus(statuses: map<EvidenceKey, AttributionStatus>, status: AttributionStatus): Attempt -> bool {
    (a: Attempt) => StatusOf(a, statuses) == Some(status)
  }

  lemma FoundWithStatus(installs: seq<Attempt>, p: Attempt -> bool, keep: Attempt -> bool)
    requires |Filter(installs, p)| <= 1
    ensures var found := FindFirst(installs, p);
            FindFirst(Filter(installs, keep), p) == if found.Some? && keep(found.value) then found else None
    ensures FindFirst(installs, p).Some? ==> FindFirst(installs, p).value in installs
  {
    FindFirstIsHead(installs, p);
    FindFirstIsHead(Filter(installs, keep), p);
    FilterSwap(installs, keep, p);
    var own := Filter(installs, p);
    if own != [] {
      FilterMember(installs, p, own[0]);
      assert own[1..] == [];
    }
  }

  /** What an item amounts to, given the install found for it. */
  function AmountFor(env: Env, window: Window, item: Attempt, policy: FxPolicy): Option<Attempt> -> Result<int> {
    (found: Option<Attempt>) =>
      match found
      case None => Ok(0)
      case Some(install) =>
        var counts :- EligibleRevenue(env, window, install.record, item.record);
        if counts then Convert(AmountOf(item), policy) else Ok(0)
  }

  lemma ItemIsFound(env: Env, window: Window, installs: seq<Attempt>, item: Attempt, policy: FxPolicy)
    ensures RevenueItem(env, window, installs, item, policy)
         == AmountFor(env, window, item, policy)(FindFirst(installs, InstallationOf(item)))
  {
  }

  lemma FoundByStatus(installs: seq<Attempt>, p: Attempt -> bool, statuses: map<EvidenceKey, AttributionStatus>,
                      amount: Option<Attempt> -> Result<int>)
    requires |Filter(installs, p)| <= 1 && amount(None) == Ok(0) && forall a :: a in installs ==> StatusOf(a, statuses).Some?
    ensures amount(FindFirst(installs, p))
         == Combine(Combine(amount(FindFirst(Filter(installs, WithStatus(statuses, Organic)), p)),
                            amount(FindFirst(Filter(installs, WithStatus(statuses, NonOrganic)), p))),
                    amount(FindFirst(Filter(installs, WithStatus(statuses, Unattributed)), p)))
  {
    FoundWithStatus(installs, p, WithStatus(statuses, Organic));
    FoundWithStatus(installs, p, WithStatus(statuses, NonOrganic));
    FoundWithStatus(installs, p, WithStatus(statuses, Unattributed));
    var found := FindFirst(installs, p);
    if found.Some? {
      var status := StatusOf(found.value, statuses).value;
      assert WithStatus(statuses, status)(found.value);
      assert status.Organic? || status.NonOrganic? || status.Unattributed?;
    }
  }

  /** An amount counted for one install is counted under that install's status, and under no other. */
  lemma ItemByStatus(env: Env, window: Window, installs: seq<Attempt>, statuses: map<EvidenceKey, AttributionStatus>,
                     item: Attempt,
                     policy: FxPolicy)
    requires OnePerInstallation(installs) && forall a :: a in installs ==> StatusOf(a, statuses).Some?
    ensures RevenueItem(env, window, installs, item, policy)
         == Combine(Combine(RevenueItem(env, window, Filter(installs, WithStatus(statuses, Organic)), item, policy),
                            RevenueItem(env, window, Filter(installs, WithStatus(statuses, NonOrganic)), item, policy)),
                    RevenueItem(env, window, Filter(installs, WithStatus(statuses, Unattributed)), item, policy))
  {
    var amount, p := AmountFor(env, window, item, policy), InstallationOf(item);
    ItemIsFound(env, window, installs, item, policy);
    ItemIsFound(env, window, Filter(installs, WithStatus(statuses, Organic)), item, policy);
    ItemIsFound(env, window, Filter(installs, WithStatus(statuses, NonOrganic)), item, policy);
    ItemIsFound(env, window, Filter(installs, WithStatus(statuses, Unattributed)), item, policy);
    FoundByStatus(installs, p, statuses, amount);
  }

  lemma RevenueByStatus(env: Env, window: Window, installs: seq<Attempt>, statuses: map<EvidenceKey, AttributionStatus>,
                        revenue: seq<Attempt>, policy: FxPolicy)
    requires OnePerInstallation(installs) && forall a :: a in installs ==> StatusOf(a, statuses).Some?
    ensures RevenueSum(env, window, installs, revenue, policy)
         == Combine(Combine(RevenueSum(env, window, Filter(installs, WithStatus(statuses, Organic)), revenue, policy),
                            RevenueSum(env, window, Filter(installs, WithStatus(statuses, NonOrganic)), revenue, policy)),
                    RevenueSum(env, window, Filter(installs, WithStatus(statuses, Unattributed)), revenue, policy))
  {
    var organic := ItemAmount(env, window, Filter(installs, WithStatus(statuses, Organic)), policy);
    var other := ItemAmount(env, window, Filter(installs, WithStatus(statuses, NonOrganic)), policy);
    var unattributed := ItemAmount(env, window, Filter(installs, WithStatus(statuses, Unattributed)), policy);
    RevenueIsTotal(env, window, installs, revenue, policy);
    RevenueIsTotal(env, window, Filter(installs, WithStatus(statuses, Organic)), revenue, policy);
    RevenueIsTotal(env, window, Filter(installs, WithStatus(statuses, NonOrganic)), revenue, policy);
    RevenueIsTotal(env, window, Filter(installs, WithStatus(statuses, Unattributed)), revenue, policy);
    forall item | item in revenue
      ensures ItemAmount(env, window, installs, policy)(item) == Both(Both(organic, other), unattributed)(item)
    {
      ItemByStatus(env, window, installs, statuses, item, policy);
    }
    TotalAgree(revenue, ItemAmount(env, window, installs, policy), Both(Both(organic, other), unattributed));
    TotalOfBoth(revenue, Both(organic, other), unattributed);
    TotalOfBoth(revenue, organic, other);
  }

  lemma CohortWithStatus(env: Env, visible: seq<Attempt>, g: Grouping, statuses: map<EvidenceKey, AttributionStatus>,
                         excluded: set<string>, status: AttributionStatus)
    requires g.status.None?
    ensures Filter(visible, InCohort(env, g.(status := Some(status)), statuses, excluded))
         == Filter(Filter(visible, InCohort(env, g, statuses, excluded)), WithStatus(statuses, status))
  {
    FilterBoth(visible, InCohort(env, g, statuses, excluded), WithStatus(statuses, status),
               InCohort(env, g.(status := Some(status)), statuses, excluded));
  }

  /**
   Of an evaluation whose installs are anchored, the revenue of the three attribution statuses adds up to the revenue
   without status, and fails if and only if one of the three does.
   */
  lemma StatusRevenueConserved(env: Env, s: seq<Attempt>, lifecycle: map<EvidenceKey, Lifecycle>,
                               superseding: seq<Attribution>,
                               watermark: string, afterPrivacy: bool, excluded: set<string>, g: Grouping, window: Window,
                               policy: FxPolicy)
    requires g.status.None? && Evaluable(env, s)
    ensures MetricRevenue(env, s, lifecycle, superseding, watermark, afterPrivacy, excluded, g, window, policy)
         == Combine(Combine(
              MetricRevenue(env, s, lifecycle, superseding, watermark, afterPrivacy, excluded, g.(status := Some(Organic)), window, policy),
              MetricRevenue(env, s, lifecycle, superseding, watermark, afterPrivacy, excluded, g.(status := Some(NonOrganic)), window, policy)),
              MetricRevenue(env, s, lifecycle, superseding, watermark, afterPrivacy, excluded, g.(status := Some(Unattributed)), window, policy))
  {
    var visible := Visible(env, s, watermark, afterPrivacy, lifecycle);
    var statuses := StatusesOf(env, s, lifecycle, superseding);
    var cohort := Filter(visible, InCohort(env, g, statuses, excluded));
    CohortIsAnchored(env, s, lifecycle, superseding, watermark, afterPrivacy, excluded, g);
    forall a | a in cohort ensures StatusOf(a, statuses).Some? {
      FilterMember(visible, InCohort(env, g, statuses, excluded), a);
      VisibleHasStatus(env, s, lifecycle, superseding, watermark, afterPrivacy, a);
    }
    forall status
      ensures Filter(visible, InCohort(env, g.(status := Some(status)), statuses, excluded))
           == Filter(cohort, WithStatus(statuses, status))
    {
      CohortWithStatus(env, visible, g, statuses, excluded, status);
    }
    RevenueByStatus(env, window, cohort, statuses, Filter(visible, IsRevenue), policy);
  }
}
