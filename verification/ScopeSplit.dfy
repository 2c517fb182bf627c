/** Ingesting a mixed batch one (tenant, app) scope at a time gives what evaluating it whole would give. */
module ScopeSplit {
  import opened Outcomes
  import opened Contract
  import opened Sequences
  import opened Partitions
  import opened CanonicalOrder
  import opened TextOrder
  import opened Decisions
  import opened Attributions
  import opened Evaluation
  import opened Incremental

  type ScopePair = (string, string)

  function InScope(scope: ScopePair): Attempt -> bool {
    (a: Attempt) => Scope(a) == scope
  }

  /** A record ID never appears in two scopes. */
  ghost predicate IdsStayInScope(attempts: seq<Attempt>) {
    forall x, y :: x in attempts && y in attempts && x.record.recordId == y.record.recordId ==> Scope(x) == Scope(y)
  }

  lemma DecisionInScope(env: Env, a: Attempt, s: seq<Attempt>)
    requires a in s && IdsStayInScope(s)
    ensures var part := Filter(s, InScope(Scope(a)));
            && DecisionOf(env, part)(a) == DecisionOf(env, s)(a)
            && AcceptedUnique(env, part)(a) == AcceptedUnique(env, s)(a)
            && Conflicting(env, part)(a) == Conflicting(env, s)(a)
  {
    var part := Filter(s, InScope(Scope(a)));
    FilterWithin(s, InScope(Scope(a)), SameRecordId(a));
    FilterWithin(s, InScope(Scope(a)), SameEvent(a));
    DecisionDependsOn(env, a, part, s);
  }

  lemma DecisionsInScope(env: Env, s: seq<Attempt>, scope: ScopePair)
    requires IdsStayInScope(s)
    ensures var part := Filter(s, InScope(scope));
            && (forall a :: a in part ==> DecisionOf(env, part)(a) == DecisionOf(env, s)(a))
            && (forall a :: a in part ==> AcceptedUnique(env, part)(a) == AcceptedUnique(env, s)(a))
            && (forall a :: a in part ==> Conflicting(env, part)(a) == Conflicting(env, s)(a))
  {
    var part := Filter(s, InScope(scope));
    forall a | a in part
      ensures DecisionOf(env, part)(a) == DecisionOf(env, s)(a)
      ensures AcceptedUnique(env, part)(a) == AcceptedUnique(env, s)(a)
      ensures Conflicting(env, part)(a) == Conflicting(env, s)(a)
    {
      FilterMember(s, InScope(scope), a);
      DecisionInScope(env, a, s);
    }
  }

  lemma SelectedInScope(env: Env, s: seq<Attempt>, scope: ScopePair)
    requires IdsStayInScope(s)
    ensures AcceptedOf(env, Filter(s, InScope(scope))) == Filter(AcceptedOf(env, s), InScope(scope))
    ensures ConflictsOf(env, Filter(s, InScope(scope))) == Filter(ConflictsOf(env, s), InScope(scope))
  {
    var part := Filter(s, InScope(scope));
    DecisionsInScope(env, s, scope);
    FilterAgree(part, AcceptedUnique(env, part), AcceptedUnique(env, s));
    FilterSwap(s, InScope(scope), AcceptedUnique(env, s));
    FilterAgree(part, Conflicting(env, part), Conflicting(env, s));
    FilterSwap(s, InScope(scope), Conflicting(env, s));
  }

  lemma VerdictInScope(env: Env, a: Attempt, accepted: seq<Attempt>)
    ensures InstallVerdict(env, a, Filter(accepted, InScope(Scope(a)))) == InstallVerdict(env, a, accepted)
  {
    var keep := InScope(Scope(a));
    FilterWithin(accepted, keep, ClickOf(a));
    forall ref
      ensures Filter(Filter(accepted, keep), ReferencedClick(a, ref)) == Filter(accepted, ReferencedClick(a, ref))
    {
      FilterWithin(accepted, keep, ReferencedClick(a, ref));
    }
    VerdictDependsOn(env, a, Filter(accepted, keep), accepted);
  }

  // ---- Output lists ----

  /** Images under functions that agree, sorted, then restricted to a scope. */
  lemma SortedImageInScope<T, U>(xs: seq<T>, key: U -> Key, f: T -> U, g: T -> U, keep: T -> bool, keepImage: U -> bool)
    requires forall x :: x in xs ==> keep(x) == keepImage(g(x))
    requires forall x :: x in Filter(xs, keep) ==> f(x) == g(x)
    ensures Sort(Map(Filter(xs, keep), f), key) == Filter(Sort(Map(xs, g), key), keepImage)
  {
    MapAgree(Filter(xs, keep), f, g);
    MapFilter(xs, g, keep, keepImage);
    FilterSort(Map(xs, g), key, keepImage);
  }

  function DeliveryIn(scope: ScopePair): Delivery -> bool { (d: Delivery) => (d.tenantId, d.appId) == scope }
  function RejectionIn(scope: ScopePair): Rejection -> bool { (r: Rejection) => (r.tenantId, r.appId) == scope }
  function RawIn(scope: ScopePair): RawRecord -> bool { (r: RawRecord) => (r.tenantId, r.appId) == scope }
  function LogicalIn(scope: ScopePair): LogicalEvent -> bool { (l: LogicalEvent) => (l.tenantId, l.appId) == scope }
  function AttributionIn(scope: ScopePair): Attribution -> bool { (x: Attribution) => (x.tenantId, x.appId) == scope }

  function OutputIn(out: Output, scope: ScopePair): Output {
    Output(Filter(out.raw, RawIn(scope)), Filter(out.deliveries, DeliveryIn(scope)), Filter(out.logical, LogicalIn(scope)),
           Filter(out.attributions, AttributionIn(scope)), Filter(out.rejections, RejectionIn(scope)))
  }

  lemma DeliveriesInScope(env: Env, s: seq<Attempt>, scope: ScopePair)
    requires IdsStayInScope(s)
    ensures DeliveriesOf(env, Filter(s, InScope(scope)), []) == Filter(DeliveriesOf(env, s, []), DeliveryIn(scope))
  {
    var part, key := Filter(s, InScope(scope)), DeliveryKey(env);
    var f, g := DeliveryFor(DecisionOf(env, part)), DeliveryFor(DecisionOf(env, s));
    DecisionsInScope(env, s, scope);
    SortedImageInScope(s, key, f, g, InScope(scope), DeliveryIn(scope));
    var inner, whole := Sort(Map(part, f), key), Sort(Map(s, g), key);
    assert inner + Map([], PreDelivery) == inner && whole + Map([], PreDelivery) == whole;
    FilterSort(whole, key, DeliveryIn(scope));
  }

  lemma RejectionsInScope(env: Env, s: seq<Attempt>, scope: ScopePair)
    requires IdsStayInScope(s)
    ensures RejectionsOf(env, Filter(s, InScope(scope)), []) == Filter(RejectionsOf(env, s, []), RejectionIn(scope))
  {
    var part := Filter(s, InScope(scope));
    var d, e := DecisionOf(env, part), DecisionOf(env, s);
    DecisionsInScope(env, s, scope);
    FilterAgree(part, RejectedBy(d), RejectedBy(e));
    FilterSwap(s, InScope(scope), RejectedBy(e));
    var rejected := Filter(s, RejectedBy(e));
    forall x | x in Filter(rejected, InScope(scope)) ensures RejectionFor(d)(x) == RejectionFor(e)(x) {
      FilterMember(rejected, InScope(scope), x);
      FilterMember(s, RejectedBy(e), x);
      FilterMember(s, InScope(scope), x);
    }
    SortedImageInScope(rejected, RejectionKey(env), RejectionFor(d), RejectionFor(e), InScope(scope),
                       RejectionIn(scope));
    var p, q := Map(Filter(rejected, InScope(scope)), RejectionFor(d)), Map(rejected, RejectionFor(e));
    assert p + Map([], PreRejected) == p && q + Map([], PreRejected) == q;
  }

  lemma RawInScope(env: Env, s: seq<Attempt>, scope: ScopePair, lifecycle: map<EvidenceKey, Lifecycle>)
    requires IdsStayInScope(s)
    ensures RawOf(env, Filter(s, InScope(scope)), lifecycle) == Filter(RawOf(env, s, lifecycle), RawIn(scope))
  {
    SelectedInScope(env, s, scope);
    var p, q := AcceptedOf(env, s), ConflictsOf(env, s);
    FilterConcat(p, q, InScope(scope));
    FilterSwap(p + q, InScope(scope), Retained(lifecycle));
    SortedImageInScope(Filter(p + q, Retained(lifecycle)), RawKey(env), RawRecordFor(env), RawRecordFor(env),
                       InScope(scope), RawIn(scope));
  }

  lemma LogicalInScope(env: Env, s: seq<Attempt>, scope: ScopePair, lifecycle: map<EvidenceKey, Lifecycle>)
    requires IdsStayInScope(s)
    ensures LogicalOf(env, Filter(s, InScope(scope)), lifecycle)
         == Filter(LogicalOf(env, s, lifecycle), LogicalIn(scope))
  {
    SelectedInScope(env, s, scope);
    var p := AcceptedOf(env, s);
    FilterSwap(p, InScope(scope), Retained(lifecycle));
    SortedImageInScope(Filter(p, Retained(lifecycle)), LogicalKey(env), LogicalFor, LogicalFor, InScope(scope),
                       LogicalIn(scope));
  }

  lemma KindInScope(accepted: seq<Attempt>, kind: Attempt -> bool, f: Attempt -> Attribution,
                    g: Attempt -> Attribution, scope: ScopePair)
    requires forall x :: (g(x).tenantId, g(x).appId) == Scope(x)
    requires forall x :: Scope(x) == scope ==> f(x) == g(x)
    ensures Map(Filter(Filter(accepted, InScope(scope)), kind), f)
         == Filter(Map(Filter(accepted, kind), g), AttributionIn(scope))
  {
    FilterSwap(accepted, InScope(scope), kind);
    var own := Filter(accepted, kind);
    MapFilter(own, g, InScope(scope), AttributionIn(scope));
    FilterMembers(own, InScope(scope));
    MapAgree(Filter(own, InScope(scope)), f, g);
  }

  lemma AttributionsInScope(env: Env, s: seq<Attempt>, scope: ScopePair, lifecycle: map<EvidenceKey, Lifecycle>)
    requires IdsStayInScope(s)
    ensures AttributionsOf(env, Filter(s, InScope(scope)), lifecycle)
         == Filter(AttributionsOf(env, s, lifecycle), AttributionIn(scope))
  {
    SelectedInScope(env, s, scope);
    BaseInScope(env, AcceptedOf(env, s), scope, lifecycle);
    FilterSort(BaseAttributions(env, AcceptedOf(env, s), lifecycle), AttributionKey(env), AttributionIn(scope));
  }

  lemma BaseInScope(env: Env, p: seq<Attempt>, scope: ScopePair, lifecycle: map<EvidenceKey, Lifecycle>)
    ensures BaseAttributions(env, Filter(p, InScope(scope)), lifecycle)
         == Filter(BaseAttributions(env, p, lifecycle), AttributionIn(scope))
  {
    var f, g := InstallAttribution(env, Filter(p, InScope(scope)), lifecycle), InstallAttribution(env, p, lifecycle);
    forall x: Attempt | Scope(x) == scope ensures f(x) == g(x) {
      VerdictInScope(env, x, p);
    }
    KindInScope(p, IsInstall, f, g, scope);
    KindInScope(p, IsPostback, PostbackAttribution(lifecycle), PostbackAttribution(lifecycle), scope);
    KindInScope(p, IsOpen, OpenAttribution(lifecycle), OpenAttribution(lifecycle), scope);
    var x := Map(Filter(p, IsInstall), g);
    var y := Map(Filter(p, IsPostback), PostbackAttribution(lifecycle));
    var z := Map(Filter(p, IsOpen), OpenAttribution(lifecycle));
    FilterConcat(x, y, AttributionIn(scope));
    FilterConcat(x + y, z, AttributionIn(scope));
  }

  // ---- Failures ----

  lemma {:induction false} InstallKeyCount(installs: seq<Attempt>, scope: ScopePair, key: EvidenceKey)
    requires (key.0, key.1) == scope
    ensures multiset(Map(installs, InstallKey))[key] == multiset(Map(Filter(installs, InScope(scope)), InstallKey))[key]
  {
    if installs != [] {
      InstallKeyCount(installs[1..], scope, key);
    }
  }

  lemma AnchorRulesInScope(a: Attempt, installs: seq<Attempt>)
    ensures AnchorRules(a, installs) <==> AnchorRules(a, Filter(installs, InScope(Scope(a))))
  {
    var part := Filter(installs, InScope(Scope(a)));
    InstallKeyCount(installs, Scope(a), InstallKey(a));
    FilterMembers(installs, InScope(Scope(a)));
    if a.record.payload.priorInstallationId.Some? {
      var prior := (a.server.tenantId, a.server.appId, a.record.payload.priorInstallationId.value);
      assert forall c: Attempt :: InstallKey(c) == prior ==> Scope(c) == Scope(a);
    }
  }

  /** The whole batch is evaluable exactly when each of its scopes is. */
  lemma EvaluableByScope(env: Env, s: seq<Attempt>)
    requires IdsStayInScope(s)
    ensures Evaluable(env, s) <==> forall b :: b in s ==> Evaluable(env, Filter(s, InScope(Scope(b))))
  {
    if Evaluable(env, s) {
      forall b | b in s ensures Evaluable(env, Filter(s, InScope(Scope(b)))) {
        EvaluablePart(env, s, Scope(b));
      }
    }
    if forall b :: b in s ==> Evaluable(env, Filter(s, InScope(Scope(b)))) {
      forall a | a in s ensures PartPasses(env, a, s) {
        AttemptPasses(env, a, s);
      }
      FilterMembers(s, AcceptedUnique(env, s));
      FilterMembers(AcceptedOf(env, s), IsInstall);
      assert forall a :: a in s ==> PartPasses(env, a, s);
    }
  }

  /** What one attempt contributes to the checks of the whole list. */
  ghost predicate PartPasses(env: Env, a: Attempt, s: seq<Attempt>) {
    && ProviderMatches(a) && AnchorSourceAllowed(a) && PoliciesConsistent(env, a) && RefundTargetExists(a, s)
    && (a in AcceptedOf(env, s) && IsInstall(a) ==>
          InstallVerdict(env, a, AcceptedOf(env, s)).Ok? && AnchorRules(a, Filter(AcceptedOf(env, s), IsInstall)))
  }

  lemma AttemptPasses(env: Env, a: Attempt, s: seq<Attempt>)
    requires IdsStayInScope(s) && a in s && Evaluable(env, Filter(s, InScope(Scope(a))))
    ensures PartPasses(env, a, s)
  {
    var keep := InScope(Scope(a));
    var part := Filter(s, keep);
    FilterMembers(s, keep);
    assert RefundTargetExists(a, part);
    SelectedInScope(env, s, Scope(a));
    var p := AcceptedOf(env, s);
    if a in p && IsInstall(a) {
      VerdictInScope(env, a, p);
      FilterMember(p, keep, a);
      FilterSwap(p, keep, IsInstall);
      FilterMember(Filter(p, keep), IsInstall, a);
      AnchorRulesInScope(a, Filter(p, IsInstall));
    }
  }

  lemma EvaluablePart(env: Env, s: seq<Attempt>, scope: ScopePair)
    requires IdsStayInScope(s) && Evaluable(env, s)
    ensures Evaluable(env, Filter(s, InScope(scope)))
  {
    var keep := InScope(scope);
    var part := Filter(s, keep);
    FilterMembers(s, keep);
    SelectedInScope(env, s, scope);
    var p := AcceptedOf(env, s);
    FilterMembers(p, keep);
    FilterSwap(p, keep, IsInstall);
    var i := Filter(p, IsInstall);
    FilterMembers(i, keep);
    forall a | a in part ensures RefundTargetExists(a, part) {
      assert RefundTargetExists(a, s);
    }
    forall a | a in Filter(p, keep) && IsInstall(a) ensures InstallVerdict(env, a, Filter(p, keep)).Ok? {
      VerdictInScope(env, a, p);
    }
    forall a | a in Filter(i, keep) ensures AnchorRules(a, Filter(i, keep)) {
      assert AnchorRules(a, i);
      AnchorRulesInScope(a, i);
    }
  }

  /**
   Evaluating one scope of a batch on its own gives exactly the artifacts of that scope, in the same order,
   as evaluating the whole batch.
   */
  lemma ScopeEvaluatesAlone(env: Env, raw: seq<Attempt>, scope: ScopePair, input: Input)
    requires IdsStayInScope(raw) && input.preRejections == []
    ensures OutputOf(env, Sort(Filter(raw, InScope(scope)), AttemptKey(env)), input)
         == OutputIn(OutputOf(env, Sort(raw, AttemptKey(env)), input), scope)
  {
    var s := Sort(raw, AttemptKey(env));
    FilterSort(raw, AttemptKey(env), InScope(scope));
    SortMembers(raw, AttemptKey(env));
    DeliveriesInScope(env, s, scope);
    RejectionsInScope(env, s, scope);
    RawInScope(env, s, scope, input.lifecycle);
    LogicalInScope(env, s, scope, input.lifecycle);
    AttributionsInScope(env, s, scope, input.lifecycle);
  }

  // ---- The combined result of all scopes ----

  function Append(a: Output, b: Output): Output {
    Output(a.raw + b.raw, a.deliveries + b.deliveries, a.logical + b.logical, a.attributions + b.attributions,
           a.rejections + b.rejections)
  }

  ghost predicate SameContents(a: Output, b: Output) {
    && multiset(a.raw) == multiset(b.raw) && multiset(a.deliveries) == multiset(b.deliveries)
    && multiset(a.logical) == multiset(b.logical) && multiset(a.attributions) == multiset(b.attributions)
    && multiset(a.rejections) == multiset(b.rejections)
  }

  ghost predicate Covers(scopes: seq<ScopePair>, attempts: seq<Attempt>) {
    Distinct(scopes) && forall a :: a in attempts ==> Scope(a) in scopes
  }

  ghost predicate Within<U>(ys: seq<U>, scopeOf: U -> ScopePair, scopes: seq<ScopePair>) {
    forall y :: y in ys ==> scopeOf(y) in scopes
  }

  lemma OneScopeEach<T>(xs: seq<T>, scopeOf: T -> ScopePair, member: ScopePair -> T -> bool, scopes: seq<ScopePair>)
    requires Distinct(scopes) && Within(xs, scopeOf, scopes)
    requires forall sc, x :: member(sc)(x) <==> scopeOf(x) == sc
    ensures multiset(Grouped(xs, scopes, member)) == multiset(xs)
  {
    forall x | x in xs ensures InOneGroup(x, scopes, member) {
      var i :| 0 <= i < |scopes| && scopes[i] == scopeOf(x);
      assert member(scopes[i])(x);
    }
    GroupedPartition(xs, scopes, member);
  }

  function RawScopeOf(x: RawRecord): ScopePair { (x.tenantId, x.appId) }
  function DeliveryScopeOf(x: Delivery): ScopePair { (x.tenantId, x.appId) }
  function LogicalScopeOf(x: LogicalEvent): ScopePair { (x.tenantId, x.appId) }
  function RejectionScopeOf(x: Rejection): ScopePair { (x.tenantId, x.appId) }
  function AttributionScopeOf(x: Attribution): ScopePair { (x.tenantId, x.appId) }

  /** The artifacts of each scope in turn, cut out of the whole output. */
  ghost function Regrouped(out: Output, scopes: seq<ScopePair>): Output {
    Output(Grouped(out.raw, scopes, RawIn), Grouped(out.deliveries, scopes, DeliveryIn),
           Grouped(out.logical, scopes, LogicalIn), Grouped(out.attributions, scopes, AttributionIn),
           Grouped(out.rejections, scopes, RejectionIn))
  }

  /** Distinct scopes in order of first appearance. */
  function Appearing(raw: seq<Attempt>): seq<ScopePair> {
    if raw == [] then []
    else
      var before := Appearing(raw[..|raw| - 1]);
      if Scope(raw[|raw| - 1]) in before then before else before + [Scope(raw[|raw| - 1])]
  }

  function ScopeText(): ScopePair -> Key { (sc: ScopePair) => KeyOf([sc.0 + "\0" + sc.1]) }

  /** The scopes of the attempts, sorted as joined texts. */
  function ScopeList(raw: seq<Attempt>): seq<ScopePair> { Sort(Appearing(raw), ScopeText()) }

  lemma {:induction false} AppearingMeans(raw: seq<Attempt>, sc: ScopePair)
    ensures Distinct(Appearing(raw))
    ensures sc in Appearing(raw) <==> exists a :: a in raw && Scope(a) == sc
    decreases |raw|
  {
    if raw != [] {
      AppearingMeans(raw[..|raw| - 1], sc);
      AppearingMeans(raw[..|raw| - 1], Scope(raw[|raw| - 1]));
      assert raw == raw[..|raw| - 1] + [raw[|raw| - 1]];
    }
  }

  lemma ScopeListMeans(raw: seq<Attempt>)
    ensures Covers(ScopeList(raw), raw)
    ensures forall sc :: sc in ScopeList(raw) <==> exists a :: a in raw && Scope(a) == sc
  {
    forall sc ensures sc in ScopeList(raw) <==> exists a :: a in raw && Scope(a) == sc {
      AppearingMeans(raw, sc);
      SortMember(Appearing(raw), ScopeText(), sc);
    }
    AppearingMeans(raw, ("", ""));
    SortPermutes(Appearing(raw), ScopeText());
    DistinctPermuted(Appearing(raw), ScopeList(raw));
  }

  method ScopesOf(raw: seq<Attempt>) returns (scopes: seq<ScopePair>)
    ensures scopes == ScopeList(raw) && Covers(scopes, raw)
    ensures forall sc :: sc in scopes ==> exists a :: a in raw && Scope(a) == sc
  {
    scopes := [];
    for i := 0 to |raw|
      invariant scopes == Appearing(raw[..i])
    {
      assert raw[..i + 1][..i] == raw[..i];
      if Scope(raw[i]) !in scopes {
        scopes := scopes + [Scope(raw[i])];
      }
    }
    assert raw[..|raw|] == raw;
    scopes := Sort(scopes, ScopeText());
    ScopeListMeans(raw);
  }

  lemma RegroupedStep(out: Output, scopes: seq<ScopePair>, i: nat)
    requires i < |scopes|
    ensures Regrouped(out, scopes[..i + 1]) == Append(Regrouped(out, scopes[..i]), OutputIn(out, scopes[i]))
  {
    assert scopes[..i + 1] == scopes[..i] + [scopes[i]];
    GroupedStep(out.raw, scopes[..i], scopes[i], RawIn);
    GroupedStep(out.deliveries, scopes[..i], scopes[i], DeliveryIn);
    GroupedStep(out.logical, scopes[..i], scopes[i], LogicalIn);
    GroupedStep(out.attributions, scopes[..i], scopes[i], AttributionIn);
    GroupedStep(out.rejections, scopes[..i], scopes[i], RejectionIn);
  }

  // ---- Ingesting scope by scope ----

  function CurrentRaw(pending: seq<Attempt>): RawRecord -> bool {
    (x: RawRecord) => x.recordId in RecordIds(pending) || x.deliveryId in DeliveryIds(pending)
  }

  function CurrentRejection(pending: seq<Attempt>): Rejection -> bool {
    (x: Rejection) => x.recordId in RecordIds(pending) || x.deliveryId in DeliveryIds(pending)
  }

  function CurrentAttribution(pending: seq<Attempt>): Attribution -> bool {
    (x: Attribution) =>
      x.subjectRef in RecordIds(pending) || exists i :: 0 <= i < |x.evidence| && x.evidence[i].ref in RecordIds(pending)
  }

  /** The artifacts that name a pending record or delivery. */
  function Kept(out: Output, pending: seq<Attempt>): Output {
    Output(Filter(out.raw, CurrentRaw(pending)), Filter(out.deliveries, CurrentDelivery(pending)),
           Filter(out.logical, CurrentLogical(pending)), Filter(out.attributions, CurrentAttribution(pending)),
           Filter(out.rejections, CurrentRejection(pending)))
  }

  /** Evaluating history and pending attempts together, and keeping what is current. */
  function Ingest(env: Env, history: seq<Attempt>, pending: seq<Attempt>, input: Input): Result<Output> {
    var all := At(env, history + pending);
    if Evaluable(env, all) then Ok(Kept(OutputOf(env, all, input), pending)) else Err
  }

  function Own(pending: seq<Attempt>, scope: ScopePair): seq<Attempt> { Filter(pending, InScope(scope)) }

  // The same, with the pending attempts of the artifact's own scope.

  function OwnRaw(pending: seq<Attempt>): RawRecord -> bool {
    (x: RawRecord) => CurrentRaw(Own(pending, RawScopeOf(x)))(x)
  }

  function OwnDelivery(pending: seq<Attempt>): Delivery -> bool {
    (x: Delivery) => CurrentDelivery(Own(pending, DeliveryScopeOf(x)))(x)
  }

  function OwnLogical(pending: seq<Attempt>): LogicalEvent -> bool {
    (x: LogicalEvent) => CurrentLogical(Own(pending, LogicalScopeOf(x)))(x)
  }

  function OwnAttribution(pending: seq<Attempt>): Attribution -> bool {
    (x: Attribution) => CurrentAttribution(Own(pending, AttributionScopeOf(x)))(x)
  }

  function OwnRejection(pending: seq<Attempt>): Rejection -> bool {
    (x: Rejection) => CurrentRejection(Own(pending, RejectionScopeOf(x)))(x)
  }

  /** The artifacts that name a pending record or delivery of their own scope. */
  function KeptInOwnScope(out: Output, pending: seq<Attempt>): Output {
    Output(Filter(out.raw, OwnRaw(pending)), Filter(out.deliveries, OwnDelivery(pending)), Filter(out.logical, OwnLogical(pending)),
           Filter(out.attributions, OwnAttribution(pending)), Filter(out.rejections, OwnRejection(pending)))
  }

  lemma {:induction false} KeptOfScope<U>(xs: seq<U>, member: U -> bool, current: U -> bool, own: U -> bool)
    requires forall x :: x in xs && member(x) ==> current(x) == own(x)
    ensures Filter(Filter(xs, member), current) == Filter(Filter(xs, own), member)
  {
    if xs != [] {
      assert xs[0] in xs && forall x :: x in xs[1..] ==> x in xs;
      KeptOfScope(xs[1..], member, current, own);
    }
  }

  /** Keeping what is current in one scope is the scope's part of keeping what is current in the own scope. */
  lemma KeptScope(out: Output, pending: seq<Attempt>, scope: ScopePair)
    ensures Kept(OutputIn(out, scope), Own(pending, scope)) == OutputIn(KeptInOwnScope(out, pending), scope)
  {
    var own := Own(pending, scope);
    forall x: RawRecord | RawIn(scope)(x) ensures CurrentRaw(own)(x) == OwnRaw(pending)(x) {
      assert RawScopeOf(x) == scope && Own(pending, RawScopeOf(x)) == own;
    }
    KeptOfScope(out.raw, RawIn(scope), CurrentRaw(own), OwnRaw(pending));
    forall x: Delivery | DeliveryIn(scope)(x) ensures CurrentDelivery(own)(x) == OwnDelivery(pending)(x) {
      assert DeliveryScopeOf(x) == scope && Own(pending, DeliveryScopeOf(x)) == own;
    }
    KeptOfScope(out.deliveries, DeliveryIn(scope), CurrentDelivery(own), OwnDelivery(pending));
    forall x: LogicalEvent | LogicalIn(scope)(x) ensures CurrentLogical(own)(x) == OwnLogical(pending)(x) {
      assert LogicalScopeOf(x) == scope && Own(pending, LogicalScopeOf(x)) == own;
    }
    KeptOfScope(out.logical, LogicalIn(scope), CurrentLogical(own), OwnLogical(pending));
    forall x: Attribution | AttributionIn(scope)(x) ensures CurrentAttribution(own)(x) == OwnAttribution(pending)(x) {
      assert AttributionScopeOf(x) == scope && Own(pending, AttributionScopeOf(x)) == own;
    }
    KeptOfScope(out.attributions, AttributionIn(scope), CurrentAttribution(own), OwnAttribution(pending));
    forall x: Rejection | RejectionIn(scope)(x) ensures CurrentRejection(own)(x) == OwnRejection(pending)(x) {
      assert RejectionScopeOf(x) == scope && Own(pending, RejectionScopeOf(x)) == own;
    }
    KeptOfScope(out.rejections, RejectionIn(scope), CurrentRejection(own), OwnRejection(pending));
  }

  lemma IngestScope(env: Env, history: seq<Attempt>, pending: seq<Attempt>, input: Input, scope: ScopePair)
    requires IdsStayInScope(history + pending) && input.preRejections == []
    ensures var all := At(env, history + pending);
            Ingest(env, Own(history, scope), Own(pending, scope), input)
            == if Evaluable(env, Filter(all, InScope(scope)))
               then Ok(OutputIn(KeptInOwnScope(OutputOf(env, all, input), pending), scope)) else Err
  {
    FilterConcat(history, pending, InScope(scope));
    FilterSort(history + pending, AttemptKey(env), InScope(scope));
    ScopeEvaluatesAlone(env, history + pending, scope, input);
    KeptScope(OutputOf(env, At(env, history + pending), input), pending, scope);
  }

  lemma IngestNext(env: Env, history: seq<Attempt>, pending: seq<Attempt>, input: Input, scopes: seq<ScopePair>, i: nat)
    requires IdsStayInScope(history + pending) && input.preRejections == [] && i < |scopes|
    ensures var all := At(env, history + pending);
            var kept := KeptInOwnScope(OutputOf(env, all, input), pending);
            var part := Ingest(env, Own(history, scopes[i]), Own(pending, scopes[i]), input);
            && (part.Ok? <==> Evaluable(env, Filter(all, InScope(scopes[i]))))
            && (part.Ok? ==> Regrouped(kept, scopes[..i + 1]) == Append(Regrouped(kept, scopes[..i]), part.value))
  {
    IngestScope(env, history, pending, input, scopes[i]);
    RegroupedStep(KeptInOwnScope(OutputOf(env, At(env, history + pending), input), pending), scopes, i);
  }

  lemma {:induction false} OwnWithin<U>(xs: seq<U>, own: U -> bool, scopeOf: U -> ScopePair, scopes: seq<ScopePair>)
    requires forall x :: x in xs && own(x) ==> scopeOf(x) in scopes
    ensures Within(Filter(xs, own), scopeOf, scopes)
  {
    if xs != [] {
      assert xs[0] in xs && forall x :: x in xs[1..] ==> x in xs;
      OwnWithin(xs[1..], own, scopeOf, scopes);
    }
  }

  /** Something current in its own scope needs a pending attempt there. */
  lemma OwnScopeListed(pending: seq<Attempt>, scopes: seq<ScopePair>, scope: ScopePair)
    requires Covers(scopes, pending) && Own(pending, scope) != []
    ensures scope in scopes
  {
    var a := Own(pending, scope)[0];
    FilterMember(pending, InScope(scope), a);
  }

  lemma NothingNamed()
    ensures RecordIds([]) == {} && DeliveryIds([]) == {}
  {
  }

  lemma KeptWithin(out: Output, pending: seq<Attempt>, scopes: seq<ScopePair>)
    requires Covers(scopes, pending)
    ensures var kept := KeptInOwnScope(out, pending);
            && Within(kept.raw, RawScopeOf, scopes) && Within(kept.deliveries, DeliveryScopeOf, scopes)
            && Within(kept.logical, LogicalScopeOf, scopes) && Within(kept.attributions, AttributionScopeOf, scopes)
            && Within(kept.rejections, RejectionScopeOf, scopes)
  {
    NothingNamed();
    forall x: RawRecord | OwnRaw(pending)(x) ensures RawScopeOf(x) in scopes {
      assert CurrentRaw(Own(pending, RawScopeOf(x)))(x);
      OwnScopeListed(pending, scopes, RawScopeOf(x));
    }
    OwnWithin(out.raw, OwnRaw(pending), RawScopeOf, scopes);
    forall x: Delivery | OwnDelivery(pending)(x) ensures DeliveryScopeOf(x) in scopes {
      assert CurrentDelivery(Own(pending, DeliveryScopeOf(x)))(x);
      OwnScopeListed(pending, scopes, DeliveryScopeOf(x));
    }
    OwnWithin(out.deliveries, OwnDelivery(pending), DeliveryScopeOf, scopes);
    forall x: LogicalEvent | OwnLogical(pending)(x) ensures LogicalScopeOf(x) in scopes {
      assert CurrentLogical(Own(pending, LogicalScopeOf(x)))(x);
      OwnScopeListed(pending, scopes, LogicalScopeOf(x));
    }
    OwnWithin(out.logical, OwnLogical(pending), LogicalScopeOf, scopes);
    forall x: Attribution | OwnAttribution(pending)(x) ensures AttributionScopeOf(x) in scopes {
      assert CurrentAttribution(Own(pending, AttributionScopeOf(x)))(x);
      OwnScopeListed(pending, scopes, AttributionScopeOf(x));
    }
    OwnWithin(out.attributions, OwnAttribution(pending), AttributionScopeOf, scopes);
    forall x: Rejection | OwnRejection(pending)(x) ensures RejectionScopeOf(x) in scopes {
      assert CurrentRejection(Own(pending, RejectionScopeOf(x)))(x);
      OwnScopeListed(pending, scopes, RejectionScopeOf(x));
    }
    OwnWithin(out.rejections, OwnRejection(pending), RejectionScopeOf, scopes);
  }

  lemma RegroupedSame(out: Output, pending: seq<Attempt>, scopes: seq<ScopePair>)
    requires Covers(scopes, pending)
    ensures SameContents(Regrouped(KeptInOwnScope(out, pending), scopes), KeptInOwnScope(out, pending))
  {
    var kept := KeptInOwnScope(out, pending);
    KeptWithin(out, pending, scopes);
    OneScopeEach(kept.raw, RawScopeOf, RawIn, scopes);
    OneScopeEach(kept.deliveries, DeliveryScopeOf, DeliveryIn, scopes);
    OneScopeEach(kept.logical, LogicalScopeOf, LogicalIn, scopes);
    OneScopeEach(kept.attributions, AttributionScopeOf, AttributionIn, scopes);
    OneScopeEach(kept.rejections, RejectionScopeOf, RejectionIn, scopes);
  }

  /** The attempts of the scopes something is pending in. */
  function Touched(all: seq<Attempt>, pending: seq<Attempt>): seq<Attempt> { Filter(all, TouchedBy(pending)) }

  function TouchedBy(pending: seq<Attempt>): Attempt -> bool {
    (a: Attempt) => exists p :: p in pending && Scope(p) == Scope(a)
  }

  lemma TouchedScope(env: Env, history: seq<Attempt>, pending: seq<Attempt>, a: Attempt)
    requires a in pending
    ensures var all := At(env, history + pending);
            && Filter(Touched(all, pending), InScope(Scope(a))) == Filter(all, InScope(Scope(a)))
            && a in Touched(all, pending)
  {
    var all := At(env, history + pending);
    FilterWithin(all, TouchedBy(pending), InScope(Scope(a)));
    SortMember(history + pending, AttemptKey(env), a);
    FilterMember(all, TouchedBy(pending), a);
  }

  lemma TouchedFrom(env: Env, history: seq<Attempt>, pending: seq<Attempt>, b: Attempt)
    requires b in Touched(At(env, history + pending), pending)
    ensures b in history + pending && exists a :: a in pending && Scope(a) == Scope(b)
  {
    FilterMember(At(env, history + pending), TouchedBy(pending), b);
    SortMember(history + pending, AttemptKey(env), b);
  }

  lemma TouchedEvaluable(env: Env, history: seq<Attempt>, pending: seq<Attempt>, scopes: seq<ScopePair>)
    requires IdsStayInScope(history + pending) && Covers(scopes, pending)
    requires forall sc :: sc in scopes ==> exists a :: a in pending && Scope(a) == sc
    ensures var all := At(env, history + pending);
            Evaluable(env, Touched(all, pending)) <==> forall sc :: sc in scopes ==>
                Evaluable(env, Filter(all, InScope(sc)))
  {
    var all := At(env, history + pending);
    var touched := Touched(all, pending);
    forall b | b in touched ensures b in history + pending && Scope(b) in scopes {
      TouchedFrom(env, history, pending, b);
    }
    forall sc | sc in scopes
      ensures Filter(touched, InScope(sc)) == Filter(all, InScope(sc)) && exists b :: b in touched && Scope(b) == sc
    {
      var a :| a in pending && Scope(a) == sc;
      TouchedScope(env, history, pending, a);
    }
    EvaluableByScope(env, touched);
  }

  method IngestEach(env: Env, history: seq<Attempt>, pending: seq<Attempt>, input: Input, scopes: seq<ScopePair>)
    returns (result: Result<Output>)
    requires IdsStayInScope(history + pending) && input.preRejections == []
    ensures var all := At(env, history + pending);
            && (result.Ok? <==> forall sc :: sc in scopes ==> Evaluable(env, Filter(all, InScope(sc))))
            && (result.Ok? ==> result.value == Regrouped(KeptInOwnScope(OutputOf(env, all, input), pending), scopes))
  {
    ghost var all := At(env, history + pending);
    ghost var kept := KeptInOwnScope(OutputOf(env, all, input), pending);
    var combined := Output([], [], [], [], []);
    assert Regrouped(kept, scopes[..0]) == combined;
    for i := 0 to |scopes|
      invariant combined == Regrouped(kept, scopes[..i])
      invariant forall sc :: sc in scopes[..i] ==> Evaluable(env, Filter(all, InScope(sc)))
    {
      IngestNext(env, history, pending, input, scopes, i);
      var part := Ingest(env, Own(history, scopes[i]), Own(pending, scopes[i]), input);
      if part.Err? {
        return Err;
      }
      combined := Append(combined, part.value);
    }
    assert scopes[..|scopes|] == scopes;
    return Ok(combined);
  }

  /**
   A mixed batch is ingested scope by scope, each with its own history, and the kept results are appended. It fails if
   and only if the scopes touched cannot all be evaluated; otherwise nothing is lost, repeated or changed against
   evaluating everything at once and keeping the artifacts that name something pending in their own scope.
   */
  method IngestByScope(env: Env, history: seq<Attempt>, pending: seq<Attempt>,
                       input: Input) returns (result: Result<Output>)
    requires IdsStayInScope(history + pending) && input.preRejections == []
    ensures result.Ok? <==> Evaluable(env, Touched(At(env, history + pending), pending))
    ensures result.Ok? ==>
              SameContents(result.value, KeptInOwnScope(OutputOf(env, At(env, history + pending), input), pending))
  {
    var scopes := ScopesOf(pending);
    TouchedEvaluable(env, history, pending, scopes);
    result := IngestEach(env, history, pending, input, scopes);
    RegroupedSame(OutputOf(env, At(env, history + pending), input), pending, scopes);
  }

  // ---- What an ingestion keeps ----

  ghost predicate Pending(pending: seq<Attempt>, record: string) {
    exists i :: 0 <= i < |pending| && pending[i].record.recordId == record
  }

  ghost predicate PendingDelivery(pending: seq<Attempt>, delivery: string) {
    exists i :: 0 <= i < |pending| && pending[i].record.deliveryId == delivery
  }

  ghost predicate NamesPending(pending: seq<Attempt>, record: string, delivery: string) {
    Pending(pending, record) || PendingDelivery(pending, delivery)
  }

  ghost predicate ConcernsPending(pending: seq<Attempt>, x: Attribution) {
    Pending(pending, x.subjectRef) || exists e :: e in x.evidence && Pending(pending, e.ref)
  }

  /** The rows that name a pending record or delivery, and the attributions about a pending record or resting on one. */
  ghost predicate KeepsPending(out: Output, kept: Output, pending: seq<Attempt>) {
    && (forall x :: x in kept.raw <==> x in out.raw && NamesPending(pending, x.recordId, x.deliveryId))
    && (forall x :: x in kept.deliveries <==> x in out.deliveries && NamesPending(pending, x.recordId, x.deliveryId))
    && (forall x :: x in kept.logical <==> x in out.logical && Pending(pending, x.recordId))
    && (forall x :: x in kept.rejections <==> x in out.rejections && NamesPending(pending, x.recordId, x.deliveryId))
    && (forall x :: x in kept.attributions <==> x in out.attributions && ConcernsPending(pending, x))
  }

  /** Of the whole evaluation an ingestion keeps just what concerns something pending. */
  lemma IngestKeepsExactly(env: Env, history: seq<Attempt>, pending: seq<Attempt>, input: Input)
    requires Ingest(env, history, pending, input).Ok?
    ensures KeepsPending(OutputOf(env, At(env, history + pending), input), Ingest(env, history, pending, input).value,
                         pending)
  {
    KeptKeeps(OutputOf(env, At(env, history + pending), input), pending);
  }

  lemma KeptKeeps(out: Output, pending: seq<Attempt>)
    ensures KeepsPending(out, Kept(out, pending), pending)
  {
    forall record ensures record in RecordIds(pending) <==> Pending(pending, record) {
      IdsPending(pending, record);
    }
    forall delivery ensures delivery in DeliveryIds(pending) <==> PendingDelivery(pending, delivery) {
      DeliveriesPending(pending, delivery);
    }
    KeptRowsAre(out, pending);
    FilterMembers(out.logical, CurrentLogical(pending));
    FilterMembers(out.attributions, CurrentAttribution(pending));
    forall x ensures CurrentAttribution(pending)(x) <==> ConcernsPending(pending, x) {
      RestsOnPending(pending, x);
    }
  }

  lemma KeptRowsAre(out: Output, pending: seq<Attempt>)
    ensures var kept := Kept(out, pending);
            && (forall x :: x in kept.raw
                  <==> x in out.raw && (x.recordId in RecordIds(pending) || x.deliveryId in DeliveryIds(pending)))
            && (forall x :: x in kept.deliveries
                  <==> x in out.deliveries && (x.recordId in RecordIds(pending) || x.deliveryId in DeliveryIds(pending)))
            && (forall x :: x in kept.rejections
                  <==> x in out.rejections && (x.recordId in RecordIds(pending) || x.deliveryId in DeliveryIds(pending)))
  {
    FilterMembers(out.raw, CurrentRaw(pending));
    FilterMembers(out.deliveries, CurrentDelivery(pending));
    FilterMembers(out.rejections, CurrentRejection(pending));
  }

  lemma IdsPending(pending: seq<Attempt>, record: string)
    ensures record in RecordIds(pending) <==> Pending(pending, record)
  {
  }

  lemma DeliveriesPending(pending: seq<Attempt>, delivery: string)
    ensures delivery in DeliveryIds(pending) <==> PendingDelivery(pending, delivery)
  {
  }

  lemma RestsOnPending(pending: seq<Attempt>, x: Attribution)
    ensures CurrentAttribution(pending)(x) <==> ConcernsPending(pending, x)
  {
    forall record ensures record in RecordIds(pending) <==> Pending(pending, record) {
      IdsPending(pending, record);
    }
  }

  /** Scopes are ingested in the order of their joined texts. */
  lemma ScopesInOrder(raw: seq<Attempt>, i: nat, j: nat)
    requires i < j < |ScopeList(raw)|
    ensures var a, b := ScopeList(raw)[i], ScopeList(raw)[j];
            a.0 + "\0" + a.1 == b.0 + "\0" + b.1 || TextBefore(a.0 + "\0" + a.1, b.0 + "\0" + b.1)
  {
    var a, b := ScopeList(raw)[i], ScopeList(raw)[j];
    SortSorted(Appearing(raw), ScopeText());
    assert KeyLe(KeyOf([a.0 + "\0" + a.1]), KeyOf([b.0 + "\0" + b.1]));
    assert KeyOf([a.0 + "\0" + a.1])[0] == Utf16(a.0 + "\0" + a.1) && KeyOf([b.0 + "\0" + b.1])[0] == Utf16(b.0 + "\0" + b.1);
    Utf16OrderMeans(a.0 + "\0" + a.1, b.0 + "\0" + b.1);
  }
}
