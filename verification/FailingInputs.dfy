/** Inputs on which a promise of the ingestion does not hold. */
module FailingInputs {
  import opened Outcomes
  import opened Contract
  import opened Sequences
  import opened CanonicalOrder
  import opened LogicalIds
  import opened Decisions
  import opened Attributions
  import opened Evaluation
  import opened Meaning
  import opened Conservation
  import opened Incremental
  import opened ScopeSplit
  import opened Runs
  import opened ImportHistory

  const NoPayload := Payload(None, None, FirstInstall, None, None, None, None, None, NoReferrer, None, None, None, false, None, None,
                             false, false, None, None, None, false, None, None, None, None, false, None, 0, 0, "", "", "")

  /** A click of tenant "t" without consent purpose, received and occurring at one time. */
  function Click(app: string, producer: string, event: string, record: string, delivery: string,
                 time: string): Attempt {
    Attempt(Server("t", app, time, "", [], [], [], None, None, None),
            Record(record, delivery, "t", app, producer, event, EventName.Click, "0.4.0", time, time, None, None, 0, false, false,
                   NoPayload, ""), "b")
  }

  lemma ClickAdmissible(env: Env, app: string, producer: string, event: string, record: string, delivery: string,
                        time: string)
    requires env.parse(time).Some?
    ensures Admissible(env, Click(app, producer, event, record, delivery, time))
  {
  }

  lemma ClickUndemanding(app: string, producer: string, event: string, record: string, delivery: string, time: string)
    ensures Undemanding(Click(app, producer, event, record, delivery, time))
  {
  }

  /** Clicks of one time come in the order of their record IDs, when those are one character long. */
  lemma ClickOrder(env: Env, a: Attempt, b: Attempt)
    requires a.record.receivedAt == b.record.receivedAt && a.record.recordId == "1" && b.record.recordId == "2"
    ensures KeyLe(AttemptKey(env)(a), AttemptKey(env)(b))
  {
    var p := [a.record.receivedAt, a.record.recordId, a.record.deliveryId, a.server.tenantId, a.server.appId,
              a.record.schemaVersion, env.digest(RecordArtifact(a.record))];
    var q := [b.record.receivedAt, b.record.recordId, b.record.deliveryId, b.server.tenantId, b.server.appId,
              b.record.schemaVersion, env.digest(RecordArtifact(b.record))];
    FirstDiffers(p, q);
  }

  lemma FirstDiffers(p: seq<string>, q: seq<string>)
    requires |p| > 1 && |q| > 1 && p[0] == q[0] && p[1] == "1" && q[1] == "2"
    ensures KeyLe(KeyOf(p), KeyOf(q))
  {
    MapAt(p, Utf16);
    MapAt(q, Utf16);
    var k, m := KeyOf(p), KeyOf(q);
    UnitsTotal(k[0], m[0]);
    assert k[1..][0] == Utf16("1") && m[1..][0] == Utf16("2");
    assert Utf16("1") == [49] && Utf16("2") == [50];
  }

  lemma AcceptedAmong(env: Env, a: Attempt, raw: seq<Attempt>)
    requires Injective(env.digest) && a in raw && Admissible(env, a) && OnlyRecord(a, raw)
    requires EarliestOfEvent(env, a, raw)
    ensures LogicalFor(a) in LogicalOf(env, At(env, raw), map[])
  {
    var s := At(env, raw);
    AcceptedExactlyWhen(env, a, raw);
    SortMember(raw, AttemptKey(env), a);
    FilterMember(s, AcceptedUnique(env, s), a);
    var kept := Filter(AcceptedOf(env, s), Retained(map[]));
    FilterMember(AcceptedOf(env, s), Retained(map[]), a);
    MapMember(kept, LogicalFor, LogicalFor(a));
    SortMember(Map(kept, LogicalFor), LogicalKey(env), LogicalFor(a));
  }

  lemma BothAccepted(env: Env, a: Attempt, b: Attempt)
    requires Injective(env.digest) && Admissible(env, a) && Admissible(env, b)
    requires a.record.recordId != b.record.recordId && EventScope(a) != EventScope(b)
    ensures LogicalFor(a) in LogicalOf(env, At(env, [a, b]), map[])
    ensures LogicalFor(b) in LogicalOf(env, At(env, [a, b]), map[])
  {
    forall x | x == a || x == b ensures OnlyRecord(x, [a, b]) && EarliestOfEvent(env, x, [a, b]) {
      assert multiset([a, b]) == multiset{a, b};
      KeyTotal(AttemptKey(env)(x), AttemptKey(env)(x));
    }
    AcceptedAmong(env, a, [a, b]);
    AcceptedAmong(env, b, [a, b]);
  }

  lemma OneByOne(a: Attempt, b: Attempt)
    ensures Together([[a]]) == [a] && Together([[a], [b]]) == [a, b]
  {
    var run := [[a], [b]];
    assert [[a]][..0] == [] && run[..1] == [[a]];
    assert Together([[a]]) == Together([[a]][..0]) + [a];
    assert Together(run) == Together(run[..1]) + [b];
  }

  lemma TwoSteps(env: Env, a: Attempt, b: Attempt)
    requires ComesAfter(env, [a], [b])
    ensures InArrivalOrder(env, [[a], [b]]) && Together([[a], [b]]) == [a, b]
  {
    OneByOne(a, b);
    assert a in [a] && b in [b];
    TwoInOrder(env, [[a], [b]], a, b);
  }

  lemma TwoInOrder(env: Env, calls: seq<seq<Attempt>>, a: Attempt, b: Attempt)
    requires |calls| == 2 && calls[0] == [a] && calls[1] == [b]
    requires KeyLe(AttemptKey(env)(a), AttemptKey(env)(b)) && a.record.recordId != b.record.recordId
    ensures InArrivalOrder(env, calls)
  {
    TwoFresh(calls, a, b);
    KeysInTurn(AttemptKey(env), calls, a, b);
  }

  lemma KeysInTurn<T>(key: T -> Key, calls: seq<seq<T>>, a: T, b: T)
    requires |calls| == 2 && calls[0] == [a] && calls[1] == [b] && KeyLe(key(a), key(b))
    ensures InTurn(calls, key)
  {
  }

  lemma TwoFresh(calls: seq<seq<Attempt>>, a: Attempt, b: Attempt)
    requires |calls| == 2 && calls[0] == [a] && calls[1] == [b] && a.record.recordId != b.record.recordId
    ensures FreshCalls(calls)
  {
    AloneInScope(a);
    AloneInScope(b);
  }

  lemma AloneInScope(a: Attempt)
    ensures IdsStayInScope([a])
  {
  }

  // ---- When an evaluation throws ----

  /** Neither a refund nor under a policy, and an install's attribution needs no other record. */
  predicate Undemanding(a: Attempt) {
    && ProviderMatches(a) && AnchorSourceAllowed(a) && a.server.stale.None? && a.server.injection.None? && !a.record.event.Refund?
    && a.record.payload.metaStatus.None? && a.record.payload.lookup.None? && a.record.payload.referrer.NoReferrer?
  }

  lemma InstallsDecide(env: Env, raw: seq<Attempt>)
    requires forall a :: a in raw ==> Undemanding(a)
    ensures Evaluable(env, At(env, raw)) <==> AnchorsHold(Filter(AcceptedOf(env, At(env, raw)), IsInstall))
  {
    var s := At(env, raw);
    forall a | a in s ensures Undemanding(a) {
      SortMember(raw, AttemptKey(env), a);
    }
    assert ChecksPass(env, s);
    forall a | a in AcceptedOf(env, s) ensures InstallVerdict(env, a, AcceptedOf(env, s)).Ok? {
      FilterMember(s, AcceptedUnique(env, s), a);
    }
  }

  lemma InstallFrom(env: Env, raw: seq<Attempt>, a: Attempt)
    ensures a in Filter(AcceptedOf(env, At(env, raw)), IsInstall) ==> a in raw && IsInstall(a)
  {
    FilterMember(AcceptedOf(env, At(env, raw)), IsInstall, a);
    FilterMember(At(env, raw), AcceptedUnique(env, At(env, raw)), a);
    SortMember(raw, AttemptKey(env), a);
  }

  lemma NoInstallEvaluable(env: Env, raw: seq<Attempt>)
    requires forall a :: a in raw ==> Undemanding(a) && !IsInstall(a)
    ensures Evaluable(env, At(env, raw))
  {
    InstallsDecide(env, raw);
    forall a ensures a in Filter(AcceptedOf(env, At(env, raw)), IsInstall) ==> a in raw && IsInstall(a) {
      InstallFrom(env, raw, a);
    }
  }

  lemma {:induction false} AllTaken<T>(xs: seq<T>, keep: T -> bool)
    requires forall x :: x in xs ==> keep(x)
    ensures TakeWhile(xs, keep) == xs
  {
    if xs != [] {
      AllTaken(xs[1..], keep);
    }
  }

  lemma NoInstallsNothingThrown(env: Env, calls: seq<seq<Attempt>>)
    requires forall a :: a in Together(calls) ==> Undemanding(a) && !IsInstall(a)
    ensures NothingThrown(env, calls)
  {
    forall k, sc | 0 <= k < |calls| && sc in ScopeList(calls[k])
      ensures EvaluableIn(env, HistoryBefore(env, calls, k), calls[k])(sc)
    {
      forall a | a in Evaluated(env, calls, k, sc) ensures a in Together(calls) {
        EvaluatedFrom(env, calls, k, sc, a);
      }
      NoInstallEvaluable(env, Evaluated(env, calls, k, sc));
    }
    forall k | 0 <= k < |calls| ensures StoredAt(env, calls, k) == ScopeList(calls[k]) {
      AllTaken(ScopeList(calls[k]), EvaluableIn(env, HistoryBefore(env, calls, k), calls[k]));
    }
  }

  lemma NothingStored(env: Env, calls: seq<seq<Attempt>>, x: Attempt)
    requires |calls| > 0 && calls[0] == [x] && !Evaluable(env, At(env, [x]))
    ensures Dropped(env, calls, 0, x)
  {
    ScopeListMeans([x]);
    assert calls[..0] == [];
    assert [x][1..] == [] && Own([], Scope(x)) == [] && Own([x], Scope(x)) == [x];
    assert Own([], Scope(x)) + Own([x], Scope(x)) == [x];
    WhileWithin(ScopeList([x]), EvaluableIn(env, [], [x]));
  }

  // ---- Two events with one logical event ID ----

  lemma SharedIdsClash(env: Env, a: Attempt, b: Attempt)
    requires Injective(env.digest) && Admissible(env, a) && Admissible(env, b) && ComesAfter(env, [a], [b])
    requires a.record.recordId != b.record.recordId && EventScope(a) != EventScope(b)
    requires LogicalFor(a).logicalEventId == LogicalFor(b).logicalEventId
    requires Undemanding(a) && Undemanding(b) && !IsInstall(a) && !IsInstall(b)
    ensures InArrivalOrder(env, [[a], [b]]) && NothingThrown(env, [[a], [b]]) && Together([[a], [b]]) == [a, b]
    ensures !Holds(After(env, [[a], [b]], map[]).table, OneShot(env, [[a], [b]], map[]))
  {
    TwoSteps(env, a, b);
    BothAccepted(env, a, b);
    assert LogicalFor(a).recordId != LogicalFor(b).recordId;
    NoInstallsNothingThrown(env, [[a], [b]]);
    RunAgreesExactlyWhenIdsDiffer(env, [[a], [b]], map[]);
  }

  /** The separator may stand in an application's or an event's identifier. */
  lemma SeparatorMoves(tenant: string, app: string, p: string, q: string, event: string)
    ensures LogicalId(tenant, app, p, q + ":" + event) == LogicalId(tenant, app + ":" + p, q, event)
  {
    var prefix := "logical:" + tenant + ":" + app + ":";
    assert LogicalId(tenant, app, p, q + ":" + event) == prefix + p + ":" + q + ":" + event;
    assert LogicalId(tenant, app + ":" + p, q, event) == prefix + p + ":" + q + ":" + event;
  }

  lemma SharedId()
    ensures LogicalId("t", "a", "redirector", "sdk-ios:e") == LogicalId("t", "a:redirector", "sdk-ios", "e")
  {
    SeparatorMoves("t", "a", "redirector", "sdk-ios", "e");
    assert "sdk-ios" + ":" + "e" == "sdk-ios:e" && "a" + ":" + "redirector" == "a:redirector";
  }

  /** One after the other, with records "1" and "2". */
  lemma OneThenOther(env: Env, a: Attempt, b: Attempt)
    requires a.record.receivedAt == b.record.receivedAt && a.record.recordId == "1" && b.record.recordId == "2"
    ensures ComesAfter(env, [a], [b]) && a.record.recordId != b.record.recordId
  {
    ClickOrder(env, a, b);
  }

  /**
   Two applications of one tenant, with producers and identifiers the contract allows: both clicks are accepted, but
   they share a logical event ID, no call throws, and the table keeps one of them.
   */
  lemma SharedIdLosesEvent(env: Env, time: string) returns (a: Attempt, b: Attempt)
    requires Injective(env.digest) && env.parse(time).Some?
    ensures ContractProducer(a.record.producer) && ContractProducer(b.record.producer)
    ensures a.server.tenantId == b.server.tenantId && a.record.recordId != b.record.recordId
    ensures InArrivalOrder(env, [[a], [b]]) && NothingThrown(env, [[a], [b]]) && Together([[a], [b]]) == [a, b]
    ensures !Holds(After(env, [[a], [b]], map[]).table, OneShot(env, [[a], [b]], map[]))
  {
    a := Click("a", "redirector", "sdk-ios:e", "1", "d1", time);
    b := Click("a:redirector", "sdk-ios", "e", "2", "d2", time);
    ClickAdmissible(env, "a", "redirector", "sdk-ios:e", "1", "d1", time);
    ClickAdmissible(env, "a:redirector", "sdk-ios", "e", "2", "d2", time);
    ClickUndemanding("a", "redirector", "sdk-ios:e", "1", "d1", time);
    ClickUndemanding("a:redirector", "sdk-ios", "e", "2", "d2", time);
    OneThenOther(env, a, b);
    SharedId();
    assert |a.server.appId| != |b.server.appId|;
    SharedIdsClash(env, a, b);
  }

  lemma RepeatedDelivery(env: Env, h: Attempt, p: Attempt)
    requires ComesAfter(env, [h], [p]) && h.record.deliveryId == p.record.deliveryId
    requires Undemanding(h) && Undemanding(p) && !IsInstall(h) && !IsInstall(p)
    ensures Evaluable(env, At(env, [h])) && Evaluable(env, At(env, [h] + [p]))
    ensures multiset(DeliveriesOf(env, At(env, [h] + [p]), []))
         != multiset(DeliveriesOf(env, At(env, [h]), [])) + multiset(KeptDeliveries(env, [h], [p]))
  {
    DeliveriesAgreeExactlyWhenIdsAreFresh(env, [h], [p]);
    assert h in [h] && p in [p];
    NoInstallEvaluable(env, [h]);
    NoInstallEvaluable(env, [h] + [p]);
  }

  lemma ImportProducer()
    ensures ContractProducer("import:provider")
  {
    assert "import:provider"[7..] == "provider";
  }

  /**
   One imported row delivered again with a new record ID, as when a file is imported under two sources: the delivery
   is appended a second time.
   */
  lemma ReusedDeliveryIdRepeats(env: Env, time: string) returns (h: Attempt, p: Attempt)
    ensures ContractProducer(h.record.producer) && ContractProducer(p.record.producer)
    ensures h.record.recordId != p.record.recordId
    ensures ComesAfter(env, [h], [p])
    ensures Evaluable(env, At(env, [h])) && Evaluable(env, At(env, [h] + [p]))
    ensures multiset(DeliveriesOf(env, At(env, [h] + [p]), []))
         != multiset(DeliveriesOf(env, At(env, [h]), [])) + multiset(KeptDeliveries(env, [h], [p]))
  {
    h := Click("a", "import:provider", "e", "1", "d", time);
    p := Click("a", "import:provider", "e", "2", "d", time);
    ClickUndemanding("a", "import:provider", "e", "1", "d", time);
    ClickUndemanding("a", "import:provider", "e", "2", "d", time);
    OneThenOther(env, h, p);
    ImportProducer();
    RepeatedDelivery(env, h, p);
  }

  // ---- A reinstall that is ingested before the install it names ----

  /** An install of tenant "t", without referrer and consent purpose. */
  function Install(producer: string, installation: string, kind: InstallType, prior: Option<string>, event: string,
                   record: string, time: string): Attempt {
    Attempt(Server("t", "a", time, "", [], [], [], None, None, None),
            Record(record, record, "t", "a", producer, event, EventName.Install, "0.4.0", time, time, None, None, 0, false, false,
                   NoPayload.(installationId := Some(installation), installType := kind, priorInstallationId := prior), ""), "b")
  }

  lemma InstallAdmissible(env: Env, producer: string, installation: string, kind: InstallType, prior: Option<string>,
                          event: string, record: string, time: string)
    requires env.parse(time).Some?
    ensures Admissible(env, Install(producer, installation, kind, prior, event, record, time))
    ensures Undemanding(Install(producer, installation, kind, prior, event, record, time))
  {
  }

  lemma AllAccepted(env: Env, raw: seq<Attempt>)
    requires Injective(env.digest)
    requires forall a :: a in raw ==> Accepts(env, a, raw) && IsInstall(a)
    ensures Filter(AcceptedOf(env, At(env, raw)), IsInstall) == At(env, raw)
  {
    var s := At(env, raw);
    forall a | a in s ensures AcceptedUnique(env, s)(a) && IsInstall(a) {
      SortMember(raw, AttemptKey(env), a);
      AcceptedExactlyWhen(env, a, raw);
    }
    FilterAll(s, AcceptedUnique(env, s));
    FilterAll(s, IsInstall);
  }

  lemma BothAccept(env: Env, a: Attempt, b: Attempt)
    requires Admissible(env, a) && Admissible(env, b) && a.record.recordId != b.record.recordId
    requires EventScope(a) != EventScope(b)
    ensures forall x :: x in [a, b] ==> Accepts(env, x, [a, b])
  {
    forall x | x in [a, b] ensures Accepts(env, x, [a, b]) {
      assert multiset([a, b]) == multiset{a, b};
      KeyTotal(AttemptKey(env)(x), AttemptKey(env)(x));
    }
  }

  lemma AloneAccepts(env: Env, a: Attempt)
    requires Admissible(env, a)
    ensures Accepts(env, a, [a])
  {
    assert multiset([a]) == multiset{a};
    KeyTotal(AttemptKey(env)(a), AttemptKey(env)(a));
  }

  /**
   A reinstall whose prior installation is another one's throws alone, and does not throw beside the first install
   it names.
   */
  ghost predicate FirstInstallOf(a: Attempt) {
    && IsInstall(a) && a.record.payload.installType.FirstInstall? && a.record.payload.priorInstallationId.None?
    && Given(a.record.payload.installationId)
  }

  /** A reinstall of another installation than the one it names as its prior. */
  ghost predicate ReinstallAfter(b: Attempt, a: Attempt) {
    && IsInstall(b) && b.record.payload.installType.Reinstall? && b.record.payload.priorInstallationId == a.record.payload.installationId
    && b.record.payload.installationId.Some? && a.record.payload.installationId != b.record.payload.installationId
    && Scope(a) == Scope(b) && EventScope(a) != EventScope(b) && a.record.recordId != b.record.recordId
  }

  lemma ReinstallThrowsAlone(env: Env, b: Attempt, a: Attempt)
    requires Injective(env.digest) && Admissible(env, b) && Undemanding(b) && FirstInstallOf(a) && ReinstallAfter(b, a)
    ensures !Evaluable(env, At(env, [b]))
  {
    AloneAccepts(env, b);
    AllAccepted(env, [b]);
    InstallsDecide(env, [b]);
    SingleSorted(env, b);
    assert b in [b] && !AnchorRules(b, [b]);
  }

  lemma FirstInstallEvaluable(env: Env, a: Attempt)
    requires Injective(env.digest) && Admissible(env, a) && Undemanding(a) && FirstInstallOf(a)
    ensures Evaluable(env, At(env, [a]))
  {
    AloneAccepts(env, a);
    AllAccepted(env, [a]);
    InstallsDecide(env, [a]);
    SingleSorted(env, a);
    assert [a][1..] == [] && Map([a], InstallKey) == [InstallKey(a)];
  }

  /** Beside the first install it names, whichever comes first, a reinstall does not throw. */
  lemma ReinstallEvaluable(env: Env, b: Attempt, a: Attempt, x: Attempt, y: Attempt)
    requires Injective(env.digest) && Admissible(env, a) && Admissible(env, b) && Undemanding(a) && Undemanding(b)
    requires FirstInstallOf(a) && ReinstallAfter(b, a) && ((x == a && y == b) || (x == b && y == a))
    requires ComesAfter(env, [x], [y])
    ensures Evaluable(env, At(env, [x, y]))
  {
    BothAccept(env, x, y);
    AllAccepted(env, [x, y]);
    InstallsDecide(env, [x, y]);
    PairSorted(env, x, y);
    PairAnchors(b, a, x, y);
  }

  lemma PairSorted(env: Env, x: Attempt, y: Attempt)
    requires ComesAfter(env, [x], [y])
    ensures At(env, [x, y]) == [x, y]
  {
    SplitsAtHistory(env, [x], [y]);
    SingleSorted(env, x);
    SingleSorted(env, y);
    assert [x] + [y] == [x, y];
  }

  lemma SingleSorted(env: Env, a: Attempt)
    ensures At(env, [a]) == [a]
  {
    SortMember([a], AttemptKey(env), a);
  }

  lemma PairAnchors(b: Attempt, a: Attempt, x: Attempt, y: Attempt)
    requires FirstInstallOf(a) && ReinstallAfter(b, a) && ((x == a && y == b) || (x == b && y == a))
    ensures AnchorsHold([x, y])
  {
    assert [x, y][1..] == [y] && [y][1..] == [];
    assert Map([y], InstallKey) == [InstallKey(y)];
    assert Map([x, y], InstallKey) == [InstallKey(x), InstallKey(y)];
    assert a in [x, y] && InstallKey(a) != InstallKey(b);
  }

  /**
   A reinstall in the first call, the first install it names in the second: the first call throws, so its event is never
   stored, although one evaluation of both accepts and keeps both.
   */
  lemma ReinstallBeforeInstall(env: Env, time: string) returns (b: Attempt, a: Attempt)
    requires Injective(env.digest) && env.parse(time).Some?
    ensures ContractProducer(a.record.producer) && ContractProducer(b.record.producer) && OneScope(Together([[b], [a]]))
    ensures InArrivalOrder(env, [[b], [a]]) && Together([[b], [a]]) == [b, a]
    ensures !Evaluable(env, At(env, [b])) && Evaluable(env, At(env, [b, a]))
    ensures LogicalFor(b) in OneShot(env, [[b], [a]], map[])
    ensures !Holds(After(env, [[b], [a]], map[]).table, OneShot(env, [[b], [a]], map[]))
  {
    b, a := InstallPair(env, "sdk-ios", "1", "2", time);
    OneThenOther(env, b, a);
    ReinstallThrowsAlone(env, b, a);
    ReinstallEvaluable(env, b, a, b, a);
    DroppedIsLost(env, b, a);
  }

  /** A reinstall and the first install it names. */
  lemma InstallPair(env: Env, producer: string, reinstall: string, install: string, time: string)
    returns (b: Attempt, a: Attempt)
    requires env.parse(time).Some? && reinstall != install
    ensures b.record.recordId == reinstall && a.record.recordId == install
    ensures a.record.producer == producer && b.record.producer == producer
    ensures a.record.receivedAt == b.record.receivedAt
    ensures Admissible(env, a) && Undemanding(a) && Admissible(env, b) && Undemanding(b)
    ensures FirstInstallOf(a) && ReinstallAfter(b, a)
  {
    b := Install(producer, "i2", Reinstall, Some("i1"), "e2", reinstall, time);
    a := Install(producer, "i1", FirstInstall, None, "e1", install, time);
    InstallAdmissible(env, producer, "i2", Reinstall, Some("i1"), "e2", reinstall, time);
    InstallAdmissible(env, producer, "i1", FirstInstall, None, "e1", install, time);
    assert "i1"[1] != "i2"[1] && "e1"[1] != "e2"[1];
  }

  lemma DroppedIsLost(env: Env, b: Attempt, a: Attempt)
    requires Injective(env.digest) && Admissible(env, a) && Admissible(env, b) && ComesAfter(env, [b], [a])
    requires EventScope(a) != EventScope(b) && !Evaluable(env, At(env, [b])) && OneScope([b, a])
    ensures InArrivalOrder(env, [[b], [a]]) && Together([[b], [a]]) == [b, a]
    ensures LogicalFor(b) in OneShot(env, [[b], [a]], map[])
    ensures !Holds(After(env, [[b], [a]], map[]).table, OneShot(env, [[b], [a]], map[]))
  {
    TwoSteps(env, b, a);
    BothAccept(env, b, a);
    BothAccepted(env, b, a);
    NothingStored(env, [[b], [a]], b);
    RunAgreesExactlyWhenDropsAreImmaterial(env, [[b], [a]], map[]);
    assert b in [b, a] && !Immaterial(env, [[b], [a]], map[], b);
  }

  // ---- Imports ----

  /**
   An imported reinstall, evaluated with all history, finds the earlier install it names. With the history of its own
   event only, as the import evaluates it, it throws.
   */
  lemma ImportedReinstallThrows(env: Env, time: string) returns (a: Attempt, b: Attempt)
    requires Injective(env.digest) && env.parse(time).Some?
    ensures a.record.producer == "import:provider" && b.record.producer == "import:provider" && Scope(a) == Scope(b)
    ensures NewRecords([a], [b]) && ComesAfter(env, [a], [b])
    ensures Evaluable(env, At(env, [a])) && Evaluable(env, At(env, [a] + [b]))
    ensures !Evaluable(env, At(env, ChunkHistory([a], [b]) + [b]))
  {
    b, a := InstallPair(env, "import:provider", "2", "1", time);
    OneThenOther(env, a, b);
    FirstInstallEvaluable(env, a);
    ReinstallEvaluable(env, b, a, a, b);
    assert [a] + [b] == [a, b];
    ReinstallThrowsAlone(env, b, a);
    OtherEventForgotten(a, b);
  }

  lemma OtherEventForgotten(a: Attempt, b: Attempt)
    requires EventScope(a) != EventScope(b)
    ensures ChunkHistory([a], [b]) + [b] == [b]
  {
    assert EventsOf([b]) == {EventScope(b)};
    FilterNone([a], OfChunk([b]));
  }

  /** Two deliveries of one event, the later call's before the earlier call's in canonical order. */
  lemma LaterCallSortsFirst(env: Env, a: Attempt, b: Attempt)
    requires Injective(env.digest) && Admissible(env, a) && Admissible(env, b) && EventScope(a) == EventScope(b)
    requires ComesAfter(env, [b], [a]) && OneScope([a]) && Undemanding(a) && Undemanding(b) && !IsInstall(a)
    requires !IsInstall(b)
    ensures AcceptedUnique(env, At(env, [a]))(a) && AcceptedUnique(env, At(env, [a] + [b]))(b)
    ensures !AcceptedUnique(env, At(env, [a] + [b]))(a)
    ensures !Holds(After(env, [[a], [b]], map[]).table, OneShot(env, [[a], [b]], map[]))
  {
    BothOfOneEvent(env, a, b);
    AloneAccepts(env, a);
    AcceptedExactlyWhen(env, a, [a]);
    AcceptedExactlyWhen(env, a, [a] + [b]);
    AcceptedExactlyWhen(env, b, [a] + [b]);
    FirstCallStays(env, a, b);
    LogicalMember(env, [a] + [b], map[], LogicalFor(a));
    forall x ensures !Behind(env, [a] + [b], map[], x, LogicalFor(a)) {
      assert x == b ==> LogicalFor(x).recordId != LogicalFor(a).recordId;
    }
  }

  lemma BothOfOneEvent(env: Env, a: Attempt, b: Attempt)
    requires Injective(env.digest) && EventScope(a) == EventScope(b) && ComesAfter(env, [b], [a]) && Admissible(env, b)
    ensures Accepts(env, b, [a] + [b]) && !EarliestOfEvent(env, a, [a] + [b])
  {
    assert multiset([a] + [b]) == multiset{a, b} && b in [b] && a in [a];
    KeyTotal(AttemptKey(env)(b), AttemptKey(env)(b));
    KeyTotal(AttemptKey(env)(a), AttemptKey(env)(b));
    if EarliestOfEvent(env, a, [a] + [b]) {
      assert b in [a] + [b];
      AttemptKeyTies(env, a, b);
    }
  }

  /** The first call stores its event, and the row stays. */
  lemma FirstCallStays(env: Env, a: Attempt, b: Attempt)
    requires Injective(env.digest) && Admissible(env, a) && OneScope([a]) && Undemanding(a) && !IsInstall(a)
    ensures Together([[a], [b]]) == [a] + [b]
    ensures var table := After(env, [[a], [b]], map[]).table;
            LogicalFor(a).logicalEventId in table && table[LogicalFor(a).logicalEventId] == LogicalFor(a)
  {
    var run := [[a], [b]];
    assert run[..1] == [[a]];
    OneByOne(a, b);
    OneCallStores(env, a);
    LedgerOnlyGrows(env, run, 1, map[], LogicalFor(a).logicalEventId);
  }

  lemma OneCallStores(env: Env, a: Attempt)
    requires Injective(env.digest) && Admissible(env, a) && OneScope([a]) && Undemanding(a) && !IsInstall(a)
    ensures var table := After(env, [[a]], map[]).table;
            LogicalFor(a).logicalEventId in table && table[LogicalFor(a).logicalEventId] == LogicalFor(a)
  {
    OneByOne(a, a);
    AloneAccepts(env, a);
    AcceptedAmong(env, a, [a]);
    NoInstallsNothingThrown(env, [[a]]);
    OneCallInOrder(env, a);
    RunAgreesInOneScope(env, [[a]], map[]);
  }

  lemma OneCallInOrder(env: Env, a: Attempt)
    ensures InArrivalOrder(env, [[a]])
  {
    AloneInScope(a);
  }

  /**
   Two rows of one imported file with one event ID, in different chunks. Both chunks are received at one time, so the
   canonical order is that of the record IDs, which are digests. If the later row's sorts first, each chunk accepts its
   row as the event's one delivery, and the table keeps the row that one evaluation of both decides to be the duplicate.
   */
  lemma LaterChunkSortsFirst(env: Env, time: string) returns (a: Attempt, b: Attempt)
    requires Injective(env.digest) && env.parse(time).Some?
    ensures a.record.producer == "import:provider" && a.record.receivedAt == b.record.receivedAt
    ensures EventScope(a) == EventScope(b) && NewRecords([a], [b]) && ChunkHistory([a], [b]) == [a]
    ensures AcceptedUnique(env, At(env, [a]))(a) && AcceptedUnique(env, At(env, ChunkHistory([a], [b]) + [b]))(b)
    ensures !AcceptedUnique(env, At(env, [a] + [b]))(a)
    ensures !Holds(After(env, [[a], [b]], map[]).table, OneShot(env, [[a], [b]], map[]))
  {
    a := Click("a", "import:provider", "e", "2", "d1", time);
    b := Click("a", "import:provider", "e", "1", "d2", time);
    ClickAdmissible(env, "a", "import:provider", "e", "2", "d1", time);
    ClickAdmissible(env, "a", "import:provider", "e", "1", "d2", time);
    ClickUndemanding("a", "import:provider", "e", "2", "d1", time);
    ClickUndemanding("a", "import:provider", "e", "1", "d2", time);
    OneThenOther(env, b, a);
    ImportProducer();
    SameEventKept(a, b);
    LaterCallSortsFirst(env, a, b);
  }

  lemma SameEventKept(a: Attempt, b: Attempt)
    requires EventScope(a) == EventScope(b)
    ensures ChunkHistory([a], [b]) == [a]
  {
    assert b in [b] && EventScope(b) in EventsOf([b]);
    FilterAll([a], OfChunk([b]));
  }
}
