/** Storing logical events and their fact rows: attempt by attempt, and in bulk by table and by chunk. */
module BulkProjection {
  import opened Outcomes
  import opened Contract
  import opened Sequences
  import opened CanonicalOrder
  import opened Decisions
  import opened Evaluation
  import opened Conservation
  import opened Incremental
  import opened FactRows

  type Tables = map<Place, Fact>

  /**
   What projection reads elsewhere: the attempts' bodies, registered links, and days since an installation's last
   session.
   */
  datatype World = World(
    body: Attempt -> Body, links: set<(string, string, string)>, days: (Tables, LogicalEvent, Attempt) -> Value)

  /** Insert if absent. */
  function Put(t: Tables, f: Fact): Tables { if f.place in t then t else t[f.place := f] }

  function PutAll(t: Tables, rows: seq<Fact>): Tables {
    if rows == [] then t else Put(PutAll(t, rows[..|rows| - 1]), rows[|rows| - 1])
  }

  // ---- One attempt at a time ----

  predicate Supplies(a: Attempt, l: LogicalEvent) {
    a.server.tenantId == l.tenantId && a.server.appId == l.appId && a.record.recordId == l.recordId
  }

  function FirstAttempt(input: seq<Attempt>, l: LogicalEvent): Option<Attempt> {
    if input == [] then None else if Supplies(input[0], l) then Some(input[0]) else FirstAttempt(input[1..], l)
  }

  function TrackingLink(l: LogicalEvent, a: Attempt, w: World): Value {
    var link := Get(w.body(a).payload, TrackingLinkId);
    if a.record.producer == "redirector" && link.Text? && (l.tenantId, l.appId, link.text) in w.links then link
        else Null
  }

  function RowOf(l: LogicalEvent, a: Attempt, w: World, days: Value): Option<Fact> {
    FactRow(l, a.record, w.body(a), TrackingLink(l, a, w), days)
  }

  datatype Outcome = Outcome(tables: Tables, failed: bool)
  type Step = (Tables, LogicalEvent) -> Outcome

  function Listed(f: Option<Fact>): seq<Fact> { if f.Some? then [f.value] else [] }

  /** The fact row of one event, its attempt being the first one listed. */
  function ProjectStep(input: seq<Attempt>, w: World): Step {
    (t, l) =>
      match FirstAttempt(input, l)
      case None => Outcome(t, true)
      case Some(a) => Outcome(PutAll(t, Listed(RowOf(l, a, w, w.days(t, l, a)))), false)
  }

  /** The transaction of one attempt: the logical event and then its fact row, or neither. */
  function StoreStep(input: seq<Attempt>, w: World): Step {
    (t, l) =>
      var projected := ProjectStep(input, w)(Put(t, LogicalRow(l)), l);
      if projected.failed then Outcome(t, true) else projected
  }

  /** In turn, until one fails. */
  function Each(t: Tables, ls: seq<LogicalEvent>, step: Step): Outcome {
    if ls == [] then Outcome(t, false)
    else
      var before := Each(t, ls[..|ls| - 1], step);
      if before.failed then before else step(before.tables, ls[|ls| - 1])
  }

  function LastOf(ls: seq<LogicalEvent>, record: string): Option<LogicalEvent> {
    if ls == [] then None
    else if ls[|ls| - 1].recordId == record then Some(ls[|ls| - 1])
    else LastOf(ls[..|ls| - 1], record)
  }

  /** The logical events found while going through the attempts. */
  function LookedUp(order: seq<Attempt>, ls: seq<LogicalEvent>): seq<LogicalEvent> {
    if order == [] then []
    else
      var found := LastOf(ls, order[|order| - 1].record.recordId);
      LookedUp(order[..|order| - 1], ls) + if found.Some? then [found.value] else []
  }

  // ---- In bulk ----

  datatype Route = Nowhere | Fallback | Row(fact: Fact)

  /** Where the bulk writer sends an event: redirector clicks and deep-link opens are left to the other writer. */
  function RouteOf(l: LogicalEvent, a: Attempt, w: World): Route {
    if l.event.DeepLinkOpen? || (l.event.Click? && a.record.producer == "redirector") then Fallback
    else
      match FactRow(l, a.record, w.body(a), Null, Null)
      case None => Nowhere
      case Some(f) => Row(f)
  }

  /** The last attempt wins, as when a map is filled from a list. */
  function LastAttempt(input: seq<Attempt>, l: LogicalEvent): Option<Attempt> {
    if input == [] then None
    else if Supplies(input[|input| - 1], l) then Some(input[|input| - 1])
    else LastAttempt(input[..|input| - 1], l)
  }

  predicate Supplied(ls: seq<LogicalEvent>, input: seq<Attempt>) {
    forall i :: 0 <= i < |ls| ==> LastAttempt(input, ls[i]).Some?
  }

  function Router(input: seq<Attempt>, w: World): LogicalEvent -> Route {
    l => match LastAttempt(input, l) case None => Nowhere case Some(a) => RouteOf(l, a, w)
  }

  function RowIn(route: Route, table: Table): seq<Fact> {
    if route.Row? && route.fact.place.table == table then [route.fact] else []
  }

  /** The rows collected for one table, in the events' order. */
  function RowsOf(ls: seq<LogicalEvent>, route: LogicalEvent -> Route, table: Table): seq<Fact> {
    if ls == [] then [] else RowsOf(ls[..|ls| - 1], route, table) + RowIn(route(ls[|ls| - 1]), table)
  }

  function FallbackOf(ls: seq<LogicalEvent>, route: LogicalEvent -> Route): seq<LogicalEvent> {
    if ls == [] then []
    else FallbackOf(ls[..|ls| - 1], route) + if route(ls[|ls| - 1]).Fallback? then [ls[|ls| - 1]] else []
  }

  datatype Projections = Projections(order: seq<Table>, byTable: map<Table, seq<Fact>>, fallback: seq<LogicalEvent>)

  ghost predicate Ordered(p: Projections) { Distinct(p.order) && forall t :: t in p.order <==> t in p.byTable }

  ghost predicate Collected(p: Projections, ls: seq<LogicalEvent>, route: LogicalEvent -> Route) {
    && Ordered(p)
    && (forall t :: RowsListed(p, t) == RowsOf(ls, route, t))
    && p.fallback == FallbackOf(ls, route)
  }

  function RowsListed(p: Projections, t: Table): seq<Fact> { if t in p.byTable then p.byTable[t] else [] }

  function Sent(p: Projections, l: LogicalEvent, route: Route): Projections {
    match route
    case Nowhere => p
    case Fallback => p.(fallback := p.fallback + [l])
    case Row(f) =>
      p.(order := if f.place.table in p.byTable then p.order else p.order + [f.place.table],
         byTable := p.byTable[f.place.table := RowsListed(p, f.place.table) + [f]])
  }

  method BulkProjectionRows(logicals: seq<LogicalEvent>, input: seq<Attempt>, w: World) returns (r: Result<Projections>)
    ensures r.Ok? <==> Supplied(logicals, input)
    ensures r.Ok? ==> Collected(r.value, logicals, Router(input, w))
  {
    var p := Projections([], map[], []);
    ghost var route := Router(input, w);
    for i := 0 to |logicals|
      invariant Supplied(logicals[..i], input) && Collected(p, logicals[..i], route)
    {
      var l := logicals[i];
      var attempt := LastAttempt(input, l);
      if attempt.None? {
        return Err;
      }
      ghost var before := p;
      p := Send(p, l, RouteOf(l, attempt.value, w));
      SentCollects(before, logicals[..i], l, route);
      assert logicals[..i + 1] == logicals[..i] + [l];
    }
    assert logicals[..|logicals|] == logicals;
    return Ok(p);
  }

  method Send(p: Projections, l: LogicalEvent, route: Route) returns (q: Projections)
    ensures q == Sent(p, l, route)
  {
    match route
    case Nowhere => return p;
    case Fallback => return p.(fallback := p.fallback + [l]);
    case Row(f) =>
      var rows := if f.place.table in p.byTable then p.byTable[f.place.table] else [];
      var order := if f.place.table in p.byTable then p.order else p.order + [f.place.table];
      return p.(order := order, byTable := p.byTable[f.place.table := rows + [f]]);
  }

  lemma SentCollects(p: Projections, ls: seq<LogicalEvent>, l: LogicalEvent, route: LogicalEvent -> Route)
    requires Collected(p, ls, route)
    ensures Collected(Sent(p, l, route(l)), ls + [l], route)
  {
    assert (ls + [l])[..|ls|] == ls;
    SentOrdered(p, l, route(l));
    forall t ensures RowsListed(Sent(p, l, route(l)), t) == RowsOf(ls + [l], route, t) {
      SentLists(p, l, route(l), t);
    }
  }

  lemma SentOrdered(p: Projections, l: LogicalEvent, route: Route)
    requires Ordered(p)
    ensures Ordered(Sent(p, l, route))
  {
  }

  lemma SentLists(p: Projections, l: LogicalEvent, route: Route, t: Table)
    ensures RowsListed(Sent(p, l, route), t) == RowsListed(p, t) + RowIn(route, t)
  {
  }

  /** All rows, table after table. */
  function ByTable(p: Projections, n: nat): seq<Fact>
    requires n <= |p.order| && forall t :: t in p.order ==> t in p.byTable
  {
    if n == 0 then [] else ByTable(p, n - 1) + p.byTable[p.order[n - 1]]
  }

  /** Logical events, then table after table, then the fallbacks one by one. */
  function BulkAfter(t: Tables, ls: seq<LogicalEvent>, p: Projections, input: seq<Attempt>, w: World): Outcome
    requires forall t :: t in p.order ==> t in p.byTable
  {
    Each(PutAll(PutAll(t, Map(ls, LogicalRow)), ByTable(p, |p.order|)), p.fallback, ProjectStep(input, w))
  }

  class LedgerTables {
    var rows: Tables

    /** An existing row stays. */
    method Insert(f: Fact)
      modifies this
      ensures rows == Put(old(rows), f)
    {
      if f.place !in rows {
        rows := rows[f.place := f];
      }
    }

    method PersistProjection(l: LogicalEvent, input: seq<Attempt>, w: World) returns (ok: bool)
      modifies this
      ensures Outcome(rows, !ok) == ProjectStep(input, w)(old(rows), l)
    {
      var attempt := FirstAttempt(input, l);
      if attempt.None? {
        return false;
      }
      var fact := RowOf(l, attempt.value, w, w.days(rows, l, attempt.value));
      PutListed(rows, fact);
      if fact.Some? {
        Insert(fact.value);
      }
      return true;
    }

    /** One transaction; a failure undoes it. */
    method PersistAttempt(l: LogicalEvent, input: seq<Attempt>, w: World) returns (ok: bool)
      modifies this
      ensures Outcome(rows, !ok) == StoreStep(input, w)(old(rows), l)
    {
      var before := rows;
      Insert(LogicalRow(l));
      ok := PersistProjection(l, input, w);
      if !ok {
        rows := before;
      }
    }

    method PersistRowByRow(order: seq<Attempt>, ls: seq<LogicalEvent>, input: seq<Attempt>, w: World) returns (ok: bool)
      modifies this
      ensures Outcome(rows, !ok) == Each(old(rows), LookedUp(order, ls), StoreStep(input, w))
    {
      ghost var step := StoreStep(input, w);
      for i := 0 to |order|
        invariant Outcome(rows, false) == Each(old(rows), LookedUp(order[..i], ls), step)
      {
        var logical := LastOf(ls, order[i].record.recordId);
        if logical.Some? {
          LookedUpNext(old(rows), order, ls, i, step);
          ok := PersistAttempt(logical.value, input, w);
          if !ok {
            return false;
          }
        } else {
          NoneLookedUp(order, ls, i);
        }
      }
      assert order[..|order|] == order;
      return true;
    }

    method InsertJsonRows(facts: seq<Fact>, chunk: nat)
      requires chunk > 0
      modifies this
      ensures rows == PutAll(old(rows), facts)
    {
      var offset := 0;
      while offset < |facts|
        invariant rows == PutAll(old(rows), if offset <= |facts| then facts[..offset] else facts)
        decreases |facts| - offset
      {
        var end := if offset + chunk <= |facts| then offset + chunk else |facts|;
        InsertRows(facts[offset..end]);
        PutAllConcat(old(rows), facts[..offset], facts[offset..end]);
        assert facts[..offset] + facts[offset..end] == facts[..end];
        assert end == |facts| ==> facts[..end] == facts;
        offset := offset + chunk;
      }
      assert facts[..|facts|] == facts;
    }

    /** One statement inserting a list of rows. */
    method InsertRows(facts: seq<Fact>)
      modifies this
      ensures rows == PutAll(old(rows), facts)
    {
      for i := 0 to |facts|
        invariant rows == PutAll(old(rows), facts[..i])
      {
        assert facts[..i + 1][..i] == facts[..i];
        Insert(facts[i]);
      }
      assert facts[..|facts|] == facts;
    }

    method PersistRuntimeBulk(ls: seq<LogicalEvent>, p: Projections, input: seq<Attempt>, w: World,
                              chunk: nat) returns (ok: bool)
      requires chunk > 0 && forall t :: t in p.order ==> t in p.byTable
      modifies this
      ensures Outcome(rows, !ok) == BulkAfter(old(rows), ls, p, input, w)
    {
      InsertJsonRows(Map(ls, LogicalRow), chunk);
      InsertTables(p, chunk);
      ok := PersistFallbacks(p.fallback, input, w);
    }

    method InsertTables(p: Projections, chunk: nat)
      requires chunk > 0 && forall t :: t in p.order ==> t in p.byTable
      modifies this
      ensures rows == PutAll(old(rows), ByTable(p, |p.order|))
    {
      for i := 0 to |p.order|
        invariant rows == PutAll(old(rows), ByTable(p, i))
      {
        InsertJsonRows(p.byTable[p.order[i]], chunk);
        PutAllConcat(old(rows), ByTable(p, i), p.byTable[p.order[i]]);
      }
    }

    method PersistFallbacks(fallback: seq<LogicalEvent>, input: seq<Attempt>, w: World) returns (ok: bool)
      modifies this
      ensures Outcome(rows, !ok) == Each(old(rows), fallback, ProjectStep(input, w))
    {
      ghost var step := ProjectStep(input, w);
      for i := 0 to |fallback|
        invariant Outcome(rows, false) == Each(old(rows), fallback[..i], step)
      {
        EachNext(old(rows), fallback, fallback[..i], fallback[i], step);
        assert fallback[..i + 1] == fallback[..i] + [fallback[i]];
        ok := PersistProjection(fallback[i], input, w);
        if !ok {
          return false;
        }
      }
      assert fallback[..|fallback|] == fallback;
      return true;
    }
  }

  lemma PutListed(t: Tables, f: Option<Fact>)
    ensures PutAll(t, Listed(f)) == if f.Some? then Put(t, f.value) else t
  {
    if f.Some? {
      assert [f.value][..0] == [];
    }
  }

  lemma LookedUpNext(t: Tables, order: seq<Attempt>, ls: seq<LogicalEvent>, i: nat, step: Step)
    requires i < |order| && LastOf(ls, order[i].record.recordId).Some?
    requires !Each(t, LookedUp(order[..i], ls), step).failed
    ensures var before := Each(t, LookedUp(order[..i], ls), step);
            var after := step(before.tables, LastOf(ls, order[i].record.recordId).value);
            && Each(t, LookedUp(order[..i + 1], ls), step) == after
            && (after.failed ==> Each(t, LookedUp(order, ls), step) == after)
  {
    assert order[..i + 1][..i] == order[..i];
    LookedUpPrefix(order, ls, i + 1);
    EachNext(t, LookedUp(order, ls), LookedUp(order[..i], ls), LastOf(ls, order[i].record.recordId).value, step);
  }

  lemma EachNext(t: Tables, all: seq<LogicalEvent>, before: seq<LogicalEvent>, l: LogicalEvent, step: Step)
    requires before + [l] <= all && !Each(t, before, step).failed
    ensures var after := step(Each(t, before, step).tables, l);
            && Each(t, before + [l], step) == after
            && (after.failed ==> Each(t, all, step) == after)
  {
    assert (before + [l])[..|before|] == before;
    assert all[..|before| + 1] == before + [l];
    if Each(t, before + [l], step).failed {
      FailureEnds(t, all, step, |before| + 1);
    }
  }

  lemma NoneLookedUp(order: seq<Attempt>, ls: seq<LogicalEvent>, i: nat)
    requires i < |order| && LastOf(ls, order[i].record.recordId).None?
    ensures LookedUp(order[..i + 1], ls) == LookedUp(order[..i], ls)
  {
    assert order[..i + 1][..i] == order[..i];
  }

  lemma {:induction false} PutAllConcat(t: Tables, a: seq<Fact>, b: seq<Fact>)
    ensures PutAll(t, a + b) == PutAll(PutAll(t, a), b)
    decreases |b|
  {
    if b == [] {
      assert a + b == a;
    } else {
      assert (a + b)[..|a + b| - 1] == a + b[..|b| - 1];
      PutAllConcat(t, a, b[..|b| - 1]);
    }
  }

  lemma {:induction false} FailureEnds(t: Tables, ls: seq<LogicalEvent>, step: Step, n: nat)
    requires n <= |ls| && Each(t, ls[..n], step).failed
    ensures Each(t, ls, step) == Each(t, ls[..n], step)
    decreases |ls|
  {
    if n == |ls| {
      assert ls[..n] == ls;
    } else {
      assert ls[..|ls| - 1][..n] == ls[..n];
      FailureEnds(t, ls[..|ls| - 1], step, n);
    }
  }

  lemma {:induction false} LookedUpPrefix(order: seq<Attempt>, ls: seq<LogicalEvent>, n: nat)
    requires n <= |order|
    ensures LookedUp(order[..n], ls) <= LookedUp(order, ls)
    decreases |order|
  {
    if n == |order| {
      assert order[..n] == order;
    } else {
      assert order[..|order| - 1][..n] == order[..n];
      LookedUpPrefix(order[..|order| - 1], ls, n);
    }
  }

  // ---- What a list of rows leaves ----

  ghost predicate Consistent(fs: seq<Fact>) { forall f, g :: f in fs && g in fs && f.place == g.place ==> f == g }

  lemma {:induction false} PutAllAt(t: Tables, fs: seq<Fact>, p: Place)
    requires Consistent(fs)
    ensures p in PutAll(t, fs) <==> p in t || exists f :: f in fs && f.place == p
    ensures p in t ==> PutAll(t, fs)[p] == t[p]
    ensures p !in t ==> forall f :: f in fs && f.place == p ==> PutAll(t, fs)[p] == f
    decreases |fs|
  {
    if fs != [] {
      var before, last := fs[..|fs| - 1], fs[|fs| - 1];
      assert fs == before + [last];
      PutAllAt(t, before, p);
      assert forall f :: f in fs <==> f in before || f == last;
    }
  }

  /** With one row for each place, only which rows are put matters. */
  lemma PutAllSame(t: Tables, a: seq<Fact>, b: seq<Fact>)
    requires Consistent(a) && forall f :: f in a <==> f in b
    ensures PutAll(t, a) == PutAll(t, b)
  {
    forall p
      ensures (p in PutAll(t, a) <==> p in PutAll(t, b)) && (p in PutAll(t, a) ==> PutAll(t, a)[p] == PutAll(t, b)[p])
    {
      PutAllAt(t, a, p);
      PutAllAt(t, b, p);
    }
  }

  /** All rows without the days since the last session. */
  function BlindAll(t: Tables): Tables { map p | p in t :: Blind(t[p]) }

  lemma {:induction false} BlindPutAll(t: Tables, fs: seq<Fact>)
    ensures BlindAll(PutAll(t, fs)) == PutAll(BlindAll(t), Map(fs, Blind))
    decreases |fs|
  {
    if fs != [] {
      var before, last := fs[..|fs| - 1], fs[|fs| - 1];
      BlindPutAll(t, before);
      MapLast(fs, Blind);
      PutLast(BlindAll(t), Map(before, Blind), Blind(last));
      BlindPut(PutAll(t, before), last);
    }
  }

  lemma BlindPut(t: Tables, f: Fact)
    ensures BlindAll(Put(t, f)) == Put(BlindAll(t), Blind(f))
  {
  }

  lemma PutLast(t: Tables, before: seq<Fact>, f: Fact)
    ensures PutAll(t, before + [f]) == Put(PutAll(t, before), f)
  {
    assert (before + [f])[..|before|] == before;
  }

  type Rows = LogicalEvent -> seq<Fact>

  function RowsFor(ls: seq<LogicalEvent>, rows: Rows): seq<Fact> {
    if ls == [] then [] else RowsFor(ls[..|ls| - 1], rows) + rows(ls[|ls| - 1])
  }

  lemma {:induction false} RowsForMember(ls: seq<LogicalEvent>, rows: Rows, f: Fact)
    ensures f in RowsFor(ls, rows) <==> exists l :: l in ls && f in rows(l)
    decreases |ls|
  {
    if ls != [] {
      RowsForMember(ls[..|ls| - 1], rows, f);
      assert ls == ls[..|ls| - 1] + [ls[|ls| - 1]];
    }
  }

  /** The fact row of an event, without the days. */
  function ProjectedRows(input: seq<Attempt>, w: World): Rows {
    l => match FirstAttempt(input, l) case None => [] case Some(a) => Listed(RowOf(l, a, w, Null))
  }

  /** Every row of an event. */
  function AllRows(input: seq<Attempt>, w: World): Rows { l => [LogicalRow(l)] + ProjectedRows(input, w)(l) }

  ghost predicate StepsBy(step: Step, rows: Rows, ls: seq<LogicalEvent>) {
    forall t, l :: l in ls ==> !step(t, l).failed && BlindAll(step(t, l).tables) == PutAll(BlindAll(t), rows(l))
  }

  lemma ProjectStepBlind(t: Tables, l: LogicalEvent, input: seq<Attempt>, w: World)
    requires FirstAttempt(input, l).Some?
    ensures !ProjectStep(input, w)(t, l).failed
    ensures BlindAll(ProjectStep(input, w)(t, l).tables) == PutAll(BlindAll(t), ProjectedRows(input, w)(l))
  {
    var a := FirstAttempt(input, l).value;
    var fact := RowOf(l, a, w, w.days(t, l, a));
    FactRowMeans(l, a.record, w.body(a), TrackingLink(l, a, w), w.days(t, l, a));
    BlindPutAll(t, Listed(fact));
    ListedBlind(fact);
  }

  lemma ListedBlind(f: Option<Fact>)
    ensures Map(Listed(f), Blind) == Listed(if f.Some? then Some(Blind(f.value)) else None)
  {
  }

  lemma StoreStepBlind(t: Tables, l: LogicalEvent, input: seq<Attempt>, w: World)
    requires FirstAttempt(input, l).Some?
    ensures !StoreStep(input, w)(t, l).failed
    ensures BlindAll(StoreStep(input, w)(t, l).tables) == PutAll(BlindAll(t), AllRows(input, w)(l))
  {
    var put := Put(t, LogicalRow(l));
    ProjectStepBlind(put, l, input, w);
    PutListed(t, Some(LogicalRow(l)));
    BlindPutAll(t, [LogicalRow(l)]);
    assert Map([LogicalRow(l)], Blind) == [LogicalRow(l)];
    PutAllConcat(BlindAll(t), [LogicalRow(l)], ProjectedRows(input, w)(l));
  }

  lemma {:induction false} EachBlind(t: Tables, ls: seq<LogicalEvent>, step: Step, rows: Rows)
    requires StepsBy(step, rows, ls)
    ensures !Each(t, ls, step).failed
    ensures BlindAll(Each(t, ls, step).tables) == PutAll(BlindAll(t), RowsFor(ls, rows))
    decreases |ls|
  {
    if ls != [] {
      var before, last := ls[..|ls| - 1], ls[|ls| - 1];
      assert last in ls;
      EachBlind(t, before, step, rows);
      PutAllConcat(BlindAll(t), RowsFor(before, rows), rows(last));
    }
  }

  // ---- Where the rows go ----

  ghost predicate OnlySupplier(input: seq<Attempt>, l: LogicalEvent, i: nat) {
    i < |input| && Supplies(input[i], l) && forall j :: 0 <= j < |input| && Supplies(input[j], l) ==> j == i
  }

  lemma {:induction false} FirstSupplies(input: seq<Attempt>, l: LogicalEvent, i: nat)
    requires OnlySupplier(input, l, i)
    ensures FirstAttempt(input, l) == Some(input[i])
    decreases |input|
  {
    if i > 0 {
      assert !Supplies(input[0], l);
      forall j | 0 <= j < |input| - 1 && Supplies(input[1..][j], l) ensures j == i - 1 {
        assert Supplies(input[j + 1], l);
      }
      FirstSupplies(input[1..], l, i - 1);
    }
  }

  lemma {:induction false} LastSupplies(input: seq<Attempt>, l: LogicalEvent, i: nat)
    requires OnlySupplier(input, l, i)
    ensures LastAttempt(input, l) == Some(input[i])
    decreases |input|
  {
    if i < |input| - 1 {
      assert !Supplies(input[|input| - 1], l);
      LastSupplies(input[..|input| - 1], l, i);
    }
  }

  /** A row the bulk writer builds is the row the other writer inserts, and an event it leaves out has none there. */
  lemma RouteAgrees(l: LogicalEvent, a: Attempt, w: World)
    ensures RouteOf(l, a, w).Row? ==> RowOf(l, a, w, Null) == Some(RouteOf(l, a, w).fact) && Blind(RouteOf(l, a, w).fact) == RouteOf(l, a, w).fact
    ensures RouteOf(l, a, w).Row? ==> RouteOf(l, a, w).fact.place.id == l.logicalEventId
    ensures RouteOf(l, a, w).Nowhere? ==> RowOf(l, a, w, Null).None?
  {
    FactRowMeans(l, a.record, w.body(a), Null, Null);
    if l.event.Click? && a.record.producer != "redirector" {
      assert TrackingLink(l, a, w) == Null;
    } else {
      LinkOnlyForClicks(l, a.record, w.body(a), TrackingLink(l, a, w));
    }
  }

  lemma LinkOnlyForClicks(l: LogicalEvent, r: Record, b: Body, link: Value)
    ensures !l.event.Click? ==> FactRow(l, r, b, link, Null) == FactRow(l, r, b, Null, Null)
  {
  }

  ghost predicate RoutesRows(route: LogicalEvent -> Route, rows: Rows, ls: seq<LogicalEvent>) {
    forall l :: l in ls ==>
      && (route(l).Row? ==> rows(l) == [route(l).fact] && Blind(route(l).fact) == route(l).fact
                            && route(l).fact.place.id == l.logicalEventId)
      && (route(l).Nowhere? ==> rows(l) == [])
  }

  /** Both ways of finding an event's attempt find the same one. */
  ghost predicate EachSupplied(ls: seq<LogicalEvent>, input: seq<Attempt>) {
    forall l :: l in ls ==> exists i: nat :: OnlySupplier(input, l, i)
  }

  lemma SuppliedRoutes(l: LogicalEvent, input: seq<Attempt>, w: World, i: nat)
    requires OnlySupplier(input, l, i)
    ensures Router(input, w)(l) == RouteOf(l, input[i], w) && FirstAttempt(input, l) == Some(input[i])
    ensures ProjectedRows(input, w)(l) == Listed(RowOf(l, input[i], w, Null))
  {
    FirstSupplies(input, l, i);
    LastSupplies(input, l, i);
  }

  lemma RouterRoutes(ls: seq<LogicalEvent>, input: seq<Attempt>, w: World)
    requires EachSupplied(ls, input)
    ensures RoutesRows(Router(input, w), ProjectedRows(input, w), ls)
  {
    var route, rows := Router(input, w), ProjectedRows(input, w);
    forall l | l in ls
      ensures route(l).Row? ==> rows(l) == [route(l).fact] && Blind(route(l).fact) == route(l).fact && route(l).fact.place.id == l.logicalEventId
      ensures route(l).Nowhere? ==> rows(l) == []
    {
      var i: nat :| OnlySupplier(input, l, i);
      SuppliedRoutes(l, input, w, i);
      RouteAgrees(l, input[i], w);
    }
  }

  lemma StepsRouted(ls: seq<LogicalEvent>, input: seq<Attempt>, w: World)
    requires EachSupplied(ls, input)
    ensures StepsBy(ProjectStep(input, w), ProjectedRows(input, w), ls)
    ensures StepsBy(StoreStep(input, w), AllRows(input, w), ls)
  {
    forall t: Tables, l | l in ls
      ensures !ProjectStep(input, w)(t, l).failed && !StoreStep(input, w)(t, l).failed
      ensures BlindAll(ProjectStep(input, w)(t, l).tables) == PutAll(BlindAll(t), ProjectedRows(input, w)(l))
      ensures BlindAll(StoreStep(input, w)(t, l).tables) == PutAll(BlindAll(t), AllRows(input, w)(l))
    {
      var i: nat :| OnlySupplier(input, l, i);
      FirstSupplies(input, l, i);
      ProjectStepBlind(t, l, input, w);
      StoreStepBlind(t, l, input, w);
    }
  }

  lemma {:induction false} RowsMember(ls: seq<LogicalEvent>, route: LogicalEvent -> Route, table: Table, f: Fact)
    ensures f in RowsOf(ls, route, table) <==> f.place.table == table && exists l :: l in ls && route(l) == Row(f)
    decreases |ls|
  {
    if ls != [] {
      RowsMember(ls[..|ls| - 1], route, table, f);
      assert ls == ls[..|ls| - 1] + [ls[|ls| - 1]];
    }
  }

  lemma {:induction false} FallbackMember(ls: seq<LogicalEvent>, route: LogicalEvent -> Route, l: LogicalEvent)
    ensures l in FallbackOf(ls, route) <==> l in ls && route(l).Fallback?
    decreases |ls|
  {
    if ls != [] {
      FallbackMember(ls[..|ls| - 1], route, l);
      assert ls == ls[..|ls| - 1] + [ls[|ls| - 1]];
    }
  }

  ghost predicate RowsCarryIds(ls: seq<LogicalEvent>, route: LogicalEvent -> Route) {
    forall l :: l in ls && route(l).Row? ==> route(l).fact.place.id == l.logicalEventId
  }

  lemma RowBelongs(ls: seq<LogicalEvent>, route: LogicalEvent -> Route, i: nat, t: Table, f: Fact)
    requires DistinctIds(ls) && i < |ls| && RowsCarryIds(ls, route)
    requires f in RowsOf(ls, route, t) && f.place.id == ls[i].logicalEventId
    ensures route(ls[i]) == Row(f) && t == f.place.table
  {
    RowsMember(ls, route, t, f);
    var l :| l in ls && route(l) == Row(f);
    var j :| 0 <= j < |ls| && ls[j] == l;
  }

  /** An event is in one table exactly as its own row, or is a fallback, or nothing. */
  lemma RoutedOnce(ls: seq<LogicalEvent>, route: LogicalEvent -> Route, i: nat, t: Table, f: Fact)
    requires DistinctIds(ls) && i < |ls| && RowsCarryIds(ls, route)
    ensures f in RowsOf(ls, route, t) && f.place.id == ls[i].logicalEventId
       <==> route(ls[i]) == Row(f) && t == f.place.table
    ensures ls[i] in FallbackOf(ls, route) <==> route(ls[i]).Fallback?
  {
    FallbackMember(ls, route, ls[i]);
    RowsMember(ls, route, t, f);
    if f in RowsOf(ls, route, t) && f.place.id == ls[i].logicalEventId {
      RowBelongs(ls, route, i, t, f);
    }
  }

  lemma {:induction false} RowsDistinct(ls: seq<LogicalEvent>, route: LogicalEvent -> Route, table: Table)
    requires DistinctIds(ls) && RowsCarryIds(ls, route)
    ensures Distinct(RowsOf(ls, route, table)) && Distinct(FallbackOf(ls, route))
    decreases |ls|
  {
    if ls != [] {
      var before, last := ls[..|ls| - 1], ls[|ls| - 1];
      assert forall l :: l in before ==> l in ls;
      RowsDistinct(before, route, table);
      assert last in ls;
      forall f | f in RowsOf(before, route, table) ensures f.place.id != last.logicalEventId {
        RowsMember(before, route, table, f);
      }
      FallbackMember(before, route, last);
    }
  }

  lemma {:induction false} ByTableMember(p: Projections, n: nat, f: Fact)
    requires n <= |p.order| && forall t :: t in p.order ==> t in p.byTable
    ensures f in ByTable(p, n) <==> exists i :: 0 <= i < n && f in p.byTable[p.order[i]]
  {
    if n > 0 {
      ByTableMember(p, n - 1, f);
    }
  }

  lemma CollectedMember(p: Projections, ls: seq<LogicalEvent>, route: LogicalEvent -> Route, f: Fact)
    requires Collected(p, ls, route)
    ensures f in ByTable(p, |p.order|) <==> exists l :: l in ls && route(l) == Row(f)
  {
    ByTableMember(p, |p.order|, f);
    RowsMember(ls, route, f.place.table, f);
    assert RowsListed(p, f.place.table) == RowsOf(ls, route, f.place.table);
    if f in ByTable(p, |p.order|) {
      var i :| 0 <= i < |p.order| && f in p.byTable[p.order[i]];
      RowsMember(ls, route, p.order[i], f);
      assert RowsListed(p, p.order[i]) == RowsOf(ls, route, p.order[i]);
    }
    if f in RowsOf(ls, route, f.place.table) {
      var i :| 0 <= i < |p.order| && p.order[i] == f.place.table;
      assert f in p.byTable[p.order[i]];
    }
  }

  /** Table rows and fallback rows together are all the projected rows. */
  lemma BulkMember(p: Projections, ls: seq<LogicalEvent>, route: LogicalEvent -> Route, rows: Rows, f: Fact)
    requires Collected(p, ls, route) && RoutesRows(route, rows, ls)
    ensures f in ByTable(p, |p.order|) || f in RowsFor(p.fallback, rows) <==> f in RowsFor(ls, rows)
    ensures f in ByTable(p, |p.order|) ==> Blind(f) == f
  {
    CollectedMember(p, ls, route, f);
    RowsForMember(p.fallback, rows, f);
    RowsForMember(ls, rows, f);
    forall l ensures l in p.fallback <==> l in ls && route(l).Fallback? {
      FallbackMember(ls, route, l);
    }
    if f in RowsFor(ls, rows) {
      var l :| l in ls && f in rows(l);
      assert route(l).Row? ==> route(l) == Row(f);
    }
  }

  lemma {:induction false} BlindEach(fs: seq<Fact>)
    requires forall f :: f in fs ==> Blind(f) == f
    ensures Map(fs, Blind) == fs
  {
    if fs != [] {
      assert fs == [fs[0]] + fs[1..] && fs[0] in fs;
      assert forall f :: f in fs[1..] ==> f in fs;
      BlindEach(fs[1..]);
    }
  }

  lemma {:induction false} AllRowsMember(ls: seq<LogicalEvent>, input: seq<Attempt>, w: World, f: Fact)
    ensures f in RowsFor(ls, AllRows(input, w))
       <==> f in Map(ls, LogicalRow) || f in RowsFor(ls, ProjectedRows(input, w))
  {
    RowsForMember(ls, AllRows(input, w), f);
    RowsForMember(ls, ProjectedRows(input, w), f);
    MapMember(ls, LogicalRow, f);
  }

  lemma BulkRowsBlind(p: Projections, ls: seq<LogicalEvent>, route: LogicalEvent -> Route, rows: Rows)
    requires Collected(p, ls, route) && RoutesRows(route, rows, ls)
    ensures Map(ByTable(p, |p.order|), Blind) == ByTable(p, |p.order|)
  {
    forall f | f in ByTable(p, |p.order|) ensures Blind(f) == f {
      BulkMember(p, ls, route, rows, f);
    }
    BlindEach(ByTable(p, |p.order|));
  }

  lemma LogicalRowsBlind(ls: seq<LogicalEvent>)
    ensures Map(Map(ls, LogicalRow), Blind) == Map(ls, LogicalRow)
  {
    forall f | f in Map(ls, LogicalRow) ensures Blind(f) == f {
      MapMember(ls, LogicalRow, f);
    }
    BlindEach(Map(ls, LogicalRow));
  }

  function BulkRows(ls: seq<LogicalEvent>, p: Projections, rows: Rows): seq<Fact>
    requires forall t :: t in p.order ==> t in p.byTable
  {
    Map(ls, LogicalRow) + ByTable(p, |p.order|) + RowsFor(p.fallback, rows)
  }

  lemma BulkBlind(t: Tables, ls: seq<LogicalEvent>, p: Projections, input: seq<Attempt>, w: World)
    requires Collected(p, ls, Router(input, w)) && EachSupplied(ls, input)
    ensures !BulkAfter(t, ls, p, input, w).failed
    ensures BlindAll(BulkAfter(t, ls, p, input, w).tables)
         == PutAll(BlindAll(t), BulkRows(ls, p, ProjectedRows(input, w)))
  {
    var rows, logical, byTable := ProjectedRows(input, w), Map(ls, LogicalRow), ByTable(p, |p.order|);
    RouterRoutes(ls, input, w);
    BulkRowsBlind(p, ls, Router(input, w), rows);
    LogicalRowsBlind(ls);
    BlindPutAll(t, logical);
    BlindPutAll(PutAll(t, logical), byTable);
    forall l | l in p.fallback ensures l in ls {
      FallbackMember(ls, Router(input, w), l);
    }
    StepsRouted(p.fallback, input, w);
    EachBlind(PutAll(PutAll(t, logical), byTable), p.fallback, ProjectStep(input, w), rows);
    PutAllConcat(BlindAll(t), logical, byTable);
    PutAllConcat(BlindAll(t), logical + byTable, RowsFor(p.fallback, rows));
  }

  // ---- Agreement ----

  ghost predicate DistinctRecords(ls: seq<LogicalEvent>) {
    forall i, j :: 0 <= i < j < |ls| ==> ls[i].recordId != ls[j].recordId
  }

  /** One attempt behind each event, one event for a record, and each event's record among the attempts gone through. */
  ghost predicate SoundBatch(order: seq<Attempt>, ls: seq<LogicalEvent>, input: seq<Attempt>) {
    && EachSupplied(ls, input) && DistinctRecords(ls)
    && forall l :: l in ls ==> exists a :: a in order && a.record.recordId == l.recordId
  }

  lemma {:induction false} LastOfMember(ls: seq<LogicalEvent>, l: LogicalEvent)
    requires DistinctRecords(ls)
    ensures l in ls <==> LastOf(ls, l.recordId) == Some(l)
    decreases |ls|
  {
    if ls != [] {
      LastOfMember(ls[..|ls| - 1], l);
      assert ls == ls[..|ls| - 1] + [ls[|ls| - 1]];
    }
  }

  lemma {:induction false} LastOfRecord(ls: seq<LogicalEvent>, record: string)
    ensures LastOf(ls, record).Some? ==> LastOf(ls, record).value.recordId == record
    decreases |ls|
  {
    if ls != [] {
      LastOfRecord(ls[..|ls| - 1], record);
    }
  }

  lemma {:induction false} LookedUpMember(order: seq<Attempt>, ls: seq<LogicalEvent>, l: LogicalEvent)
    requires DistinctRecords(ls)
    ensures l in LookedUp(order, ls) <==> l in ls && exists a :: a in order && a.record.recordId == l.recordId
    decreases |order|
  {
    if order != [] {
      var before, last := order[..|order| - 1], order[|order| - 1];
      assert order == before + [last];
      LookedUpMember(before, ls, l);
      LastOfMember(ls, l);
      LastOfRecord(ls, last.record.recordId);
    }
  }

  lemma RowByRowBlind(t: Tables, order: seq<Attempt>, ls: seq<LogicalEvent>, input: seq<Attempt>, w: World)
    requires SoundBatch(order, ls, input)
    ensures !Each(t, LookedUp(order, ls), StoreStep(input, w)).failed
    ensures BlindAll(Each(t, LookedUp(order, ls), StoreStep(input, w)).tables)
         == PutAll(BlindAll(t), RowsFor(LookedUp(order, ls), AllRows(input, w)))
  {
    forall l | l in LookedUp(order, ls) ensures l in ls {
      LookedUpMember(order, ls, l);
    }
    StepsRouted(LookedUp(order, ls), input, w);
    EachBlind(t, LookedUp(order, ls), StoreStep(input, w), AllRows(input, w));
  }

  lemma SameRows(order: seq<Attempt>, ls: seq<LogicalEvent>, p: Projections, input: seq<Attempt>, w: World, f: Fact)
    requires SoundBatch(order, ls, input) && Collected(p, ls, Router(input, w))
    ensures f in RowsFor(LookedUp(order, ls), AllRows(input, w)) <==> f in RowsFor(ls, AllRows(input, w))
    ensures f in BulkRows(ls, p, ProjectedRows(input, w)) <==> f in RowsFor(ls, AllRows(input, w))
  {
    RouterRoutes(ls, input, w);
    BulkMember(p, ls, Router(input, w), ProjectedRows(input, w), f);
    AllRowsMember(ls, input, w, f);
    RowsForMember(ls, AllRows(input, w), f);
    RowsForMember(LookedUp(order, ls), AllRows(input, w), f);
    forall l ensures l in LookedUp(order, ls) <==> l in ls {
      LookedUpMember(order, ls, l);
    }
  }

  ghost predicate Agree(t: Tables, order: seq<Attempt>, ls: seq<LogicalEvent>, p: Projections, input: seq<Attempt>,
                        w: World)
    requires forall t :: t in p.order ==> t in p.byTable
  {
    var rowByRow, bulk := Each(t, LookedUp(order, ls), StoreStep(input, w)), BulkAfter(t, ls, p, input, w);
    !rowByRow.failed && !bulk.failed && BlindAll(rowByRow.tables) == BlindAll(bulk.tables)
  }

  /** Both paths agree from any tables when no two events have different rows for one place. */
  lemma AgreeWithoutClash(t: Tables, order: seq<Attempt>, ls: seq<LogicalEvent>, p: Projections, input: seq<Attempt>,
                          w: World)
    requires SoundBatch(order, ls, input) && Collected(p, ls, Router(input, w))
    requires Consistent(RowsFor(ls, AllRows(input, w)))
    ensures Agree(t, order, ls, p, input, w)
  {
    RowByRowBlind(t, order, ls, input, w);
    BulkBlind(t, ls, p, input, w);
    var all, bulk := RowsFor(LookedUp(order, ls), AllRows(input, w)), BulkRows(ls, p, ProjectedRows(input, w));
    forall f
      ensures (f in all <==> f in RowsFor(ls, AllRows(input, w)))
      ensures (f in bulk <==> f in RowsFor(ls, AllRows(input, w)))
    {
      SameRows(order, ls, p, input, w, f);
    }
    PutAllSame(BlindAll(t), all, bulk);
  }

  lemma RowsCarryId(l: LogicalEvent, input: seq<Attempt>, w: World, f: Fact)
    requires f in AllRows(input, w)(l)
    ensures f.place.id == l.logicalEventId && (f.place.table == LogicalEvents ==> f == LogicalRow(l))
    ensures f.place.table != LogicalEvents ==> ProjectedRows(input, w)(l) == [f]
  {
    if f != LogicalRow(l) {
      assert f in ProjectedRows(input, w)(l);
      var a := FirstAttempt(input, l).value;
      FactRowMeans(l, a.record, w.body(a), TrackingLink(l, a, w), Null);
    }
  }

  /** Distinct logical event IDs are enough for that. */
  lemma DistinctIdsDoNotClash(ls: seq<LogicalEvent>, input: seq<Attempt>, w: World)
    requires DistinctIds(ls)
    ensures Consistent(RowsFor(ls, AllRows(input, w)))
  {
    var rows := AllRows(input, w);
    forall f, g | f in RowsFor(ls, rows) && g in RowsFor(ls, rows) && f.place == g.place ensures f == g {
      RowsForMember(ls, rows, f);
      RowsForMember(ls, rows, g);
      var l :| l in ls && f in rows(l);
      var m :| m in ls && g in rows(m);
      RowsCarryId(l, input, w, f);
      RowsCarryId(m, input, w, g);
    }
  }

  // ---- Batches the runtime evaluates ----

  lemma KeptComesFrom(env: Env, history: seq<Attempt>, pending: seq<Attempt>, lifecycle: map<EvidenceKey, Lifecycle>,
                      l: LogicalEvent)
    returns (i: nat)
    requires l in KeptLogical(env, history, pending, lifecycle)
    ensures i < |At(env, history + pending)|
    ensures AcceptedUnique(env, At(env, history + pending))(At(env, history + pending)[i])
    ensures l in LogicalOf(env, At(env, history + pending), lifecycle) && l.recordId in RecordIds(pending)
    ensures OnlySupplier(At(env, history + pending), l, i) && LogicalFor(At(env, history + pending)[i]) == l
  {
    var all := At(env, history + pending);
    FilterMember(LogicalOf(env, all, lifecycle), CurrentLogical(pending), l);
    var a := LogicalComesFrom(env, all, lifecycle, l);
    i :| 0 <= i < |all| && all[i] == a;
    forall j | 0 <= j < |all| && Supplies(all[j], l) ensures j == i {
      OneWithRecord(env, all, i, j);
    }
  }

  lemma OneWithRecord(env: Env, all: seq<Attempt>, i: nat, j: nat)
    requires i < |all| && j < |all| && AcceptedUnique(env, all)(all[i])
    requires all[i].record.recordId == all[j].record.recordId
    ensures i == j
  {
    KeptIdsOccurOnce(env, all, i);
    if i != j {
      FilterTwo(all, SameRecordId(all[i]), if i < j then i else j, if i < j then j else i);
    }
  }

  lemma KeptDistinct(env: Env, history: seq<Attempt>, pending: seq<Attempt>, lifecycle: map<EvidenceKey, Lifecycle>)
    ensures Distinct(KeptLogical(env, history, pending, lifecycle))
  {
    var events := LogicalOf(env, At(env, history + pending), lifecycle);
    LogicalEventsDistinct(env, At(env, history + pending), lifecycle);
    MapAt(events, LogicalScope);
    FilterDistinct(events, CurrentLogical(pending));
  }

  /** However record IDs repeat in a batch, what the evaluator keeps of it names one attempt for each event. */
  lemma EvaluatedBatchSound(env: Env, history: seq<Attempt>, pending: seq<Attempt>,
                            lifecycle: map<EvidenceKey, Lifecycle>, order: seq<Attempt>)
    requires forall a :: a in pending ==> a in order
    ensures SoundBatch(order, KeptLogical(env, history, pending, lifecycle), At(env, history + pending))
  {
    var ls, all := KeptLogical(env, history, pending, lifecycle), At(env, history + pending);
    forall l | l in ls
      ensures (exists i: nat :: OnlySupplier(all, l, i)) && exists a :: a in order && a.record.recordId == l.recordId
    {
      var i := KeptComesFrom(env, history, pending, lifecycle, l);
    }
    KeptDistinct(env, history, pending, lifecycle);
    forall i, j | 0 <= i < j < |ls| ensures ls[i].recordId != ls[j].recordId {
      SameRecordSameEvent(env, history, pending, lifecycle, ls[i], ls[j]);
    }
  }

  lemma SameRecordSameEvent(env: Env, history: seq<Attempt>, pending: seq<Attempt>,
                            lifecycle: map<EvidenceKey, Lifecycle>,
                            l: LogicalEvent, m: LogicalEvent)
    requires l in KeptLogical(env, history, pending, lifecycle) && m in KeptLogical(env, history, pending, lifecycle)
    ensures l.recordId == m.recordId ==> l == m
  {
    var all := At(env, history + pending);
    var i := KeptComesFrom(env, history, pending, lifecycle, l);
    var j := KeptComesFrom(env, history, pending, lifecycle, m);
    if l.recordId == m.recordId {
      OneWithRecord(env, all, i, j);
    }
  }

  lemma KeptIdsDistinct(env: Env, history: seq<Attempt>, pending: seq<Attempt>, lifecycle: map<EvidenceKey, Lifecycle>)
    requires OneScope(history + pending)
    ensures DistinctIds(KeptLogical(env, history, pending, lifecycle))
  {
    var all, ls := At(env, history + pending), KeptLogical(env, history, pending, lifecycle);
    forall a ensures a in all <==> a in history + pending {
      SortMember(history + pending, AttemptKey(env), a);
    }
    KeptDistinct(env, history, pending, lifecycle);
    OneScopeIdsDistinct(env, all, lifecycle);
    forall i, j | 0 <= i < j < |ls| ensures ls[i].logicalEventId != ls[j].logicalEventId {
      FilterMember(LogicalOf(env, all, lifecycle), CurrentLogical(pending), ls[i]);
      FilterMember(LogicalOf(env, all, lifecycle), CurrentLogical(pending), ls[j]);
    }
  }

  /**
   For every batch of one scope with producers the contract allows, evaluated with any history, the bulk path and the
   path attempt by attempt leave the same logical events and fact rows, from any tables and in any order of the attempts;
   only the days since the last session may differ.
   */
  lemma BulkMeansRowByRow(env: Env, history: seq<Attempt>, pending: seq<Attempt>,
                          lifecycle: map<EvidenceKey, Lifecycle>,
                          order: seq<Attempt>, t: Tables, p: Projections, w: World)
    requires OneScope(history + pending) && forall a :: a in pending ==> a in order
    requires Collected(p, KeptLogical(env, history, pending, lifecycle), Router(At(env, history + pending), w))
    ensures Agree(t, order, KeptLogical(env, history, pending, lifecycle), p, At(env, history + pending), w)
  {
    var ls, all := KeptLogical(env, history, pending, lifecycle), At(env, history + pending);
    EvaluatedBatchSound(env, history, pending, lifecycle, order);
    KeptIdsDistinct(env, history, pending, lifecycle);
    DistinctIdsDoNotClash(ls, all, w);
    AgreeWithoutClash(t, order, ls, p, all, w);
  }

  // ---- Any batch: when the two ways agree ----

  lemma {:induction false} LookedUpHead(order: seq<Attempt>, ls: seq<LogicalEvent>, l: LogicalEvent)
    requires order != [] && LastOf(ls, order[0].record.recordId) == Some(l)
    ensures LookedUp(order, ls) != [] && LookedUp(order, ls)[0] == l
    decreases |order|
  {
    var before := order[..|order| - 1];
    if before == [] {
      assert LookedUp(order, ls) == [] + [l];
    } else {
      LookedUpHead(before, ls, l);
    }
  }

  lemma {:induction false} RowsHead(ls: seq<LogicalEvent>, rows: Rows)
    requires ls != []
    ensures rows(ls[0]) <= RowsFor(ls, rows)
    decreases |ls|
  {
    var before := ls[..|ls| - 1];
    if before == [] {
      assert RowsFor(ls, rows) == [] + rows(ls[0]);
    } else {
      RowsHead(before, rows);
    }
  }

  lemma {:induction false} PutAllKeeps(t: Tables, fs: seq<Fact>, place: Place)
    requires place in t
    ensures place in PutAll(t, fs) && PutAll(t, fs)[place] == t[place]
    decreases |fs|
  {
    if fs != [] {
      PutAllKeeps(t, fs[..|fs| - 1], place);
    }
  }

  lemma OwnRowsConsistent(l: LogicalEvent, input: seq<Attempt>, w: World)
    ensures Consistent(AllRows(input, w)(l))
  {
    forall f, g | f in AllRows(input, w)(l) && g in AllRows(input, w)(l) && f.place == g.place ensures f == g {
      RowsCarryId(l, input, w, f);
      RowsCarryId(l, input, w, g);
    }
  }

  lemma OwnRowFirst(l: LogicalEvent, input: seq<Attempt>, w: World, f: Fact)
    requires f in AllRows(input, w)(l)
    ensures f.place in PutAll(map[], AllRows(input, w)(l)) && PutAll(map[], AllRows(input, w)(l))[f.place] == f
  {
    OwnRowsConsistent(l, input, w);
    PutAllAt(map[], AllRows(input, w)(l), f.place);
  }

  /** The rows of the event whose attempt comes first are kept. */
  lemma FirstRowWins(order: seq<Attempt>, ls: seq<LogicalEvent>, input: seq<Attempt>, w: World, l: LogicalEvent,
                     f: Fact)
    requires SoundBatch(order, ls, input) && order != [] && l in ls && order[0].record.recordId == l.recordId
    requires f in AllRows(input, w)(l)
    ensures var rows := BlindAll(Each(map[], LookedUp(order, ls), StoreStep(input, w)).tables);
            f.place in rows && rows[f.place] == f
  {
    LastOfMember(ls, l);
    LookedUpHead(order, ls, l);
    RowByRowBlind(map[], order, ls, input, w);
    NothingBlind();
    OwnRowFirst(l, input, w, f);
    HeadRowsStay(LookedUp(order, ls), AllRows(input, w), f.place);
  }

  lemma HeadRowsStay(found: seq<LogicalEvent>, rows: Rows, place: Place)
    requires found != [] && place in PutAll(map[], rows(found[0]))
    ensures place in PutAll(map[], RowsFor(found, rows))
    ensures PutAll(map[], RowsFor(found, rows))[place] == PutAll(map[], rows(found[0]))[place]
  {
    RowsHead(found, rows);
    var head := rows(found[0]);
    var rest := RowsFor(found, rows)[|head|..];
    assert RowsFor(found, rows) == head + rest;
    PutAllConcat(map[], head, rest);
    PutAllKeeps(PutAll(map[], head), rest, place);
  }

  lemma NothingBlind()
    ensures BlindAll(map[]) == map[]
  {
  }

  lemma MovedToFront(order: seq<Attempt>, i: nat) returns (order': seq<Attempt>)
    requires i < |order|
    ensures multiset(order') == multiset(order) && order' != [] && order'[0] == order[i]
  {
    order' := [order[i]] + (order[..i] + order[i + 1..]);
    assert order == order[..i] + ([order[i]] + order[i + 1..]);
  }

  lemma SoundReordered(order: seq<Attempt>, order': seq<Attempt>, ls: seq<LogicalEvent>, input: seq<Attempt>)
    requires SoundBatch(order, ls, input) && multiset(order) == multiset(order')
    ensures SoundBatch(order', ls, input)
  {
    PermutedMembers(order, order');
  }

  /** Some order of the attempts puts a given row first. */
  lemma WinsInSomeOrder(order: seq<Attempt>, ls: seq<LogicalEvent>, input: seq<Attempt>, w: World,
                        f: Fact) returns (order': seq<Attempt>)
    requires SoundBatch(order, ls, input) && f in RowsFor(ls, AllRows(input, w))
    ensures multiset(order') == multiset(order)
    ensures var rows := BlindAll(Each(map[], LookedUp(order', ls), StoreStep(input, w)).tables);
            f.place in rows && rows[f.place] == f
  {
    RowsForMember(ls, AllRows(input, w), f);
    var l :| l in ls && f in AllRows(input, w)(l);
    var a :| a in order && a.record.recordId == l.recordId;
    var i :| 0 <= i < |order| && order[i] == a;
    order' := MovedToFront(order, i);
    SoundReordered(order, order', ls, input);
    FirstRowWins(order', ls, input, w, l, f);
  }

  ghost predicate AgreeInEveryOrder(order: seq<Attempt>, ls: seq<LogicalEvent>, p: Projections, input: seq<Attempt>,
                                    w: World)
    requires forall t :: t in p.order ==> t in p.byTable
  {
    forall t, order' :: multiset(order') == multiset(order) ==> Agree(t, order', ls, p, input, w)
  }

  /**
   For any list of events, evaluated or not, the two ways agree from any tables and in every order of the attempts exactly
   when no two events have different rows for one place.
   */
  lemma AgreeExactlyWhenNoClash(order: seq<Attempt>, ls: seq<LogicalEvent>, p: Projections, input: seq<Attempt>,
                                w: World)
    requires SoundBatch(order, ls, input) && Collected(p, ls, Router(input, w))
    ensures Consistent(RowsFor(ls, AllRows(input, w))) <==> AgreeInEveryOrder(order, ls, p, input, w)
  {
    var rows := RowsFor(ls, AllRows(input, w));
    if Consistent(rows) {
      forall t, order' | multiset(order') == multiset(order) ensures Agree(t, order', ls, p, input, w) {
        SoundReordered(order, order', ls, input);
        AgreeWithoutClash(t, order', ls, p, input, w);
      }
    } else {
      var f, g :| f in rows && g in rows && f.place == g.place && f != g;
      var first := WinsInSomeOrder(order, ls, input, w, f);
      var second := WinsInSomeOrder(order, ls, input, w, g);
      assert !(Agree(map[], first, ls, p, input, w) && Agree(map[], second, ls, p, input, w));
    }
  }
}
