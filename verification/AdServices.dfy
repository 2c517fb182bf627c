/** AdServices lookups: queueing, processing passes with retries and backoff, and what every run keeps. */
module AdServices {
  import opened Outcomes
  import opened CanonicalOrder
  import opened TextOrder

  const Hour: int := 3600000
  const Expiry: int := 23 * Hour

  datatype Key = Key(tenant: string, app: string, installRecord: string)
  datatype Lookup = Lookup(id: string, createdAt: int, attempts: int, nextAt: int)
  datatype Status = TokenExpired | LookupUnavailable | Attributed | NotAttributed

  /**
   `calls`, `aborted` and `ended` record by lookup ID the provider calls, those whose row then failed, and the rows
   finished.
   */
  datatype State = State(lookups: map<Key, Lookup>, results: map<Key, Status>, issued: set<string>,
                         calls: multiset<string>, aborted: multiset<string>, ended: multiset<string>)

  // ---- One row of a pass ----

  datatype Token = Found | Missing | Unreadable

  /** What the client got: `attributed` is what normalising the body yields, if it normalises. */
  datatype Reply = NetworkFailure | Replied(status: int, attributed: Option<bool>)

  /** What one row meets outside the worker: the limiter's answer, the token, the reply, and whether storage accepts. */
  datatype Weather = Weather(allowed: bool, token: Token, reply: Reply, stored: bool)

  datatype Plan = Complete(status: Status) | Drop | Retry(attempts: int, nextAt: int) | Fail

  function Least(a: int, b: int): int { if a <= b then a else b }

  /** Whether the provider is called for a row, and what is then planned for it. */
  function PlanOf(row: Lookup, now: int, w: Weather): (bool, Plan) {
    if now - row.createdAt >= Expiry then (false, Complete(TokenExpired))
    else if !w.allowed then (false, Retry(row.attempts, now + 1000))
    else match w.token
      case Missing => (false, Drop)
      case Unreadable => (false, Fail)
      case Found => (true, PlanOfReply(row, now, w.reply))
  }

  function PlanOfReply(row: Lookup, now: int, reply: Reply): Plan {
    var status := if reply.NetworkFailure? then 500 else reply.status;
    if status == 200 then
      if reply.attributed.None? then Fail
      else Complete(if reply.attributed.value then Attributed else NotAttributed)
    else if status == 400 then Complete(LookupUnavailable)
    else if status == 404 then
      if row.attempts + 1 >= 3 then Complete(LookupUnavailable) else Retry(row.attempts + 1, now + 5000)
    else
      var attempts := Least(3, row.attempts + 1);
      Retry(attempts, now + Least(3600000, 60000 * Power2(Least(attempts, 3))))
  }

  function Power2(n: int): int
    decreases n
  {
    if n <= 0 then 1 else 2 * Power2(n - 1)
  }

  datatype RowEnd = Completed | Retried | Failed

  /** A result may be inserted once per install record. */
  function Carry(s: State, key: Key, row: Lookup, plan: Plan, stored: bool): (State, RowEnd) {
    var mine := key in s.lookups && s.lookups[key].id == row.id;
    if !stored || plan.Fail? || (plan.Complete? && key in s.results) then (s, Failed)
    else match plan
      case Complete(status) =>
        (s.(lookups := if mine then s.lookups - {key} else s.lookups, results := s.results[key := status],
            ended := s.ended + multiset{row.id}), Completed)
      case Drop =>
        (s.(lookups := if mine then s.lookups - {key} else s.lookups, ended := s.ended + multiset{row.id}), Completed)
      case Retry(attempts, nextAt) =>
        (if mine then s.(lookups := s.lookups[key := row.(attempts := attempts, nextAt := nextAt)]) else s, Retried)
  }

  datatype Picked = Picked(key: Key, row: Lookup)

  function RowStep(s: State, p: Picked, now: int, w: Weather): (State, RowEnd) {
    var (called, plan) := PlanOf(p.row, now, w);
    var s1 := if called then s.(calls := s.calls + multiset{p.row.id}) else s;
    var (s2, end) := Carry(s1, p.key, p.row, plan, w.stored);
    (if called && end.Failed? then s2.(aborted := s2.aborted + multiset{p.row.id}) else s2, end)
  }

  // ---- A pass ----

  predicate Due(l: Lookup, now: int) { l.nextAt <= now || l.createdAt <= now - Expiry }

  ghost predicate Before(a: Lookup, b: Lookup) { a.nextAt < b.nextAt || (a.nextAt == b.nextAt && TextLe(a.id, b.id)) }

  ghost predicate Current(lookups: map<Key, Lookup>, p: Picked) { p.key in lookups && lookups[p.key] == p.row }

  /** The first hundred due rows of a tenant, by next attempt and then ID. */
  ghost predicate Selected(lookups: map<Key, Lookup>, tenant: string, now: int, rows: seq<Picked>) {
    && |rows| <= 100
    && (forall i :: 0 <= i < |rows| ==>
         Current(lookups, rows[i]) && rows[i].key.tenant == tenant && Due(rows[i].row, now))
    && (forall i, j :: 0 <= i < j < |rows| ==> rows[i].key != rows[j].key && Before(rows[i].row, rows[j].row))
    && (forall k :: k in lookups && k.tenant == tenant && Due(lookups[k], now) && Picked(k, lookups[k]) !in rows ==>
          |rows| == 100 && forall i :: 0 <= i < |rows| ==> Before(rows[i].row, lookups[k]))
  }

  datatype Passed = Passed(state: State, completed: nat, retried: nat, failed: bool)

  /** Rows in turn until one fails; what was done before stays. */
  function RunRows(s: State, rows: seq<Picked>, weather: seq<Weather>, step: Step): Passed
    requires |rows| == |weather|
  {
    if rows == [] then Passed(s, 0, 0, false)
    else
      var last := |rows| - 1;
      var before := RunRows(s, rows[..last], weather[..last], step);
      if before.failed then before else Counted(before, step(before.state, rows[last], weather[last]))
  }

  function Counted(before: Passed, row: (State, RowEnd)): Passed {
    match row.1
    case Completed => before.(state := row.0, completed := before.completed + 1)
    case Retried => before.(state := row.0, retried := before.retried + 1)
    case Failed => before.(state := row.0, failed := true)
  }

  type Step = (State, Picked, Weather) -> (State, RowEnd)

  function StepAt(now: int): Step { (s, p, w) => RowStep(s, p, now, w) }

  function PassOf(s: State, rows: seq<Picked>, now: int, weather: seq<Weather>): Passed
    requires |rows| == |weather|
  {
    RunRows(s, rows, weather, StepAt(now))
  }

  class LookupWorker {
    var lookups: map<Key, Lookup>
    var results: map<Key, Status>
    ghost var issued: set<string>
    ghost var calls: multiset<string>
    ghost var aborted: multiset<string>
    ghost var ended: multiset<string>

    ghost function Value(): State reads this { State(lookups, results, issued, calls, aborted, ended) }

    constructor ()
      ensures Value() == Start()
    {
      lookups, results, issued, calls, aborted, ended := map[], map[], {}, multiset{}, multiset{}, multiset{};
    }

    method Queue(key: Key, id: string, createdAt: int)
      modifies this
      ensures Value() == QueueOf(old(Value()), key, id, createdAt)
    {
      issued := issued + {id};
      if key !in lookups {
        lookups := lookups[key := Lookup(id, createdAt, 0, createdAt)];
      }
    }

    method CompleteLookup(key: Key, row: Lookup, status: Status, stored: bool) returns (ok: bool)
      modifies this
      ensures (Value(), if ok then Completed else Failed) == Carry(old(Value()), key, row, Complete(status), stored)
    {
      if !stored || key in results {
        return false;
      }
      results := results[key := status];
      Delete(key, row);
      return true;
    }

    method Delete(key: Key, row: Lookup)
      modifies this`lookups, this`ended
      ensures lookups == if key in old(lookups) && old(lookups)[key].id == row.id then old(lookups) - {key}
                else old(lookups)
      ensures ended == old(ended) + multiset{row.id}
    {
      if key in lookups && lookups[key].id == row.id {
        lookups := lookups - {key};
      }
      ended := ended + multiset{row.id};
    }

    method Reschedule(key: Key, row: Lookup, attempts: int, nextAt: int, stored: bool) returns (ok: bool)
      modifies this`lookups
      ensures (Value(), if ok then Retried else Failed)
           == Carry(old(Value()), key, row, Retry(attempts, nextAt), stored)
    {
      if !stored {
        return false;
      }
      if key in lookups && lookups[key].id == row.id {
        lookups := lookups[key := row.(attempts := attempts, nextAt := nextAt)];
      }
      return true;
    }

    method ProcessRow(p: Picked, now: int, w: Weather) returns (end: RowEnd)
      modifies this
      ensures (Value(), end) == StepAt(now)(old(Value()), p, w)
    {
      var row := p.row;
      var ok: bool;
      if now - row.createdAt >= Expiry {
        ok := CompleteLookup(p.key, row, TokenExpired, w.stored);
        return if ok then Completed else Failed;
      }
      if !w.allowed {
        ok := Reschedule(p.key, row, row.attempts, now + 1000, w.stored);
        return if ok then Retried else Failed;
      }
      if w.token.Unreadable? || (w.token.Missing? && !w.stored) {
        return Failed;
      }
      if w.token.Missing? {
        Delete(p.key, row);
        return Completed;
      }
      calls := calls + multiset{row.id};
      end := ProcessReply(p, now, w);
      if end.Failed? {
        aborted := aborted + multiset{row.id};
      }
    }

    method ProcessReply(p: Picked, now: int, w: Weather) returns (end: RowEnd)
      modifies this
      ensures (Value(), end) == Carry(old(Value()), p.key, p.row, PlanOfReply(p.row, now, w.reply), w.stored)
    {
      var status, ok := if w.reply.NetworkFailure? then 500 else w.reply.status, false;
      if status == 200 {
        if w.reply.attributed.None? {
          return Failed;
        }
        ok := CompleteLookup(p.key, p.row, if w.reply.attributed.value then Attributed else NotAttributed, w.stored);
        return if ok then Completed else Failed;
      }
      if status == 400 || (status == 404 && p.row.attempts + 1 >= 3) {
        ok := CompleteLookup(p.key, p.row, LookupUnavailable, w.stored);
        return if ok then Completed else Failed;
      }
      if status == 404 {
        ok := Reschedule(p.key, p.row, p.row.attempts + 1, now + 5000, w.stored);
        return if ok then Retried else Failed;
      }
      var attempts := Least(3, p.row.attempts + 1);
      ok := Reschedule(p.key, p.row, attempts, now + Least(3600000, 60000 * Power2(Least(attempts, 3))), w.stored);
      return if ok then Retried else Failed;
    }

    /** `rows` is what the pass selected before it began; a failing row ends the pass with an error. */
    method ProcessLookups(rows: seq<Picked>, now: int, weather: seq<Weather>) returns (r: Result<(nat, nat)>)
      requires |rows| == |weather|
      modifies this
      ensures var passed := PassOf(old(Value()), rows, now, weather);
              Value() == passed.state && r == if passed.failed then Err else Ok((passed.completed, passed.retried))
    {
      ghost var step := StepAt(now);
      var completed, retried := 0, 0;
      for i := 0 to |rows|
        invariant RunRows(old(Value()), rows[..i], weather[..i], step) == Passed(Value(), completed, retried, false)
      {
        NextRow(old(Value()), rows, weather, step, i);
        var end := ProcessRow(rows[i], now, weather[i]);
        if end.Failed? {
          return Err;
        }
        if end.Completed? {
          completed := completed + 1;
        } else {
          retried := retried + 1;
        }
      }
      assert rows[..|rows|] == rows && weather[..|rows|] == weather;
      return Ok((completed, retried));
    }
  }

  lemma NextRow(s: State, rows: seq<Picked>, weather: seq<Weather>, step: Step, i: nat)
    requires |rows| == |weather| && i < |rows| && !RunRows(s, rows[..i], weather[..i], step).failed
    ensures var before := RunRows(s, rows[..i], weather[..i], step);
            var after := Counted(before, step(before.state, rows[i], weather[i]));
            && RunRows(s, rows[..i + 1], weather[..i + 1], step) == after
            && (after.failed ==> RunRows(s, rows, weather, step) == after)
  {
    assert rows[..i + 1][..i] == rows[..i] && weather[..i + 1][..i] == weather[..i];
    if RunRows(s, rows[..i + 1], weather[..i + 1], step).failed {
      FailureEnds(s, rows, weather, step, i + 1);
    }
  }

  lemma {:induction false} FailureEnds(s: State, rows: seq<Picked>, weather: seq<Weather>, step: Step, n: nat)
    requires |rows| == |weather| && n <= |rows| && RunRows(s, rows[..n], weather[..n], step).failed
    ensures RunRows(s, rows, weather, step) == RunRows(s, rows[..n], weather[..n], step)
    decreases |rows|
  {
    var last := |rows| - 1;
    if n == |rows| {
      assert rows[..n] == rows && weather[..n] == weather;
    } else {
      assert rows[..last][..n] == rows[..n] && weather[..last][..n] == weather[..n];
      FailureEnds(s, rows[..last], weather[..last], step, n);
    }
  }

  // ---- Runs ----

  datatype Event =
    | Queued(key: Key, id: string, createdAt: int)
    | Removed(keys: set<Key>)
    | Pass(tenant: string, now: int, rows: seq<Picked>, weather: seq<Weather>)

  function Start(): State { State(map[], map[], {}, multiset{}, multiset{}, multiset{}) }

  /** An existing lookup for the install record stays. */
  function QueueOf(s: State, key: Key, id: string, createdAt: int): State {
    s.(issued := s.issued + {id},
       lookups := if key in s.lookups then s.lookups else s.lookups[key := Lookup(id, createdAt, 0, createdAt)])
  }

  /** Queued IDs are new; a pass works on its own selection. */
  ghost predicate Allowed(s: State, e: Event) {
    match e
    case Queued(_, id, _) => id !in s.issued
    case Removed(_) => true
    case Pass(tenant, now, rows, weather) => Selected(s.lookups, tenant, now, rows) && |rows| == |weather|
  }

  ghost function Next(s: State, e: Event): State
    requires Allowed(s, e)
  {
    match e
    case Queued(key, id, createdAt) => QueueOf(s, key, id, createdAt)
    case Removed(keys) => s.(lookups := s.lookups - keys)
    case Pass(_, now, rows, weather) => PassOf(s, rows, now, weather).state
  }

  /** The states a run of events goes through end in `s`. */
  ghost predicate Reaches(events: seq<Event>, s: State) {
    if events == [] then s == Start()
    else
      var last := |events| - 1;
      exists before ::
        Reaches(events[..last], before) && Allowed(before, events[last]) && s == Next(before, events[last])
  }

  /** Time that must pass from creation before a lookup can have been called `n` times without a failure. */
  function Gap(n: nat): int {
    if n == 0 then 0 else if n == 1 then 5000 else 10000 + 480000 * (n - 2)
  }

  function Answered(s: State, id: string): int { s.calls[id] as int - s.aborted[id] as int }

  ghost predicate RowKept(s: State, l: Lookup) {
    && l.id in s.issued && s.ended[l.id] == 0
    && Answered(s, l.id) >= 0
    && l.attempts == Least(3, Answered(s, l.id))
    && l.nextAt >= l.createdAt + Gap(Answered(s, l.id))
  }

  ghost predicate IdKept(s: State, id: string) {
    && s.ended[id] <= 1
    && 0 <= Answered(s, id) <= 175
    && (id !in s.issued ==> s.calls[id] == 0 && s.aborted[id] == 0 && s.ended[id] == 0)
  }

  ghost predicate Kept(s: State) {
    && (forall k :: k in s.lookups ==> RowKept(s, s.lookups[k]))
    && (forall j, k :: j in s.lookups && k in s.lookups && j != k ==> s.lookups[j].id != s.lookups[k].id)
    && (forall id :: IdKept(s, id))
  }

  lemma CallStaysInBudget(s: State, p: Picked, now: int)
    requires Kept(s) && Current(s.lookups, p) && Due(p.row, now) && now - p.row.createdAt < Expiry
    ensures Answered(s, p.row.id) <= 174
  {
    assert RowKept(s, s.lookups[p.key]);
    assert Gap(Answered(s, p.row.id)) < Expiry;
  }

  lemma BackoffCovers(row: Lookup, n: nat, now: int, reply: Reply)
    requires row.attempts == Least(3, n) && row.nextAt >= row.createdAt + Gap(n) && row.nextAt <= now
    ensures var plan := PlanOfReply(row, now, reply);
            plan.Retry? ==> plan.attempts == Least(3, n + 1) && plan.nextAt >= row.createdAt + Gap(n + 1)
  {
    assert Power2(1) == 2 && Power2(2) == 4 && Power2(3) == 8;
    if n >= 2 {
      assert Gap(n + 1) == Gap(n) + 480000;
    }
  }

  /** `after` differs from `s` at most in one row and in the counts of its ID. */
  ghost predicate OnlyRowChanged(s: State, after: State, p: Picked) {
    && after.issued == s.issued
    && after.lookups - {p.key} == s.lookups - {p.key}
    && forall id :: id != p.row.id ==>
         after.calls[id] == s.calls[id] && after.aborted[id] == s.aborted[id] && after.ended[id] == s.ended[id]
  }

  lemma OtherRowsSame(s: State, after: State, p: Picked, k: Key)
    requires OnlyRowChanged(s, after, p) && k != p.key
    ensures k in after.lookups <==> k in s.lookups
    ensures k in s.lookups ==> after.lookups[k] == s.lookups[k]
  {
    assert k in after.lookups <==> k in after.lookups - {p.key};
    assert k in s.lookups <==> k in s.lookups - {p.key};
    if k in s.lookups {
      assert (after.lookups - {p.key})[k] == (s.lookups - {p.key})[k];
    }
  }

  lemma OneRowKeeps(s: State, after: State, p: Picked)
    requires Kept(s) && Current(s.lookups, p) && OnlyRowChanged(s, after, p)
    requires IdKept(after, p.row.id)
    requires p.key in after.lookups ==> after.lookups[p.key].id == p.row.id && RowKept(after, after.lookups[p.key])
    ensures Kept(after)
  {
    forall id ensures IdKept(after, id) {
      assert IdKept(s, id);
    }
    forall k | k in after.lookups
      ensures RowKept(after, after.lookups[k]) && (k != p.key ==> after.lookups[k].id != p.row.id)
    {
      if k != p.key {
        OtherRowsSame(s, after, p, k);
        assert RowKept(s, s.lookups[k]);
      }
    }
    forall j, k | j in after.lookups && k in after.lookups && j != k
      ensures after.lookups[j].id != after.lookups[k].id
    {
      if j != p.key {
        OtherRowsSame(s, after, p, j);
      }
      if k != p.key {
        OtherRowsSame(s, after, p, k);
      }
    }
  }

  lemma CarryChangesOneRow(s: State, p: Picked, plan: Plan, stored: bool)
    requires Current(s.lookups, p)
    ensures OnlyRowChanged(s, Carry(s, p.key, p.row, plan, stored).0, p)
  {
  }

  lemma RowStepChangesOneRow(s: State, p: Picked, now: int, w: Weather)
    requires Current(s.lookups, p)
    ensures OnlyRowChanged(s, RowStep(s, p, now, w).0, p)
  {
    var (called, plan) := PlanOf(p.row, now, w);
    CarryChangesOneRow(if called then s.(calls := s.calls + multiset{p.row.id}) else s, p, plan, w.stored);
  }

  lemma PlanKeepsRow(s: State, p: Picked, now: int, w: Weather)
    requires RowKept(s, p.row) && Due(p.row, now)
    ensures var (called, plan) := PlanOf(p.row, now, w);
            var n := Answered(s, p.row.id) + if called then 1 else 0;
            plan.Retry? ==> plan.attempts == Least(3, n) && plan.nextAt >= p.row.createdAt + Gap(n)
  {
    if now - p.row.createdAt < Expiry {
      BackoffCovers(p.row, Answered(s, p.row.id), now, w.reply);
    }
  }

  lemma CarryKeepsRow(s: State, p: Picked, plan: Plan, stored: bool, n: nat)
    requires Current(s.lookups, p) && p.row.id in s.issued && s.ended[p.row.id] == 0
    requires 0 <= Answered(s, p.row.id) == n <= 175
    requires plan.Retry? ==> plan.attempts == Least(3, n) && plan.nextAt >= p.row.createdAt + Gap(n)
    ensures var (after, end) := Carry(s, p.key, p.row, plan, stored);
            && IdKept(after, p.row.id)
            && (end.Failed? ==> after == s)
            && (!end.Failed? && p.key in after.lookups ==>
                 after.lookups[p.key].id == p.row.id && RowKept(after, after.lookups[p.key]))
  {
  }

  lemma RowStepKeeps(s: State, p: Picked, now: int, w: Weather)
    requires Kept(s) && Current(s.lookups, p) && Due(p.row, now)
    ensures Kept(RowStep(s, p, now, w).0)
    ensures OnlyRowChanged(s, RowStep(s, p, now, w).0, p)
  {
    var id := p.row.id;
    assert RowKept(s, s.lookups[p.key]) && IdKept(s, id);
    var (called, plan) := PlanOf(p.row, now, w);
    if called {
      CallStaysInBudget(s, p, now);
    }
    var s1 := if called then s.(calls := s.calls + multiset{id}) else s;
    PlanKeepsRow(s, p, now, w);
    CarryKeepsRow(s1, p, plan, w.stored, Answered(s1, id));
    RowStepChangesOneRow(s, p, now, w);
    OneRowKeeps(s, RowStep(s, p, now, w).0, p);
  }

  ghost predicate Working(s: State, rows: seq<Picked>, now: int) {
    && (forall i :: 0 <= i < |rows| ==> Current(s.lookups, rows[i]) && Due(rows[i].row, now))
    && (forall i, j :: 0 <= i < j < |rows| ==> rows[i].key != rows[j].key)
  }

  /** Steps that keep the invariant and change only the row they are given. */
  ghost predicate KeepingStep(step: Step, now: int) {
    forall s, p, w :: Kept(s) && Current(s.lookups, p) && Due(p.row, now) ==>
      Kept(step(s, p, w).0) && OnlyRowChanged(s, step(s, p, w).0, p)
  }

  lemma StepAtKeeps(now: int)
    ensures KeepingStep(StepAt(now), now)
  {
    forall s, p, w | Kept(s) && Current(s.lookups, p) && Due(p.row, now)
      ensures Kept(StepAt(now)(s, p, w).0) && OnlyRowChanged(s, StepAt(now)(s, p, w).0, p)
    {
      RowStepKeeps(s, p, now, w);
    }
  }

  lemma OneMoreRow(s: State, before: State, rows: seq<Picked>, now: int, weather: Weather, step: Step)
    requires KeepingStep(step, now) && rows != [] && Working(s, rows, now) && Kept(before)
    requires Untouched(s, before, rows[..|rows| - 1])
    ensures var after := step(before, rows[|rows| - 1], weather).0;
            Current(before.lookups, rows[|rows| - 1]) && Kept(after) && Untouched(s, after, rows)
  {
    var last := rows[|rows| - 1];
    var after := step(before, last, weather).0;
    assert Current(before.lookups, last);
    forall p: Picked | forall i :: 0 <= i < |rows| ==> rows[i].key != p.key
      ensures Current(after.lookups, p) <==> Current(s.lookups, p)
    {
      assert rows[|rows| - 1].key != p.key;
      OtherRowsSame(before, after, last, p.key);
    }
  }

  /** Rows of other keys are the same in both states. */
  ghost predicate Untouched(s: State, t: State, rows: seq<Picked>) {
    forall p: Picked :: (forall i :: 0 <= i < |rows| ==> rows[i].key != p.key) ==> (Current(t.lookups, p) <==> Current(s.lookups, p))
  }

  lemma UntouchedMore(s: State, t: State, rows: seq<Picked>)
    requires rows != [] && Untouched(s, t, rows[..|rows| - 1])
    ensures Untouched(s, t, rows)
  {
    forall p: Picked | forall i :: 0 <= i < |rows| ==> rows[i].key != p.key
      ensures Current(t.lookups, p) <==> Current(s.lookups, p)
    {
      assert forall i :: 0 <= i < |rows| - 1 ==> rows[..|rows| - 1][i] == rows[i];
    }
  }

  lemma WorkingBefore(s: State, rows: seq<Picked>, now: int)
    requires rows != [] && Working(s, rows, now)
    ensures Working(s, rows[..|rows| - 1], now)
  {
  }

  lemma {:induction false} RowsKeep(s: State, rows: seq<Picked>, now: int, weather: seq<Weather>, step: Step)
    requires KeepingStep(step, now) && Kept(s) && |rows| == |weather| && Working(s, rows, now)
    ensures Kept(RunRows(s, rows, weather, step).state) && Untouched(s, RunRows(s, rows, weather, step).state, rows)
    decreases |rows|
  {
    if rows != [] {
      var last := |rows| - 1;
      var before := RunRows(s, rows[..last], weather[..last], step);
      WorkingBefore(s, rows, now);
      RowsKeep(s, rows[..last], now, weather[..last], step);
      if before.failed {
        UntouchedMore(s, before.state, rows);
      } else {
        OneMoreRow(s, before.state, rows, now, weather[last], step);
      }
    }
  }

  /** A pass keeps the invariant, and leaves rows it did not select, or has not yet reached, as they were. */
  lemma PassKeeps(s: State, rows: seq<Picked>, now: int, weather: seq<Weather>)
    requires Kept(s) && |rows| == |weather| && Working(s, rows, now)
    ensures Kept(PassOf(s, rows, now, weather).state) && Untouched(s, PassOf(s, rows, now, weather).state, rows)
  {
    StepAtKeeps(now);
    RowsKeep(s, rows, now, weather, StepAt(now));
  }

  lemma QueueKeeps(s: State, key: Key, id: string, createdAt: int)
    requires Kept(s) && id !in s.issued
    ensures Kept(QueueOf(s, key, id, createdAt))
  {
    var after := QueueOf(s, key, id, createdAt);
    assert IdKept(s, id);
    forall other ensures IdKept(after, other) {
      assert IdKept(s, other);
    }
    forall k | k in after.lookups ensures RowKept(after, after.lookups[k]) {
      assert k in s.lookups ==> RowKept(s, s.lookups[k]);
    }
  }

  lemma RemoveKeeps(s: State, keys: set<Key>)
    requires Kept(s)
    ensures Kept(s.(lookups := s.lookups - keys))
  {
    var after := s.(lookups := s.lookups - keys);
    forall id ensures IdKept(after, id) {
      assert IdKept(s, id);
    }
    forall k | k in after.lookups ensures RowKept(after, after.lookups[k]) {
      assert RowKept(s, s.lookups[k]);
    }
  }

  lemma StepKeeps(s: State, e: Event)
    requires Kept(s) && Allowed(s, e)
    ensures Kept(Next(s, e))
  {
    match e
    case Queued(key, id, createdAt) => QueueKeeps(s, key, id, createdAt);
    case Removed(keys) => RemoveKeeps(s, keys);
    case Pass(_, now, rows, weather) => PassKeeps(s, rows, now, weather);
  }

  lemma {:induction false} ReachedKept(events: seq<Event>, s: State)
    requires Reaches(events, s)
    ensures Kept(s)
    decreases |events|
  {
    if events != [] {
      var last := |events| - 1;
      var before :| Reaches(events[..last], before) && Allowed(before, events[last]) && s == Next(before, events[last]);
      ReachedKept(events[..last], before);
      StepKeeps(before, events[last]);
    }
  }

  /** In every run a lookup ends at most once and is gone once ended, and stored attempts stay within 0 to 3. */
  lemma EndsAtMostOnce(events: seq<Event>, s: State)
    requires Reaches(events, s)
    ensures forall id :: s.ended[id] <= 1
    ensures forall k :: k in s.lookups ==> s.ended[s.lookups[k].id] == 0 && 0 <= s.lookups[k].attempts <= 3
  {
    ReachedKept(events, s);
    forall id ensures s.ended[id] <= 1 {
      assert IdKept(s, id);
    }
    forall k | k in s.lookups ensures s.ended[s.lookups[k].id] == 0 && 0 <= s.lookups[k].attempts <= 3 {
      assert RowKept(s, s.lookups[k]);
    }
  }

  /**
   In every run the provider is called for a lookup at most 175 times, plus once for every call whose row then
   failed.
   */
  lemma CallsAreBounded(events: seq<Event>, s: State, id: string)
    requires Reaches(events, s)
    ensures s.calls[id] <= 175 + s.aborted[id]
  {
    ReachedKept(events, s);
    assert IdKept(s, id);
  }

  // ---- Old lookups ----

  lemma OldRowEnds(s: State, p: Picked, now: int, w: Weather)
    requires Current(s.lookups, p) && now - p.row.createdAt >= Expiry && !RowStep(s, p, now, w).1.Failed?
    ensures Finished(RowStep(s, p, now, w).0, p)
  {
  }

  ghost predicate Finished(s: State, p: Picked) {
    p.key !in s.lookups && s.ended[p.row.id] >= 1 && p.key in s.results && s.results[p.key] == TokenExpired
  }

  lemma OtherRowLeavesFinished(s: State, p: Picked, q: Picked, now: int, w: Weather)
    requires Finished(s, p) && Current(s.lookups, q) && p.key != q.key
    ensures Finished(RowStep(s, q, now, w).0, p)
  {
  }

  lemma NextIsCurrent(s: State, rows: seq<Picked>, now: int, weather: seq<Weather>)
    requires Kept(s) && |rows| == |weather| && Working(s, rows, now) && rows != []
    ensures Working(s, rows[..|rows| - 1], now)
    ensures Current(RunRows(s, rows[..|rows| - 1], weather[..|rows| - 1], StepAt(now)).state.lookups, rows[|rows| - 1])
  {
    PassKeeps(s, rows[..|rows| - 1], now, weather[..|rows| - 1]);
  }

  /**
   A pass that gets past a row picked at 23 hours or more finishes it: the lookup is gone, it ended, and its result is
   that the token expired, whatever the provider, the limiter and the token would have said.
   */
  lemma {:induction false} OldLookupFinishes(s: State, rows: seq<Picked>, now: int, weather: seq<Weather>, i: nat)
    requires Kept(s) && |rows| == |weather| && Working(s, rows, now) && i < |rows|
    requires now - rows[i].row.createdAt >= Expiry
    requires !PassOf(s, rows[..i + 1], now, weather[..i + 1]).failed
    ensures Finished(PassOf(s, rows, now, weather).state, rows[i])
    decreases |rows|
  {
    var last := |rows| - 1;
    NextIsCurrent(s, rows, now, weather);
    if i == last {
      assert rows[..i + 1] == rows && weather[..i + 1] == weather;
      LastRowFinishes(s, rows, now, weather);
    } else {
      assert rows[..last][..i + 1] == rows[..i + 1] && weather[..last][..i + 1] == weather[..i + 1];
      assert rows[..last][i] == rows[i];
      OldLookupFinishes(s, rows[..last], now, weather[..last], i);
      LastRowLeavesFinished(s, rows, now, weather, rows[i]);
    }
  }

  lemma LastRowFinishes(s: State, rows: seq<Picked>, now: int, weather: seq<Weather>)
    requires |rows| == |weather| && rows != [] && now - rows[|rows| - 1].row.createdAt >= Expiry
    requires Current(RunRows(s, rows[..|rows| - 1], weather[..|rows| - 1], StepAt(now)).state.lookups, rows[|rows| - 1])
    requires !PassOf(s, rows, now, weather).failed
    ensures Finished(PassOf(s, rows, now, weather).state, rows[|rows| - 1])
  {
    var before := RunRows(s, rows[..|rows| - 1], weather[..|rows| - 1], StepAt(now));
    OldRowEnds(before.state, rows[|rows| - 1], now, weather[|rows| - 1]);
  }

  lemma LastRowLeavesFinished(s: State, rows: seq<Picked>, now: int, weather: seq<Weather>, p: Picked)
    requires |rows| == |weather| && rows != [] && rows[|rows| - 1].key != p.key
    requires Current(RunRows(s, rows[..|rows| - 1], weather[..|rows| - 1], StepAt(now)).state.lookups, rows[|rows| - 1])
    requires Finished(RunRows(s, rows[..|rows| - 1], weather[..|rows| - 1], StepAt(now)).state, p)
    ensures Finished(PassOf(s, rows, now, weather).state, p)
  {
    var before := RunRows(s, rows[..|rows| - 1], weather[..|rows| - 1], StepAt(now));
    OtherRowLeavesFinished(before.state, p, rows[|rows| - 1], now, weather[|rows| - 1]);
  }

  // ---- A reply that cannot be read ----

  /** A row that comes before every other row of its tenant. */
  ghost predicate Head(lookups: map<Key, Lookup>, p: Picked) {
    Current(lookups, p) && forall k :: k in lookups && k.tenant == p.key.tenant && k != p.key ==>
        !Before(lookups[k], p.row)
  }

  lemma FirstComesBefore(lookups: map<Key, Lookup>, now: int, rows: seq<Picked>, p: Picked)
    requires Current(lookups, p) && Due(p.row, now) && Selected(lookups, p.key.tenant, now, rows)
    ensures rows != [] && (rows[0] == p || Before(rows[0].row, p.row))
    ensures rows[0].key == p.key ==> rows[0] == p
    ensures rows[0].key in lookups && lookups[rows[0].key] == rows[0].row && rows[0].key.tenant == p.key.tenant
  {
    assert p == Picked(p.key, lookups[p.key]);
    if p in rows {
      var i :| 0 <= i < |rows| && rows[i] == p;
      assert i > 0 ==> Before(rows[0].row, rows[i].row);
    }
  }

  lemma HeadIsFirst(lookups: map<Key, Lookup>, now: int, rows: seq<Picked>, p: Picked)
    requires Head(lookups, p) && Due(p.row, now) && Selected(lookups, p.key.tenant, now, rows)
    ensures rows != [] && rows[0] == p
  {
    FirstComesBefore(lookups, now, rows, p);
  }

  /** The provider answers 200 with a body that does not normalise. */
  predicate Unreadable200(w: Weather) { w.allowed && w.token.Found? && w.reply == Replied(200, None) }

  /** A pass of the row's tenant that is too early to expire the row and gets an unreadable 200 for it. */
  ghost predicate StuckOn(p: Picked, e: Event) {
    && e.Pass? && e.tenant == p.key.tenant && p.row.nextAt <= e.now < p.row.createdAt + Expiry
    && e.weather != [] && Unreadable200(e.weather[0])
  }

  lemma StuckPass(s: State, p: Picked, e: Event)
    requires Head(s.lookups, p) && StuckOn(p, e) && Allowed(s, e)
    ensures Next(s, e).lookups == s.lookups && Next(s, e).results == s.results && Next(s, e).ended == s.ended
    ensures PassOf(s, e.rows, e.now, e.weather).failed
  {
    HeadIsFirst(s.lookups, e.now, e.rows, p);
    var step := StepAt(e.now);
    assert e.rows[..1][..0] == [] && e.weather[..1][..0] == [];
    assert RunRows(s, [], [], step) == Passed(s, 0, 0, false);
    assert RunRows(s, e.rows[..1], e.weather[..1], step) == Counted(Passed(s, 0, 0, false), step(s, p, e.weather[0]));
    UnreadableFails(s, p, e.now, e.weather[0]);
    FailureEnds(s, e.rows, e.weather, step, 1);
  }

  lemma UnreadableFails(s: State, p: Picked, now: int, w: Weather)
    requires now < p.row.createdAt + Expiry && Unreadable200(w)
    ensures var (after, end) := StepAt(now)(s, p, w);
            end.Failed? && after.lookups == s.lookups && after.results == s.results && after.ended == s.ended
  {
  }

  /** The events lead from one state to the other. */
  ghost predicate Leads(s: State, events: seq<Event>, t: State)
    decreases |events|
  {
    if events == [] then t == s
    else Allowed(s, events[0]) && Leads(Next(s, events[0]), events[1..], t)
  }

  /**
   While the first row keeps getting unreadable replies, no lookup of its tenant is served, however many passes are
   made.
   */
  lemma {:induction false} Starvation(s: State, p: Picked, events: seq<Event>, t: State)
    requires Head(s.lookups, p) && (forall i :: 0 <= i < |events| ==> StuckOn(p, events[i])) && Leads(s, events, t)
    ensures t.lookups == s.lookups && t.results == s.results && t.ended == s.ended
    decreases |events|
  {
    if events != [] {
      StuckPass(s, p, events[0]);
      Starvation(Next(s, events[0]), p, events[1..], t);
    }
  }

  /** The first pass that storage accepts once the row is 23 hours old finishes it, and so ends the starvation. */
  lemma StarvationEnds(s: State, p: Picked, e: Event)
    requires Kept(s) && Head(s.lookups, p) && p.key !in s.results && e.Pass? && Allowed(s, e)
    requires e.tenant == p.key.tenant
    requires e.now >= p.row.createdAt + Expiry && e.weather != [] && e.weather[0].stored
    ensures Finished(Next(s, e), p)
  {
    HeadIsFirst(s.lookups, e.now, e.rows, p);
    var step := StepAt(e.now);
    assert e.rows[..1][..0] == [] && e.weather[..1][..0] == [];
    assert RunRows(s, [], [], step) == Passed(s, 0, 0, false);
    assert RunRows(s, e.rows[..1], e.weather[..1], step) == Counted(Passed(s, 0, 0, false), step(s, p, e.weather[0]));
    OldRowGoes(s, p, e.now, e.weather[0]);
    OldLookupFinishes(s, e.rows, e.now, e.weather, 0);
  }

  lemma OldRowGoes(s: State, p: Picked, now: int, w: Weather)
    requires now >= p.row.createdAt + Expiry && p.key !in s.results && w.stored
    ensures !StepAt(now)(s, p, w).1.Failed?
  {
  }

  /** Results are never replaced. */
  lemma {:induction false} ResultsStay(s: State, rows: seq<Picked>, now: int, weather: seq<Weather>, key: Key)
    requires |rows| == |weather| && key in s.results
    ensures key in PassOf(s, rows, now, weather).state.results
    ensures PassOf(s, rows, now, weather).state.results[key] == s.results[key]
    decreases |rows|
  {
    if rows != [] {
      var last := |rows| - 1;
      ResultsStay(s, rows[..last], now, weather[..last], key);
      ResultStays(RunRows(s, rows[..last], weather[..last], StepAt(now)).state, rows[last], now, weather[last], key);
    }
  }

  lemma ResultStays(s: State, p: Picked, now: int, w: Weather, key: Key)
    requires key in s.results
    ensures key in StepAt(now)(s, p, w).0.results && StepAt(now)(s, p, w).0.results[key] == s.results[key]
  {
  }

  /** The counts a finished pass returns: a row for each completion or retry, and a completion for each lookup gone. */
  lemma {:induction false} PassCounts(s: State, rows: seq<Picked>, now: int, weather: seq<Weather>)
    requires Kept(s) && |rows| == |weather| && Working(s, rows, now) && !PassOf(s, rows, now, weather).failed
    ensures var passed := PassOf(s, rows, now, weather);
            && passed.completed + passed.retried == |rows|
            && passed.completed == |s.lookups| - |passed.state.lookups|
    decreases |rows|
  {
    if rows != [] {
      var last := |rows| - 1;
      var before := RunRows(s, rows[..last], weather[..last], StepAt(now));
      NextIsCurrent(s, rows, now, weather);
      PassCounts(s, rows[..last], now, weather[..last]);
      RowCounts(before.state, rows[last], now, weather[last]);
    }
  }

  lemma RowCounts(s: State, p: Picked, now: int, w: Weather)
    requires Current(s.lookups, p)
    ensures var (after, end) := RowStep(s, p, now, w);
            |after.lookups| == if end.Completed? then |s.lookups| - 1 else |s.lookups|
  {
    var (after, end) := RowStep(s, p, now, w);
    if end.Completed? {
      assert after.lookups == s.lookups - {p.key};
      OneLess(s.lookups, p.key);
    } else {
      assert after.lookups.Keys == s.lookups.Keys;
      assert |after.lookups.Keys| == |s.lookups.Keys|;
      assert |after.lookups| == |after.lookups.Keys| && |s.lookups| == |s.lookups.Keys|;
    }
  }

  lemma OneLess(m: map<Key, Lookup>, key: Key)
    requires key in m
    ensures |m - {key}| == |m| - 1
  {
    assert (m - {key}).Keys == m.Keys - {key};
    assert |(m - {key}).Keys| == |m.Keys| - 1;
    assert |m| == |m.Keys| && |m - {key}| == |(m - {key}).Keys|;
  }

  // ---- The bound is met ----

  function Single(key: Key, id: string, calls: nat, aborted: nat): State
    requires aborted <= calls
  {
    var n := calls - aborted;
    State(map[key := Lookup(id, 0, Least(3, n), Gap(n))], map[], {id}, multiset{}[id := calls], multiset{}[id := aborted],
          multiset{})
  }

  function ReplyAt(n: nat): Reply { if n < 2 then Replied(404, None) else Replied(500, None) }

  function OneRowPass(key: Key, id: string, n: nat, reply: Reply): Event {
    Pass(key.tenant, Gap(n), [Picked(key, Lookup(id, 0, Least(3, n), Gap(n)))], [Weather(true, Found, reply, true)])
  }

  /** One pass over a single due row, then more calls or more failures of the same row. */
  lemma OneRowPassEnds(key: Key, id: string, calls: nat, aborted: nat, reply: Reply)
    requires aborted <= calls && calls - aborted <= 174
    ensures var s, n := Single(key, id, calls, aborted), calls - aborted;
            var p := OneRowPass(key, id, n, reply);
            Allowed(s, p) && Next(s, p) == RowStep(s, p.rows[0], p.now, p.weather[0]).0
  {
    var s, n := Single(key, id, calls, aborted), calls - aborted;
    var p := OneRowPass(key, id, n, reply);
    SingleSelected(s.lookups, key, p.rows[0].row);
    assert p.rows[..0] == [] && p.weather[..0] == [];
    assert PassOf(s, p.rows[..0], p.now, p.weather[..0]) == Passed(s, 0, 0, false);
  }

  lemma SingleSelected(lookups: map<Key, Lookup>, key: Key, row: Lookup)
    requires lookups == map[key := row]
    ensures Selected(lookups, key.tenant, row.nextAt, [Picked(key, row)])
  {
    assert Picked(key, row) in [Picked(key, row)];
  }

  lemma RetriedAgain(key: Key, id: string, calls: nat, aborted: nat)
    requires aborted <= calls && calls - aborted <= 173
    ensures var n := calls - aborted;
            RowStep(Single(key, id, calls, aborted), Picked(key, Lookup(id, 0, Least(3, n), Gap(n))), Gap(n),
                    Weather(true, Found, ReplyAt(n), true)).0
            == Single(key, id, calls + 1, aborted)
  {
    var n := calls - aborted;
    var row := Lookup(id, 0, Least(3, n), Gap(n));
    assert Power2(1) == 2 && Power2(2) == 4 && Power2(3) == 8;
    assert PlanOf(row, Gap(n), Weather(true, Found, ReplyAt(n), true)) == (true, Retry(Least(3, n + 1), Gap(n + 1)));
    assert multiset{}[id := calls] + multiset{id} == multiset{}[id := calls + 1];
  }

  lemma FailedAgain(key: Key, id: string, calls: nat)
    ensures RowStep(Single(key, id, calls, calls), Picked(key, Lookup(id, 0, 0, 0)), 0,
                    Weather(true, Found, Replied(200, None), true)).0
            == Single(key, id, calls + 1, calls + 1)
  {
    assert PlanOf(Lookup(id, 0, 0, 0), 0, Weather(true, Found, Replied(200, None), true)) == (true, Fail);
    assert multiset{}[id := calls] + multiset{id} == multiset{}[id := calls + 1];
  }

  lemma Extends(events: seq<Event>, before: State, e: Event, s: State)
    requires Reaches(events, before) && Allowed(before, e) && s == Next(before, e)
    ensures Reaches(events + [e], s)
  {
    var longer := events + [e];
    assert longer[..|longer| - 1] == events && longer[|longer| - 1] == e;
    assert Reaches(longer[..|longer| - 1], before);
  }

  lemma ReplyExtends(events: seq<Event>, key: Key, id: string, calls: nat, aborted: nat) returns (longer: seq<Event>)
    requires aborted <= calls && calls - aborted <= 173 && Reaches(events, Single(key, id, calls, aborted))
    ensures Reaches(longer, Single(key, id, calls + 1, aborted))
  {
    var e := OneRowPass(key, id, calls - aborted, ReplyAt(calls - aborted));
    OneRowPassEnds(key, id, calls, aborted, ReplyAt(calls - aborted));
    RetriedAgain(key, id, calls, aborted);
    Extends(events, Single(key, id, calls, aborted), e, Single(key, id, calls + 1, aborted));
    longer := events + [e];
  }

  lemma FailureExtends(events: seq<Event>, key: Key, id: string, calls: nat) returns (longer: seq<Event>)
    requires Reaches(events, Single(key, id, calls, calls))
    ensures Reaches(longer, Single(key, id, calls + 1, calls + 1))
  {
    var e := OneRowPass(key, id, 0, Replied(200, None));
    OneRowPassEnds(key, id, calls, calls, Replied(200, None));
    FailedAgain(key, id, calls);
    Extends(events, Single(key, id, calls, calls), e, Single(key, id, calls + 1, calls + 1));
    longer := events + [e];
  }

  lemma QueueReaches(key: Key, id: string) returns (events: seq<Event>)
    ensures Reaches(events, Single(key, id, 0, 0))
  {
    assert Reaches([], Start());
    Extends([], Start(), Queued(key, id, 0), Single(key, id, 0, 0));
    events := [] + [Queued(key, id, 0)];
  }

  /** Malformed replies, each pass at once. */
  lemma {:induction false} FailuresReached(key: Key, id: string, failures: nat) returns (events: seq<Event>)
    ensures Reaches(events, Single(key, id, failures, failures))
  {
    if failures == 0 {
      events := QueueReaches(key, id);
    } else {
      events := FailuresReached(key, id, failures - 1);
      events := FailureExtends(events, key, id, failures - 1);
    }
  }

  /** Then two times not found, then server errors, each row taken as soon as it is due. */
  lemma {:induction false} SingleReached(key: Key, id: string, calls: nat, failures: nat) returns (events: seq<Event>)
    requires failures <= calls <= failures + 174
    ensures Reaches(events, Single(key, id, calls, failures))
    decreases calls
  {
    if calls == failures {
      events := FailuresReached(key, id, failures);
    } else {
      events := SingleReached(key, id, calls - 1, failures);
      events := ReplyExtends(events, key, id, calls - 1, failures);
    }
  }

  /** The bound is exact, and a 200 whose body does not normalise can be asked for any number of times. */
  lemma BoundIsMet(key: Key, id: string, failures: nat)
    ensures exists events, s :: Reaches(events, s) && s.aborted[id] == failures && s.calls[id] == 175 + failures
  {
    var events := SingleReached(key, id, failures + 174, failures);
    OneRowPassEnds(key, id, failures + 174, failures, Replied(400, None));
    var before, e := Single(key, id, failures + 174, failures), OneRowPass(key, id, 174, Replied(400, None));
    Extends(events, before, e, Next(before, e));
    LastCall(key, id, failures);
    assert Reaches(events + [e], Next(before, e));
  }

  lemma LastCall(key: Key, id: string, failures: nat)
    ensures var e := OneRowPass(key, id, 174, Replied(400, None));
            var s := RowStep(Single(key, id, failures + 174, failures), e.rows[0], e.now, e.weather[0]).0;
            s.aborted[id] == failures && s.calls[id] == 175 + failures
  {
    var e := OneRowPass(key, id, 174, Replied(400, None));
    assert PlanOf(e.rows[0].row, e.now, e.weather[0]) == (true, Complete(LookupUnavailable));
  }

  // ---- What a row's reply does, said of the row before and after ----

  /** Under 23 hours old, let through by the limiter and with its token found, a row is asked about. */
  ghost predicate Asked(p: Picked, now: int, w: Weather) {
    now - p.row.createdAt < 23 * 60 * 60 * 1000 && w.allowed && w.token == Found
  }

  /** The reply is the provider's answer, or an answer of 400, or a third one of 404. */
  ghost predicate Answers(row: Lookup, reply: Reply, status: Status) {
    match status
    case Attributed => reply == Replied(200, Some(true))
    case NotAttributed => reply == Replied(200, Some(false))
    case LookupUnavailable => reply.Replied? && (reply.status == 400 || (reply.status == 404 && row.attempts >= 2))
    case TokenExpired => false
  }

  /** The wait after a reply that settles nothing: five seconds after 404, else two, four or eight minutes. */
  ghost function WaitAfter(row: Lookup, reply: Reply): int {
    if reply.Replied? && reply.status == 404 then 5 * 1000
    else if row.attempts <= 0 then 2 * 60 * 1000
    else if row.attempts == 1 then 4 * 60 * 1000
    else 8 * 60 * 1000
  }

  /** A result that a row adds is its token's expiry or the provider's answer, and each of these is recorded. */
  lemma ResultExactlyWhen(s: State, p: Picked, now: int, w: Weather, status: Status)
    requires p.key !in s.results
    ensures var t := RowStep(s, p, now, w).0;
            p.key in t.results && t.results[p.key] == status
            <==> && w.stored
                 && if status == TokenExpired then now - p.row.createdAt >= 23 * 60 * 60 * 1000
                    else Asked(p, now, w) && Answers(p.row, w.reply, status)
  {
    PlanCompletes(p, now, w, status);
  }

  lemma PlanCompletes(p: Picked, now: int, w: Weather, status: Status)
    ensures PlanOf(p.row, now, w).1 == Complete(status)
       <==> if status == TokenExpired then now - p.row.createdAt >= 23 * 60 * 60 * 1000
            else Asked(p, now, w) && Answers(p.row, w.reply, status)
  {
  }

  lemma OtherResultsStay(s: State, p: Picked, now: int, w: Weather, k: Key)
    requires k != p.key || k in s.results
    ensures k in RowStep(s, p, now, w).0.results <==> k in s.results
    ensures k in s.results ==> RowStep(s, p, now, w).0.results[k] == s.results[k]
  {
  }

  /** Exactly the rows that are asked about cost a call. */
  lemma CalledExactlyWhen(s: State, p: Picked, now: int, w: Weather)
    ensures RowStep(s, p, now, w).0.calls == if Asked(p, now, w) then s.calls + multiset{p.row.id} else s.calls
  {
  }

  /** A row that is kept waits for the limiter or after a reply, and only a reply counts as an attempt, up to three. */
  lemma KeptRowWaits(s: State, p: Picked, now: int, w: Weather)
    requires 0 <= p.row.attempts <= 3 && Current(s.lookups, p) && RowStep(s, p, now, w).1.Retried?
    ensures var t := RowStep(s, p, now, w).0;
            && p.key in t.lookups && w.stored && now - p.row.createdAt < 23 * 60 * 60 * 1000
            && (w.allowed ==> Asked(p, now, w) && t.lookups[p.key].nextAt == now + WaitAfter(p.row, w.reply))
            && (w.allowed ==> t.lookups[p.key].attempts == if p.row.attempts < 3 then p.row.attempts + 1 else 3)
            && (!w.allowed ==> t.lookups[p.key].nextAt == now + 1000 && t.lookups[p.key].attempts == p.row.attempts)
            && t.lookups[p.key].id == p.row.id && t.lookups[p.key].createdAt == p.row.createdAt
  {
    assert Power2(0) == 1;
    assert Power2(1) == 2 * Power2(0);
    assert Power2(2) == 2 * Power2(1);
    assert Power2(3) == 2 * Power2(2);
  }

  /**
   A row fails exactly when storage refuses, its result is there, its token is unreadable or its body does not
   normalise.
   */
  lemma FailsExactlyWhen(s: State, p: Picked, now: int, w: Weather)
    ensures RowStep(s, p, now, w).1.Failed?
       <==> || !w.stored
            || (now - p.row.createdAt >= 23 * 60 * 60 * 1000 && p.key in s.results)
            || (now - p.row.createdAt < 23 * 60 * 60 * 1000 && w.allowed && w.token == Unreadable)
            || (Asked(p, now, w) && w.reply == Replied(200, None))
            || (Asked(p, now, w) && p.key in s.results && exists status :: Answers(p.row, w.reply, status))
  {
    var answered := Answers(p.row, w.reply, Attributed) || Answers(p.row, w.reply, NotAttributed);
    assert answered || Answers(p.row, w.reply, LookupUnavailable) ==> exists status :: Answers(p.row, w.reply, status);
  }

  /** A lookup is gone after its row exactly when the row completed; other lookups stay. */
  lemma GoneExactlyWhen(s: State, p: Picked, now: int, w: Weather)
    requires Current(s.lookups, p)
    ensures p.key !in RowStep(s, p, now, w).0.lookups <==> RowStep(s, p, now, w).1.Completed?
    ensures forall k :: k != p.key ==>
              (k in RowStep(s, p, now, w).0.lookups <==> k in s.lookups)
              && (k in s.lookups ==> RowStep(s, p, now, w).0.lookups[k] == s.lookups[k])
  {
  }

  /** The row's next attempt has come, or its token is 23 hours old. */
  ghost predicate HasCome(row: Lookup, now: int) {
    row.nextAt <= now || now - row.createdAt >= 23 * 60 * 60 * 1000
  }

  /** Earlier by the next attempt, and at the same time by the ID. */
  ghost predicate Ahead(a: Lookup, b: Lookup) {
    a.nextAt < b.nextAt || (a.nextAt == b.nextAt && (a.id == b.id || Precedes(a.id, b.id, PointBefore)))
  }

  /**
   A pass works on rows whose time has come, the earliest first, and leaves one out only behind a hundred earlier
   ones.
   */
  lemma SelectedMeans(lookups: map<Key, Lookup>, tenant: string, now: int, rows: seq<Picked>, k: Key)
    requires Selected(lookups, tenant, now, rows)
    ensures forall i :: 0 <= i < |rows| ==> rows[i].key.tenant == tenant && HasCome(rows[i].row, now)
    ensures forall i, j :: 0 <= i < j < |rows| ==> Ahead(rows[i].row, rows[j].row)
    ensures k in lookups && k.tenant == tenant && HasCome(lookups[k], now) && Picked(k, lookups[k]) !in rows ==>
              |rows| == 100 && forall i :: 0 <= i < |rows| ==> Ahead(rows[i].row, lookups[k])
  {
    forall a: Lookup, b: Lookup ensures Before(a, b) <==> Ahead(a, b) {
      BeforeMeans(a, b);
    }
  }

  lemma BeforeMeans(a: Lookup, b: Lookup)
    ensures Before(a, b) <==> Ahead(a, b)
  {
    TextOrderMeans(a.id, b.id);
    UnitsTotal(CodePoints(a.id), CodePoints(a.id));
  }
}
