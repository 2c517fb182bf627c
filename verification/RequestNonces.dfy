/** Replay protection of signed SDK requests: a timestamp window and a table of nonces that expire. */
module RequestNonces {

  datatype PrincipalKind = SdkKey | Installation
  datatype Principal = Principal(tenantId: string, appId: string, kind: PrincipalKind, keyId: string)

  /** What the signature covers, apart from method, path and body. */
  datatype Signed = Signed(principal: Principal, nonce: string, timestampMs: int)

  datatype Failure = HeadersInvalid | KeyInactive | SignatureInvalid

  /** One call: the failure its headers, key or signature already cause, if any, and the clock when it is checked. */
  datatype Call = Call(signed: Signed, failure: CallFailure, nowMs: int)
  datatype CallFailure = NoFailure | Failed(failure: Failure)

  datatype Outcome = Accepted | Refused(failure: Failure) | OutOfWindow | NonceReused | StorageFailed

  datatype Config = Config(timestampSkewMs: int, nonceTtlMs: int)

  type NonceKey = (Principal, string)
  /** Nonce to expiry. */
  type Nonces = map<NonceKey, int>

  function KeyOf(s: Signed): NonceKey { (s.principal, s.nonce) }

  function Distance(a: int, b: int): nat { if a < b then b - a else a - b }

  function Live(nonces: Nonces, nowMs: int): Nonces {
    map k | k in nonces && nonces[k] > nowMs :: nonces[k]
  }

  /** The table after a call and its outcome. The table refuses a nonce that would expire before it is created. */
  function Step(config: Config, nonces: Nonces, c: Call): (Nonces, Outcome) {
    if c.failure.Failed? then (nonces, Refused(c.failure.failure))
    else if Distance(c.nowMs, c.signed.timestampMs) > config.timestampSkewMs then (nonces, OutOfWindow)
    else
      var live := Live(nonces, c.nowMs);
      if KeyOf(c.signed) in live then (live, NonceReused)
      else if config.nonceTtlMs <= 0 then (nonces, StorageFailed)
      else (live[KeyOf(c.signed) := c.nowMs + config.nonceTtlMs], Accepted)
  }

  /** The stored table; one call deletes what has expired and inserts its nonce if it is absent. */
  class NonceStore {
    const config: Config
    var nonces: Nonces

    constructor (config: Config)
      ensures this.config == config && nonces == map[]
    {
      this.config := config;
      nonces := map[];
    }

    method Verify(c: Call) returns (outcome: Outcome)
      modifies this
      ensures (nonces, outcome) == Step(config, old(nonces), c)
    {
      if c.failure.Failed? {
        return Refused(c.failure.failure);
      }
      if Distance(c.nowMs, c.signed.timestampMs) > config.timestampSkewMs {
        return OutOfWindow;
      }
      var live := Live(nonces, c.nowMs);
      if KeyOf(c.signed) in live {
        nonces := live;
        return NonceReused;
      }
      if config.nonceTtlMs <= 0 {
        return StorageFailed;
      }
      nonces := live[KeyOf(c.signed) := c.nowMs + config.nonceTtlMs];
      return Accepted;
    }
  }

  // ---- Runs ----

  function TableAfter(config: Config, calls: seq<Call>): Nonces {
    if calls == [] then map[] else Step(config, TableAfter(config, calls[..|calls| - 1]), calls[|calls| - 1]).0
  }

  function OutcomeAt(config: Config, calls: seq<Call>, i: nat): Outcome
    requires i < |calls|
  {
    Step(config, TableAfter(config, calls[..i]), calls[i]).1
  }

  ghost predicate ClockNeverRunsBack(calls: seq<Call>) {
    forall i, j :: 0 <= i < j < |calls| ==> calls[i].nowMs <= calls[j].nowMs
  }

  /** The nonce is still stored at least until then, or that time has already passed. */
  ghost predicate HeldUntil(nonces: Nonces, key: NonceKey, until: int, clock: int) {
    (key in nonces && nonces[key] >= until) || clock >= until
  }

  lemma StepHolds(config: Config, nonces: Nonces, c: Call, key: NonceKey, until: int, clock: int)
    requires HeldUntil(nonces, key, until, clock) && clock <= c.nowMs
    ensures HeldUntil(Step(config, nonces, c).0, key, until, c.nowMs)
  {
  }

  lemma {:induction false} AcceptedIsHeld(config: Config, calls: seq<Call>, i: nat, j: nat)
    requires ClockNeverRunsBack(calls) && i < j <= |calls| && OutcomeAt(config, calls, i) == Accepted
    ensures HeldUntil(TableAfter(config, calls[..j]), KeyOf(calls[i].signed), calls[i].nowMs + config.nonceTtlMs,
                      calls[j - 1].nowMs)
    decreases j
  {
    assert calls[..j][..j - 1] == calls[..j - 1];
    if i < j - 1 {
      AcceptedIsHeld(config, calls, i, j - 1);
      StepHolds(config, TableAfter(config, calls[..j - 1]), calls[j - 1], KeyOf(calls[i].signed),
                calls[i].nowMs + config.nonceTtlMs, calls[j - 2].nowMs);
    }
  }

  /** Two accepted uses of one nonce by one principal are at least a time-to-live apart. */
  lemma AcceptedUsesFarApart(config: Config, calls: seq<Call>, i: nat, j: nat)
    requires ClockNeverRunsBack(calls) && i < j < |calls|
    requires OutcomeAt(config, calls, i) == Accepted && OutcomeAt(config, calls, j) == Accepted
    requires KeyOf(calls[i].signed) == KeyOf(calls[j].signed)
    ensures calls[j].nowMs >= calls[i].nowMs + config.nonceTtlMs
  {
    AcceptedIsHeld(config, calls, i, j);
  }

  lemma OlderEntryKept(config: Config, calls: seq<Call>, key: NonceKey)
    requires calls != [] && key in TableAfter(config, calls)
    requires OutcomeAt(config, calls, |calls| - 1) != Accepted || KeyOf(calls[|calls| - 1].signed) != key
    ensures var before := TableAfter(config, calls[..|calls| - 1]);
            key in before && TableAfter(config, calls)[key] == before[key]
  {
  }

  lemma {:induction false} StoredHasOrigin(config: Config, calls: seq<Call>, key: NonceKey)
    requires key in TableAfter(config, calls)
    ensures exists j :: 0 <= j < |calls| && OutcomeAt(config, calls, j) == Accepted && KeyOf(calls[j].signed) == key
                     && TableAfter(config, calls)[key] == calls[j].nowMs + config.nonceTtlMs
    decreases |calls|
  {
    var last, before := |calls| - 1, calls[..|calls| - 1];
    if OutcomeAt(config, calls, last) != Accepted || KeyOf(calls[last].signed) != key {
      OlderEntryKept(config, calls, key);
      StoredHasOrigin(config, before, key);
      var j :| 0 <= j < last && OutcomeAt(config, before, j) == Accepted && KeyOf(before[j].signed) == key
               && TableAfter(config, before)[key] == before[j].nowMs + config.nonceTtlMs;
      assert before[..j] == calls[..j];
    }
  }

  /** An earlier accepted use of the call's nonce that has not expired when the call arrives. */
  ghost predicate StillBlocked(config: Config, calls: seq<Call>, i: nat)
    requires i < |calls|
  {
    exists j :: 0 <= j < i && OutcomeAt(config, calls, j) == Accepted && KeyOf(calls[j].signed) == KeyOf(calls[i].signed)
                && calls[j].nowMs + config.nonceTtlMs > calls[i].nowMs
  }

  /** A call is accepted exactly when it is authentic, inside the window and not blocked by an unexpired earlier use. */
  lemma AcceptedExactlyWhen(config: Config, calls: seq<Call>, i: nat)
    requires ClockNeverRunsBack(calls) && i < |calls| && config.nonceTtlMs > 0
    ensures OutcomeAt(config, calls, i) == Accepted
       <==> calls[i].failure.NoFailure? && Distance(calls[i].nowMs, calls[i].signed.timestampMs) <= config.timestampSkewMs
            && !StillBlocked(config, calls, i)
  {
    var key, table := KeyOf(calls[i].signed), TableAfter(config, calls[..i]);
    if key in Live(table, calls[i].nowMs) {
      StoredHasOrigin(config, calls[..i], key);
      var j :| 0 <= j < i && OutcomeAt(config, calls[..i], j) == Accepted && KeyOf(calls[..i][j].signed) == key
               && table[key] == calls[..i][j].nowMs + config.nonceTtlMs;
      assert calls[..i][..j] == calls[..j];
      assert StillBlocked(config, calls, i);
    } else if StillBlocked(config, calls, i) {
      var j :| 0 <= j < i && OutcomeAt(config, calls, j) == Accepted && KeyOf(calls[j].signed) == key
               && calls[j].nowMs + config.nonceTtlMs > calls[i].nowMs;
      AcceptedIsHeld(config, calls, j, i);
      assert false;
    }
  }

  /** No signed request is accepted twice in the run. */
  ghost predicate NoReplay(config: Config, calls: seq<Call>) {
    forall i, j :: 0 <= i < j < |calls| && OutcomeAt(config, calls, i) == Accepted && OutcomeAt(config, calls, j) == Accepted
                   ==> calls[i].signed != calls[j].signed
  }

  lemma LongTtlPreventsReplay(config: Config, calls: seq<Call>)
    requires config.nonceTtlMs > 2 * config.timestampSkewMs && ClockNeverRunsBack(calls)
    ensures NoReplay(config, calls)
  {
    forall i, j | 0 <= i < j < |calls| && OutcomeAt(config, calls, i) == Accepted && OutcomeAt(config, calls, j) == Accepted
      ensures calls[i].signed != calls[j].signed
    {
      if calls[i].signed == calls[j].signed {
        AcceptedUsesFarApart(config, calls, i, j);
      }
    }
  }

  /** The earliest and the latest moment one request is inside the window. */
  function EdgeCalls(config: Config): seq<Call> {
    var signed := Signed(Principal("tenant", "app", SdkKey, "key"), "AAAAAAAAAAAAAAAAAAAAAA", 0);
    [Call(signed, NoFailure, -config.timestampSkewMs), Call(signed, NoFailure, config.timestampSkewMs)]
  }

  lemma ShortTtlAllowsReplay(config: Config)
    requires config.timestampSkewMs >= 0 && 0 < config.nonceTtlMs <= 2 * config.timestampSkewMs
    ensures ClockNeverRunsBack(EdgeCalls(config)) && !NoReplay(config, EdgeCalls(config))
  {
    var calls := EdgeCalls(config);
    var first := Step(config, map[], calls[0]);
    assert calls[..0] == [] && calls[..1] == [calls[0]];
    assert calls[..1][..0] == [];
    assert TableAfter(config, calls[..1]) == first.0;
    assert first.0 == map[KeyOf(calls[0].signed) := calls[0].nowMs + config.nonceTtlMs];
    assert Live(first.0, calls[1].nowMs) == map[];
    assert OutcomeAt(config, calls, 0) == Accepted && OutcomeAt(config, calls, 1) == Accepted;
  }

  lemma NothingAccepted(config: Config, calls: seq<Call>)
    requires config.timestampSkewMs < 0 || config.nonceTtlMs <= 0
    ensures NoReplay(config, calls)
  {
  }

  /**
   Replay protection holds over every run with one clock that never runs back if and only if a nonce outlives the
   whole window its timestamp is accepted in (or the settings accept nothing at all).
   */
  lemma ReplayProtectionExactlyWhen(config: Config)
    ensures (forall calls :: ClockNeverRunsBack(calls) ==> NoReplay(config, calls))
       <==> config.nonceTtlMs > 2 * config.timestampSkewMs || config.timestampSkewMs < 0 || config.nonceTtlMs <= 0
  {
    if config.nonceTtlMs > 2 * config.timestampSkewMs || config.timestampSkewMs < 0 || config.nonceTtlMs <= 0 {
      forall calls | ClockNeverRunsBack(calls) ensures NoReplay(config, calls) {
        if config.timestampSkewMs < 0 || config.nonceTtlMs <= 0 {
          NothingAccepted(config, calls);
        } else {
          LongTtlPreventsReplay(config, calls);
        }
      }
    } else {
      ShortTtlAllowsReplay(config);
    }
  }

  // ---- Every outcome, said of the requests and the clock ----

  ghost predicate InWindow(config: Config, c: Call) {
    -config.timestampSkewMs <= c.nowMs - c.signed.timestampMs <= config.timestampSkewMs
  }

  /** An accepted request of the same principal with the same nonce came before and less than a time-to-live ago. */
  ghost predicate UsedBefore(config: Config, calls: seq<Call>, i: nat)
    requires i < |calls|
  {
    exists j :: 0 <= j < i && OutcomeAt(config, calls, j) == Accepted
                && calls[j].signed.principal == calls[i].signed.principal && calls[j].signed.nonce == calls[i].signed.nonce
                && calls[i].nowMs - calls[j].nowMs < config.nonceTtlMs
  }

  /** With a time-to-live, the four outcomes are exactly these cases. */
  lemma OutcomeExactlyWhen(config: Config, calls: seq<Call>, i: nat)
    requires ClockNeverRunsBack(calls) && i < |calls| && config.nonceTtlMs > 0
    ensures match OutcomeAt(config, calls, i)
            case Refused(failure) => calls[i].failure == Failed(failure)
            case OutOfWindow => calls[i].failure == NoFailure && !InWindow(config, calls[i])
            case NonceReused => calls[i].failure == NoFailure && InWindow(config, calls[i]) && UsedBefore(config, calls, i)
            case Accepted => calls[i].failure == NoFailure && InWindow(config, calls[i]) && !UsedBefore(config, calls, i)
            case StorageFailed => false
  {
    AcceptedExactlyWhen(config, calls, i);
    assert UsedBefore(config, calls, i) <==> StillBlocked(config, calls, i);
  }
}
