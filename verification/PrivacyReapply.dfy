/** Re-application of completed privacy deletions to the ledger, the payload store and the lookup queue. */
module PrivacyReapply {
  import opened Outcomes
  import opened Sequences
  import opened CanonicalOrder

  // ---- Requests ----

  datatype Affected = Affected(record: Option<string>, lifecycle: string)
  datatype Artifact = Artifact(status: string, id: string, tenant: string, app: string, hasSubjectRef: bool,
                               scope: Option<string>, affected: Option<seq<Affected>>)
  datatype Request = Request(id: string, tenant: string, app: string, completedAt: string, artifact: Artifact)
  datatype Scope = Installation | App | Tenant

  function ScopeOf(r: Request): Option<Scope> {
    match r.artifact.scope
    case None => None
    case Some(s) => if s == "installation" then Some(Installation) else if s == "app" then Some(App)
                    else if s == "tenant" then Some(Tenant) else None
  }

  function Deduplicated(xs: seq<string>): seq<string> {
    if xs == [] then []
    else
      var before := Deduplicated(xs[..|xs| - 1]);
      if xs[|xs| - 1] in before then before else before + [xs[|xs| - 1]]
  }

  /** The distinct affected records in order, of an artifact that is complete and matches its request. */
  function AffectedRecords(r: Request): Result<seq<string>> {
    var a := r.artifact;
    if a.status != "completed" || a.id != r.id || a.tenant != r.tenant || a.app != r.app || a.hasSubjectRef then Err
    else match a.affected
      case None => Err
      case Some(values) =>
        if exists i :: 0 <= i < |values| && (values[i].record.None? || values[i].lifecycle != "purged") then Err
        else Ok(Sort(Deduplicated(Map(values, (v: Affected) => if v.record.Some? then v.record.value else "")),
                     s => KeyOf([s])))
  }

  lemma {:induction false} DeduplicatedMeans(xs: seq<string>, x: string)
    ensures x in Deduplicated(xs) <==> x in xs
    ensures Distinct(Deduplicated(xs))
    decreases |xs|
  {
    if xs != [] {
      DeduplicatedMeans(xs[..|xs| - 1], x);
      DeduplicatedMeans(xs[..|xs| - 1], xs[|xs| - 1]);
      assert xs == xs[..|xs| - 1] + [xs[|xs| - 1]];
    }
  }

  /** Exactly the records the artifact lists, each once, in order. */
  lemma AffectedRecordsMeans(r: Request)
    requires AffectedRecords(r).Ok?
    ensures var records := AffectedRecords(r).value;
            && Distinct(records) && Sorted(records, (s: string) => KeyOf([s]))
            && forall x :: x in records <==> exists i :: 0 <= i < |r.artifact.affected.value| && r.artifact.affected.value[i].record == Some(x)
  {
    var values := r.artifact.affected.value;
    var name := (v: Affected) => if v.record.Some? then v.record.value else "";
    var key := (s: string) => KeyOf([s]);
    var xs := Map(values, name);
    MapAt(values, name);
    DeduplicatedMeans(xs, "");
    SortPermutes(Deduplicated(xs), key);
    DistinctPermuted(Deduplicated(xs), Sort(Deduplicated(xs), key));
    SortSorted(Deduplicated(xs), key);
    forall x
      ensures x in Sort(Deduplicated(xs), key) <==> exists i :: 0 <= i < |values| && values[i].record == Some(x)
    {
      SortMember(Deduplicated(xs), key, x);
      DeduplicatedMeans(xs, x);
      assert x in xs <==> exists i :: 0 <= i < |xs| && xs[i] == x;
    }
  }

  // ---- The stores ----

  datatype Raw = Raw(tenant: string, app: string, record: string, producer: string, event: string, payloadRef: string)
  datatype Inbox = Inbox(tenant: string, app: string, producer: string, event: string, queryRef: string)
  datatype Batch = Batch(tenant: string, app: string, bodyRef: string, records: set<string>)
  datatype LookupResult = LookupResult(tenant: string, app: string, record: string, responseRef: string)
  datatype Manifest = Manifest(tenant: string, app: string, source: string)

  datatype Lookup = Lookup(id: string, tenant: string, app: string, record: string, tokenRef: string)
  datatype PayloadState = PayloadState(tenant: string, app: string, changedAt: string, request: string)
  datatype Tombstone = Tombstone(provenance: string, createdAt: string)
  datatype Correction = Correction(tenant: string, app: string, record: string, effectiveAt: string)
  datatype Run = Run(tenant: string, app: string, evidence: set<string>, computedAt: string,
                     supersedes: Option<string>, value: string)
  datatype Audit = Audit(app: string, occurredAt: string, digest: string)

  /**
   What a pass reads and never writes: append-only tables, manifests in the order of their source runs, the objects
   that payload references name, objects the payload store fails to delete, ID and digest functions, and the metric engine.
   */
  datatype World = World(
    raws: set<Raw>, inbox: set<Inbox>, batches: set<Batch>, results: set<LookupResult>, manifests: seq<Manifest>,
    objectOf: string -> Option<string>, undeletable: set<string>,
    provenance: (Request, string) -> string, correctionId: (string, string) -> string,
    replacementId: (string, string) -> string, auditDigest: (Request, seq<string>, set<string>) -> string,
    compute: (Ledger, Request, Manifest) -> Result<seq<Run>>)

  /**
   `objects` is what the payload store holds; `purged` has the purged states by record; tombstones are keyed by tenant,
   application, request and record, and audits by tenant and request.
   */
  datatype Ledger = Ledger(
    objects: set<string>, purged: map<string, PayloadState>, tombstones: map<(string, string, string, string), Tombstone>,
    corrections: map<string, Correction>, lookups: set<Lookup>, runs: map<string, Run>, audits: map<(string, string), Audit>)

  // ---- References to purge ----

  predicate Encrypted(reference: string) { "encrypted:" <= reference }

  predicate InScope(r: Request, scope: Scope, tenant: string, app: string, record: bool) {
    tenant == r.tenant && (scope == Tenant || (app == r.app && (scope == App || record)))
  }

  /** A payload shared with a record that stays is kept, unless the whole application or tenant goes. */
  predicate RawPurged(w: World, r: Request, scope: Scope, records: seq<string>, raw: Raw) {
    && Encrypted(raw.payloadRef) && InScope(r, scope, raw.tenant, raw.app, raw.record in records)
    && (scope == Installation ==>
          forall other :: other in w.raws && other.tenant == raw.tenant && other.payloadRef == raw.payloadRef ==>
              other.record in records)
  }

  predicate InboxPurged(w: World, r: Request, scope: Scope, records: seq<string>, i: Inbox) {
    && Encrypted(i.queryRef)
    && InScope(r, scope, i.tenant, i.app,
         exists raw :: raw in w.raws && raw.tenant == i.tenant && raw.app == i.app && raw.producer == i.producer
                       && raw.event == i.event && raw.record in records)
  }

  predicate BatchPurged(r: Request, scope: Scope, records: seq<string>, b: Batch) {
    && Encrypted(b.bodyRef)
    && InScope(r, scope, b.tenant, b.app, b.records != {} && forall record :: record in b.records ==> record in records)
  }

  predicate LookupInScope(r: Request, scope: Scope, records: seq<string>, l: Lookup) {
    InScope(r, scope, l.tenant, l.app, l.record in records)
  }

  function References(w: World, lookups: set<Lookup>, r: Request, scope: Scope, records: seq<string>): set<string> {
    (set raw | raw in w.raws && RawPurged(w, r, scope, records, raw) :: raw.payloadRef)
    + (set i | i in w.inbox && InboxPurged(w, r, scope, records, i) :: i.queryRef)
    + (set b | b in w.batches && BatchPurged(r, scope, records, b) :: b.bodyRef)
    + (set x | x in w.results && Encrypted(x.responseRef) && InScope(r, scope, x.tenant, x.app, x.record in records) :: x.responseRef)
    + (set l | l in lookups && Encrypted(l.tokenRef) && LookupInScope(r, scope, records, l) :: l.tokenRef)
  }

  predicate Purgeable(w: World, objects: set<string>, reference: string) {
    match w.objectOf(reference) case None => false case Some(o) => !(o in objects && o in w.undeletable)
  }

  function ObjectsOf(w: World, references: set<string>): set<string> {
    set reference | reference in references && w.objectOf(reference).Some? :: w.objectOf(reference).value
  }

  function PurgeAll(w: World, objects: set<string>, references: set<string>): Result<set<string>> {
    if forall reference :: reference in references ==> Purgeable(w, objects, reference)
    then Ok(objects - ObjectsOf(w, references)) else Err
  }

  // ---- Tombstones and corrections ----

  function Kept<K, V>(m: map<K, V>, k: K, v: V): map<K, V> { if k in m then m else m[k := v] }

  /** A first purged state needs its raw record. */
  function AppendOne(w: World, s: Ledger, r: Request, record: string): Result<Ledger> {
    if record !in s.purged && !(exists raw :: raw in w.raws && raw.tenant == r.tenant && raw.app == r.app && raw.record == record) then Err
    else Ok(s.(
      purged := Kept(s.purged, record, PayloadState(r.tenant, r.app, r.completedAt, r.id)),
      tombstones := Kept(s.tombstones, (r.tenant, r.app, r.id, record), Tombstone(w.provenance(r, record), r.completedAt)),
      corrections := Kept(s.corrections, w.correctionId(r.id, record), Correction(r.tenant, r.app, record, r.completedAt))))
  }

  function AppendAll(w: World, s: Ledger, r: Request, records: seq<string>): Result<Ledger> {
    if records == [] then Ok(s)
    else
      var before :- AppendAll(w, s, r, records[..|records| - 1]);
      AppendOne(w, before, r, records[|records| - 1])
  }

  // ---- Metric runs ----

  predicate ManifestAffected(runs: map<string, Run>, r: Request, records: seq<string>, m: Manifest) {
    && m.tenant == r.tenant && m.app == r.app && m.source in runs
    && exists e :: e in runs[m.source].evidence && e in records
  }

  function AffectedManifests(w: World, runs: map<string, Run>, r: Request, records: seq<string>): seq<Manifest> {
    Filter(w.manifests, m => ManifestAffected(runs, r, records, m))
  }

  predicate Succeeds(runs: map<string, Run>, r: Request, source: string, id: string) {
    id in runs && runs[id].tenant == r.tenant && runs[id].app == r.app && runs[id].supersedes == Some(source)
  }

  function RunKey(runs: map<string, Run>, id: string): Key
    requires id in runs
  {
    KeyOf([runs[id].computedAt, id])
  }

  ghost predicate IsLatest(runs: map<string, Run>, r: Request, source: string, id: string) {
    && Succeeds(runs, r, source, id)
    && forall other :: other in runs && Succeeds(runs, r, source, other) ==>
         KeyLe(RunKey(runs, other), RunKey(runs, id))
  }

  /** The run a replacement supersedes: the latest direct successor of the source, or the source. */
  ghost function SupersededBy(runs: map<string, Run>, r: Request, source: string): string {
    if exists id :: id in runs && IsLatest(runs, r, source, id) then
      var id :| id in runs && IsLatest(runs, r, source, id);
      id
    else source
  }

  lemma OneLatest(runs: map<string, Run>, r: Request, source: string, id: string, other: string)
    requires IsLatest(runs, r, source, id) && IsLatest(runs, r, source, other)
    ensures id == other
  {
    KeyTotal(RunKey(runs, id), RunKey(runs, other));
    KeyOfInjective([runs[id].computedAt, id], [runs[other].computedAt, other]);
    assert [runs[id].computedAt, id][1] == [runs[other].computedAt, other][1];
  }

  /** Nothing changes when the replacement exists; otherwise the one computed run is added. */
  ghost function RecalculateOne(w: World, s: Ledger, r: Request, m: Manifest): Result<Ledger> {
    var id := w.replacementId(r.id, m.source);
    if id in s.runs then Ok(s)
    else
      var output :- w.compute(s, r, m);
      if |output| != 1 then Err
      else Ok(s.(runs := s.runs[id := output[0].(supersedes := Some(SupersededBy(s.runs, r, m.source)))]))
  }

  ghost function RecalculateAll(w: World, s: Ledger, r: Request, ms: seq<Manifest>): Result<Ledger> {
    if ms == [] then Ok(s)
    else
      var before :- RecalculateAll(w, s, r, ms[..|ms| - 1]);
      RecalculateOne(w, before, r, ms[|ms| - 1])
  }

  predicate StrictlyBefore(a: string, b: string) { a != b && TextLe(a, b) }

  /** Affected runs made before the request completed and without a manifest to replay. */
  function Unsupported(w: World, runs: map<string, Run>, r: Request, records: seq<string>): set<string> {
    set id | id in runs && runs[id].tenant == r.tenant && runs[id].app == r.app && StrictlyBefore(runs[id].computedAt, r.completedAt)
             && (exists e :: e in runs[id].evidence && e in records)
             && !(exists i :: 0 <= i < |w.manifests| && w.manifests[i] == Manifest(r.tenant, r.app, id))
  }

  // ---- A request, and a pass over requests ----

  datatype Counts = Counts(purged: nat, recalculated: nat, unsupported: nat)

  function Sum(a: Counts, b: Counts): Counts {
    Counts(a.purged + b.purged, a.recalculated + b.recalculated, a.unsupported + b.unsupported)
  }

  function WithoutLookups(lookups: set<Lookup>, r: Request, scope: Scope, records: seq<string>): set<Lookup> {
    set l | l in lookups && !LookupInScope(r, scope, records, l)
  }

  /** Purge, append, drop lookups, recalculate, and audit once. */
  ghost function ApplyOne(w: World, s: Ledger, r: Request): Result<(Ledger, Counts)> {
    var records :- AffectedRecords(r);
    if ScopeOf(r).None? then Err else ApplyTo(w, s, r, ScopeOf(r).value, records)
  }

  ghost function ApplyTo(w: World, s: Ledger, r: Request, scope: Scope, records: seq<string>):
    Result<(Ledger, Counts)>
  {
    var references := References(w, s.lookups, r, scope, records);
    var objects :- PurgeAll(w, s.objects, references);
    var appended :- AppendAll(w, s.(objects := objects), r, records);
    var dropped := appended.(lookups := WithoutLookups(appended.lookups, r, scope, records));
    var affected := AffectedManifests(w, dropped.runs, r, records);
    var computed :- RecalculateAll(w, dropped, r, affected);
    var audited := computed.(audits := Kept(computed.audits, (r.tenant, r.id),
                                            Audit(r.app, r.completedAt, w.auditDigest(r, records, references))));
    Ok((audited, Counts(|references|, |affected|, |Unsupported(w, computed.runs, r, records)|)))
  }

  ghost function Pass(w: World, s: Ledger, rs: seq<Request>): Result<(Ledger, Counts)> {
    if rs == [] then Ok((s, Counts(0, 0, 0)))
    else
      var before :- Pass(w, s, rs[..|rs| - 1]);
      var after :- ApplyOne(w, before.0, rs[|rs| - 1]);
      Ok((after.0, Sum(before.1, after.1)))
  }

  class Stores {
    const w: World
    var objects: set<string>
    var purged: map<string, PayloadState>
    var tombstones: map<(string, string, string, string), Tombstone>
    var corrections: map<string, Correction>
    var lookups: set<Lookup>
    var runs: map<string, Run>
    var audits: map<(string, string), Audit>

    function Value(): Ledger reads this { Ledger(objects, purged, tombstones, corrections, lookups, runs, audits) }

    constructor (w: World, s: Ledger)
      ensures this.w == w && Value() == s
    {
      this.w := w;
      objects, purged, tombstones, corrections := s.objects, s.purged, s.tombstones, s.corrections;
      lookups, runs, audits := s.lookups, s.runs, s.audits;
    }

    /** Stops at the first reference that names no object, or whose object is still there. */
    method PurgeAndVerify(references: set<string>) returns (ok: bool)
      modifies this`objects
      ensures ok <==> PurgeAll(w, old(objects), references).Ok?
      ensures ok ==> objects == PurgeAll(w, old(objects), references).value
      ensures objects <= old(objects)
    {
      var pending := references;
      while pending != {}
        invariant pending <= references && objects == old(objects) - ObjectsOf(w, references - pending)
        invariant forall reference :: reference in references - pending ==> Purgeable(w, old(objects), reference)
        decreases pending
      {
        var reference :| reference in pending;
        var named := w.objectOf(reference);
        if named.None? {
          assert !Purgeable(w, old(objects), reference);
          return false;
        }
        if named.value !in w.undeletable {
          objects := objects - {named.value};
        }
        if named.value in objects {
          assert !Purgeable(w, old(objects), reference);
          return false;
        }
        pending := pending - {reference};
      }
      assert references - pending == references;
      return true;
    }

    method AppendPrivacyArtifacts(r: Request, records: seq<string>) returns (ok: bool)
      modifies this`purged, this`tombstones, this`corrections
      ensures ok <==> AppendAll(w, old(Value()), r, records).Ok?
      ensures ok ==> Value() == AppendAll(w, old(Value()), r, records).value
    {
      for i := 0 to |records|
        invariant AppendAll(w, old(Value()), r, records[..i]) == Ok(Value())
      {
        AppendNext(w, old(Value()), r, records, i);
        ok := AppendArtifactsOf(r, records[i]);
        if !ok {
          return false;
        }
      }
      assert records[..|records|] == records;
      return true;
    }

    method AppendArtifactsOf(r: Request, record: string) returns (ok: bool)
      modifies this`purged, this`tombstones, this`corrections
      ensures ok <==> AppendOne(w, old(Value()), r, record).Ok?
      ensures ok ==> Value() == AppendOne(w, old(Value()), r, record).value
    {
      if record !in purged {
        if !exists raw :: raw in w.raws && raw.tenant == r.tenant && raw.app == r.app && raw.record == record {
          return false;
        }
        purged := purged[record := PayloadState(r.tenant, r.app, r.completedAt, r.id)];
      }
      tombstones := Kept(tombstones, (r.tenant, r.app, r.id, record),
                         Tombstone(w.provenance(r, record), r.completedAt));
      corrections := Kept(corrections, w.correctionId(r.id, record),
                          Correction(r.tenant, r.app, record, r.completedAt));
      return true;
    }

    /** The latest run that directly supersedes the source, or the source. */
    method Successor(r: Request, source: string) returns (id: string)
      ensures id == SupersededBy(runs, r, source)
    {
      var latest: Option<string> := None;
      var pending := runs.Keys;
      while pending != {}
        invariant pending <= runs.Keys
        invariant latest.None? ==> forall other :: other in runs && Succeeds(runs, r, source, other) ==>
                    other in pending
        invariant latest.Some? ==> latest.value in runs && Succeeds(runs, r, source, latest.value)
        invariant latest.Some? ==>
                    forall other :: other in runs && Succeeds(runs, r, source, other) && other !in pending ==>
                                     KeyLe(RunKey(runs, other), RunKey(runs, latest.value))
        decreases pending
      {
        var next :| next in pending;
        pending := pending - {next};
        if Succeeds(runs, r, source, next) {
          KeyTotal(RunKey(runs, next), RunKey(runs, next));
          if latest.Some? {
            LatestStays(runs, r, source, latest.value, next, pending);
          }
          if latest.None? || KeyLe(RunKey(runs, latest.value), RunKey(runs, next)) {
            latest := Some(next);
          }
        }
      }
      if latest.None? {
        return source;
      }
      assert IsLatest(runs, r, source, latest.value);
      OneLatest(runs, r, source, latest.value, SupersededBy(runs, r, source));
      return latest.value;
    }

    method RecalculateMetrics(r: Request, affected: seq<Manifest>) returns (ok: bool)
      modifies this`runs
      ensures ok <==> RecalculateAll(w, old(Value()), r, affected).Ok?
      ensures ok ==> Value() == RecalculateAll(w, old(Value()), r, affected).value
    {
      for i := 0 to |affected|
        invariant RecalculateAll(w, old(Value()), r, affected[..i]) == Ok(Value())
      {
        RecalculateNext(w, old(Value()), r, affected, i);
        ok := ReplaceRun(r, affected[i]);
        if !ok {
          return false;
        }
      }
      assert affected[..|affected|] == affected;
      return true;
    }

    method ReplaceRun(r: Request, m: Manifest) returns (ok: bool)
      modifies this`runs
      ensures ok <==> RecalculateOne(w, old(Value()), r, m).Ok?
      ensures ok ==> Value() == RecalculateOne(w, old(Value()), r, m).value
    {
      var id := w.replacementId(r.id, m.source);
      if id in runs {
        return true;
      }
      var output := w.compute(Value(), r, m);
      if output.Err? || |output.value| != 1 {
        return false;
      }
      var superseded := Successor(r, m.source);
      runs := runs[id := output.value[0].(supersedes := Some(superseded))];
      return true;
    }

    method ReapplyOne(r: Request) returns (result: Result<Counts>)
      modifies this
      ensures result.Ok? <==> ApplyOne(w, old(Value()), r).Ok?
      ensures result.Ok? ==> ApplyOne(w, old(Value()), r) == Ok((Value(), result.value))
      ensures objects <= old(objects)
    {
      var affectedRecords, scope := AffectedRecords(r), ScopeOf(r);
      if affectedRecords.Err? || scope.None? {
        return Err;
      }
      var records := affectedRecords.value;
      var references := References(w, lookups, r, scope.value, records);
      var ok := PurgeAndVerify(references);
      if !ok {
        return Err;
      }
      ok := AppendPrivacyArtifacts(r, records);
      if !ok {
        return Err;
      }
      lookups := WithoutLookups(lookups, r, scope.value, records);
      var affected := AffectedManifests(w, runs, r, records);
      ok := RecalculateMetrics(r, affected);
      if !ok {
        return Err;
      }
      var unsupported := Unsupported(w, runs, r, records);
      if (r.tenant, r.id) !in audits {
        audits := audits[(r.tenant, r.id) := Audit(r.app, r.completedAt, w.auditDigest(r, records, references))];
      }
      return Ok(Counts(|references|, |affected|, |unsupported|));
    }

    /**
     One transaction: a failing request undoes every row of the pass, but not the deletions from the payload store.
     */
    method ReapplyCompletedPrivacyRequests(requests: seq<Request>) returns (result: Result<Counts>)
      modifies this
      ensures result.Ok? <==> Pass(w, old(Value()), requests).Ok?
      ensures result.Ok? ==> Pass(w, old(Value()), requests) == Ok((Value(), result.value))
      ensures result.Err? ==> Value() == old(Value()).(objects := objects) && objects <= old(objects)
    {
      var before := Value();
      var total := Counts(0, 0, 0);
      for i := 0 to |requests|
        invariant Pass(w, before, requests[..i]) == Ok((Value(), total)) && objects <= before.objects
      {
        PassNext(w, before, requests, i);
        var one := ReapplyOne(requests[i]);
        if one.Err? {
          purged, tombstones, corrections := before.purged, before.tombstones, before.corrections;
          lookups, runs, audits := before.lookups, before.runs, before.audits;
          return Err;
        }
        total := Sum(total, one.value);
      }
      assert requests[..|requests|] == requests;
      return Ok(total);
    }
  }

  lemma LatestStays(runs: map<string, Run>, r: Request, source: string, latest: string, next: string,
                    pending: set<string>)
    requires next in runs && latest in runs
    requires forall other :: other in runs && Succeeds(runs, r, source, other) && other !in pending && other != next ==>
               KeyLe(RunKey(runs, other), RunKey(runs, latest))
    ensures KeyLe(RunKey(runs, latest), RunKey(runs, next)) || KeyLe(RunKey(runs, next), RunKey(runs, latest))
    ensures KeyLe(RunKey(runs, latest), RunKey(runs, next)) ==>
              forall other :: other in runs && Succeeds(runs, r, source, other) && other !in pending && other != next ==>
                KeyLe(RunKey(runs, other), RunKey(runs, next))
  {
    KeyTotal(RunKey(runs, latest), RunKey(runs, next));
    if KeyLe(RunKey(runs, latest), RunKey(runs, next)) {
      forall other | other in runs && Succeeds(runs, r, source, other) && other !in pending && other != next
        ensures KeyLe(RunKey(runs, other), RunKey(runs, next))
      {
        KeyTransitive(RunKey(runs, other), RunKey(runs, latest), RunKey(runs, next));
      }
    }
  }

  lemma AppendNext(w: World, s: Ledger, r: Request, records: seq<string>, i: nat)
    requires i < |records| && AppendAll(w, s, r, records[..i]).Ok?
    ensures var next := AppendOne(w, AppendAll(w, s, r, records[..i]).value, r, records[i]);
            AppendAll(w, s, r, records[..i + 1]) == next && (next.Err? ==> AppendAll(w, s, r, records).Err?)
  {
    assert records[..i + 1][..i] == records[..i];
    if AppendAll(w, s, r, records[..i + 1]).Err? {
      AppendFails(w, s, r, records, i + 1);
    }
  }

  lemma RecalculateNext(w: World, s: Ledger, r: Request, ms: seq<Manifest>, i: nat)
    requires i < |ms| && RecalculateAll(w, s, r, ms[..i]).Ok?
    ensures var next := RecalculateOne(w, RecalculateAll(w, s, r, ms[..i]).value, r, ms[i]);
            RecalculateAll(w, s, r, ms[..i + 1]) == next && (next.Err? ==> RecalculateAll(w, s, r, ms).Err?)
  {
    assert ms[..i + 1][..i] == ms[..i];
    if RecalculateAll(w, s, r, ms[..i + 1]).Err? {
      RecalculateFails(w, s, r, ms, i + 1);
    }
  }

  lemma PassNext(w: World, s: Ledger, rs: seq<Request>, i: nat)
    requires i < |rs| && Pass(w, s, rs[..i]).Ok?
    ensures var before := Pass(w, s, rs[..i]).value;
            var next := ApplyOne(w, before.0, rs[i]);
            && (next.Err? ==> Pass(w, s, rs).Err?)
            && (next.Ok? ==> Pass(w, s, rs[..i + 1]) == Ok((next.value.0, Sum(before.1, next.value.1))))
  {
    assert rs[..i + 1][..i] == rs[..i];
    if Pass(w, s, rs[..i + 1]).Err? {
      PassFails(w, s, rs, i + 1);
    }
  }

  lemma {:induction false} AppendFails(w: World, s: Ledger, r: Request, records: seq<string>, n: nat)
    requires n <= |records| && AppendAll(w, s, r, records[..n]).Err?
    ensures AppendAll(w, s, r, records).Err?
    decreases |records|
  {
    if n == |records| {
      assert records[..n] == records;
    } else {
      assert records[..|records| - 1][..n] == records[..n];
      AppendFails(w, s, r, records[..|records| - 1], n);
    }
  }

  lemma {:induction false} RecalculateFails(w: World, s: Ledger, r: Request, ms: seq<Manifest>, n: nat)
    requires n <= |ms| && RecalculateAll(w, s, r, ms[..n]).Err?
    ensures RecalculateAll(w, s, r, ms).Err?
    decreases |ms|
  {
    if n == |ms| {
      assert ms[..n] == ms;
    } else {
      assert ms[..|ms| - 1][..n] == ms[..n];
      RecalculateFails(w, s, r, ms[..|ms| - 1], n);
    }
  }

  lemma {:induction false} PassFails(w: World, s: Ledger, rs: seq<Request>, n: nat)
    requires n <= |rs| && Pass(w, s, rs[..n]).Err?
    ensures Pass(w, s, rs).Err?
    decreases |rs|
  {
    if n == |rs| {
      assert rs[..n] == rs;
    } else {
      assert rs[..|rs| - 1][..n] == rs[..n];
      PassFails(w, s, rs[..|rs| - 1], n);
    }
  }

  // ---- What a request settles ----

  /** Nothing is left to do for the request. */
  ghost predicate Settled(w: World, s: Ledger, r: Request) {
    AffectedRecords(r).Ok? && ScopeOf(r).Some? && SettledFor(w, s, r, ScopeOf(r).value, AffectedRecords(r).value)
  }

  ghost predicate SettledFor(w: World, s: Ledger, r: Request, scope: Scope, records: seq<string>) {
    && Unreadable(w, s.objects, References(w, s.lookups, r, scope, records))
    && (forall i :: 0 <= i < |records| ==> Marked(w, s, r, records[i]))
    && (forall l :: l in s.lookups ==> !LookupInScope(r, scope, records, l))
    && (forall i :: 0 <= i < |w.manifests| && ManifestAffected(s.runs, r, records, w.manifests[i]) ==>
          w.replacementId(r.id, w.manifests[i].source) in s.runs)
    && (r.tenant, r.id) in s.audits
  }

  ghost predicate Unreadable(w: World, objects: set<string>, references: set<string>) {
    forall reference :: reference in references ==>
        w.objectOf(reference).Some? && w.objectOf(reference).value !in objects
  }

  ghost predicate Marked(w: World, s: Ledger, r: Request, record: string) {
    record in s.purged && (r.tenant, r.app, r.id, record) in s.tombstones && w.correctionId(r.id, record) in s.corrections
  }

  /** A manifest's source run exists, as its foreign key demands. */
  ghost predicate SourcesExist(w: World, s: Ledger) {
    forall i :: 0 <= i < |w.manifests| ==> w.manifests[i].source in s.runs
  }

  ghost predicate Within<K, V>(m: map<K, V>, n: map<K, V>) { forall k :: k in m ==> k in n && n[k] == m[k] }

  /** Rows are only added, and objects and lookups only removed. */
  ghost predicate Advances(s: Ledger, t: Ledger) {
    && t.objects <= s.objects && t.lookups <= s.lookups
    && Within(s.purged, t.purged) && Within(s.tombstones, t.tombstones) && Within(s.corrections, t.corrections)
    && Within(s.runs, t.runs) && Within(s.audits, t.audits)
  }

  lemma {:induction false} AppendAllAdvances(w: World, s: Ledger, r: Request, records: seq<string>)
    requires AppendAll(w, s, r, records).Ok?
    ensures var t := AppendAll(w, s, r, records).value;
            && Advances(s, t) && t == s.(purged := t.purged, tombstones := t.tombstones, corrections := t.corrections)
            && forall i :: 0 <= i < |records| ==> Marked(w, t, r, records[i])
    decreases |records|
  {
    if records != [] {
      var earlier := records[..|records| - 1];
      AppendAllAdvances(w, s, r, earlier);
      assert forall i :: 0 <= i < |earlier| ==> earlier[i] == records[i];
    }
  }

  lemma {:induction false} RecalculateAllAdvances(w: World, s: Ledger, r: Request, ms: seq<Manifest>)
    requires RecalculateAll(w, s, r, ms).Ok?
    ensures var t := RecalculateAll(w, s, r, ms).value;
            && Advances(s, t) && t == s.(runs := t.runs)
            && forall i :: 0 <= i < |ms| ==> w.replacementId(r.id, ms[i].source) in t.runs
    decreases |ms|
  {
    if ms != [] {
      var earlier := ms[..|ms| - 1];
      RecalculateAllAdvances(w, s, r, earlier);
      assert forall i :: 0 <= i < |earlier| ==> earlier[i] == ms[i];
    }
  }

  lemma ReferencesShrink(w: World, more: set<Lookup>, fewer: set<Lookup>, r: Request, scope: Scope,
                         records: seq<string>)
    requires fewer <= more
    ensures References(w, fewer, r, scope, records) <= References(w, more, r, scope, records)
  {
  }

  lemma PurgedUnreadable(w: World, objects: set<string>, references: set<string>)
    requires PurgeAll(w, objects, references).Ok?
    ensures Unreadable(w, PurgeAll(w, objects, references).value, references)
    ensures PurgeAll(w, objects, references).value <= objects
  {
    forall reference | reference in references
      ensures w.objectOf(reference).Some? && w.objectOf(reference).value !in PurgeAll(w, objects, references).value
    {
      assert Purgeable(w, objects, reference);
      assert w.objectOf(reference).value in ObjectsOf(w, references);
    }
  }

  lemma SameManifestsAffected(w: World, s: Ledger, t: Ledger, r: Request, records: seq<string>, m: Manifest)
    requires Within(s.runs, t.runs) && m.source in s.runs
    ensures ManifestAffected(s.runs, r, records, m) <==> ManifestAffected(t.runs, r, records, m)
  {
  }

  lemma ManifestsListed(w: World, runs: map<string, Run>, r: Request, records: seq<string>, i: nat)
    requires i < |w.manifests| && ManifestAffected(runs, r, records, w.manifests[i])
    ensures w.manifests[i] in AffectedManifests(w, runs, r, records)
  {
    FilterMember(w.manifests, m => ManifestAffected(runs, r, records, m), w.manifests[i]);
  }

  lemma AffectedRecalculated(w: World, s: Ledger, r: Request, records: seq<string>)
    requires SourcesExist(w, s) && RecalculateAll(w, s, r, AffectedManifests(w, s.runs, r, records)).Ok?
    ensures var t := RecalculateAll(w, s, r, AffectedManifests(w, s.runs, r, records)).value;
            && Advances(s, t) && t == s.(runs := t.runs)
            && forall i :: 0 <= i < |w.manifests| && ManifestAffected(t.runs, r, records, w.manifests[i]) ==>
                 w.replacementId(r.id, w.manifests[i].source) in t.runs
  {
    var affected := AffectedManifests(w, s.runs, r, records);
    RecalculateAllAdvances(w, s, r, affected);
    var t := RecalculateAll(w, s, r, affected).value;
    forall i | 0 <= i < |w.manifests| && ManifestAffected(t.runs, r, records, w.manifests[i])
      ensures w.replacementId(r.id, w.manifests[i].source) in t.runs
    {
      SameManifestsAffected(w, s, t, r, records, w.manifests[i]);
      ManifestsListed(w, s.runs, r, records, i);
      var k :| 0 <= k < |affected| && affected[k] == w.manifests[i];
    }
  }

  /** Applying a request settles it, and only adds rows and removes objects and lookups. */
  lemma ApplySettles(w: World, s: Ledger, r: Request, scope: Scope, records: seq<string>)
    requires SourcesExist(w, s) && ApplyTo(w, s, r, scope, records).Ok?
    ensures var t := ApplyTo(w, s, r, scope, records).value.0;
            SettledFor(w, t, r, scope, records) && Advances(s, t)
  {
    var references := References(w, s.lookups, r, scope, records);
    var purged := s.(objects := PurgeAll(w, s.objects, references).value);
    PurgedUnreadable(w, s.objects, references);
    AppendAllAdvances(w, purged, r, records);
    var appended := AppendAll(w, purged, r, records).value;
    var dropped := appended.(lookups := WithoutLookups(appended.lookups, r, scope, records));
    ReferencesShrink(w, s.lookups, dropped.lookups, r, scope, records);
    AffectedRecalculated(w, dropped, r, records);
    var computed := RecalculateAll(w, dropped, r, AffectedManifests(w, dropped.runs, r, records)).value;
    var t := ApplyTo(w, s, r, scope, records).value.0;
    assert t == computed.(audits := t.audits);
    forall i | 0 <= i < |records| ensures Marked(w, t, r, records[i]) {
      assert Marked(w, appended, r, records[i]);
    }
  }

  /** What is settled stays settled. */
  lemma SettledStays(w: World, s: Ledger, t: Ledger, r: Request, scope: Scope, records: seq<string>)
    requires SourcesExist(w, s) && Advances(s, t) && SettledFor(w, s, r, scope, records)
    ensures SettledFor(w, t, r, scope, records)
  {
    ReferencesShrink(w, s.lookups, t.lookups, r, scope, records);
    forall i | 0 <= i < |records| ensures Marked(w, t, r, records[i]) {
      assert Marked(w, s, r, records[i]);
    }
    forall i | 0 <= i < |w.manifests| && ManifestAffected(t.runs, r, records, w.manifests[i])
      ensures w.replacementId(r.id, w.manifests[i].source) in t.runs
    {
      SameManifestsAffected(w, s, t, r, records, w.manifests[i]);
    }
  }

  lemma {:induction false} AppendNothing(w: World, s: Ledger, r: Request, records: seq<string>)
    requires forall i :: 0 <= i < |records| ==> Marked(w, s, r, records[i])
    ensures AppendAll(w, s, r, records) == Ok(s)
    decreases |records|
  {
    if records != [] {
      assert Marked(w, s, r, records[|records| - 1]);
      AppendNothing(w, s, r, records[..|records| - 1]);
    }
  }

  lemma {:induction false} RecalculateNothing(w: World, s: Ledger, r: Request, ms: seq<Manifest>)
    requires forall i :: 0 <= i < |ms| ==> w.replacementId(r.id, ms[i].source) in s.runs
    ensures RecalculateAll(w, s, r, ms) == Ok(s)
    decreases |ms|
  {
    if ms != [] {
      RecalculateNothing(w, s, r, ms[..|ms| - 1]);
    }
  }

  lemma PurgeNothing(w: World, objects: set<string>, references: set<string>)
    requires Unreadable(w, objects, references)
    ensures PurgeAll(w, objects, references) == Ok(objects)
  {
    assert forall reference :: reference in references ==> Purgeable(w, objects, reference);
    assert objects - ObjectsOf(w, references) == objects;
  }

  /** Applying a settled request succeeds and changes nothing. */
  lemma SettledUnchanged(w: World, s: Ledger, r: Request, scope: Scope, records: seq<string>)
    requires SettledFor(w, s, r, scope, records)
    ensures ApplyTo(w, s, r, scope, records).Ok? && ApplyTo(w, s, r, scope, records).value.0 == s
  {
    PurgeNothing(w, s.objects, References(w, s.lookups, r, scope, records));
    AppendNothing(w, s, r, records);
    assert WithoutLookups(s.lookups, r, scope, records) == s.lookups;
    var affected := AffectedManifests(w, s.runs, r, records);
    forall i | 0 <= i < |affected| ensures w.replacementId(r.id, affected[i].source) in s.runs {
      FilterMember(w.manifests, m => ManifestAffected(s.runs, r, records, m), affected[i]);
      assert affected[i] in affected;
      var k :| 0 <= k < |w.manifests| && w.manifests[k] == affected[i];
    }
    RecalculateNothing(w, s, r, affected);
  }

  // ---- Passes ----

  /** After a pass every request of it is settled: its payloads unreadable, its records marked, its lookups gone. */
  lemma {:induction false} PassSettles(w: World, s: Ledger, rs: seq<Request>)
    requires SourcesExist(w, s) && Pass(w, s, rs).Ok?
    ensures Advances(s, Pass(w, s, rs).value.0)
    ensures forall i :: 0 <= i < |rs| ==> Settled(w, Pass(w, s, rs).value.0, rs[i])
    decreases |rs|
  {
    if rs != [] {
      var earlier, last := rs[..|rs| - 1], rs[|rs| - 1];
      PassSettles(w, s, earlier);
      var before, after := Pass(w, s, earlier).value.0, Pass(w, s, rs).value.0;
      ApplySettles(w, before, last, ScopeOf(last).value, AffectedRecords(last).value);
      forall i | 0 <= i < |rs| ensures Settled(w, after, rs[i]) {
        if i < |rs| - 1 {
          assert Settled(w, before, earlier[i]) && rs[i] == earlier[i];
          SettledStays(w, before, after, rs[i], ScopeOf(rs[i]).value, AffectedRecords(rs[i]).value);
        }
      }
    }
  }

  /** A pass over settled requests succeeds and changes nothing. */
  lemma {:induction false} SettledPassUnchanged(w: World, s: Ledger, rs: seq<Request>)
    requires forall i :: 0 <= i < |rs| ==> Settled(w, s, rs[i])
    ensures Pass(w, s, rs).Ok? && Pass(w, s, rs).value.0 == s
    decreases |rs|
  {
    if rs != [] {
      var last := rs[|rs| - 1];
      SettledPassUnchanged(w, s, rs[..|rs| - 1]);
      assert Settled(w, s, last);
      SettledUnchanged(w, s, last, ScopeOf(last).value, AffectedRecords(last).value);
    }
  }

  /**
   Re-application is idempotent: after a pass, a second pass over the same requests, or any of them in any order and
   number, succeeds and leaves the ledger, the payload store and the lookup queue as they are.
   */
  lemma SecondPassUnchanged(w: World, s: Ledger, rs: seq<Request>, again: seq<Request>)
    requires SourcesExist(w, s) && Pass(w, s, rs).Ok? && forall r :: r in again ==> r in rs
    ensures var t := Pass(w, s, rs).value.0;
            Pass(w, t, again).Ok? && Pass(w, t, again).value.0 == t
  {
    PassSettles(w, s, rs);
    var t := Pass(w, s, rs).value.0;
    forall i | 0 <= i < |again| ensures Settled(w, t, again[i]) {
      assert again[i] in rs;
      var k :| 0 <= k < |rs| && rs[k] == again[i];
    }
    SettledPassUnchanged(w, t, again);
  }

  // ---- After a failed pass ----

  /** The metric engine computes from the rows, not from the payload store. */
  ghost predicate ReadsRowsOnly(w: World) {
    forall s: Ledger, objects, r, m :: w.compute(s.(objects := objects), r, m) == w.compute(s, r, m)
  }

  /** The same outcome beside other objects. */
  function Beside(result: Result<Ledger>, objects: set<string>): Result<Ledger> {
    if result.Ok? then Ok(result.value.(objects := objects)) else Err
  }

  lemma {:induction false} AppendBeside(w: World, s: Ledger, r: Request, records: seq<string>, objects: set<string>)
    ensures AppendAll(w, s.(objects := objects), r, records) == Beside(AppendAll(w, s, r, records), objects)
    decreases |records|
  {
    if records != [] {
      AppendBeside(w, s, r, records[..|records| - 1], objects);
    }
  }

  lemma {:induction false} RecalculateBeside(w: World, s: Ledger, r: Request, ms: seq<Manifest>, objects: set<string>)
    requires ReadsRowsOnly(w)
    ensures RecalculateAll(w, s.(objects := objects), r, ms) == Beside(RecalculateAll(w, s, r, ms), objects)
    decreases |ms|
  {
    if ms != [] {
      RecalculateBeside(w, s, r, ms[..|ms| - 1], objects);
    }
  }

  /**
   Where some objects are gone already, a request leaves the same rows, and those of its objects that are still
   there.
   */
  lemma ApplyRecovers(w: World, s: Ledger, r: Request, scope: Scope, records: seq<string>, objects: set<string>)
    requires ReadsRowsOnly(w) && objects <= s.objects && ApplyTo(w, s, r, scope, records).Ok?
    ensures var (t, counts) := ApplyTo(w, s, r, scope, records).value;
            && ApplyTo(w, s.(objects := objects), r, scope, records) == Ok((t.(objects := t.objects * objects), counts))
            && t.objects <= s.objects
  {
    var references := References(w, s.lookups, r, scope, records);
    var left, remaining := PurgeAll(w, s.objects, references).value, objects - ObjectsOf(w, references);
    assert remaining == left * objects;
    var appended := AppendAll(w, s.(objects := left), r, records).value;
    AppendAllAdvances(w, s.(objects := left), r, records);
    AppendBeside(w, s.(objects := left), r, records, remaining);
    assert s.(objects := left).(objects := remaining) == s.(objects := objects).(objects := remaining);
    var dropped := appended.(lookups := WithoutLookups(appended.lookups, r, scope, records));
    RecalculateAllAdvances(w, dropped, r, AffectedManifests(w, dropped.runs, r, records));
    RecalculateBeside(w, dropped, r, AffectedManifests(w, dropped.runs, r, records), remaining);
  }

  /**
   A failed pass keeps the rows and may have deleted objects. From there a pass that would have succeeded at first
   succeeds: it leaves the same rows and counts, and of the objects those not deleted before.
   */
  lemma {:induction false} FailedPassRecovers(w: World, s: Ledger, rs: seq<Request>, objects: set<string>)
    requires ReadsRowsOnly(w) && objects <= s.objects && Pass(w, s, rs).Ok?
    ensures var (t, counts) := Pass(w, s, rs).value;
            Pass(w, s.(objects := objects), rs) == Ok((t.(objects := t.objects * objects), counts))
    decreases |rs|
  {
    if rs == [] {
      assert s.objects * objects == objects;
    } else {
      var last := rs[|rs| - 1];
      FailedPassRecovers(w, s, rs[..|rs| - 1], objects);
      var before := Pass(w, s, rs[..|rs| - 1]).value.0;
      ApplyRecovers(w, before, last, ScopeOf(last).value, AffectedRecords(last).value, before.objects * objects);
      assert Pass(w, s, rs).value.0.objects * (before.objects * objects) == Pass(w, s, rs).value.0.objects * objects;
    }
  }
}
