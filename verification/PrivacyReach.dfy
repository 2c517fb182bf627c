/** What a pass of privacy re-application reaches and what it leaves, said of the tables' rows. */
module PrivacyReach {
  import opened Outcomes
  import opened Sequences
  import opened CanonicalOrder
  import opened TextOrder
  import opened PrivacyReapply

  // ---- The rows a request is about ----

  ghost predicate EncryptedText(reference: string) {
    |reference| >= 10 && reference[..10] == "encrypted:"
  }

  /** The request's artifact lists the record. */
  ghost predicate Listed(r: Request, record: string) {
    r.artifact.affected.Some? && exists i :: 0 <= i < |r.artifact.affected.value| && r.artifact.affected.value[i].record == Some(record)
  }

  ghost predicate OfTenant(r: Request, tenant: string) { r.artifact.scope == Some("tenant") && tenant == r.tenant }

  ghost predicate OfApp(r: Request, tenant: string, app: string) {
    r.artifact.scope == Some("app") && tenant == r.tenant && app == r.app
  }

  /** Of the application a request for one installation is about. */
  ghost predicate OfItsApp(r: Request, tenant: string, app: string) {
    r.artifact.scope == Some("installation") && tenant == r.tenant && app == r.app
  }

  /** A payload another record of the tenant shares is spared, unless that record is listed, too. */
  ghost predicate ReachesRaw(w: World, r: Request, raw: Raw) {
    || OfTenant(r, raw.tenant) || OfApp(r, raw.tenant, raw.app)
    || (OfItsApp(r, raw.tenant, raw.app) && Listed(r, raw.record)
        && forall other :: other in w.raws && other.tenant == raw.tenant && other.payloadRef == raw.payloadRef ==>
             Listed(r, other.record))
  }

  ghost predicate ReachesInbox(w: World, r: Request, i: PrivacyReapply.Inbox) {
    || OfTenant(r, i.tenant) || OfApp(r, i.tenant, i.app)
    || (OfItsApp(r, i.tenant, i.app)
        && exists raw :: raw in w.raws && raw.tenant == i.tenant && raw.app == i.app && raw.producer == i.producer
                         && raw.event == i.event && Listed(r, raw.record))
  }

  ghost predicate ReachesBatch(r: Request, b: PrivacyReapply.Batch) {
    || OfTenant(r, b.tenant) || OfApp(r, b.tenant, b.app)
    || (OfItsApp(r, b.tenant, b.app) && (exists record :: record in b.records)
        && forall record :: record in b.records ==> Listed(r, record))
  }

  /** A lookup, or a lookup's result, of an install record. */
  ghost predicate ReachesLookup(r: Request, tenant: string, app: string, record: string) {
    OfTenant(r, tenant) || OfApp(r, tenant, app) || (OfItsApp(r, tenant, app) && Listed(r, record))
  }

  ghost predicate NamesRaw(w: World, r: Request, reference: string) {
    exists raw :: raw in w.raws && raw.payloadRef == reference && ReachesRaw(w, r, raw)
  }

  ghost predicate NamesInbox(w: World, r: Request, reference: string) {
    exists i :: i in w.inbox && i.queryRef == reference && ReachesInbox(w, r, i)
  }

  ghost predicate NamesBatch(w: World, r: Request, reference: string) {
    exists b :: b in w.batches && b.bodyRef == reference && ReachesBatch(r, b)
  }

  ghost predicate NamesResult(w: World, r: Request, reference: string) {
    exists x :: x in w.results && x.responseRef == reference && ReachesLookup(r, x.tenant, x.app, x.record)
  }

  ghost predicate NamesLookup(lookups: set<Lookup>, r: Request, reference: string) {
    exists l :: l in lookups && l.tokenRef == reference && ReachesLookup(r, l.tenant, l.app, l.record)
  }

  /** A row the request reaches has the encrypted reference: as payload, query, body, response or token. */
  ghost predicate Reaches(w: World, lookups: set<Lookup>, r: Request, reference: string) {
    && EncryptedText(reference)
    && (NamesRaw(w, r, reference) || NamesInbox(w, r, reference) || NamesBatch(w, r, reference)
        || NamesResult(w, r, reference) || NamesLookup(lookups, r, reference))
  }

  lemma ListedMeans(r: Request)
    requires AffectedRecords(r).Ok?
    ensures forall record :: record in AffectedRecords(r).value <==> Listed(r, record)
  {
    AffectedRecordsMeans(r);
  }

  lemma ScopeMeans(r: Request, tenant: string, app: string, record: bool)
    requires ScopeOf(r).Some?
    ensures InScope(r, ScopeOf(r).value, tenant, app, record)
       <==> OfTenant(r, tenant) || OfApp(r, tenant, app) || (OfItsApp(r, tenant, app) && record)
    ensures ScopeOf(r).value == Installation <==> r.artifact.scope == Some("installation")
    ensures r.artifact.scope == Some("installation") ==>
              r.artifact.scope != Some("tenant") && r.artifact.scope != Some("app")
  {
    assert "installation"[0] != "tenant"[0] && "installation"[0] != "app"[0] && "tenant"[0] != "app"[0];
  }

  lemma RawMeans(w: World, r: Request, raw: Raw)
    requires ScopeOf(r).Some? && AffectedRecords(r).Ok?
    ensures RawPurged(w, r, ScopeOf(r).value, AffectedRecords(r).value, raw)
       <==> EncryptedText(raw.payloadRef) && ReachesRaw(w, r, raw)
  {
    ListedMeans(r);
    ScopeMeans(r, raw.tenant, raw.app, raw.record in AffectedRecords(r).value);
    assert Encrypted(raw.payloadRef) <==> EncryptedText(raw.payloadRef);
  }

  lemma InboxMeans(w: World, r: Request, i: PrivacyReapply.Inbox)
    requires ScopeOf(r).Some? && AffectedRecords(r).Ok?
    ensures InboxPurged(w, r, ScopeOf(r).value, AffectedRecords(r).value, i)
       <==> EncryptedText(i.queryRef) && ReachesInbox(w, r, i)
  {
    ListedMeans(r);
    ScopeMeans(r, i.tenant, i.app,
               exists raw :: raw in w.raws && raw.tenant == i.tenant && raw.app == i.app && raw.producer == i.producer
                             && raw.event == i.event && raw.record in AffectedRecords(r).value);
    assert Encrypted(i.queryRef) <==> EncryptedText(i.queryRef);
  }

  lemma BatchMeans(r: Request, b: PrivacyReapply.Batch)
    requires ScopeOf(r).Some? && AffectedRecords(r).Ok?
    ensures BatchPurged(r, ScopeOf(r).value, AffectedRecords(r).value, b)
       <==> EncryptedText(b.bodyRef) && ReachesBatch(r, b)
  {
    ListedMeans(r);
    ScopeMeans(r, b.tenant, b.app,
               b.records != {} && forall record :: record in b.records ==> record in AffectedRecords(r).value);
    assert Encrypted(b.bodyRef) <==> EncryptedText(b.bodyRef);
  }

  lemma LookupMeans(r: Request, tenant: string, app: string, record: string)
    requires ScopeOf(r).Some? && AffectedRecords(r).Ok?
    ensures InScope(r, ScopeOf(r).value, tenant, app, record in AffectedRecords(r).value)
       <==> ReachesLookup(r, tenant, app, record)
  {
    ListedMeans(r);
    ScopeMeans(r, tenant, app, record in AffectedRecords(r).value);
  }

  lemma EncryptedMeans(reference: string)
    ensures Encrypted(reference) <==> EncryptedText(reference)
  {
  }

  // ---- The references to purge are those of the rows the request reaches ----

  ghost predicate PurgesRaw(w: World, r: Request, scope: Scope, records: seq<string>, reference: string) {
    exists raw :: raw in w.raws && RawPurged(w, r, scope, records, raw) && raw.payloadRef == reference
  }

  ghost predicate PurgesInbox(w: World, r: Request, scope: Scope, records: seq<string>, reference: string) {
    exists i :: i in w.inbox && InboxPurged(w, r, scope, records, i) && i.queryRef == reference
  }

  ghost predicate PurgesBatch(w: World, r: Request, scope: Scope, records: seq<string>, reference: string) {
    exists b :: b in w.batches && BatchPurged(r, scope, records, b) && b.bodyRef == reference
  }

  ghost predicate PurgesResult(w: World, r: Request, scope: Scope, records: seq<string>, reference: string) {
    exists x :: x in w.results && Encrypted(x.responseRef) && InScope(r, scope, x.tenant, x.app, x.record in records) && x.responseRef == reference
  }

  ghost predicate PurgesLookup(lookups: set<Lookup>, r: Request, scope: Scope, records: seq<string>,
                               reference: string) {
    exists l :: l in lookups && Encrypted(l.tokenRef) && LookupInScope(r, scope, records, l) && l.tokenRef == reference
  }

  lemma ReferencesListed(w: World, lookups: set<Lookup>, r: Request, scope: Scope, records: seq<string>,
                         reference: string)
    ensures reference in References(w, lookups, r, scope, records)
       <==> || PurgesRaw(w, r, scope, records, reference) || PurgesInbox(w, r, scope, records, reference)
            || PurgesBatch(w, r, scope, records, reference) || PurgesResult(w, r, scope, records, reference)
            || PurgesLookup(lookups, r, scope, records, reference)
  {
  }

  lemma RawReferences(w: World, r: Request, reference: string)
    requires ScopeOf(r).Some? && AffectedRecords(r).Ok?
    ensures PurgesRaw(w, r, ScopeOf(r).value, AffectedRecords(r).value, reference)
       <==> EncryptedText(reference) && NamesRaw(w, r, reference)
  {
    var scope, records := ScopeOf(r).value, AffectedRecords(r).value;
    forall raw
      ensures RawPurged(w, r, scope, records, raw) <==> EncryptedText(raw.payloadRef) && ReachesRaw(w, r, raw)
    {
      RawMeans(w, r, raw);
    }
  }

  lemma InboxReferences(w: World, r: Request, reference: string)
    requires ScopeOf(r).Some? && AffectedRecords(r).Ok?
    ensures PurgesInbox(w, r, ScopeOf(r).value, AffectedRecords(r).value, reference)
       <==> EncryptedText(reference) && NamesInbox(w, r, reference)
  {
    var scope, records := ScopeOf(r).value, AffectedRecords(r).value;
    forall i ensures InboxPurged(w, r, scope, records, i) <==> EncryptedText(i.queryRef) && ReachesInbox(w, r, i) {
      InboxMeans(w, r, i);
    }
  }

  lemma BatchReferences(w: World, r: Request, reference: string)
    requires ScopeOf(r).Some? && AffectedRecords(r).Ok?
    ensures PurgesBatch(w, r, ScopeOf(r).value, AffectedRecords(r).value, reference)
       <==> EncryptedText(reference) && NamesBatch(w, r, reference)
  {
    var scope, records := ScopeOf(r).value, AffectedRecords(r).value;
    forall b ensures BatchPurged(r, scope, records, b) <==> EncryptedText(b.bodyRef) && ReachesBatch(r, b) {
      BatchMeans(r, b);
    }
  }

  lemma ResultReferences(w: World, r: Request, reference: string)
    requires ScopeOf(r).Some? && AffectedRecords(r).Ok?
    ensures PurgesResult(w, r, ScopeOf(r).value, AffectedRecords(r).value, reference)
       <==> EncryptedText(reference) && NamesResult(w, r, reference)
  {
    var scope, records := ScopeOf(r).value, AffectedRecords(r).value;
    EncryptedMeans(reference);
    forall x: LookupResult
      ensures InScope(r, scope, x.tenant, x.app, x.record in records) <==> ReachesLookup(r, x.tenant, x.app, x.record)
    {
      LookupMeans(r, x.tenant, x.app, x.record);
    }
  }

  lemma LookupReferences(lookups: set<Lookup>, r: Request, reference: string)
    requires ScopeOf(r).Some? && AffectedRecords(r).Ok?
    ensures PurgesLookup(lookups, r, ScopeOf(r).value, AffectedRecords(r).value, reference)
       <==> EncryptedText(reference) && NamesLookup(lookups, r, reference)
  {
    var scope, records := ScopeOf(r).value, AffectedRecords(r).value;
    EncryptedMeans(reference);
    forall l: Lookup ensures LookupInScope(r, scope, records, l) <==> ReachesLookup(r, l.tenant, l.app, l.record) {
      LookupMeans(r, l.tenant, l.app, l.record);
    }
  }

  lemma ReferencesAre(w: World, lookups: set<Lookup>, r: Request, reference: string)
    requires ScopeOf(r).Some? && AffectedRecords(r).Ok?
    ensures reference in References(w, lookups, r, ScopeOf(r).value, AffectedRecords(r).value)
       <==> Reaches(w, lookups, r, reference)
  {
    ReferencesListed(w, lookups, r, ScopeOf(r).value, AffectedRecords(r).value, reference);
    RawReferences(w, r, reference);
    InboxReferences(w, r, reference);
    BatchReferences(w, r, reference);
    ResultReferences(w, r, reference);
    LookupReferences(lookups, r, reference);
  }

  // ---- What a pass erases ----

  ghost predicate Names(w: World, lookups: set<Lookup>, r: Request, o: string) {
    exists reference :: Reaches(w, lookups, r, reference) && w.objectOf(reference) == Some(o)
  }

  ghost predicate Drops(r: Request, l: Lookup) { ReachesLookup(r, l.tenant, l.app, l.record) }

  lemma ApplyParts(w: World, s: Ledger, r: Request)
    requires ApplyOne(w, s, r).Ok?
    ensures ScopeOf(r).Some? && AffectedRecords(r).Ok?
    ensures var references := References(w, s.lookups, r, ScopeOf(r).value, AffectedRecords(r).value);
            && PurgeAll(w, s.objects, references).Ok?
            && ApplyOne(w, s, r).value.0.objects == s.objects - ObjectsOf(w, references)
            && ApplyOne(w, s, r).value.0.lookups == WithoutLookups(s.lookups, r, ScopeOf(r).value, AffectedRecords(r).value)
  {
    var scope, records := ScopeOf(r).value, AffectedRecords(r).value;
    var purged := s.(objects := PurgeAll(w, s.objects, References(w, s.lookups, r, scope, records)).value);
    AppendAllAdvances(w, purged, r, records);
    var appended := AppendAll(w, purged, r, records).value;
    var dropped := appended.(lookups := WithoutLookups(appended.lookups, r, scope, records));
    RecalculateAllAdvances(w, dropped, r, AffectedManifests(w, dropped.runs, r, records));
  }

  lemma ApplyErases(w: World, s: Ledger, r: Request)
    requires ApplyOne(w, s, r).Ok?
    ensures forall o :: o in ApplyOne(w, s, r).value.0.objects <==> o in s.objects && !Names(w, s.lookups, r, o)
    ensures forall reference :: Reaches(w, s.lookups, r, reference) ==> w.objectOf(reference).Some?
    ensures forall l :: l in ApplyOne(w, s, r).value.0.lookups <==> l in s.lookups && !Drops(r, l)
  {
    ApplyParts(w, s, r);
    var references := References(w, s.lookups, r, ScopeOf(r).value, AffectedRecords(r).value);
    forall reference ensures reference in references <==> Reaches(w, s.lookups, r, reference) {
      ReferencesAre(w, s.lookups, r, reference);
    }
    forall reference | reference in references ensures w.objectOf(reference).Some? {
      assert Purgeable(w, s.objects, reference);
    }
    forall l: Lookup
      ensures LookupInScope(r, ScopeOf(r).value, AffectedRecords(r).value, l) <==> Drops(r, l)
    {
      LookupMeans(r, l.tenant, l.app, l.record);
    }
  }

  lemma MoreLookups(w: World, fewer: set<Lookup>, more: set<Lookup>, r: Request, reference: string)
    requires fewer <= more && Reaches(w, fewer, r, reference)
    ensures Reaches(w, more, r, reference)
  {
  }

  /** A token reached only through a lookup that is gone was reached by the request that dropped the lookup. */
  lemma DroppedReached(w: World, fewer: set<Lookup>, more: set<Lookup>, r: Request,
                       reference: string) returns (l: Lookup)
    requires Reaches(w, more, r, reference) && !Reaches(w, fewer, r, reference)
    ensures l in more && l !in fewer && l.tokenRef == reference && EncryptedText(reference)
  {
    l :| l in more && l.tokenRef == reference && ReachesLookup(r, l.tenant, l.app, l.record);
  }

  /** What a pass has erased: exactly the objects and the lookups that one of its requests reaches. */
  ghost predicate Erased(w: World, s: Ledger, t: Ledger, rs: seq<Request>) {
    && (forall o :: o in t.objects <==> o in s.objects && forall i :: 0 <= i < |rs| ==> !Names(w, s.lookups, rs[i], o))
    && (forall l :: l in t.lookups <==> l in s.lookups && forall i :: 0 <= i < |rs| ==> !Drops(rs[i], l))
    && (forall i, reference :: 0 <= i < |rs| && Reaches(w, s.lookups, rs[i], reference) ==> w.objectOf(reference).Some?)
  }

  lemma ErasedNext(w: World, s: Ledger, b: Ledger, t: Ledger, all: seq<Request>, last: Request)
    requires all != [] && last == all[|all| - 1] && Erased(w, s, b, all[..|all| - 1])
    requires forall o :: o in t.objects <==> o in b.objects && !Names(w, b.lookups, last, o)
    requires forall reference :: Reaches(w, b.lookups, last, reference) ==> w.objectOf(reference).Some?
    requires forall l :: l in t.lookups <==> l in b.lookups && !Drops(last, l)
    ensures Erased(w, s, t, all)
  {
    var rs := all[..|all| - 1];
    assert forall i :: 0 <= i < |rs| ==> all[i] == rs[i];
    forall reference | Reaches(w, s.lookups, last, reference)
      ensures w.objectOf(reference).Some?
      ensures !Reaches(w, b.lookups, last, reference) ==>
                exists i :: 0 <= i < |rs| && Reaches(w, s.lookups, rs[i], reference)
    {
      if !Reaches(w, b.lookups, last, reference) {
        var l := DroppedReached(w, b.lookups, s.lookups, last, reference);
        var i :| 0 <= i < |rs| && Drops(rs[i], l);
        assert Reaches(w, s.lookups, rs[i], reference);
      }
    }
    forall l ensures l in t.lookups <==> l in s.lookups && forall i :: 0 <= i < |all| ==> !Drops(all[i], l) {
      if l in t.lookups {
        assert forall i :: 0 <= i < |all| ==> !Drops(all[i], l);
      }
      if forall i :: 0 <= i < |all| ==> !Drops(all[i], l) {
        assert !Drops(all[|rs|], l) && forall i :: 0 <= i < |rs| ==> !Drops(all[i], l);
      }
    }
    forall o
      ensures o in t.objects <==> o in s.objects && forall i :: 0 <= i < |all| ==> !Names(w, s.lookups, all[i], o)
    {
      ErasedObject(w, s, b, all, rs, last, o);
    }
  }

  lemma ErasedObject(w: World, s: Ledger, b: Ledger, all: seq<Request>, rs: seq<Request>, last: Request, o: string)
    requires all != [] && last == all[|all| - 1] && rs == all[..|all| - 1] && Erased(w, s, b, rs)
    requires forall reference :: Reaches(w, s.lookups, last, reference) && !Reaches(w, b.lookups, last, reference) ==>
               exists i :: 0 <= i < |rs| && Reaches(w, s.lookups, rs[i], reference)
    ensures o in b.objects && !Names(w, b.lookups, last, o)
       <==> o in s.objects && forall i :: 0 <= i < |all| ==> !Names(w, s.lookups, all[i], o)
  {
    assert forall i :: 0 <= i < |rs| ==> all[i] == rs[i];
    if Names(w, b.lookups, last, o) {
      var reference :| Reaches(w, b.lookups, last, reference) && w.objectOf(reference) == Some(o);
      MoreLookups(w, b.lookups, s.lookups, last, reference);
      assert Names(w, s.lookups, all[|rs|], o);
    }
    if Names(w, s.lookups, last, o) && !Names(w, b.lookups, last, o) {
      var reference :| Reaches(w, s.lookups, last, reference) && w.objectOf(reference) == Some(o);
      var i :| 0 <= i < |rs| && Reaches(w, s.lookups, rs[i], reference);
      assert Names(w, s.lookups, rs[i], o);
    }
  }

  /**
   After a pass, an object is still stored if and only if no row that one of the requests reaches names it, and a lookup
   is still queued if and only if none reaches it; every reference reached names an object.
   */
  lemma {:induction false} PassErasesExactly(w: World, s: Ledger, rs: seq<Request>)
    requires Pass(w, s, rs).Ok?
    ensures Erased(w, s, Pass(w, s, rs).value.0, rs)
    decreases |rs|
  {
    if rs == [] {
      NothingErased(w, s);
    } else {
      EarlierRequests(w, s, rs);
      PassErasesExactly(w, s, rs[..|rs| - 1]);
      LastErased(w, s, rs);
    }
  }

  lemma EarlierRequests(w: World, s: Ledger, rs: seq<Request>)
    requires rs != [] && Pass(w, s, rs).Ok?
    ensures Pass(w, s, rs[..|rs| - 1]).Ok?
  {
  }

  lemma LastErased(w: World, s: Ledger, rs: seq<Request>)
    requires rs != [] && Pass(w, s, rs).Ok? && Pass(w, s, rs[..|rs| - 1]).Ok?
    requires Erased(w, s, Pass(w, s, rs[..|rs| - 1]).value.0, rs[..|rs| - 1])
    ensures Erased(w, s, Pass(w, s, rs).value.0, rs)
  {
    LastRequest(w, s, rs);
    LastErases(w, s, Pass(w, s, rs[..|rs| - 1]).value.0, Pass(w, s, rs).value.0, rs);
  }

  lemma NothingErased(w: World, s: Ledger)
    ensures Erased(w, s, s, []) && Pass(w, s, []).value.0 == s
  {
  }

  lemma LastRequest(w: World, s: Ledger, rs: seq<Request>)
    requires rs != [] && Pass(w, s, rs).Ok?
    ensures Pass(w, s, rs[..|rs| - 1]).Ok?
    ensures var last := ApplyOne(w, Pass(w, s, rs[..|rs| - 1]).value.0, rs[|rs| - 1]);
            last.Ok? && Pass(w, s, rs).value.0 == last.value.0
  {
  }

  lemma LastErases(w: World, s: Ledger, before: Ledger, after: Ledger, rs: seq<Request>)
    requires rs != [] && Erased(w, s, before, rs[..|rs| - 1]) && ApplyOne(w, before, rs[|rs| - 1]).Ok?
    requires after == ApplyOne(w, before, rs[|rs| - 1]).value.0
    ensures Erased(w, s, after, rs)
  {
    ApplyErases(w, before, rs[|rs| - 1]);
    ErasedNext(w, s, before, after, rs, rs[|rs| - 1]);
  }

  // ---- The rows a pass adds ----

  /** Rows inserted where their key is absent. */
  function InsertAll<K, V>(m: map<K, V>, rows: seq<(K, V)>): map<K, V> {
    if rows == [] then m else Kept(InsertAll(m, rows[..|rows| - 1]), rows[|rows| - 1].0, rows[|rows| - 1].1)
  }

  lemma {:induction false} InsertConcat<K, V>(m: map<K, V>, a: seq<(K, V)>, b: seq<(K, V)>)
    ensures InsertAll(m, a + b) == InsertAll(InsertAll(m, a), b)
    decreases |b|
  {
    if b == [] {
      assert a + b == a;
    } else {
      assert (a + b)[..|a + b| - 1] == a + b[..|b| - 1];
      InsertConcat(m, a, b[..|b| - 1]);
    }
  }

  /** Old rows stay, and a new key has the first row offered for it. */
  lemma {:induction false} InsertMeans<K, V>(m: map<K, V>, rows: seq<(K, V)>, k: K)
    ensures k in InsertAll(m, rows) <==> k in m || exists row :: row in rows && row.0 == k
    ensures k in m ==> InsertAll(m, rows)[k] == m[k]
    ensures k in InsertAll(m, rows) && k !in m ==>
              exists i :: 0 <= i < |rows| && rows[i] == (k, InsertAll(m, rows)[k]) && forall j :: 0 <= j < i ==>
                  rows[j].0 != k
    decreases |rows|
  {
    if rows != [] {
      var before, last := rows[..|rows| - 1], |rows| - 1;
      InsertMeans(m, before, k);
      assert rows == before + [rows[last]];
      assert forall i :: 0 <= i < last ==> before[i] == rows[i];
      if k !in InsertAll(m, before) && rows[last].0 == k {
        assert rows[last] == (k, InsertAll(m, rows)[k]);
        forall j | 0 <= j < last ensures rows[j].0 != k {
          assert rows[j] in before;
        }
      }
    }
  }

  function StateRow(r: Request): string -> (string, PayloadState) {
    (record: string) => (record, PayloadState(r.tenant, r.app, r.completedAt, r.id))
  }

  function TombstoneRow(w: World, r: Request): string -> ((string, string, string, string), Tombstone) {
    (record: string) => ((r.tenant, r.app, r.id, record), Tombstone(w.provenance(r, record), r.completedAt))
  }

  function CorrectionRow(w: World, r: Request): string -> (string, Correction) {
    (record: string) => (w.correctionId(r.id, record), Correction(r.tenant, r.app, record, r.completedAt))
  }


  lemma {:induction false} AppendInserts(w: World, s: Ledger, r: Request, records: seq<string>)
    requires AppendAll(w, s, r, records).Ok?
    ensures var t := AppendAll(w, s, r, records).value;
            && t.purged == InsertAll(s.purged, Map(records, StateRow(r)))
            && t.tombstones == InsertAll(s.tombstones, Map(records, TombstoneRow(w, r)))
            && t.corrections == InsertAll(s.corrections, Map(records, CorrectionRow(w, r)))
    decreases |records|
  {
    if records != [] {
      AppendInserts(w, s, r, records[..|records| - 1]);
      MapLast(records, StateRow(r));
      MapLast(records, TombstoneRow(w, r));
      MapLast(records, CorrectionRow(w, r));
      InsertLast(s.purged, Map(records[..|records| - 1], StateRow(r)), StateRow(r)(records[|records| - 1]));
      InsertLast(s.tombstones, Map(records[..|records| - 1], TombstoneRow(w, r)),
                 TombstoneRow(w, r)(records[|records| - 1]));
      InsertLast(s.corrections, Map(records[..|records| - 1], CorrectionRow(w, r)),
                 CorrectionRow(w, r)(records[|records| - 1]));
    }
  }

  lemma InsertLast<K, V>(m: map<K, V>, rows: seq<(K, V)>, row: (K, V))
    ensures InsertAll(m, rows + [row]) == Kept(InsertAll(m, rows), row.0, row.1)
  {
    assert (rows + [row])[..|rows + [row]| - 1] == rows;
  }

  /** The rows of one table that the requests add, one request after the other. */
  function RowsOf<T>(rs: seq<Request>, row: Request -> string -> T): seq<T> {
    if rs == [] then []
    else RowsOf(rs[..|rs| - 1], row) + Map(AffectedRecords(rs[|rs| - 1]).Or([]), row(rs[|rs| - 1]))
  }

  lemma RowsOfStep<T>(rs: seq<Request>, last: Request, row: Request -> string -> T, x: T)
    requires rs != [] && last == rs[|rs| - 1] && AffectedRecords(last).Ok?
    ensures x in RowsOf(rs, row) <==> x in RowsOf(rs[..|rs| - 1], row) || exists record :: RowFor(last, row, record, x)
  {
    MapMember(AffectedRecords(last).value, row(last), x);
    ListedMeans(last);
    if record :| RowFor(last, row, record, x) {
      assert record in AffectedRecords(last).value;
    }
    if record :| record in AffectedRecords(last).value && row(last)(record) == x {
      assert RowFor(last, row, record, x);
    }
  }

  ghost predicate RowFor<T>(r: Request, row: Request -> string -> T, record: string, x: T) {
    Listed(r, record) && row(r)(record) == x
  }

  lemma {:induction false} RowsOfMember<T>(rs: seq<Request>, row: Request -> string -> T, x: T)
    requires forall i :: 0 <= i < |rs| ==> AffectedRecords(rs[i]).Ok?
    ensures x in RowsOf(rs, row) <==> exists i, record :: 0 <= i < |rs| && RowFor(rs[i], row, record, x)
    decreases |rs|
  {
    if rs != [] {
      var earlier := rs[..|rs| - 1];
      assert forall i :: 0 <= i < |earlier| ==> earlier[i] == rs[i];
      RowsOfMember(earlier, row, x);
      RowsOfStep(rs, rs[|rs| - 1], row, x);
      if i, record :| 0 <= i < |rs| && RowFor(rs[i], row, record, x) {
        assert i < |rs| - 1 ==> RowFor(earlier[i], row, record, x);
      }
      if i, record :| 0 <= i < |earlier| && RowFor(earlier[i], row, record, x) {
        assert RowFor(rs[i], row, record, x);
      }
    }
  }

  ghost function StateRows(): Request -> string -> (string, PayloadState) { (r: Request) => StateRow(r) }

  ghost function TombstoneRows(w: World): Request -> string -> ((string, string, string, string), Tombstone) {
    (r: Request) => TombstoneRow(w, r)
  }

  ghost function CorrectionRows(w: World): Request -> string -> (string, Correction) {
    (r: Request) => CorrectionRow(w, r)
  }

  ghost predicate Marks(w: World, s: Ledger, t: Ledger, rs: seq<Request>) {
    && (forall i :: 0 <= i < |rs| ==> AffectedRecords(rs[i]).Ok?)
    && t.purged == InsertAll(s.purged, RowsOf(rs, StateRows()))
    && t.tombstones == InsertAll(s.tombstones, RowsOf(rs, TombstoneRows(w)))
    && t.corrections == InsertAll(s.corrections, RowsOf(rs, CorrectionRows(w)))
  }

  lemma ApplyMarks(w: World, s: Ledger, r: Request)
    requires ApplyOne(w, s, r).Ok?
    ensures AffectedRecords(r).Ok?
    ensures var t, records := ApplyOne(w, s, r).value.0, AffectedRecords(r).value;
            && t.purged == InsertAll(s.purged, Map(records, StateRow(r)))
            && t.tombstones == InsertAll(s.tombstones, Map(records, TombstoneRow(w, r)))
            && t.corrections == InsertAll(s.corrections, Map(records, CorrectionRow(w, r)))
  {
    var scope, records := ScopeOf(r).value, AffectedRecords(r).value;
    var purged := s.(objects := PurgeAll(w, s.objects, References(w, s.lookups, r, scope, records)).value);
    AppendInserts(w, purged, r, records);
    var appended := AppendAll(w, purged, r, records).value;
    var dropped := appended.(lookups := WithoutLookups(appended.lookups, r, scope, records));
    RecalculateAllAdvances(w, dropped, r, AffectedManifests(w, dropped.runs, r, records));
  }

  lemma RowsNext<K, V>(m: map<K, V>, rs: seq<Request>, row: Request -> string -> (K, V), before: map<K, V>,
                       after: map<K, V>)
    requires rs != [] && before == InsertAll(m, RowsOf(rs[..|rs| - 1], row))
    requires after == InsertAll(before, Map(AffectedRecords(rs[|rs| - 1]).Or([]), row(rs[|rs| - 1])))
    ensures after == InsertAll(m, RowsOf(rs, row))
  {
    InsertConcat(m, RowsOf(rs[..|rs| - 1], row), Map(AffectedRecords(rs[|rs| - 1]).Or([]), row(rs[|rs| - 1])));
  }

  lemma MarksNext(w: World, s: Ledger, before: Ledger, after: Ledger, rs: seq<Request>, last: Request)
    requires rs != [] && last == rs[|rs| - 1] && Marks(w, s, before, rs[..|rs| - 1]) && AffectedRecords(last).Ok?
    requires after.purged == InsertAll(before.purged, Map(AffectedRecords(last).value, StateRow(last)))
    requires after.tombstones == InsertAll(before.tombstones, Map(AffectedRecords(last).value, TombstoneRow(w, last)))
    requires after.corrections
         == InsertAll(before.corrections, Map(AffectedRecords(last).value, CorrectionRow(w, last)))
    ensures Marks(w, s, after, rs)
  {
    assert AffectedRecords(last).Or([]) == AffectedRecords(last).value;
    assert forall i :: 0 <= i < |rs| - 1 ==> rs[..|rs| - 1][i] == rs[i];
    RowsNext(s.purged, rs, StateRows(), before.purged, after.purged);
    RowsNext(s.tombstones, rs, TombstoneRows(w), before.tombstones, after.tombstones);
    RowsNext(s.corrections, rs, CorrectionRows(w), before.corrections, after.corrections);
  }

  lemma LastMarks(w: World, s: Ledger, before: Ledger, after: Ledger, rs: seq<Request>)
    requires rs != [] && Marks(w, s, before, rs[..|rs| - 1]) && ApplyOne(w, before, rs[|rs| - 1]).Ok?
    requires after == ApplyOne(w, before, rs[|rs| - 1]).value.0
    ensures Marks(w, s, after, rs)
  {
    ApplyMarks(w, before, rs[|rs| - 1]);
    MarksNext(w, s, before, after, rs, rs[|rs| - 1]);
  }

  lemma {:induction false} PassMarks(w: World, s: Ledger, rs: seq<Request>)
    requires Pass(w, s, rs).Ok?
    ensures Marks(w, s, Pass(w, s, rs).value.0, rs)
    decreases |rs|
  {
    if rs != [] {
      EarlierRequests(w, s, rs);
      PassMarks(w, s, rs[..|rs| - 1]);
      LastRequest(w, s, rs);
      LastMarks(w, s, Pass(w, s, rs[..|rs| - 1]).value.0, Pass(w, s, rs).value.0, rs);
    }
  }

  /** A table holds the old rows and, for every other key, the row some request adds for a record it lists. */
  ghost predicate Added<K(!new), V>(m: map<K, V>, n: map<K, V>, rs: seq<Request>, row: Request -> string -> (K, V)) {
    && (forall k :: k in m ==> k in n && n[k] == m[k])
    && (forall k :: k in n && k !in m ==> exists i, record :: 0 <= i < |rs| && RowFor(rs[i], row, record, (k, n[k])))
    && forall i, record :: 0 <= i < |rs| && Listed(rs[i], record) ==> row(rs[i])(record).0 in n
  }

  lemma InsertsAdd<K(!new), V>(m: map<K, V>, rs: seq<Request>, row: Request -> string -> (K, V))
    requires forall i :: 0 <= i < |rs| ==> AffectedRecords(rs[i]).Ok?
    ensures Added(m, InsertAll(m, RowsOf(rs, row)), rs, row)
  {
    var n := InsertAll(m, RowsOf(rs, row));
    forall k ensures k in m ==> k in n && n[k] == m[k] {
      InsertMeans(m, RowsOf(rs, row), k);
    }
    forall k | k in n && k !in m ensures exists i, record :: 0 <= i < |rs| && RowFor(rs[i], row, record, (k, n[k])) {
      InsertMeans(m, RowsOf(rs, row), k);
      RowsOfMember(rs, row, (k, n[k]));
    }
    forall i, record | 0 <= i < |rs| && Listed(rs[i], record) ensures row(rs[i])(record).0 in n {
      assert RowFor(rs[i], row, record, row(rs[i])(record));
      RowsOfMember(rs, row, row(rs[i])(record));
      InsertMeans(m, RowsOf(rs, row), row(rs[i])(record).0);
    }
  }

  /**
   After a pass each record a request lists has a purged state, and a tombstone and a correction of the request; each row
   that was not there before is one of these, with the time and ID of a request that lists its record.
   */
  lemma PassMarksExactly(w: World, s: Ledger, rs: seq<Request>)
    requires Pass(w, s, rs).Ok?
    ensures Added(s.purged, Pass(w, s, rs).value.0.purged, rs, StateRows())
    ensures Added(s.tombstones, Pass(w, s, rs).value.0.tombstones, rs, TombstoneRows(w))
    ensures Added(s.corrections, Pass(w, s, rs).value.0.corrections, rs, CorrectionRows(w))
  {
    PassMarks(w, s, rs);
    InsertsAdd(s.purged, rs, StateRows());
    InsertsAdd(s.tombstones, rs, TombstoneRows(w));
    InsertsAdd(s.corrections, rs, CorrectionRows(w));
  }

  // ---- Valid requests ----

  /** The request's artifact is its own, complete, and lists records that were purged. */
  ghost predicate ValidArtifact(r: Request) {
    var a := r.artifact;
    && a.status == "completed" && a.id == r.id && a.tenant == r.tenant && a.app == r.app && !a.hasSubjectRef && a.affected.Some?
    && forall i :: 0 <= i < |a.affected.value| ==> a.affected.value[i].record.Some? && a.affected.value[i].lifecycle == "purged"
  }

  lemma ValidExactlyWhen(r: Request)
    ensures AffectedRecords(r).Ok? <==> ValidArtifact(r)
    ensures ScopeOf(r).Some?
       <==> r.artifact.scope == Some("installation") || r.artifact.scope == Some("app") || r.artifact.scope == Some("tenant")
  {
  }

  // ---- Metric runs ----

  /** A run of the application rests on a record the request lists. */
  ghost predicate RestsOn(runs: map<string, Run>, r: Request, id: string) {
    id in runs && exists record :: record in runs[id].evidence && Listed(r, record)
  }

  ghost predicate ToReplace(w: World, runs: map<string, Run>, r: Request, m: Manifest) {
    m in w.manifests && m.tenant == r.tenant && m.app == r.app && RestsOn(runs, r, m.source)
  }

  lemma AffectedAre(w: World, runs: map<string, Run>, r: Request, m: Manifest)
    requires AffectedRecords(r).Ok?
    ensures m in AffectedManifests(w, runs, r, AffectedRecords(r).value) <==> ToReplace(w, runs, r, m)
  {
    ListedMeans(r);
    var records := AffectedRecords(r).value;
    FilterMember(w.manifests, m => ManifestAffected(runs, r, records, m), m);
  }

  lemma {:induction false} RecalculateAdds(w: World, s: Ledger, r: Request, ms: seq<Manifest>)
    requires RecalculateAll(w, s, r, ms).Ok?
    ensures forall id :: id in RecalculateAll(w, s, r, ms).value.runs
              <==> id in s.runs || exists m :: m in ms && id == w.replacementId(r.id, m.source)
    decreases |ms|
  {
    if ms != [] {
      var earlier, last := ms[..|ms| - 1], ms[|ms| - 1];
      RecalculateAdds(w, s, r, earlier);
      OneAdds(w, RecalculateAll(w, s, r, earlier).value, r, last);
      assert forall m :: m in ms <==> m in earlier || m == last by {
        assert ms == earlier + [last];
      }
    }
  }

  lemma OneAdds(w: World, s: Ledger, r: Request, m: Manifest)
    requires RecalculateOne(w, s, r, m).Ok?
    ensures forall id :: id in RecalculateOne(w, s, r, m).value.runs <==> id in s.runs || id == w.replacementId(r.id, m.source)
  {
  }

  /** The replacement of an affected run, under its own ID. */
  ghost predicate Replaces(w: World, runs: map<string, Run>, r: Request, id: string) {
    exists m :: ToReplace(w, runs, r, m) && id == w.replacementId(r.id, m.source)
  }

  lemma ApplyReplaces(w: World, s: Ledger, r: Request)
    requires ApplyOne(w, s, r).Ok?
    ensures forall id :: id in ApplyOne(w, s, r).value.0.runs <==> id in s.runs || Replaces(w, s.runs, r, id)
  {
    var scope, records := ScopeOf(r).value, AffectedRecords(r).value;
    var purged := s.(objects := PurgeAll(w, s.objects, References(w, s.lookups, r, scope, records)).value);
    AppendAllAdvances(w, purged, r, records);
    var appended := AppendAll(w, purged, r, records).value;
    var dropped := appended.(lookups := WithoutLookups(appended.lookups, r, scope, records));
    RecalculateAdds(w, dropped, r, AffectedManifests(w, dropped.runs, r, records));
    forall m ensures m in AffectedManifests(w, s.runs, r, records) <==> ToReplace(w, s.runs, r, m) {
      AffectedAre(w, s.runs, r, m);
    }
  }

  /** Affected runs from before the request's completion that no manifest lets replay are counted as unsupported. */
  lemma RestsMeans(runs: map<string, Run>, r: Request, id: string)
    requires AffectedRecords(r).Ok? && id in runs
    ensures (exists e :: e in runs[id].evidence && e in AffectedRecords(r).value) <==> RestsOn(runs, r, id)
  {
    ListedMeans(r);
  }

  lemma UnsupportedAre(w: World, runs: map<string, Run>, r: Request, id: string)
    requires AffectedRecords(r).Ok?
    ensures id in Unsupported(w, runs, r, AffectedRecords(r).value)
       <==> && RestsOn(runs, r, id) && runs[id].tenant == r.tenant && runs[id].app == r.app
            && Precedes(runs[id].computedAt, r.completedAt, PointBefore) && Manifest(r.tenant, r.app, id) !in w.manifests
  {
    if id in runs {
      RestsMeans(runs, r, id);
      TextOrderMeans(runs[id].computedAt, r.completedAt);
    }
  }

  /** No run that replaces the source directly comes later, by time and then by ID. */
  ghost predicate LastDirectSuccessor(runs: map<string, Run>, r: Request, source: string, id: string) {
    && DirectSuccessor(runs, r, source, id)
    && forall other :: DirectSuccessor(runs, r, source, other) && other != id ==>
         PartsBefore([runs[other].computedAt, other], [runs[id].computedAt, id])
  }

  ghost predicate DirectSuccessor(runs: map<string, Run>, r: Request, source: string, id: string) {
    id in runs && runs[id].tenant == r.tenant && runs[id].app == r.app && runs[id].supersedes == Some(source)
  }

  lemma LatestIsLast(runs: map<string, Run>, r: Request, source: string, id: string)
    ensures IsLatest(runs, r, source, id) <==> LastDirectSuccessor(runs, r, source, id)
  {
    if id in runs {
      forall other | other in runs && other != id
        ensures KeyLe(RunKey(runs, other), RunKey(runs, id))
           <==> PartsBefore([runs[other].computedAt, other], [runs[id].computedAt, id])
      {
        assert [runs[other].computedAt, other][1] != [runs[id].computedAt, id][1];
        KeyOrderMeans([runs[other].computedAt, other], [runs[id].computedAt, id]);
      }
      KeyTotal(RunKey(runs, id), RunKey(runs, id));
      assert forall other :: Succeeds(runs, r, source, other) <==> DirectSuccessor(runs, r, source, other);
    }
  }

  /**
   A replacement is the one run computed for its manifest, under its own ID, superseding the last direct successor of the
   source run, or the source run itself when it has none.
   */
  lemma ReplacementFollows(w: World, s: Ledger, r: Request, m: Manifest)
    requires RecalculateOne(w, s, r, m).Ok? && w.replacementId(r.id, m.source) !in s.runs
    ensures var id, runs := w.replacementId(r.id, m.source), RecalculateOne(w, s, r, m).value.runs;
            && id in runs && w.compute(s, r, m).Ok? && |w.compute(s, r, m).value| == 1
            && (forall last :: LastDirectSuccessor(s.runs, r, m.source, last) ==> runs[id].supersedes == Some(last))
            && ((forall other :: !DirectSuccessor(s.runs, r, m.source, other)) ==>
                 runs[id].supersedes == Some(m.source))
            && runs[id] == w.compute(s, r, m).value[0].(supersedes := runs[id].supersedes)
  {
    forall last | LastDirectSuccessor(s.runs, r, m.source, last) ensures SupersededBy(s.runs, r, m.source) == last {
      LatestIsLast(s.runs, r, m.source, last);
      OneLatest(s.runs, r, m.source, last, SupersededBy(s.runs, r, m.source));
    }
    forall id ensures IsLatest(s.runs, r, m.source, id) ==> DirectSuccessor(s.runs, r, m.source, id) {
      LatestIsLast(s.runs, r, m.source, id);
    }
  }

  // ---- What a request reports ----

  ghost predicate AllReached(w: World, lookups: set<Lookup>, r: Request, references: set<string>) {
    forall reference :: reference in references <==> Reaches(w, lookups, r, reference)
  }

  /** Manifests to replay, by their place. */
  ghost function ReplacedPlaces(w: World, runs: map<string, Run>, r: Request): set<int> {
    set i | 0 <= i < |w.manifests| && ToReplace(w, runs, r, w.manifests[i])
  }

  lemma {:induction false} FilterPlaces<T>(xs: seq<T>, keep: T -> bool, places: set<int>)
    requires places == set i | 0 <= i < |xs| && keep(xs[i])
    ensures |Filter(xs, keep)| == |places|
    decreases |xs|
  {
    if xs != [] {
      var before, last := xs[..|xs| - 1], |xs| - 1;
      var earlier := set i | 0 <= i < |before| && keep(before[i]);
      FilterPlaces(before, keep, earlier);
      assert xs == before + [xs[last]];
      FilterConcat(before, [xs[last]], keep);
      assert places == if keep(xs[last]) then earlier + {last} else earlier;
    }
  }

  lemma AffectedCounted(w: World, runs: map<string, Run>, r: Request)
    requires AffectedRecords(r).Ok?
    ensures |AffectedManifests(w, runs, r, AffectedRecords(r).value)| == |ReplacedPlaces(w, runs, r)|
  {
    var records := AffectedRecords(r).value;
    forall i | 0 <= i < |w.manifests|
      ensures ManifestAffected(runs, r, records, w.manifests[i]) <==> ToReplace(w, runs, r, w.manifests[i])
    {
      ListedMeans(r);
    }
    FilterPlaces(w.manifests, m => ManifestAffected(runs, r, records, m), ReplacedPlaces(w, runs, r));
  }

  /** One audit row per request, with the digest of what it reached; and the counts of references and manifests. */
  lemma ReachedIs(w: World, lookups: set<Lookup>, r: Request, references: set<string>)
    requires ScopeOf(r).Some? && AffectedRecords(r).Ok? && AllReached(w, lookups, r, references)
    ensures references == References(w, lookups, r, ScopeOf(r).value, AffectedRecords(r).value)
  {
    forall reference
      ensures reference in References(w, lookups, r, ScopeOf(r).value, AffectedRecords(r).value)
         <==> reference in references
    {
      ReferencesAre(w, lookups, r, reference);
    }
  }

  lemma ApplyReports(w: World, s: Ledger, r: Request, references: set<string>)
    requires ApplyOne(w, s, r).Ok? && AllReached(w, s.lookups, r, references)
    ensures AffectedRecords(r).Ok?
    ensures ApplyOne(w, s, r).value.1.purged == |references|
    ensures ApplyOne(w, s, r).value.1.recalculated == |ReplacedPlaces(w, s.runs, r)|
    ensures var audit := Audit(r.app, r.completedAt, w.auditDigest(r, AffectedRecords(r).value, references));
            ApplyOne(w, s, r).value.0.audits == if (r.tenant, r.id) in s.audits then s.audits
                else s.audits[(r.tenant, r.id) := audit]
  {
    ApplyReported(w, s, r, ScopeOf(r).value, AffectedRecords(r).value);
    ReachedIs(w, s.lookups, r, references);
    AffectedCounted(w, s.runs, r);
  }

  lemma ApplyReported(w: World, s: Ledger, r: Request, scope: Scope, records: seq<string>)
    requires ApplyTo(w, s, r, scope, records).Ok?
    ensures var (t, counts) := ApplyTo(w, s, r, scope, records).value;
            var references := References(w, s.lookups, r, scope, records);
            && counts.purged == |references| && counts.recalculated == |AffectedManifests(w, s.runs, r, records)|
            && t.audits == Kept(s.audits, (r.tenant, r.id),
                                Audit(r.app, r.completedAt, w.auditDigest(r, records, references)))
  {
    var references := References(w, s.lookups, r, scope, records);
    var purged := s.(objects := PurgeAll(w, s.objects, references).value);
    AppendAllAdvances(w, purged, r, records);
    var appended := AppendAll(w, purged, r, records).value;
    var dropped := appended.(lookups := WithoutLookups(appended.lookups, r, scope, records));
    RecalculateAllAdvances(w, dropped, r, AffectedManifests(w, dropped.runs, r, records));
  }
}
