/** What the stored rows say, read back column by column, whichever writer stored them. */
module Columns {
  import opened Outcomes
  import opened Contract
  import opened Sequences
  import opened FactRows
  import opened BulkProjection

  // ---- Columns ----

  /** A member that is absent reads as null. */
  ghost predicate Reads(o: Object, name: Name, v: Value) {
    if name in o then v == o[name] else v == Null
  }

  /** The columns are the payload's members of their own names. */
  ghost predicate OwnMembers(columns: Object, names: set<Name>, payload: Object) {
    forall n :: n in names ==> n in columns && Reads(payload, n, columns[n])
  }

  /** The payload's member, or the import's when that is absent or null. */
  ghost predicate Dimension(columns: Object, name: Name, b: Body, reported: Name) {
    && name in columns
    && (name in b.payload && b.payload[name] != Null ==> columns[name] == b.payload[name])
    && (name !in b.payload || b.payload[name] == Null ==> Reads(b.importContext, reported, columns[name]))
  }

  ghost predicate Dimensioned(columns: Object, b: Body) {
    && Dimension(columns, CampaignId, b, ProviderCampaignRef) && Dimension(columns, Network, b, ProviderNetwork)
    && Dimension(columns, Country, b, ProviderCountry)
  }

  /** A flag column is set when the member is true. */
  ghost predicate Flagged(columns: Object, name: Name, payload: Object) {
    name in columns && columns[name] == Flag(name in payload && payload[name] == Flag(true))
  }

  ghost predicate Keeps(columns: Object, artifact: Object, names: set<Name>) {
    forall n :: n in names ==> n in columns && n in artifact && artifact[n] == columns[n]
  }

  ghost predicate KeepsGiven(columns: Object, artifact: Object, names: set<Name>, payload: Object) {
    forall n :: n in names ==>
      n in columns && (n in artifact <==> n in payload) && (n in payload ==> artifact[n] == columns[n])
  }

  /** The artifact repeats columns and may leave out members the payload does not have. */
  ghost predicate Repeats(f: Fact, kept: set<Name>, optional: set<Name>, payload: Object) {
    Keeps(f.columns, f.artifact, kept) && KeepsGiven(f.columns, f.artifact, optional, payload)
  }

  /** A registered link of the application, for a redirector's click that names it. */
  ghost predicate Linked(v: Value, l: LogicalEvent, a: Attempt, w: World) {
    var p := w.body(a).payload;
    if exists id :: TrackingLinkId in p && p[TrackingLinkId] == Text(id) && a.record.producer == "redirector"
                    && (l.tenantId, l.appId, id) in w.links
    then v == p[TrackingLinkId] else v == Null
  }

  // ---- Rows ----

  /** The names under which the contract lists events. */
  ghost predicate Named(text: string, event: EventName) {
    match event
    case Click => text == "click"
    case Install => text == "install"
    case SessionStart => text == "session_start"
    case Purchase => text == "purchase"
    case AdRevenue => text == "ad_revenue"
    case CustomEvent => text == "custom_event"
    case SkanPostback => text == "skan_postback"
    case AakPostback => text == "adattributionkit_postback"
    case DeepLinkOpen => text == "deep_link_open"
    case Refund => text == "refund"
    case ConsentChanged => text == "consent_changed"
    case PrivacyControl => text == "privacy_control"
    case OtherEvent(name) => text == name
  }

  ghost predicate NamedColumn(columns: Object, event: EventName) {
    EventText in columns && columns[EventText].Text? && Named(columns[EventText].text, event)
  }

  ghost predicate Under(f: Fact, table: Table, l: LogicalEvent) {
    f.place == Place(table, l.logicalEventId) && f.tenant == l.tenantId && f.app == l.appId
  }

  ghost predicate EventRow(f: Fact, l: LogicalEvent) {
    && Under(f, LogicalEvents, l) && f.columns.Keys == {RecordId, ProducerName, EventId, EventText, Timeliness}
    && f.columns[RecordId] == Text(l.recordId) && f.columns[ProducerName] == Text(l.producer)
    && f.columns[EventId] == Text(l.eventId) && NamedColumn(f.columns, l.event)
    && f.columns[Timeliness] == Text(if l.late then "late" else "on_time") && f.artifact == f.columns
  }

  ghost predicate ClickColumns(f: Fact, l: LogicalEvent, a: Attempt, w: World) {
    var own, b := {ClickId, RedirectorClickAt, SiteId, RemoteClickRef}, w.body(a);
    && Under(f, Clicks, l) && f.columns.Keys == own + {CampaignId, Network, Country, TrackingLinkId}
    && OwnMembers(f.columns, own, b.payload) && Dimensioned(f.columns, b) && Linked(f.columns[TrackingLinkId], l, a, w)
    && ClickArtifact(f.columns, f.artifact, b.payload)
  }

  /** The click ID is left out of the artifact when it is empty. */
  ghost predicate ClickArtifact(columns: Object, artifact: Object, p: Object) {
    && Keeps(columns, artifact,
             {RedirectorClickAt, SiteId, RemoteClickRef, CampaignId, Network, Country, TrackingLinkId})
    && ClickId in columns && (ClickId in artifact ==> artifact[ClickId] == columns[ClickId])
    && (ClickId in p && p[ClickId].Text? && p[ClickId] != Text("") ==> ClickId in artifact)
    && (Reads(p, ClickId, Null) || Reads(p, ClickId, Text("")) ==> ClickId !in artifact)
    && OwnMembers(artifact, {SourceRateClass, ClientClass}, p) && Flagged(artifact, BotPrefetch, p)
  }

  ghost predicate InstallColumns(f: Fact, l: LogicalEvent, a: Attempt, w: World) {
    var own, b := {InstallationId, PriorInstallationId, InstallKind, ClickId, InstallBeginAtServer}, w.body(a);
    && Under(f, Installs, l) && f.columns.Keys == own + {OccurredAt, CampaignId, Network, Country}
    && OwnMembers(f.columns, own, b.payload) && Dimensioned(f.columns, b) && f.columns[OccurredAt] == Text(a.record.occurredAt)
    && InstallArtifact(f, b.payload)
  }

  ghost predicate InstallArtifact(f: Fact, p: Object) {
    Repeats(f, {PriorInstallationId, OccurredAt, CampaignId, Network, Country}, {InstallationId, InstallKind}, p)
  }

  ghost predicate SessionColumns(f: Fact, l: LogicalEvent, a: Attempt, p: Object) {
    && Under(f, Sessions, l) && f.columns.Keys == {InstallationId, SessionId, OccurredAt}
    && OwnMembers(f.columns, {InstallationId, SessionId}, p) && f.columns[OccurredAt] == Text(a.record.occurredAt)
    && Repeats(f, {}, {InstallationId, SessionId}, p)
  }

  /** Link and campaign of an open are those of its resolution, while that is active. */
  ghost predicate OpenColumns(f: Fact, l: LogicalEvent, a: Attempt, w: World) {
    var b := w.body(a);
    && Under(f, DeepLinkOpens, l)
    && f.columns.Keys == {InstallationId, OpenSource, TrackingLinkId, CampaignId, OccurredAt, DaysSinceLastSession}
    && OwnMembers(f.columns, {InstallationId, OpenSource}, b.payload) && f.columns[OccurredAt] == Text(a.record.occurredAt)
    && (if LinkStatusText in b.resolution && b.resolution[LinkStatusText] == Text("active")
        then OwnMembers(f.columns, {TrackingLinkId, CampaignId}, b.resolution)
        else f.columns[TrackingLinkId] == Null && f.columns[CampaignId] == Null)
    && OpenArtifact(f, b.payload)
  }

  ghost predicate OpenArtifact(f: Fact, p: Object) {
    Repeats(f, {TrackingLinkId, CampaignId, OccurredAt, DaysSinceLastSession}, {InstallationId, OpenSource}, p)
  }

  ghost predicate PurchaseColumns(f: Fact, l: LogicalEvent, a: Attempt, p: Object) {
    var own := {InstallationId, TransactionId, AmountUnscaled, AmountScale, Currency};
    && Under(f, Purchases, l) && f.columns.Keys == own + {OccurredAt}
    && OwnMembers(f.columns, own, p) && f.columns[OccurredAt] == Text(a.record.occurredAt)
    && Repeats(f, {InstallationId}, {TransactionId, AmountUnscaled, AmountScale, Currency}, p)
  }

  ghost predicate AdRevenueColumns(f: Fact, l: LogicalEvent, a: Attempt, p: Object) {
    var own := {InstallationId, AnchorSource, ImpressionId, AdUnitId, AdNetwork, AmountUnscaled, AmountScale, Currency,
                RevenueSource, Country};
    && Under(f, AdRevenues, l) && f.columns.Keys == own + {OccurredAt}
    && OwnMembers(f.columns, own, p) && f.columns[OccurredAt] == Text(a.record.occurredAt)
    && Repeats(f, {InstallationId, AnchorSource, ImpressionId},
               {AmountUnscaled, AmountScale, Currency, RevenueSource}, p)
  }

  ghost predicate CustomEventColumns(f: Fact, l: LogicalEvent, p: Object) {
    && Under(f, CustomEvents, l) && f.columns.Keys == {InstallationId, EventKey}
    && OwnMembers(f.columns, {InstallationId, EventKey}, p) && Repeats(f, {}, {InstallationId, EventKey}, p)
  }

  /** The bucket is the fine conversion value, or else the coarse one. */
  ghost predicate Bucketed(v: Value, p: Object) {
    && (ConversionValue in p ==> v == Text("fine:" + Rendered(p[ConversionValue])))
    && (ConversionValue !in p && CoarseConversionValue in p ==>
         v == Text("coarse:" + Rendered(p[CoarseConversionValue])))
    && (ConversionValue !in p && CoarseConversionValue !in p ==> v == Null)
  }

  ghost predicate PostbackColumns(f: Fact, l: LogicalEvent, a: Attempt, p: Object) {
    && Under(f, ApplePostbacks, l)
    && f.columns.Keys == {EventText, SignatureVerified, DidWin, SourceIdentifierPresent, ConversionBucket, ReceivedAt}
    && NamedColumn(f.columns, l.event) && f.columns[ReceivedAt] == Text(a.record.receivedAt)
    && Flagged(f.columns, SignatureVerified, p) && Flagged(f.columns, DidWin, p)
    && f.columns[SourceIdentifierPresent] == Flag(SourceIdentifier in p) && Bucketed(f.columns[ConversionBucket], p)
    && f.artifact == f.columns
  }

  /** The row an event of the attempt has in its table. */
  ghost predicate ReadBack(f: Fact, l: LogicalEvent, a: Attempt, w: World) {
    match l.event
    case Click => ClickColumns(f, l, a, w)
    case Install => InstallColumns(f, l, a, w)
    case SessionStart => SessionColumns(f, l, a, w.body(a).payload)
    case DeepLinkOpen => OpenColumns(f, l, a, w)
    case Purchase => PurchaseColumns(f, l, a, w.body(a).payload)
    case AdRevenue => AdRevenueColumns(f, l, a, w.body(a).payload)
    case CustomEvent => CustomEventColumns(f, l, w.body(a).payload)
    case SkanPostback => PostbackColumns(f, l, a, w.body(a).payload)
    case AakPostback => PostbackColumns(f, l, a, w.body(a).payload)
    case _ => false
  }

  /** Events that have a table: all but refunds, consent changes, privacy controls and unknown names. */
  ghost predicate HasTable(event: EventName) {
    !(event.Refund? || event.ConsentChanged? || event.PrivacyControl? || event.OtherEvent?)
  }

  lemma EventRowReads(l: LogicalEvent)
    ensures EventRow(LogicalRow(l), l)
  {
  }

  lemma LinkReads(l: LogicalEvent, a: Attempt, w: World)
    ensures Linked(TrackingLink(l, a, w), l, a, w)
  {
  }

  lemma DimensionsRead(b: Body)
    ensures Dimensioned(Dimensions(b), b)
  {
  }


  /** Null-filled members beside other columns. */
  lemma Beside(p: Object, own: set<Name>, others: Object)
    requires own !! others.Keys
    ensures var columns := Nullable(p, own) + others;
            && columns.Keys == own + others.Keys && OwnMembers(columns, own, p)
            && forall n :: n in others ==> n in columns && columns[n] == others[n]
  {
  }

  /** Other members, under null-filled ones, under other columns. */
  lemma Layers(bottom: Object, p: Object, own: set<Name>, top: Object)
    requires own !! top.Keys && bottom.Keys !! own && bottom.Keys !! top.Keys
    ensures var all := bottom + Nullable(p, own) + top;
            && all.Keys == bottom.Keys + own + top.Keys && OwnMembers(all, own, p)
            && (forall n :: n in top ==> all[n] == top[n]) && forall n :: n in bottom ==> all[n] == bottom[n]
  {
  }

  lemma KeptInBoth(columns: Object, artifact: Object, kept: set<Name>, shared: set<Name>, top: Object, p: Object)
    requires forall n :: n in kept ==> n in top || n in shared
    requires forall n :: n in top ==> n in columns && n in artifact && columns[n] == top[n] && artifact[n] == top[n]
    requires OwnMembers(columns, shared, p) && OwnMembers(artifact, shared, p)
    ensures Keeps(columns, artifact, kept)
  {
  }

  lemma SameDimensions(columns: Object, dims: Object, b: Body)
    requires Dimensioned(dims, b) && forall n :: n in dims ==> n in columns && columns[n] == dims[n]
    ensures Dimensioned(columns, b)
  {
  }

  lemma ClickArtifactFrom(p: Object, id: Object, bottom: Object, top: Object)
    requires top.Keys == {CampaignId, Network, Country, TrackingLinkId}
    requires id == if Truthy(Get(p, ClickId)) then Copy(p, {ClickId}) else map[]
    requires bottom == id[BotPrefetch := IsTrue(Get(p, BotPrefetch))]
    ensures ClickArtifact(Nullable(p, {ClickId, RedirectorClickAt, SiteId, RemoteClickRef}) + top,
                          bottom + Nullable(p, {RedirectorClickAt, SiteId, RemoteClickRef, SourceRateClass, ClientClass}) + top, p)
  {
    var own := {ClickId, RedirectorClickAt, SiteId, RemoteClickRef};
    var more := {RedirectorClickAt, SiteId, RemoteClickRef, SourceRateClass, ClientClass};
    assert id.Keys <= {ClickId};
    Beside(p, own, top);
    Layers(bottom, p, more, top);
    ClickLayers(Nullable(p, own) + top, bottom + Nullable(p, more) + top, p, id, bottom, top);
  }

  lemma ClickLayers(columns: Object, artifact: Object, p: Object, id: Object, bottom: Object, top: Object)
    requires top.Keys == {CampaignId, Network, Country, TrackingLinkId} && id.Keys <= {ClickId}
    requires id == if Truthy(Get(p, ClickId)) then Copy(p, {ClickId}) else map[]
    requires bottom == id[BotPrefetch := IsTrue(Get(p, BotPrefetch))]
    requires OwnMembers(columns, {ClickId, RedirectorClickAt, SiteId, RemoteClickRef}, p)
    requires OwnMembers(artifact, {RedirectorClickAt, SiteId, RemoteClickRef, SourceRateClass, ClientClass}, p)
    requires forall n :: n in top ==> n in columns && n in artifact && columns[n] == top[n] && artifact[n] == top[n]
    requires forall n :: n in bottom ==> n in artifact && artifact[n] == bottom[n]
    requires ClickId in artifact ==> ClickId in bottom
    ensures ClickArtifact(columns, artifact, p)
  {
    KeptInBoth(columns, artifact, {RedirectorClickAt, SiteId, RemoteClickRef, CampaignId, Network, Country, TrackingLinkId},
               {RedirectorClickAt, SiteId, RemoteClickRef}, top, p);
    ClickIdKept(p, id);
  }

  lemma ClickIdKept(p: Object, id: Object)
    requires id == if Truthy(Get(p, ClickId)) then Copy(p, {ClickId}) else map[]
    ensures ClickId in id ==> Reads(p, ClickId, id[ClickId])
    ensures ClickId in p && p[ClickId].Text? && p[ClickId] != Text("") ==> ClickId in id
    ensures Reads(p, ClickId, Null) || Reads(p, ClickId, Text("")) ==> ClickId !in id
  {
  }

  lemma ClickArtifactReads(l: LogicalEvent, b: Body, link: Value)
    ensures ClickArtifact(ClickRow(l, b, link).columns, ClickRow(l, b, link).artifact, b.payload)
  {
    var p, top := b.payload, Dimensions(b)[TrackingLinkId := link];
    var id := if Truthy(Get(p, ClickId)) then Copy(p, {ClickId}) else map[];
    assert top.Keys == {CampaignId, Network, Country, TrackingLinkId};
    assert id + map[BotPrefetch := IsTrue(Get(p, BotPrefetch))] == id[BotPrefetch := IsTrue(Get(p, BotPrefetch))];
    ClickArtifactFrom(p, id, id[BotPrefetch := IsTrue(Get(p, BotPrefetch))], top);
  }

  lemma ClickReads(l: LogicalEvent, a: Attempt, w: World, link: Value)
    requires Linked(link, l, a, w)
    ensures ClickColumns(ClickRow(l, w.body(a), link), l, a, w)
  {
    var b := w.body(a);
    DimensionsRead(b);
    ClickArtifactReads(l, b, link);
    ClickTableReads(l, b, link);
  }

  lemma ClickTableReads(l: LogicalEvent, b: Body, link: Value)
    ensures var f := ClickRow(l, b, link);
            && Under(f, Clicks, l)
            && f.columns.Keys == {ClickId, RedirectorClickAt, SiteId, RemoteClickRef, CampaignId, Network, Country, TrackingLinkId}
            && OwnMembers(f.columns, {ClickId, RedirectorClickAt, SiteId, RemoteClickRef}, b.payload)
            && Dimensioned(f.columns, b) && f.columns[TrackingLinkId] == link
  {
    var own, dims := {ClickId, RedirectorClickAt, SiteId, RemoteClickRef}, Dimensions(b)[TrackingLinkId := link];
    DimensionsRead(b);
    assert dims.Keys == {CampaignId, Network, Country, TrackingLinkId};
    SameDimensions(dims, Dimensions(b), b);
    Beside(b.payload, own, dims);
    SameDimensions(Nullable(b.payload, own) + dims, dims, b);
  }

  lemma InstallTableReads(l: LogicalEvent, r: Record, b: Body)
    ensures var f := InstallRow(l, r, b);
            && Under(f, Installs, l)
            && f.columns.Keys == {InstallationId, PriorInstallationId, InstallKind, ClickId, InstallBeginAtServer, OccurredAt,
                                  CampaignId, Network, Country}
            && OwnMembers(f.columns,
                          {InstallationId, PriorInstallationId, InstallKind, ClickId, InstallBeginAtServer}, b.payload)
            && Dimensioned(f.columns, b) && f.columns[OccurredAt] == Text(r.occurredAt)
  {
    var own := {InstallationId, PriorInstallationId, InstallKind, ClickId, InstallBeginAtServer};
    var at := Text(r.occurredAt);
    var dims := Dimensions(b)[OccurredAt := at];
    DimensionsRead(b);
    assert dims.Keys == {CampaignId, Network, Country, OccurredAt};
    SameDimensions(dims, Dimensions(b), b);
    Beside(b.payload, own, dims);
    SameDimensions(Nullable(b.payload, own) + dims, dims, b);
  }

  lemma InstallArtifactFrom(p: Object, top: Object)
    requires top.Keys == {CampaignId, Network, Country, OccurredAt}
    ensures var columns := Nullable(p, {InstallationId, PriorInstallationId, InstallKind, ClickId, InstallBeginAtServer}) + top;
            var artifact := Copy(p, {InstallationId, InstallKind}) + Nullable(p, {PriorInstallationId}) + top;
            && Keeps(columns, artifact, {PriorInstallationId, OccurredAt, CampaignId, Network, Country})
            && KeepsGiven(columns, artifact, {InstallationId, InstallKind}, p)
  {
    var own := {InstallationId, PriorInstallationId, InstallKind, ClickId, InstallBeginAtServer};
    var bottom := Copy(p, {InstallationId, InstallKind});
    Beside(p, own, top);
    Layers(bottom, p, {PriorInstallationId}, top);
    KeptInBoth(Nullable(p, own) + top, bottom + Nullable(p, {PriorInstallationId}) + top,
               {PriorInstallationId, OccurredAt, CampaignId, Network, Country}, {PriorInstallationId}, top, p);
  }

  lemma InstallArtifactReads(l: LogicalEvent, r: Record, b: Body)
    ensures InstallArtifact(InstallRow(l, r, b), b.payload)
  {
    var top := Dimensions(b)[OccurredAt := Text(r.occurredAt)];
    assert top.Keys == {CampaignId, Network, Country, OccurredAt};
    InstallArtifactFrom(b.payload, top);
  }

  lemma InstallReads(l: LogicalEvent, a: Attempt, w: World)
    ensures InstallColumns(InstallRow(l, a.record, w.body(a)), l, a, w)
  {
    InstallTableReads(l, a.record, w.body(a));
    InstallArtifactReads(l, a.record, w.body(a));
  }

  lemma SessionReads(l: LogicalEvent, a: Attempt, p: Object)
    ensures SessionColumns(SessionRow(l, a.record, p), l, a, p)
  {
  }

  lemma OpenTableReads(l: LogicalEvent, r: Record, b: Body, days: Value)
    ensures var f := WithDays(OpenRow(l, r, b), days);
            && Under(f, DeepLinkOpens, l)
            && f.columns.Keys == {InstallationId, OpenSource, TrackingLinkId, CampaignId, OccurredAt, DaysSinceLastSession}
            && OwnMembers(f.columns, {InstallationId, OpenSource}, b.payload) && f.columns[OccurredAt] == Text(r.occurredAt)
            && (if LinkStatusText in b.resolution && b.resolution[LinkStatusText] == Text("active")
                then OwnMembers(f.columns, {TrackingLinkId, CampaignId}, b.resolution)
                else f.columns[TrackingLinkId] == Null && f.columns[CampaignId] == Null)
  {
  }

  lemma OpenArtifactReads(l: LogicalEvent, r: Record, b: Body, days: Value)
    ensures OpenArtifact(WithDays(OpenRow(l, r, b), days), b.payload)
  {
  }

  lemma OpenReads(l: LogicalEvent, a: Attempt, w: World, days: Value)
    ensures OpenColumns(WithDays(OpenRow(l, a.record, w.body(a)), days), l, a, w)
  {
    OpenTableReads(l, a.record, w.body(a), days);
    OpenArtifactReads(l, a.record, w.body(a), days);
  }

  lemma PurchaseReads(l: LogicalEvent, a: Attempt, p: Object)
    ensures PurchaseColumns(PurchaseRow(l, a.record, p), l, a, p)
  {
  }

  lemma AdRevenueReads(l: LogicalEvent, a: Attempt, p: Object)
    ensures AdRevenueColumns(AdRevenueRow(l, a.record, p), l, a, p)
  {
  }

  lemma CustomEventReads(l: LogicalEvent, p: Object)
    ensures CustomEventColumns(CustomEventRow(l, p), l, p)
  {
  }

  lemma PostbackReads(l: LogicalEvent, a: Attempt, p: Object)
    ensures PostbackColumns(PostbackRow(l, a.record, p), l, a, p)
  {
  }

  /** Every row either writer builds reads back. */
  lemma RowReads(l: LogicalEvent, a: Attempt, w: World, link: Value, days: Value)
    requires Linked(link, l, a, w)
    ensures FactRow(l, a.record, w.body(a), link, days).Some? <==> HasTable(l.event)
    ensures HasTable(l.event) ==> ReadBack(FactRow(l, a.record, w.body(a), link, days).value, l, a, w)
  {
    if l.event.Click? || l.event.Install? || l.event.DeepLinkOpen? {
      EngagementReads(l, a, w, link, days);
    } else if l.event.SessionStart? || l.event.Purchase? || l.event.AdRevenue? {
      PurchasesRead(l, a, w, link, days);
    } else {
      OthersRead(l, a, w, link, days);
    }
  }

  lemma EngagementReads(l: LogicalEvent, a: Attempt, w: World, link: Value, days: Value)
    requires Linked(link, l, a, w) && (l.event.Click? || l.event.Install? || l.event.DeepLinkOpen?)
    ensures FactRow(l, a.record, w.body(a), link, days).Some?
    ensures ReadBack(FactRow(l, a.record, w.body(a), link, days).value, l, a, w)
  {
    match l.event
    case Click => ClickReads(l, a, w, link);
    case Install => InstallReads(l, a, w);
    case DeepLinkOpen => OpenReads(l, a, w, days);
  }

  lemma PurchasesRead(l: LogicalEvent, a: Attempt, w: World, link: Value, days: Value)
    requires l.event.SessionStart? || l.event.Purchase? || l.event.AdRevenue?
    ensures FactRow(l, a.record, w.body(a), link, days).Some?
    ensures ReadBack(FactRow(l, a.record, w.body(a), link, days).value, l, a, w)
  {
    var p := w.body(a).payload;
    match l.event
    case SessionStart => SessionReads(l, a, p);
    case Purchase => PurchaseReads(l, a, p);
    case AdRevenue => AdRevenueReads(l, a, p);
  }

  lemma OthersRead(l: LogicalEvent, a: Attempt, w: World, link: Value, days: Value)
    requires !l.event.Click? && !l.event.Install? && !l.event.DeepLinkOpen?
    requires !l.event.SessionStart? && !l.event.Purchase? && !l.event.AdRevenue?
    ensures FactRow(l, a.record, w.body(a), link, days).Some? <==> HasTable(l.event)
    ensures HasTable(l.event) ==> ReadBack(FactRow(l, a.record, w.body(a), link, days).value, l, a, w)
  {
    var p := w.body(a).payload;
    match l.event
    case CustomEvent => CustomEventReads(l, p);
    case SkanPostback => PostbackReads(l, a, p);
    case AakPostback => PostbackReads(l, a, p);
    case _ =>
  }

  // ---- The tables after either writer ----

  ghost predicate OfRecord(a: Attempt, l: LogicalEvent) {
    a.server.tenantId == l.tenantId && a.server.appId == l.appId && a.record.recordId == l.recordId
  }

  /** The logical event's own row, or its fact row read back from an attempt with its record. */
  ghost predicate RowOfEvent(f: Fact, l: LogicalEvent, input: seq<Attempt>, w: World) {
    EventRow(f, l) || exists a :: a in input && OfRecord(a, l) && ReadBack(f, l, a, w)
  }

  /** Old rows stay, and every new row reads back as a row of one of the events. */
  ghost predicate StoredFrom(t: Tables, after: Tables, ls: seq<LogicalEvent>, input: seq<Attempt>, w: World) {
    && (forall k :: k in t ==> k in after && after[k] == t[k])
    && forall k :: k in after && k !in t ==> exists l :: l in ls && RowOfEvent(after[k], l, input, w)
  }

  function TableFor(event: EventName): Table {
    match event
    case Click => Clicks
    case Install => Installs
    case SessionStart => Sessions
    case DeepLinkOpen => DeepLinkOpens
    case Purchase => Purchases
    case AdRevenue => AdRevenues
    case CustomEvent => CustomEvents
    case SkanPostback => ApplePostbacks
    case AakPostback => ApplePostbacks
    case _ => LogicalEvents
  }

  /** The event has its row in the ledger and, if its name has a table, in that one. */
  ghost predicate Stored(t: Tables, l: LogicalEvent) {
    Place(LogicalEvents, l.logicalEventId) in t && (HasTable(l.event) ==>
        Place(TableFor(l.event), l.logicalEventId) in t)
  }

  lemma ReadBackPlace(f: Fact, l: LogicalEvent, a: Attempt, w: World)
    requires ReadBack(f, l, a, w)
    ensures f.place == Place(TableFor(l.event), l.logicalEventId)
  {
  }

  lemma StoredMore(t: Tables, mid: Tables, after: Tables, ls: seq<LogicalEvent>, input: seq<Attempt>, w: World)
    requires StoredFrom(t, mid, ls, input, w) && StoredFrom(mid, after, ls, input, w)
    ensures StoredFrom(t, after, ls, input, w)
  {
  }

  lemma {:induction false} PutAllStores(t: Tables, fs: seq<Fact>, ls: seq<LogicalEvent>, input: seq<Attempt>, w: World)
    requires forall f :: f in fs ==> exists l :: l in ls && RowOfEvent(f, l, input, w)
    ensures StoredFrom(t, PutAll(t, fs), ls, input, w)
    ensures forall f :: f in fs ==> f.place in PutAll(t, fs)
    decreases |fs|
  {
    if fs != [] {
      var before, last := fs[..|fs| - 1], fs[|fs| - 1];
      assert forall f :: f in fs <==> f in before || f == last by {
        assert fs == before + [last];
      }
      PutAllStores(t, before, ls, input, w);
    }
  }

  lemma FirstAttemptIs(input: seq<Attempt>, l: LogicalEvent)
    requires FirstAttempt(input, l).Some?
    ensures FirstAttempt(input, l).value in input && OfRecord(FirstAttempt(input, l).value, l)
  {
  }

  lemma LastAttemptIs(input: seq<Attempt>, l: LogicalEvent)
    requires LastAttempt(input, l).Some?
    ensures LastAttempt(input, l).value in input && OfRecord(LastAttempt(input, l).value, l)
  {
  }

  lemma ProjectStores(t: Tables, l: LogicalEvent, ls: seq<LogicalEvent>, input: seq<Attempt>, w: World)
    requires l in ls
    ensures StoredFrom(t, ProjectStep(input, w)(t, l).tables, ls, input, w)
    ensures !ProjectStep(input, w)(t, l).failed && HasTable(l.event) ==>
              Place(TableFor(l.event), l.logicalEventId) in ProjectStep(input, w)(t, l).tables
  {
    var found := FirstAttempt(input, l);
    if found.Some? {
      var a := found.value;
      FirstAttemptIs(input, l);
      LinkReads(l, a, w);
      RowReads(l, a, w, TrackingLink(l, a, w), w.days(t, l, a));
      var row := RowOf(l, a, w, w.days(t, l, a));
      if row.Some? {
        ReadBackPlace(row.value, l, a, w);
        assert RowOfEvent(row.value, l, input, w);
      }
      PutAllStores(t, Listed(row), ls, input, w);
    }
  }

  lemma PutStores(t: Tables, f: Fact, l: LogicalEvent, ls: seq<LogicalEvent>, input: seq<Attempt>, w: World)
    requires l in ls && RowOfEvent(f, l, input, w)
    ensures StoredFrom(t, Put(t, f), ls, input, w) && f.place in Put(t, f)
  {
  }

  lemma StoreStores(t: Tables, l: LogicalEvent, ls: seq<LogicalEvent>, input: seq<Attempt>, w: World)
    requires l in ls
    ensures StoredFrom(t, StoreStep(input, w)(t, l).tables, ls, input, w)
    ensures !StoreStep(input, w)(t, l).failed ==> Stored(StoreStep(input, w)(t, l).tables, l)
  {
    EventRowReads(l);
    var put := Put(t, LogicalRow(l));
    PutStores(t, LogicalRow(l), l, ls, input, w);
    ProjectStores(put, l, ls, input, w);
    StoredMore(t, put, ProjectStep(input, w)(put, l).tables, ls, input, w);
    StoreIsProject(t, l, input, w);
  }

  lemma StoreIsProject(t: Tables, l: LogicalEvent, input: seq<Attempt>, w: World)
    ensures var projected, stored := ProjectStep(input, w)(Put(t, LogicalRow(l)), l), StoreStep(input, w)(t, l);
            stored.failed == projected.failed && stored.tables == if stored.failed then t else projected.tables
  {
  }

  ghost predicate StepStores(step: Step, ls: seq<LogicalEvent>, input: seq<Attempt>, w: World) {
    forall t, l :: l in ls ==> StoredFrom(t, step(t, l).tables, ls, input, w)
  }

  lemma {:induction false} EachStores(t: Tables, run: seq<LogicalEvent>, step: Step, ls: seq<LogicalEvent>,
                                      input: seq<Attempt>, w: World)
    requires StepStores(step, ls, input, w) && forall l :: l in run ==> l in ls
    ensures StoredFrom(t, Each(t, run, step).tables, ls, input, w)
    decreases |run|
  {
    if run != [] {
      var earlier, last := run[..|run| - 1], run[|run| - 1];
      EachStores(t, earlier, step, ls, input, w);
      var before := Each(t, earlier, step);
      if !before.failed {
        assert last in run;
        StoredMore(t, before.tables, step(before.tables, last).tables, ls, input, w);
      }
    }
  }

  lemma {:induction false} LookedUpListed(order: seq<Attempt>, ls: seq<LogicalEvent>)
    ensures forall l :: l in LookedUp(order, ls) ==> l in ls
  {
    if order != [] {
      LookedUpListed(order[..|order| - 1], ls);
      LastOfListed(ls, order[|order| - 1].record.recordId);
    }
  }

  lemma {:induction false} LastOfListed(ls: seq<LogicalEvent>, record: string)
    ensures LastOf(ls, record).Some? ==> LastOf(ls, record).value in ls && LastOf(ls, record).value.recordId == record
  {
    if ls != [] {
      LastOfListed(ls[..|ls| - 1], record);
    }
  }

  /** Attempt by attempt, failed or not: every new row reads back column by column as a row of one of the events. */
  lemma RowByRowReadsBack(t: Tables, order: seq<Attempt>, ls: seq<LogicalEvent>, input: seq<Attempt>, w: World)
    ensures StoredFrom(t, Each(t, LookedUp(order, ls), StoreStep(input, w)).tables, ls, input, w)
  {
    LookedUpListed(order, ls);
    forall t, l | l in ls ensures StoredFrom(t, StoreStep(input, w)(t, l).tables, ls, input, w) {
      StoreStores(t, l, ls, input, w);
    }
    EachStores(t, LookedUp(order, ls), StoreStep(input, w), ls, input, w);
  }

  lemma {:induction false} RoutedFrom(ls: seq<LogicalEvent>, route: LogicalEvent -> Route, table: Table, f: Fact)
    ensures f in RowsOf(ls, route, table) <==> exists l :: l in ls && route(l) == Row(f) && f.place.table == table
    decreases |ls|
  {
    if ls != [] {
      RoutedFrom(ls[..|ls| - 1], route, table, f);
      assert ls == ls[..|ls| - 1] + [ls[|ls| - 1]];
    }
  }

  lemma {:induction false} ByTableFrom(p: Projections, n: nat, ls: seq<LogicalEvent>, route: LogicalEvent -> Route,
                                       f: Fact)
    requires Collected(p, ls, route) && n <= |p.order|
    ensures f in ByTable(p, n) <==> (exists l :: l in ls && route(l) == Row(f)) && f.place.table in p.order[..n]
  {
    if n > 0 {
      ByTableFrom(p, n - 1, ls, route, f);
      assert p.order[..n] == p.order[..n - 1] + [p.order[n - 1]];
      assert RowsListed(p, p.order[n - 1]) == RowsOf(ls, route, p.order[n - 1]);
      RoutedFrom(ls, route, p.order[n - 1], f);
    }
  }

  lemma RoutedReads(l: LogicalEvent, a: Attempt, w: World)
    requires RouteOf(l, a, w).Row?
    ensures ReadBack(RouteOf(l, a, w).fact, l, a, w)
  {
    if l.event.Click? {
      assert Linked(Null, l, a, w);
      RowReads(l, a, w, Null, Null);
    } else {
      LinkOnlyForClicks(l, a.record, w.body(a), TrackingLink(l, a, w));
      LinkReads(l, a, w);
      RowReads(l, a, w, TrackingLink(l, a, w), Null);
    }
  }

  /** In bulk, failed or not: the same. */
  lemma BulkReadsBack(t: Tables, ls: seq<LogicalEvent>, p: Projections, input: seq<Attempt>, w: World)
    requires Collected(p, ls, Router(input, w))
    ensures StoredFrom(t, BulkAfter(t, ls, p, input, w).tables, ls, input, w)
  {
    var logical := PutAll(t, Map(ls, LogicalRow));
    var tables := PutAll(logical, ByTable(p, |p.order|));
    forall f | f in Map(ls, LogicalRow) ensures exists l :: l in ls && RowOfEvent(f, l, input, w) {
      MapMember(ls, LogicalRow, f);
      var l :| l in ls && LogicalRow(l) == f;
      EventRowReads(l);
    }
    PutAllStores(t, Map(ls, LogicalRow), ls, input, w);
    forall f | f in ByTable(p, |p.order|) ensures exists l :: l in ls && RowOfEvent(f, l, input, w) {
      ByTableFrom(p, |p.order|, ls, Router(input, w), f);
      var l :| l in ls && Router(input, w)(l) == Row(f);
      LastAttemptIs(input, l);
      RoutedReads(l, LastAttempt(input, l).value, w);
    }
    PutAllStores(logical, ByTable(p, |p.order|), ls, input, w);
    StoredMore(t, logical, tables, ls, input, w);
    FallbacksStored(tables, ls, p.fallback, input, w);
    StoredMore(t, tables, Each(tables, p.fallback, ProjectStep(input, w)).tables, ls, input, w);
  }

  lemma FallbacksStored(t: Tables, ls: seq<LogicalEvent>, fallback: seq<LogicalEvent>, input: seq<Attempt>, w: World)
    requires fallback == FallbackOf(ls, Router(input, w))
    ensures StoredFrom(t, Each(t, fallback, ProjectStep(input, w)).tables, ls, input, w)
  {
    FallbacksListed(ls, Router(input, w));
    forall t, l | l in ls ensures StoredFrom(t, ProjectStep(input, w)(t, l).tables, ls, input, w) {
      ProjectStores(t, l, ls, input, w);
    }
    EachStores(t, fallback, ProjectStep(input, w), ls, input, w);
  }

  lemma {:induction false} FallbacksListed(ls: seq<LogicalEvent>, route: LogicalEvent -> Route)
    ensures forall l :: l in FallbackOf(ls, route) ==> l in ls
    decreases |ls|
  {
    if ls != [] {
      FallbacksListed(ls[..|ls| - 1], route);
    }
  }

  // ---- Nothing is left out ----

  lemma {:induction false} EachHolds(t: Tables, run: seq<LogicalEvent>, step: Step, ls: seq<LogicalEvent>,
                                     input: seq<Attempt>, w: World,
                                     held: (Tables, LogicalEvent) -> bool)
    requires StepStores(step, ls, input, w) && !Each(t, run, step).failed && forall l :: l in run ==> l in ls
    requires forall t, l :: l in ls && !step(t, l).failed ==> held(step(t, l).tables, l)
    requires forall t, after, l :: StoredFrom(t, after, ls, input, w) && held(t, l) ==> held(after, l)
    ensures forall l :: l in run ==> held(Each(t, run, step).tables, l)
    decreases |run|
  {
    if run != [] {
      var earlier, last := run[..|run| - 1], run[|run| - 1];
      EachHolds(t, earlier, step, ls, input, w, held);
      assert run == earlier + [last];
      assert StoredFrom(Each(t, earlier, step).tables, step(Each(t, earlier, step).tables, last).tables, ls, input, w);
    }
  }

  /** Attempt by attempt, a run that does not fail stores every logical event it finds, and its fact row. */
  lemma RowByRowComplete(t: Tables, order: seq<Attempt>, ls: seq<LogicalEvent>, input: seq<Attempt>, w: World,
                         l: LogicalEvent)
    requires !Each(t, LookedUp(order, ls), StoreStep(input, w)).failed && l in LookedUp(order, ls)
    ensures Stored(Each(t, LookedUp(order, ls), StoreStep(input, w)).tables, l)
  {
    LookedUpListed(order, ls);
    forall t, l | l in ls
      ensures StoredFrom(t, StoreStep(input, w)(t, l).tables, ls, input, w)
      ensures !StoreStep(input, w)(t, l).failed ==> Stored(StoreStep(input, w)(t, l).tables, l)
    {
      StoreStores(t, l, ls, input, w);
    }
    EachHolds(t, LookedUp(order, ls), StoreStep(input, w), ls, input, w, Stored);
  }

  ghost predicate Projected(t: Tables, l: LogicalEvent) {
    HasTable(l.event) ==> Place(TableFor(l.event), l.logicalEventId) in t
  }

  lemma RoutedOrFallback(l: LogicalEvent, a: Attempt, w: World)
    ensures HasTable(l.event) ==> !RouteOf(l, a, w).Nowhere?
  {
    if !RouteOf(l, a, w).Fallback? {
      if l.event.Click? {
        assert Linked(Null, l, a, w);
        RowReads(l, a, w, Null, Null);
      } else {
        LinkOnlyForClicks(l, a.record, w.body(a), TrackingLink(l, a, w));
        LinkReads(l, a, w);
        RowReads(l, a, w, TrackingLink(l, a, w), Null);
      }
    }
  }

  lemma {:induction false} FallbackListed(ls: seq<LogicalEvent>, route: LogicalEvent -> Route, l: LogicalEvent)
    requires l in ls && route(l).Fallback?
    ensures l in FallbackOf(ls, route)
    decreases |ls|
  {
    if l in ls[..|ls| - 1] {
      FallbackListed(ls[..|ls| - 1], route, l);
    } else {
      assert ls == ls[..|ls| - 1] + [ls[|ls| - 1]];
    }
  }

  /** In bulk, a run that does not fail stores every logical event and its fact row. */
  lemma BulkComplete(t: Tables, ls: seq<LogicalEvent>, p: Projections, input: seq<Attempt>, w: World, l: LogicalEvent)
    requires Collected(p, ls, Router(input, w)) && Supplied(ls, input) && l in ls
    requires !BulkAfter(t, ls, p, input, w).failed
    ensures Stored(BulkAfter(t, ls, p, input, w).tables, l)
  {
    var logical := PutAll(t, Map(ls, LogicalRow));
    var tables := PutAll(logical, ByTable(p, |p.order|));
    BulkRowsPut(t, ls, p, input, w, l);
    FallbacksStored(tables, ls, p.fallback, input, w);
    if HasTable(l.event) && Router(input, w)(l).Fallback? {
      FallbackListed(ls, Router(input, w), l);
      FallbacksProjected(tables, ls, p.fallback, input, w, l);
    }
  }

  lemma FallbacksProjected(t: Tables, ls: seq<LogicalEvent>, fallback: seq<LogicalEvent>, input: seq<Attempt>,
                           w: World, l: LogicalEvent)
    requires fallback == FallbackOf(ls, Router(input, w)) && l in fallback
    requires !Each(t, fallback, ProjectStep(input, w)).failed
    ensures Projected(Each(t, fallback, ProjectStep(input, w)).tables, l)
  {
    FallbacksListed(ls, Router(input, w));
    forall t, l | l in ls
      ensures StoredFrom(t, ProjectStep(input, w)(t, l).tables, ls, input, w)
      ensures !ProjectStep(input, w)(t, l).failed ==> Projected(ProjectStep(input, w)(t, l).tables, l)
    {
      ProjectStores(t, l, ls, input, w);
    }
    EachHolds(t, fallback, ProjectStep(input, w), ls, input, w, Projected);
  }

  lemma BulkRowsPut(t: Tables, ls: seq<LogicalEvent>, p: Projections, input: seq<Attempt>, w: World, l: LogicalEvent)
    requires Collected(p, ls, Router(input, w)) && Supplied(ls, input) && l in ls
    ensures var tables := PutAll(PutAll(t, Map(ls, LogicalRow)), ByTable(p, |p.order|));
            Place(LogicalEvents, l.logicalEventId) in tables && (!Router(input, w)(l).Fallback? ==>
                Projected(tables, l))
  {
    var i :| 0 <= i < |ls| && ls[i] == l;
    var a := LastAttempt(input, l).value;
    LastAttemptIs(input, l);
    RoutedOrFallback(l, a, w);
    MapMember(ls, LogicalRow, LogicalRow(l));
    PutAllHolds(t, Map(ls, LogicalRow), LogicalRow(l));
    var logical := PutAll(t, Map(ls, LogicalRow));
    PutAllKeeps(logical, ByTable(p, |p.order|), Place(LogicalEvents, l.logicalEventId));
    if RouteOf(l, a, w).Row? {
      var f := RouteOf(l, a, w).fact;
      RoutedReads(l, a, w);
      ReadBackPlace(f, l, a, w);
      RoutedFrom(ls, Router(input, w), f.place.table, f);
      assert f in RowsListed(p, f.place.table);
      assert p.order[..|p.order|] == p.order;
      ByTableFrom(p, |p.order|, ls, Router(input, w), f);
      PutAllHolds(logical, ByTable(p, |p.order|), f);
    }
  }

  lemma {:induction false} PutAllHolds(t: Tables, fs: seq<Fact>, f: Fact)
    requires f in fs
    ensures f.place in PutAll(t, fs)
    decreases |fs|
  {
    if f in fs[..|fs| - 1] {
      PutAllHolds(t, fs[..|fs| - 1], f);
    } else {
      assert fs == fs[..|fs| - 1] + [fs[|fs| - 1]];
    }
  }

  lemma {:induction false} PutAllKeeps(t: Tables, fs: seq<Fact>, k: Place)
    requires k in t
    ensures k in PutAll(t, fs)
    decreases |fs|
  {
    if fs != [] {
      PutAllKeeps(t, fs[..|fs| - 1], k);
    }
  }
}
