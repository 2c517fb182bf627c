/** The rows that logical events leave in the ledger's tables. */
module FactRows {
  import opened Outcomes
  import opened Contract

  /** Member and column names. */
  datatype Name =
    | AdNetwork | AdUnitId | AmountScale | AmountUnscaled | AnchorSource | BotPrefetch | CampaignId | ClickId
    | ClientClass | CoarseConversionValue | ConversionBucket | ConversionValue | Country | Currency
    | DaysSinceLastSession | DidWin | EventId | EventKey | EventText | ImpressionId | InstallBeginAtServer | InstallKind
    | InstallationId | Network | OccurredAt | OpenSource | PriorInstallationId | ProducerName | ProviderCampaignRef
    | ProviderCountry | ProviderNetwork | ReceivedAt | RecordId | RedirectorClickAt | RemoteClickRef | RevenueSource
    | SessionId | SignatureVerified | SiteId | SourceIdentifier | SourceIdentifierPresent | SourceRateClass | LinkStatusText
    | Timeliness | TrackingLinkId | TransactionId

  /** A payload member or column value; `Null` is also what an absent one stores. */
  datatype Value = Null | Flag(flag: bool) | Text(text: string) | Other(json: string)
  type Object = map<Name, Value>

  /** What projection reads of an attempt beside its record: the payload, its import context and the link resolution. */
  datatype Body = Body(payload: Object, importContext: Object, resolution: Object)

  datatype Table =
    | LogicalEvents | Clicks | Installs | Sessions | DeepLinkOpens | Purchases | AdRevenues | CustomEvents | ApplePostbacks
  datatype Place = Place(table: Table, id: string)
  datatype Fact = Fact(place: Place, tenant: string, app: string, columns: Object, artifact: Object)

  // ---- Columns ----

  function Get(o: Object, name: Name): Value { if name in o then o[name] else Null }
  function OrElse(v: Value, otherwise: Value): Value { if v == Null then otherwise else v }
  function Copy(o: Object, names: set<Name>): Object { map name | name in names && name in o :: o[name] }
  function Nullable(o: Object, names: set<Name>): Object { map name | name in names :: Get(o, name) }
  function IsTrue(v: Value): Value { Flag(v == Flag(true)) }
  predicate Truthy(v: Value) { !(v == Null || v == Flag(false) || v == Text("") || v == Other("0")) }

  function Rendered(v: Value): string {
    match v
    case Null => "null"
    case Flag(b) => if b then "true" else "false"
    case Text(t) => t
    case Other(j) => j
  }

  function BucketOf(p: Object): Value {
    if ConversionValue in p then Text("fine:" + Rendered(p[ConversionValue]))
    else if CoarseConversionValue in p then Text("coarse:" + Rendered(p[CoarseConversionValue]))
    else Null
  }

  /** Columns taken from the payload or, failing that, from the import context. */
  function Dimensions(b: Body): Object {
    map[CampaignId := OrElse(Get(b.payload, CampaignId), Get(b.importContext, ProviderCampaignRef)),
        Network := OrElse(Get(b.payload, Network), Get(b.importContext, ProviderNetwork)),
        Country := OrElse(Get(b.payload, Country), Get(b.importContext, ProviderCountry))]
  }

  function NameText(event: EventName): string {
    match event
    case Click => "click"
    case Install => "install"
    case SessionStart => "session_start"
    case Purchase => "purchase"
    case AdRevenue => "ad_revenue"
    case CustomEvent => "custom_event"
    case SkanPostback => "skan_postback"
    case AakPostback => "adattributionkit_postback"
    case DeepLinkOpen => "deep_link_open"
    case Refund => "refund"
    case ConsentChanged => "consent_changed"
    case PrivacyControl => "privacy_control"
    case OtherEvent(name) => name
  }

  // ---- Rows ----

  function RowFor(l: LogicalEvent, table: Table, columns: Object, artifact: Object): Fact {
    Fact(Place(table, l.logicalEventId), l.tenantId, l.appId, columns, artifact)
  }

  function LogicalRow(l: LogicalEvent): Fact {
    var columns := map[RecordId := Text(l.recordId), ProducerName := Text(l.producer), EventId := Text(l.eventId),
                       EventText := Text(NameText(l.event)), Timeliness := Text(if l.late then "late" else "on_time")];
    RowFor(l, LogicalEvents, columns, columns)
  }

  function ClickRow(l: LogicalEvent, b: Body, link: Value): Fact {
    var p, dims := b.payload, Dimensions(b)[TrackingLinkId := link];
    RowFor(l, Clicks,
      Nullable(p, {ClickId, RedirectorClickAt, SiteId, RemoteClickRef}) + dims,
      (if Truthy(Get(p, ClickId)) then Copy(p, {ClickId}) else map[]) + map[BotPrefetch := IsTrue(Get(p, BotPrefetch))]
        + Nullable(p, {RedirectorClickAt, SiteId, RemoteClickRef, SourceRateClass, ClientClass}) + dims)
  }

  function InstallRow(l: LogicalEvent, r: Record, b: Body): Fact {
    var p, dims := b.payload, Dimensions(b)[OccurredAt := Text(r.occurredAt)];
    RowFor(l, Installs,
      Nullable(p, {InstallationId, PriorInstallationId, InstallKind, ClickId, InstallBeginAtServer}) + dims,
      Copy(p, {InstallationId, InstallKind}) + Nullable(p, {PriorInstallationId}) + dims)
  }

  function SessionRow(l: LogicalEvent, r: Record, p: Object): Fact {
    RowFor(l, Sessions, Nullable(p, {InstallationId, SessionId})[OccurredAt := Text(r.occurredAt)],
           Copy(p, {InstallationId, SessionId}))
  }

  function WithDays(f: Fact, days: Value): Fact {
    f.(columns := f.columns[DaysSinceLastSession := days], artifact := f.artifact[DaysSinceLastSession := days])
  }

  function OpenRow(l: LogicalEvent, r: Record, b: Body): Fact {
    var active := if Get(b.resolution, LinkStatusText) == Text("active") then b.resolution else map[];
    var found := Nullable(active, {TrackingLinkId, CampaignId})[OccurredAt := Text(r.occurredAt)];
    RowFor(l, DeepLinkOpens, Nullable(b.payload, {InstallationId, OpenSource}) + found,
           Copy(b.payload, {InstallationId, OpenSource}) + found)
  }

  function PurchaseRow(l: LogicalEvent, r: Record, p: Object): Fact {
    RowFor(l, Purchases,
      Nullable(p, {InstallationId, TransactionId, AmountUnscaled, AmountScale, Currency})[OccurredAt := Text(r.occurredAt)],
      Nullable(p, {InstallationId}) + Copy(p, {TransactionId, AmountUnscaled, AmountScale, Currency}))
  }

  function AdRevenueRow(l: LogicalEvent, r: Record, p: Object): Fact {
    RowFor(l, AdRevenues,
      Nullable(p, {InstallationId, AnchorSource, ImpressionId, AdUnitId, AdNetwork, AmountUnscaled, AmountScale, Currency,
                   RevenueSource, Country})[OccurredAt := Text(r.occurredAt)],
      Nullable(p, {InstallationId, AnchorSource, ImpressionId}) + Copy(p, {AmountUnscaled, AmountScale, Currency, RevenueSource}))
  }

  function CustomEventRow(l: LogicalEvent, p: Object): Fact {
    RowFor(l, CustomEvents, Nullable(p, {InstallationId, EventKey}), Copy(p, {InstallationId, EventKey}))
  }

  function PostbackRow(l: LogicalEvent, r: Record, p: Object): Fact {
    var aggregate := map[EventText := Text(NameText(l.event)), SignatureVerified := IsTrue(Get(p, SignatureVerified)),
                         DidWin := IsTrue(Get(p, DidWin)), SourceIdentifierPresent := Flag(SourceIdentifier in p),
                         ConversionBucket := BucketOf(p), ReceivedAt := Text(r.receivedAt)];
    RowFor(l, ApplePostbacks, aggregate, aggregate)
  }

  /**
   The fact row of an event, if its name has a table. Both writers list these columns; they differ in the tracking link
   they give a click and in the days they can give a deep-link open.
   */
  function FactRow(l: LogicalEvent, r: Record, b: Body, link: Value, days: Value): Option<Fact> {
    match l.event
    case Click => Some(ClickRow(l, b, link))
    case Install => Some(InstallRow(l, r, b))
    case SessionStart => Some(SessionRow(l, r, b.payload))
    case DeepLinkOpen => Some(WithDays(OpenRow(l, r, b), days))
    case Purchase => Some(PurchaseRow(l, r, b.payload))
    case AdRevenue => Some(AdRevenueRow(l, r, b.payload))
    case CustomEvent => Some(CustomEventRow(l, b.payload))
    case SkanPostback => Some(PostbackRow(l, r, b.payload))
    case AakPostback => Some(PostbackRow(l, r, b.payload))
    case _ => None
  }

  /** A row without the one column that depends on the sessions already inserted. */
  function Blind(f: Fact): Fact { if f.place.table == DeepLinkOpens then WithDays(f, Null) else f }

  lemma DaysReplaced(f: Fact, days: Value)
    ensures WithDays(WithDays(f, days), Null) == WithDays(f, Null)
  {
    assert f.columns[DaysSinceLastSession := days][DaysSinceLastSession := Null] == f.columns[DaysSinceLastSession := Null];
    assert f.artifact[DaysSinceLastSession := days][DaysSinceLastSession := Null] == f.artifact[DaysSinceLastSession := Null];
  }

  /** Rows go under the event's ID, and only a deep-link open's row depends on the days. */
  lemma FactRowMeans(l: LogicalEvent, r: Record, b: Body, link: Value, days: Value)
    ensures FactRow(l, r, b, link, days).Some? <==> FactRow(l, r, b, link, Null).Some?
    ensures FactRow(l, r, b, link, days).Some? ==>
              && Blind(FactRow(l, r, b, link, days).value) == FactRow(l, r, b, link, Null).value
              && FactRow(l, r, b, link, days).value.place.id == l.logicalEventId
              && FactRow(l, r, b, link, days).value.place.table != LogicalEvents
              && (FactRow(l, r, b, link, days).value.place.table == DeepLinkOpens <==> l.event.DeepLinkOpen?)
  {
    if l.event.DeepLinkOpen? {
      DaysReplaced(OpenRow(l, r, b), days);
    }
  }
}
