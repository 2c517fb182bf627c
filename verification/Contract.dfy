/** Optional values and outcomes that may be an error. */
module Outcomes {
  datatype Option<+T> = None | Some(value: T) {
    function Or(default: T): T { if Some? then value else default }
  }

  /** A text field counts as given when it is present and not empty. */
  predicate Given(text: Option<string>) { text.Some? && text.value != "" }

  datatype Result<+T> = Ok(value: T) | Err {
    predicate IsFailure() { Err? }
    function PropagateFailure<U>(): Result<U> requires Err? { Err }
    function Extract(): T requires Ok? { value }
    function Or(default: T): T { if Ok? then value else default }
  }
}

/** The records, server contexts and artifacts of the measurement contract, as the evaluator reads and writes them. */
module Contract {
  import opened Outcomes

  // ---- Input ----

  datatype EventName =
    | Click | Install | SessionStart | Purchase | AdRevenue | CustomEvent | SkanPostback | AakPostback | DeepLinkOpen | Refund
    | ConsentChanged | PrivacyControl | OtherEvent(name: string)

  datatype Strategy = Modeled | OrganicStrategy | OtherStrategy
  datatype ImportContext = ImportContext(
    provider: string, clickRef: Option<string>, attributed: bool, strategy: Strategy,
    confirmedAt: Option<string>, campaignRef: Option<string>, network: Option<string>, country: Option<string>)

  datatype InstallType = FirstInstall | Reinstall | Redownload
  datatype MetaStatus = Decrypted | DecryptFailed | AuthFailed | OtherMeta
  datatype LookupStatus = LookupAttributed | TokenExpired | NotAttributed | LookupUnavailable | OtherLookup
  datatype ReferrerStatus =
    | NoReferrer | ThirdParty(playOrganicMarker: bool) | Unsupported | Unavailable | NotApplicable | FirstParty
  datatype TimeStatus = TimeAvailable | TimeMissing | TimeInvalid

  /** The payload fields the evaluator inspects; `rest` stands for every field it only copies or hashes. */
  datatype Payload = Payload(
    installationId: Option<string>, priorInstallationId: Option<string>, installType: InstallType,
    clickId: Option<string>, importContext: Option<ImportContext>,
    metaStatus: Option<MetaStatus>, metaModel: Option<string>, lookup: Option<LookupStatus>,
    referrer: ReferrerStatus, installBeginAt: Option<string>, installBeginStatus: Option<TimeStatus>,
    remoteClickRef: Option<string>, botPrefetch: bool,
    redirectorTimeStatus: Option<TimeStatus>, redirectorClickAt: Option<string>,
    signatureVerified: bool, didWin: bool, sourceIdentifier: Option<string>,
    conversionValue: Option<int>, coarseValue: Option<string>,
    deferredOpen: bool, campaignId: Option<string>, network: Option<string>, adNetwork: Option<string>,
    country: Option<string>, installationLevel: bool, anchorSource: Option<string>,
    amountUnscaled: int, amountScale: nat, currency: string, correctionTarget: string, rest: string)

  datatype Record = Record(
    recordId: string, deliveryId: string, tenantId: string, appId: string, producer: string, eventId: string,
    event: EventName, schemaVersion: string, occurredAt: string, receivedAt: string,
    purposeId: Option<string>, basisId: Option<string>, processingSequence: int, late: bool,
    aggregateSubject: bool, payload: Payload, rest: string)

  datatype Purpose = Purpose(id: string, policyVersion: string, consentRequired: bool)
  datatype Withdrawal = Withdrawal(purposeId: string, recognizedAt: string, recognizedSequence: int)
  datatype LegalBasis = LegalBasis(id: string, purposeId: string, effectiveAt: string, policyVersion: string)
  datatype StalePolicy = StalePolicy(before: string, authority: string, version: string, policyDigest: string)
  datatype InjectionPolicy = InjectionPolicy(threshold: int, authority: string, version: string, policyDigest: string)
  datatype LinkStatus = LinkActive | LinkInactive | LinkUnknown
  datatype DeepLink = DeepLink(status: LinkStatus, installClickId: Option<string>, campaignId: Option<string>)

  datatype Server = Server(
    tenantId: string, appId: string, receivedAt: string, policyDigest: string,
    purposes: seq<Purpose>, withdrawals: seq<Withdrawal>, bases: seq<LegalBasis>,
    stale: Option<StalePolicy>, injection: Option<InjectionPolicy>, deepLink: Option<DeepLink>)

  datatype Attempt = Attempt(server: Server, record: Record, batchId: string)
  datatype Batch = Batch(id: string, server: Server, records: seq<Record>)

  datatype Lifecycle = Redacted | Purged
  type EvidenceKey = (string, string, string)

  /** A delivery refused before evaluation, listed beside the batches. */
  datatype PreRejection = PreRejection(
    deliveryId: string, recordId: string, tenantId: string, appId: string, receivedAt: string,
    reason: string, purposeId: Option<string>, policyVersion: string, consentReason: ConsentReason)

  datatype Input = Input(
    batches: seq<Batch>, preRejections: seq<PreRejection>, lifecycle: map<EvidenceKey, Lifecycle>)

  // ---- Decisions and artifacts ----

  datatype ConsentReason = ConsentNotRequired | ValidBeforeWithdrawal | DocumentedBasis | ConsentWithdrawn
  datatype ConsentTrace = ConsentTrace(
    policyVersion: string, purposeId: Option<string>, withdrawalAt: Option<string>,
    reason: ConsentReason, basisId: Option<string>, basisVersion: Option<string>)

  datatype Status = Accepted | Rejected
  datatype Duplicate = Unique | DuplicateDelivery | EventIdConflict | RecordIdCollision
  datatype Reason =
    | ScopeMismatch | RecordIdCollided | Withdrawn | Stale | AggregateJoin | EventIdConflicted
    | TimestampInvalid | PreIngestion(code: string)
  datatype Disposition = Protected | Discarded

  datatype Decision = Decision(
    status: Status, duplicate: Duplicate, late: bool, clockSkew: bool, disposition: Disposition,
    canonicalRecordId: Option<string>, reason: Option<Reason>, consent: ConsentTrace, staleness: Option<StalePolicy>)

  datatype Delivery = Delivery(
    deliveryId: string, recordId: string, tenantId: string, appId: string, receivedAt: string, decision: Decision)

  datatype Rejection = Rejection(
    deliveryId: string, recordId: string, tenantId: string, appId: string, reason: Reason,
    disposition: Disposition, conflictEvidence: bool, policyVersion: string, consentReason: ConsentReason,
    purposeId: Option<string>, withdrawalAt: Option<string>, staleness: Option<StalePolicy>)

  datatype RawRecord = RawRecord(
    recordId: string, tenantId: string, appId: string, producer: string, eventId: string, deliveryId: string,
    event: EventName, schemaVersion: string, payloadDigest: string, occurredAt: string, receivedAt: string,
    payloadRef: string, consent: ConsentTrace, rest: string)

  datatype LogicalEvent = LogicalEvent(
    logicalEventId: string, recordId: string, tenantId: string, appId: string, producer: string, eventId: string,
    event: EventName, late: bool)

  datatype AttributionStatus = Organic | NonOrganic | Unattributed
  datatype SubjectScope = InstallationLevel | AggregateLevel | EngagementLevel
  datatype Evidence = Evidence(tenantId: string, appId: string, ref: string, lifecycle: Option<Lifecycle>)
  datatype Attribution = Attribution(
    id: string, tenantId: string, appId: string, scope: SubjectScope, subjectRef: string,
    status: AttributionStatus, channel: string, model: string, reason: string, evidence: seq<Evidence>,
    effectiveAt: string, decidedAt: string, superseded: bool, supersedes: Option<string>, ruleBundle: string)

  datatype Output = Output(
    raw: seq<RawRecord>, deliveries: seq<Delivery>, logical: seq<LogicalEvent>,
    attributions: seq<Attribution>, rejections: seq<Rejection>)

  // ---- What is taken from outside ----

  /** Everything that is hashed. */
  datatype Artifact =
    | RecordArtifact(record: Record) | PayloadArtifact(payload: Payload)
    | StaleArtifact(before: string, staleAuthority: string, staleVersion: string)
    | InjectionArtifact(threshold: int, injectionAuthority: string, injectionVersion: string)
    | DeliveryArtifact(delivery: Delivery) | RejectionArtifact(rejection: Rejection)
    | RawArtifact(raw: RawRecord) | LogicalArtifact(logical: LogicalEvent)
    | AttributionArtifact(attribution: Attribution)

  /**
   `digest` is SHA-256 over canonical JSON, used as a collision-free name for a value; `parse` reads a contract
   timestamp as milliseconds and gives None for a text that is not an exact calendar timestamp.
   */
  datatype Env = Env(digest: Artifact -> string, parse: string -> Option<int>)

  ghost predicate Injective(digest: Artifact -> string) {
    forall a, b :: digest(a) == digest(b) ==> a == b
  }

  function FindFirst<T>(xs: seq<T>, p: T -> bool): Option<T> {
    if xs == [] then None else if p(xs[0]) then Some(xs[0]) else FindFirst(xs[1..], p)
  }
}
