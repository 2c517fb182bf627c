/** Attribution of accepted installs, aggregate postbacks and deep-link opens. */
module Attributions {
  import opened Outcomes
  import opened Contract
  import opened Sequences
  import opened Decisions

  const SEVEN_DAYS_MS := 604_800_000

  /** What an install is attributed to, with the record IDs that are its evidence. */
  datatype Verdict = Verdict(status: AttributionStatus, channel: string, model: string, reason: string,
                             refs: seq<string>)

  predicate IsImported(a: Attempt) { "import:" <= a.record.producer }

  function ReferencedClick(a: Attempt, ref: string): Attempt -> bool {
    (x: Attempt) => Scope(x) == Scope(a) && x.record.event.Click? && x.record.producer == "redirector"
                    && x.record.payload.remoteClickRef == Some(ref)
  }

  function ClickOf(a: Attempt): Attempt -> bool {
    (x: Attempt) => Scope(x) == Scope(a) && x.record.event.Click? && x.record.payload.clickId == a.record.payload.clickId
  }

  function ImportedVerdict(a: Attempt, accepted: seq<Attempt>): Verdict {
    var own := [a.record.recordId];
    var unattributed := Verdict(Unattributed, "imported", "provider_reported", "provider_unattributed", own);
    match a.record.payload.importContext
    case None => unattributed
    case Some(imported) =>
      var clicks := if Given(imported.clickRef) then Filter(accepted, ReferencedClick(a, imported.clickRef.value))
          else [];
      var refs := if |clicks| == 1 then [clicks[0].record.recordId] + own else own;
      if imported.attributed then
        Verdict(NonOrganic, "imported", "provider_reported",
                if imported.strategy.Modeled? then "provider_modeled_conversion"
                else if !Given(imported.confirmedAt) then "provider_time_authority_unavailable"
                else "provider_attributed", refs)
      else if imported.strategy.OrganicStrategy? then
        Verdict(Organic, "imported", "provider_reported", "provider_organic", own)
      else unattributed
  }

  /** The install-referrer path: one accepted click with the same click ID, inside the seven-day window. */
  function ReferrerVerdict(env: Env, a: Attempt, accepted: seq<Attempt>): Result<Verdict> {
    var own := [a.record.recordId];
    var clicks := Filter(accepted, ClickOf(a));
    if |clicks| == 0 then Ok(Verdict(Unattributed, "none", "none", "unknown_click_id", own))
    else if |clicks| > 1 then Ok(Verdict(Unattributed, "none", "none", "ambiguous_click_id", own))
    else
      var click := clicks[0].record;
      var both := [click.recordId] + own;
      if click.payload.botPrefetch then Ok(Verdict(Unattributed, "none", "none", "bot_prefetch", both))
      else
        var begin := a.record.payload.installBeginAt;
        var clickStatus := click.payload.redirectorTimeStatus.Or(TimeAvailable);
        var beginStatus := a.record.payload.installBeginStatus.Or(if Given(begin) then TimeAvailable else TimeMissing);
        if clickStatus.TimeInvalid? || beginStatus.TimeInvalid? then
          Ok(Verdict(Unattributed, "none", "none", "authoritative_time_invalid", own))
        else if !clickStatus.TimeAvailable? || !beginStatus.TimeAvailable?
                || !Given(click.payload.redirectorClickAt) || !Given(begin) then
          Ok(Verdict(Unattributed, "none", "none", "authoritative_time_missing", own))
        else match (env.parse(begin.value), env.parse(click.payload.redirectorClickAt.value))
          case (Some(began), Some(clicked)) =>
            if 0 <= began - clicked < SEVEN_DAYS_MS then
              Ok(Verdict(NonOrganic, "install_referrer", "last_click", "valid_install_referrer", both))
            else Ok(Verdict(Unattributed, "none", "none", "window_expired", own))
          case _ => Err
  }

  function InstallVerdict(env: Env, a: Attempt, accepted: seq<Attempt>): Result<Verdict> {
    var p := a.record.payload;
    var own := [a.record.recordId];
    if IsImported(a) then Ok(ImportedVerdict(a, accepted))
    else if p.metaStatus == Some(Decrypted) then
      if p.metaModel.None? then Err
      else Ok(Verdict(NonOrganic, "meta_install_referrer", p.metaModel.value, "meta_referrer_decrypted", own))
    else if p.metaStatus == Some(DecryptFailed) || p.metaStatus == Some(AuthFailed) then
      Ok(Verdict(Unattributed, "meta_install_referrer", p.metaModel.Or("last_click"), "meta_referrer_decrypt_failed",
                 own))
    else if p.lookup == Some(LookupAttributed) then
      Ok(Verdict(NonOrganic, "apple_adservices", "last_click", "adservices_attributed", own))
    else if p.lookup == Some(TokenExpired) then
      Ok(Verdict(Unattributed, "apple_adservices", "last_click", "adservices_token_expired", own))
    else if p.lookup == Some(NotAttributed) then
      Ok(Verdict(Unattributed, "apple_adservices", "last_click", "adservices_not_attributed", own))
    else if p.lookup == Some(LookupUnavailable) then
      Ok(Verdict(Unattributed, "apple_adservices", "last_click", "adservices_lookup_unavailable", own))
    else match p.referrer
      case NoReferrer => Ok(Verdict(Organic, "none", "none", "no_referrer", own))
      case ThirdParty(true) => Ok(Verdict(Organic, "none", "none", "no_first_party_referrer", own))
      case ThirdParty(false) => Ok(Verdict(Unattributed, "none", "none", "foreign_referrer_unresolved", own))
      case Unsupported => Ok(Verdict(Unattributed, "none", "none", "install_referrer_unsupported", own))
      case Unavailable => Ok(Verdict(Unattributed, "none", "none", "install_referrer_unavailable", own))
      case NotApplicable => Ok(Verdict(Unattributed, "none", "none", "platform_referrer_not_available", own))
      case FirstParty => ReferrerVerdict(env, a, accepted)
  }

  function EvidenceFor(a: Attempt, lifecycle: map<EvidenceKey, Lifecycle>): string -> Evidence {
    (ref: string) =>
      var key := (a.server.tenantId, a.server.appId, ref);
      Evidence(a.server.tenantId, a.server.appId, ref, if key in lifecycle then Some(lifecycle[key]) else None)
  }

  function InstallAttribution(env: Env, accepted: seq<Attempt>,
                              lifecycle: map<EvidenceKey, Lifecycle>): Attempt -> Attribution {
    (a: Attempt) =>
      // An install whose verdict is an error stops the whole evaluation, so its default is never an output.
      var v := InstallVerdict(env, a, accepted).Or(Verdict(Unattributed, "", "", "", []));
      var evidence := Map(v.refs, EvidenceFor(a, lifecycle));
      var id := "attr:" + a.record.recordId;
      var recalculated := exists e :: e in evidence && e.lifecycle.Some?;
      Attribution(if recalculated then id + ":recalculated" else id, a.server.tenantId, a.server.appId, InstallationLevel,
                  a.record.payload.installationId.Or(""), v.status, v.channel, v.model, v.reason, evidence,
                  a.record.occurredAt, a.server.receivedAt, recalculated,
                  if recalculated then Some(id) else None, "attribution-default")
  }

  /** The reason code of an aggregate postback; only the verified winner with a value is non-organic. */
  function PostbackReason(p: Payload): string {
    if !p.signatureVerified then "skan_signature_invalid"
    else if !p.didWin then "postback_not_winner"
    else if p.sourceIdentifier.None? then "crowd_anonymity_suppressed"
    else if p.conversionValue.None? && p.coarseValue.None? then "conversion_value_null"
    else "skan_postback_verified"
  }

  predicate PostbackCounts(p: Payload) {
    p.signatureVerified && p.didWin && p.sourceIdentifier.Some? && (p.conversionValue.Some? || p.coarseValue.Some?)
  }

  function PostbackAttribution(lifecycle: map<EvidenceKey, Lifecycle>): Attempt -> Attribution {
    (a: Attempt) =>
      var channel := if a.record.event.SkanPostback? then "skadnetwork" else "adattributionkit";
      Attribution("attr:" + a.record.recordId, a.server.tenantId, a.server.appId, AggregateLevel,
                  "aggregate:" + channel + ":" + a.record.recordId,
                  if PostbackCounts(a.record.payload) then NonOrganic else Unattributed, channel, "aggregate",
                  PostbackReason(a.record.payload), [EvidenceFor(a, lifecycle)(a.record.recordId)],
                  a.record.occurredAt, a.server.receivedAt, false, None, "apple-postback-default")
  }

  function DeepLinkReason(a: Attempt): (AttributionStatus, string) {
    var resolution := a.server.deepLink.Or(DeepLink(LinkUnknown, None, None));
    if a.record.payload.deferredOpen && resolution.installClickId == a.record.payload.clickId then
      (Unattributed, "deep_link_install_click_reused")
    else match resolution.status
      case LinkActive => (NonOrganic, "deep_link_open_attributed")
      case LinkInactive => (Unattributed, "deep_link_link_inactive")
      case LinkUnknown => (Unattributed, "deep_link_unknown_link")
  }

  function OpenAttribution(lifecycle: map<EvidenceKey, Lifecycle>): Attempt -> Attribution {
    (a: Attempt) =>
      Attribution("attr:engagement:" + a.record.recordId, a.server.tenantId, a.server.appId, EngagementLevel,
                  "engagement:" + a.record.recordId, DeepLinkReason(a).0, "deep_link", "last_click", DeepLinkReason(a).1,
                  [EvidenceFor(a, lifecycle)(a.record.recordId)],
                  a.record.occurredAt, a.server.receivedAt, false, None, "attribution-default")
  }

  predicate IsInstall(a: Attempt) { a.record.event.Install? }
  predicate IsPostback(a: Attempt) { a.record.event.SkanPostback? || a.record.event.AakPostback? }
  predicate IsOpen(a: Attempt) { a.record.event.DeepLinkOpen? }

  function BaseAttributions(env: Env, accepted: seq<Attempt>,
                            lifecycle: map<EvidenceKey, Lifecycle>): seq<Attribution> {
    Map(Filter(accepted, IsInstall), InstallAttribution(env, accepted, lifecycle))
    + Map(Filter(accepted, IsPostback), PostbackAttribution(lifecycle))
    + Map(Filter(accepted, IsOpen), OpenAttribution(lifecycle))
  }

  /** An install's verdict reads the accepted attempts only through the clicks of its own scope. */
  lemma VerdictDependsOn(env: Env, a: Attempt, s: seq<Attempt>, t: seq<Attempt>)
    requires Filter(s, ClickOf(a)) == Filter(t, ClickOf(a))
          || (|Filter(s, ClickOf(a))| == |Filter(t, ClickOf(a))| != 1)
    requires forall ref :: Filter(s, ReferencedClick(a, ref)) == Filter(t, ReferencedClick(a, ref))
                        || (|Filter(s, ReferencedClick(a, ref))| == |Filter(t, ReferencedClick(a, ref))| != 1)
    ensures InstallVerdict(env, a, s) == InstallVerdict(env, a, t)
  {
    if IsImported(a) && a.record.payload.importContext.Some? {
      var ref := a.record.payload.importContext.value.clickRef;
      if Given(ref) {
        assert |Filter(s, ReferencedClick(a, ref.value))| == |Filter(t, ReferencedClick(a, ref.value))|;
      }
    }
    assert ReferrerVerdict(env, a, s) == ReferrerVerdict(env, a, t);
  }
}
