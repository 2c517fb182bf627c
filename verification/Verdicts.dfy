/** What an install, a postback or a deep-link open is attributed to, said of its payload and the accepted clicks. */
module Verdicts {
  import opened Outcomes
  import opened Contract
  import opened Sequences
  import opened Decisions
  import opened Attributions
  import opened Meaning

  // ---- The evidence an install may carry ----

  ghost predicate ImportedRecord(a: Attempt) {
    |a.record.producer| >= 7 && a.record.producer[..7] == "import:"
  }

  ghost predicate MetaDecides(p: Payload) {
    p.metaStatus == Some(Decrypted) || p.metaStatus == Some(DecryptFailed) || p.metaStatus == Some(AuthFailed)
  }

  ghost predicate AppleDecides(p: Payload) {
    || p.lookup == Some(LookupAttributed) || p.lookup == Some(TokenExpired)
    || p.lookup == Some(NotAttributed) || p.lookup == Some(LookupUnavailable)
  }

  /** Neither an import, nor Meta's or Apple's to decide: the install's own referrer decides. */
  ghost predicate ReferrerDecides(a: Attempt) {
    !ImportedRecord(a) && !MetaDecides(a.record.payload) && !AppleDecides(a.record.payload)
  }

  ghost predicate MatchingClick(a: Attempt, x: Attempt) {
    && x.record.event == Click && x.server.tenantId == a.server.tenantId && x.server.appId == a.server.appId
    && x.record.payload.clickId == a.record.payload.clickId
  }

  ghost predicate OnlyMatchingClick(a: Attempt, click: Attempt, accepted: seq<Attempt>) {
    && click in accepted && multiset(accepted)[click] == 1 && MatchingClick(a, click)
    && forall x :: x in accepted && MatchingClick(a, x) ==> x == click
  }

  /** The redirector's click time and the install's begin time, where both are given and neither is marked otherwise. */
  ghost predicate BothTimed(a: Attempt, click: Attempt, began: string, clicked: string) {
    && a.record.payload.installBeginAt == Some(began) && click.record.payload.redirectorClickAt == Some(clicked)
    && began != "" && clicked != ""
    && a.record.payload.installBeginStatus in {None, Some(TimeAvailable)}
    && click.record.payload.redirectorTimeStatus in {None, Some(TimeAvailable)}
  }

  ghost predicate WithinSevenDays(env: Env, a: Attempt, click: Attempt) {
    exists began, clicked :: BothTimed(a, click, began, clicked) && env.parse(began).Some? && env.parse(clicked).Some?
      && 0 <= env.parse(began).value - env.parse(clicked).value < 7 * 24 * 60 * 60 * 1000
  }

  ghost predicate UnreadableTimes(env: Env, a: Attempt, click: Attempt) {
    exists began, clicked :: BothTimed(a, click, began, clicked) && (env.parse(began).None? || env.parse(clicked).None?)
  }

  ghost predicate CreditedClick(env: Env, a: Attempt, click: Attempt, accepted: seq<Attempt>) {
    OnlyMatchingClick(a, click, accepted) && !click.record.payload.botPrefetch && WithinSevenDays(env, a, click)
  }

  // ---- The three statuses ----

  ghost predicate IsOrganic(a: Attempt) {
    var p := a.record.payload;
    if ImportedRecord(a) then
      p.importContext.Some? && !p.importContext.value.attributed && p.importContext.value.strategy == OrganicStrategy
    else ReferrerDecides(a) && p.referrer in {NoReferrer, ThirdParty(true)}
  }

  ghost predicate IsNonOrganic(env: Env, a: Attempt, accepted: seq<Attempt>) {
    var p := a.record.payload;
    if ImportedRecord(a) then p.importContext.Some? && p.importContext.value.attributed
    else
      || (p.metaStatus == Some(Decrypted) && p.metaModel.Some?)
      || (!MetaDecides(p) && p.lookup == Some(LookupAttributed))
      || (ReferrerDecides(a) && p.referrer == FirstParty && exists click :: CreditedClick(env, a, click, accepted))
  }

  /** No status can be computed: Meta's model or a valid time is missing. */
  ghost predicate Uncomputable(env: Env, a: Attempt, accepted: seq<Attempt>) {
    var p := a.record.payload;
    !ImportedRecord(a) && (
      || (p.metaStatus == Some(Decrypted) && p.metaModel.None?)
      || (ReferrerDecides(a) && p.referrer == FirstParty
          && exists click :: OnlyMatchingClick(a, click, accepted) && !click.record.payload.botPrefetch
                             && UnreadableTimes(env, a, click)))
  }

  lemma ClicksMatch(a: Attempt, x: Attempt)
    ensures ClickOf(a)(x) <==> MatchingClick(a, x)
  {
  }

  lemma OneMatchingClick(a: Attempt, accepted: seq<Attempt>)
    ensures |Filter(accepted, ClickOf(a))| == 1 <==> exists click :: OnlyMatchingClick(a, click, accepted)
    ensures forall click :: OnlyMatchingClick(a, click, accepted) ==> Filter(accepted, ClickOf(a)) == [click]
  {
    if |Filter(accepted, ClickOf(a))| == 1 {
      OneKeptIsSole(a, accepted);
      assert OnlyMatchingClick(a, Filter(accepted, ClickOf(a))[0], accepted);
    }
    forall click | OnlyMatchingClick(a, click, accepted) ensures Filter(accepted, ClickOf(a)) == [click] {
      assert SoleClick(a, click, accepted);
      SoleClickKept(a, click, accepted);
    }
  }

  lemma ReferrerStatus(env: Env, a: Attempt, accepted: seq<Attempt>)
    ensures var verdict := ReferrerVerdict(env, a, accepted);
            && (verdict.Ok? && verdict.value.status == NonOrganic <==> exists click :: CreditedClick(env, a, click, accepted))
            && (verdict.Ok? ==> verdict.value.status != Organic)
            && (verdict.Err? <==> exists click :: OnlyMatchingClick(a, click, accepted) && !click.record.payload.botPrefetch
                                                  && UnreadableTimes(env, a, click))
  {
    OneMatchingClick(a, accepted);
    if click :| OnlyMatchingClick(a, click, accepted) {
      OneClickStatus(env, a, click, accepted);
      forall other | OnlyMatchingClick(a, other, accepted) ensures other == click {
        assert [other][0] == [click][0];
      }
      assert CreditedClick(env, a, click, accepted)
        <==> !click.record.payload.botPrefetch && WithinSevenDays(env, a, click);
    }
  }

  lemma OneClickStatus(env: Env, a: Attempt, click: Attempt, accepted: seq<Attempt>)
    requires Filter(accepted, ClickOf(a)) == [click]
    ensures var verdict := ReferrerVerdict(env, a, accepted);
            && (verdict.Ok? && verdict.value.status == NonOrganic
                <==> !click.record.payload.botPrefetch && WithinSevenDays(env, a, click))
            && (verdict.Err? <==> !click.record.payload.botPrefetch && UnreadableTimes(env, a, click))
  {
    var began, clicked := a.record.payload.installBeginAt, click.record.payload.redirectorClickAt;
    if began.Some? && clicked.Some? && BothTimed(a, click, began.value, clicked.value) {
      assert BothTimed(a, click, began.value, clicked.value);
    }
  }

  /**
   Every install has the status its evidence gives it: organic, non-organic, or unattributed when it is neither; only
   a missing model or an invalid time leaves it without one.
   */
  lemma StatusExactlyWhen(env: Env, a: Attempt, accepted: seq<Attempt>)
    ensures HasStatus(env, a, accepted, InstallVerdict(env, a, accepted))
  {
    assert ImportedRecord(a) <==> IsImported(a);
    if ImportedRecord(a) {
      ImportStatus(env, a, accepted);
    } else if MetaDecides(a.record.payload) || AppleDecides(a.record.payload) {
      ProviderStatus(env, a, accepted);
    } else {
      OwnReferrerStatus(env, a, accepted);
    }
  }

  ghost predicate HasStatus(env: Env, a: Attempt, accepted: seq<Attempt>, verdict: Result<Verdict>) {
    && (verdict.Err? <==> Uncomputable(env, a, accepted))
    && (verdict.Ok? ==>
         && (verdict.value.status == Organic <==> IsOrganic(a))
         && (verdict.value.status == NonOrganic <==> IsNonOrganic(env, a, accepted)))
  }

  lemma ImportStatus(env: Env, a: Attempt, accepted: seq<Attempt>)
    requires ImportedRecord(a)
    ensures HasStatus(env, a, accepted, Ok(ImportedVerdict(a, accepted)))
  {
  }

  lemma ProviderStatus(env: Env, a: Attempt, accepted: seq<Attempt>)
    requires !ImportedRecord(a) && !IsImported(a) && (MetaDecides(a.record.payload) || AppleDecides(a.record.payload))
    ensures HasStatus(env, a, accepted, InstallVerdict(env, a, accepted))
  {
  }

  lemma OwnReferrerStatus(env: Env, a: Attempt, accepted: seq<Attempt>)
    requires ReferrerDecides(a) && !IsImported(a)
    ensures HasStatus(env, a, accepted, InstallVerdict(env, a, accepted))
  {
    ReferrerStatus(env, a, accepted);
  }

  // ---- Channel, reason and evidence ----

  /** The accepted redirector click that an import names, if there is exactly one. */
  ghost predicate OnlyReferencedClick(a: Attempt, click: Attempt, accepted: seq<Attempt>) {
    && a.record.payload.importContext.Some? && Given(a.record.payload.importContext.value.clickRef)
    && click in accepted && multiset(accepted)[click] == 1 && Referenced(a, click)
    && forall x :: x in accepted && Referenced(a, x) ==> x == click
  }

  ghost predicate Referenced(a: Attempt, x: Attempt)
    requires a.record.payload.importContext.Some?
  {
    && x.record.event == Click && x.record.producer == "redirector"
    && x.server.tenantId == a.server.tenantId && x.server.appId == a.server.appId
    && x.record.payload.remoteClickRef == a.record.payload.importContext.value.clickRef
  }

  lemma OneReferencedClick(a: Attempt, accepted: seq<Attempt>, ref: string)
    requires a.record.payload.importContext.Some? && a.record.payload.importContext.value.clickRef == Some(ref)
    requires ref != ""
    ensures var clicks := Filter(accepted, ReferencedClick(a, ref));
            && (|clicks| == 1 <==> exists click :: OnlyReferencedClick(a, click, accepted))
            && forall click :: OnlyReferencedClick(a, click, accepted) ==> clicks == [click]
  {
    var keep := ReferencedClick(a, ref);
    var clicks := Filter(accepted, keep);
    assert forall x :: keep(x) <==> Referenced(a, x);
    if |clicks| == 1 {
      FilterMember(accepted, keep, clicks[0]);
      forall x | x in accepted && keep(x) ensures x == clicks[0] {
        OnlyOneKept(accepted, keep, x, clicks[0]);
      }
      FilterCounts(accepted, keep, clicks[0]);
      assert OnlyReferencedClick(a, clicks[0], accepted);
    }
    forall click | OnlyReferencedClick(a, click, accepted) ensures clicks == [click] {
      FilterCounts(accepted, keep, click);
      assert clicks == [clicks[0]];
      FilterMember(accepted, keep, clicks[0]);
    }
  }

  /** The one accepted redirector click an import names is evidence beside it when the provider attributes it. */
  ghost predicate ImportRefs(a: Attempt, accepted: seq<Attempt>, v: Verdict) {
    var own := a.record.recordId;
    && (v.status == NonOrganic ==>
         && (forall click :: OnlyReferencedClick(a, click, accepted) ==> v.refs == [click.record.recordId, own])
         && ((forall click :: !OnlyReferencedClick(a, click, accepted)) ==> v.refs == [own]))
    && (v.status != NonOrganic ==> v.refs == [own])
  }

  lemma ImportRefsAre(a: Attempt, accepted: seq<Attempt>)
    ensures ImportRefs(a, accepted, ImportedVerdict(a, accepted))
  {
    var context := a.record.payload.importContext;
    if context.Some? && Given(context.value.clickRef) {
      OneReferencedClick(a, accepted, context.value.clickRef.value);
    }
  }

  // ---- The reason of a verdict ----

  /** What Meta's or Apple's evidence is given as. */
  ghost predicate ExplainedByProvider(a: Attempt, v: Verdict) {
    var p, own := a.record.payload, [a.record.recordId];
    && (p.metaStatus == Some(Decrypted) ==>
          v == Verdict(NonOrganic, "meta_install_referrer", v.model, "meta_referrer_decrypted", own) && p.metaModel == Some(v.model))
    && (p.metaStatus in {Some(DecryptFailed), Some(AuthFailed)} ==>
          && v == Verdict(Unattributed, "meta_install_referrer", v.model, "meta_referrer_decrypt_failed", own)
          && (p.metaModel == Some(v.model) || (p.metaModel == None && v.model == "last_click")))
    && (!MetaDecides(p) && AppleDecides(p) ==>
         v.channel == "apple_adservices" && v.model == "last_click" && v.refs == own)
    && (!MetaDecides(p) && p.lookup == Some(LookupAttributed) ==> v.reason == "adservices_attributed")
    && (!MetaDecides(p) && p.lookup == Some(TokenExpired) ==> v.reason == "adservices_token_expired")
    && (!MetaDecides(p) && p.lookup == Some(NotAttributed) ==> v.reason == "adservices_not_attributed")
    && (!MetaDecides(p) && p.lookup == Some(LookupUnavailable) ==> v.reason == "adservices_lookup_unavailable")
  }

  /** What a referrer without a click is given as. */
  ghost predicate ExplainedByReferrer(a: Attempt, v: Verdict) {
    var r := a.record.payload.referrer;
    && (r != FirstParty ==> v.channel == "none" && v.model == "none" && v.refs == [a.record.recordId])
    && (r == NoReferrer ==> v.reason == "no_referrer")
    && (r == ThirdParty(true) ==> v.reason == "no_first_party_referrer")
    && (r == ThirdParty(false) ==> v.reason == "foreign_referrer_unresolved")
    && (r == Unsupported ==> v.reason == "install_referrer_unsupported")
    && (r == Unavailable ==> v.reason == "install_referrer_unavailable")
    && (r == NotApplicable ==> v.reason == "platform_referrer_not_available")
  }

  ghost predicate MarkedInvalid(a: Attempt, click: Attempt) {
    a.record.payload.installBeginStatus == Some(TimeInvalid) || click.record.payload.redirectorTimeStatus == Some(TimeInvalid)
  }

  /** What the only matching click is given as. */
  ghost predicate ExplainedByClick(env: Env, a: Attempt, click: Attempt, v: Verdict) {
    var own, both := [a.record.recordId], [click.record.recordId, a.record.recordId];
    if click.record.payload.botPrefetch then v == Verdict(Unattributed, "none", "none", "bot_prefetch", both)
    else if MarkedInvalid(a, click) then v == Verdict(Unattributed, "none", "none", "authoritative_time_invalid", own)
    else if !exists began, clicked :: BothTimed(a, click, began, clicked) then
      v == Verdict(Unattributed, "none", "none", "authoritative_time_missing", own)
    else if WithinSevenDays(env, a, click) then v == Verdict(NonOrganic, "install_referrer", "last_click", "valid_install_referrer", both)
    else v == Verdict(Unattributed, "none", "none", "window_expired", own)
  }

  /** What a first-party referrer is given as: by its one matching click, or as unknown or ambiguous. */
  ghost predicate ExplainedByClicks(env: Env, a: Attempt, accepted: seq<Attempt>, v: Verdict) {
    && (forall click :: OnlyMatchingClick(a, click, accepted) ==> ExplainedByClick(env, a, click, v))
    && ((forall click :: click in accepted ==> !MatchingClick(a, click)) ==>
          v == Verdict(Unattributed, "none", "none", "unknown_click_id", [a.record.recordId]))
    && ((forall click :: !OnlyMatchingClick(a, click, accepted)) && (exists click :: click in accepted && MatchingClick(a, click)) ==>
          v == Verdict(Unattributed, "none", "none", "ambiguous_click_id", [a.record.recordId]))
  }

  ghost predicate ExplainedByImport(a: Attempt, v: Verdict) {
    var context := a.record.payload.importContext;
    && v.channel == "imported" && v.model == "provider_reported"
    && (context == None ==> v.reason == "provider_unattributed")
    && (forall c :: context == Some(c) && c.attributed && c.strategy == Modeled ==>
         v.reason == "provider_modeled_conversion")
    && (forall c :: context == Some(c) && c.attributed && c.strategy != Modeled ==>
          v.reason == if c.confirmedAt in {None, Some("")} then "provider_time_authority_unavailable"
              else "provider_attributed")
    && (forall c :: context == Some(c) && !c.attributed ==>
          v.reason == if c.strategy == OrganicStrategy then "provider_organic" else "provider_unattributed")
  }

  ghost predicate Explained(env: Env, a: Attempt, accepted: seq<Attempt>, v: Verdict) {
    if ImportedRecord(a) then ExplainedByImport(a, v) && ImportRefs(a, accepted, v)
    else if MetaDecides(a.record.payload) || AppleDecides(a.record.payload) then ExplainedByProvider(a, v)
    else ExplainedByReferrer(a, v) && (a.record.payload.referrer == FirstParty ==>
        ExplainedByClicks(env, a, accepted, v))
  }

  /** Channel, model, reason and evidence of every verdict are those of the evidence that decides it. */
  lemma VerdictExplained(env: Env, a: Attempt, accepted: seq<Attempt>)
    requires InstallVerdict(env, a, accepted).Ok?
    ensures Explained(env, a, accepted, InstallVerdict(env, a, accepted).value)
  {
    assert ImportedRecord(a) <==> IsImported(a);
    if ImportedRecord(a) {
      ImportExplained(a, accepted);
      ImportRefsAre(a, accepted);
    } else if MetaDecides(a.record.payload) || AppleDecides(a.record.payload) {
      ProviderExplained(env, a, accepted);
    } else {
      ReferrerExplained(env, a, accepted);
    }
  }

  lemma ProviderExplained(env: Env, a: Attempt, accepted: seq<Attempt>)
    requires InstallVerdict(env, a, accepted).Ok? && !IsImported(a)
    requires MetaDecides(a.record.payload) || AppleDecides(a.record.payload)
    ensures ExplainedByProvider(a, InstallVerdict(env, a, accepted).value)
  {
  }

  lemma ReferrerExplained(env: Env, a: Attempt, accepted: seq<Attempt>)
    requires InstallVerdict(env, a, accepted).Ok? && ReferrerDecides(a) && !IsImported(a)
    ensures ExplainedByReferrer(a, InstallVerdict(env, a, accepted).value)
    ensures a.record.payload.referrer == FirstParty ==>
              ExplainedByClicks(env, a, accepted, InstallVerdict(env, a, accepted).value)
  {
    if a.record.payload.referrer == FirstParty {
      ClicksExplained(env, a, accepted);
    }
  }

  lemma ImportExplained(a: Attempt, accepted: seq<Attempt>)
    ensures ExplainedByImport(a, ImportedVerdict(a, accepted))
  {
    if a.record.payload.importContext.Some? {
      var c := a.record.payload.importContext.value;
      assert c.confirmedAt in {None, Some("")} <==> !Given(c.confirmedAt);
    }
  }

  lemma ClicksExplained(env: Env, a: Attempt, accepted: seq<Attempt>)
    requires ReferrerVerdict(env, a, accepted).Ok?
    ensures ExplainedByClicks(env, a, accepted, ReferrerVerdict(env, a, accepted).value)
  {
    var clicks := Filter(accepted, ClickOf(a));
    OneMatchingClick(a, accepted);
    FilterMembers(accepted, ClickOf(a));
    forall click | OnlyMatchingClick(a, click, accepted)
      ensures ExplainedByClick(env, a, click, ReferrerVerdict(env, a, accepted).value)
    {
      ClickExplained(env, a, click, accepted);
    }
    if forall click :: click in accepted ==> !MatchingClick(a, click) {
      FilterNone(accepted, ClickOf(a));
    }
    if exists click :: click in accepted && MatchingClick(a, click) {
      var click :| click in accepted && MatchingClick(a, click);
      assert click in clicks;
    }
  }

  lemma ClickExplained(env: Env, a: Attempt, click: Attempt, accepted: seq<Attempt>)
    requires Filter(accepted, ClickOf(a)) == [click] && ReferrerVerdict(env, a, accepted).Ok?
    ensures ExplainedByClick(env, a, click, ReferrerVerdict(env, a, accepted).value)
  {
    var began, clicked := a.record.payload.installBeginAt, click.record.payload.redirectorClickAt;
    assert [click.record.recordId] + [a.record.recordId] == [click.record.recordId, a.record.recordId];
    if began.Some? && clicked.Some? && BothTimed(a, click, began.value, clicked.value) {
      assert !MarkedInvalid(a, click);
    }
  }
}
