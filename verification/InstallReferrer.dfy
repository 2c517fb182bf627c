/** Install referrers that carry a deferred deep link, and the length budget checked when a link is created. */
module InstallReferrer {
  import opened Outcomes
  import opened FormEncoding

  // ---- Accepted texts ----

  predicate AllChars(s: string, allowed: char -> bool) { forall c :: c in s ==> allowed(c) }

  predicate ClickIdChar(c: char) { Alphanumeric(c) || c == '_' || c == '-' }
  predicate ValidClickId(s: string) { 22 <= |s| <= 128 && AllChars(s, ClickIdChar) }

  predicate LinkChar(c: char) { Alphanumeric(c) || c == '.' || c == '_' || c == '~' || c == '-' }
  predicate ValidParam(s: string) { 1 <= |s| <= 64 && AllChars(s, LinkChar) }

  predicate NameChar(c: char) { 'a' <= c <= 'z' || '0' <= c <= '9' || c == '_' }
  predicate ValidName(s: string) { 1 <= |s| <= 64 && 'a' <= s[0] <= 'z' && AllChars(s, NameChar) }

  function Segments(s: string): seq<string>
    decreases |s|
  {
    var n := Until(s, '/');
    if n < |s| then [s[..n]] + Segments(s[n + 1..]) else [s]
  }

  /** One to eight slash-led segments of link characters, none of them a dot segment. */
  predicate ValidDeepLink(value: string) {
    && 1 <= |value| <= 256 && value[0] == '/' && AllChars(value, (c: char) => LinkChar(c) || c == '/')
    && var segments := Segments(value[1..]);
       |segments| <= 8 && forall i :: 0 <= i < |segments| ==> 1 <= |segments[i]| <= 64 && segments[i] != "." && segments[i] != ".."
  }

  // ---- Referrers ----

  function EncodeInstallReferrer(clickId: string, extras: seq<Pair>): Result<string>
    requires AsciiPairs(extras)
  {
    if !ValidClickId(clickId) then Err
    else
      ClickIdIsAscii(clickId);
      Ok(Serialize([("omv", "1"), ("cid", clickId)] + extras))
  }

  lemma ClickIdIsAscii(clickId: string)
    requires ValidClickId(clickId)
    ensures Ascii(clickId)
  {
    forall i | 0 <= i < |clickId| ensures clickId[i] as int < 128 {
      assert clickId[i] in clickId;
    }
  }

  function FromEntries(pairs: seq<Pair>): map<string, string> {
    if pairs == [] then map[] else FromEntries(pairs[..|pairs| - 1])[pairs[|pairs| - 1].0 := pairs[|pairs| - 1].1]
  }

  function DecodeInstallReferrer(referrer: string): map<string, string> { FromEntries(Parse(referrer)) }

  datatype Status = Carried | OmittedLength | NotConfigured
  datatype Deferred = Deferred(referrer: string, status: Status)

  function Prefixed(params: seq<Pair>): seq<Pair> {
    if params == [] then [] else [("dlp_" + params[0].0, params[0].1)] + Prefixed(params[1..])
  }

  lemma {:induction false} PrefixedAt(params: seq<Pair>)
    ensures |Prefixed(params)| == |params|
    ensures forall i :: 0 <= i < |params| ==> Prefixed(params)[i] == ("dlp_" + params[i].0, params[i].1)
  {
    if params != [] {
      PrefixedAt(params[1..]);
    }
  }

  /** `params` lists the bound parameters in the order the builder sorts them into. */
  function BuildDeferredReferrer(clickId: string, deepLink: Option<string>, params: seq<Pair>,
                                 maximum: nat): Result<Deferred>
    requires AsciiPairs(params)
  {
    var minimal :- EncodeInstallReferrer(clickId, []);
    PrefixedAt(params);
    if !Given(deepLink) then Ok(Deferred(minimal, NotConfigured))
    else if !ValidDeepLink(deepLink.value) then Err
    else
      DeepLinkIsAscii(deepLink.value);
      var expanded :- EncodeInstallReferrer(clickId, [("dl", deepLink.value)] + Prefixed(params));
      if |expanded| <= maximum then Ok(Deferred(expanded, Carried)) else Ok(Deferred(minimal, OmittedLength))
  }

  lemma DeepLinkIsAscii(value: string)
    requires ValidDeepLink(value)
    ensures Ascii(value)
  {
    forall i | 0 <= i < |value| ensures value[i] as int < 128 {
      assert value[i] in value;
    }
  }

  // ---- Creating a link ----

  /** That many letters x. */
  function Xs(n: nat): string { if n == 0 then "" else "x" + Xs(n - 1) }

  lemma {:induction false} XsAreX(n: nat)
    ensures |Xs(n)| == n && (forall c :: c in Xs(n) ==> c == 'x') && forall i :: 0 <= i < n ==> Xs(n)[i] == 'x'
  {
    if n > 0 {
      XsAreX(n - 1);
    }
  }

  lemma XsEncode(n: nat)
    ensures |Xs(n)| == n && Ascii(Xs(n)) && Encode(Xs(n)) == Xs(n) && (22 <= n <= 128 ==> ValidClickId(Xs(n)))
  {
    XsAreX(n);
    UnreservedEncodesItself(Xs(n));
  }

  predicate NamesAccepted(names: seq<string>) {
    && |names| <= 10 && (forall i, j :: 0 <= i < j < |names| ==> names[i] != names[j])
    && forall i :: 0 <= i < |names| ==> ValidName(names[i])
  }

  function LongestParams(names: seq<string>): seq<Pair> {
    if names == [] then [] else [(names[0], Xs(64))] + LongestParams(names[1..])
  }

  lemma {:induction false} LongestParamsAt(names: seq<string>)
    ensures |LongestParams(names)| == |names|
    ensures forall i :: 0 <= i < |names| ==> LongestParams(names)[i] == (names[i], Xs(64))
  {
    if names != [] {
      LongestParamsAt(names[1..]);
    }
  }

  lemma NameIsAscii(name: string)
    requires ValidName(name)
    ensures Ascii(name)
  {
    forall i | 0 <= i < |name| ensures name[i] as int < 128 {
      assert name[i] in name;
    }
  }

  lemma LongestParamsAscii(names: seq<string>)
    requires forall i :: 0 <= i < |names| ==> ValidName(names[i])
    ensures AsciiPairs(LongestParams(names))
  {
    LongestParamsAt(names);
    XsEncode(64);
    forall i | 0 <= i < |names| ensures Ascii(names[i]) {
      NameIsAscii(names[i]);
    }
  }

  /** The referrer with a generated-length click ID and every declared parameter at its longest. */
  function Probe(deepLink: Option<string>, names: seq<string>, maximum: nat): Result<Deferred>
    requires forall i :: 0 <= i < |names| ==> ValidName(names[i])
  {
    LongestParamsAscii(names);
    BuildDeferredReferrer(Xs(44), deepLink, LongestParams(names), maximum)
  }

  /** What link creation checks about the deep link: its form, its parameter names, and the probe's fit. */
  predicate CreationAccepts(deepLink: Option<string>, names: seq<string>, maximum: nat) {
    && (deepLink.Some? ==> ValidDeepLink(deepLink.value))
    && NamesAccepted(names)
    && (Given(deepLink) ==>
         Probe(deepLink, names, maximum).Ok? && Probe(deepLink, names, maximum).value.status == Carried)
  }

  // ---- Binding parameters at click time ----

  predicate Binds(p: Pair, declared: seq<string>) {
    |p.0| >= 4 && p.0[..4] == "dlp_" && p.0[4..] in declared && ValidParam(p.1)
  }

  function Bound(source: seq<Pair>, declared: seq<string>): map<string, string> {
    if source == [] then map[]
    else
      var last, before := source[|source| - 1], Bound(source[..|source| - 1], declared);
      if Binds(last, declared) then before[last.0[4..] := last.1] else before
  }

  function Dropped(source: seq<Pair>, declared: seq<string>): nat {
    if source == [] then 0
    else Dropped(source[..|source| - 1], declared) + if Binds(source[|source| - 1], declared) then 0 else 1
  }

  method BindDeepLinkParameters(source: seq<Pair>, declared: seq<string>) returns (values: map<string, string>,
                                dropped: nat)
    ensures values == Bound(source, declared) && dropped == Dropped(source, declared)
    ensures forall name :: name in values ==> name in declared && ValidParam(values[name])
  {
    values, dropped := map[], 0;
    for i := 0 to |source|
      invariant values == Bound(source[..i], declared) && dropped == Dropped(source[..i], declared)
      invariant forall name :: name in values ==> name in declared && ValidParam(values[name])
    {
      var p := source[i];
      assert source[..i + 1][..i] == source[..i];
      if !Binds(p, declared) {
        dropped := dropped + 1;
        continue;
      }
      values := values[p.0[4..] := p.1];
    }
    assert source[..|source|] == source;
  }

  lemma {:induction false} BoundIsDeclared(source: seq<Pair>, declared: seq<string>, name: string)
    requires name in Bound(source, declared)
    ensures name in declared && ValidParam(Bound(source, declared)[name])
    ensures exists i :: 0 <= i < |source| && Binds(source[i], declared) && source[i].0[4..] == name && source[i].1 == Bound(source, declared)[name]
    decreases |source|
  {
    var last, before := source[|source| - 1], source[..|source| - 1];
    if Binds(last, declared) && last.0[4..] == name {
      assert source[|source| - 1] == last;
    } else {
      BoundIsDeclared(before, declared, name);
      var i :| 0 <= i < |before| && Binds(before[i], declared) && before[i].0[4..] == name && before[i].1 == Bound(before, declared)[name];
      assert source[i] == before[i];
    }
  }

  // ---- The budget ----

  ghost predicate DistinctNames(params: seq<Pair>) {
    forall i, j :: 0 <= i < j < |params| ==> params[i].0 != params[j].0
  }

  /** The list holds exactly the bound parameters, each once, in some order. */
  ghost predicate Lists(params: seq<Pair>, bound: map<string, string>) {
    && DistinctNames(params)
    && (forall i :: 0 <= i < |params| ==> params[i].0 in bound && bound[params[i].0] == params[i].1)
    && (forall name :: name in bound ==> exists i :: 0 <= i < |params| && params[i].0 == name)
  }

  /** Parameters a declared list may bind, with values the form encoding leaves alone. */
  ghost predicate FitDeclared(params: seq<Pair>, names: seq<string>) {
    forall i :: 0 <= i < |params| ==> params[i].0 in names && ValidParam(params[i].1) && '~' !in params[i].1
  }

  lemma ValidParamAscii(value: string)
    requires ValidParam(value)
    ensures Ascii(value)
    ensures '~' !in value ==> Encode(value) == value
  {
    forall i | 0 <= i < |value| ensures value[i] as int < 128 {
      assert value[i] in value;
    }
    if '~' !in value {
      UnreservedEncodesItself(value);
    }
  }

  lemma PrefixedNameEncodes(name: string)
    requires ValidName(name)
    ensures Ascii("dlp_" + name) && Encode("dlp_" + name) == "dlp_" + name
  {
    NameIsAscii(name);
    UnreservedEncodesItself("dlp_" + name);
  }

  lemma ParamsAscii(params: seq<Pair>, names: seq<string>)
    requires FitDeclared(params, names) && forall n :: n in names ==> ValidName(n)
    ensures AsciiPairs(params) && AsciiPairs(Prefixed(params))
  {
    PrefixedAt(params);
    forall i | 0 <= i < |params|
      ensures Ascii(params[i].0) && Ascii(params[i].1) && Ascii(Prefixed(params)[i].0) && Ascii(Prefixed(params)[i].1)
    {
      NameIsAscii(params[i].0);
      ValidParamAscii(params[i].1);
      PrefixedNameEncodes(params[i].0);
    }
  }

  lemma LongestAscii(names: seq<string>)
    requires forall n :: n in names ==> ValidName(n)
    ensures AsciiPairs(LongestParams(names)) && AsciiPairs(Prefixed(LongestParams(names)))
  {
    LongestParamsAt(names);
    PrefixedAt(LongestParams(names));
    XsEncode(64);
    forall i | 0 <= i < |names| ensures Ascii(names[i]) && Ascii("dlp_" + names[i]) {
      assert names[i] in names;
      NameIsAscii(names[i]);
      PrefixedNameEncodes(names[i]);
    }
  }

  lemma {:induction false} LongestConcat(a: seq<string>, b: seq<string>)
    ensures Prefixed(LongestParams(a + b)) == Prefixed(LongestParams(a)) + Prefixed(LongestParams(b))
  {
    if a == [] {
      assert a + b == b;
    } else {
      assert (a + b)[1..] == a[1..] + b;
      LongestConcat(a[1..], b);
    }
  }

  lemma LongestOne(name: string)
    requires ValidName(name)
    ensures AsciiPairs(Prefixed(LongestParams([name]))) && Weight(Prefixed(LongestParams([name]))) == |name| + 70
  {
    PrefixedNameEncodes(name);
    XsEncode(64);
    assert LongestParams([name]) == [(name, Xs(64))];
    assert Prefixed([(name, Xs(64))]) == [("dlp_" + name, Xs(64))];
    assert [("dlp_" + name, Xs(64))][1..] == [];
  }

  lemma LongestWeightConcat(a: seq<string>, b: seq<string>)
    requires (forall n :: n in a ==> ValidName(n)) && forall n :: n in b ==> ValidName(n)
    ensures AsciiPairs(Prefixed(LongestParams(a))) && AsciiPairs(Prefixed(LongestParams(b)))
    ensures AsciiPairs(Prefixed(LongestParams(a + b)))
    ensures Weight(Prefixed(LongestParams(a + b)))
         == Weight(Prefixed(LongestParams(a))) + Weight(Prefixed(LongestParams(b)))
  {
    LongestAscii(a);
    LongestAscii(b);
    LongestConcat(a, b);
    WeightConcat(Prefixed(LongestParams(a)), Prefixed(LongestParams(b)));
  }

  /** Dropping one declared name saves the room of its longest parameter. */
  lemma LongestWithout(names: seq<string>, k: nat)
    requires k < |names| && forall n :: n in names ==> ValidName(n)
    ensures var rest := names[..k] + names[k + 1..];
            && AsciiPairs(Prefixed(LongestParams(names))) && AsciiPairs(Prefixed(LongestParams(rest)))
            && Weight(Prefixed(LongestParams(names))) == Weight(Prefixed(LongestParams(rest))) + |names[k]| + 70
  {
    var before, after := names[..k], names[k + 1..];
    assert names == before + ([names[k]] + after);
    LongestWeightConcat(before, after);
    LongestWeightConcat([names[k]], after);
    LongestWeightConcat(before, [names[k]] + after);
    LongestOne(names[k]);
  }

  /** Parameters bound from a declared list never take more room than the probe's. */
  lemma {:induction false} BoundWeighsLess(params: seq<Pair>, names: seq<string>)
    requires DistinctNames(params) && FitDeclared(params, names) && forall n :: n in names ==> ValidName(n)
    ensures AsciiPairs(Prefixed(params)) && AsciiPairs(Prefixed(LongestParams(names)))
    ensures Weight(Prefixed(params)) <= Weight(Prefixed(LongestParams(names)))
    decreases |params|
  {
    ParamsAscii(params, names);
    LongestAscii(names);
    if params != [] {
      var p := params[0];
      var k :| 0 <= k < |names| && names[k] == p.0;
      var rest := names[..k] + names[k + 1..];
      forall i | 0 <= i < |params| - 1 ensures params[1..][i].0 in rest {
        var m :| 0 <= m < |names| && names[m] == params[i + 1].0;
        assert m != k;
        assert rest[if m < k then m else m - 1] == names[m];
      }
      assert forall n :: n in rest ==> n in names;
      BoundWeighsLess(params[1..], rest);
      LongestWithout(names, k);
      PrefixedNameEncodes(p.0);
      ValidParamAscii(p.1);
      assert Prefixed(params)[1..] == Prefixed(params[1..]);
    }
  }

  function AllPairs(clickId: string, deepLink: string, params: seq<Pair>): seq<Pair> {
    [("omv", "1"), ("cid", clickId)] + ([("dl", deepLink)] + Prefixed(params))
  }

  lemma SingleWeight(name: string, value: string)
    requires Ascii(value) && forall c :: c in name ==> Unreserved(c)
    ensures AsciiPairs([(name, value)]) && Weight([(name, value)]) == |name| + |Encode(value)| + 2
  {
    assert forall i :: 0 <= i < |name| ==> name[i] in name;
    UnreservedEncodesItself(name);
    assert [(name, value)][1..] == [];
  }

  lemma HeadWeight(clickId: string)
    requires ValidClickId(clickId)
    ensures AsciiPairs([("omv", "1"), ("cid", clickId)]) && Weight([("omv", "1"), ("cid", clickId)]) == 11 + |clickId|
  {
    ClickIdIsAscii(clickId);
    UnreservedEncodesItself(clickId);
    UnreservedEncodesItself("1");
    SingleWeight("omv", "1");
    SingleWeight("cid", clickId);
    WeightConcat([("omv", "1")], [("cid", clickId)]);
  }

  lemma AllPairsLength(clickId: string, deepLink: string, params: seq<Pair>)
    requires ValidClickId(clickId) && Ascii(deepLink) && AsciiPairs(Prefixed(params))
    ensures AsciiPairs(AllPairs(clickId, deepLink, params))
    ensures |Serialize(AllPairs(clickId, deepLink, params))|
         == 14 + |clickId| + |Encode(deepLink)| + Weight(Prefixed(params))
  {
    HeadWeight(clickId);
    SingleWeight("dl", deepLink);
    WeightConcat([("dl", deepLink)], Prefixed(params));
    WeightConcat([("omv", "1"), ("cid", clickId)], [("dl", deepLink)] + Prefixed(params));
    SerializedLength(AllPairs(clickId, deepLink, params));
  }

  lemma BuildsAllPairs(clickId: string, deepLink: string, params: seq<Pair>, maximum: nat)
    requires AsciiPairs(params) && AsciiPairs(Prefixed(params)) && ValidClickId(clickId) && ValidDeepLink(deepLink)
    ensures Ascii(deepLink) && AsciiPairs(AllPairs(clickId, deepLink, params))
    ensures BuildDeferredReferrer(clickId, Some(deepLink), params, maximum).Ok?
    ensures BuildDeferredReferrer(clickId, Some(deepLink), params, maximum).value.status == Carried
            <==> |Serialize(AllPairs(clickId, deepLink, params))| <= maximum
  {
    DeepLinkIsAscii(deepLink);
    AllPairsLength(clickId, deepLink, params);
  }

  /** A click ID as long as the generated ones, or shorter. */
  ghost predicate GeneratedLength(clickId: string) { ValidClickId(clickId) && |clickId| <= 44 }

  /**
   A link that creation accepted always carries its stored deep link at click time under the same limit, whatever
   declared parameters are bound, as long as their values hold no '~'.
   */
  lemma AcceptedLinkAlwaysCarries(deepLink: string, names: seq<string>, maximum: nat, clickId: string,
                                  source: seq<Pair>, params: seq<Pair>)
    requires CreationAccepts(Some(deepLink), names, maximum) && GeneratedLength(clickId)
    requires Lists(params, Bound(source, names)) && forall i :: 0 <= i < |params| ==> '~' !in params[i].1
    ensures AsciiPairs(params)
    ensures BuildDeferredReferrer(clickId, Some(deepLink), params, maximum).Ok?
    ensures BuildDeferredReferrer(clickId, Some(deepLink), params, maximum).value.status == Carried
  {
    assert forall n :: n in names ==> ValidName(n);
    forall i | 0 <= i < |params| ensures params[i].0 in names && ValidParam(params[i].1) {
      BoundIsDeclared(source, names, params[i].0);
    }
    ParamsAscii(params, names);
    BoundWeighsLess(params, names);
    LongestAscii(names);
    DeepLinkIsAscii(deepLink);
    XsEncode(44);
    BuildsAllPairs(Xs(44), deepLink, LongestParams(names), maximum);
    BuildsAllPairs(clickId, deepLink, params, maximum);
    AllPairsLength(Xs(44), deepLink, LongestParams(names));
    AllPairsLength(clickId, deepLink, params);
  }

  // ---- Reading it back ----

  lemma {:induction false} FromEntriesAt(pairs: seq<Pair>)
    requires DistinctNames(pairs)
    ensures forall i :: 0 <= i < |pairs| ==>
              pairs[i].0 in FromEntries(pairs) && FromEntries(pairs)[pairs[i].0] == pairs[i].1
    ensures forall name :: name in FromEntries(pairs) ==> exists i :: 0 <= i < |pairs| && pairs[i].0 == name
    decreases |pairs|
  {
    if pairs != [] {
      var before := pairs[..|pairs| - 1];
      FromEntriesAt(before);
      assert forall i :: 0 <= i < |before| ==> before[i] == pairs[i];
      forall name | name in FromEntries(pairs) ensures exists i :: 0 <= i < |pairs| && pairs[i].0 == name {
        if name in FromEntries(before) {
          var i :| 0 <= i < |before| && before[i].0 == name;
          assert pairs[i].0 == name;
        } else {
          assert pairs[|pairs| - 1].0 == name;
        }
      }
    }
  }

  lemma AllPairsDistinct(clickId: string, deepLink: string, params: seq<Pair>)
    requires DistinctNames(params)
    ensures DistinctNames(AllPairs(clickId, deepLink, params))
  {
    var pairs := AllPairs(clickId, deepLink, params);
    PrefixedAt(params);
    forall i, j | 0 <= i < j < |pairs| ensures pairs[i].0 != pairs[j].0 {
      if i >= 3 {
        assert pairs[i].0 == "dlp_" + params[i - 3].0 && pairs[j].0 == "dlp_" + params[j - 3].0;
        assert pairs[i].0[4..] == params[i - 3].0 && pairs[j].0[4..] == params[j - 3].0;
      } else if j >= 3 {
        assert pairs[j].0 == "dlp_" + params[j - 3].0;
        assert |pairs[i].0| < 4;
      }
    }
  }

  lemma PairsFound(clickId: string, deepLink: string, params: seq<Pair>)
    requires DistinctNames(params)
    ensures var decoded := FromEntries(AllPairs(clickId, deepLink, params));
            && "omv" in decoded && decoded["omv"] == "1" && "cid" in decoded && decoded["cid"] == clickId
            && "dl" in decoded && decoded["dl"] == deepLink
            && forall i :: 0 <= i < |params| ==>
                 "dlp_" + params[i].0 in decoded && decoded["dlp_" + params[i].0] == params[i].1
  {
    var pairs := AllPairs(clickId, deepLink, params);
    PrefixedAt(params);
    AllPairsDistinct(clickId, deepLink, params);
    FromEntriesAt(pairs);
    assert pairs[0] == ("omv", "1") && pairs[1] == ("cid", clickId) && pairs[2] == ("dl", deepLink);
    forall i | 0 <= i < |params|
      ensures "dlp_" + params[i].0 in FromEntries(pairs) && FromEntries(pairs)["dlp_" + params[i].0] == params[i].1
    {
      assert pairs[i + 3] == ("dlp_" + params[i].0, params[i].1);
    }
  }

  predicate FixedName(name: string) { name == "omv" || name == "cid" || name == "dl" }

  lemma PairName(clickId: string, deepLink: string, params: seq<Pair>, j: nat)
    requires j < |AllPairs(clickId, deepLink, params)|
    ensures FixedName(AllPairs(clickId, deepLink, params)[j].0)
            || (j >= 3 && j - 3 < |params| && AllPairs(clickId, deepLink, params)[j].0 == "dlp_" + params[j - 3].0)
  {
    var pairs := AllPairs(clickId, deepLink, params);
    PrefixedAt(params);
    if j >= 3 {
      assert pairs[j] == Prefixed(params)[j - 3];
    }
  }

  lemma NothingElseFound(clickId: string, deepLink: string, params: seq<Pair>, name: string)
    requires DistinctNames(params) && name in FromEntries(AllPairs(clickId, deepLink, params))
    ensures FixedName(name) || exists i :: 0 <= i < |params| && name == "dlp_" + params[i].0
  {
    var pairs := AllPairs(clickId, deepLink, params);
    AllPairsDistinct(clickId, deepLink, params);
    FromEntriesAt(pairs);
    var j :| 0 <= j < |pairs| && pairs[j].0 == name;
    PairName(clickId, deepLink, params, j);
  }

  lemma CarriedIsAllPairs(clickId: string, deepLink: string, params: seq<Pair>, maximum: nat)
    requires AsciiPairs(params) && BuildDeferredReferrer(clickId, Some(deepLink), params, maximum).Ok?
    requires BuildDeferredReferrer(clickId, Some(deepLink), params, maximum).value.status == Carried
    ensures AsciiPairs(AllPairs(clickId, deepLink, params))
    ensures BuildDeferredReferrer(clickId, Some(deepLink), params, maximum).value.referrer
         == Serialize(AllPairs(clickId, deepLink, params))
  {
    ClickIdIsAscii(clickId);
    DeepLinkIsAscii(deepLink);
    PrefixedAt(params);
  }

  /** A carried referrer decodes to exactly the click ID, the path and the parameters it was built from. */
  lemma CarriedReferrerDecodes(clickId: string, deepLink: string, params: seq<Pair>, maximum: nat)
    requires AsciiPairs(params) && DistinctNames(params)
    requires BuildDeferredReferrer(clickId, Some(deepLink), params, maximum).Ok?
    requires BuildDeferredReferrer(clickId, Some(deepLink), params, maximum).value.status == Carried
    ensures var decoded := DecodeInstallReferrer(BuildDeferredReferrer(clickId, Some(deepLink), params, maximum).value.referrer);
            && "omv" in decoded && decoded["omv"] == "1" && "cid" in decoded && decoded["cid"] == clickId
            && "dl" in decoded && decoded["dl"] == deepLink
            && (forall i :: 0 <= i < |params| ==>
                 "dlp_" + params[i].0 in decoded && decoded["dlp_" + params[i].0] == params[i].1)
            && (forall name :: name in decoded ==>
                 FixedName(name) || exists i :: 0 <= i < |params| && name == "dlp_" + params[i].0)
  {
    var pairs := AllPairs(clickId, deepLink, params);
    CarriedIsAllPairs(clickId, deepLink, params, maximum);
    SerializeParses(pairs);
    PairsFound(clickId, deepLink, params);
    forall name | name in FromEntries(pairs)
      ensures FixedName(name) || exists i :: 0 <= i < |params| && name == "dlp_" + params[i].0
    {
      NothingElseFound(clickId, deepLink, params, name);
    }
  }

  // ---- Bound parameters, said of the query's pairs ----

  ghost predicate LetterOrDigit(c: char) { 'a' <= c <= 'z' || 'A' <= c <= 'Z' || '0' <= c <= '9' }

  /** One to 64 letters, digits, dots, underscores, tildes or hyphens. */
  ghost predicate PlainValue(value: string) {
    1 <= |value| <= 64 && forall i :: 0 <= i < |value| ==> LetterOrDigit(value[i]) || value[i] in {'.', '_', '~', '-'}
  }

  /** The pair gives the declared parameter a plain value. */
  ghost predicate Gives(p: Pair, name: string, declared: seq<string>) {
    p.0 == "dlp_" + name && (exists i :: 0 <= i < |declared| && declared[i] == name) && PlainValue(p.1)
  }

  lemma GivesMeans(p: Pair, name: string, declared: seq<string>)
    ensures Binds(p, declared) && p.0[4..] == name <==> Gives(p, name, declared)
  {
    if Binds(p, declared) && p.0[4..] == name {
      assert p.0 == p.0[..4] + p.0[4..];
    }
    if Gives(p, name, declared) {
      assert p.0[..4] == "dlp_" && p.0[4..] == name;
    }
    PlainMeans(p.1);
  }

  lemma PlainMeans(value: string)
    ensures ValidParam(value) <==> PlainValue(value)
  {
    if ValidParam(value) {
      forall i | 0 <= i < |value| ensures LetterOrDigit(value[i]) || value[i] in {'.', '_', '~', '-'} {
        assert value[i] in value && LinkChar(value[i]);
      }
    }
    if PlainValue(value) {
      forall c | c in value ensures LinkChar(c) {
        var i :| 0 <= i < |value| && value[i] == c;
      }
    }
  }

  /** A parameter is bound to the last plain value that a pair gives it; without one it is not bound. */
  lemma {:induction false} BoundExactlyWhen(source: seq<Pair>, declared: seq<string>, name: string)
    ensures name in Bound(source, declared) <==> exists i :: 0 <= i < |source| && Gives(source[i], name, declared)
    ensures name in Bound(source, declared) ==>
              exists i :: 0 <= i < |source| && Gives(source[i], name, declared) && source[i].1 == Bound(source, declared)[name]
                          && forall j :: i < j < |source| ==> !Gives(source[j], name, declared)
    decreases |source|
  {
    if source != [] {
      var before, last := source[..|source| - 1], |source| - 1;
      BoundExactlyWhen(before, declared, name);
      GivesMeans(source[last], name, declared);
      assert forall i :: 0 <= i < last ==> before[i] == source[i];
      if Gives(source[last], name, declared) {
        assert source[last].1 == Bound(source, declared)[name];
      } else if name in Bound(before, declared) {
        var i :| 0 <= i < |before| && Gives(before[i], name, declared) && before[i].1 == Bound(before, declared)[name]
                 && forall j :: i < j < |before| ==> !Gives(before[j], name, declared);
        assert Gives(source[i], name, declared);
      }
    }
  }

  /** Every other pair is counted as dropped. */
  lemma {:induction false} DroppedAreOthers(source: seq<Pair>, declared: seq<string>)
    ensures Dropped(source, declared) == |OtherPairs(source, declared)|
    decreases |source|
  {
    if source != [] {
      var before, last := source[..|source| - 1], |source| - 1;
      DroppedAreOthers(before, declared);
      var others := set i | 0 <= i < last && !GivesAny(source[i], declared);
      assert OtherPairs(before, declared) == others;
      AnyMeans(source[last], declared);
      assert OtherPairs(source, declared) == if GivesAny(source[last], declared) then others else others + {last};
    }
  }

  ghost predicate GivesAny(p: Pair, declared: seq<string>) { exists name :: Gives(p, name, declared) }

  ghost function OtherPairs(source: seq<Pair>, declared: seq<string>): set<int> {
    set i | 0 <= i < |source| && !GivesAny(source[i], declared)
  }

  lemma AnyMeans(p: Pair, declared: seq<string>)
    ensures Binds(p, declared) <==> GivesAny(p, declared)
  {
    if Binds(p, declared) {
      GivesMeans(p, p.0[4..], declared);
    }
    if name :| Gives(p, name, declared) {
      GivesMeans(p, name, declared);
    }
  }

  // ---- Accepted click IDs and deep links, said of their characters ----

  lemma ClickIdMeans(s: string)
    ensures ValidClickId(s)
       <==> 22 <= |s| <= 128 && forall i :: 0 <= i < |s| ==> LetterOrDigit(s[i]) || s[i] == '_' || s[i] == '-'
  {
    if ValidClickId(s) {
      forall i | 0 <= i < |s| ensures LetterOrDigit(s[i]) || s[i] == '_' || s[i] == '-' {
        assert s[i] in s && ClickIdChar(s[i]);
      }
    }
    if forall i :: 0 <= i < |s| ==> LetterOrDigit(s[i]) || s[i] == '_' || s[i] == '-' {
      forall c | c in s ensures ClickIdChar(c) {
        var i :| 0 <= i < |s| && s[i] == c;
      }
    }
  }

  /** A slash before each of the segments. */
  ghost function SlashLed(segments: seq<string>): string {
    if segments == [] then "" else "/" + segments[0] + SlashLed(segments[1..])
  }

  ghost predicate PathSegment(s: string) { PlainValue(s) && s != "." && s != ".." }

  ghost predicate ShortPath(segments: seq<string>) {
    1 <= |segments| <= 8 && forall i :: 0 <= i < |segments| ==> PathSegment(segments[i])
  }

  lemma {:induction false} SegmentsJoin(s: string)
    ensures SlashLed(Segments(s)) == "/" + s && Segments(s) != []
    ensures forall i :: 0 <= i < |Segments(s)| ==> '/' !in Segments(s)[i]
    decreases |s|
  {
    var n := Until(s, '/');
    UntilFirst(s, '/');
    if n < |s| {
      SegmentsJoin(s[n + 1..]);
      assert s == s[..n] + "/" + s[n + 1..];
      assert Segments(s)[1..] == Segments(s[n + 1..]);
    } else {
      assert s[..n] == s && Segments(s)[1..] == [];
    }
  }

  lemma {:induction false} UntilFirst(s: string, c: char)
    ensures c !in s[..Until(s, c)] && (Until(s, c) < |s| ==> s[Until(s, c)] == c)
  {
    if s != "" && s[0] != c {
      UntilFirst(s[1..], c);
      assert s[..Until(s, c)] == [s[0]] + s[1..][..Until(s[1..], c)];
    }
  }

  lemma {:induction false} JoinedSegments(segments: seq<string>)
    requires segments != [] && forall i :: 0 <= i < |segments| ==> '/' !in segments[i]
    ensures SlashLed(segments) != "" && SlashLed(segments)[0] == '/' && Segments(SlashLed(segments)[1..]) == segments
  {
    var rest := SlashLed(segments[1..]);
    assert SlashLed(segments)[1..] == segments[0] + rest;
    if |segments| == 1 {
      assert segments[0] + rest == segments[0];
      UntilAbsent(segments[0], '/');
      assert segments == [segments[0]];
    } else {
      JoinedSegments(segments[1..]);
      FirstSegment(segments[0], rest);
      assert segments == [segments[0]] + segments[1..];
    }
  }

  lemma FirstSegment(first: string, rest: string)
    requires '/' !in first && rest != "" && rest[0] == '/'
    ensures Segments(first + rest) == [first] + Segments(rest[1..])
  {
    var s := first + rest;
    UntilPrefix(first, rest, '/');
    assert s[..|first|] == first && s[|first| + 1..] == rest[1..];
  }

  lemma {:induction false} UntilAbsent(s: string, c: char)
    requires c !in s
    ensures Until(s, c) == |s|
  {
    if s != "" {
      assert s[0] in s && forall x :: x in s[1..] ==> x in s;
      UntilAbsent(s[1..], c);
    }
  }

  lemma {:induction false} UntilPrefix(a: string, rest: string, c: char)
    requires c !in a && rest != "" && rest[0] == c
    ensures Until(a + rest, c) == |a|
  {
    if a == "" {
      assert a + rest == rest;
    } else {
      assert a[0] in a && forall x :: x in a[1..] ==> x in a;
      assert (a + rest)[0] == a[0] && (a + rest)[1..] == a[1..] + rest;
      UntilPrefix(a[1..], rest, c);
    }
  }

  /**
   A deep link is one to eight slash-led segments of plain characters, none of them a dot segment, in 256
   characters.
   */
  lemma DeepLinkMeans(value: string)
    ensures ValidDeepLink(value)
       <==> |value| <= 256 && exists segments :: ShortPath(segments) && SlashLed(segments) == value
  {
    if ValidDeepLink(value) {
      SegmentsJoin(value[1..]);
      assert value == "/" + value[1..];
      forall i | 0 <= i < |Segments(value[1..])| ensures PathSegment(Segments(value[1..])[i]) {
        SegmentPlain(value, i);
      }
      assert ShortPath(Segments(value[1..]));
    }
    if segments :| ShortPath(segments) && SlashLed(segments) == value && |value| <= 256 {
      forall i | 0 <= i < |segments| ensures '/' !in segments[i] {
        assert PathSegment(segments[i]);
      }
      JoinedSegments(segments);
      PathChars(segments);
    }
  }

  lemma SegmentPlain(value: string, i: nat)
    requires ValidDeepLink(value) && i < |Segments(value[1..])|
    ensures PathSegment(Segments(value[1..])[i])
  {
    var segment := Segments(value[1..])[i];
    SegmentsJoin(value[1..]);
    assert value == "/" + value[1..];
    forall j | 0 <= j < |segment| ensures LinkChar(segment[j]) {
      assert segment[j] in segment;
      SegmentChars(Segments(value[1..]), i, segment[j]);
    }
    assert forall c :: c in segment ==> LinkChar(c);
    PlainMeans(segment);
  }

  lemma {:induction false} SegmentChars(segments: seq<string>, i: nat, c: char)
    requires i < |segments| && c in segments[i]
    ensures c in SlashLed(segments)
  {
    if i > 0 {
      SegmentChars(segments[1..], i - 1, c);
    }
  }

  lemma {:induction false} PathChars(segments: seq<string>)
    requires forall i :: 0 <= i < |segments| ==> PathSegment(segments[i])
    ensures forall c :: c in SlashLed(segments) ==> LinkChar(c) || c == '/'
  {
    if segments != [] {
      PathChars(segments[1..]);
      PlainMeans(segments[0]);
      assert PathSegment(segments[0]);
    }
  }
}
