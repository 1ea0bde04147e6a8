/**
 TLD credibility tiers of the crawler's scoring stage. Scores are integer
 hundredths (0.20 is 20). The java.net.URI host lookup is not modelled: its
 outcome is passed in as a `UriParse`, and the manual fallback used for IDN
 hosts and syntax errors is modelled exactly.
 */
module DomainCredibility {
  import opened Wrappers
  import opened Text

  /* What `new URI(url).getHost()` produced. */
  datatype UriParse = Parsed(host: Option<string>) | SyntaxError

  const Tier1: set<string> := {"ngo", "ong", "foundation", "charity", "gov", "edu"}

  /* The whitelisted second-level suffixes, as (label, TLD) pairs. */
  const SecondLevelPairs: set<(string, string)> :=
    {("gov", "bg"), ("gov", "ro"), ("gov", "pl"), ("gov", "cz"), ("gov", "de"), ("gov", "fr"),
     ("edu", "bg"), ("edu", "ro"), ("edu", "pl"), ("edu", "cz"),
     ("ac", "bg"), ("ac", "ro"), ("ac", "pl"), ("ac", "cz"),
     ("europa", "eu")}

  /* "gov.bg", "edu.ro", ..., "europa.eu". */
  const SecondLevel: set<string> := set p | p in SecondLevelPairs :: p.0 + "." + p.1

  const Tier2: set<string> :=
    {"org", "eu", "ею", "bg", "бг", "ro", "pl", "cz", "de", "fr", "gr", "hu", "at", "it", "es",
     "fund", "gives"}

  const Tier3: set<string> := {"com", "net", "info", "education"}

  const Tier4: set<string> := {"biz", "co", "io", "me"}

  const Tier5: set<string> :=
    {"tk", "ml", "ga", "cf", "gq", "xyz", "top", "icu", "buzz", "loan", "click", "cam", "pw", "shop"}

  const NonprofitTlds: set<string> := {"ngo", "ong", "foundation", "charity"}

  const TargetRegionTlds: set<string> :=
    {"bg", "бг", "ro", "pl", "cz", "eu", "ею", "de", "fr", "gr", "hu", "at", "it", "es"}

  /* The characters at which the manual fallback cuts the host off. */
  const HostDelimiters: set<char> := {':', '/', '?'}

  /* The per-label penalties of tier 5. */
  function SpamPenalty(tldLabel: string): (r: int)
    requires tldLabel in Tier5
    ensures -30 <= r <= -10
  {
    if tldLabel in {"tk", "ml", "ga", "cf", "gq"} then -30
    else if tldLabel in {"xyz", "top", "icu", "buzz"} then -20
    else if tldLabel == "loan" then -25
    else if tldLabel == "shop" then -10
    else -15
  }

  /* host.substring(0, host.indexOf(c)) when that index is positive. */
  function CutAt(s: string, c: char): (r: string)
    ensures StartsWith(s, r)
    ensures IndexOf(s, c) > 0 ==> |r| == IndexOf(s, c)
    ensures IndexOf(s, c) <= 0 ==> r == s
  {
    var i := IndexOf(s, c);
    if i > 0 then s[..i] else s
  }

  /* extractHostManually: strip the scheme, then cut at the port, the path
     and the query, and give up on a blank remainder. */
  function ExtractHostManually(url: string): (r: Option<string>)
    ensures r.Some? ==> !IsBlank(r.value) && StartsWith(StripScheme(url), r.value)
    ensures r.None? <==> IsBlank(CutAt(CutAt(CutAt(StripScheme(url), ':'), '/'), '?'))
  {
    var host := CutAt(CutAt(CutAt(StripScheme(url), ':'), '/'), '?');
    if IsBlank(host) then None else Some(host)
  }

  /* The characters before the first delimiter. */
  function FirstSegment(s: string): (r: string)
    ensures StartsWith(s, r)
    ensures forall k :: 0 <= k < |r| ==> r[k] !in HostDelimiters
    ensures |r| == |s| || s[|r|] in HostDelimiters
  {
    if |s| == 0 || s[0] in HostDelimiters then ""
    else
      var t := FirstSegment(s[1..]);
      assert s[1..][..|t|] == s[1..|t| + 1];
      [s[0]] + t
  }

  /* t begins with seg, and seg ends t or is followed by a delimiter. */
  predicate SegmentPrefix(t: string, seg: string) {
    StartsWith(t, seg) && (|t| == |seg| || t[|seg|] in HostDelimiters)
  }

  /* Cutting at a delimiter that seg does not contain keeps seg in front,
     and the cut text no longer has that delimiter right after seg. */
  lemma CutKeepsSegment(t: string, c: char, seg: string)
    requires SegmentPrefix(t, seg) && |seg| > 0 && c in HostDelimiters
    requires forall k :: 0 <= k < |seg| ==> seg[k] !in HostDelimiters
    ensures SegmentPrefix(CutAt(t, c), seg)
    ensures |CutAt(t, c)| > |seg| ==> CutAt(t, c)[|seg|] != c
  {
    var m := |seg|;
    var i := IndexOf(t, c);
    assert forall k :: 0 <= k < m ==> t[k] == seg[k] by {
      forall k | 0 <= k < m ensures t[k] == seg[k] { assert t[..m][k] == t[k]; }
    }
    if i > 0 {
      var r := t[..i];
      assert r[..m] == t[..m];
      if |r| > m {
        assert r[m] == t[m];
        assert t[m] in t[..i];
      }
    }
  }

  /* When the scheme-less URL does not start with a delimiter, the manual
     host is exactly its text up to the first ':', '/' or '?'. */
  lemma ManualHostIsFirstSegment(url: string)
    requires var s := StripScheme(url); |s| > 0 && s[0] !in HostDelimiters
    ensures var seg := FirstSegment(StripScheme(url));
      ExtractHostManually(url) == if IsBlank(seg) then None else Some(seg)
  {
    var s := StripScheme(url);
    var seg := FirstSegment(s);
    var m := |seg|;
    var s1 := CutAt(s, ':');
    CutKeepsSegment(s, ':', seg);
    var s2 := CutAt(s1, '/');
    CutKeepsSegment(s1, '/', seg);
    var s3 := CutAt(s2, '?');
    CutKeepsSegment(s2, '?', seg);
    assert s3 == s3[..m] == seg;
  }

  /* The host a URL resolves to: the parsed host when it is not blank,
     otherwise the manual fallback. */
  function HostOf(url: string, uri: UriParse): (r: Option<string>)
    ensures uri.Parsed? && uri.host.Some? && !IsBlank(uri.host.value) ==> r == uri.host
    ensures (uri.SyntaxError? || uri.host.None? || IsBlank(uri.host.value)) ==> r == ExtractHostManually(url)
  {
    match uri
    case Parsed(Some(h)) => if IsBlank(h) then ExtractHostManually(url) else Some(h)
    case _ => ExtractHostManually(url)
  }

  /* The dot-separated labels of the lowercased host. */
  function Labels(host: string): seq<string> {
    Split(Lower(host), {'.'})
  }

  /* The TLD of a host: its last two labels when they form a whitelisted
     second-level suffix, otherwise its last label; none below two labels. */
  function TldOfHost(host: string): (r: Option<string>)
    ensures r.Some? <==> |Labels(host)| >= 2
    ensures r.Some? ==> r.value in SecondLevel || (r.value != "" && '.' !in r.value)
  {
    var parts := Labels(host);
    var n := |parts|;
    if n < 2 then None
    else
      var pair := parts[n - 2] + "." + parts[n - 1];
      if pair in SecondLevel then Some(pair)
      else Some(parts[n - 1])
  }

  /* extractTld: nothing for a null or blank URL or an unresolvable host. */
  function ExtractTld(url: Option<string>, uri: UriParse): (r: Option<string>)
    ensures url.None? || IsBlank(url.value) ==> r.None?
    ensures url.Some? && !IsBlank(url.value) && HostOf(url.value, uri).None? ==> r.None?
    ensures url.Some? && !IsBlank(url.value) && HostOf(url.value, uri).Some? ==>
      r == TldOfHost(HostOf(url.value, uri).value)
    ensures r.Some? ==> r.value in SecondLevel || (r.value != "" && '.' !in r.value)
  {
    if url.None? || IsBlank(url.value) then None
    else
      match HostOf(url.value, uri)
      case None => None
      case Some(host) => TldOfHost(host)
  }

  /* extractFinalTld: the last label. The empty split that would make Java
     index out of bounds cannot arise from an extracted TLD. */
  function FinalTld(tld: string): string {
    var parts := Split(tld, {'.'});
    if |parts| == 0 then "" else parts[|parts| - 1]
  }

  /* Looks the final label up in tiers 1 to 5, in that order. */
  function TierScore(tldLabel: string): (r: int)
    ensures -30 <= r <= 20
  {
    if tldLabel in Tier1 then 20
    else if tldLabel in Tier2 then 15
    else if tldLabel in Tier3 then 8
    else if tldLabel in Tier4 then 0
    else if tldLabel in Tier5 then SpamPenalty(tldLabel)
    else 0
  }

  /* getTldScore, in hundredths. */
  function TldScore(url: Option<string>, uri: UriParse): (r: int)
    ensures -30 <= r <= 20
    ensures ExtractTld(url, uri).None? ==> r == 0
    ensures ExtractTld(url, uri).Some? && ExtractTld(url, uri).value in SecondLevel ==> r == 20
    ensures ExtractTld(url, uri).Some? && ExtractTld(url, uri).value !in SecondLevel ==>
      r == TierScore(FinalTld(ExtractTld(url, uri).value))
  {
    match ExtractTld(url, uri)
    case None => 0
    case Some(tld) => ScoreOfTld(tld)
  }

  /* isSpamTld: the final label is a tier-5 TLD, exactly the URLs getTldScore scores below zero. */
  function IsSpamTld(url: Option<string>, uri: UriParse): (r: bool)
    ensures r <==> TldScore(url, uri) < 0
  {
    match ExtractTld(url, uri)
    case None => false
    case Some(tld) =>
      ScoreOfTldNegativeIffSpam(tld);
      FinalTld(tld) in Tier5
  }

  /* isValidatedNonprofit: the final label is a nonprofit TLD, all of which score the top 0.20. */
  function IsValidatedNonprofit(url: Option<string>, uri: UriParse): (r: bool)
    ensures r <==> ExtractTld(url, uri).Some? && FinalTld(ExtractTld(url, uri).value) in NonprofitTlds
    ensures r ==> TldScore(url, uri) == 20
  {
    match ExtractTld(url, uri)
    case None => false
    case Some(tld) =>
      if tld in SecondLevel then
        SecondLevelFinalLabel(tld);
        FinalTld(tld) in NonprofitTlds
      else
        FinalTld(tld) in NonprofitTlds
  }

  /* A government TLD: "gov.xx", "europa.eu", or one whose final label is "gov". */
  predicate GovernmentTld(tld: string) {
    StartsWith(tld, "gov.") || tld == "europa.eu" || FinalTld(tld) == "gov"
  }

  /* isGovernmentDomain: gov, a gov.xx suffix or europa.eu, all scoring the top 0.20. */
  function IsGovernmentDomain(url: Option<string>, uri: UriParse): (r: bool)
    ensures r <==> ExtractTld(url, uri).Some? && GovernmentTld(ExtractTld(url, uri).value)
    ensures r ==> TldScore(url, uri) == 20
  {
    match ExtractTld(url, uri)
    case None => false
    case Some(tld) =>
      if GovernmentTld(tld) then
        GovernmentTldScoresTop(tld);
        true
      else
        false
  }

  /* isTargetRegionCcTld: a target-region country TLD, scoring at least 0.15 (0.20 as a second-level suffix). */
  function IsTargetRegionCcTld(url: Option<string>, uri: UriParse): (r: bool)
    ensures r <==> ExtractTld(url, uri).Some? && FinalTld(ExtractTld(url, uri).value) in TargetRegionTlds
    ensures r ==> TldScore(url, uri) >= 15
  {
    match ExtractTld(url, uri)
    case None => false
    case Some(tld) =>
      if tld !in SecondLevel && FinalTld(tld) in TargetRegionTlds then
        assert FinalTld(tld) in Tier2;
        TierScoreByTier(FinalTld(tld));
        true
      else
        FinalTld(tld) in TargetRegionTlds
  }

  /* A spam label belongs to no other tier. */
  lemma SpamTierDisjoint(tldLabel: string)
    requires tldLabel in Tier5
    ensures tldLabel !in Tier1 && tldLabel !in Tier2 && tldLabel !in Tier3 && tldLabel !in Tier4
  {
  }

  /* A tier-1 to tier-4 label belongs to no later tier. */
  lemma UpperTiersDisjoint(tldLabel: string)
    ensures tldLabel in Tier1 ==> tldLabel !in Tier2 && tldLabel !in Tier3 && tldLabel !in Tier4
    ensures tldLabel in Tier2 ==> tldLabel !in Tier3 && tldLabel !in Tier4
    ensures tldLabel in Tier3 ==> tldLabel !in Tier4
  {
  }

  /* Because the tiers are disjoint, the order of the lookup is immaterial:
     a label scores what its own tier gives, and 0.00 outside every tier. */
  lemma TierScoreByTier(tldLabel: string)
    ensures tldLabel in Tier1 ==> TierScore(tldLabel) == 20
    ensures tldLabel in Tier2 ==> TierScore(tldLabel) == 15
    ensures tldLabel in Tier3 ==> TierScore(tldLabel) == 8
    ensures tldLabel in Tier4 ==> TierScore(tldLabel) == 0
    ensures tldLabel in Tier5 ==> TierScore(tldLabel) == SpamPenalty(tldLabel)
    ensures (tldLabel !in Tier1 && tldLabel !in Tier2 && tldLabel !in Tier3 && tldLabel !in Tier4 &&
             tldLabel !in Tier5) ==> TierScore(tldLabel) == 0
  {
    UpperTiersDisjoint(tldLabel);
    if tldLabel in Tier5 {
      SpamTierDisjoint(tldLabel);
    }
  }

  /* The last label of every whitelisted second-level suffix is a
     target-region ccTLD of tier 2. */
  lemma SecondLevelFinalLabel(tld: string)
    requires tld in SecondLevel
    ensures FinalTld(tld) in {"bg", "ro", "pl", "cz", "de", "fr", "eu"}
  {
    var p :| p in SecondLevelPairs && tld == p.0 + "." + p.1;
    assert '.' !in p.0 && '.' !in p.1 && p.1 != "";
    SplitTwoLabels(p.0, '.', p.1);
  }

  /* A single-label TLD is its own final label. */
  lemma SingleLabelFinal(tld: string)
    requires '.' !in tld
    ensures FinalTld(tld) == tld
  {
    SplitSingleLabel(tld, '.');
  }

  /* The score of an extracted TLD. */
  function ScoreOfTld(tld: string): (r: int)
    ensures -30 <= r <= 20
    ensures tld in SecondLevel ==> r == 20
    ensures tld !in SecondLevel ==> r == TierScore(FinalTld(tld))
  {
    if tld in SecondLevel then 20 else TierScore(FinalTld(tld))
  }

  lemma ScoreOfTldNegativeIffSpam(tld: string)
    ensures ScoreOfTld(tld) < 0 <==> FinalTld(tld) in Tier5
  {
    if tld in SecondLevel {
      SecondLevelFinalLabel(tld);
    } else {
      TierScoreByTier(FinalTld(tld));
    }
  }

  /* gov, gov.xx suffixes and europa.eu score the top 0.20. */
  lemma GovernmentTldScoresTop(tld: string)
    requires tld in SecondLevel || ('.' !in tld && tld != "")
    requires GovernmentTld(tld)
    ensures ScoreOfTld(tld) == 20
  {
    if tld !in SecondLevel {
      SingleLabelFinal(tld);
      assert tld != "europa.eu" by {
        assert "europa.eu"[6] == '.';
      }
      NoDotNoGovPrefix(tld);
    }
  }

  lemma NoDotNoGovPrefix(t: string)
    requires '.' !in t
    ensures !StartsWith(t, "gov.")
  {
    if |t| >= 4 {
      assert t[3] in t;
      assert t[..4][3] == t[3];
    }
  }

  /* The host is lowercased before the lookup, so the TLD ignores case. */
  lemma TldIgnoresCase(h1: string, h2: string)
    requires Lower(h1) == Lower(h2)
    ensures TldOfHost(h1) == TldOfHost(h2)
  {
  }

  /* Any parsed host ending in ".gov" is a government domain scoring the top 0.20. */
  lemma GovHostIsGovernment(url: string, name: string)
    requires !IsBlank(url)
    ensures IsGovernmentDomain(Some(url), Parsed(Some(name + ".gov")))
    ensures TldScore(Some(url), Parsed(Some(name + ".gov"))) == 20
  {
    var host := name + ".gov";
    var uri := Parsed(Some(host));
    assert !IsBlank(host) by {
      assert host[|host| - 1] == 'v';
    }
    assert Lower(host) == Lower(name) + ['.'] + "gov";
    SplitLastPart(Lower(name), '.', "gov");
    GovTldOfHost(host);
    assert ExtractTld(Some(url), uri) == Some("gov");
    SingleLabelFinal("gov");
    assert GovernmentTld("gov");
    TierScoreByTier("gov");
  }

  /* No whitelisted suffix ends in "gov", so such a host's TLD is "gov" itself. */
  lemma GovTldOfHost(host: string)
    requires var parts := Labels(host);
      |parts| >= 2 && parts[|parts| - 1] == "gov"
    ensures TldOfHost(host) == Some("gov")
  {
    var parts := Labels(host);
    var a := parts[|parts| - 2];
    assert '.' !in a by {
      forall j | 0 <= j < |a| ensures a[j] != '.' { }
    }
    var pair := a + "." + "gov";
    SplitTwoLabels(a, '.', "gov");
    assert FinalTld(pair) == "gov";
    if pair in SecondLevel {
      SecondLevelFinalLabel(pair);
      assert false;
    }
  }

  /* Any parsed host ending in ".europa.eu" is a government domain scoring the top 0.20. */
  lemma EuropaHostIsGovernment(url: string, name: string)
    requires !IsBlank(url)
    ensures IsGovernmentDomain(Some(url), Parsed(Some(name + ".europa.eu")))
    ensures TldScore(Some(url), Parsed(Some(name + ".europa.eu"))) == 20
  {
    var host := name + ".europa.eu";
    var uri := Parsed(Some(host));
    assert !IsBlank(host) by {
      assert host[|host| - 1] == 'u';
    }
    assert Lower(host) == Lower(name) + ['.'] + ("europa" + ['.'] + "eu");
    SplitLastTwoParts(Lower(name), '.', "europa", "eu");
    EuropaTldOfHost(host);
    assert ExtractTld(Some(url), uri) == Some("europa.eu");
    assert GovernmentTld("europa.eu");
  }

  lemma EuropaTldOfHost(host: string)
    requires var parts := Labels(host);
      |parts| >= 2 && parts[|parts| - 2] == "europa" && parts[|parts| - 1] == "eu"
    ensures TldOfHost(host) == Some("europa.eu") && "europa.eu" in SecondLevel
  {
    var parts := Labels(host);
    EuropaWhitelisted();
    assert parts[|parts| - 2] + "." + parts[|parts| - 1] == "europa.eu";
  }

  lemma EuropaWhitelisted()
    ensures "europa.eu" in SecondLevel
  {
    var p := ("europa", "eu");
    assert p in SecondLevelPairs;
    assert p.0 + "." + p.1 == "europa.eu";
  }
}
