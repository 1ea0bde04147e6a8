/**
 Phase-one judging of a search result from its metadata alone: four judges
 (funding keywords, domain credibility, geographic relevance, organization
 type) score the title, snippet and URL, and their weighted average decides
 whether the result is crawled. Scores and weights are hundredths.
 */
module MetadataJudging {
  import opened Wrappers
  import opened Text
  import opened Time
  import opened Decimal
  import DomainCredibility
  import DomainRegistry
  import Store

  /* The judging input: the search engine's URL, title and snippet. */
  datatype SearchHit = SearchHit(url: Option<string>, title: Option<string>, snippet: Option<string>)

  datatype JudgeScore = JudgeScore(judgeName: string, score: int, weight: int, explanation: string)

  datatype MetadataJudgment = MetadataJudgment(
    confidenceScore: int,
    shouldCrawl: bool,
    domainName: string,
    judgeScores: seq<JudgeScore>,
    extractedOrganizationName: string,
    extractedProgramName: string,
    reasoning: string)

  /* 0.60: the confidence from which a result proceeds to the deep crawl. */
  const CrawlThreshold: int := 60

  const FundingWeight: int := 200
  const DomainWeight: int := 150
  const GeographicWeight: int := 100
  const OrganizationWeight: int := 80

  const FundingKeywords: set<string> := {
    "grant", "grants", "funding", "scholarship", "scholarships",
    "fellowship", "fellowships", "award", "awards", "prize", "prizes",
    "sponsorship", "fund", "funds", "financial support", "financial assistance",
    "subsidy", "subsidies", "endowment", "donation", "donations",
    "investment", "investments", "loan", "loans", "credit", "credits"
  }

  const CredibleTlds: set<string> := {".org", ".gov", ".edu", ".eu", ".int", ".foundation"}

  const GeographicKeywords: set<string> := {
    "bulgaria", "bulgarian", "eastern europe", "balkans", "balkan",
    "sofia", "plovdiv", "varna", "burgas",
    "eu", "european union", "europe", "european",
    "romania", "romanian", "greece", "greek", "serbia", "serbian",
    "north macedonia", "macedonia", "albania", "albanian",
    "kosovo", "montenegro", "croatia", "croatian",
    "bosnia", "herzegovina", "slovenia", "slovenian"
  }

  const OrganizationTypeKeywords: set<string> := {
    "foundation", "foundations", "ngo", "charity", "charities",
    "nonprofit", "non-profit", "trust", "trusts",
    "agency", "agencies", "ministry", "ministries",
    "commission", "council", "institute", "institutes",
    "organization", "organisation", "association"
  }

  const ScamPatterns: set<string> := {"click", "ad.", "promo", "offer"}

  /* The lower-cased "title snippet" text the keyword judges read. */
  function JudgedText(hit: SearchHit): string {
    Lower(JavaText(hit.title) + " " + JavaText(hit.snippet))
  }

  function Matching(text: string, keywords: set<string>): (m: set<string>)
    ensures m <= keywords
    ensures forall k :: k in keywords ==> (k in m <==> Contains(text, k))
  {
    set k | k in keywords && Contains(text, k)
  }

  /* The number of keywords of a set that occur in the text. */
  function MatchCount(text: string, keywords: set<string>): (n: nat)
    ensures n <= |keywords|
  {
    var m := Matching(text, keywords);
    assert m <= keywords;
    Store.SubsetCardinality(m, keywords);
    |m|
  }


  /* A keyword score: count / fullAt at scale 2, HALF_UP, capped at 1.00. */
  function RatioScore(count: nat, fullAt: nat): (r: int)
    requires fullAt > 0
    ensures 0 <= r <= 100
    ensures count >= fullAt ==> r == 100
    ensures count < fullAt ==> r == RoundHalfUp(100 * count, fullAt)
  {
    var q := RoundHalfUp(100 * count, fullAt);
    RoundHalfUpUnique(100 * fullAt, fullAt, 100);
    if count >= fullAt then
      RoundHalfUpMonotone(100 * fullAt, 100 * count, fullAt);
      if q > 100 then 100 else q
    else
      RoundHalfUpMonotone(100 * count, 100 * fullAt, fullAt);
      if q > 100 then 100 else q
  }

  /* The funding score climbs 0.00, 0.33, 0.67, 1.00; the two-keyword judges 0.00, 0.50, 1.00. */
  lemma RatioScoreSteps(count: nat)
    ensures RatioScore(count, 3) == (if count >= 3 then 100 else if count == 2 then 67 else if count == 1 then 33 else 0)
    ensures RatioScore(count, 2) == (if count >= 2 then 100 else if count == 1 then 50 else 0)
  {
    if count < 3 {
      RoundHalfUpUnique(100 * count, 3, if count == 2 then 67 else if count == 1 then 33 else 0);
    }
    if count < 2 {
      RoundHalfUpUnique(100 * count, 2, if count == 1 then 50 else 0);
    }
  }

  function CountText(prefix: string, count: nat, suffix: string): string {
    prefix + Digits(count) + suffix
  }

  function JudgeFundingKeywords(hit: SearchHit): (j: JudgeScore)
    ensures j.weight == FundingWeight && 0 <= j.score <= 100
    ensures j.score == RatioScore(MatchCount(JudgedText(hit), FundingKeywords), 3)
  {
    var n := MatchCount(JudgedText(hit), FundingKeywords);
    JudgeScore("FundingKeywordJudge", RatioScore(n, 3), FundingWeight,
               if n > 0 then CountText("Found ", n, " funding keywords") else "No funding keywords found")
  }

  /* The domain judge: a scam pattern scores 0.00 even on a credible TLD; a credible TLD 0.80; else 0.50. */
  function JudgeDomainCredibility(url: string): (j: JudgeScore)
    ensures j.weight == DomainWeight && 0 <= j.score <= 100
    ensures j.score == 0 || j.score == 50 || j.score == 80
  {
    var u := Lower(url);
    var credible := exists t :: t in CredibleTlds && Contains(u, t);
    var scam := exists p :: p in ScamPatterns && Contains(u, p);
    if scam then JudgeScore("DomainCredibilityJudge", 0, DomainWeight, "Suspicious domain pattern")
    else if credible then JudgeScore("DomainCredibilityJudge", 80, DomainWeight, "Credible domain extension")
    else JudgeScore("DomainCredibilityJudge", 50, DomainWeight, "Unknown domain - neutral score")
  }

  /* What each of the domain judge's three scores means. */
  lemma DomainJudgeScores(url: string)
    ensures JudgeDomainCredibility(url).score == 0 <==> (exists p :: p in ScamPatterns && Contains(Lower(url), p))
    ensures JudgeDomainCredibility(url).score == 80 <==>
      (forall p :: p in ScamPatterns ==> !Contains(Lower(url), p)) && (exists t :: t in CredibleTlds && Contains(Lower(url), t))
    ensures JudgeDomainCredibility(url).score == 50 <==>
      (forall p :: p in ScamPatterns ==> !Contains(Lower(url), p)) && (forall t :: t in CredibleTlds ==> !Contains(Lower(url), t))
  {
  }

  function JudgeGeographicRelevance(hit: SearchHit): (j: JudgeScore)
    ensures j.weight == GeographicWeight && 0 <= j.score <= 100
    ensures j.score == RatioScore(MatchCount(JudgedText(hit), GeographicKeywords), 2)
  {
    var n := MatchCount(JudgedText(hit), GeographicKeywords);
    JudgeScore("GeographicRelevanceJudge", RatioScore(n, 2), GeographicWeight,
               if n > 0 then CountText("Found ", n, " geographic keywords (Eastern Europe focus)")
               else "No geographic keywords - may be global or US-focused")
  }

  function JudgeOrganizationType(hit: SearchHit): (j: JudgeScore)
    ensures j.weight == OrganizationWeight && 0 <= j.score <= 100
    ensures j.score == RatioScore(MatchCount(JudgedText(hit), OrganizationTypeKeywords), 2)
  {
    var n := MatchCount(JudgedText(hit), OrganizationTypeKeywords);
    JudgeScore("OrganizationTypeJudge", RatioScore(n, 2), OrganizationWeight,
               if n > 0 then CountText("Found ", n, " organization type keywords") else "No organization type keywords")
  }

  function WeightedSum(js: seq<JudgeScore>): int {
    if js == [] then 0 else WeightedSum(js[..|js| - 1]) + js[|js| - 1].score * js[|js| - 1].weight
  }

  function TotalWeight(js: seq<JudgeScore>): int {
    if js == [] then 0 else TotalWeight(js[..|js| - 1]) + js[|js| - 1].weight
  }

  predicate WellFormed(js: seq<JudgeScore>) {
    forall i :: 0 <= i < |js| ==> 0 <= js[i].score <= 100 && js[i].weight >= 0
  }

  lemma {:induction false} WeightedSumBounds(js: seq<JudgeScore>)
    requires WellFormed(js)
    ensures 0 <= WeightedSum(js) <= 100 * TotalWeight(js)
  {
    if js != [] {
      var init := js[..|js| - 1];
      assert WellFormed(init) by {
        forall i | 0 <= i < |init| ensures 0 <= init[i].score <= 100 && init[i].weight >= 0 {
          assert init[i] == js[i];
        }
      }
      WeightedSumBounds(init);
      var last := js[|js| - 1];
      assert 0 <= last.score * last.weight <= 100 * last.weight;
    }
  }

  /*
   calculateOverallConfidence: the weighted average of the judge scores,
   rounded HALF_UP to hundredths and capped at 1.00.
   */
  function CalculateOverallConfidence(js: seq<JudgeScore>): (r: int)
    requires WellFormed(js) && TotalWeight(js) > 0
    ensures 0 <= r <= 100
    ensures 2 * TotalWeight(js) * r <= 2 * WeightedSum(js) + TotalWeight(js) < 2 * TotalWeight(js) * r + 2 * TotalWeight(js)
  {
    WeightedSumBounds(js);
    var q := RoundHalfUp(WeightedSum(js), TotalWeight(js));
    RoundHalfUpMonotone(WeightedSum(js), 100 * TotalWeight(js), TotalWeight(js));
    RoundHalfUpUnique(100 * TotalWeight(js), TotalWeight(js), 100);
    if q > 100 then 100 else q
  }

  /*
   extractOrganizationAndProgram: split the title on '-' or '|'; with two or
   more parts the last is the organization and the first the program.
   */
  function ExtractOrganizationAndProgram(title: Option<string>): (r: (string, string))
    ensures title.None? || IsBlank(title.value) ==> r == ("Unknown Organization", "Unknown Program")
    ensures title.Some? && !IsBlank(title.value) && |Split(title.value, {'-', '|'})| < 2 ==>
      r == ("Unknown Organization", Trim(title.value))
  {
    if title.None? || IsBlank(title.value) then ("Unknown Organization", "Unknown Program")
    else
      var parts := Split(title.value, {'-', '|'});
      if |parts| >= 2 then (Trim(parts[|parts| - 1]), Trim(parts[0]))
      else ("Unknown Organization", Trim(title.value))
  }

  /* "Program - Organization": the trimmed right side names the organization, the left the program. */
  lemma TitleSplitsIntoOrganizationAndProgram(program: string, sep: char, organization: string)
    requires sep in {'-', '|'} && organization != ""
    requires !HasSeparator(program, {'-', '|'}) && !HasSeparator(organization, {'-', '|'})
    ensures ExtractOrganizationAndProgram(Some(program + [sep] + organization)) == (Trim(organization), Trim(program))
  {
    var title := program + [sep] + organization;
    SplitTwoParts(program, sep, organization, {'-', '|'});
    assert !IsBlank(title) by {
      assert title[|program|] == sep;
    }
  }

  /* A title without '-' or '|' is the program of an unknown organization. */
  lemma TitleWithoutSeparator(title: string)
    requires !IsBlank(title) && !HasSeparator(title, {'-', '|'})
    ensures ExtractOrganizationAndProgram(Some(title)) == ("Unknown Organization", Trim(title))
  {
  }

  /* Sums over four judges, unfolded. */
  lemma FourJudgeSums(a: JudgeScore, b: JudgeScore, c: JudgeScore, d: JudgeScore)
    ensures TotalWeight([a, b, c, d]) == a.weight + b.weight + c.weight + d.weight
    ensures WeightedSum([a, b, c, d]) == a.score * a.weight + b.score * b.weight + c.score * c.weight + d.score * d.weight
  {
    assert [a, b, c, d][..3] == [a, b, c];
    assert [a, b, c][..2] == [a, b];
    assert [a, b][..1] == [a];
    assert [a][..0] == [];
    assert WeightedSum([a]) == a.score * a.weight;
    assert WeightedSum([a, b]) == a.score * a.weight + b.score * b.weight;
    assert WeightedSum([a, b, c]) == a.score * a.weight + b.score * b.weight + c.score * c.weight;
    assert TotalWeight([a]) == a.weight;
    assert TotalWeight([a, b]) == a.weight + b.weight;
    assert TotalWeight([a, b, c]) == a.weight + b.weight + c.weight;
  }

  lemma FourJudgesWellFormed(a: JudgeScore, b: JudgeScore, c: JudgeScore, d: JudgeScore)
    requires 0 <= a.score <= 100 && 0 <= b.score <= 100 && 0 <= c.score <= 100 && 0 <= d.score <= 100
    requires a.weight >= 0 && b.weight >= 0 && c.weight >= 0 && d.weight >= 0
    ensures WellFormed([a, b, c, d])
  {
  }

  /* The four judges of a result with a URL, in the service's order. */
  function Judges(hit: SearchHit, url: string): (js: seq<JudgeScore>)
    ensures |js| == 4 && WellFormed(js) && TotalWeight(js) == 530
    ensures js[0] == JudgeFundingKeywords(hit) && js[1] == JudgeDomainCredibility(url)
    ensures js[2] == JudgeGeographicRelevance(hit) && js[3] == JudgeOrganizationType(hit)
  {
    Panel(JudgeFundingKeywords(hit), JudgeDomainCredibility(url), JudgeGeographicRelevance(hit), JudgeOrganizationType(hit))
  }

  /* The service's four judges in order: well-formed, their weights adding up to 5.30. */
  function Panel(a: JudgeScore, b: JudgeScore, c: JudgeScore, d: JudgeScore): (js: seq<JudgeScore>)
    requires 0 <= a.score <= 100 && 0 <= b.score <= 100 && 0 <= c.score <= 100 && 0 <= d.score <= 100
    requires a.weight == FundingWeight && b.weight == DomainWeight
    requires c.weight == GeographicWeight && d.weight == OrganizationWeight
    ensures js == [a, b, c, d] && |js| == 4 && WellFormed(js) && TotalWeight(js) == 530
  {
    FourJudgeSums(a, b, c, d);
    FourJudgesWellFormed(a, b, c, d);
    [a, b, c, d]
  }

  /*
   judgeSearchResult: a null URL throws; otherwise the four judges, their
   weighted confidence, the crawl decision, the registry's domain name (or
   "unknown") and the names read from the title.
   */
  function JudgeSearchResult(hit: SearchHit, uri: DomainCredibility.UriParse): (r: Result<MetadataJudgment>)
    ensures r.Fail? <==> hit.url.None?
    ensures r.Ok? ==>
      && 0 <= r.value.confidenceScore <= 100
      && (r.value.shouldCrawl <==> r.value.confidenceScore >= 60)
      && r.value.judgeScores == Judges(hit, hit.url.value)
      && r.value.confidenceScore == CalculateOverallConfidence(r.value.judgeScores)
      && (r.value.extractedOrganizationName, r.value.extractedProgramName) == ExtractOrganizationAndProgram(hit.title)
      && r.value.domainName == DomainRegistry.ExtractDomainName(hit.url, uri).GetOr("unknown")
      && r.value.reasoning == BuildReasoning(r.value.judgeScores, r.value.confidenceScore)
  {
    if hit.url.None? then Fail(NullPointer("url"))
    else
      var js := Judges(hit, hit.url.value);
      var confidence := CalculateOverallConfidence(js);
      var names := ExtractOrganizationAndProgram(hit.title);
      var domainName := DomainRegistry.ExtractDomainName(hit.url, uri).GetOr("unknown");
      Ok(MetadataJudgment(confidence, confidence >= CrawlThreshold, domainName, js, names.0, names.1,
                          BuildReasoning(js, confidence)))
  }

  const ConfidencePrefix: string := "Overall confidence: "

  /* "Overall confidence: %.2f. " */
  function ConfidenceLine(overall: int): string {
    ConfidencePrefix + HundredthsText(overall) + ". "
  }

  /* "%s: %.2f (%s). " for one judge. */
  function JudgeLine(j: JudgeScore): string {
    j.judgeName + ": " + HundredthsText(j.score) + " (" + j.explanation + "). "
  }

  function JudgeLines(js: seq<JudgeScore>): string {
    if |js| == 0 then "" else JudgeLine(js[0]) + JudgeLines(js[1..])
  }

  /* buildReasoning: the overall confidence, then one line per judge in order. */
  function BuildReasoning(js: seq<JudgeScore>, overall: int): (r: string)
    ensures StartsWith(r, ConfidenceLine(overall))
    ensures js == [] ==> r == ConfidenceLine(overall)
  {
    ConfidenceLine(overall) + JudgeLines(js)
  }

  /* The confidence printed at the head of the reasoning reads back as the judged confidence. */
  lemma ReasoningReportsConfidence(js: seq<JudgeScore>, overall: int)
    ensures var r := BuildReasoning(js, overall);
      var k := |ConfidencePrefix|;
      var n := |HundredthsText(overall)|;
      k + n <= |r| && ParseHundredths(r[k..k + n]) == overall
  {
    var r := BuildReasoning(js, overall);
    var k := |ConfidencePrefix|;
    var t := HundredthsText(overall);
    assert r == ConfidencePrefix + t + (". " + JudgeLines(js));
    assert r[k..k + |t|] == t;
    HundredthsRoundTrip(overall);
  }

  /*
   Without a single funding keyword nothing is crawled: the other three
   judges reach at most 30000 / 530, which rounds to 0.57.
   */
  lemma CrawlNeedsFundingKeyword(hit: SearchHit, uri: DomainCredibility.UriParse)
    requires hit.url.Some? && MatchCount(JudgedText(hit), FundingKeywords) == 0
    ensures JudgeSearchResult(hit, uri).Ok? && !JudgeSearchResult(hit, uri).value.shouldCrawl
  {
    var js := Judges(hit, hit.url.value);
    RatioScoreSteps(0);
    NoFundingSum(js[0], js[1], js[2], js[3]);
    assert js == [js[0], js[1], js[2], js[3]];
  }

  /* The weighted sum of the four judges with a zero funding score. */
  lemma NoFundingSum(a: JudgeScore, b: JudgeScore, c: JudgeScore, d: JudgeScore)
    requires a.score == 0 && 0 <= b.score <= 80 && 0 <= c.score <= 100 && 0 <= d.score <= 100
    requires a.weight == FundingWeight && b.weight == DomainWeight
    requires c.weight == GeographicWeight && d.weight == OrganizationWeight
    ensures WeightedSum([a, b, c, d]) <= 30000
  {
    FourJudgeSums(a, b, c, d);
    MulMonotone(150, b.score, 80);
    MulMonotone(100, c.score, 100);
    MulMonotone(80, d.score, 100);
  }
}
