/**
 The multi-provider search orchestrator of the crawler: four search
 providers are queried, their failures are classified and collected, the
 successful results are filtered for spam and blacklisted domains and
 reduced to the best-ranked result per domain, the run's statistics are
 counted, and the discovery session is finished with a status that depends
 on how many providers failed.

 The adapters' answers, the spam detectors, the domain table and the clock
 are parameters; the parallel execution is a sequential pass in the
 providers' fixed order.
 */
module ProviderOrchestration {
  import opened Wrappers
  import opened Time
  import opened Store
  import opened Text
  import opened SearchResults
  import opened AntiSpam
  import opened Domains
  import Sessions

  /* The crawler's search engines; the orchestrator queries the first four. */
  datatype SearchEngineType = BRAVE | SEARXNG | SERPER | TAVILY | PERPLEXICA

  function EngineName(e: SearchEngineType): string {
    match e
    case BRAVE => "BRAVE"
    case SEARXNG => "SEARXNG"
    case SERPER => "SERPER"
    case TAVILY => "TAVILY"
    case PERPLEXICA => "PERPLEXICA"
  }

  /* The orchestrated providers, in the order their answers are collected. */
  const Orchestrated: seq<SearchEngineType> := [BRAVE, SEARXNG, SERPER, TAVILY]

  /* Tavily is sent the AI-optimised query, the other three the keyword query. */
  function QueryFor(p: SearchEngineType, keywordQuery: string, aiOptimizedQuery: string): string {
    if p == TAVILY then aiOptimizedQuery else keywordQuery
  }

  // ---------------------------------------------------------------------
  // Error classification
  // ---------------------------------------------------------------------

  datatype ErrorType = RATE_LIMIT | TIMEOUT | AUTH_FAILURE | NETWORK_ERROR | INVALID_RESPONSE | UNKNOWN

  function ErrorTypeName(t: ErrorType): string {
    match t
    case RATE_LIMIT => "RATE_LIMIT"
    case TIMEOUT => "TIMEOUT"
    case AUTH_FAILURE => "AUTH_FAILURE"
    case NETWORK_ERROR => "NETWORK_ERROR"
    case INVALID_RESPONSE => "INVALID_RESPONSE"
    case UNKNOWN => "UNKNOWN"
  }

  /* What an adapter threw: the simple name of its class and its message, which may be null. */
  datatype Thrown = Thrown(className: string, message: Option<string>)

  /* The message as the classifier reads it: lower-cased, a null message read as empty. */
  function MessageText(e: Thrown): string {
    Lower(e.message.GetOr(""))
  }

  predicate RateLimitSign(e: Thrown) {
    Contains(e.className, "RateLimit") || Contains(MessageText(e), "rate limit")
  }

  predicate TimeoutSign(e: Thrown) {
    Contains(e.className, "Timeout") || Contains(MessageText(e), "timeout")
  }

  predicate AuthSign(e: Thrown) {
    Contains(e.className, "Authentication") || Contains(MessageText(e), "unauthorized")
    || Contains(MessageText(e), "forbidden")
  }

  predicate NetworkSign(e: Thrown) {
    Contains(e.className, "IOException") || Contains(e.className, "ConnectException")
  }

  predicate ParseSign(e: Thrown) {
    Contains(MessageText(e), "json") || Contains(MessageText(e), "parse")
  }

  /*
   classifyErrorType: the first sign that shows decides, in the order rate
   limit, timeout, authentication, network, malformed response; an error
   showing none is UNKNOWN.
   */
  function ClassifyErrorType(e: Thrown): (t: ErrorType)
    ensures t == RATE_LIMIT <==> RateLimitSign(e)
    ensures t == TIMEOUT <==> !RateLimitSign(e) && TimeoutSign(e)
    ensures t == AUTH_FAILURE <==> !RateLimitSign(e) && !TimeoutSign(e) && AuthSign(e)
    ensures t == NETWORK_ERROR <==> !RateLimitSign(e) && !TimeoutSign(e) && !AuthSign(e) && NetworkSign(e)
    ensures t == INVALID_RESPONSE <==>
      !RateLimitSign(e) && !TimeoutSign(e) && !AuthSign(e) && !NetworkSign(e) && ParseSign(e)
    ensures t == UNKNOWN <==>
      !RateLimitSign(e) && !TimeoutSign(e) && !AuthSign(e) && !NetworkSign(e) && !ParseSign(e)
  {
    if RateLimitSign(e) then RATE_LIMIT
    else if TimeoutSign(e) then TIMEOUT
    else if AuthSign(e) then AUTH_FAILURE
    else if NetworkSign(e) then NETWORK_ERROR
    else if ParseSign(e) then INVALID_RESPONSE
    else UNKNOWN
  }

  /* The message is compared without regard to case: lower-casing it first changes nothing. */
  lemma ClassifyIgnoresMessageCase(className: string, message: string)
    ensures ClassifyErrorType(Thrown(className, Some(message)))
         == ClassifyErrorType(Thrown(className, Some(Lower(message))))
  {
    LowerIdempotent(message);
  }

  /* A null message is read as empty, so only the class name can classify it, and never as a malformed response. */
  lemma NullMessageClassifiedByName(className: string)
    ensures ClassifyErrorType(Thrown(className, None)) == ClassifyErrorType(Thrown(className, Some("")))
    ensures ClassifyErrorType(Thrown(className, None)) != INVALID_RESPONSE
  {
    var e := Thrown(className, None);
    assert MessageText(e) == [];
    assert !Contains(MessageText(e), "json") && !Contains(MessageText(e), "parse");
  }

  // ---------------------------------------------------------------------
  // Provider answers and errors
  // ---------------------------------------------------------------------

  /* A provider's failure as the orchestrator records it. */
  datatype ProviderError = ProviderError(
    provider: SearchEngineType,
    errorMessage: Option<string>,
    errorType: ErrorType,
    timestamp: Instant,
    query: string)

  /* What an adapter's search returned: its results, or what it threw. */
  datatype Outcome = Succeeded(results: seq<SearchResult>) | Threw(error: Thrown)

  /* One provider's answer: an answer is a success exactly when it carries no error. */
  datatype ProviderSearchResult = ProviderSearchResult(
    provider: SearchEngineType,
    results: seq<SearchResult>,
    error: Option<ProviderError>)

  /* executeProviderAsync: a failure becomes an empty answer carrying the classified error. */
  function ToProviderResult(p: SearchEngineType, query: string, o: Outcome, now: Instant): (r: ProviderSearchResult)
    ensures r.provider == p
    ensures r.error.None? <==> o.Succeeded?
    ensures o.Succeeded? ==> r.results == o.results
    ensures o.Threw? ==> r.results == [] && r.error.value.errorType == ClassifyErrorType(o.error)
    ensures o.Threw? ==> r.error.value == ProviderError(p, o.error.message, r.error.value.errorType, now, query)
  {
    match o
    case Succeeded(rs) => ProviderSearchResult(p, rs, None)
    case Threw(e) => ProviderSearchResult(p, [], Some(ProviderError(p, e.message, ClassifyErrorType(e), now, query)))
  }

  /* The answers of the given providers, each asked its own query, in the given order. */
  function Answers(ps: seq<SearchEngineType>, keywordQuery: string, aiOptimizedQuery: string,
                   search: (SearchEngineType, string) -> Outcome, now: Instant): (r: seq<ProviderSearchResult>)
    ensures |r| == |ps|
    ensures forall i :: 0 <= i < |ps| ==>
      r[i] == ToProviderResult(ps[i], QueryFor(ps[i], keywordQuery, aiOptimizedQuery),
                               search(ps[i], QueryFor(ps[i], keywordQuery, aiOptimizedQuery)), now)
  {
    if ps == [] then []
    else
      var q := QueryFor(ps[0], keywordQuery, aiOptimizedQuery);
      [ToProviderResult(ps[0], q, search(ps[0], q), now)] + Answers(ps[1..], keywordQuery, aiOptimizedQuery, search, now)
  }

  /* The successful answers by provider; a later answer of the same provider replaces an earlier one. */
  function Successes(rs: seq<ProviderSearchResult>): (m: map<SearchEngineType, seq<SearchResult>>)
    ensures forall p :: p in m <==> exists i :: 0 <= i < |rs| && rs[i].provider == p && rs[i].error.None?
  {
    if rs == [] then map[]
    else
      var m := Successes(rs[..|rs| - 1]);
      var last := rs[|rs| - 1];
      assert forall i :: 0 <= i < |rs| - 1 ==> rs[..|rs| - 1][i] == rs[i];
      if last.error.None? then m[last.provider := last.results] else m
  }

  /* The errors of the failed answers, in answer order. */
  function Errors(rs: seq<ProviderSearchResult>): (es: seq<ProviderError>)
    ensures |es| <= |rs|
    ensures forall e :: e in es <==> exists i :: 0 <= i < |rs| && rs[i].error == Some(e)
  {
    if rs == [] then []
    else
      var rest := Errors(rs[1..]);
      assert forall i :: 0 <= i < |rs| - 1 ==> rs[1..][i] == rs[i + 1];
      if rs[0].error.Some? then [rs[0].error.value] + rest else rest
  }

  /* One successful answer is enough to leave fewer errors than answers. */
  lemma {:induction false} FewerErrorsThanAnswers(rs: seq<ProviderSearchResult>, k: int)
    requires 0 <= k < |rs| && rs[k].error.None?
    ensures |Errors(rs)| < |rs|
    decreases |rs|
  {
    if k > 0 {
      assert rs[1..][k - 1] == rs[k];
      FewerErrorsThanAnswers(rs[1..], k - 1);
    }
  }

  // ---------------------------------------------------------------------
  // Aggregation: spam filter, blacklist, best rank per domain
  // ---------------------------------------------------------------------

  /* The results of the listed providers counted together; a provider without an entry counts none. */
  function Total(m: map<SearchEngineType, seq<SearchResult>>, order: seq<SearchEngineType>): nat {
    if order == [] then 0 else CountOf(m, order[0]) + Total(m, order[1..])
  }

  /* How many results a provider returned; a provider that failed counts none. */
  function CountOf(m: map<SearchEngineType, seq<SearchResult>>, p: SearchEngineType): nat {
    if p in m then |m[p]| else 0
  }

  /* The provider results one after the other, in the map's iteration order. */
  function Flatten(m: map<SearchEngineType, seq<SearchResult>>, order: seq<SearchEngineType>): (all: seq<SearchResult>)
    ensures |all| == Total(m, order)
    ensures forall x :: x in all ==> exists p :: p in m && p in order && x in m[p]
  {
    if order == [] then []
    else (if order[0] in m then m[order[0]] else []) + Flatten(m, order[1..])
  }

  /* Every result of every listed provider is in the flattened list. */
  lemma {:induction false} FlattenHasAll(m: map<SearchEngineType, seq<SearchResult>>, order: seq<SearchEngineType>,
                                         p: SearchEngineType, x: SearchResult)
    requires p in m && p in order && x in m[p]
    ensures x in Flatten(m, order)
    decreases |order|
  {
    if order[0] != p {
      FlattenHasAll(m, order[1..], p, x);
    }
  }

  /* Step 1: the results the spam verdict lets through, in order. */
  function NonSpam(all: seq<SearchResult>, spam: SearchResult -> bool): (r: seq<SearchResult>)
    ensures |r| <= |all|
    ensures forall x :: x in r <==> x in all && !spam(x)
  {
    if all == [] then []
    else (if spam(all[0]) then [] else [all[0]]) + NonSpam(all[1..], spam)
  }

  /* The verdict of the anti-spam filter on one result. */
  predicate IsSpam(x: SearchResult, detectors: Detectors) {
    AnalyzeForSpam(Some(x), detectors).isSpam
  }

  /* A domain the domain table holds with the BLACKLISTED status. */
  predicate Blacklisted(domains: DomainTable, domain: Option<string>) {
    && domain.Some?
    && var id := FindByName(domains, domain.value);
    && id.Some?
    && domains[id.value].status == Some(BLACKLISTED)
  }

  /* Result i takes part in the deduplication: its domain is not blocked. */
  predicate Counts(ys: seq<SearchResult>, blocked: Option<string> -> bool, i: int) {
    0 <= i < |ys| && !blocked(ys[i].domain)
  }

  /* Among the first n results, two counted results share a domain and one of them has no rank. */
  ghost predicate RankConflict(ys: seq<SearchResult>, blocked: Option<string> -> bool, n: int) {
    exists i, j :: 0 <= i < j < n && Counts(ys, blocked, i) && Counts(ys, blocked, j)
      && ys[i].domain == ys[j].domain && (ys[i].rankPosition.None? || ys[j].rankPosition.None?)
  }

  /*
   Result w is the one kept for domain d among the first n results: it is
   counted and has that domain, and against every other counted result of
   the domain it ranks strictly better than the earlier ones and no worse
   than the later ones, so it is the first of the best-ranked.
   */
  ghost predicate KeptFor(ys: seq<SearchResult>, blocked: Option<string> -> bool, n: int, d: Option<string>, w: int) {
    && w < n && Counts(ys, blocked, w) && ys[w].domain == d
    && forall j :: 0 <= j < n && Counts(ys, blocked, j) && ys[j].domain == d && j != w ==>
         && ys[j].rankPosition.Some? && ys[w].rankPosition.Some?
         && (j < w ==> ys[w].rankPosition.value < ys[j].rankPosition.value)
         && (w < j ==> ys[w].rankPosition.value <= ys[j].rankPosition.value)
  }

  /* Every counted result among the first n has its domain in the map. */
  ghost predicate Covers(ys: seq<SearchResult>, blocked: Option<string> -> bool, n: int, m: map<Option<string>, SearchResult>) {
    forall i :: 0 <= i < n && Counts(ys, blocked, i) ==> ys[i].domain in m
  }

  /* Each entry of the map is the result kept for its domain, at the position `kept` names. */
  ghost predicate KeptAll(ys: seq<SearchResult>, blocked: Option<string> -> bool, n: int,
                          m: map<Option<string>, SearchResult>, kept: map<Option<string>, int>) {
    forall d :: d in m ==> d in kept && KeptFor(ys, blocked, n, d, kept[d]) && m[d] == ys[kept[d]]
  }

  /* The map holds, for each domain of a counted result among the first n, the result kept for it. */
  ghost predicate DedupedUpTo(ys: seq<SearchResult>, blocked: Option<string> -> bool, n: int,
                              m: map<Option<string>, SearchResult>, kept: map<Option<string>, int>) {
    Covers(ys, blocked, n, m) && KeptAll(ys, blocked, n, m, kept)
  }

  /* Unboxing a null rank position throws. */
  const RankNpe: Exception :=
    NullPointer("Cannot invoke \"java.lang.Integer.intValue()\" because the return value of "
      + "\"com.northstar.funding.domain.SearchResult.getRankPosition()\" is null")

  /*
   Step 2 of aggregateResults: a pass over the non-spam results that skips
   blacklisted domains and keeps, per domain, the result with the smallest
   rank position, an equal rank leaving the earlier result in place.
   Comparing ranks unboxes both, so a missing rank on a repeated domain
   throws. `kept` records where each kept result stands.
   */
  method DeduplicateByDomain(ys: seq<SearchResult>, blocked: Option<string> -> bool)
    returns (r: Result<map<Option<string>, SearchResult>>, ghost kept: map<Option<string>, int>)
    ensures r.Fail? <==> RankConflict(ys, blocked, |ys|)
    ensures r.Fail? ==> r.error == RankNpe
    ensures r.Ok? ==> DedupedUpTo(ys, blocked, |ys|, r.value, kept)
  {
    var m: map<Option<string>, SearchResult> := map[];
    kept := map[];
    var i := 0;
    while i < |ys|
      invariant 0 <= i <= |ys|
      invariant DedupedUpTo(ys, blocked, i, m, kept)
      invariant !RankConflict(ys, blocked, i)
    {
      var x := ys[i];
      var d := x.domain;
      if blocked(d) {
        SkipStep(ys, blocked, i, m, kept);
      } else if d !in m {
        NewDomainStep(ys, blocked, i, m, kept);
        m := m[d := x];
        kept := kept[d := i];
      } else if x.rankPosition.None? || m[d].rankPosition.None? {
        ConflictStep(ys, blocked, i, m, kept);
        ConflictPersists(ys, blocked, i + 1, |ys|);
        return Fail(RankNpe), kept;
      } else if x.rankPosition.value < m[d].rankPosition.value {
        BetterRankStep(ys, blocked, i, m, kept);
        m := m[d := x];
        kept := kept[d := i];
      } else {
        NoBetterRankStep(ys, blocked, i, m, kept);
      }
      i := i + 1;
    }
    return Ok(m), kept;
  }

  /* The entries of domains other than result i's stay kept past it. */
  lemma OthersStillKept(ys: seq<SearchResult>, blocked: Option<string> -> bool, i: int,
                        m: map<Option<string>, SearchResult>, kept: map<Option<string>, int>)
    requires 0 <= i < |ys| && KeptAll(ys, blocked, i, m, kept)
    ensures forall d :: d in m && (d != ys[i].domain || blocked(d)) ==> KeptFor(ys, blocked, i + 1, d, kept[d])
  {
  }

  lemma SkipStep(ys: seq<SearchResult>, blocked: Option<string> -> bool, i: int,
                 m: map<Option<string>, SearchResult>, kept: map<Option<string>, int>)
    requires 0 <= i < |ys| && blocked(ys[i].domain)
    requires DedupedUpTo(ys, blocked, i, m, kept) && !RankConflict(ys, blocked, i)
    ensures DedupedUpTo(ys, blocked, i + 1, m, kept) && !RankConflict(ys, blocked, i + 1)
  {
    OthersStillKept(ys, blocked, i, m, kept);
    forall a, b | 0 <= a < b < i + 1 && Counts(ys, blocked, a) && Counts(ys, blocked, b) && ys[a].domain == ys[b].domain
      ensures ys[a].rankPosition.Some? && ys[b].rankPosition.Some?
    {
      assert b < i;
    }
  }

  lemma NewDomainStep(ys: seq<SearchResult>, blocked: Option<string> -> bool, i: int,
                      m: map<Option<string>, SearchResult>, kept: map<Option<string>, int>)
    requires 0 <= i < |ys| && !blocked(ys[i].domain) && ys[i].domain !in m
    requires DedupedUpTo(ys, blocked, i, m, kept) && !RankConflict(ys, blocked, i)
    ensures DedupedUpTo(ys, blocked, i + 1, m[ys[i].domain := ys[i]], kept[ys[i].domain := i])
    ensures !RankConflict(ys, blocked, i + 1)
  {
    var d0 := ys[i].domain;
    OthersStillKept(ys, blocked, i, m, kept);
    assert forall j :: 0 <= j < i && Counts(ys, blocked, j) ==> ys[j].domain != d0;
    assert KeptFor(ys, blocked, i + 1, d0, i);
    forall a, b | 0 <= a < b < i + 1 && Counts(ys, blocked, a) && Counts(ys, blocked, b) && ys[a].domain == ys[b].domain
      ensures ys[a].rankPosition.Some? && ys[b].rankPosition.Some?
    {
      assert b < i;
    }
  }

  lemma ConflictStep(ys: seq<SearchResult>, blocked: Option<string> -> bool, i: int,
                     m: map<Option<string>, SearchResult>, kept: map<Option<string>, int>)
    requires 0 <= i < |ys| && !blocked(ys[i].domain) && ys[i].domain in m
    requires ys[i].rankPosition.None? || m[ys[i].domain].rankPosition.None?
    requires KeptAll(ys, blocked, i, m, kept)
    ensures RankConflict(ys, blocked, i + 1)
  {
    var w := kept[ys[i].domain];
    assert 0 <= w < i + 1 && Counts(ys, blocked, w) && Counts(ys, blocked, i) && ys[w].domain == ys[i].domain;
  }

  lemma ConflictPersists(ys: seq<SearchResult>, blocked: Option<string> -> bool, n: int, n': int)
    requires n <= n' && RankConflict(ys, blocked, n)
    ensures RankConflict(ys, blocked, n')
  {
    var i, j :| 0 <= i < j < n && Counts(ys, blocked, i) && Counts(ys, blocked, j)
      && ys[i].domain == ys[j].domain && (ys[i].rankPosition.None? || ys[j].rankPosition.None?);
    assert j < n';
  }

  lemma BetterRankStep(ys: seq<SearchResult>, blocked: Option<string> -> bool, i: int,
                       m: map<Option<string>, SearchResult>, kept: map<Option<string>, int>)
    requires 0 <= i < |ys| && !blocked(ys[i].domain) && ys[i].domain in m
    requires ys[i].rankPosition.Some? && m[ys[i].domain].rankPosition.Some?
    requires ys[i].rankPosition.value < m[ys[i].domain].rankPosition.value
    requires DedupedUpTo(ys, blocked, i, m, kept) && !RankConflict(ys, blocked, i)
    ensures DedupedUpTo(ys, blocked, i + 1, m[ys[i].domain := ys[i]], kept[ys[i].domain := i])
    ensures !RankConflict(ys, blocked, i + 1)
  {
    var d0 := ys[i].domain;
    var w := kept[d0];
    OthersStillKept(ys, blocked, i, m, kept);
    NowKept(ys, blocked, i, w);
    NoNewConflict(ys, blocked, i, w);
  }

  /* Result i, ranked strictly better than the kept w, becomes its domain's kept result. */
  lemma NowKept(ys: seq<SearchResult>, blocked: Option<string> -> bool, i: int, w: int)
    requires 0 <= i < |ys| && !blocked(ys[i].domain) && KeptFor(ys, blocked, i, ys[i].domain, w)
    requires ys[i].rankPosition.Some? && ys[w].rankPosition.Some?
    requires ys[i].rankPosition.value < ys[w].rankPosition.value
    ensures KeptFor(ys, blocked, i + 1, ys[i].domain, i)
  {
    var d := ys[i].domain;
    forall j | 0 <= j < i + 1 && Counts(ys, blocked, j) && ys[j].domain == d && j != i
      ensures ys[j].rankPosition.Some? && ys[i].rankPosition.value < ys[j].rankPosition.value
    {
      if j != w {
        assert ys[j].rankPosition.Some? && ys[w].rankPosition.value <= ys[j].rankPosition.value;
      }
    }
  }

  /* Result i, ranked no better than the kept w, leaves w kept. */
  lemma StaysKept(ys: seq<SearchResult>, blocked: Option<string> -> bool, i: int, w: int)
    requires 0 <= i < |ys| && !blocked(ys[i].domain) && KeptFor(ys, blocked, i, ys[i].domain, w)
    requires ys[i].rankPosition.Some? && ys[w].rankPosition.Some?
    requires ys[w].rankPosition.value <= ys[i].rankPosition.value
    ensures KeptFor(ys, blocked, i + 1, ys[i].domain, w)
  {
  }

  lemma NoBetterRankStep(ys: seq<SearchResult>, blocked: Option<string> -> bool, i: int,
                         m: map<Option<string>, SearchResult>, kept: map<Option<string>, int>)
    requires 0 <= i < |ys| && !blocked(ys[i].domain) && ys[i].domain in m
    requires ys[i].rankPosition.Some? && m[ys[i].domain].rankPosition.Some?
    requires !(ys[i].rankPosition.value < m[ys[i].domain].rankPosition.value)
    requires DedupedUpTo(ys, blocked, i, m, kept) && !RankConflict(ys, blocked, i)
    ensures DedupedUpTo(ys, blocked, i + 1, m, kept) && !RankConflict(ys, blocked, i + 1)
  {
    var w := kept[ys[i].domain];
    OthersStillKept(ys, blocked, i, m, kept);
    StaysKept(ys, blocked, i, w);
    NoNewConflict(ys, blocked, i, w);
  }

  /* A ranked result whose domain's kept result is ranked adds no conflict. */
  lemma NoNewConflict(ys: seq<SearchResult>, blocked: Option<string> -> bool, i: int, w: int)
    requires 0 <= i < |ys| && ys[i].rankPosition.Some?
    requires KeptFor(ys, blocked, i, ys[i].domain, w) && ys[w].rankPosition.Some?
    requires !RankConflict(ys, blocked, i)
    ensures !RankConflict(ys, blocked, i + 1)
  {
    forall a, b | 0 <= a < b < i + 1 && Counts(ys, blocked, a) && Counts(ys, blocked, b) && ys[a].domain == ys[b].domain
      ensures ys[a].rankPosition.Some? && ys[b].rankPosition.Some?
    {
      if b == i && a != w {
        assert ys[a].rankPosition.Some?;
      }
    }
  }

  /* A map is no larger than the list its keys are drawn from. */
  lemma {:induction false} DomainsAtMostResults(ys: seq<SearchResult>, keys: set<Option<string>>)
    requires forall d :: d in keys ==> exists i :: 0 <= i < |ys| && ys[i].domain == d
    ensures |keys| <= |ys|
    decreases |ys|
  {
    if ys != [] {
      var last := ys[|ys| - 1];
      var init := ys[..|ys| - 1];
      var rest := keys - {last.domain};
      forall d | d in rest
        ensures exists i :: 0 <= i < |init| && init[i].domain == d
      {
        var i :| 0 <= i < |ys| && ys[i].domain == d;
        assert init[i] == ys[i];
      }
      DomainsAtMostResults(init, rest);
    } else {
      assert keys == {};
    }
  }

  /* The anti-spam verdict as the filter the aggregation applies. */
  function SpamTest(detectors: Detectors): SearchResult -> bool {
    x => IsSpam(x, detectors)
  }

  /* The blacklist as the domain test the aggregation applies. */
  function BlockedTest(domains: DomainTable): Option<string> -> bool {
    d => Blacklisted(domains, d)
  }

  /* Among the non-spam results, two of one unblocked domain clash over a missing rank. */
  ghost predicate ConflictIn(all: seq<SearchResult>, detectors: Detectors, domains: DomainTable) {
    var nonSpam := NonSpam(all, SpamTest(detectors));
    RankConflict(nonSpam, BlockedTest(domains), |nonSpam|)
  }

  /*
   `m` is the aggregate of `all`: it has no more entries than results; each
   entry is a non-spam result of `all` filed under its own unblocked domain;
   and each non-spam result of an unblocked domain has its domain in `m`,
   ranked no better than the entry there unless it is that entry.
   */
  ghost predicate AggregatesAll(m: map<Option<string>, SearchResult>, all: seq<SearchResult>,
                                detectors: Detectors, domains: DomainTable) {
    && |m| <= |all|
    && (forall d :: d in m ==>
          && m[d] in all
          && m[d].domain == d
          && !IsSpam(m[d], detectors)
          && !Blacklisted(domains, d))
    && (forall x :: x in all && !IsSpam(x, detectors) && !Blacklisted(domains, x.domain) ==>
          && x.domain in m
          && (x != m[x.domain] ==>
                && x.rankPosition.Some? && m[x.domain].rankPosition.Some?
                && m[x.domain].rankPosition.value <= x.rankPosition.value))
  }

  /*
   aggregateResults: all provider results in the map's iteration order,
   the spam filtered out, then deduplicated by domain. An empty input
   returns at once with nothing.
   */
  method AggregateResults(providerResults: map<SearchEngineType, seq<SearchResult>>, order: seq<SearchEngineType>,
                          detectors: Detectors, domains: DomainTable)
    returns (r: Result<map<Option<string>, SearchResult>>)
    ensures Flatten(providerResults, order) == [] ==> r == Ok(map[])
    ensures r.Fail? <==> ConflictIn(Flatten(providerResults, order), detectors, domains)
    ensures r.Fail? ==> r.error == RankNpe
    ensures r.Ok? ==> AggregatesAll(r.value, Flatten(providerResults, order), detectors, domains)
  {
    var all := Flatten(providerResults, order);
    var spam := SpamTest(detectors);
    var blocked := BlockedTest(domains);
    if all == [] {
      assert NonSpam(all, spam) == [];
      return Ok(map[]);
    }
    var nonSpam := NonSpam(all, spam);
    ghost var kept;
    r, kept := DeduplicateByDomain(nonSpam, blocked);
    if r.Ok? {
      AggregateMeaning(all, nonSpam, spam, blocked, r.value, kept);
    }
  }

  /* What the deduplicated map says about the unfiltered results. */
  lemma AggregateMeaning(all: seq<SearchResult>, nonSpam: seq<SearchResult>, spam: SearchResult -> bool,
                         blocked: Option<string> -> bool, m: map<Option<string>, SearchResult>,
                         kept: map<Option<string>, int>)
    requires nonSpam == NonSpam(all, spam)
    requires DedupedUpTo(nonSpam, blocked, |nonSpam|, m, kept)
    ensures |m| <= |all|
    ensures forall d :: d in m ==> m[d] in all && m[d].domain == d && !spam(m[d]) && !blocked(d)
    ensures forall x :: x in all && !spam(x) && !blocked(x.domain) ==>
      && x.domain in m
      && (x != m[x.domain] ==>
            && x.rankPosition.Some? && m[x.domain].rankPosition.Some?
            && m[x.domain].rankPosition.value <= x.rankPosition.value)
  {
    EntriesComeFromInput(all, nonSpam, spam, blocked, m, kept);
    DomainsAtMostResults(nonSpam, m.Keys);
    forall x | x in all && !spam(x) && !blocked(x.domain)
      ensures x.domain in m
      ensures x != m[x.domain] ==>
            && x.rankPosition.Some? && m[x.domain].rankPosition.Some?
            && m[x.domain].rankPosition.value <= x.rankPosition.value
    {
      assert x in nonSpam;
      var j :| 0 <= j < |nonSpam| && nonSpam[j] == x;
      KeptBeatsOthers(nonSpam, blocked, m, kept, j);
    }
  }

  /* Every entry is a non-spam result of its own, unblocked domain. */
  lemma EntriesComeFromInput(all: seq<SearchResult>, nonSpam: seq<SearchResult>, spam: SearchResult -> bool,
                             blocked: Option<string> -> bool, m: map<Option<string>, SearchResult>,
                             kept: map<Option<string>, int>)
    requires nonSpam == NonSpam(all, spam)
    requires KeptAll(nonSpam, blocked, |nonSpam|, m, kept)
    ensures forall d :: d in m ==> exists i :: 0 <= i < |nonSpam| && nonSpam[i].domain == d
    ensures forall d :: d in m ==> m[d] in all && m[d].domain == d && !spam(m[d]) && !blocked(d)
  {
    forall d | d in m
      ensures exists i :: 0 <= i < |nonSpam| && nonSpam[i].domain == d
      ensures m[d] in all && m[d].domain == d && !spam(m[d]) && !blocked(d)
    {
      var w := kept[d];
      assert nonSpam[w] in nonSpam;
    }
  }

  /* A counted result is in the map under its domain, and ranks no better than the entry there unless it is that entry. */
  lemma KeptBeatsOthers(ys: seq<SearchResult>, blocked: Option<string> -> bool, m: map<Option<string>, SearchResult>,
                        kept: map<Option<string>, int>, j: int)
    requires DedupedUpTo(ys, blocked, |ys|, m, kept) && Counts(ys, blocked, j)
    ensures ys[j].domain in m
    ensures ys[j] != m[ys[j].domain] ==>
      && ys[j].rankPosition.Some? && m[ys[j].domain].rankPosition.Some?
      && m[ys[j].domain].rankPosition.value <= ys[j].rankPosition.value
  {
    var w := kept[ys[j].domain];
    assert KeptFor(ys, blocked, |ys|, ys[j].domain, w);
  }

  // ---------------------------------------------------------------------
  // Statistics and the run's outcome
  // ---------------------------------------------------------------------

  datatype SessionStatistics = SessionStatistics(
    totalResultsFound: int,
    newDomainsDiscovered: int,
    duplicateDomainsSkipped: int,
    spamResultsFiltered: int,
    braveSearchResults: int,
    searxngResults: int,
    serperResults: int,
    tavilyResults: int)

  /* The four per-provider counts added up. */
  function RawTotal(s: SessionStatistics): int {
    s.braveSearchResults + s.searxngResults + s.serperResults + s.tavilyResults
  }

  /*
   calculateStatistics: the aggregate's size is both the results found and
   the new domains, no duplicate is counted, and whatever the raw results
   lost on the way to the aggregate is booked as spam.
   */
  function CalculateStatistics(successes: map<SearchEngineType, seq<SearchResult>>, aggregatedSize: nat): (s: SessionStatistics)
    ensures s.totalResultsFound == aggregatedSize && s.newDomainsDiscovered == aggregatedSize
    ensures s.duplicateDomainsSkipped == 0
    ensures s.braveSearchResults == CountOf(successes, BRAVE) && s.searxngResults == CountOf(successes, SEARXNG)
    ensures s.serperResults == CountOf(successes, SERPER) && s.tavilyResults == CountOf(successes, TAVILY)
    ensures s.totalResultsFound + s.spamResultsFiltered == RawTotal(s)
  {
    var brave := CountOf(successes, BRAVE);
    var searxng := CountOf(successes, SEARXNG);
    var serper := CountOf(successes, SERPER);
    var tavily := CountOf(successes, TAVILY);
    SessionStatistics(aggregatedSize, aggregatedSize, 0, brave + searxng + serper + tavily - aggregatedSize,
                      brave, searxng, serper, tavily)
  }

  /* The counts of the listed engines, each engine counted once whatever its place in the list. */
  function Listed(m: map<SearchEngineType, seq<SearchResult>>, order: seq<SearchEngineType>): nat {
    (if BRAVE in order then CountOf(m, BRAVE) else 0) + (if SEARXNG in order then CountOf(m, SEARXNG) else 0)
    + (if SERPER in order then CountOf(m, SERPER) else 0) + (if TAVILY in order then CountOf(m, TAVILY) else 0)
    + (if PERPLEXICA in order then CountOf(m, PERPLEXICA) else 0)
  }

  /* Listing each engine at most once, the running total is the same whatever the order. */
  lemma {:induction false} TotalIsListed(m: map<SearchEngineType, seq<SearchResult>>, order: seq<SearchEngineType>)
    requires forall i, j :: 0 <= i < j < |order| ==> order[i] != order[j]
    ensures Total(m, order) == Listed(m, order)
    decreases |order|
  {
    if order != [] {
      var rest := order[1..];
      assert forall i, j :: 0 <= i < j < |rest| ==> rest[i] != rest[j] by {
        forall i, j | 0 <= i < j < |rest| ensures rest[i] != rest[j] {
          assert rest[i] == order[i + 1] && rest[j] == order[j + 1];
        }
      }
      TotalIsListed(m, rest);
      forall k | 0 <= k < |rest|
        ensures rest[k] != order[0]
      {
        assert rest[k] == order[k + 1];
      }
      assert order == [order[0]] + rest;
      ListedCons(m, order[0], rest);
    }
  }

  /* Listing one more engine adds its count. */
  lemma ListedCons(m: map<SearchEngineType, seq<SearchResult>>, e: SearchEngineType, rest: seq<SearchEngineType>)
    requires e !in rest
    ensures Listed(m, [e] + rest) == CountOf(m, e) + Listed(m, rest)
  {
    var order := [e] + rest;
    assert forall x :: x in order <==> x == e || x in rest;
  }

  /* The map's iteration order lists each of its keys exactly once. */
  ghost predicate IterationOrder(m: map<SearchEngineType, seq<SearchResult>>, order: seq<SearchEngineType>) {
    && (forall p :: p in m <==> p in order)
    && (forall i, j :: 0 <= i < j < |order| ==> order[i] != order[j])
  }

  /*
   The raw counts are the flattened results when every provider is one of
   the four the orchestrator queries; so after a successful aggregation the
   spam count is never negative, and it counts every raw result that did
   not become its domain's kept result: the spam, the blacklisted and the
   duplicates alike.
   */
  lemma SpamCountIsWhatAggregationDropped(m: map<SearchEngineType, seq<SearchResult>>, order: seq<SearchEngineType>,
                                          aggregatedSize: nat)
    requires IterationOrder(m, order)
    requires PERPLEXICA !in m
    requires aggregatedSize <= |Flatten(m, order)|
    ensures RawTotal(CalculateStatistics(m, aggregatedSize)) == |Flatten(m, order)|
    ensures CalculateStatistics(m, aggregatedSize).spamResultsFiltered == |Flatten(m, order)| - aggregatedSize >= 0
  {
    TotalIsListed(m, order);
  }

  /* The result of one run: the aggregate keyed by domain, the providers' errors, the statistics. */
  datatype SearchExecutionResult = SearchExecutionResult(
    successfulResults: map<Option<string>, SearchResult>,
    providerErrors: seq<ProviderError>,
    statistics: SessionStatistics)

  /* No provider failed. */
  predicate IsFullSuccess(r: SearchExecutionResult) {
    r.providerErrors == []
  }

  /* Some provider failed, yet results came through. */
  predicate IsPartialSuccess(r: SearchExecutionResult) {
    r.providerErrors != [] && r.successfulResults != map[]
  }

  /* Providers failed and nothing came through. */
  predicate IsCompleteFailure(r: SearchExecutionResult) {
    r.providerErrors != [] && r.successfulResults == map[]
  }

  /* Java's text for a possibly null string. */
  function NullableText(s: Option<string>): string {
    match s
    case Some(v) => v
    case None => "null"
  }

  /* The record's toString; the clock's rendering of the timestamp is a parameter. */
  function ProviderErrorText(e: ProviderError, stamp: Instant -> string): string {
    "ProviderError[provider=" + EngineName(e.provider) + ", errorMessage=" + NullableText(e.errorMessage)
      + ", errorType=" + ErrorTypeName(e.errorType) + ", timestamp=" + stamp(e.timestamp)
      + ", query=" + e.query + "]"
  }

  function ErrorItems(es: seq<ProviderError>, stamp: Instant -> string): string {
    if es == [] then ""
    else if |es| == 1 then ProviderErrorText(es[0], stamp)
    else ProviderErrorText(es[0], stamp) + ", " + ErrorItems(es[1..], stamp)
  }

  /* The list's toString: its items between brackets, separated by ", ". */
  function ErrorListText(es: seq<ProviderError>, stamp: Instant -> string): string {
    "[" + ErrorItems(es, stamp) + "]"
  }

  function AllFailed(errors: seq<ProviderError>, stamp: Instant -> string): Exception {
    Runtime("All search providers failed: " + ErrorListText(errors, stamp))
  }

  /* The iteration order of a map holding some of the providers: the full order restricted to its keys. */
  function Restrict(order: seq<SearchEngineType>, m: map<SearchEngineType, seq<SearchResult>>): (r: seq<SearchEngineType>)
    ensures forall p :: p in r <==> p in order && p in m
    ensures (forall i, j :: 0 <= i < j < |order| ==> order[i] != order[j]) ==>
              forall i, j :: 0 <= i < j < |r| ==> r[i] != r[j]
  {
    if order == [] then []
    else
      var rest := Restrict(order[1..], m);
      assert forall i :: 0 <= i < |order| - 1 ==> order[1..][i] == order[i + 1];
      if order[0] in m then [order[0]] + rest else rest
  }

  /* Restricting a repetition-free order that lists every key gives the map's iteration order. */
  lemma RestrictIsIterationOrder(order: seq<SearchEngineType>, m: map<SearchEngineType, seq<SearchResult>>)
    requires forall i, j :: 0 <= i < j < |order| ==> order[i] != order[j]
    requires forall p :: p in m ==> p in order
    ensures IterationOrder(m, Restrict(order, m))
  {
  }

  /* The spam count is never negative when the aggregate, taken in hash order, is no larger than the raw results. */
  lemma SpamCountInHashOrder(successes: map<SearchEngineType, seq<SearchResult>>, hashOrder: seq<SearchEngineType>,
                             aggregatedSize: nat)
    requires forall i, j :: 0 <= i < j < |hashOrder| ==> hashOrder[i] != hashOrder[j]
    requires forall p :: p in successes ==> p in hashOrder
    requires PERPLEXICA !in successes
    requires aggregatedSize <= |Flatten(successes, Restrict(hashOrder, successes))|
    ensures CalculateStatistics(successes, aggregatedSize).spamResultsFiltered >= 0
  {
    RestrictIsIterationOrder(hashOrder, successes);
    SpamCountIsWhatAggregationDropped(successes, Restrict(hashOrder, successes), aggregatedSize);
  }

  /* The run's answers come in the fixed provider order; PERPLEXICA is never asked. */
  lemma AnswersInOrder(keywordQuery: string, aiOptimizedQuery: string, search: (SearchEngineType, string) -> Outcome,
                       now: Instant)
    ensures var answers := Answers(Orchestrated, keywordQuery, aiOptimizedQuery, search, now);
      |answers| == 4 && forall k :: 0 <= k < 4 ==> answers[k].provider == Orchestrated[k] && answers[k].provider != PERPLEXICA
  {
  }

  /* The run has a success exactly when some provider answered, and then fewer than four errors. */
  lemma RunSuccesses(keywordQuery: string, aiOptimizedQuery: string, search: (SearchEngineType, string) -> Outcome,
                     now: Instant)
    ensures var answers := Answers(Orchestrated, keywordQuery, aiOptimizedQuery, search, now);
      && PERPLEXICA !in Successes(answers)
      && (Successes(answers) == map[] <==> forall i :: 0 <= i < 4 ==> answers[i].error.Some?)
      && (Successes(answers) != map[] ==> |Errors(answers)| < 4)
  {
    var answers := Answers(Orchestrated, keywordQuery, aiOptimizedQuery, search, now);
    var successes := Successes(answers);
    AnswersInOrder(keywordQuery, aiOptimizedQuery, search, now);
    if successes != map[] {
      var p :| p in successes;
      var k :| 0 <= k < |answers| && answers[k].provider == p && answers[k].error.None?;
      FewerErrorsThanAnswers(answers, k);
    } else {
      forall i | 0 <= i < 4
        ensures answers[i].error.Some?
      {
        assert answers[i].provider !in successes;
      }
    }
  }

  /* Each recorded error is the classified failure of a provider that was asked its own query. */
  lemma RunErrors(keywordQuery: string, aiOptimizedQuery: string, search: (SearchEngineType, string) -> Outcome,
                  now: Instant)
    ensures forall e :: e in Errors(Answers(Orchestrated, keywordQuery, aiOptimizedQuery, search, now)) ==>
      && e.provider in Orchestrated && search(e.provider, e.query).Threw?
      && e.query == QueryFor(e.provider, keywordQuery, aiOptimizedQuery)
      && e.errorType == ClassifyErrorType(search(e.provider, e.query).error)
  {
    var answers := Answers(Orchestrated, keywordQuery, aiOptimizedQuery, search, now);
    forall e | e in Errors(answers)
      ensures e.provider in Orchestrated && search(e.provider, e.query).Threw?
      ensures e.query == QueryFor(e.provider, keywordQuery, aiOptimizedQuery)
      ensures e.errorType == ClassifyErrorType(search(e.provider, e.query).error)
    {
      var i :| 0 <= i < |answers| && answers[i].error == Some(e);
      assert Orchestrated[i] in Orchestrated;
    }
  }

  /*
   executeMultiProviderSearch: every orchestrated provider is asked; the
   run fails when none succeeded, and otherwise aggregates the successful
   answers, its statistics counting them. An exception the aggregation
   throws is returned as the run's failure. `hashOrder` is the order in
   which a hash map keyed by provider iterates; it lists every provider once.
   */
  method ExecuteMultiProviderSearch(keywordQuery: string, aiOptimizedQuery: string,
                                    search: (SearchEngineType, string) -> Outcome, now: Instant,
                                    stamp: Instant -> string, hashOrder: seq<SearchEngineType>,
                                    detectors: Detectors, domains: DomainTable)
    returns (r: Result<SearchExecutionResult>)
    requires forall i, j :: 0 <= i < j < |hashOrder| ==> hashOrder[i] != hashOrder[j]
    requires forall p :: p in Orchestrated ==> p in hashOrder
    ensures var answers := Answers(Orchestrated, keywordQuery, aiOptimizedQuery, search, now);
      var successes := Successes(answers);
      var all := Flatten(successes, Restrict(hashOrder, successes));
      && ((forall i :: 0 <= i < 4 ==> answers[i].error.Some?) ==> r == Fail(AllFailed(Errors(answers), stamp)))
      && (successes != map[] ==> (r.Fail? <==> ConflictIn(all, detectors, domains)))
      && (successes != map[] && r.Fail? ==> r.error == RankNpe)
    ensures r.Ok? ==>
      var answers := Answers(Orchestrated, keywordQuery, aiOptimizedQuery, search, now);
      var successes := Successes(answers);
      && successes != map[]
      && AggregatesAll(r.value.successfulResults, Flatten(successes, Restrict(hashOrder, successes)), detectors, domains)
      && r.value.providerErrors == Errors(answers) && |r.value.providerErrors| < 4
      && r.value.statistics == CalculateStatistics(successes, |r.value.successfulResults|)
      && r.value.statistics.spamResultsFiltered >= 0
      && (forall e :: e in r.value.providerErrors ==>
            && e.provider in Orchestrated && search(e.provider, e.query).Threw?
            && e.query == QueryFor(e.provider, keywordQuery, aiOptimizedQuery)
            && e.errorType == ClassifyErrorType(search(e.provider, e.query).error))
  {
    var answers := Answers(Orchestrated, keywordQuery, aiOptimizedQuery, search, now);
    var successes := Successes(answers);
    var errors := Errors(answers);
    RunSuccesses(keywordQuery, aiOptimizedQuery, search, now);
    RunErrors(keywordQuery, aiOptimizedQuery, search, now);
    if successes == map[] {
      return Fail(AllFailed(errors, stamp));
    }
    var aggregate := AggregateAndCount(successes, hashOrder, detectors, domains);
    if aggregate.Fail? {
      return Fail(aggregate.error);
    }
    return Ok(SearchExecutionResult(aggregate.value.0, errors, aggregate.value.1));
  }

  /* Steps 2 and 3 of the run: aggregate the successes in hash order and count what came through. */
  method AggregateAndCount(successes: map<SearchEngineType, seq<SearchResult>>, hashOrder: seq<SearchEngineType>,
                           detectors: Detectors, domains: DomainTable)
    returns (r: Result<(map<Option<string>, SearchResult>, SessionStatistics)>)
    requires forall i, j :: 0 <= i < j < |hashOrder| ==> hashOrder[i] != hashOrder[j]
    requires forall p :: p in successes ==> p in hashOrder
    requires PERPLEXICA !in successes
    ensures r.Fail? <==> ConflictIn(Flatten(successes, Restrict(hashOrder, successes)), detectors, domains)
    ensures r.Fail? ==> r.error == RankNpe
    ensures r.Ok? ==> AggregatesAll(r.value.0, Flatten(successes, Restrict(hashOrder, successes)), detectors, domains)
    ensures r.Ok? ==> r.value.1 == CalculateStatistics(successes, |r.value.0|) && r.value.1.spamResultsFiltered >= 0
  {
    var order := Restrict(hashOrder, successes);
    var aggregate := AggregateResults(successes, order, detectors, domains);
    if aggregate.Fail? {
      return Fail(aggregate.error);
    }
    SpamCountInHashOrder(successes, hashOrder, |aggregate.value|);
    return Ok((aggregate.value, CalculateStatistics(successes, |aggregate.value|)));
  }

  // ---------------------------------------------------------------------
  // Finishing the session
  // ---------------------------------------------------------------------

  /* FAILED when nothing came through and providers failed; COMPLETED otherwise, a partial success included. */
  function SessionStatusFor(r: SearchExecutionResult): (s: Sessions.SessionStatus)
    ensures s == Sessions.FAILED <==> IsCompleteFailure(r)
    ensures s == Sessions.COMPLETED <==> IsFullSuccess(r) || IsPartialSuccess(r)
  {
    if IsFullSuccess(r) then Sessions.COMPLETED
    else if IsCompleteFailure(r) then Sessions.FAILED
    else Sessions.COMPLETED
  }

  function SessionNotFound(id: Uuid): Exception {
    Runtime("DiscoverySession not found: " + Digits(id))
  }

  /*
   updateSessionStatistics as written: the counts and the completion time
   are set on the loaded session, which is then dropped; the status update
   reloads the stored session and saves only the status and its time.
   */
  function UpdateSessionStatisticsAsWritten(t: Sessions.SessionTable, id: Uuid, result: SearchExecutionResult,
                                            now: Instant): (r: Result<(Sessions.SessionTable, Sessions.DiscoverySession)>)
    ensures r.Fail? <==> id !in t
    ensures r.Fail? ==> r.error == SessionNotFound(id)
    ensures r.Ok? ==>
      && id in r.value.0
      && r.value.1 == r.value.0[id]
      && r.value.1.status == Some(SessionStatusFor(result))
      && r.value.1.candidatesFound == t[id].candidatesFound
      && r.value.1.duplicatesDetected == t[id].duplicatesDetected
  {
    if id !in t then Fail(SessionNotFound(id))
    else
      var stats := result.statistics;
      var detached := t[id].(candidatesFound := stats.totalResultsFound,
                             duplicatesDetected := stats.duplicateDomainsSkipped, completedAt := Some(now));
      var saved := Sessions.UpdateStatus(t, id, Some(SessionStatusFor(result)), now);
      Ok((saved.value, saved.value[id]))
  }

  /* A run that found one result leaves a fresh session still showing no candidates found. */
  lemma CountsAreLost(now: Instant)
    ensures UpdateSessionStatisticsAsWritten(map[7 := Sessions.NewSession(now)], 7, OneResultRun(), now).Ok?
    ensures OneResultRun().statistics.totalResultsFound == 1
    ensures UpdateSessionStatisticsAsWritten(map[7 := Sessions.NewSession(now)], 7, OneResultRun(), now).value.1.candidatesFound == 0
  {
    var t := map[7 := Sessions.NewSession(now)];
    assert t[7].candidatesFound == 0;
  }

  /* A run with a single result, from a provider that returned that one result, and no errors. */
  function OneResultRun(): SearchExecutionResult {
    var x := SearchResult(None, None, None, None, None, None, None, None, None, None, None, Some(1), None, None, None,
                          None, None, None, None, None, None, None, None);
    SearchExecutionResult(map[x.domain := x], [], CalculateStatistics(map[BRAVE := [x]], 1))
  }

  /*
   updateSessionStatistics as intended: the counts are stored with the
   session, and the status update then finishes it.
   */
  function UpdateSessionStatistics(t: Sessions.SessionTable, id: Uuid, result: SearchExecutionResult,
                                   now: Instant): (r: Result<(Sessions.SessionTable, Sessions.DiscoverySession)>)
    ensures r.Fail? <==> id !in t
    ensures r.Fail? ==> r.error == SessionNotFound(id)
    ensures r.Ok? ==>
      && OnlyRecordChanged(t, r.value.0, id)
      && r.value.1 == r.value.0[id]
      && r.value.1.candidatesFound == result.statistics.totalResultsFound
      && r.value.1.duplicatesDetected == result.statistics.duplicateDomainsSkipped
      && r.value.1.status == Some(SessionStatusFor(result))
      && r.value.1.completedAt == Some(now)
      && r.value.1.(candidatesFound := t[id].candidatesFound, duplicatesDetected := t[id].duplicatesDetected,
                    status := t[id].status, completedAt := t[id].completedAt) == t[id]
  {
    if id !in t then Fail(SessionNotFound(id))
    else
      var stats := result.statistics;
      var counted := t[id := t[id].(candidatesFound := stats.totalResultsFound,
                                    duplicatesDetected := stats.duplicateDomainsSkipped)];
      var saved := Sessions.UpdateStatus(counted, id, Some(SessionStatusFor(result)), now);
      Ok((saved.value, saved.value[id]))
  }

  /*
   The intended update differs from the written one exactly in the counts,
   and keeps the sessions' lifecycle invariant.
   */
  lemma IntendedUpdateKeepsCounts(t: Sessions.SessionTable, id: Uuid, result: SearchExecutionResult, now: Instant)
    requires id in t
    ensures var written := UpdateSessionStatisticsAsWritten(t, id, result, now).value.1;
      var intended := UpdateSessionStatistics(t, id, result, now).value.1;
      intended == written.(candidatesFound := result.statistics.totalResultsFound,
                           duplicatesDetected := result.statistics.duplicateDomainsSkipped)
    ensures Sessions.Stamped(t) ==> Sessions.Stamped(UpdateSessionStatistics(t, id, result, now).value.0)
  {
    var status := Some(SessionStatusFor(result));
    assert Sessions.IsFinished(status);
    var written := Sessions.UpdateStatus(t, id, status, now).value;
    assert written[id] == t[id].(status := status, completedAt := Some(now));
    if Sessions.Stamped(t) {
      var t' := UpdateSessionStatistics(t, id, result, now).value.0;
      forall k | k in t' && Sessions.IsFinished(t'[k].status)
        ensures t'[k].completedAt.Some?
      {
        if k != id { assert t'[k] == t[k]; }
      }
    }
  }
}
