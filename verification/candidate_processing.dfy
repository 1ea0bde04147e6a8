/**
 The first phase of the two-phase pipeline: each search result is checked
 against the domain registry, its domain is registered, its metadata is
 judged, and a confident result becomes a PENDING_CRAWL candidate while a
 weak one only counts against its domain. The per-result outcomes are then
 summarised in processing statistics.
 */
module CandidateProcessing {
  import opened Wrappers
  import opened Time
  import opened Store
  import opened Decimal
  import opened Candidates
  import opened Domains
  import DomainCredibility
  import DomainRegistry
  import MetadataJudging

  datatype ResultStatus = CANDIDATE_CREATED | SKIPPED_LOW_CONFIDENCE | SKIPPED_DOMAIN | FAILED

  /* The outcome of one search result; the message is the domain name or the error text. */
  datatype ProcessingResult = ProcessingResult(
    url: Option<string>,
    status: ResultStatus,
    candidateId: Option<Uuid>,
    confidenceScore: Option<int>,
    message: Option<string>)

  /* One search result: what the engine returned, the query that found it, and how its URL parses. */
  datatype Incoming = Incoming(hit: MetadataJudging.SearchHit, searchQuery: Option<string>, uri: DomainCredibility.UriParse)

  /* The two tables the phase writes. */
  datatype World = World(domains: DomainTable, candidates: CandidateTable)

  /* createCandidate: the new candidate, awaiting its crawl. */
  function CreateCandidate(r: Incoming, j: MetadataJudging.MetadataJudgment, domainId: Option<Uuid>,
                           sessionId: Option<Uuid>, now: Instant): FundingSourceCandidate
  {
    Blank.(status := Some(PENDING_CRAWL), confidenceScore := Some(j.confidenceScore), domainId := domainId,
           discoverySessionId := sessionId, discoveredAt := Some(now), lastUpdatedAt := Some(now),
           organizationName := Some(j.extractedOrganizationName), programName := Some(j.extractedProgramName),
           sourceUrl := r.hit.url, description := r.hit.snippet, discoveryMethod := Some("METADATA_JUDGING"),
           searchQuery := r.searchQuery, validationNotes := Some(j.reasoning))
  }

  /* updateDomainQuality on the registered record's id; a record without one matches nothing. */
  function QualityUpdate(t: DomainTable, d: Domain, score: int, isHighQuality: bool, now: Instant): DomainTable {
    match d.domainId
    case None => t
    case Some(id) => DomainRegistry.UpdateDomainQuality(t, id, score, isHighQuality, now)
  }

  function Failed(url: Option<string>, e: Exception): ProcessingResult {
    ProcessingResult(url, FAILED, None, None, Some(e.message))
  }

  /*
   processSearchResult. `domainId` and `candidateId` are the ids the
   database would give a new domain and a new candidate.
   */
  function ProcessSearchResult(w: World, r: Incoming, sessionId: Option<Uuid>, now: Instant, currentYear: int,
                               domainId: Uuid, candidateId: Uuid): (out: (World, ProcessingResult))
    ensures out.1.url == r.hit.url
    ensures out.1.status == CANDIDATE_CREATED ==>
      out.1.confidenceScore.Some? && MetadataJudging.CrawlThreshold <= out.1.confidenceScore.value <= 100
    ensures out.1.status == ResultStatus.SKIPPED_LOW_CONFIDENCE ==>
      out.1.confidenceScore.Some? && 0 <= out.1.confidenceScore.value < MetadataJudging.CrawlThreshold
  {
    var url := r.hit.url;
    if !DomainRegistry.ShouldProcessDomain(w.domains, url, r.uri, now, currentYear) then
      var name := DomainRegistry.ExtractDomainName(url, r.uri).GetOr("unknown");
      (w, ProcessingResult(url, SKIPPED_DOMAIN, None, None, Some(name)))
    else match DomainRegistry.RegisterDomainFromUrl(w.domains, url, r.uri, sessionId, now, domainId)
      case Fail(e) => (w, Failed(url, e))
      case Ok(reg) =>
        var (domains, domain) := reg;
        match MetadataJudging.JudgeSearchResult(r.hit, r.uri)
        case Fail(e) => (World(domains, w.candidates), Failed(url, e))
        case Ok(j) => Judged(w, r, domains, domain, j, sessionId, now, candidateId)
  }

  /* The tail of processSearchResult once the judges have spoken. */
  function Judged(w: World, r: Incoming, domains: DomainTable, domain: Domain, j: MetadataJudging.MetadataJudgment,
                  sessionId: Option<Uuid>, now: Instant, candidateId: Uuid): (out: (World, ProcessingResult))
    ensures out.1.status in {CANDIDATE_CREATED, ResultStatus.SKIPPED_LOW_CONFIDENCE}
    ensures out.1.url == r.hit.url && out.1.confidenceScore == Some(j.confidenceScore)
    ensures out.1.status == CANDIDATE_CREATED <==> j.shouldCrawl
    ensures out.0.domains == QualityUpdate(domains, domain, j.confidenceScore, j.shouldCrawl, now)
  {
    if j.shouldCrawl then
      var c := CreateCandidate(r, j, domain.domainId, sessionId, now).(candidateId := Some(candidateId));
      var domains' := QualityUpdate(domains, domain, j.confidenceScore, true, now);
      (World(domains', w.candidates[candidateId := c]),
       ProcessingResult(r.hit.url, CANDIDATE_CREATED, Some(candidateId), Some(j.confidenceScore), None))
    else
      var domains' := QualityUpdate(domains, domain, j.confidenceScore, false, now);
      (World(domains', w.candidates), ProcessingResult(r.hit.url, ResultStatus.SKIPPED_LOW_CONFIDENCE, None, Some(j.confidenceScore), None))
  }

  /* A domain the registry holds back is skipped, and a URL without a host fails; neither changes anything. */
  lemma SkippedOrFailedOutcome(w: World, r: Incoming, sessionId: Option<Uuid>, now: Instant, currentYear: int,
                               domainId: Uuid, candidateId: Uuid)
    ensures var out := ProcessSearchResult(w, r, sessionId, now, currentYear, domainId, candidateId);
      && (out.1.status == SKIPPED_DOMAIN <==> !DomainRegistry.ShouldProcessDomain(w.domains, r.hit.url, r.uri, now, currentYear))
      && (out.1.status == SKIPPED_DOMAIN ==>
            out.0 == w && out.1.message == Some(DomainRegistry.ExtractDomainName(r.hit.url, r.uri).GetOr("unknown")))
      && (out.1.status == FAILED <==>
            DomainRegistry.ShouldProcessDomain(w.domains, r.hit.url, r.uri, now, currentYear) &&
            DomainRegistry.ExtractDomainName(r.hit.url, r.uri).Fail?)
      && (out.1.status == FAILED ==>
            out.0 == w && out.1.message == Some(DomainRegistry.ExtractDomainName(r.hit.url, r.uri).error.message))
  {
  }

  /* A judged result has its domain registered and its quality recorded; it is created exactly when the judges say crawl. */
  lemma JudgedOutcome(w: World, r: Incoming, sessionId: Option<Uuid>, now: Instant, currentYear: int,
                      domainId: Uuid, candidateId: Uuid)
    ensures var out := ProcessSearchResult(w, r, sessionId, now, currentYear, domainId, candidateId);
      out.1.status in {CANDIDATE_CREATED, ResultStatus.SKIPPED_LOW_CONFIDENCE} ==>
      && DomainRegistry.RegisterDomainFromUrl(w.domains, r.hit.url, r.uri, sessionId, now, domainId).Ok?
      && MetadataJudging.JudgeSearchResult(r.hit, r.uri).Ok?
      && var reg := DomainRegistry.RegisterDomainFromUrl(w.domains, r.hit.url, r.uri, sessionId, now, domainId).value;
         var j := MetadataJudging.JudgeSearchResult(r.hit, r.uri).value;
         && out.1.confidenceScore == Some(j.confidenceScore)
         && (out.1.status == CANDIDATE_CREATED <==> j.shouldCrawl)
         && out.0.domains == QualityUpdate(reg.0, reg.1, j.confidenceScore, j.shouldCrawl, now)
  {
  }

  /* A created result adds one PENDING_CRAWL candidate under the new id; a weak one adds none. */
  lemma CandidateOutcome(w: World, r: Incoming, sessionId: Option<Uuid>, now: Instant, currentYear: int,
                         domainId: Uuid, candidateId: Uuid)
    ensures var out := ProcessSearchResult(w, r, sessionId, now, currentYear, domainId, candidateId);
      && (out.1.status == CANDIDATE_CREATED ==> candidateId in out.0.candidates)
      && (out.1.status == CANDIDATE_CREATED ==>
            var c := out.0.candidates[candidateId];
            && out.1.candidateId == Some(candidateId)
            && out.0.candidates == w.candidates[candidateId := c]
            && c.status == Some(PENDING_CRAWL) && c.candidateId == Some(candidateId)
            && c.confidenceScore == out.1.confidenceScore
            && c.sourceUrl == r.hit.url && c.discoverySessionId == sessionId && c.discoveredAt == Some(now)
            && c.validationNotes == Some(MetadataJudging.JudgeSearchResult(r.hit, r.uri).value.reasoning)
            && c.domainId == DomainRegistry.RegisterDomainFromUrl(w.domains, r.hit.url, r.uri, sessionId, now, domainId).value.1.domainId)
      && (out.1.status == ResultStatus.SKIPPED_LOW_CONFIDENCE ==> out.0.candidates == w.candidates && out.1.candidateId.None?)
  {
    var reg := DomainRegistry.RegisterDomainFromUrl(w.domains, r.hit.url, r.uri, sessionId, now, domainId);
    var judged := MetadataJudging.JudgeSearchResult(r.hit, r.uri);
    if DomainRegistry.ShouldProcessDomain(w.domains, r.hit.url, r.uri, now, currentYear) && reg.Ok? && judged.Ok?
       && judged.value.shouldCrawl {
      var c := CreateCandidate(r, judged.value, reg.value.1.domainId, sessionId, now).(candidateId := Some(candidateId));
      var out := ProcessSearchResult(w, r, sessionId, now, currentYear, domainId, candidateId);
      assert out.0.candidates == w.candidates[candidateId := c];
    }
  }

  /* Every domain record is stored under its own id. */
  predicate Keyed(t: DomainTable) {
    forall id :: id in t ==> t[id].domainId == Some(id)
  }

  /*
   Domain deduplication only holds back weak domains: once a result from a
   domain has produced a candidate, the next result from it is processed
   again.
   */
  lemma CreatedDomainIsProcessedAgain(w: World, r: Incoming, sessionId: Option<Uuid>, now: Instant, later: Instant,
                                      currentYear: int, domainId: Uuid, candidateId: Uuid)
    requires Keyed(w.domains) && domainId !in w.domains
    requires ProcessSearchResult(w, r, sessionId, now, currentYear, domainId, candidateId).1.status == CANDIDATE_CREATED
    ensures DomainRegistry.ShouldProcessDomain(ProcessSearchResult(w, r, sessionId, now, currentYear, domainId, candidateId).0.domains,
                                               r.hit.url, r.uri, later, currentYear)
  {
    JudgedOutcome(w, r, sessionId, now, currentYear, domainId, candidateId);
    var name := DomainRegistry.ExtractDomainName(r.hit.url, r.uri).value;
    var j := MetadataJudging.JudgeSearchResult(r.hit, r.uri).value;
    HighQualityDomainPasses(w.domains, name, sessionId, now, later, currentYear, domainId, j.confidenceScore);
  }

  /* A domain registered and then marked high quality is not held back at any later time. */
  lemma HighQualityDomainPasses(t: DomainTable, name: string, sessionId: Option<Uuid>, now: Instant, later: Instant,
                                currentYear: int, domainId: Uuid, score: int)
    requires Keyed(t) && domainId !in t
    ensures var reg := DomainRegistry.RegisterDomain(t, name, sessionId, now, domainId);
      DomainRegistry.ShouldProcessDomainByName(QualityUpdate(reg.0, reg.1, score, true, now), name, later, currentYear)
  {
    var reg := DomainRegistry.RegisterDomain(t, name, sessionId, now, domainId);
    var id := reg.1.domainId.value;
    assert id in reg.0 && reg.0[id] == reg.1;
    var u := DomainRegistry.UpdateDomainQuality(reg.0, id, score, true, now);
    assert FindByName(reg.0, name) == Some(id) by {
      if FindByName(t, name).None? {
        FindByNameAfterSave(t, name, domainId, reg.1);
      }
    }
    FindByNameAfterSave(reg.0, name, id, u[id]);
    assert u == reg.0[id := u[id]];
  }

  /*
   processSearchResults, serialised: the results are handled one after
   another in list order, the i-th result reporting the i-th URL, and the
   first one judged against the unchanged world.
   */
  function ProcessAll(w: World, rs: seq<Incoming>, sessionId: Option<Uuid>, now: Instant, currentYear: int,
                      domainIds: seq<Uuid>, candidateIds: seq<Uuid>): (out: (World, seq<ProcessingResult>))
    requires |domainIds| == |rs| && |candidateIds| == |rs|
    ensures |out.1| == |rs|
    ensures forall i :: 0 <= i < |rs| ==> out.1[i].url == rs[i].hit.url
    ensures rs != [] ==>
      out.1[0] == ProcessSearchResult(w, rs[0], sessionId, now, currentYear, domainIds[0], candidateIds[0]).1
    decreases |rs|
  {
    if rs == [] then (w, [])
    else
      var first := ProcessSearchResult(w, rs[0], sessionId, now, currentYear, domainIds[0], candidateIds[0]);
      var rest := ProcessAll(first.0, rs[1..], sessionId, now, currentYear, domainIds[1..], candidateIds[1..]);
      (rest.0, [first.1] + rest.1)
  }

  datatype ProcessingStats = ProcessingStats(
    totalProcessed: int,
    candidatesCreated: int,
    skippedLowConfidence: int,
    skippedDomainAlreadyProcessed: int,
    skippedBlacklisted: int,
    failures: int,
    averageConfidence: Option<int>,
    maxConfidence: Option<int>,
    minConfidence: Option<int>,
    processingTimeMs: int)

  function CountStatus(rs: seq<ProcessingResult>, s: ResultStatus): (n: nat)
    ensures n <= |rs|
  {
    if rs == [] then 0 else (if rs[0].status == s then 1 else 0) + CountStatus(rs[1..], s)
  }

  /* The confidence scores of the created candidates that have one, in order. */
  function CreatedScores(rs: seq<ProcessingResult>): (xs: seq<int>)
    ensures |xs| <= CountStatus(rs, CANDIDATE_CREATED)
  {
    if rs == [] then []
    else
      (if rs[0].status == CANDIDATE_CREATED && rs[0].confidenceScore.Some? then [rs[0].confidenceScore.value] else [])
      + CreatedScores(rs[1..])
  }

  /* A created result with a score contributes its score, and only such results contribute. */
  lemma {:induction false} CreatedScoresMembers(rs: seq<ProcessingResult>, x: int)
    ensures x in CreatedScores(rs) <==>
      exists i :: 0 <= i < |rs| && rs[i].status == CANDIDATE_CREATED && rs[i].confidenceScore == Some(x)
  {
    if rs != [] {
      CreatedScoresMembers(rs[1..], x);
      var head := if rs[0].status == CANDIDATE_CREATED && rs[0].confidenceScore.Some? then [rs[0].confidenceScore.value] else [];
      assert CreatedScores(rs) == head + CreatedScores(rs[1..]);
      if x in CreatedScores(rs[1..]) {
        var i :| 0 <= i < |rs[1..]| && rs[1..][i].status == CANDIDATE_CREATED && rs[1..][i].confidenceScore == Some(x);
        assert rs[i + 1] == rs[1..][i];
      }
      if exists i :: 0 <= i < |rs| && rs[i].status == CANDIDATE_CREATED && rs[i].confidenceScore == Some(x) {
        var i :| 0 <= i < |rs| && rs[i].status == CANDIDATE_CREATED && rs[i].confidenceScore == Some(x);
        if i > 0 {
          assert rs[1..][i - 1] == rs[i];
        }
      }
    }
  }

  function Sum(xs: seq<int>): int {
    if xs == [] then 0 else xs[0] + Sum(xs[1..])
  }

  function Max(xs: seq<int>): (m: int)
    requires xs != []
    ensures m in xs && forall i :: 0 <= i < |xs| ==> xs[i] <= m
  {
    if |xs| == 1 then xs[0]
    else
      var rest := Max(xs[1..]);
      assert forall i :: 1 <= i < |xs| ==> xs[i] == xs[1..][i - 1];
      if xs[0] >= rest then xs[0] else rest
  }

  function Min(xs: seq<int>): (m: int)
    requires xs != []
    ensures m in xs && forall i :: 0 <= i < |xs| ==> m <= xs[i]
  {
    if |xs| == 1 then xs[0]
    else
      var rest := Min(xs[1..]);
      assert forall i :: 1 <= i < |xs| ==> xs[i] == xs[1..][i - 1];
      if xs[0] <= rest then xs[0] else rest
  }

  /* aggregateStats: the counts per outcome, and average, max and min over the created candidates' scores. */
  function AggregateStats(rs: seq<ProcessingResult>, processingTimeMs: int): (st: ProcessingStats)
    ensures st.totalProcessed == |rs| && st.skippedBlacklisted == 0
    ensures st.averageConfidence.None? <==> CreatedScores(rs) == []
    ensures st.maxConfidence.None? <==> CreatedScores(rs) == []
    ensures st.minConfidence.None? <==> CreatedScores(rs) == []
    ensures st.averageConfidence.Some? ==>
      st.averageConfidence.value == RoundHalfUp(Sum(CreatedScores(rs)), |CreatedScores(rs)|)
    ensures st.maxConfidence.Some? ==>
      st.maxConfidence.value in CreatedScores(rs) && forall x :: x in CreatedScores(rs) ==> x <= st.maxConfidence.value
    ensures st.minConfidence.Some? ==>
      st.minConfidence.value in CreatedScores(rs) && forall x :: x in CreatedScores(rs) ==> st.minConfidence.value <= x
  {
    var xs := CreatedScores(rs);
    ProcessingStats(|rs|, CountStatus(rs, CANDIDATE_CREATED), CountStatus(rs, ResultStatus.SKIPPED_LOW_CONFIDENCE),
                    CountStatus(rs, SKIPPED_DOMAIN), 0, CountStatus(rs, FAILED),
                    if xs == [] then None else Some(RoundHalfUp(Sum(xs), |xs|)),
                    if xs == [] then None else Some(Max(xs)),
                    if xs == [] then None else Some(Min(xs)),
                    processingTimeMs)
  }

  /* Every result is counted under exactly one outcome. */
  lemma {:induction false} CountsPartition(rs: seq<ProcessingResult>)
    ensures CountStatus(rs, CANDIDATE_CREATED) + CountStatus(rs, ResultStatus.SKIPPED_LOW_CONFIDENCE)
          + CountStatus(rs, SKIPPED_DOMAIN) + CountStatus(rs, FAILED) == |rs|
  {
    if rs != [] {
      CountsPartition(rs[1..]);
    }
  }

  /* The statistics' counters add up to the number of results. */
  lemma StatsPartition(rs: seq<ProcessingResult>, processingTimeMs: int)
    ensures var st := AggregateStats(rs, processingTimeMs);
      st.candidatesCreated + st.skippedLowConfidence + st.skippedDomainAlreadyProcessed + st.failures == st.totalProcessed
  {
    CountsPartition(rs);
  }

  lemma {:induction false} SumBounds(xs: seq<int>, lo: int, hi: int)
    requires forall i :: 0 <= i < |xs| ==> lo <= xs[i] <= hi
    ensures lo * |xs| <= Sum(xs) <= hi * |xs|
  {
    if xs != [] {
      assert forall i :: 0 <= i < |xs| - 1 ==> xs[1..][i] == xs[i + 1];
      SumBounds(xs[1..], lo, hi);
      assert lo * |xs| == lo * (|xs| - 1) + lo;
      assert hi * |xs| == hi * (|xs| - 1) + hi;
    }
  }

  /* With non-negative scores the average lies between the minimum and the maximum. */
  lemma AverageBetweenMinAndMax(rs: seq<ProcessingResult>, processingTimeMs: int)
    requires forall x :: x in CreatedScores(rs) ==> 0 <= x
    ensures var st := AggregateStats(rs, processingTimeMs);
      st.averageConfidence.Some? ==> st.minConfidence.value <= st.averageConfidence.value <= st.maxConfidence.value
  {
    var xs := CreatedScores(rs);
    if xs != [] {
      SumBounds(xs, Min(xs), Max(xs));
      RoundWithin(Sum(xs), |xs|, Min(xs), Max(xs));
    }
  }

  /* Every processed batch meets that requirement: the judged confidence is never negative. */
  lemma {:induction false} ProcessedScoresInRange(w: World, rs: seq<Incoming>, sessionId: Option<Uuid>, now: Instant,
                                                  currentYear: int, domainIds: seq<Uuid>, candidateIds: seq<Uuid>)
    requires |domainIds| == |rs| && |candidateIds| == |rs|
    ensures forall x :: x in CreatedScores(ProcessAll(w, rs, sessionId, now, currentYear, domainIds, candidateIds).1) ==>
      MetadataJudging.CrawlThreshold <= x <= 100
    decreases |rs|
  {
    if rs != [] {
      var first := ProcessSearchResult(w, rs[0], sessionId, now, currentYear, domainIds[0], candidateIds[0]);
      ProcessedScoresInRange(first.0, rs[1..], sessionId, now, currentYear, domainIds[1..], candidateIds[1..]);
      var rest := ProcessAll(first.0, rs[1..], sessionId, now, currentYear, domainIds[1..], candidateIds[1..]);
      assert ([first.1] + rest.1)[1..] == rest.1;
    }
  }
}
