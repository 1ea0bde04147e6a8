/**
 The crawler's batch processor: every search result passes the stages
 domain extraction, spam-TLD filter, in-batch deduplication, blacklist
 check and confidence scoring, and lands in exactly one outcome counter.
 Both confidence classes create a candidate.
 */
module SearchResultProcessing {
  import opened Wrappers
  import opened Store
  import opened SearchResults
  import opened ProcessingContext
  import DomainCredibility
  import ConfidenceScoring

  /*
   The collaborators the processor calls: domain extraction of the domain
   service, the java.net.URI host of a URL (which the credibility service
   parses), and the blacklist lookup.
   */
  datatype Services = Services(
    extractDomain: Option<string> -> Option<string>,
    uriOf: Option<string> -> DomainCredibility.UriParse,
    isBlacklisted: string -> bool)

  datatype Outcome =
    | InvalidUrl
    | SpamTld
    | DuplicateDomain(domain: string)
    | BlacklistedDomain(domain: string)
    | Created(domain: string, confidence: int, high: bool)

  /* classifyConfidence: high iff the score reaches the threshold; the boundary is high. */
  function ClassifyConfidence(confidence: int, c: Context): (r: (Context, bool))
    ensures r.1 <==> confidence >= 60
    ensures r.1 ==> r.0 == RecordHighConfidence(c)
    ensures !r.1 ==> r.0 == RecordLowConfidence(c)
  {
    if confidence >= ConfidenceThreshold then (RecordHighConfidence(c), true)
    else (RecordLowConfidence(c), false)
  }

  /* One pass of the loop body of processSearchResults. */
  function Step(c: Context, r: SearchResult, svc: Services): (res: (Context, Outcome))
    ensures Tally(res.0) == Tally(c) + 1
    ensures res.0.sessionId == c.sessionId
    ensures res.1 == InvalidUrl <==> svc.extractDomain(r.url).None?
    ensures res.1 == SpamTld <==>
      svc.extractDomain(r.url).Some? && DomainCredibility.IsSpamTld(r.url, svc.uriOf(r.url))
    ensures res.1.InvalidUrl? || res.1.SpamTld? ==> res.0.seenDomains == c.seenDomains
    ensures !res.1.InvalidUrl? && !res.1.SpamTld? ==>
      && svc.extractDomain(r.url) == Some(res.1.domain)
      && !DomainCredibility.IsSpamTld(r.url, svc.uriOf(r.url))
      && res.0.seenDomains == c.seenDomains + {res.1.domain}
      && (res.1.DuplicateDomain? <==> res.1.domain in c.seenDomains)
    ensures res.1.BlacklistedDomain? || res.1.Created? ==> svc.isBlacklisted(res.1.domain) == res.1.BlacklistedDomain?
    ensures res.1.Created? ==>
      && res.1.confidence == ConfidenceScoring.CalculateConfidence(r.title, r.description, r.url, svc.uriOf(r.url))
      && (res.1.high <==> res.1.confidence >= 60)
  {
    match svc.extractDomain(r.url)
    case None => (RecordInvalidUrl(c), InvalidUrl)
    case Some(domain) =>
      if DomainCredibility.IsSpamTld(r.url, svc.uriOf(r.url)) then (RecordSpamTldFiltered(c), SpamTld)
      else
        var marked := MarkDomainAsSeen(c, domain);
        if !marked.1 then (marked.0, DuplicateDomain(domain))
        else if svc.isBlacklisted(domain) then (RecordBlacklisted(marked.0), BlacklistedDomain(domain))
        else
          var confidence := ConfidenceScoring.CalculateConfidence(r.title, r.description, r.url, svc.uriOf(r.url));
          var classified := ClassifyConfidence(confidence, marked.0);
          (classified.0, Created(domain, confidence, classified.1))
  }

  /* The six statistics buckets. */
  datatype Bucket = Invalid | Spam | Duplicate | Blacklisted | High | Low

  function BucketOf(o: Outcome): Bucket {
    match o
    case InvalidUrl => Invalid
    case SpamTld => Spam
    case DuplicateDomain(_) => Duplicate
    case BlacklistedDomain(_) => Blacklisted
    case Created(_, _, high) => if high then High else Low
  }

  function CountIn(os: seq<Outcome>, b: Bucket): (n: nat)
    ensures n <= |os|
  {
    if os == [] then 0
    else CountIn(os[..|os| - 1], b) + (if BucketOf(os[|os| - 1]) == b then 1 else 0)
  }

  /* The counter of a context that holds a bucket. */
  function Counter(c: Context, b: Bucket): nat {
    match b
    case Invalid => c.invalidUrlsSkipped
    case Spam => c.spamTldFiltered
    case Duplicate => c.duplicatesSkipped
    case Blacklisted => c.blacklistedSkipped
    case High => c.highConfidenceCreated
    case Low => c.lowConfidenceCreated
  }

  /* A step raises exactly the counter of its outcome's bucket, by one. */
  lemma StepRaisesItsBucket(c: Context, r: SearchResult, svc: Services, b: Bucket)
    ensures var res := Step(c, r, svc);
      Counter(res.0, b) == Counter(c, b) + (if BucketOf(res.1) == b then 1 else 0)
  {
  }

  /* The loop over a batch, as a function: the outcomes in input order. */
  function Run(c: Context, rs: seq<SearchResult>, svc: Services): (res: (Context, seq<Outcome>))
    ensures |res.1| == |rs|
  {
    if rs == [] then (c, [])
    else
      var prefix := Run(c, rs[..|rs| - 1], svc);
      var last := Step(prefix.0, rs[|rs| - 1], svc);
      (last.0, prefix.1 + [last.1])
  }

  /* After a run every counter equals the number of outcomes in its bucket. */
  lemma {:induction false} RunCounts(c: Context, rs: seq<SearchResult>, svc: Services, b: Bucket)
    ensures Counter(Run(c, rs, svc).0, b) == Counter(c, b) + CountIn(Run(c, rs, svc).1, b)
  {
    if rs != [] {
      var prefix := Run(c, rs[..|rs| - 1], svc);
      RunCounts(c, rs[..|rs| - 1], svc, b);
      StepRaisesItsBucket(prefix.0, rs[|rs| - 1], svc, b);
      var os := Run(c, rs, svc).1;
      assert os[..|os| - 1] == prefix.1;
    }
  }

  /* The buckets partition the outcomes. */
  lemma {:induction false} BucketsPartition(os: seq<Outcome>)
    ensures CountIn(os, Invalid) + CountIn(os, Spam) + CountIn(os, Duplicate)
      + CountIn(os, Blacklisted) + CountIn(os, High) + CountIn(os, Low) == |os|
  {
    if os != [] {
      BucketsPartition(os[..|os| - 1]);
    }
  }

  /* Every domain that passed the spam filter is in the seen set afterwards. */
  predicate SeenCovers(c: Context, os: seq<Outcome>) {
    forall i :: 0 <= i < |os| && !os[i].InvalidUrl? && !os[i].SpamTld? ==> os[i].domain in c.seenDomains
  }

  /* No two outcomes of a run create a candidate for the same domain. */
  predicate OneCandidatePerDomain(os: seq<Outcome>) {
    forall i, j :: 0 <= i < j < |os| && os[i].Created? && os[j].Created? ==> os[i].domain != os[j].domain
  }

  /*
   Within one batch a domain yields at most one candidate, and a domain
   already seen before the batch yields none.
   */
  lemma {:induction false} RunCreatesOncePerDomain(c: Context, rs: seq<SearchResult>, svc: Services)
    ensures SeenCovers(Run(c, rs, svc).0, Run(c, rs, svc).1)
    ensures OneCandidatePerDomain(Run(c, rs, svc).1)
    ensures forall i :: 0 <= i < |rs| && Run(c, rs, svc).1[i].Created? ==> Run(c, rs, svc).1[i].domain !in c.seenDomains
    ensures c.seenDomains <= Run(c, rs, svc).0.seenDomains
  {
    if rs != [] {
      var prefix := Run(c, rs[..|rs| - 1], svc);
      RunCreatesOncePerDomain(c, rs[..|rs| - 1], svc);
      var last := Step(prefix.0, rs[|rs| - 1], svc);
      var os := prefix.1 + [last.1];
      assert Run(c, rs, svc) == (last.0, os);
      forall i, j | 0 <= i < j < |os| && os[i].Created? && os[j].Created?
        ensures os[i].domain != os[j].domain
      {
        if j == |os| - 1 {
          assert os[i] == prefix.1[i];
          assert os[i].domain in prefix.0.seenDomains;
        } else {
          assert os[i] == prefix.1[i] && os[j] == prefix.1[j];
        }
      }
      forall i | 0 <= i < |os| && !os[i].InvalidUrl? && !os[i].SpamTld?
        ensures os[i].domain in last.0.seenDomains
      {
        if i < |os| - 1 {
          assert os[i] == prefix.1[i];
        }
      }
      forall i | 0 <= i < |rs| && os[i].Created?
        ensures os[i].domain !in c.seenDomains
      {
        if i < |os| - 1 {
          assert os[i] == prefix.1[i];
        }
      }
    }
  }

  /*
   processSearchResults: a null or empty batch yields all-zero statistics;
   otherwise the statistics hold the batch size and one count per bucket,
   and the buckets add up to the batch size.
   */
  method ProcessSearchResults(results: Option<seq<SearchResult>>, sessionId: Uuid, svc: Services)
    returns (stats: ProcessingStatistics, outcomes: seq<Outcome>)
    ensures results.None? || results.value == [] ==>
      stats == ProcessingStatistics(0, 0, 0, 0, 0, 0, 0) && outcomes == []
    ensures results.Some? ==>
      && outcomes == Run(NewContext(sessionId), results.value, svc).1
      && stats.totalResults == |results.value| == |outcomes|
    ensures stats.invalidUrlsSkipped == CountIn(outcomes, Invalid)
    ensures stats.spamTldFiltered == CountIn(outcomes, Spam)
    ensures stats.duplicatesSkipped == CountIn(outcomes, Duplicate)
    ensures stats.blacklistedSkipped == CountIn(outcomes, Blacklisted)
    ensures stats.highConfidenceCreated == CountIn(outcomes, High)
    ensures stats.lowConfidenceCreated == CountIn(outcomes, Low)
    ensures stats.invalidUrlsSkipped + stats.spamTldFiltered + stats.duplicatesSkipped
      + stats.blacklistedSkipped + stats.highConfidenceCreated + stats.lowConfidenceCreated == stats.totalResults
  {
    if results.None? || results.value == [] {
      return ProcessingStatistics(0, 0, 0, 0, 0, 0, 0), [];
    }
    var rs := results.value;
    var context;
    context, outcomes := RunBatch(NewContext(sessionId), rs, svc);
    stats := BuildStatistics(context, |rs|);
    StatisticsCountOutcomes(NewContext(sessionId), rs, svc);
  }

  /* The per-result loop: each result is stepped through in order, threading the context. */
  method RunBatch(context0: Context, rs: seq<SearchResult>, svc: Services) returns (context: Context, outcomes: seq<Outcome>)
    ensures (context, outcomes) == Run(context0, rs, svc)
  {
    context := context0;
    outcomes := [];
    var i := 0;
    while i < |rs|
      invariant 0 <= i <= |rs|
      invariant (context, outcomes) == Run(context0, rs[..i], svc)
    {
      assert rs[..i + 1][..i] == rs[..i];
      var step := Step(context, rs[i], svc);
      context := step.0;
      outcomes := outcomes + [step.1];
      i := i + 1;
    }
    assert rs[..i] == rs;
  }

  /* From a fresh context, each counter of a run is its bucket's share of the outcomes. */
  lemma StatisticsCountOutcomes(c: Context, rs: seq<SearchResult>, svc: Services)
    requires forall b :: Counter(c, b) == 0
    ensures var run := Run(c, rs, svc);
      && forall b :: Counter(run.0, b) == CountIn(run.1, b)
    ensures var os := Run(c, rs, svc).1;
      CountIn(os, Invalid) + CountIn(os, Spam) + CountIn(os, Duplicate)
      + CountIn(os, Blacklisted) + CountIn(os, High) + CountIn(os, Low) == |os|
  {
    forall b
      ensures Counter(Run(c, rs, svc).0, b) == CountIn(Run(c, rs, svc).1, b)
    {
      RunCounts(c, rs, svc, b);
    }
    BucketsPartition(Run(c, rs, svc).1);
  }
}
