/**
 The per-batch processing state of the crawler: the set of domains already
 seen in the batch and one counter per processing outcome.
 */
module ProcessingContext {
  import opened Store

  /* The confidence threshold of a batch: 0.60, in hundredths. */
  const ConfidenceThreshold: int := 60

  datatype Context = Context(
    sessionId: Uuid,
    seenDomains: set<string>,
    spamTldFiltered: nat,
    blacklistedSkipped: nat,
    duplicatesSkipped: nat,
    highConfidenceCreated: nat,
    lowConfidenceCreated: nat,
    invalidUrlsSkipped: nat)

  /* The sum of all outcome counters. */
  function Tally(c: Context): nat {
    c.spamTldFiltered + c.blacklistedSkipped + c.duplicatesSkipped
      + c.highConfidenceCreated + c.lowConfidenceCreated + c.invalidUrlsSkipped
  }

  /* A fresh context: nothing seen, nothing counted. */
  function NewContext(sessionId: Uuid): (c: Context)
    ensures c.sessionId == sessionId && c.seenDomains == {} && Tally(c) == 0
  {
    Context(sessionId, {}, 0, 0, 0, 0, 0, 0)
  }

  /*
   markDomainAsSeen: true the first time a domain is offered; afterwards
   false, and only then is duplicatesSkipped incremented.
   */
  function MarkDomainAsSeen(c: Context, domain: string): (r: (Context, bool))
    ensures r.1 <==> domain !in c.seenDomains
    ensures r.0.seenDomains == c.seenDomains + {domain}
    ensures r.1 ==> r.0.(seenDomains := c.seenDomains) == c
    ensures !r.1 ==> r.0 == c.(duplicatesSkipped := c.duplicatesSkipped + 1)
    ensures Tally(r.0) == Tally(c) + (if r.1 then 0 else 1)
  {
    if domain in c.seenDomains then (c.(duplicatesSkipped := c.duplicatesSkipped + 1), false)
    else (c.(seenDomains := c.seenDomains + {domain}), true)
  }

  /* Offering the same domain twice: the second offer is always a duplicate. */
  lemma SecondMarkIsDuplicate(c: Context, domain: string)
    ensures !MarkDomainAsSeen(MarkDomainAsSeen(c, domain).0, domain).1
  {
  }

  function RecordSpamTldFiltered(c: Context): (r: Context)
    ensures r.spamTldFiltered == c.spamTldFiltered + 1
    ensures r.(spamTldFiltered := c.spamTldFiltered) == c
    ensures Tally(r) == Tally(c) + 1
  {
    c.(spamTldFiltered := c.spamTldFiltered + 1)
  }

  function RecordBlacklisted(c: Context): (r: Context)
    ensures r.blacklistedSkipped == c.blacklistedSkipped + 1
    ensures r.(blacklistedSkipped := c.blacklistedSkipped) == c
    ensures Tally(r) == Tally(c) + 1
  {
    c.(blacklistedSkipped := c.blacklistedSkipped + 1)
  }

  function RecordLowConfidence(c: Context): (r: Context)
    ensures r.lowConfidenceCreated == c.lowConfidenceCreated + 1
    ensures r.(lowConfidenceCreated := c.lowConfidenceCreated) == c
    ensures Tally(r) == Tally(c) + 1
  {
    c.(lowConfidenceCreated := c.lowConfidenceCreated + 1)
  }

  function RecordHighConfidence(c: Context): (r: Context)
    ensures r.highConfidenceCreated == c.highConfidenceCreated + 1
    ensures r.(highConfidenceCreated := c.highConfidenceCreated) == c
    ensures Tally(r) == Tally(c) + 1
  {
    c.(highConfidenceCreated := c.highConfidenceCreated + 1)
  }

  function RecordInvalidUrl(c: Context): (r: Context)
    ensures r.invalidUrlsSkipped == c.invalidUrlsSkipped + 1
    ensures r.(invalidUrlsSkipped := c.invalidUrlsSkipped) == c
    ensures Tally(r) == Tally(c) + 1
  {
    c.(invalidUrlsSkipped := c.invalidUrlsSkipped + 1)
  }

  datatype ProcessingStatistics = ProcessingStatistics(
    totalResults: int,
    spamTldFiltered: nat,
    blacklistedSkipped: nat,
    duplicatesSkipped: nat,
    highConfidenceCreated: nat,
    lowConfidenceCreated: nat,
    invalidUrlsSkipped: nat)

  /* buildStatistics: every counter and the given total, copied unchanged. */
  function BuildStatistics(c: Context, totalResults: int): (s: ProcessingStatistics)
    ensures s.totalResults == totalResults
    ensures s.spamTldFiltered == c.spamTldFiltered && s.blacklistedSkipped == c.blacklistedSkipped
    ensures s.duplicatesSkipped == c.duplicatesSkipped
    ensures s.highConfidenceCreated == c.highConfidenceCreated && s.lowConfidenceCreated == c.lowConfidenceCreated
    ensures s.invalidUrlsSkipped == c.invalidUrlsSkipped
  {
    ProcessingStatistics(totalResults, c.spamTldFiltered, c.blacklistedSkipped, c.duplicatesSkipped,
                         c.highConfidenceCreated, c.lowConfidenceCreated, c.invalidUrlsSkipped)
  }
}
