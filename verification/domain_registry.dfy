/**
 The domain registry of the discovery service: it decides whether a domain
 is worth processing, registers domains idempotently, folds each judged
 candidate into the domain's quality counters and status, and backs off
 exponentially after processing failures. The current time and year are
 parameters.
 */
module DomainRegistry {
  import opened Wrappers
  import opened Text
  import opened Time
  import opened Store
  import opened Domains
  import DomainCredibility

  /* shouldProcessDomainByName: skip blacklisted, low-quality, no-funds-this-year and backing-off domains. */
  function ShouldProcessDomainByName(t: DomainTable, name: string, now: Instant, currentYear: int): bool {
    match FindByName(t, name)
    case None => true
    case Some(id) =>
      var d := t[id];
      if d.status == Some(BLACKLISTED) then false
      else if d.status == Some(PROCESSED_LOW_QUALITY) then false
      else if d.status == Some(NO_FUNDS_THIS_YEAR) then !(d.noFundsYear == Some(currentYear))
      else if d.status == Some(PROCESSING_FAILED) then !(d.retryAfter.Some? && now < d.retryAfter.value)
      else true
  }

  /* A record whose state makes the registry skip its domain at `now` in `currentYear`. */
  predicate Blocking(d: Domain, now: Instant, currentYear: int) {
    || d.status == Some(BLACKLISTED)
    || d.status == Some(PROCESSED_LOW_QUALITY)
    || (d.status == Some(NO_FUNDS_THIS_YEAR) && d.noFundsYear == Some(currentYear))
    || (d.status == Some(PROCESSING_FAILED) && d.retryAfter.Some? && now < d.retryAfter.value)
  }

  /*
   A domain is skipped exactly when it is registered and its record blocks:
   an unknown domain, and every status other than the four blocking ones, is
   processed.
   */
  lemma SkipIffBlocking(t: DomainTable, name: string, now: Instant, currentYear: int)
    ensures !ShouldProcessDomainByName(t, name, now, currentYear) <==>
      FindByName(t, name).Some? && Blocking(t[FindByName(t, name).value], now, currentYear)
    ensures FindByName(t, name).None? ==> ShouldProcessDomainByName(t, name, now, currentYear)
  {
  }

  /* extractDomainName: the java.net.URI host, without a leading "www.", lower-cased. */
  function ExtractDomainName(url: Option<string>, uri: DomainCredibility.UriParse): (r: Result<string>)
    ensures url.None? || uri.SyntaxError? || uri.host.None? ==> r.Fail?
    ensures url.Some? && uri.Parsed? && uri.host.Some? ==> r.Ok? && |r.value| <= |uri.host.value|
    ensures r.Ok? ==> Lower(r.value) == r.value
    ensures url.Some? && uri.Parsed? && uri.host.Some? && !StartsWith(uri.host.value, "www.") ==>
      r == Ok(Lower(uri.host.value))
    ensures url.Some? && uri.Parsed? && uri.host.Some? && StartsWith(uri.host.value, "www.") ==>
      r == Ok(Lower(uri.host.value[4..]))
  {
    if url.None? then Fail(NullPointer(""))
    else match uri
      case SyntaxError => Fail(URISyntax(url.value))
      case Parsed(host) =>
        if host.None? then Fail(URISyntax("No host in URL: " + url.value))
        else
          var h := if StartsWith(host.value, "www.") then host.value[4..] else host.value;
          LowerIdempotent(h);
          Ok(Lower(h))
  }

  /* The "www." test precedes lower-casing: a leading "www." goes, a leading "WWW." stays. */
  lemma ExtractDomainNameStripsWww(url: string, rest: string)
    ensures ExtractDomainName(Some(url), DomainCredibility.Parsed(Some("www." + rest))) == Ok(Lower(rest))
    ensures ExtractDomainName(Some(url), DomainCredibility.Parsed(Some("WWW." + rest))) == Ok("www." + Lower(rest))
  {
    assert ("www." + rest)[4..] == rest;
    assert !StartsWith("WWW." + rest, "www.") by {
      assert ("WWW." + rest)[0] == 'W';
    }
    assert Lower("WWW." + rest) == "www." + Lower(rest);
  }

  /* shouldProcessDomain: a URL whose domain cannot be extracted is processed. */
  function ShouldProcessDomain(t: DomainTable, url: Option<string>, uri: DomainCredibility.UriParse,
                               now: Instant, currentYear: int): (r: bool)
    ensures ExtractDomainName(url, uri).Fail? ==> r
    ensures ExtractDomainName(url, uri).Ok? ==> r == ShouldProcessDomainByName(t, ExtractDomainName(url, uri).value, now, currentYear)
  {
    match ExtractDomainName(url, uri)
    case Fail(_) => true
    case Ok(name) => ShouldProcessDomainByName(t, name, now, currentYear)
  }

  /* A freshly discovered domain record. */
  function NewDomain(name: string, sessionId: Option<Uuid>, now: Instant): (d: Domain)
    ensures d.domainName == Some(name) && d.status == Some(DISCOVERED)
    ensures d.processingCount == 0 && d.highQualityCandidateCount == 0
    ensures d.lowQualityCandidateCount == 0 && d.failureCount == 0
  {
    Built(name).(status := Some(DISCOVERED), discoveredAt := Some(now), discoverySessionId := sessionId)
  }

  /* registerDomain: the existing record, untouched, or a new DISCOVERED record with zero counters. */
  function RegisterDomain(t: DomainTable, name: string, sessionId: Option<Uuid>, now: Instant, freshId: Uuid): (r: (DomainTable, Domain))
    ensures FindByName(t, name).Some? ==> r.0 == t && r.1 == t[FindByName(t, name).value]
    ensures FindByName(t, name).None? ==>
      && r.1 == NewDomain(name, sessionId, now).(domainId := Some(freshId))
      && r.0 == t[freshId := r.1]
  {
    match FindByName(t, name)
    case Some(id) => (t, t[id])
    case None => SaveDomain(t, NewDomain(name, sessionId, now), freshId)
  }

  /* Registering a name twice returns the first call's record and changes nothing more. */
  lemma RegisterDomainIdempotent(t: DomainTable, name: string, s1: Option<Uuid>, s2: Option<Uuid>,
                                 now1: Instant, now2: Instant, id1: Uuid, id2: Uuid)
    requires id1 !in t
    ensures var once := RegisterDomain(t, name, s1, now1, id1);
      RegisterDomain(once.0, name, s2, now2, id2) == once
  {
    if FindByName(t, name).None? {
      FindByNameAfterSave(t, name, id1, NewDomain(name, s1, now1).(domainId := Some(id1)));
    }
  }

  /* A newly registered domain is processed. */
  lemma RegisteredDomainIsProcessed(t: DomainTable, name: string, sessionId: Option<Uuid>,
                                    now: Instant, freshId: Uuid, currentYear: int)
    requires FindByName(t, name).None? && freshId !in t
    ensures ShouldProcessDomainByName(RegisterDomain(t, name, sessionId, now, freshId).0, name, now, currentYear)
  {
    FindByNameAfterSave(t, name, freshId, NewDomain(name, sessionId, now).(domainId := Some(freshId)));
  }

  /* updateDomainQuality: fold one judged candidate into the domain; an unknown id changes nothing. */
  function UpdateDomainQuality(t: DomainTable, id: Uuid, score: int, isHighQuality: bool, now: Instant): (r: DomainTable)
    ensures id !in t ==> r == t
    ensures r.Keys == t.Keys
    ensures id in t ==>
      var d := t[id];
      var e := r[id];
      && OnlyRecordChanged(t, r, id)
      && e.bestConfidenceScore == Some(BestOf(d.bestConfidenceScore, score))
      && e.highQualityCandidateCount == d.highQualityCandidateCount + (if isHighQuality then 1 else 0)
      && e.lowQualityCandidateCount == d.lowQualityCandidateCount + (if isHighQuality then 0 else 1)
      && e.processingCount == d.processingCount + 1
      && e.lastProcessedAt == Some(now)
      && (isHighQuality ==> e.status == Some(PROCESSED_HIGH_QUALITY))
      && (!isHighQuality && e.highQualityCandidateCount == 0 && e.lowQualityCandidateCount >= 3 ==> e.status == Some(PROCESSED_LOW_QUALITY))
      && (!isHighQuality && !(e.highQualityCandidateCount == 0 && e.lowQualityCandidateCount >= 3) ==> e.status == d.status)
      && e.(bestConfidenceScore := d.bestConfidenceScore, highQualityCandidateCount := d.highQualityCandidateCount,
            lowQualityCandidateCount := d.lowQualityCandidateCount, processingCount := d.processingCount,
            lastProcessedAt := d.lastProcessedAt, status := d.status) == d
  {
    if id !in t then t
    else
      var d := t[id];
      var best := if d.bestConfidenceScore.None? || score > d.bestConfidenceScore.value then Some(score) else d.bestConfidenceScore;
      var high := if isHighQuality then d.highQualityCandidateCount + 1 else d.highQualityCandidateCount;
      var low := if isHighQuality then d.lowQualityCandidateCount else d.lowQualityCandidateCount + 1;
      var status :=
        if isHighQuality then Some(PROCESSED_HIGH_QUALITY)
        else if high == 0 && low >= 3 then Some(PROCESSED_LOW_QUALITY)
        else d.status;
      t[id := d.(bestConfidenceScore := best, highQualityCandidateCount := high, lowQualityCandidateCount := low,
                 lastProcessedAt := Some(now), processingCount := d.processingCount + 1, status := status)]
  }

  /*
   Three low-quality candidates and no high-quality one retire a fresh
   domain: it becomes PROCESSED_LOW_QUALITY and is skipped from then on.
   */
  lemma ThreeLowCandidatesRetireDomain(t: DomainTable, name: string, sessionId: Option<Uuid>, freshId: Uuid,
                                       s1: int, s2: int, s3: int, now: Instant, later: Instant, currentYear: int)
    requires FindByName(t, name).None? && freshId !in t
    ensures
      var t0 := RegisterDomain(t, name, sessionId, now, freshId).0;
      var t3 := UpdateDomainQuality(UpdateDomainQuality(UpdateDomainQuality(t0, freshId, s1, false, now), freshId, s2, false, now), freshId, s3, false, now);
      && t3[freshId].status == Some(PROCESSED_LOW_QUALITY)
      && !ShouldProcessDomainByName(t3, name, later, currentYear)
  {
    var t0 := RegisterDomain(t, name, sessionId, now, freshId).0;
    FindByNameAfterSave(t, name, freshId, t0[freshId]);
    var t1 := UpdateDomainQuality(t0, freshId, s1, false, now);
    FindByNameAfterSave(t0, name, freshId, t1[freshId]);
    var t2 := UpdateDomainQuality(t1, freshId, s2, false, now);
    FindByNameAfterSave(t1, name, freshId, t2[freshId]);
    var t3 := UpdateDomainQuality(t2, freshId, s3, false, now);
    FindByNameAfterSave(t2, name, freshId, t3[freshId]);
  }

  /* blacklistDomain: an unknown name gets a new BLACKLISTED record; the admin and reason are recorded. */
  function BlacklistDomain(t: DomainTable, name: string, reason: Option<string>, adminUserId: Option<Uuid>,
                           now: Instant, freshId: Uuid): (r: (DomainTable, Domain))
    ensures r.1.status == Some(BLACKLISTED) && r.1.domainName == Some(name)
    ensures r.1.blacklistedBy == adminUserId && r.1.blacklistReason == reason && r.1.blacklistedAt == Some(now)
    ensures FindByName(t, name).Some? ==>
      var id := FindByName(t, name).value;
      && OnlyRecordChanged(t, r.0, id)
      && r.1 == r.0[id]
      && r.1.(status := t[id].status, blacklistedBy := t[id].blacklistedBy,
              blacklistedAt := t[id].blacklistedAt, blacklistReason := t[id].blacklistReason) == t[id]
    ensures FindByName(t, name).None? ==> r.0 == t[freshId := r.1] && r.1.discoveredAt == Some(now)
  {
    var base := match FindByName(t, name)
      case Some(id) => t[id]
      case None => Built(name).(status := Some(BLACKLISTED), discoveredAt := Some(now));
    var marked := base.(status := Some(BLACKLISTED), blacklistedBy := adminUserId,
                        blacklistedAt := Some(now), blacklistReason := reason);
    match FindByName(t, name)
    case Some(id) => (t[id := marked], marked)
    case None => SaveDomain(t, marked, freshId)
  }

  /* A blacklisted domain is skipped at every time and in every year. */
  lemma BlacklistedDomainIsSkipped(t: DomainTable, name: string, reason: Option<string>, adminUserId: Option<Uuid>,
                                   now: Instant, freshId: Uuid, later: Instant, currentYear: int)
    ensures !ShouldProcessDomainByName(BlacklistDomain(t, name, reason, adminUserId, now, freshId).0, name, later, currentYear)
  {
    var r := BlacklistDomain(t, name, reason, adminUserId, now, freshId);
    var id := FindByName(t, name).GetOr(freshId);
    FindByNameAfterSave(t, name, id, r.1);
  }

  /* markNoFundsThisYear: an unknown domain throws. */
  function MarkNoFundsThisYear(t: DomainTable, name: string, year: Option<int>, notes: Option<string>): (r: Result<(DomainTable, Domain)>)
    ensures r.Fail? <==> FindByName(t, name).None?
    ensures r.Fail? ==> r.error == IllegalArgument("Domain not found: " + name)
    ensures r.Ok? ==>
      var id := FindByName(t, name).value;
      && OnlyRecordChanged(t, r.value.0, id)
      && r.value.1 == r.value.0[id]
      && r.value.1.status == Some(NO_FUNDS_THIS_YEAR) && r.value.1.noFundsYear == year && r.value.1.notes == notes
      && r.value.1.(status := t[id].status, noFundsYear := t[id].noFundsYear, notes := t[id].notes) == t[id]
  {
    match FindByName(t, name)
    case None => Fail(IllegalArgument("Domain not found: " + name))
    case Some(id) =>
      var d := t[id].(status := Some(NO_FUNDS_THIS_YEAR), noFundsYear := year, notes := notes);
      Ok((t[id := d], d))
  }

  /* The retry delay after the n-th consecutive failure: 1 hour, 4 hours, 1 day, then 1 week. */
  function Backoff(failureCount: int): (delay: int)
    ensures delay > 0
    ensures failureCount >= 4 || failureCount <= 0 ==> delay == SecondsPerWeek
  {
    match failureCount
    case 1 => SecondsPerHour
    case 2 => 4 * SecondsPerHour
    case 3 => SecondsPerDay
    case _ => SecondsPerWeek
  }

  /* The delay never shrinks as failures accumulate. */
  lemma BackoffGrows(m: int, n: int)
    requires 1 <= m <= n
    ensures Backoff(m) <= Backoff(n)
  {
  }

  /* recordProcessingFailure: count the failure, mark PROCESSING_FAILED and schedule the retry. */
  function RecordProcessingFailure(t: DomainTable, id: Uuid, failureReason: Option<string>, now: Instant): (r: DomainTable)
    ensures id !in t ==> r == t
    ensures r.Keys == t.Keys
    ensures id in t ==>
      var d := t[id];
      && OnlyRecordChanged(t, r, id)
      && r[id].failureCount == d.failureCount + 1
      && r[id].status == Some(PROCESSING_FAILED)
      && r[id].failureReason == failureReason
      && r[id].retryAfter == Some(now + Backoff(d.failureCount + 1))
      && r[id].(failureCount := d.failureCount, failureReason := d.failureReason, status := d.status, retryAfter := d.retryAfter) == d
  {
    if id !in t then t
    else
      var d := t[id];
      var failures := d.failureCount + 1;
      t[id := d.(failureCount := failures, failureReason := failureReason,
                 status := Some(PROCESSING_FAILED), retryAfter := Some(now + Backoff(failures)))]
  }

  /*
   After a failure the domain is skipped until its backoff has elapsed and
   processed again from then on.
   */
  lemma FailedDomainWaitsOutBackoff(t: DomainTable, name: string, failureReason: Option<string>,
                                    now: Instant, later: Instant, currentYear: int)
    requires FindByName(t, name).Some?
    ensures var id := FindByName(t, name).value;
      var t' := RecordProcessingFailure(t, id, failureReason, now);
      ShouldProcessDomainByName(t', name, later, currentYear) <==> later >= now + Backoff(t[id].failureCount + 1)
  {
    var id := FindByName(t, name).value;
    var t' := RecordProcessingFailure(t, id, failureReason, now);
    FindByNameAfterSave(t, name, id, t'[id]);
  }

  /* registerDomainFromUrl: extraction failures propagate. */
  function RegisterDomainFromUrl(t: DomainTable, url: Option<string>, uri: DomainCredibility.UriParse,
                                 sessionId: Option<Uuid>, now: Instant, freshId: Uuid): (r: Result<(DomainTable, Domain)>)
    ensures r.Fail? <==> ExtractDomainName(url, uri).Fail?
    ensures r.Ok? ==> r.value.1.domainName == Some(ExtractDomainName(url, uri).value)
  {
    var name :- ExtractDomainName(url, uri);
    Ok(RegisterDomain(t, name, sessionId, now, freshId))
  }
}
