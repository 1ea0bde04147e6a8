/**
 The persistence-layer domain service: idempotent registration, status
 updates, blacklisting of known domains and the accumulation of candidate
 counts after judging.
 */
module DomainStore {
  import opened Wrappers
  import opened Time
  import opened Store
  import opened Domains
  import opened JavaInt

  function NotFoundById(id: Uuid): Exception {
    IllegalArgument("Domain not found: " + Digits(id))
  }

  function NotFoundByName(name: string): Exception {
    IllegalArgument("Domain not found: " + name)
  }

  /* registerDomain: an existing record is returned without saving; a new one is DISCOVERED. */
  function RegisterDomain(t: DomainTable, name: string, sessionId: Option<Uuid>, now: Instant, freshId: Uuid): (r: (DomainTable, Domain))
    ensures FindByName(t, name).Some? ==> r.0 == t && r.1 == t[FindByName(t, name).value]
    ensures FindByName(t, name).None? ==>
      && r.1.domainName == Some(name) && r.1.status == Some(DISCOVERED)
      && r.1.discoverySessionId == sessionId && r.1.discoveredAt == Some(now)
      && r.1.highQualityCandidateCount == 0 && r.1.lowQualityCandidateCount == 0
      && r.1.domainId == Some(freshId) && r.0 == t[freshId := r.1]
  {
    match FindByName(t, name)
    case Some(id) => (t, t[id])
    case None =>
      SaveDomain(t, Built(name).(status := Some(DISCOVERED), discoverySessionId := sessionId, discoveredAt := Some(now)), freshId)
  }

  /* A second registration of the same name finds the first one's record. */
  lemma RegisterDomainIdempotent(t: DomainTable, name: string, s1: Option<Uuid>, s2: Option<Uuid>,
                                 now1: Instant, now2: Instant, id1: Uuid, id2: Uuid)
    ensures var once := RegisterDomain(t, name, s1, now1, id1);
      RegisterDomain(once.0, name, s2, now2, id2) == once
  {
    var once := RegisterDomain(t, name, s1, now1, id1);
    if FindByName(t, name).None? {
      FindByNameAfterSave(t, name, id1, once.1);
    }
  }

  /* updateStatus: sets the status and the processing time; an unknown id throws. */
  function UpdateStatus(t: DomainTable, id: Uuid, status: Option<DomainStatus>, now: Instant): (r: Result<(DomainTable, Domain)>)
    ensures r.Fail? <==> id !in t
    ensures r.Fail? ==> r.error == NotFoundById(id)
    ensures r.Ok? ==>
      && OnlyRecordChanged(t, r.value.0, id)
      && r.value.1 == r.value.0[id]
      && r.value.1.status == status && r.value.1.lastProcessedAt == Some(now)
      && r.value.1.(status := t[id].status, lastProcessedAt := t[id].lastProcessedAt) == t[id]
  {
    if id !in t then Fail(NotFoundById(id))
    else
      var d := t[id].(status := status, lastProcessedAt := Some(now));
      Ok((t[id := d], d))
  }

  /* blacklistDomain: only a known domain can be blacklisted. */
  function BlacklistDomain(t: DomainTable, name: string, blacklistedBy: Option<Uuid>, reason: Option<string>, now: Instant): (r: Result<(DomainTable, Domain)>)
    ensures r.Fail? <==> FindByName(t, name).None?
    ensures r.Fail? ==> r.error == NotFoundByName(name)
    ensures r.Ok? ==>
      var id := FindByName(t, name).value;
      && OnlyRecordChanged(t, r.value.0, id)
      && r.value.1 == r.value.0[id]
      && r.value.1.status == Some(BLACKLISTED)
      && r.value.1.blacklistedBy == blacklistedBy && r.value.1.blacklistReason == reason
      && r.value.1.blacklistedAt == Some(now)
      && r.value.1.domainName == Some(name)
  {
    match FindByName(t, name)
    case None => Fail(NotFoundByName(name))
    case Some(id) =>
      var d := t[id].(status := Some(BLACKLISTED), blacklistedAt := Some(now),
                      blacklistedBy := blacklistedBy, blacklistReason := reason);
      Ok((t[id := d], d))
  }

  /* The best score after offering a possibly-null candidate best. */
  function KeepBest(current: Option<int>, offered: Option<int>): (r: Option<int>)
    ensures offered.None? ==> r == current
    ensures offered.Some? ==> r == Some(BestOf(current, offered.value))
  {
    if offered.Some? && (current.None? || offered.value > current.value) then offered else current
  }

  /* The status after a batch of counts: any high-quality candidate wins, then any low-quality one. */
  function StatusAfterCounts(current: Option<DomainStatus>, high: int, low: int): Option<DomainStatus> {
    if high > 0 then Some(PROCESSED_HIGH_QUALITY)
    else if low > 0 then Some(PROCESSED_LOW_QUALITY)
    else current
  }

  /* updateCandidateCounts: adds both counts with int overflow, keeps the best score as a maximum, and sets the status. */
  function UpdateCandidateCounts(t: DomainTable, name: string, high: int, low: int,
                                 bestConfidence: Option<int>, now: Instant): (r: Result<DomainTable>)
    ensures r.Fail? <==> FindByName(t, name).None?
    ensures r.Fail? ==> r.error == NotFoundByName(name)
    ensures r.Ok? ==>
      var id := FindByName(t, name).value;
      var d := t[id];
      && OnlyRecordChanged(t, r.value, id)
      && r.value[id].highQualityCandidateCount == Wrap32(d.highQualityCandidateCount + high)
      && r.value[id].lowQualityCandidateCount == Wrap32(d.lowQualityCandidateCount + low)
      && (IsInt32(d.highQualityCandidateCount + high) ==> r.value[id].highQualityCandidateCount == d.highQualityCandidateCount + high)
      && (IsInt32(d.lowQualityCandidateCount + low) ==> r.value[id].lowQualityCandidateCount == d.lowQualityCandidateCount + low)
      && r.value[id].bestConfidenceScore == KeepBest(d.bestConfidenceScore, bestConfidence)
      && (high > 0 ==> r.value[id].status == Some(PROCESSED_HIGH_QUALITY))
      && (high <= 0 && low > 0 ==> r.value[id].status == Some(PROCESSED_LOW_QUALITY))
      && (high <= 0 && low <= 0 ==> r.value[id].status == d.status)
      && r.value[id].lastProcessedAt == Some(now)
      && r.value[id].domainName == Some(name)
  {
    match FindByName(t, name)
    case None => Fail(NotFoundByName(name))
    case Some(id) =>
      var d := t[id];
      var e := d.(highQualityCandidateCount := Wrap32(d.highQualityCandidateCount + high),
                  lowQualityCandidateCount := Wrap32(d.lowQualityCandidateCount + low),
                  bestConfidenceScore := KeepBest(d.bestConfidenceScore, bestConfidence),
                  status := StatusAfterCounts(d.status, high, low),
                  lastProcessedAt := Some(now));
      Ok(t[id := e])
  }

  /*
   Two count updates add up: the counters and the best score end where one
   update with the summed counts and the larger best score would leave them,
   overflow included.
   */
  lemma CandidateCountsAccumulate(t: DomainTable, name: string, h1: int, l1: int, h2: int, l2: int,
                                  b1: int, b2: int, now1: Instant, now2: Instant)
    requires FindByName(t, name).Some?
    ensures
      var id := FindByName(t, name).value;
      var first := UpdateCandidateCounts(t, name, h1, l1, Some(b1), now1);
      var both := UpdateCandidateCounts(first.value, name, h2, l2, Some(b2), now2);
      var once := UpdateCandidateCounts(t, name, h1 + h2, l1 + l2, Some(if b1 > b2 then b1 else b2), now2);
      && first.Ok? && both.Ok? && once.Ok?
      && both.value[id].highQualityCandidateCount == once.value[id].highQualityCandidateCount
      && both.value[id].lowQualityCandidateCount == once.value[id].lowQualityCandidateCount
      && both.value[id].bestConfidenceScore == once.value[id].bestConfidenceScore
  {
    var id := FindByName(t, name).value;
    var first := UpdateCandidateCounts(t, name, h1, l1, Some(b1), now1);
    FindByNameAfterSave(t, name, id, first.value[id]);
    WrapAddWrap(t[id].highQualityCandidateCount + h1, h2);
    WrapAddWrap(t[id].lowQualityCandidateCount + l1, l2);
  }
}
