/**
 The Domain entity: one row per discovered domain, carrying the processing
 status, the candidate-quality counters and the failure backoff. The
 Integer counters are non-null because the entity builder defaults them
 to 0.
 */
module Domains {
  import opened Wrappers
  import opened Time
  import opened Store

  datatype DomainStatus =
    | DISCOVERED
    | PROCESSING
    | PROCESSED_HIGH_QUALITY
    | PROCESSED_LOW_QUALITY
    | BLACKLISTED
    | NO_FUNDS_THIS_YEAR
    | PROCESSING_FAILED

  datatype Domain = Domain(
    domainId: Option<Uuid>,
    domainName: Option<string>,
    status: Option<DomainStatus>,
    discoveredAt: Option<Instant>,
    discoverySessionId: Option<Uuid>,
    lastProcessedAt: Option<Instant>,
    processingCount: int,
    bestConfidenceScore: Option<int>,
    highQualityCandidateCount: int,
    lowQualityCandidateCount: int,
    blacklistedBy: Option<Uuid>,
    blacklistedAt: Option<Instant>,
    blacklistReason: Option<string>,
    noFundsYear: Option<int>,
    notes: Option<string>,
    failureReason: Option<string>,
    failureCount: int,
    retryAfter: Option<Instant>)

  type DomainTable = map<Uuid, Domain>

  /* Domain.builder() with the given name: every counter 0, everything else null. */
  function Built(name: string): (d: Domain)
    ensures d.domainName == Some(name) && d.status.None? && d.domainId.None?
    ensures d.processingCount == 0 && d.highQualityCandidateCount == 0
    ensures d.lowQualityCandidateCount == 0 && d.failureCount == 0
    ensures d.bestConfidenceScore.None? && d.retryAfter.None? && d.noFundsYear.None?
  {
    Domain(None, Some(name), None, None, None, None, 0, None, 0, 0,
           None, None, None, None, None, None, 0, None)
  }

  /* findByDomainName: domain names are unique, so at most one record matches. */
  function FindByName(t: DomainTable, name: string): (r: Option<Uuid>)
    ensures r.Some? ==> r.value in t && t[r.value].domainName == Some(name)
    ensures r.Some? ==> forall id :: id in t && t[id].domainName == Some(name) ==> r.value <= id
    ensures r.None? ==> forall id :: id in t ==> t[id].domainName != Some(name)
  {
    FindWhere(t, (d: Domain) => d.domainName == Some(name))
  }

  /*
   Saving a record under the id the name lookup found, or under any id when
   the name was unknown, makes that id the one the lookup finds.
   */
  lemma FindByNameAfterSave(t: DomainTable, name: string, id: Uuid, d: Domain)
    requires d.domainName == Some(name)
    requires FindByName(t, name) == Some(id) || FindByName(t, name).None?
    ensures FindByName(t[id := d], name) == Some(id)
  {
    var found := FindByName(t[id := d], name);
    assert id in t[id := d] && t[id := d][id].domainName == Some(name);
  }

  /* The larger of two scores, where a null best score is beaten by anything. */
  function BestOf(best: Option<int>, score: int): (r: int)
    ensures r >= score && (best.Some? ==> r >= best.value)
    ensures r == score || (best.Some? && r == best.value)
  {
    if best.None? || score > best.value then score else best.value
  }

  /* save: a record without an id receives `freshId`. */
  function SaveDomain(t: DomainTable, d: Domain, freshId: Uuid): (r: (DomainTable, Domain))
    ensures r.1.domainId.Some? && r.0 == t[r.1.domainId.value := r.1]
    ensures r.1 == d.(domainId := r.1.domainId)
    ensures d.domainId.Some? ==> r.1 == d
  {
    var id := d.domainId.GetOr(freshId);
    var saved := d.(domainId := Some(id));
    (t[id := saved], saved)
  }
}
