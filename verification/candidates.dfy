/**
 Funding source candidates: the records the discovery pipeline proposes for
 human review, their review statuses, and the repository queries the
 services use. Confidence scores are hundredths.
 */
module Candidates {
  import opened Wrappers
  import opened Text
  import opened Time
  import opened Store

  datatype CandidateStatus =
    | PENDING_CRAWL
    | PENDING_REVIEW
    | IN_REVIEW
    | APPROVED
    | REJECTED
    | SKIPPED_LOW_CONFIDENCE

  datatype FundingSourceCandidate = FundingSourceCandidate(
    candidateId: Option<Uuid>,
    status: Option<CandidateStatus>,
    confidenceScore: Option<int>,
    discoverySessionId: Option<Uuid>,
    discoveredAt: Option<Instant>,
    lastUpdatedAt: Option<Instant>,
    organizationName: Option<string>,
    programName: Option<string>,
    sourceUrl: Option<string>,
    description: Option<string>,
    domainId: Option<Uuid>,
    discoveryMethod: Option<string>,
    searchQuery: Option<string>,
    validationNotes: Option<string>,
    approvedBy: Option<Uuid>,
    approvedAt: Option<Instant>,
    rejectedBy: Option<Uuid>,
    rejectedAt: Option<Instant>,
    rejectionReason: Option<string>,
    assignedReviewerId: Option<Uuid>,
    reviewStartedAt: Option<Instant>,
    duplicateOfCandidateId: Option<Uuid>)

  /* A candidate built with nothing set. */
  const Blank: FundingSourceCandidate :=
    FundingSourceCandidate(None, None, None, None, None, None, None, None, None, None, None,
                           None, None, None, None, None, None, None, None, None, None, None)

  type CandidateTable = map<Uuid, FundingSourceCandidate>

  function NotFound(id: Uuid): Exception {
    IllegalArgument("Candidate not found: " + Digits(id))
  }

  /* SQL equality of LOWER(column) and LOWER(:parameter): a NULL on either side matches nothing. */
  predicate LowerEquals(column: Option<string>, parameter: Option<string>) {
    column.Some? && parameter.Some? && Lower(column.value) == Lower(parameter.value)
  }

  /*
   The row filter of findDuplicatesByOrganizationNameAndProgramName: the
   same organization and program names, ignoring case, and a status other
   than REJECTED (a NULL status fails the comparison too).
   */
  predicate IsDuplicateOf(c: FundingSourceCandidate, organizationName: Option<string>, programName: Option<string>) {
    && LowerEquals(c.organizationName, organizationName)
    && LowerEquals(c.programName, programName)
    && c.status.Some? && c.status.value != REJECTED
  }

  /*
   The duplicate query has no ORDER BY; as everywhere in this model, the
   rows are taken in id order, so "the first row" is the least matching id.
   */
  function FirstDuplicate(t: CandidateTable, organizationName: Option<string>, programName: Option<string>): (r: Option<Uuid>)
    ensures r.Some? ==> r.value in t && IsDuplicateOf(t[r.value], organizationName, programName)
    ensures r.None? <==> forall id :: id in t ==> !IsDuplicateOf(t[id], organizationName, programName)
  {
    FindWhere(t, (c: FundingSourceCandidate) => IsDuplicateOf(c, organizationName, programName))
  }

  /* The first duplicate row whose status is APPROVED. */
  function FirstApprovedDuplicate(t: CandidateTable, organizationName: Option<string>, programName: Option<string>): (r: Option<Uuid>)
    ensures r.Some? ==> r.value in t && IsDuplicateOf(t[r.value], organizationName, programName) && t[r.value].status == Some(APPROVED)
    ensures r.None? <==> forall id :: id in t && IsDuplicateOf(t[id], organizationName, programName) ==> t[id].status != Some(APPROVED)
  {
    FindWhere(t, (c: FundingSourceCandidate) => IsDuplicateOf(c, organizationName, programName) && c.status == Some(APPROVED))
  }
}
