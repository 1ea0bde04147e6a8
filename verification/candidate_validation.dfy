/**
 The review guards of the discovery service: approving needs a confidence
 of at least 0.50 and the three identifying fields, rejecting refuses a
 candidate rejected before, and assigning needs an active reviewer. Each
 successful decision stamps its audit fields with the current time.
 */
module CandidateValidation {
  import opened Wrappers
  import opened Text
  import opened Time
  import opened Store
  import opened Decimal
  import opened Candidates
  import opened AdminUsers

  /* 0.50: the least confidence a candidate may be approved with. */
  const MinimumConfidence: int := 50

  type AdminTable = map<Uuid, AdminUser>

  /* The first required field that is null or blank, in the order they are checked. */
  function MissingField(c: FundingSourceCandidate): (r: Option<string>)
    ensures r.None? <==> !IsNullOrBlank(c.programName) && !IsNullOrBlank(c.organizationName) && !IsNullOrBlank(c.sourceUrl)
    ensures r == Some("programName") <==> IsNullOrBlank(c.programName)
  {
    if IsNullOrBlank(c.programName) then Some("programName")
    else if IsNullOrBlank(c.organizationName) then Some("organizationName")
    else if IsNullOrBlank(c.sourceUrl) then Some("sourceUrl")
    else None
  }

  /* Whether approveCandidate accepts a stored candidate. */
  predicate Approvable(c: FundingSourceCandidate) {
    && c.status != Some(APPROVED)
    && c.confidenceScore.Some? && c.confidenceScore.value >= MinimumConfidence
    && MissingField(c).None?
  }

  /* approveCandidate: the guards in order, then APPROVED by the admin, with the notes, at `now`. */
  function ApproveCandidate(t: CandidateTable, id: Uuid, adminUserId: Option<Uuid>, notes: Option<string>,
                            now: Instant): (r: Result<CandidateTable>)
    ensures r.Ok? <==> id in t && Approvable(t[id])
    ensures id !in t ==> r == Fail(NotFound(id))
    ensures id in t && t[id].status == Some(APPROVED) ==>
      r == Fail(IllegalState("Candidate " + Digits(id) + " is already approved"))
    ensures id in t && t[id].status != Some(APPROVED) && t[id].confidenceScore.Some? && t[id].confidenceScore.value < MinimumConfidence ==>
      r == Fail(IllegalState("Cannot approve candidate with confidence score " + HundredthsText(t[id].confidenceScore.value) + " (minimum: 0.50)"))
    ensures r.Ok? ==>
      && OnlyRecordChanged(t, r.value, id)
      && r.value[id] == t[id].(status := Some(APPROVED), approvedBy := adminUserId, approvedAt := Some(now),
                               validationNotes := notes, lastUpdatedAt := Some(now))
  {
    if id !in t then Fail(NotFound(id))
    else
      var c := t[id];
      if c.status == Some(APPROVED) then Fail(IllegalState("Candidate " + Digits(id) + " is already approved"))
      else if c.confidenceScore.None? then Fail(NullPointer("confidenceScore"))
      else if c.confidenceScore.value < MinimumConfidence then
        Fail(IllegalState("Cannot approve candidate with confidence score " + HundredthsText(c.confidenceScore.value) + " (minimum: 0.50)"))
      else match MissingField(c)
        case Some(field) => Fail(IllegalState("Cannot approve candidate: required fields missing (" + field + ")"))
        case None =>
          Ok(t[id := c.(status := Some(APPROVED), approvedBy := adminUserId, approvedAt := Some(now),
                        validationNotes := notes, lastUpdatedAt := Some(now))])
  }

  /* rejectCandidate: refuses only a candidate already REJECTED; records who rejected it, why and when. */
  function RejectCandidate(t: CandidateTable, id: Uuid, adminUserId: Option<Uuid>, reason: Option<string>,
                           now: Instant): (r: Result<CandidateTable>)
    ensures r.Ok? <==> id in t && t[id].status != Some(REJECTED)
    ensures id !in t ==> r == Fail(NotFound(id))
    ensures id in t && t[id].status == Some(REJECTED) ==>
      r == Fail(IllegalState("Candidate " + Digits(id) + " is already rejected"))
    ensures r.Ok? ==>
      && OnlyRecordChanged(t, r.value, id)
      && r.value[id] == t[id].(status := Some(REJECTED), rejectedBy := adminUserId, rejectedAt := Some(now),
                               rejectionReason := reason, lastUpdatedAt := Some(now))
  {
    if id !in t then Fail(NotFound(id))
    else if t[id].status == Some(REJECTED) then Fail(IllegalState("Candidate " + Digits(id) + " is already rejected"))
    else Ok(t[id := t[id].(status := Some(REJECTED), rejectedBy := adminUserId, rejectedAt := Some(now),
                           rejectionReason := reason, lastUpdatedAt := Some(now))])
  }

  /* assignToReviewer: the candidate, then the reviewer, must exist, and the reviewer must be active. */
  function AssignToReviewer(t: CandidateTable, admins: AdminTable, id: Uuid, reviewerId: Uuid,
                            now: Instant): (r: Result<CandidateTable>)
    ensures r.Ok? <==> id in t && reviewerId in admins && admins[reviewerId].isActive == Some(true)
    ensures id !in t ==> r == Fail(NotFound(id))
    ensures id in t && reviewerId !in admins ==> r == Fail(IllegalArgument("Reviewer not found: " + Digits(reviewerId)))
    ensures id in t && reviewerId in admins && admins[reviewerId].isActive == Some(false) ==>
      r == Fail(IllegalArgument("Cannot assign to inactive reviewer: " + JavaText(admins[reviewerId].username)))
    ensures r.Ok? ==>
      && OnlyRecordChanged(t, r.value, id)
      && r.value[id] == t[id].(assignedReviewerId := Some(reviewerId), status := Some(IN_REVIEW),
                               reviewStartedAt := Some(now), lastUpdatedAt := Some(now))
  {
    if id !in t then Fail(NotFound(id))
    else if reviewerId !in admins then Fail(IllegalArgument("Reviewer not found: " + Digits(reviewerId)))
    else
      var reviewer := admins[reviewerId];
      if reviewer.isActive.None? then Fail(NullPointer("isActive"))
      else if !reviewer.isActive.value then Fail(IllegalArgument("Cannot assign to inactive reviewer: " + JavaText(reviewer.username)))
      else Ok(t[id := t[id].(assignedReviewerId := Some(reviewerId), status := Some(IN_REVIEW),
                             reviewStartedAt := Some(now), lastUpdatedAt := Some(now))])
  }

  /* isDuplicate: the duplicate query returns a row. */
  function IsDuplicate(t: CandidateTable, organizationName: Option<string>, programName: Option<string>): (r: bool)
    ensures r <==> exists id :: id in t && IsDuplicateOf(t[id], organizationName, programName)
  {
    FirstDuplicate(t, organizationName, programName).Some?
  }

  /* A candidate approved once cannot be approved again. */
  lemma ApproveTwiceFails(t: CandidateTable, id: Uuid, a1: Option<Uuid>, a2: Option<Uuid>,
                          n1: Option<string>, n2: Option<string>, now1: Instant, now2: Instant)
    requires ApproveCandidate(t, id, a1, n1, now1).Ok?
    ensures ApproveCandidate(ApproveCandidate(t, id, a1, n1, now1).value, id, a2, n2, now2) ==
      Fail(IllegalState("Candidate " + Digits(id) + " is already approved"))
  {
  }

  /* Only APPROVED is guarded: a rejected candidate that meets the other rules is approved. */
  lemma RejectedCandidateCanBeApproved(t: CandidateTable, id: Uuid, admin: Option<Uuid>, reason: Option<string>,
                                       notes: Option<string>, now1: Instant, now2: Instant)
    requires id in t && t[id].status != Some(REJECTED) && Approvable(t[id])
    ensures RejectCandidate(t, id, admin, reason, now1).Ok?
    ensures var rejected := RejectCandidate(t, id, admin, reason, now1).value;
      && ApproveCandidate(rejected, id, admin, notes, now2).Ok?
      && ApproveCandidate(rejected, id, admin, notes, now2).value[id].rejectionReason == reason
  {
    var rejected := RejectCandidate(t, id, admin, reason, now1).value;
    assert MissingField(rejected[id]) == MissingField(t[id]);
  }

  /* Rejecting twice fails the second time, whatever happened in between. */
  lemma RejectTwiceFails(t: CandidateTable, id: Uuid, a1: Option<Uuid>, a2: Option<Uuid>,
                         r1: Option<string>, r2: Option<string>, now1: Instant, now2: Instant)
    requires RejectCandidate(t, id, a1, r1, now1).Ok?
    ensures RejectCandidate(RejectCandidate(t, id, a1, r1, now1).value, id, a2, r2, now2) ==
      Fail(IllegalState("Candidate " + Digits(id) + " is already rejected"))
  {
  }

  function ApprovedCount(cs: seq<FundingSourceCandidate>): (n: nat)
    ensures n <= |cs|
  {
    if cs == [] then 0 else ApprovedCount(cs[..|cs| - 1]) + (if cs[|cs| - 1].status == Some(APPROVED) then 1 else 0)
  }

  /* All of the list is approved exactly when the count reaches its length. */
  lemma {:induction false} ApprovedCountFull(cs: seq<FundingSourceCandidate>)
    ensures ApprovedCount(cs) == |cs| <==> forall i :: 0 <= i < |cs| ==> cs[i].status == Some(APPROVED)
    ensures ApprovedCount(cs) == 0 <==> forall i :: 0 <= i < |cs| ==> cs[i].status != Some(APPROVED)
  {
    if cs != [] {
      var init := cs[..|cs| - 1];
      ApprovedCountFull(init);
      assert forall i :: 0 <= i < |init| ==> init[i] == cs[i];
    }
  }

  /* calculateApprovalRate: 0 for no candidates, else the approved share (exact, without double rounding). */
  function CalculateApprovalRate(cs: seq<FundingSourceCandidate>): (r: real)
    ensures 0.0 <= r <= 1.0
    ensures cs == [] ==> r == 0.0
    ensures cs != [] ==> r * (|cs| as real) == ApprovedCount(cs) as real
  {
    if cs == [] then 0.0 else (ApprovedCount(cs) as real) / (|cs| as real)
  }

  /* The rate is 1 exactly when every candidate is approved, and 0 exactly when none is. */
  lemma ApprovalRateExtremes(cs: seq<FundingSourceCandidate>)
    requires cs != []
    ensures CalculateApprovalRate(cs) == 1.0 <==> forall i :: 0 <= i < |cs| ==> cs[i].status == Some(APPROVED)
    ensures CalculateApprovalRate(cs) == 0.0 <==> forall i :: 0 <= i < |cs| ==> cs[i].status != Some(APPROVED)
  {
    ApprovedCountFull(cs);
  }
}
