/**
 The discovery service's handling of a finished search: candidates below
 0.50 are skipped, duplicates of stored candidates are counted and marked,
 and the rest are saved for review under the session, which then records
 its counts, the average confidence and COMPLETED. Because each saved
 candidate is stored before the next is checked, a batch can duplicate
 itself.
 */
module DiscoveryOrchestration {
  import opened Wrappers
  import opened Time
  import opened Store
  import opened Decimal
  import opened Candidates
  import Sessions

  /* 0.50: candidates below it are not kept. */
  const MinimumConfidence: int := 50

  /*
   checkAndMarkDuplicate: with no duplicate row the candidate is kept as
   it is; otherwise it is marked as a duplicate of the first APPROVED row,
   or of the first row when none is approved.
   */
  function CheckAndMarkDuplicate(t: CandidateTable, c: FundingSourceCandidate): (r: (bool, FundingSourceCandidate))
    ensures !r.0 <==> FirstDuplicate(t, c.organizationName, c.programName).None?
    ensures !r.0 ==> r.1 == c
    ensures r.0 ==>
      var master := match FirstApprovedDuplicate(t, c.organizationName, c.programName)
        case Some(a) => a
        case None => FirstDuplicate(t, c.organizationName, c.programName).value;
      r.1 == c.(duplicateOfCandidateId := t[master].candidateId)
  {
    match FirstDuplicate(t, c.organizationName, c.programName)
    case None => (false, c)
    case Some(first) =>
      var master := FirstApprovedDuplicate(t, c.organizationName, c.programName).GetOr(first);
      (true, c.(duplicateOfCandidateId := t[master].candidateId))
  }

  /* An approved duplicate wins over any earlier unapproved one. */
  lemma ApprovedMasterPreferred(t: CandidateTable, c: FundingSourceCandidate, approvedId: Uuid)
    requires approvedId in t && IsDuplicateOf(t[approvedId], c.organizationName, c.programName)
    requires t[approvedId].status == Some(APPROVED)
    requires forall id :: id in t && id != approvedId && IsDuplicateOf(t[id], c.organizationName, c.programName) ==>
               t[id].status != Some(APPROVED)
    ensures CheckAndMarkDuplicate(t, c) == (true, c.(duplicateOfCandidateId := t[approvedId].candidateId))
  {
  }

  /* The state of the loop: the candidate table and the two counters. */
  datatype Batch = Batch(table: CandidateTable, saved: nat, duplicates: nat)

  /* The key a saved candidate is stored under: its own id, or the one the database assigns. */
  function SaveKey(c: FundingSourceCandidate, freshId: Uuid): Uuid {
    c.candidateId.GetOr(freshId)
  }

  /* One loop iteration; a null confidence throws from compareTo. */
  function Step(b: Batch, c: FundingSourceCandidate, sessionId: Uuid, now: Instant, freshId: Uuid): (r: Result<Batch>)
    ensures r.Fail? <==> c.confidenceScore.None?
    ensures r.Ok? && c.confidenceScore.value < MinimumConfidence ==> r.value == b
    ensures r.Ok? && c.confidenceScore.value >= MinimumConfidence && CheckAndMarkDuplicate(b.table, c).0 ==>
      r.value == b.(duplicates := b.duplicates + 1)
    ensures r.Ok? && c.confidenceScore.value >= MinimumConfidence && !CheckAndMarkDuplicate(b.table, c).0 ==>
      var key := SaveKey(c, freshId);
      && r.value.saved == b.saved + 1 && r.value.duplicates == b.duplicates
      && r.value.table == b.table[key := c.(candidateId := Some(key), discoverySessionId := Some(sessionId),
                                             status := Some(PENDING_REVIEW), discoveredAt := Some(now))]
  {
    if c.confidenceScore.None? then Fail(NullPointer("confidenceScore"))
    else if c.confidenceScore.value < MinimumConfidence then Ok(b)
    else if CheckAndMarkDuplicate(b.table, c).0 then Ok(b.(duplicates := b.duplicates + 1))
    else
      var key := SaveKey(c, freshId);
      var stored := c.(candidateId := Some(key), discoverySessionId := Some(sessionId),
                       status := Some(PENDING_REVIEW), discoveredAt := Some(now));
      Ok(Batch(b.table[key := stored], b.saved + 1, b.duplicates))
  }

  /* The loop over the batch; `freshIds[i]` is the id the database gives the i-th candidate. */
  function Loop(b: Batch, cs: seq<FundingSourceCandidate>, freshIds: seq<Uuid>, sessionId: Uuid, now: Instant): Result<Batch>
    requires |freshIds| == |cs|
    decreases |cs|
  {
    if cs == [] then Ok(b)
    else
      var b' :- Step(b, cs[0], sessionId, now, freshIds[0]);
      Loop(b', cs[1..], freshIds[1..], sessionId, now)
  }

  predicate HasNullConfidence(cs: seq<FundingSourceCandidate>) {
    exists i :: 0 <= i < |cs| && cs[i].confidenceScore.None?
  }

  function BelowThreshold(cs: seq<FundingSourceCandidate>): (n: nat)
    ensures n <= |cs|
  {
    if cs == [] then 0
    else (if cs[0].confidenceScore.Some? && cs[0].confidenceScore.value < MinimumConfidence then 1 else 0) + BelowThreshold(cs[1..])
  }

  /* The loop fails exactly on a null confidence, and otherwise every candidate is skipped, counted or saved. */
  lemma {:induction false} LoopAccounts(b: Batch, cs: seq<FundingSourceCandidate>, freshIds: seq<Uuid>, sessionId: Uuid, now: Instant)
    requires |freshIds| == |cs|
    ensures Loop(b, cs, freshIds, sessionId, now).Fail? <==> HasNullConfidence(cs)
    ensures Loop(b, cs, freshIds, sessionId, now).Ok? ==>
      var e := Loop(b, cs, freshIds, sessionId, now).value;
      e.saved + e.duplicates + BelowThreshold(cs) == b.saved + b.duplicates + |cs|
    decreases |cs|
  {
    if cs != [] {
      var s := Step(b, cs[0], sessionId, now, freshIds[0]);
      assert forall i :: 1 <= i < |cs| ==> cs[i] == cs[1..][i - 1];
      if s.Ok? {
        LoopAccounts(s.value, cs[1..], freshIds[1..], sessionId, now);
        if HasNullConfidence(cs) {
          var i :| 0 <= i < |cs| && cs[i].confidenceScore.None?;
          assert i != 0;
          assert cs[1..][i - 1].confidenceScore.None?;
        }
      }
    }
  }

  /* calculateAverageConfidence: 0 for an empty list, else the sum over the size, HALF_UP at scale 2. */
  function CalculateAverageConfidence(cs: seq<FundingSourceCandidate>): (r: Result<int>)
    ensures r.Fail? <==> HasNullConfidence(cs)
    ensures cs == [] ==> r == Ok(0)
    ensures r.Ok? && cs != [] ==> r.value == RoundHalfUp(ScoreSum(cs), |cs|)
  {
    if HasNullConfidence(cs) then Fail(NullPointer("confidenceScore"))
    else if cs == [] then Ok(0)
    else Ok(RoundHalfUp(ScoreSum(cs), |cs|))
  }

  function ScoreSum(cs: seq<FundingSourceCandidate>): int {
    if cs == [] then 0 else cs[0].confidenceScore.GetOr(0) + ScoreSum(cs[1..])
  }

  /* Every score lies between lo and hi. */
  predicate ScoresWithin(cs: seq<FundingSourceCandidate>, lo: int, hi: int) {
    forall i :: 0 <= i < |cs| ==> cs[i].confidenceScore.Some? && lo <= cs[i].confidenceScore.value <= hi
  }

  lemma {:induction false} ScoreSumWithin(cs: seq<FundingSourceCandidate>, lo: int, hi: int)
    requires ScoresWithin(cs, lo, hi)
    ensures lo * |cs| <= ScoreSum(cs) <= hi * |cs|
  {
    if cs != [] {
      assert ScoresWithin(cs[1..], lo, hi) by {
        assert forall i :: 0 <= i < |cs| - 1 ==> cs[1..][i] == cs[i + 1];
      }
      ScoreSumWithin(cs[1..], lo, hi);
      assert lo * |cs| == lo * (|cs| - 1) + lo;
      assert hi * |cs| == hi * (|cs| - 1) + hi;
    }
  }

  /* The average of non-negative scores lies between their bounds. */
  lemma AverageWithin(cs: seq<FundingSourceCandidate>, lo: int, hi: int)
    requires cs != [] && 0 <= lo && ScoresWithin(cs, lo, hi)
    ensures CalculateAverageConfidence(cs).Ok?
    ensures lo <= CalculateAverageConfidence(cs).value <= hi
  {
    ScoreSumWithin(cs, lo, hi);
    assert !HasNullConfidence(cs);
    RoundWithin(ScoreSum(cs), |cs|, lo, hi);
  }

  /*
   processDiscoveryResults: an unknown session or a null confidence throws
   and nothing is stored; otherwise the surviving candidates are saved and
   the session records the counts, the average over the whole batch and
   COMPLETED.
   */
  function ProcessDiscoveryResults(sessions: Sessions.SessionTable, t: CandidateTable, sessionId: Uuid,
                                   cs: seq<FundingSourceCandidate>, freshIds: seq<Uuid>, now: Instant)
    : (r: Result<(Sessions.SessionTable, CandidateTable)>)
    requires |freshIds| == |cs|
    ensures r.Fail? <==> sessionId !in sessions || HasNullConfidence(cs)
    ensures sessionId !in sessions ==> r == Fail(Sessions.NotFound(sessionId))
    ensures r.Ok? ==> Loop(Batch(t, 0, 0), cs, freshIds, sessionId, now).Ok? && CalculateAverageConfidence(cs).Ok?
    ensures r.Ok? ==>
      var e := Loop(Batch(t, 0, 0), cs, freshIds, sessionId, now).value;
      && r.value.1 == e.table
      && OnlyRecordChanged(sessions, r.value.0, sessionId)
      && r.value.0[sessionId] == sessions[sessionId].(candidatesFound := e.saved, duplicatesDetected := e.duplicates,
                                                      status := Some(Sessions.COMPLETED),
                                                      averageConfidenceScore := Some(CalculateAverageConfidence(cs).value))
      && e.saved + e.duplicates + BelowThreshold(cs) == |cs|
  {
    if sessionId !in sessions then Fail(Sessions.NotFound(sessionId))
    else
      LoopAccounts(Batch(t, 0, 0), cs, freshIds, sessionId, now);
      var e :- Loop(Batch(t, 0, 0), cs, freshIds, sessionId, now);
      var s := sessions[sessionId].(candidatesFound := e.saved, duplicatesDetected := e.duplicates,
                                    status := Some(Sessions.COMPLETED),
                                    averageConfidenceScore := Some(CalculateAverageConfidence(cs).value));
      Ok((sessions[sessionId := s], e.table))
  }

  /*
   A batch that names the same program twice saves the first and counts the
   second as its duplicate, even when the store held neither.
   */
  lemma BatchDuplicatesItself(sessions: Sessions.SessionTable, t: CandidateTable, sessionId: Uuid,
                              c1: FundingSourceCandidate, c2: FundingSourceCandidate, id1: Uuid, id2: Uuid, now: Instant)
    requires sessionId in sessions
    requires FirstDuplicate(t, c1.organizationName, c1.programName).None?
    requires c1.confidenceScore.Some? && c1.confidenceScore.value >= MinimumConfidence
    requires c2.confidenceScore.Some? && c2.confidenceScore.value >= MinimumConfidence
    requires c1.organizationName.Some? && c1.programName.Some?
    requires c2.organizationName == c1.organizationName && c2.programName == c1.programName
    ensures ProcessDiscoveryResults(sessions, t, sessionId, [c1, c2], [id1, id2], now).Ok?
    ensures var s := ProcessDiscoveryResults(sessions, t, sessionId, [c1, c2], [id1, id2], now).value.0[sessionId];
      s.candidatesFound == 1 && s.duplicatesDetected == 1
  {
    var b0 := Batch(t, 0, 0);
    var b1 := Step(b0, c1, sessionId, now, id1).value;
    var key := SaveKey(c1, id1);
    assert b1.table[key].status == Some(PENDING_REVIEW);
    assert IsDuplicateOf(b1.table[key], c2.organizationName, c2.programName);
    assert CheckAndMarkDuplicate(b1.table, c2).0;
    var b2 := Step(b1, c2, sessionId, now, id2).value;
    assert [c1, c2][1..] == [c2];
    assert Loop(b1, [c2], [id2], sessionId, now) == Loop(b2, [], [], sessionId, now);
    assert !HasNullConfidence([c1, c2]) by {
      assert forall i :: 0 <= i < 2 ==> [c1, c2][i] == (if i == 0 then c1 else c2);
    }
  }
}
