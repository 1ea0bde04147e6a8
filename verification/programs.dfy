/**
 The persistence-layer funding program service: register-or-get by the
 program's URL, the single-record status changes, and the sweep that
 expires every program whose application deadline has passed.
 */
module Programs {
  import opened Wrappers
  import opened Time
  import opened Store

  /* The program lifecycle; ARCHIVED is the state the expiry sweep also leaves alone. */
  datatype ProgramStatus = DISCOVERED | ACTIVE | EXPIRED | ARCHIVED

  /* The funding_program row. Confidence is in hundredths, like every other score. */
  datatype FundingProgram = FundingProgram(
    programId: Option<Uuid>,
    organizationId: Option<Uuid>,
    domain: Option<string>,
    programName: Option<string>,
    programUrl: Option<string>,
    description: Option<string>,
    eligibilityCriteria: Option<string>,
    geographicScope: Option<string>,
    fundingAmount: Option<string>,
    applicationDeadline: Option<Instant>,
    fundingPeriod: Option<Instant>,
    isRecurring: Option<bool>,
    recurrencePattern: Option<string>,
    discoveredAt: Option<Instant>,
    discoverySessionId: Option<Uuid>,
    searchResultId: Option<Uuid>,
    programConfidence: Option<int>,
    isValidFundingOpportunity: Option<bool>,
    status: Option<ProgramStatus>,
    lastRefreshedAt: Option<Instant>,
    isActive: Option<bool>,
    candidateId: Option<Uuid>,
    notes: Option<string>)

  type ProgramTable = map<Uuid, FundingProgram>

  function NotFound(id: Uuid): Exception {
    IllegalArgument("Program not found: " + Digits(id))
  }

  /* findByProgramUrl. */
  function FindByUrl(t: ProgramTable, url: Option<string>): (r: Option<Uuid>)
    ensures r.Some? ==> r.value in t && t[r.value].programUrl == url
    ensures r.None? ==> forall id :: id in t ==> t[id].programUrl != url
  {
    FindWhere(t, (p: FundingProgram) => p.programUrl == url)
  }

  /* programExists: some stored program has the URL. */
  function ProgramExists(t: ProgramTable, url: Option<string>): (r: bool)
    ensures r <==> exists id :: id in t && t[id].programUrl == url
  {
    FindByUrl(t, url).Some?
  }

  /* Saving under the id the URL lookup found, or under any id when the URL was unknown, makes that id the one found. */
  lemma FindByUrlAfterSave(t: ProgramTable, url: Option<string>, id: Uuid, p: FundingProgram)
    requires p.programUrl == url
    requires FindByUrl(t, url) == Some(id) || FindByUrl(t, url).None?
    ensures FindByUrl(t[id := p], url) == Some(id)
  {
    assert id in t[id := p] && t[id := p][id].programUrl == url;
  }

  /* The builder's record for a new program: DISCOVERED by default, active, found at `now`, all else null. */
  function NewProgram(organizationId: Option<Uuid>, domain: Option<string>, programName: Option<string>,
                      programUrl: Option<string>, description: Option<string>, now: Instant): FundingProgram
  {
    FundingProgram(None, organizationId, domain, programName, programUrl, description,
                   None, None, None, None, None, None, None, Some(now), None, None, None, None,
                   Some(DISCOVERED), None, Some(true), None, None)
  }

  /* registerProgram: the stored program with the URL if there is one, else a new active program saved under `freshId`. */
  function RegisterProgram(t: ProgramTable, organizationId: Option<Uuid>, domain: Option<string>,
                           programName: Option<string>, programUrl: Option<string>, description: Option<string>,
                           now: Instant, freshId: Uuid): (r: (ProgramTable, FundingProgram))
    ensures FindByUrl(t, programUrl).Some? ==> r.0 == t && r.1 == t[FindByUrl(t, programUrl).value]
    ensures FindByUrl(t, programUrl).None? ==>
      && r.0 == t[freshId := r.1]
      && r.1.programId == Some(freshId)
      && r.1.organizationId == organizationId && r.1.domain == domain
      && r.1.programName == programName && r.1.programUrl == programUrl && r.1.description == description
      && r.1.isActive == Some(true) && r.1.status == Some(DISCOVERED) && r.1.discoveredAt == Some(now)
      && r.1.applicationDeadline.None? && r.1.isValidFundingOpportunity.None?
    ensures r.1.programUrl == programUrl
  {
    match FindByUrl(t, programUrl)
    case Some(id) => (t, t[id])
    case None =>
      var saved := NewProgram(organizationId, domain, programName, programUrl, description, now).(programId := Some(freshId));
      (t[freshId := saved], saved)
  }

  /* Registering the same URL again, with any other details, returns the first registration and saves nothing. */
  lemma RegisterProgramIdempotent(t: ProgramTable, url: Option<string>,
                                  o1: Option<Uuid>, o2: Option<Uuid>, d1: Option<string>, d2: Option<string>,
                                  n1: Option<string>, n2: Option<string>, s1: Option<string>, s2: Option<string>,
                                  now1: Instant, now2: Instant, id1: Uuid, id2: Uuid)
    ensures var once := RegisterProgram(t, o1, d1, n1, url, s1, now1, id1);
      RegisterProgram(once.0, o2, d2, n2, url, s2, now2, id2) == once
  {
    var once := RegisterProgram(t, o1, d1, n1, url, s1, now1, id1);
    if FindByUrl(t, url).None? {
      FindByUrlAfterSave(t, url, id1, once.1);
    }
  }

  /* After registering, the URL is known to programExists. */
  lemma RegisteredProgramExists(t: ProgramTable, o: Option<Uuid>, d: Option<string>, n: Option<string>,
                                url: Option<string>, s: Option<string>, now: Instant, freshId: Uuid)
    ensures ProgramExists(RegisterProgram(t, o, d, n, url, s, now, freshId).0, url)
  {
    var r := RegisterProgram(t, o, d, n, url, s, now, freshId);
    if FindByUrl(t, url).None? {
      assert freshId in r.0 && r.0[freshId].programUrl == url;
    } else {
      var id := FindByUrl(t, url).value;
      assert id in r.0 && r.0[id].programUrl == url;
    }
  }

  /* The one-record updates below all look the program up first and throw on an unknown id. */
  function Update(t: ProgramTable, id: Uuid, p: FundingProgram): Result<(ProgramTable, FundingProgram)> {
    Ok((t[id := p], p))
  }

  /* updateStatus: the status and the refresh time change, nothing else. */
  function UpdateStatus(t: ProgramTable, id: Uuid, status: Option<ProgramStatus>, now: Instant): (r: Result<(ProgramTable, FundingProgram)>)
    ensures r.Fail? <==> id !in t
    ensures r.Fail? ==> r.error == NotFound(id)
    ensures r.Ok? ==>
      && OnlyRecordChanged(t, r.value.0, id) && r.value.1 == r.value.0[id]
      && r.value.1.status == status && r.value.1.lastRefreshedAt == Some(now)
      && r.value.1.(status := t[id].status, lastRefreshedAt := t[id].lastRefreshedAt) == t[id]
  {
    if id !in t then Fail(NotFound(id))
    else Update(t, id, t[id].(status := status, lastRefreshedAt := Some(now)))
  }

  /* markAsValidFundingOpportunity: flags the program valid with the given confidence. */
  function MarkAsValidFundingOpportunity(t: ProgramTable, id: Uuid, confidence: Option<int>, now: Instant): (r: Result<(ProgramTable, FundingProgram)>)
    ensures r.Fail? <==> id !in t
    ensures r.Fail? ==> r.error == NotFound(id)
    ensures r.Ok? ==>
      && OnlyRecordChanged(t, r.value.0, id) && r.value.1 == r.value.0[id]
      && r.value.1.isValidFundingOpportunity == Some(true) && r.value.1.programConfidence == confidence
      && r.value.1.lastRefreshedAt == Some(now)
      && r.value.1.(isValidFundingOpportunity := t[id].isValidFundingOpportunity,
                    programConfidence := t[id].programConfidence, lastRefreshedAt := t[id].lastRefreshedAt) == t[id]
  {
    if id !in t then Fail(NotFound(id))
    else Update(t, id, t[id].(isValidFundingOpportunity := Some(true), programConfidence := confidence,
                              lastRefreshedAt := Some(now)))
  }

  /* updateDeadline: a new (possibly null) deadline and the refresh time. */
  function UpdateDeadline(t: ProgramTable, id: Uuid, deadline: Option<Instant>, now: Instant): (r: Result<(ProgramTable, FundingProgram)>)
    ensures r.Fail? <==> id !in t
    ensures r.Fail? ==> r.error == NotFound(id)
    ensures r.Ok? ==>
      && OnlyRecordChanged(t, r.value.0, id) && r.value.1 == r.value.0[id]
      && r.value.1.applicationDeadline == deadline && r.value.1.lastRefreshedAt == Some(now)
      && r.value.1.(applicationDeadline := t[id].applicationDeadline, lastRefreshedAt := t[id].lastRefreshedAt) == t[id]
  {
    if id !in t then Fail(NotFound(id))
    else Update(t, id, t[id].(applicationDeadline := deadline, lastRefreshedAt := Some(now)))
  }

  /* The record a program becomes when it expires. */
  function Expired(p: FundingProgram): (e: FundingProgram)
    ensures e.status == Some(EXPIRED) && e.isActive == Some(false)
    ensures e.(status := p.status, isActive := p.isActive) == p
  {
    p.(status := Some(EXPIRED), isActive := Some(false))
  }

  /* markAsExpired: EXPIRED and inactive; the refresh time is left alone. */
  function MarkAsExpired(t: ProgramTable, id: Uuid): (r: Result<(ProgramTable, FundingProgram)>)
    ensures r.Fail? <==> id !in t
    ensures r.Fail? ==> r.error == NotFound(id)
    ensures r.Ok? ==>
      && OnlyRecordChanged(t, r.value.0, id) && r.value.1 == r.value.0[id]
      && r.value.1.status == Some(EXPIRED) && r.value.1.isActive == Some(false)
      && r.value.1.lastRefreshedAt == t[id].lastRefreshedAt
  {
    if id !in t then Fail(NotFound(id))
    else Update(t, id, Expired(t[id]))
  }

  /* deactivate: only isActive changes. */
  function Deactivate(t: ProgramTable, id: Uuid): (r: Result<(ProgramTable, FundingProgram)>)
    ensures r.Fail? <==> id !in t
    ensures r.Fail? ==> r.error == NotFound(id)
    ensures r.Ok? ==>
      && OnlyRecordChanged(t, r.value.0, id) && r.value.1 == r.value.0[id]
      && r.value.1 == t[id].(isActive := Some(false))
  {
    if id !in t then Fail(NotFound(id))
    else Update(t, id, t[id].(isActive := Some(false)))
  }

  /* Expiring twice leaves the table as the first expiry left it. */
  lemma MarkAsExpiredIdempotent(t: ProgramTable, id: Uuid)
    requires id in t
    ensures MarkAsExpired(t, id).Ok?
    ensures MarkAsExpired(MarkAsExpired(t, id).value.0, id) == MarkAsExpired(t, id)
  {
    var once := MarkAsExpired(t, id).value;
    assert once.0[id := Expired(once.0[id])] == once.0;
  }

  /*
   The rows findExpiredPrograms selects: a deadline strictly before `now`
   and a status other than EXPIRED or ARCHIVED. A null deadline or a null
   status makes the SQL comparison unknown, so such a row is not selected.
   */
  predicate PastDeadline(p: FundingProgram, now: Instant) {
    && p.applicationDeadline.Some? && p.applicationDeadline.value < now
    && p.status.Some? && p.status.value != EXPIRED && p.status.value != ARCHIVED
  }

  /* markExpiredPrograms: every selected program expires; the result is how many were selected. */
  function MarkExpiredPrograms(t: ProgramTable, now: Instant): (r: (ProgramTable, nat))
    ensures r.0.Keys == t.Keys
    ensures forall id :: id in t && PastDeadline(t[id], now) ==> r.0[id] == Expired(t[id])
    ensures forall id :: id in t && !PastDeadline(t[id], now) ==> r.0[id] == t[id]
  {
    var expired := map id | id in t :: if PastDeadline(t[id], now) then Expired(t[id]) else t[id];
    (expired, |set id | id in t && PastDeadline(t[id], now)|)
  }

  /* The ids whose status the sweep turned to EXPIRED. */
  function NewlyExpired(before: ProgramTable, after: ProgramTable): set<Uuid> {
    set id | id in before && id in after && before[id].status != Some(EXPIRED) && after[id].status == Some(EXPIRED)
  }

  /* The count returned is exactly the number of programs the sweep newly expired. */
  lemma MarkExpiredCountsChanges(t: ProgramTable, now: Instant)
    ensures var r := MarkExpiredPrograms(t, now);
      r.1 == |NewlyExpired(t, r.0)|
  {
    var r := MarkExpiredPrograms(t, now);
    assert NewlyExpired(t, r.0) == set id | id in t && PastDeadline(t[id], now);
  }

  /* After a sweep no program is past its deadline and unexpired, so an immediate second sweep changes nothing. */
  lemma MarkExpiredProgramsIdempotent(t: ProgramTable, now: Instant)
    ensures var r := MarkExpiredPrograms(t, now);
      && (forall id :: id in r.0 ==> !PastDeadline(r.0[id], now))
      && MarkExpiredPrograms(r.0, now) == (r.0, 0)
  {
    var r := MarkExpiredPrograms(t, now);
    var again := MarkExpiredPrograms(r.0, now);
    assert (set id | id in r.0 && PastDeadline(r.0[id], now)) == {};
    assert again.0 == r.0;
  }

  /* The sweep does to each selected program what markAsExpired does to it. */
  lemma SweepAgreesWithMarkAsExpired(t: ProgramTable, now: Instant, id: Uuid)
    requires id in t && PastDeadline(t[id], now)
    ensures MarkAsExpired(t, id).Ok?
    ensures MarkExpiredPrograms(t, now).0[id] == MarkAsExpired(t, id).value.1
  {
  }
}
