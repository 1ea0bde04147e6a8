/**
 Discovery sessions and the persistence service that moves them through
 their lifecycle: a status update stamps the completion time of a finished
 session, completing records the counts and the duration, failing records
 the errors. Every mutator looks the session up first and throws for an
 unknown id, saving nothing. The clock is a parameter.
 */
module Sessions {
  import opened Wrappers
  import opened Time
  import opened Store
  import opened JavaInt

  datatype SessionStatus = RUNNING | COMPLETED | FAILED | CANCELLED

  datatype SessionType = SCHEDULED | MANUAL | RETRY

  /* A discovery session; the averaged confidence is in hundredths. */
  datatype DiscoverySession = DiscoverySession(
    sessionId: Option<Uuid>,
    executedAt: Option<Instant>,
    executedBy: Option<string>,
    sessionType: Option<SessionType>,
    status: Option<SessionStatus>,
    durationMinutes: Option<int>,
    startedAt: Option<Instant>,
    completedAt: Option<Instant>,
    searchQueries: seq<string>,
    candidatesFound: int,
    duplicatesDetected: int,
    sourcesScraped: int,
    averageConfidenceScore: Option<int>,
    errorMessages: Option<seq<string>>)

  /* The builder's defaults: a scheduled session, RUNNING, started and executed now. */
  function NewSession(now: Instant): (s: DiscoverySession)
    ensures s.status == Some(RUNNING) && s.startedAt == Some(now) && s.completedAt.None?
    ensures s.candidatesFound == 0 && s.duplicatesDetected == 0 && s.sourcesScraped == 0
  {
    DiscoverySession(None, Some(now), Some("SYSTEM"), Some(SCHEDULED), Some(RUNNING), None,
                     Some(now), None, [], 0, 0, 0, None, None)
  }

  type SessionTable = map<Uuid, DiscoverySession>

  function NotFound(id: Uuid): Exception {
    IllegalArgument("Session not found: " + Digits(id))
  }

  /* A session whose status ends the run. */
  predicate IsFinished(status: Option<SessionStatus>) {
    status == Some(COMPLETED) || status == Some(FAILED)
  }

  /* The lifecycle invariant: every finished session carries its completion time. */
  predicate Stamped(t: SessionTable) {
    forall id :: id in t && IsFinished(t[id].status) ==> t[id].completedAt.Some?
  }

  /* updateStatus: sets the status, and the completion time exactly when the status finishes the run. */
  function UpdateStatus(t: SessionTable, id: Uuid, status: Option<SessionStatus>, now: Instant): (r: Result<SessionTable>)
    ensures r.Fail? <==> id !in t
    ensures r.Fail? ==> r.error == NotFound(id)
    ensures r.Ok? ==>
      && OnlyRecordChanged(t, r.value, id)
      && r.value[id].status == status
      && (IsFinished(status) ==> r.value[id].completedAt == Some(now))
      && (!IsFinished(status) ==> r.value[id].completedAt == t[id].completedAt)
      && r.value[id].(status := t[id].status, completedAt := t[id].completedAt) == t[id]
  {
    if id !in t then Fail(NotFound(id))
    else
      var s := t[id].(status := status);
      var s' := if IsFinished(status) then s.(completedAt := Some(now)) else s;
      Ok(t[id := s'])
  }

  /* The duration of a session completed at `now`: only a session with a start time gets one. */
  function DurationAt(startedAt: Option<Instant>, now: Instant, current: Option<int>): (d: Option<int>)
    ensures startedAt.None? ==> d == current
    ensures startedAt.Some? ==> d.Some? && IsInt32(d.value)
  {
    if startedAt.Some? then Some(Wrap32(MinutesBetween(startedAt.value, now))) else current
  }

  /* completeSession: COMPLETED now, the three counts, and a duration when the session has a start time. */
  function CompleteSession(t: SessionTable, id: Uuid, candidatesFound: int, duplicatesDetected: int,
                           sourcesScraped: int, now: Instant): (r: Result<SessionTable>)
    ensures r.Fail? <==> id !in t
    ensures r.Fail? ==> r.error == NotFound(id)
    ensures r.Ok? ==>
      && OnlyRecordChanged(t, r.value, id)
      && r.value[id].status == Some(COMPLETED)
      && r.value[id].completedAt == Some(now)
      && r.value[id].candidatesFound == candidatesFound
      && r.value[id].duplicatesDetected == duplicatesDetected
      && r.value[id].sourcesScraped == sourcesScraped
      && r.value[id].durationMinutes == DurationAt(t[id].startedAt, now, t[id].durationMinutes)
      && r.value[id].(status := t[id].status, completedAt := t[id].completedAt,
                      candidatesFound := t[id].candidatesFound, duplicatesDetected := t[id].duplicatesDetected,
                      sourcesScraped := t[id].sourcesScraped, durationMinutes := t[id].durationMinutes) == t[id]
  {
    if id !in t then Fail(NotFound(id))
    else
      var s := t[id];
      var s' := s.(status := Some(COMPLETED), completedAt := Some(now), candidatesFound := candidatesFound,
                   duplicatesDetected := duplicatesDetected, sourcesScraped := sourcesScraped,
                   durationMinutes := DurationAt(s.startedAt, now, s.durationMinutes));
      Ok(t[id := s'])
  }

  /* failSession: FAILED now, with the given error messages. */
  function FailSession(t: SessionTable, id: Uuid, errorMessages: Option<seq<string>>, now: Instant): (r: Result<SessionTable>)
    ensures r.Fail? <==> id !in t
    ensures r.Fail? ==> r.error == NotFound(id)
    ensures r.Ok? ==>
      && OnlyRecordChanged(t, r.value, id)
      && r.value[id].status == Some(FAILED)
      && r.value[id].completedAt == Some(now)
      && r.value[id].errorMessages == errorMessages
      && r.value[id].(status := t[id].status, completedAt := t[id].completedAt, errorMessages := t[id].errorMessages) == t[id]
  {
    if id !in t then Fail(NotFound(id))
    else Ok(t[id := t[id].(status := Some(FAILED), completedAt := Some(now), errorMessages := errorMessages)])
  }

  /* updateStatistics: records the average confidence and nothing else. */
  function UpdateStatistics(t: SessionTable, id: Uuid, averageConfidence: Option<int>): (r: Result<SessionTable>)
    ensures r.Fail? <==> id !in t
    ensures r.Fail? ==> r.error == NotFound(id)
    ensures r.Ok? ==>
      && OnlyRecordChanged(t, r.value, id)
      && r.value[id] == t[id].(averageConfidenceScore := averageConfidence)
  {
    if id !in t then Fail(NotFound(id))
    else Ok(t[id := t[id].(averageConfidenceScore := averageConfidence)])
  }

  /* Every mutator keeps the lifecycle invariant: no finished session lacks its completion time. */
  lemma MutatorsKeepStamped(t: SessionTable, id: Uuid, status: Option<SessionStatus>, c: int, d: int, s: int,
                            errors: Option<seq<string>>, average: Option<int>, now: Instant)
    requires Stamped(t)
    ensures UpdateStatus(t, id, status, now).Ok? ==> Stamped(UpdateStatus(t, id, status, now).value)
    ensures CompleteSession(t, id, c, d, s, now).Ok? ==> Stamped(CompleteSession(t, id, c, d, s, now).value)
    ensures FailSession(t, id, errors, now).Ok? ==> Stamped(FailSession(t, id, errors, now).value)
    ensures UpdateStatistics(t, id, average).Ok? ==> Stamped(UpdateStatistics(t, id, average).value)
  {
    UpdateStatusKeepsStamped(t, id, status, now);
    CompleteKeepsStamped(t, id, c, d, s, now);
    FailKeepsStamped(t, id, errors, now);
    StatisticsKeepStamped(t, id, average);
  }

  lemma UpdateStatusKeepsStamped(t: SessionTable, id: Uuid, status: Option<SessionStatus>, now: Instant)
    requires Stamped(t)
    ensures UpdateStatus(t, id, status, now).Ok? ==> Stamped(UpdateStatus(t, id, status, now).value)
  {
  }

  lemma CompleteKeepsStamped(t: SessionTable, id: Uuid, c: int, d: int, s: int, now: Instant)
    requires Stamped(t)
    ensures CompleteSession(t, id, c, d, s, now).Ok? ==> Stamped(CompleteSession(t, id, c, d, s, now).value)
  {
  }

  lemma FailKeepsStamped(t: SessionTable, id: Uuid, errors: Option<seq<string>>, now: Instant)
    requires Stamped(t)
    ensures FailSession(t, id, errors, now).Ok? ==> Stamped(FailSession(t, id, errors, now).value)
  {
  }

  lemma StatisticsKeepStamped(t: SessionTable, id: Uuid, average: Option<int>)
    requires Stamped(t)
    ensures UpdateStatistics(t, id, average).Ok? ==> Stamped(UpdateStatistics(t, id, average).value)
  {
  }

  /* completeSession finishes a session exactly as updateStatus(COMPLETED) would, as far as status and time go. */
  lemma CompleteAgreesWithUpdateStatus(t: SessionTable, id: Uuid, c: int, d: int, s: int, now: Instant)
    requires id in t
    ensures CompleteSession(t, id, c, d, s, now).value[id].status == UpdateStatus(t, id, Some(COMPLETED), now).value[id].status
    ensures CompleteSession(t, id, c, d, s, now).value[id].completedAt == UpdateStatus(t, id, Some(COMPLETED), now).value[id].completedAt
  {
  }

  /* A plausible run has its elapsed whole minutes as the duration. */
  lemma DurationIsElapsedMinutes(startedAt: Instant, now: Instant, current: Option<int>)
    requires startedAt <= now && now - startedAt < 60 * IntMax
    ensures DurationAt(Some(startedAt), now, current).Some?
    ensures var m := DurationAt(Some(startedAt), now, current).value;
      0 <= m && m * 60 <= now - startedAt < m * 60 + 60
  {
    var m := MinutesBetween(startedAt, now);
    assert m * 60 <= now - startedAt;
    assert m < IntMax;
  }

  /* A run of 2^31 minutes or more overflows the int cast. */
  lemma DurationOverflows(startedAt: Instant)
    ensures DurationAt(Some(startedAt), startedAt + 60 * (IntMax + 1), None) == Some(IntMin)
  {
    assert MinutesBetween(startedAt, startedAt + 60 * (IntMax + 1)) == IntMax + 1;
  }
}
