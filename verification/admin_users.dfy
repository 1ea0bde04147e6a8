/**
 The administrators who review candidates, and the workload and review
 statistics they keep. The counters are nullable Java Integers with int
 arithmetic, so sums and products wrap at 32 bits and division truncates.
 */
module AdminUsers {
  import opened Wrappers
  import opened Store
  import opened JavaInt

  datatype AdminUser = AdminUser(
    userId: Option<Uuid>,
    username: Option<string>,
    fullName: Option<string>,
    email: Option<string>,
    isActive: Option<bool>,
    candidatesReviewed: Option<int>,
    averageReviewTimeMinutes: Option<int>,
    currentWorkload: Option<int>,
    maxConcurrentAssignments: Option<int>)

  /* canTakeNewAssignment: active, with both workload figures present and room left. */
  predicate CanTakeNewAssignment(u: AdminUser) {
    && u.isActive == Some(true)
    && u.currentWorkload.Some? && u.maxConcurrentAssignments.Some?
    && u.currentWorkload.value < u.maxConcurrentAssignments.value
  }

  /* incrementWorkload: one more assignment, only when the user can take it. */
  function IncrementWorkload(u: AdminUser): (r: AdminUser)
    ensures CanTakeNewAssignment(u) ==> r == u.(currentWorkload := Some(u.currentWorkload.value + 1))
    ensures !CanTakeNewAssignment(u) ==> r == u
  {
    if CanTakeNewAssignment(u) then u.(currentWorkload := Some(u.currentWorkload.value + 1)) else u
  }

  /* decrementWorkload: one assignment fewer, only from a positive workload. */
  function DecrementWorkload(u: AdminUser): (r: AdminUser)
    ensures u.currentWorkload.Some? && u.currentWorkload.value > 0 ==> r == u.(currentWorkload := Some(u.currentWorkload.value - 1))
    ensures !(u.currentWorkload.Some? && u.currentWorkload.value > 0) ==> r == u
  {
    if u.currentWorkload.Some? && u.currentWorkload.value > 0 then u.(currentWorkload := Some(u.currentWorkload.value - 1)) else u
  }

  /* The workload invariant: when both figures are known, 0 <= workload <= max. */
  predicate WorkloadInRange(u: AdminUser) {
    u.currentWorkload.Some? && u.maxConcurrentAssignments.Some? ==>
      0 <= u.currentWorkload.value <= u.maxConcurrentAssignments.value
  }

  datatype WorkloadChange = Assign | Release

  function ApplyChange(u: AdminUser, c: WorkloadChange): AdminUser {
    match c
    case Assign => IncrementWorkload(u)
    case Release => DecrementWorkload(u)
  }

  function ApplyChanges(u: AdminUser, cs: seq<WorkloadChange>): AdminUser
    decreases |cs|
  {
    if cs == [] then u else ApplyChanges(ApplyChange(u, cs[0]), cs[1..])
  }

  /* Any run of assignments and releases keeps the workload between 0 and the maximum. */
  lemma {:induction false} WorkloadStaysInRange(u: AdminUser, cs: seq<WorkloadChange>)
    requires WorkloadInRange(u)
    ensures WorkloadInRange(ApplyChanges(u, cs))
    ensures ApplyChanges(u, cs).maxConcurrentAssignments == u.maxConcurrentAssignments
    ensures ApplyChanges(u, cs).currentWorkload.Some? <==> u.currentWorkload.Some?
    decreases |cs|
  {
    if cs != [] {
      WorkloadStaysInRange(ApplyChange(u, cs[0]), cs[1..]);
    }
  }

  /* Taking an assignment and releasing it restores the user. */
  lemma AssignThenRelease(u: AdminUser)
    requires CanTakeNewAssignment(u) && u.currentWorkload.value >= 0
    ensures DecrementWorkload(IncrementWorkload(u)) == u
  {
  }

  /*
   The user after one review: null statistics first default to zero. When
   the count wraps to zero the division throws; the Java object has by then
   already taken the defaults and the wrapped count, a partial update the
   failure here does not carry.
   */
  function UpdateReviewStatistics(u: AdminUser, approved: bool, reviewTimeMinutes: int): (r: Result<AdminUser>)
    ensures var n := Wrap32(u.candidatesReviewed.GetOr(0) + 1);
      && (r.Fail? <==> n == 0)
      && (r.Fail? ==> r.error == Arithmetic("/ by zero"))
      && (r.Ok? ==>
            && r.value.candidatesReviewed == Some(n)
            && r.value.averageReviewTimeMinutes ==
                 Some(Div32(Wrap32(Wrap32(u.averageReviewTimeMinutes.GetOr(0) * Wrap32(n - 1)) + reviewTimeMinutes), n))
            && r.value.(candidatesReviewed := u.candidatesReviewed,
                        averageReviewTimeMinutes := u.averageReviewTimeMinutes) == u)
  {
    var reviewed := u.candidatesReviewed.GetOr(0);
    var average := u.averageReviewTimeMinutes.GetOr(0);
    var n := Wrap32(reviewed + 1);
    var total := Wrap32(Wrap32(average * Wrap32(n - 1)) + reviewTimeMinutes);
    if n == 0 then Fail(Arithmetic("/ by zero"))
    else Ok(u.(candidatesReviewed := Some(n), averageReviewTimeMinutes := Some(Div32(total, n))))
  }

  /* Null statistics behave as zeros. */
  lemma NullStatisticsAreZero(u: AdminUser, approved: bool, t: int)
    requires u.candidatesReviewed.None? && u.averageReviewTimeMinutes.None?
    ensures UpdateReviewStatistics(u, approved, t).Ok?
    ensures UpdateReviewStatistics(u, approved, t).value.(candidatesReviewed := None, averageReviewTimeMinutes := None) ==
            UpdateReviewStatistics(u.(candidatesReviewed := Some(0), averageReviewTimeMinutes := Some(0)), approved, t)
              .value.(candidatesReviewed := None, averageReviewTimeMinutes := None)
    ensures UpdateReviewStatistics(u, approved, t).value.candidatesReviewed ==
            UpdateReviewStatistics(u.(candidatesReviewed := Some(0), averageReviewTimeMinutes := Some(0)), approved, t).value.candidatesReviewed
    ensures UpdateReviewStatistics(u, approved, t).value.averageReviewTimeMinutes ==
            UpdateReviewStatistics(u.(candidatesReviewed := Some(0), averageReviewTimeMinutes := Some(0)), approved, t).value.averageReviewTimeMinutes
  {
  }

  /* The first review sets the average to that review's time. */
  lemma FirstReview(u: AdminUser, approved: bool, t: int)
    requires u.candidatesReviewed.GetOr(0) == 0 && IsInt32(t)
    ensures UpdateReviewStatistics(u, approved, t).Ok?
    ensures UpdateReviewStatistics(u, approved, t).value.candidatesReviewed == Some(1)
    ensures UpdateReviewStatistics(u, approved, t).value.averageReviewTimeMinutes == Some(t)
  {
    var total := Wrap32(Wrap32(u.averageReviewTimeMinutes.GetOr(0) * 0) + t);
    assert total == t;
  }

  /*
   Without overflow the new average is the truncated running mean, and it
   lies between the old average and the new review time.
   */
  lemma RunningMean(u: AdminUser, approved: bool, t: int)
    requires u.candidatesReviewed.Some? && u.averageReviewTimeMinutes.Some?
    requires var k := u.candidatesReviewed.value; var a := u.averageReviewTimeMinutes.value;
      0 <= k < IntMax && 0 <= a && 0 <= t && a * k + t <= IntMax
    ensures var k := u.candidatesReviewed.value; var a := u.averageReviewTimeMinutes.value;
      var r := UpdateReviewStatistics(u, approved, t);
      && r.Ok?
      && r.value.averageReviewTimeMinutes == Some((a * k + t) / (k + 1))
      && (a <= t ==> a <= r.value.averageReviewTimeMinutes.value <= t)
      && (t <= a ==> t <= r.value.averageReviewTimeMinutes.value <= a)
  {
    var k := u.candidatesReviewed.value;
    var a := u.averageReviewTimeMinutes.value;
    NoWrap(k, a, t);
    var x := a * k + t;
    assert UpdateReviewStatistics(u, approved, t).value.averageReviewTimeMinutes == Some(Div32(x, k + 1));
    assert Div32(x, k + 1) == x / (k + 1);
    if a <= t {
      MeanBetween(a, t, k);
    } else {
      MeanLower(a, t, k);
    }
  }

  /* The review statistics of a plausible user stay far from the int limits. */
  lemma NoWrap(k: int, a: int, t: int)
    requires 0 <= k < IntMax && 0 <= a && 0 <= t && a * k + t <= IntMax
    ensures Wrap32(k + 1) == k + 1 && Wrap32(k + 1 - 1) == k
    ensures 0 <= a * k && IsInt32(a * k + t)
    ensures Wrap32(Wrap32(a * k) + t) == a * k + t
  {
    MulNonneg(a, k);
  }

  /* floor((a*k + t)/(k+1)) lies between a and t when a <= t. */
  lemma MeanBetween(a: int, t: int, k: nat)
    requires 0 <= a <= t
    ensures a <= (a * k + t) / (k + 1) <= t
  {
    var m := (a * k + t) / (k + 1);
    assert a * (k + 1) <= a * k + t;
    assert a * k + t <= t * (k + 1) by {
      assert a * k <= t * k by { MulLe(a, t, k); }
    }
    DivBounds(a * k + t, k + 1, a, t);
  }

  /* floor((a*k + t)/(k+1)) lies between t and a when t < a. */
  lemma MeanLower(a: int, t: int, k: nat)
    requires 0 <= t < a
    ensures t <= (a * k + t) / (k + 1) <= a
  {
    assert t * (k + 1) <= a * k + t by { MulLe(t, a, k); }
    assert a * k + t <= a * (k + 1);
    DivBounds(a * k + t, k + 1, t, a);
  }

  lemma MulLe(a: int, b: int, k: nat)
    requires a <= b
    ensures a * k <= b * k
  {
    assert b * k - a * k == (b - a) * k;
  }

  lemma DivBounds(x: int, d: int, lo: int, hi: int)
    requires d > 0 && lo * d <= x <= hi * d
    ensures lo <= x / d <= hi
  {
    var q := x / d;
    assert q * d <= x < q * d + d;
    if q < lo {
      assert (q + 1) * d <= lo * d by { MulLe(q + 1, lo, d); }
    }
    if q > hi {
      assert (hi + 1) * d <= q * d by { MulLe(hi + 1, q, d); }
    }
  }
}
