/**
 The seven-day rotation of the nightly search: a fixed table from day of
 week to the categories searched that night, so that every category is
 searched once a week.
 */
module DaySchedule {
  import opened Wrappers
  import opened Categories

  datatype DayOfWeek = MONDAY | TUESDAY | WEDNESDAY | THURSDAY | FRIDAY | SATURDAY | SUNDAY

  const Days: seq<DayOfWeek> := [MONDAY, TUESDAY, WEDNESDAY, THURSDAY, FRIDAY, SATURDAY, SUNDAY]

  /* The lists of each night. */
  const Monday: seq<FundingSearchCategory> :=
    [INDIVIDUAL_SCHOLARSHIPS, STUDENT_FINANCIAL_AID, TEACHER_SCHOLARSHIPS, ACADEMIC_FELLOWSHIPS]
  const Tuesday: seq<FundingSearchCategory> :=
    [PROGRAM_GRANTS, CURRICULUM_DEVELOPMENT, AFTER_SCHOOL_PROGRAMS, SUMMER_PROGRAMS, EXTRACURRICULAR_ACTIVITIES]
  const Wednesday: seq<FundingSearchCategory> := [INFRASTRUCTURE_FUNDING, TECHNOLOGY_EQUIPMENT, LIBRARY_RESOURCES]
  const Thursday: seq<FundingSearchCategory> := [TEACHER_DEVELOPMENT, PROFESSIONAL_TRAINING, ADMINISTRATIVE_CAPACITY]
  const Friday: seq<FundingSearchCategory> :=
    [STEM_EDUCATION, ARTS_EDUCATION, SPECIAL_NEEDS_EDUCATION, LANGUAGE_PROGRAMS]
  const Saturday: seq<FundingSearchCategory> := [COMMUNITY_PARTNERSHIPS, PARENT_ENGAGEMENT, NGO_EDUCATION_PROJECTS]
  const Sunday: seq<FundingSearchCategory> :=
    [EDUCATION_RESEARCH, PILOT_PROGRAMS, INNOVATION_GRANTS, EARLY_CHILDHOOD_EDUCATION,
     ADULT_EDUCATION, VOCATIONAL_TRAINING, EDUCATIONAL_TECHNOLOGY, ARTS_CULTURE]

  /* The SCHEDULE table. */
  const Schedule: map<DayOfWeek, seq<FundingSearchCategory>> := map[
    MONDAY := Monday, TUESDAY := Tuesday, WEDNESDAY := Wednesday, THURSDAY := Thursday,
    FRIDAY := Friday, SATURDAY := Saturday, SUNDAY := Sunday
  ]

  /*
   The theme of each night, stated per category: individual and student
   funding early in the week, infrastructure and staff mid-week, specialised
   and community programmes at the end, research and the catch-all on Sunday.
   */
  function ThemeDay(c: FundingSearchCategory): DayOfWeek {
    match c
    case INDIVIDUAL_SCHOLARSHIPS | STUDENT_FINANCIAL_AID | TEACHER_SCHOLARSHIPS | ACADEMIC_FELLOWSHIPS => MONDAY
    case PROGRAM_GRANTS | CURRICULUM_DEVELOPMENT | AFTER_SCHOOL_PROGRAMS | SUMMER_PROGRAMS | EXTRACURRICULAR_ACTIVITIES => TUESDAY
    case INFRASTRUCTURE_FUNDING | TECHNOLOGY_EQUIPMENT | LIBRARY_RESOURCES => WEDNESDAY
    case TEACHER_DEVELOPMENT | PROFESSIONAL_TRAINING | ADMINISTRATIVE_CAPACITY => THURSDAY
    case STEM_EDUCATION | ARTS_EDUCATION | SPECIAL_NEEDS_EDUCATION | LANGUAGE_PROGRAMS => FRIDAY
    case COMMUNITY_PARTNERSHIPS | PARENT_ENGAGEMENT | NGO_EDUCATION_PROJECTS => SATURDAY
    case _ => SUNDAY
  }

  /* getCategories: a null day throws; otherwise the day's entry of the table, which always exists. */
  function GetCategories(day: Option<DayOfWeek>): (r: Result<seq<FundingSearchCategory>>)
    ensures r.Fail? <==> day.None?
    ensures day.None? ==> r == Fail(IllegalArgument("dayOfWeek cannot be null"))
    ensures day.Some? ==> day.value in Schedule && r == Ok(Schedule[day.value])
    ensures r.Ok? ==> 3 <= |r.value| <= 8
    ensures r.Ok? ==> forall c :: c in r.value <==> ThemeDay(c) == day.value
  {
    if day.None? then Fail(IllegalArgument("dayOfWeek cannot be null"))
    else
      var d := day.value;
      assert d in Schedule by { DayInSchedule(d); }
      ThemeDayMatchesSchedule(d);
      Ok(Schedule[d])
  }

  lemma DayInSchedule(d: DayOfWeek)
    ensures d in Schedule && d in Days
    ensures 3 <= |Schedule[d]| <= 8
  {
  }

  /* A category is on a day's list exactly when that day is its theme day. */
  lemma ThemeDayMatchesSchedule(d: DayOfWeek)
    ensures d in Schedule
    ensures forall c :: c in Schedule[d] <==> ThemeDay(c) == d
  {
    DayInSchedule(d);
    forall c
      ensures c in Schedule[d] <==> ThemeDay(c) == d
    {
      ListedOnThemeDay(c);
      if c in Schedule[d] {
        ListedOnlyOnThemeDay(d, c);
      }
    }
  }

  lemma ListedOnThemeDay(c: FundingSearchCategory)
    ensures ThemeDay(c) in Schedule && c in Schedule[ThemeDay(c)]
  {
    DayInSchedule(ThemeDay(c));
  }

  lemma ListedOnlyOnThemeDay(d: DayOfWeek, c: FundingSearchCategory)
    requires d in Schedule && c in Schedule[d]
    ensures ThemeDay(c) == d
  {
    var i :| 0 <= i < |Schedule[d]| && Schedule[d][i] == c;
    ThemesOfList(d, i);
  }

  /* Every entry of a day's list has that day as its theme day. */
  lemma ThemesOfList(d: DayOfWeek, i: int)
    requires d in Schedule && 0 <= i < |Schedule[d]|
    ensures ThemeDay(Schedule[d][i]) == d
  {
    match d
    case MONDAY => assert i < 4;
    case TUESDAY => assert i < 5;
    case WEDNESDAY => assert i < 3;
    case THURSDAY => assert i < 3;
    case FRIDAY => assert i < 4;
    case SATURDAY => assert i < 3;
    case SUNDAY => assert i < 8;
  }

  /* No list names a category twice. */
  predicate NoRepeats<T(==)>(s: seq<T>) {
    forall i, j :: 0 <= i < j < |s| ==> s[i] != s[j]
  }

  lemma ListsHaveNoRepeats(d: DayOfWeek)
    ensures d in Schedule && NoRepeats(Schedule[d])
  {
    DayInSchedule(d);
  }

  /* The list sizes of the given days, added up. */
  function SizeSum(days: seq<DayOfWeek>): (n: nat)
    requires forall i :: 0 <= i < |days| ==> days[i] in Schedule
  {
    if days == [] then 0 else |Schedule[days[0]]| + SizeSum(days[1..])
  }

  lemma AllDaysInSchedule()
    ensures forall d: DayOfWeek :: d in Schedule
    ensures forall i :: 0 <= i < |Days| ==> Days[i] in Schedule
  {
    forall d: DayOfWeek
      ensures d in Schedule
    {
      DayInSchedule(d);
    }
  }

  /* The week's searches, Monday to Sunday, one after the other. */
  function Week(): seq<FundingSearchCategory> {
    AllDaysInSchedule();
    Schedule[MONDAY] + Schedule[TUESDAY] + Schedule[WEDNESDAY] + Schedule[THURSDAY]
      + Schedule[FRIDAY] + Schedule[SATURDAY] + Schedule[SUNDAY]
  }

  /* getTotalCategories: the sizes of all seven lists added up; that is the length of the week, 30. */
  function GetTotalCategories(): (r: int)
    ensures r == |Week()| && r == 30
  {
    AllDaysInSchedule();
    WeekSize();
    SizeSum(Days)
  }

  lemma WeekSize()
    ensures forall i :: 0 <= i < |Days| ==> Days[i] in Schedule
    ensures SizeSum(Days) == |Week()| == 30
  {
    AllDaysInSchedule();
    var w := Days;
    assert SizeSum(w[6..]) == 8;
    assert SizeSum(w[5..]) == 3 + SizeSum(w[6..]) by { assert w[5..][1..] == w[6..]; }
    assert SizeSum(w[4..]) == 4 + SizeSum(w[5..]) by { assert w[4..][1..] == w[5..]; }
    assert SizeSum(w[3..]) == 3 + SizeSum(w[4..]) by { assert w[3..][1..] == w[4..]; }
    assert SizeSum(w[2..]) == 3 + SizeSum(w[3..]) by { assert w[2..][1..] == w[3..]; }
    assert SizeSum(w[1..]) == 5 + SizeSum(w[2..]) by { assert w[1..][1..] == w[2..]; }
    assert SizeSum(w) == 4 + SizeSum(w[1..]);
  }

  /* A day's list counts a category once if that is the category's theme day, and not at all otherwise. */
  lemma DayCount(c: FundingSearchCategory, d: DayOfWeek)
    ensures d in Schedule
    ensures multiset(Schedule[d])[c] == if d == ThemeDay(c) then 1 else 0
  {
    ThemeDayMatchesSchedule(d);
    ListsHaveNoRepeats(d);
    CountFromMembership(Schedule[d], c);
  }

  /* In a list without repeats, an element is counted once and anything else not at all. */
  lemma CountFromMembership<T>(s: seq<T>, c: T)
    requires NoRepeats(s)
    ensures multiset(s)[c] == if c in s then 1 else 0
  {
    if c in s {
      var i :| 0 <= i < |s| && s[i] == c;
      NoRepeatsCountsOnce(s, i);
    }
  }

  /* Over a week every category is searched, and searched once. */
  lemma EachCategoryOnceAWeek(c: FundingSearchCategory)
    ensures multiset(Week())[c] == 1
  {
    AllDaysInSchedule();
    DayCount(c, MONDAY); DayCount(c, TUESDAY); DayCount(c, WEDNESDAY); DayCount(c, THURSDAY);
    DayCount(c, FRIDAY); DayCount(c, SATURDAY); DayCount(c, SUNDAY);
    assert multiset(Week()) == multiset(Schedule[MONDAY]) + multiset(Schedule[TUESDAY]) + multiset(Schedule[WEDNESDAY])
      + multiset(Schedule[THURSDAY]) + multiset(Schedule[FRIDAY]) + multiset(Schedule[SATURDAY]) + multiset(Schedule[SUNDAY]);
  }

  /* A category is on exactly one day's list, the list of its theme day. */
  lemma OnlyOnItsThemeDay(c: FundingSearchCategory, d: DayOfWeek)
    ensures GetCategories(Some(d)).Ok?
    ensures c in GetCategories(Some(d)).value <==> d == ThemeDay(c)
  {
    ThemeDayMatchesSchedule(d);
  }

  lemma {:induction false} NoRepeatsCountsOnce<T>(s: seq<T>, i: int)
    requires NoRepeats(s) && 0 <= i < |s|
    ensures multiset(s)[s[i]] == 1
  {
    assert s == [s[0]] + s[1..];
    if i == 0 {
      assert s[0] !in s[1..];
    } else {
      assert s[1..][i - 1] == s[i];
      NoRepeatsCountsOnce(s[1..], i - 1);
    }
  }

  /* getFullSchedule: a copy of the table, one entry per day, each what getCategories returns. */
  function GetFullSchedule(): (r: map<DayOfWeek, seq<FundingSearchCategory>>)
    ensures forall d: DayOfWeek :: d in r && GetCategories(Some(d)) == Ok(r[d])
  {
    AllDaysInSchedule();
    Schedule
  }
}
