/**
 The hard-coded search query of the discovery backend: its builder
 defaults, its bean-validation constraints, and the tags and target
 engines it stores as "TYPE:value" and engine-name strings.
 */
module SearchQueries {
  import opened Wrappers
  import opened Time
  import opened Text
  import opened DaySchedule
  import opened SearchEngines

  datatype TagType = GEOGRAPHY | CATEGORY | AUTHORITY

  function TagTypeName(t: TagType): string {
    match t
    case GEOGRAPHY => "GEOGRAPHY"
    case CATEGORY => "CATEGORY"
    case AUTHORITY => "AUTHORITY"
  }

  /* TagType.valueOf: the constant with exactly this name, if any. */
  function TagTypeValueOf(s: string): (r: Option<TagType>)
    ensures r.Some? ==> TagTypeName(r.value) == s
    ensures r.None? ==> forall t :: TagTypeName(t) != s
  {
    if s == "GEOGRAPHY" then Some(GEOGRAPHY)
    else if s == "CATEGORY" then Some(CATEGORY)
    else if s == "AUTHORITY" then Some(AUTHORITY)
    else None
  }

  lemma TagTypeNameShape(t: TagType)
    ensures |TagTypeName(t)| > 0 && ':' !in TagTypeName(t) && Upper(TagTypeName(t)) == TagTypeName(t)
  {
    var n := TagTypeName(t);
    assert forall i :: 0 <= i < |n| ==> 'A' <= n[i] <= 'Z';
  }

  lemma TagTypeNameInjective(a: TagType, b: TagType)
    ensures TagTypeName(a) == TagTypeName(b) ==> a == b
  {
    if TagTypeName(a) == TagTypeName(b) {
      assert TagTypeName(a)[0] == TagTypeName(b)[0];
    }
  }

  /* A tag: its type and a value that is never blank. */
  datatype QueryTag = QueryTag(tagType: TagType, value: string)

  predicate ValidTag(t: QueryTag) {
    !IsBlank(t.value)
  }

  /* The QueryTag record's canonical constructor: both components are
     required, and the value may not be blank. */
  function NewQueryTag(tagType: Option<TagType>, value: Option<string>): (r: Result<QueryTag>)
    ensures r.Ok? <==> tagType.Some? && value.Some? && !IsBlank(value.value)
    ensures r.Ok? ==> r.value == QueryTag(tagType.value, value.value) && ValidTag(r.value)
    ensures tagType.None? ==> r == Fail(NullPointer("type cannot be null"))
    ensures tagType.Some? && value.None? ==> r == Fail(NullPointer("value cannot be null"))
    ensures tagType.Some? && value.Some? && IsBlank(value.value) ==> r == Fail(IllegalArgument("value cannot be blank"))
  {
    if tagType.None? then Fail(NullPointer("type cannot be null"))
    else if value.None? then Fail(NullPointer("value cannot be null"))
    else if IsBlank(value.value) then Fail(IllegalArgument("value cannot be blank"))
    else Ok(QueryTag(tagType.value, value.value))
  }

  /*
   formatTag: "TYPE:value". Type names hold no colon, so the first colon
   of the text separates the type's name from the value.
   */
  function FormatTag(t: QueryTag): (r: string)
    ensures ':' in r && IndexOf(r, ':') == |TagTypeName(t.tagType)|
    ensures r[..IndexOf(r, ':')] == TagTypeName(t.tagType) && r[IndexOf(r, ':') + 1..] == t.value
  {
    var name := TagTypeName(t.tagType);
    var r := name + ":" + t.value;
    TagTypeNameShape(t.tagType);
    FirstColon(name, t.value);
    assert r[|name|] == ':';
    assert r[..|name|] == name && r[|name| + 1..] == t.value;
    r
  }

  const TagTypeClass := "com.northstar.funding.discovery.search.domain.TagType"

  /*
   parseTag: the text before the first ':' is the type, read after
   upper-casing; the rest, colons included, is the value. No colon, an
   unknown type or a blank value throws IllegalArgumentException.
   */
  function ParseTag(s: string): (r: Result<QueryTag>)
    ensures ':' !in s ==> r == Fail(IllegalArgument("Invalid tag format: " + s + " (expected TYPE:value)"))
    ensures r.Ok? ==> ValidTag(r.value)
    ensures ':' in s ==>
      var i := IndexOf(s, ':');
      && (r.Ok? <==> TagTypeValueOf(Upper(s[..i])).Some? && !IsBlank(s[i + 1..]))
      && (r.Ok? ==> TagTypeName(r.value.tagType) == Upper(s[..i]) && r.value.value == s[i + 1..])
      && (TagTypeValueOf(Upper(s[..i])).None? ==>
            r == Fail(IllegalArgument("No enum constant " + TagTypeClass + "." + Upper(s[..i]))))
  {
    var parts := SplitFirst(s, ':');
    if |parts| != 2 then Fail(IllegalArgument("Invalid tag format: " + s + " (expected TYPE:value)"))
    else
      ColonSplit(s);
      var name := Upper(parts[0]);
      match TagTypeValueOf(name)
      case None => Fail(IllegalArgument("No enum constant " + TagTypeClass + "." + name))
      case Some(ty) => NewQueryTag(Some(ty), Some(parts[1]))
  }

  /* split(":", 2) cuts at the first colon. */
  lemma ColonSplit(s: string)
    requires ':' in s
    ensures var i := IndexOf(s, ':'); SplitFirst(s, ':') == [s[..i], s[i + 1..]]
  {
  }

  /* A colon-free prefix followed by a colon ends at the first colon. */
  lemma FirstColon(p: string, v: string)
    requires ':' !in p
    ensures IndexOf(p + ":" + v, ':') == |p|
  {
    var s := p + ":" + v;
    var i := IndexOf(s, ':');
    assert s[|p|] == ':';
  }

  /* parseTag inverts formatTag on every valid tag. */
  lemma ParseFormatTag(t: QueryTag)
    requires ValidTag(t)
    ensures ParseTag(FormatTag(t)) == Ok(t)
  {
    var name := TagTypeName(t.tagType);
    var s := FormatTag(t);
    TagTypeNameShape(t.tagType);
    FirstColon(name, t.value);
    assert s[..|name|] == name && s[|name| + 1..] == t.value;
    assert s[|name|] == ':';
    var r := ParseTag(s);
    TagTypeNameInjective(r.value.tagType, t.tagType);
  }

  /* Distinct tags format to distinct strings. */
  lemma FormatTagInjective(a: QueryTag, b: QueryTag)
    ensures FormatTag(a) == FormatTag(b) ==> a == b
  {
    if FormatTag(a) == FormatTag(b) {
      var na, nb := TagTypeName(a.tagType), TagTypeName(b.tagType);
      TagTypeNameShape(a.tagType);
      TagTypeNameShape(b.tagType);
      FirstColon(na, a.value);
      FirstColon(nb, b.value);
      assert |na| == |nb|;
      assert na == FormatTag(a)[..|na|] && nb == FormatTag(b)[..|nb|];
      TagTypeNameInjective(a.tagType, b.tagType);
      assert a.value == FormatTag(a)[|na| + 1..];
      assert b.value == FormatTag(b)[|nb| + 1..];
    }
  }

  /* parseTag reads the type whatever its case: a parsed string is some
     spelling of the type, a colon, and the value. */
  lemma ParsedTagIsSpelling(s: string)
    requires ParseTag(s).Ok?
    ensures var t := ParseTag(s).value;
      exists p :: s == p + ":" + t.value && ':' !in p && Upper(p) == TagTypeName(t.tagType)
  {
    var i := IndexOf(s, ':');
    assert s == s[..i] + ":" + s[i + 1..];
  }

  // ---------------------------------------------------------------------------
  // The query
  // ---------------------------------------------------------------------------

  datatype SearchQuery = SearchQuery(
    id: Option<int>,
    queryText: Option<string>,
    dayOfWeek: Option<DayOfWeek>,
    tags: set<string>,
    targetEngines: set<string>,
    expectedResults: Option<int>,
    enabled: bool,
    createdAt: Option<Instant>,
    updatedAt: Option<Instant>)

  const DefaultExpectedResults := 25

  /* equals/hashCode look at the id alone. */
  predicate SameQuery(a: SearchQuery, b: SearchQuery) {
    a.id == b.id
  }

  /* So two queries not yet saved are equal whatever their text, day or tags. */
  lemma UnsavedQueriesEqual(t1: Option<string>, d1: Option<DayOfWeek>, t2: Option<string>, d2: Option<DayOfWeek>)
    ensures SameQuery(BuildQuery(t1, d1), BuildQuery(t2, d2))
  {
  }

  /* The builder with only the text and the day set: the @Builder.Default
     fields take their defaults and everything else is null. */
  function BuildQuery(queryText: Option<string>, dayOfWeek: Option<DayOfWeek>): (q: SearchQuery)
    ensures q.queryText == queryText && q.dayOfWeek == dayOfWeek
    ensures q.tags == {} && q.targetEngines == {}
    ensures q.expectedResults == Some(25) && q.enabled
    ensures q.id.None? && q.createdAt.None? && q.updatedAt.None?
  {
    SearchQuery(None, queryText, dayOfWeek, {}, {}, Some(DefaultExpectedResults), true, None, None)
  }

  /* The messages of the violated bean-validation constraints. @Size, @Min
     and @Max accept a null value; only @NotNull rejects it. */
  function Violations(q: SearchQuery): (r: set<string>)
    ensures r == {} <==>
      && q.queryText.Some? && 1 <= |q.queryText.value| <= 500
      && q.dayOfWeek.Some?
      && (q.expectedResults.Some? ==> 1 <= q.expectedResults.value <= 100)
  {
    (if q.queryText.None? then {"queryText cannot be null"} else {})
    + (if q.queryText.Some? && !(1 <= |q.queryText.value| <= 500)
       then {"queryText must be between 1 and 500 characters"} else {})
    + (if q.dayOfWeek.None? then {"dayOfWeek cannot be null"} else {})
    + (if q.expectedResults.Some? && q.expectedResults.value < 1 then {"expectedResults must be at least 1"} else {})
    + (if q.expectedResults.Some? && q.expectedResults.value > 100 then {"expectedResults must be at most 100"} else {})
  }

  /* The defaults satisfy the constraints: a built query is valid as soon as its text and day are. */
  lemma BuiltQueryValid(text: string, day: DayOfWeek)
    requires 1 <= |text| <= 500
    ensures Violations(BuildQuery(Some(text), Some(day))) == {}
  {
  }

  /* addTag: a null tag throws; otherwise the formatted tag joins the set. */
  function AddTag(q: SearchQuery, tag: Option<QueryTag>): (r: Result<SearchQuery>)
    ensures tag.None? ==> r == Fail(NullPointer("tag cannot be null"))
    ensures tag.Some? ==> r.Ok? && r.value.tags == q.tags + {FormatTag(tag.value)}
    ensures r.Ok? ==> r.value.(tags := q.tags) == q
  {
    if tag.None? then Fail(NullPointer("tag cannot be null"))
    else Ok(q.(tags := q.tags + {FormatTag(tag.value)}))
  }

  /* containsTag: whether the formatted tag is stored. */
  function ContainsTag(q: SearchQuery, tag: Option<QueryTag>): (r: Result<bool>)
    ensures tag.None? ==> r == Fail(NullPointer("tag cannot be null"))
    ensures tag.Some? ==> r.Ok? && (r.value <==> FormatTag(tag.value) in q.tags)
  {
    if tag.None? then Fail(NullPointer("tag cannot be null"))
    else Ok(FormatTag(tag.value) in q.tags)
  }

  /* After addTag(a), containsTag(b) holds exactly when b is a or was already there. */
  lemma ContainsAfterAdd(q: SearchQuery, a: QueryTag, b: QueryTag)
    ensures AddTag(q, Some(a)).Ok?
    ensures ContainsTag(AddTag(q, Some(a)).value, Some(b)) == Ok(b == a || ContainsTag(q, Some(b)).value)
  {
    FormatTagInjective(a, b);
  }

  /* Adding a tag twice is adding it once. */
  lemma AddTagIdempotent(q: SearchQuery, t: QueryTag)
    ensures AddTag(q, Some(t)).Ok?
    ensures AddTag(AddTag(q, Some(t)).value, Some(t)) == AddTag(q, Some(t))
  {
    var once := AddTag(q, Some(t)).value;
    assert once.tags + {FormatTag(t)} == once.tags;
  }

  /* A freshly built query contains no tag. */
  lemma NewQueryHasNoTags(text: Option<string>, day: Option<DayOfWeek>, t: QueryTag)
    ensures ContainsTag(BuildQuery(text, day), Some(t)) == Ok(false)
  {
  }

  /* addTargetEngine: a null engine throws; otherwise its name joins the set. */
  function AddTargetEngine(q: SearchQuery, engine: Option<SearchEngineType>): (r: Result<SearchQuery>)
    ensures engine.None? ==> r == Fail(NullPointer("engineType cannot be null"))
    ensures engine.Some? ==> r.Ok? && r.value.targetEngines == q.targetEngines + {Name(engine.value)}
    ensures r.Ok? ==> r.value.(targetEngines := q.targetEngines) == q
  {
    if engine.None? then Fail(NullPointer("engineType cannot be null"))
    else Ok(q.(targetEngines := q.targetEngines + {Name(engine.value)}))
  }

  // ---------------------------------------------------------------------------
  // Reading the stored strings back
  // ---------------------------------------------------------------------------

  /* The strings of a set in the order its iterator visits them, each once. */
  ghost predicate Enumerates(order: seq<string>, s: set<string>) {
    && (forall x :: x in order <==> x in s)
    && forall i, j :: 0 <= i < j < |order| ==> order[i] != order[j]
  }

  /* A stream map over the iteration order: the first exception escapes. */
  function MapAll<T>(f: string -> Result<T>, xs: seq<string>): (r: Result<seq<T>>)
    ensures r.Ok? <==> forall i :: 0 <= i < |xs| ==> f(xs[i]).Ok?
    ensures r.Ok? ==> |r.value| == |xs| && forall i :: 0 <= i < |xs| ==> f(xs[i]) == Ok(r.value[i])
    ensures r.Fail? ==> exists i :: 0 <= i < |xs| && f(xs[i]) == Fail(r.error)
                                    && forall j :: 0 <= j < i ==> f(xs[j]).Ok?
  {
    if xs == [] then Ok([])
    else
      match f(xs[0])
      case Fail(e) => Fail(e)
      case Ok(y) =>
        var rest := MapAll(f, xs[1..]);
        assert forall i :: 0 <= i < |xs| - 1 ==> xs[1..][i] == xs[i + 1];
        match rest
        case Fail(e) =>
          assert exists i :: 0 <= i < |xs| && f(xs[i]) == Fail(e) && forall j :: 0 <= j < i ==> f(xs[j]).Ok? by {
            var i :| 0 <= i < |xs[1..]| && f(xs[1..][i]) == Fail(e) && forall j :: 0 <= j < i ==> f(xs[1..][j]).Ok?;
            assert forall j :: 0 <= j < i + 1 ==> f(xs[j]).Ok? by {
              forall j | 0 <= j < i + 1 ensures f(xs[j]).Ok? {
                if j > 0 {
                  assert xs[j] == xs[1..][j - 1];
                }
              }
            }
            assert f(xs[i + 1]) == Fail(e);
          }
          Fail(e)
        case Ok(ys) =>
          assert forall i :: 0 <= i < |xs| ==> f(xs[i]) == Ok(([y] + ys)[i]) by {
            forall i | 0 <= i < |xs| ensures f(xs[i]) == Ok(([y] + ys)[i]) {
              if i > 0 {
                assert xs[i] == xs[1..][i - 1];
              }
            }
          }
          Ok([y] + ys)
  }

  /* getParsedTags, visiting the tags in the given iteration order: every
     stored string parsed, or the first parse failure. */
  function ParsedTags(q: SearchQuery, order: seq<string>): (r: Result<set<QueryTag>>)
    requires Enumerates(order, q.tags)
    ensures r.Ok? <==> forall s :: s in q.tags ==> ParseTag(s).Ok?
    ensures r.Ok? ==> forall t :: t in r.value <==> exists s :: s in q.tags && ParseTag(s) == Ok(t)
    ensures r.Fail? ==> exists s :: s in q.tags && ParseTag(s) == Fail(r.error)
  {
    match MapAll(ParseTag, order)
    case Fail(e) => Fail(e)
    case Ok(ts) =>
      var r := set i | 0 <= i < |ts| :: ts[i];
      assert forall s :: s in q.tags ==> ParseTag(s).Ok? by {
        forall s | s in q.tags ensures ParseTag(s).Ok? {
          var i :| 0 <= i < |order| && order[i] == s;
        }
      }
      assert forall t :: t in r <==> exists s :: s in q.tags && ParseTag(s) == Ok(t) by {
        forall t ensures t in r <==> exists s :: s in q.tags && ParseTag(s) == Ok(t) {
          if t in r {
            var i :| 0 <= i < |ts| && ts[i] == t;
            assert order[i] in q.tags && ParseTag(order[i]) == Ok(t);
          }
          if exists s :: s in q.tags && ParseTag(s) == Ok(t) {
            var s :| s in q.tags && ParseTag(s) == Ok(t);
            var i :| 0 <= i < |order| && order[i] == s;
            assert ts[i] == t;
          }
        }
      }
      Ok(r)
  }

  /* Tags put in with addTag come back out of getParsedTags, and only those. */
  lemma ParsedTagsOfAddedTags(q: SearchQuery, added: set<QueryTag>, order: seq<string>)
    requires forall t :: t in added ==> ValidTag(t)
    requires q.tags == set t | t in added :: FormatTag(t)
    requires Enumerates(order, q.tags)
    ensures ParsedTags(q, order) == Ok(added)
  {
    AddedTagsParse(q.tags, added);
    assert ParsedTags(q, order).Ok?;
    var r := ParsedTags(q, order).value;
    forall t ensures t in r <==> t in added {
      if t in added {
        ParseFormatTag(t);
        assert FormatTag(t) in q.tags;
      }
      if t in r {
        var s :| s in q.tags && ParseTag(s) == Ok(t);
        var u :| u in added && s == FormatTag(u);
        ParseFormatTag(u);
      }
    }
    assert r == added;
  }

  lemma AddedTagsParse(tags: set<string>, added: set<QueryTag>)
    requires forall t :: t in added ==> ValidTag(t)
    requires tags == set t | t in added :: FormatTag(t)
    ensures forall s :: s in tags ==> ParseTag(s).Ok?
  {
    forall s | s in tags ensures ParseTag(s).Ok? {
      var t :| t in added && s == FormatTag(t);
      ParseFormatTag(t);
    }
  }

  const EngineTypeClass := "com.northstar.funding.discovery.search.domain.SearchEngineType"

  /* SearchEngineType.valueOf on one stored string. */
  function ParseEngine(s: string): (r: Result<SearchEngineType>)
    ensures r.Ok? ==> Name(r.value) == s
    ensures r.Fail? <==> forall t :: Name(t) != s
    ensures r.Fail? ==> r.error == IllegalArgument("No enum constant " + EngineTypeClass + "." + s)
  {
    match ValueOf(s)
    case Some(t) => Ok(t)
    case None => Fail(IllegalArgument("No enum constant " + EngineTypeClass + "." + s))
  }

  /* getParsedTargetEngines, visiting the names in the given iteration order. */
  function ParsedTargetEngines(q: SearchQuery, order: seq<string>): (r: Result<set<SearchEngineType>>)
    requires Enumerates(order, q.targetEngines)
    ensures r.Ok? <==> forall s :: s in q.targetEngines ==> ParseEngine(s).Ok?
    ensures r.Ok? ==> forall t :: t in r.value <==> Name(t) in q.targetEngines
    ensures r.Fail? ==> exists s :: s in q.targetEngines && ParseEngine(s) == Fail(r.error)
  {
    match MapAll(ParseEngine, order)
    case Fail(e) => Fail(e)
    case Ok(ts) =>
      var r := set i | 0 <= i < |ts| :: ts[i];
      assert forall s :: s in q.targetEngines ==> ParseEngine(s).Ok? by {
        forall s | s in q.targetEngines ensures ParseEngine(s).Ok? {
          var i :| 0 <= i < |order| && order[i] == s;
        }
      }
      assert forall t :: t in r <==> Name(t) in q.targetEngines by {
        forall t ensures t in r <==> Name(t) in q.targetEngines {
          if t in r {
            var i :| 0 <= i < |ts| && ts[i] == t;
            assert ParseEngine(order[i]) == Ok(t);
          }
          if Name(t) in q.targetEngines {
            var i :| 0 <= i < |order| && order[i] == Name(t);
            NameInjective(t, ts[i]);
          }
        }
      }
      Ok(r)
  }

  /* An engine added with addTargetEngine is among the parsed engines. */
  lemma AddedEngineParsed(q: SearchQuery, e: SearchEngineType, order: seq<string>)
    requires forall s :: s in q.targetEngines ==> ParseEngine(s).Ok?
    requires Enumerates(order, AddTargetEngine(q, Some(e)).value.targetEngines)
    ensures ParsedTargetEngines(AddTargetEngine(q, Some(e)).value, order).Ok?
    ensures e in ParsedTargetEngines(AddTargetEngine(q, Some(e)).value, order).value
  {
    assert ValueOf(Name(e)) == Some(e) by { NameInjective(e, ValueOf(Name(e)).value); }
  }
}
