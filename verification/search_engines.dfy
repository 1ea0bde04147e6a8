/**
 The search engine types of the discovery backend, their fixed attributes,
 and fromString, which reads a type name regardless of case and of
 surrounding spaces.
 */
module SearchEngines {
  import opened Wrappers
  import opened Text

  datatype SearchEngineType = SEARXNG | BROWSERBASE | TAVILY | PERPLEXITY

  /* The enum constant's name(): upper-case letters only, so fromString's upper-casing can reach it. */
  function Name(t: SearchEngineType): (r: string)
    ensures r != [] && forall i :: 0 <= i < |r| ==> 'A' <= r[i] <= 'Z'
  {
    match t
    case SEARXNG => "SEARXNG"
    case BROWSERBASE => "BROWSERBASE"
    case TAVILY => "TAVILY"
    case PERPLEXITY => "PERPLEXITY"
  }

  /* getDisplayName: the name with only its first letter capital. */
  function DisplayName(t: SearchEngineType): (r: string)
    ensures Upper(r) == Name(t)
    ensures r[0] == Name(t)[0] && forall i :: 1 <= i < |r| ==> 'a' <= r[i] <= 'z'
  {
    match t
    case SEARXNG => "Searxng"
    case BROWSERBASE => "Browserbase"
    case TAVILY => "Tavily"
    case PERPLEXITY => "Perplexity"
  }

  /* getDefaultBaseUrl: the engines that need a key are reached over https; the self-hosted one over plain http. */
  function DefaultBaseUrl(t: SearchEngineType): (r: string)
    ensures StartsWith(r, "https://") <==> RequiresApiKey(t)
    ensures StartsWith(r, "http://") <==> !RequiresApiKey(t)
  {
    match t
    case SEARXNG => PlainUrl("192.168.1.10:8080"); "http://" + "192.168.1.10:8080"
    case BROWSERBASE => SecureUrl("api.browserbase.com"); "https://" + "api.browserbase.com"
    case TAVILY => SecureUrl("api.tavily.com"); "https://" + "api.tavily.com"
    case PERPLEXITY => SecureUrl("api.perplexity.ai"); "https://" + "api.perplexity.ai"
  }

  lemma SecureUrl(host: string)
    ensures StartsWith("https://" + host, "https://") && !StartsWith("https://" + host, "http://")
  {
    var u := "https://" + host;
    assert u[..8] == "https://";
    assert u[4] == 's' && "http://"[4] == ':';
  }

  lemma PlainUrl(host: string)
    ensures StartsWith("http://" + host, "http://") && !StartsWith("http://" + host, "https://")
  {
    var u := "http://" + host;
    assert u[..7] == "http://";
    assert u[4] == ':' && "https://"[4] == 's';
  }

  /* Only the self-hosted engine runs without an API key. */
  function RequiresApiKey(t: SearchEngineType): (r: bool)
    ensures r <==> t != SEARXNG
  {
    match t
    case SEARXNG => false
    case BROWSERBASE => true
    case TAVILY => true
    case PERPLEXITY => true
  }

  /* Names are distinct, so valueOf has at most one answer. */
  lemma NameInjective(a: SearchEngineType, b: SearchEngineType)
    ensures Name(a) == Name(b) ==> a == b
  {
    if Name(a) == Name(b) {
      assert Name(a)[0] == Name(b)[0] && |Name(a)| == |Name(b)|;
    }
  }

  /* valueOf: the constant with exactly this name, if any. */
  function ValueOf(s: string): (r: Option<SearchEngineType>)
    ensures r.Some? ==> Name(r.value) == s
    ensures r.None? ==> forall t :: Name(t) != s
  {
    if s == "SEARXNG" then Some(SEARXNG)
    else if s == "BROWSERBASE" then Some(BROWSERBASE)
    else if s == "TAVILY" then Some(TAVILY)
    else if s == "PERPLEXITY" then Some(PERPLEXITY)
    else None
  }

  /*
   fromString: a null value throws NullPointerException, a blank one
   IllegalArgumentException; otherwise the trimmed, upper-cased value must
   name a constant, and an unknown name throws naming the original value.
   */
  function FromString(value: Option<string>): (r: Result<SearchEngineType>)
    ensures value.None? ==> r == Fail(NullPointer("value cannot be null"))
    ensures value.Some? && IsBlank(value.value) ==> r == Fail(IllegalArgument("value cannot be blank"))
    ensures value.Some? && !IsBlank(value.value) ==>
      && (r.Ok? <==> exists t :: Name(t) == Upper(Trim(value.value)))
      && (r.Ok? ==> Name(r.value) == Upper(Trim(value.value)))
      && (r.Fail? ==> r.error == IllegalArgument("Unknown search engine type: " + value.value))
  {
    if value.None? then Fail(NullPointer("value cannot be null"))
    else if IsBlank(value.value) then Fail(IllegalArgument("value cannot be blank"))
    else
      match ValueOf(Upper(Trim(value.value)))
      case Some(t) => Ok(t)
      case None => Fail(IllegalArgument("Unknown search engine type: " + value.value))
  }

  /* A string with no character up to U+0020 is its own trim. */
  lemma TrimUntrimmable(s: string)
    requires forall i :: 0 <= i < |s| ==> !Trimmable(s[i])
    ensures Trim(s) == s
  {
  }

  /* The name of every constant reads back as that constant. */
  lemma FromStringName(t: SearchEngineType)
    ensures FromString(Some(Name(t))) == Ok(t)
  {
    var n := Name(t);
    NameIsOwnUpperTrim(n);
    FromStringIgnoresCase(n, t);
  }

  /* A run of capital letters is unchanged by trimming and by upper-casing. */
  lemma NameIsOwnUpperTrim(n: string)
    requires forall i :: 0 <= i < |n| ==> 'A' <= n[i] <= 'Z'
    ensures Upper(Trim(n)) == n
  {
    TrimUntrimmable(n);
    forall i | 0 <= i < |n|
      ensures Upper(n)[i] == n[i]
    {
      CapitalUpper(n[i]);
    }
    assert Upper(n) == n;
  }

  lemma CapitalUpper(c: char)
    requires 'A' <= c <= 'Z'
    ensures UpperChar(c) == c
  {
  }

  /* Any spelling whose trimmed upper case is the name reads as that constant. */
  lemma FromStringIgnoresCase(s: string, t: SearchEngineType)
    requires Upper(Trim(s)) == Name(t)
    ensures FromString(Some(s)) == Ok(t)
  {
    assert UpperChar(Trim(s)[0]) == Name(t)[0];
    TrimmedNonEmptyNotBlank(s);
    ValueOfName(t);
  }

  /* valueOf finds each constant by its own name. */
  lemma ValueOfName(t: SearchEngineType)
    ensures ValueOf(Name(t)) == Some(t)
  {
    NameInjective(t, ValueOf(Name(t)).value);
  }

  /* A string whose trim starts with a non-whitespace character is not blank. */
  lemma TrimmedNonEmptyNotBlank(s: string)
    requires Trim(s) != [] && !IsJavaWhitespace(Trim(s)[0])
    ensures !IsBlank(s)
  {
    var i :| TrimSlice(s, Trim(s), i);
    assert s[i] == Trim(s)[0];
  }
}
