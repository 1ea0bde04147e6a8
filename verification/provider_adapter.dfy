/**
 The shared part of every search provider adapter: a daily usage counter
 that resets 24 hours after its last reset, the normalisation of a result
 URL to its domain, the mapping of HTTP status codes to provider failures,
 and the skeleton of every search result an adapter produces. Clock
 readings are parameters (milliseconds for the counter).
 */
module ProviderAdapter {
  import opened Wrappers
  import opened Text
  import opened Time
  import opened Store
  import opened SearchResults

  const MillisIn24Hours: int := 24 * 60 * 60 * 1000

  /* The failures an adapter raises, with the arguments of their constructors. */
  datatype ProviderException =
    | RateLimitExceeded(provider: string, dailyRateLimit: int)
    | AuthenticationFailed(provider: string, detail: string)
    | HttpFailure(message: string)

  /* The adapter's usage counter and the time of its last reset. */
  datatype RateLimiter = RateLimiter(dailyRateLimit: int, currentUsageCount: int, lastResetTimestamp: int)

  /* A new adapter: nothing used yet, last reset at construction time. */
  function NewRateLimiter(dailyRateLimit: int, now: int): (l: RateLimiter)
    ensures l.dailyRateLimit == dailyRateLimit && l.currentUsageCount == 0 && l.lastResetTimestamp == now
  {
    RateLimiter(dailyRateLimit, 0, now)
  }

  /* checkAndResetRateLimitIfNeeded: a day after the last reset the count returns to zero. */
  function CheckAndReset(l: RateLimiter, now: int): (r: RateLimiter)
    ensures r.dailyRateLimit == l.dailyRateLimit
    ensures now - l.lastResetTimestamp >= MillisIn24Hours ==> r.currentUsageCount == 0 && r.lastResetTimestamp == now
    ensures now - l.lastResetTimestamp < MillisIn24Hours ==> r == l
  {
    if now - l.lastResetTimestamp >= MillisIn24Hours then l.(currentUsageCount := 0, lastResetTimestamp := now) else l
  }

  /* getCurrentUsageCount: the count after a possible reset. */
  function CurrentUsageCount(l: RateLimiter, now: int): (r: (RateLimiter, int))
    ensures r.0 == CheckAndReset(l, now) && r.1 == r.0.currentUsageCount
  {
    var reset := CheckAndReset(l, now);
    (reset, reset.currentUsageCount)
  }

  /*
   incrementUsageAndCheckLimit: the count is incremented on every call, and
   the call fails exactly when the new count exceeds the daily limit.
   */
  function IncrementUsageAndCheckLimit(l: RateLimiter, now: int, provider: string): (r: (RateLimiter, Option<ProviderException>))
    ensures r.0.dailyRateLimit == l.dailyRateLimit
    ensures r.0.currentUsageCount == CheckAndReset(l, now).currentUsageCount + 1
    ensures r.0.lastResetTimestamp == CheckAndReset(l, now).lastResetTimestamp
    ensures r.1.Some? <==> r.0.currentUsageCount > l.dailyRateLimit
    ensures r.1.Some? ==> r.1.value == RateLimitExceeded(provider, l.dailyRateLimit)
  {
    var reset := CheckAndReset(l, now);
    var counted := reset.(currentUsageCount := reset.currentUsageCount + 1);
    if counted.currentUsageCount > l.dailyRateLimit then (counted, Some(RateLimitExceeded(provider, l.dailyRateLimit)))
    else (counted, None)
  }

  /* A sequence of calls at the given times: the final counter and whether each call passed. */
  function Calls(l: RateLimiter, times: seq<int>, provider: string): (r: (RateLimiter, seq<bool>))
    ensures |r.1| == |times|
  {
    if times == [] then (l, [])
    else
      var prefix := Calls(l, times[..|times| - 1], provider);
      var last := IncrementUsageAndCheckLimit(prefix.0, times[|times| - 1], provider);
      (last.0, prefix.1 + [last.1.None?])
  }

  /*
   Within one day of a reset at `start`, the k-th call (counting from 1)
   passes exactly when k is at most the daily limit.
   */
  lemma {:induction false} CallsWithinOneDay(limit: int, start: int, times: seq<int>, provider: string)
    requires forall i :: 0 <= i < |times| ==> start <= times[i] < start + MillisIn24Hours
    ensures var r := Calls(NewRateLimiter(limit, start), times, provider);
      && r.0 == RateLimiter(limit, |times|, start)
      && forall k :: 0 <= k < |times| ==> (r.1[k] <==> k + 1 <= limit)
  {
    if times != [] {
      var init := times[..|times| - 1];
      assert forall i :: 0 <= i < |init| ==> init[i] == times[i];
      CallsWithinOneDay(limit, start, init, provider);
      var prefix := Calls(NewRateLimiter(limit, start), init, provider);
      var r := Calls(NewRateLimiter(limit, start), times, provider);
      forall k | 0 <= k < |times| ensures r.1[k] <==> k + 1 <= limit {
        if k < |times| - 1 {
          assert r.1[k] == prefix.1[k];
        }
      }
    }
  }

  /* With limit N, calls 1..N pass and call N+1 is refused. */
  lemma LimitThenRefusal(limit: nat, start: int, times: seq<int>, provider: string)
    requires |times| == limit + 1
    requires forall i :: 0 <= i < |times| ==> start <= times[i] < start + MillisIn24Hours
    ensures var passed := Calls(NewRateLimiter(limit, start), times, provider).1;
      (forall k :: 0 <= k < limit ==> passed[k]) && !passed[limit]
  {
    CallsWithinOneDay(limit, start, times, provider);
  }

  /* A day after the last reset the next call counts as the first of a new day. */
  lemma NextDayStartsAfresh(l: RateLimiter, now: int, provider: string)
    requires now - l.lastResetTimestamp >= MillisIn24Hours
    ensures var r := IncrementUsageAndCheckLimit(l, now, provider);
      r.0 == RateLimiter(l.dailyRateLimit, 1, now) && (r.1.None? <==> l.dailyRateLimit >= 1)
  {
  }

  /* replaceFirst("^www\\.", ""). */
  function StripWww(s: string): (r: string)
    ensures StartsWith(s, "www.") ==> r == s[4..]
    ensures !StartsWith(s, "www.") ==> r == s
  {
    if StartsWith(s, "www.") then s[4..] else s
  }

  /* The text before the first '/', or all of it. */
  function BeforeSlash(s: string): (r: string)
    ensures '/' !in r
    ensures '/' !in s ==> r == s
    ensures '/' in s ==> |r| < |s| && s == r + "/" + s[|r| + 1..]
  {
    var i := IndexOf(s, '/');
    if i == -1 then s
    else
      assert s == s[..i] + "/" + s[i + 1..];
      s[..i]
  }

  /*
   normalizeDomain: null or blank gives the empty string; otherwise
   lowercase, trim, drop an http(s) scheme, drop a leading "www." and cut
   at the first '/'.
   */
  function NormalizeDomain(url: Option<string>): (r: string)
    ensures url.None? || IsBlank(url.value) ==> r == ""
    ensures url.Some? && !IsBlank(url.value) ==> r == BeforeSlash(StripWww(StripScheme(Trim(Lower(url.value)))))
    ensures '/' !in r
  {
    if url.None? || IsBlank(url.value) then ""
    else BeforeSlash(StripWww(StripScheme(Trim(Lower(url.value)))))
  }

  /* The URL shapes an engine returns, built from their parts. */
  predicate UrlShape(scheme: string, www: string, host: string, rest: string) {
    && scheme in {"", "http://", "https://"} && www in {"", "www."}
    && host != [] && '/' !in host && Lower(host) == host && !IsBlank(host)
    && (www == "" ==> !StartsWith(host, "www."))
    && (scheme == "" && www == "" ==> !StartsWith(host, "http:") && !StartsWith(host, "https:"))
    && !Trimmable(host[0])
    && (rest == [] ==> !Trimmable(host[|host| - 1]))
    && (rest != [] ==> rest[0] == '/' && !Trimmable(rest[|rest| - 1]))
  }

  /* For every URL of that shape the normalised domain is the host. */
  lemma NormalizeDomainOfUrl(scheme: string, www: string, host: string, rest: string)
    requires UrlShape(scheme, www, host, rest)
    ensures NormalizeDomain(Some(scheme + www + host + rest)) == host
  {
    var url := scheme + www + host + rest;
    var lowRest := Lower(rest);
    var low := scheme + www + host + lowRest;
    LowerOfShape(scheme, www, host, rest);
    assert !IsBlank(url) by {
      var k :| 0 <= k < |host| && !IsJavaWhitespace(host[k]);
      assert url[|scheme| + |www| + k] == host[k];
    }
    assert low[0] == (scheme + www + host)[0];
    assert rest != [] ==> low[|low| - 1] == lowRest[|rest| - 1];
    TrimKeeps(low);
    assert Trim(Lower(url)) == low;
    assert lowRest == [] || lowRest[0] == '/';
    ConcatAssoc(scheme, www, host, lowRest);
    StripSchemeOfShape(scheme, www, host, lowRest);
    var noScheme := StripScheme(low);
    assert noScheme == www + host + lowRest;
    StripWwwOfShape(www, host, lowRest);
    var noWww := StripWww(noScheme);
    assert noWww == host + lowRest;
    BeforeSlashOfHost(host, lowRest);
    assert NormalizeDomain(Some(url)) == BeforeSlash(noWww);
  }

  lemma ConcatAssoc(a: string, b: string, c: string, d: string)
    ensures a + b + c + d == a + (b + c + d)
  {
  }

  lemma LowerConcat(a: string, b: string)
    ensures Lower(a + b) == Lower(a) + Lower(b)
  {
  }

  lemma LowerOfShape(scheme: string, www: string, host: string, rest: string)
    requires UrlShape(scheme, www, host, rest)
    ensures Lower(scheme + www + host + rest) == scheme + www + host + Lower(rest)
  {
    LowerConcat(scheme + www + host, rest);
    LowerConcat(scheme + www, host);
    LowerConcat(scheme, www);
    assert Lower(scheme) == scheme && Lower(www) == www;
  }

  /* A string that starts with a prefix agrees with it at every index of the prefix. */
  lemma PrefixChar(s: string, prefix: string, i: nat)
    requires StartsWith(s, prefix) && i < |prefix|
    ensures s[i] == prefix[i]
  {
    assert s[..|prefix|][i] == s[i];
  }

  /* A host followed by '/' or nothing starts with a prefix only if the host itself does. */
  lemma PrefixOfHost(host: string, rest: string, prefix: string, k: nat)
    requires rest == [] || rest[0] == '/'
    requires k <= |prefix| && !StartsWith(host, prefix[..k])
    requires forall i :: 0 <= i < k ==> prefix[i] != '/'
    ensures !StartsWith(host + rest, prefix)
  {
    if StartsWith(host + rest, prefix) && |host| < k {
      PrefixChar(host + rest, prefix, |host|);
    }
  }

  /* A string cannot start with a prefix whose first character differs from its own. */
  lemma FirstCharBlocks(s: string, prefix: string)
    requires |s| > 0 && |prefix| > 0 && s[0] != prefix[0]
    ensures !StartsWith(s, prefix)
  {
    if |prefix| <= |s| {
      assert s[..|prefix|][0] == s[0];
    }
  }

  lemma StripSchemeOfShape(scheme: string, www: string, host: string, rest: string)
    requires scheme in {"", "http://", "https://"} && www in {"", "www."}
    requires rest == [] || rest[0] == '/'
    requires scheme == "" && www == "" ==> !StartsWith(host, "http:") && !StartsWith(host, "https:")
    ensures StripScheme(scheme + (www + host + rest)) == www + host + rest
  {
    var tail := www + host + rest;
    if scheme == "" {
      if www == "www." {
        FirstCharBlocks(tail, "http://");
        FirstCharBlocks(tail, "https://");
      } else {
        assert tail == host + rest;
        PrefixOfHost(host, rest, "http://", 5);
        PrefixOfHost(host, rest, "https://", 6);
      }
    } else if scheme == "https://" {
      assert (scheme + tail)[4] == 's';
    }
  }

  lemma StripWwwOfShape(www: string, host: string, rest: string)
    requires www in {"", "www."} && (rest == [] || rest[0] == '/')
    requires www == "" ==> !StartsWith(host, "www.")
    ensures StripWww(www + host + rest) == host + rest
  {
    if www == "" {
      assert www + host + rest == host + rest;
      PrefixOfHost(host, rest, "www.", 4);
    }
  }

  lemma BeforeSlashOfHost(host: string, rest: string)
    requires '/' !in host && (rest == [] || rest[0] == '/')
    ensures BeforeSlash(host + rest) == host
  {
    if rest != [] {
      assert (host + rest)[|host|] == '/';
    }
  }

  /* A string whose two ends are not trimmable is its own trim. */
  lemma TrimKeeps(s: string)
    requires s != [] && !Trimmable(s[0]) && !Trimmable(s[|s| - 1])
    ensures Trim(s) == s
  {
  }

  /* The outcome of a request: the response body, or the failure it raised. */
  datatype Checked = Passed(body: string) | Raised(failure: ProviderException)

  /*
   The status check after every request: 401 and 403 are authentication
   failures, 429 is the provider's own rate limit, any other status from
   400 up fails with the body, and every lower status passes the body on.
   */
  function CheckStatus(statusCode: int, body: string, provider: string, dailyRateLimit: int): (r: Checked)
    ensures r.Raised? <==> statusCode >= 400
    ensures r.Passed? ==> r.body == body
    ensures r.Raised? && r.failure.AuthenticationFailed? <==> statusCode == 401 || statusCode == 403
    ensures r.Raised? && r.failure.RateLimitExceeded? <==> statusCode == 429
    ensures r.Raised? && r.failure.HttpFailure? ==> r.failure.message == "HTTP " + IntText(statusCode) + ": " + body
  {
    if statusCode == 401 || statusCode == 403 then
      Raised(AuthenticationFailed(provider, "Invalid or missing API key (HTTP " + IntText(statusCode) + ")"))
    else if statusCode == 429 then Raised(RateLimitExceeded(provider, dailyRateLimit))
    else if statusCode >= 400 then Raised(HttpFailure("HTTP " + IntText(statusCode) + ": " + body))
    else Passed(body)
  }

  /*
   createBaseSearchResult: the fields every adapter fills in, the domain
   normalised from the URL and the search date taken from the clock.
   */
  function CreateBaseSearchResult(url: Option<string>, title: Option<string>, description: Option<string>,
                                  rankPosition: int, discoverySessionId: Option<Uuid>, provider: string,
                                  now: Instant, today: LocalDate): (r: SearchResult)
    ensures r.url == url && r.domain == Some(NormalizeDomain(url))
    ensures r.title == title && r.description == description && r.rankPosition == Some(rankPosition)
    ensures r.searchEngine == Some(provider) && r.discoveredAt == Some(now)
    ensures r.discoverySessionId == discoverySessionId && r.searchDate == Some(today)
    ensures r.searchResultId.None? && r.isDuplicate.None? && r.isProcessed.None? && r.isBlacklisted.None?
  {
    SearchResult(None, discoverySessionId, Some(provider), None, Some(now), Some(today), url,
                 Some(NormalizeDomain(url)), None, title, description, Some(rankPosition),
                 None, None, None, None, None, None, None, None, None, None, None)
  }

  /* A result built by an adapter has a key exactly when it has a URL. */
  lemma BaseResultKey(url: Option<string>, title: Option<string>, description: Option<string>,
                      rankPosition: int, sessionId: Option<Uuid>, provider: string, now: Instant, today: LocalDate)
    ensures var r := CreateBaseSearchResult(url, title, description, rankPosition, sessionId, provider, now, today);
      && (GenerateDeduplicationKey(r).Some? <==> url.Some?)
      && (url.Some? ==> GenerateDeduplicationKey(r) == Some(KeyPrefix(NormalizeDomain(url), url.value) + DateText(today)))
  {
  }
}
