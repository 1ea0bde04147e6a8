/**
 The keyword query strategy's handling of a language-model reply: the reply
 is cut into lines, preambles and empty lines are dropped, list numbering
 and surrounding quotes are removed, and at most the requested number of
 queries is kept. When the model cannot be reached or the reply cannot be
 read, five fixed education queries stand in.
 */
module QueryParsing {
  import opened Wrappers
  import opened Time
  import opened Text

  /* KEYWORD_FALLBACK_QUERIES. */
  const FallbackQueries: seq<string> := [
    "education grants funding",
    "school program grants",
    "teacher training funding",
    "student scholarship opportunities",
    "educational infrastructure grants"
  ]

  function Min(a: int, b: int): int {
    if a <= b then a else b
  }

  /* Stream.limit: a negative size throws IllegalArgumentException naming the
     size; otherwise the first min(n, |xs|) elements, in order. */
  function Limit<T>(xs: seq<T>, n: int): (r: Result<seq<T>>)
    ensures r.Fail? <==> n < 0
    ensures r.Fail? ==> r.error == IllegalArgument(IntText(n))
    ensures r.Ok? ==> |r.value| == Min(n, |xs|) && r.value == xs[..|r.value|]
  {
    if n < 0 then Fail(IllegalArgument(IntText(n)))
    else if n < |xs| then Ok(xs[..n])
    else Ok(xs)
  }

  // ---------------------------------------------------------------------------
  // Preambles
  // ---------------------------------------------------------------------------

  /* isPreamble, on the lowercased line. */
  predicate IsPreamble(line: string) {
    var lower := Lower(line);
    || StartsWith(lower, "here are")
    || StartsWith(lower, "here is")
    || Contains(lower, "search queries:")
    || Contains(lower, "queries:")
  }

  /* The "search queries:" test adds nothing: such a line also contains "queries:". */
  lemma SearchQueriesTestSubsumed(line: string)
    ensures IsPreamble(line) <==>
      || StartsWith(Lower(line), "here are")
      || StartsWith(Lower(line), "here is")
      || Contains(Lower(line), "queries:")
  {
    if Contains(Lower(line), "search queries:") {
      ContainsTail(Lower(line), "search queries:", 7);
      assert "search queries:"[7..] == "queries:";
    }
  }

  // ---------------------------------------------------------------------------
  // The two regular-expression rewrites
  // ---------------------------------------------------------------------------

  /* \d: an ASCII digit (the pattern is compiled without UNICODE_CHARACTER_CLASS). */
  predicate IsDigit(c: char) {
    '0' <= c <= '9'
  }

  /* \s: space, tab, newline, vertical tab, form feed, carriage return. */
  predicate IsRegexSpace(c: char) {
    c == ' ' || c == '\t' || c == '\n' || c == '\U{B}' || c == '\U{C}' || c == '\r'
  }

  /* The length of the longest prefix of s whose characters all satisfy the class. */
  function DigitRun(s: string): (k: nat)
    ensures k <= |s|
    ensures forall i :: 0 <= i < k ==> IsDigit(s[i])
    ensures k == |s| || !IsDigit(s[k])
  {
    if |s| > 0 && IsDigit(s[0]) then 1 + DigitRun(s[1..]) else 0
  }

  function SpaceRun(s: string): (k: nat)
    ensures k <= |s|
    ensures forall i :: 0 <= i < k ==> IsRegexSpace(s[i])
    ensures k == |s| || !IsRegexSpace(s[k])
  {
    if |s| > 0 && IsRegexSpace(s[0]) then 1 + SpaceRun(s[1..]) else 0
  }

  /* A list number: one or more digits, a full stop, then any run of \s. */
  predicate IsNumberPrefix(p: string) {
    exists d :: 1 <= d < |p| && (forall i :: 0 <= i < d ==> IsDigit(p[i])) && p[d] == '.'
      && forall i :: d < i < |p| ==> IsRegexSpace(p[i])
  }

  /* The line starts the way the pattern ^\d+\. needs: digits, then a full stop. */
  predicate Numbered(line: string) {
    var d := DigitRun(line);
    1 <= d < |line| && line[d] == '.'
  }

  /*
   replaceFirst("^\\d+\\.\\s*", ""): a numbered line loses its number, its
   full stop and the spaces after them, as many as there are; any other line
   is kept. The greedy digit run cannot stop early, since the character
   after a shorter run is a digit and not the full stop.
   */
  function StripNumber(line: string): (r: string)
    ensures Numbered(line) ==> exists p :: IsNumberPrefix(p) && line == p + r
    ensures Numbered(line) ==> r == [] || !IsRegexSpace(r[0])
    ensures !Numbered(line) ==> r == line
  {
    if Numbered(line) then
      var d := DigitRun(line);
      var rest := line[d + 1..];
      var k := SpaceRun(rest);
      var p := line[..d + 1 + k];
      assert line == p + rest[k..];
      assert p[d] == '.';
      assert IsNumberPrefix(p);
      rest[k..]
    else line
  }

  /* A line terminator in the sense of java.util.regex without UNIX_LINES. */
  predicate IsLineTerminator(c: char) {
    c == '\n' || c == '\r' || c == '\U{85}' || c == '\U{2028}' || c == '\U{2029}'
  }

  /* How many characters at the end of s form the final line terminator the
     anchor $ may stand before: "\r\n" counts as one terminator. */
  function FinalTerminator(s: string): (k: nat)
    ensures k <= 2 && k <= |s|
    ensures k == 0 <==> s == [] || !IsLineTerminator(s[|s| - 1])
    ensures k > 0 ==> forall i :: |s| - k <= i < |s| ==> IsLineTerminator(s[i])
  {
    if EndsWith(s, "\r\n") then 2
    else if |s| > 0 && IsLineTerminator(s[|s| - 1]) then 1
    else 0
  }

  function LeadingQuotes(s: string): (k: nat)
    ensures k <= |s|
    ensures forall i :: 0 <= i < k ==> s[i] == '"'
    ensures k == |s| || s[k] != '"'
  {
    if |s| > 0 && s[0] == '"' then 1 + LeadingQuotes(s[1..]) else 0
  }

  function TrailingQuotes(s: string): (k: nat)
    ensures k <= |s|
    ensures forall i :: |s| - k <= i < |s| ==> s[i] == '"'
    ensures k == |s| || s[|s| - k - 1] != '"'
  {
    if |s| > 0 && s[|s| - 1] == '"' then 1 + TrailingQuotes(s[..|s| - 1]) else 0
  }

  /* The quotes-only cut of the body: between the leading run and the trailing run. */
  predicate QuoteTrimmed(body: string, r: string) {
    exists a, b :: 0 <= a <= b <= |body| && r == body[a..b]
      && (forall i :: 0 <= i < a ==> body[i] == '"')
      && (forall i :: b <= i < |body| ==> body[i] == '"')
      && (a < b ==> body[a] != '"' && body[b - 1] != '"')
  }

  /*
   replaceAll("^\"+|\"+$", ""): the run of quotes at the start goes, and so
   does the run of quotes that ends where $ matches, which is the end of
   the string or just before a final line terminator; the terminator stays.
   */
  function StripQuotes(s: string): (r: string)
    ensures var e := |s| - FinalTerminator(s);
      exists core :: QuoteTrimmed(s[..e], core) && r == core + s[e..]
  {
    var e := |s| - FinalTerminator(s);
    var body := s[..e];
    var a := LeadingQuotes(body);
    var core := body[a..][..|body| - a - TrailingQuotes(body[a..])];
    var b := a + |core|;
    assert core == body[a..b];
    assert forall i :: b <= i < |body| ==> body[i] == body[a..][i - a];
    assert QuoteTrimmed(body, core);
    core + s[e..]
  }

  /* Neither end of q is a quote. */
  predicate Unquoted(q: string) {
    q == [] || (q[0] != '"' && q[|q| - 1] != '"')
  }

  /* After the rewrite no quote is left at either end. */
  lemma StripQuotesLeavesNoEndQuote(s: string)
    ensures Unquoted(StripQuotes(s))
  {
    var e := |s| - FinalTerminator(s);
    var r := StripQuotes(s);
    assert exists core :: QuoteTrimmed(s[..e], core) && r == core + s[e..];
    var core :| QuoteTrimmed(s[..e], core) && r == core + s[e..];
    TrimmedIsUnquoted(s[..e], core);
    var tail := s[e..];
    forall i | 0 <= i < |tail|
      ensures IsLineTerminator(tail[i])
    {
      assert tail[i] == s[e + i];
    }
    TerminatorsKeepUnquoted(core, tail);
  }

  /* The quotes-only cut has no quote at either end. */
  lemma TrimmedIsUnquoted(body: string, core: string)
    requires QuoteTrimmed(body, core)
    ensures Unquoted(core)
  {
  }

  /* Line terminators appended to an unquoted string leave it unquoted. */
  lemma TerminatorsKeepUnquoted(core: string, tail: string)
    requires Unquoted(core)
    requires forall i :: 0 <= i < |tail| ==> IsLineTerminator(tail[i])
    ensures Unquoted(core + tail)
  {
    var r := core + tail;
    if tail != [] {
      assert r[|r| - 1] == tail[|tail| - 1];
      if core == [] {
        assert r[0] == tail[0];
      }
    }
  }

  // ---------------------------------------------------------------------------
  // parseQueries
  // ---------------------------------------------------------------------------

  /* One line through the stream: trimmed, dropped when empty or a preamble,
     then stripped of its number and quotes, and dropped when nothing is left. */
  function CleanLine(line: string): (r: Option<string>)
    ensures r.Some? ==> r.value != [] && Unquoted(r.value)
  {
    var t := Trim(line);
    if t == [] || IsPreamble(t) then None
    else
      var q := StripQuotes(StripNumber(t));
      StripQuotesLeavesNoEndQuote(StripNumber(t));
      if q == [] then None else Some(q)
  }

  /* A stream's map-then-filter: each element mapped, the empty results dropped, the order kept. */
  function FilterMap<A, B>(f: A -> Option<B>, xs: seq<A>): (r: seq<B>)
    ensures |r| <= |xs|
  {
    if xs == [] then []
    else
      var rest := FilterMap(f, xs[1..]);
      match f(xs[0])
      case Some(y) => [y] + rest
      case None => rest
  }

  /* Every value kept is the mapping of some element. */
  lemma {:induction false} FilterMapFrom<A, B>(f: A -> Option<B>, xs: seq<A>)
    ensures forall i :: 0 <= i < |FilterMap(f, xs)| ==> exists j :: 0 <= j < |xs| && f(xs[j]) == Some(FilterMap(f, xs)[i])
    decreases |xs|
  {
    if xs != [] {
      var rest := FilterMap(f, xs[1..]);
      FilterMapFrom(f, xs[1..]);
      var r := FilterMap(f, xs);
      forall i | 0 <= i < |r| ensures exists j :: 0 <= j < |xs| && f(xs[j]) == Some(r[i]) {
        if f(xs[0]).Some? && i == 0 {
          assert r == [f(xs[0]).value] + rest;
          assert f(xs[0]) == Some(r[i]);
        } else {
          var k := if f(xs[0]).Some? then i - 1 else i;
          assert r == (if f(xs[0]).Some? then [f(xs[0]).value] else []) + rest;
          assert r[i] == rest[k];
          var j :| 0 <= j < |xs[1..]| && f(xs[1..][j]) == Some(rest[k]);
          assert xs[1..][j] == xs[j + 1];
          assert f(xs[j + 1]) == Some(r[i]);
        }
      }
    } else {
      assert |FilterMap(f, xs)| == 0;
    }
  }

  /* When every element maps to a value, nothing is dropped. */
  lemma {:induction false} FilterMapKeepsAll<A, B>(f: A -> Option<B>, xs: seq<A>, ys: seq<B>)
    requires |xs| == |ys|
    requires forall i :: 0 <= i < |xs| ==> f(xs[i]) == Some(ys[i])
    ensures FilterMap(f, xs) == ys
    decreases |xs|
  {
    if xs != [] {
      forall i | 0 <= i < |xs| - 1 ensures f(xs[1..][i]) == Some(ys[1..][i]) {
        assert xs[1..][i] == xs[i + 1];
      }
      FilterMapKeepsAll(f, xs[1..], ys[1..]);
      assert ys == [ys[0]] + ys[1..];
    }
  }

  /* The surviving lines, in order. */
  function CleanLines(lines: seq<string>): (r: seq<string>)
    ensures |r| <= |lines|
    ensures forall i :: 0 <= i < |r| ==> r[i] != [] && Unquoted(r[i])
  {
    var r := FilterMap(CleanLine, lines);
    FilterMapFrom(CleanLine, lines);
    assert forall i :: 0 <= i < |r| ==> r[i] != [] && Unquoted(r[i]) by {
      forall i | 0 <= i < |r| ensures r[i] != [] && Unquoted(r[i]) {
        var j :| 0 <= j < |lines| && CleanLine(lines[j]) == Some(r[i]);
      }
    }
    r
  }

  /*
   parseQueries: a null reply throws when it is split; otherwise the cleaned
   lines, at most maxQueries of them, and a negative maxQueries throws.
   */
  function ParseQueries(response: Option<string>, maxQueries: int): (r: Result<seq<string>>)
    ensures response.None? ==> r.Fail? && r.error.NullPointer?
    ensures response.Some? ==> (r.Fail? <==> maxQueries < 0)
    ensures r.Ok? ==> |r.value| <= maxQueries
    ensures r.Ok? ==> forall i :: 0 <= i < |r.value| ==> r.value[i] != [] && Unquoted(r.value[i])
  {
    if response.None? then Fail(NullPointer("Cannot invoke \"String.split(String)\" because \"response\" is null"))
    else Limit(CleanLines(Split(response.value, {'\n'})), maxQueries)
  }

  /* getFallbackQueries: the first min(maxQueries, 5) fixed queries. */
  function GetFallbackQueries(maxQueries: int): (r: Result<seq<string>>)
    ensures r.Fail? <==> maxQueries < 0
    ensures r.Ok? ==> |r.value| == Min(maxQueries, 5) && r.value == FallbackQueries[..|r.value|]
  {
    Limit(FallbackQueries, maxQueries)
  }

  /*
   generateQueries: `reply` is what building the prompt and calling the
   model produced (a failure when either threw). Any exception in there or
   in parsing falls back to the fixed queries; the fallback's own limit can
   still throw, and that escapes.
   */
  function GenerateQueries(reply: Result<Option<string>>, maxQueries: int): (r: Result<seq<string>>)
    ensures r.Fail? <==> maxQueries < 0
    ensures r.Ok? ==> |r.value| <= maxQueries
    ensures reply.Fail? ==> r == GetFallbackQueries(maxQueries)
    ensures reply == Ok(None) ==> r == GetFallbackQueries(maxQueries)
    ensures reply.Ok? && reply.value.Some? && maxQueries >= 0 ==> r == ParseQueries(reply.value, maxQueries)
    ensures r.Ok? ==> forall i :: 0 <= i < |r.value| ==> r.value[i] != []
  {
    match reply
    case Fail(_) => GetFallbackQueries(maxQueries)
    case Ok(response) =>
      match ParseQueries(response, maxQueries)
      case Ok(queries) => Ok(queries)
      case Fail(_) => GetFallbackQueries(maxQueries)
  }

  // ---------------------------------------------------------------------------
  // The expected reply format parses back to its queries
  // ---------------------------------------------------------------------------

  /* A query the model can write on a numbered line and have read back as it is:
     one line, nothing to trim or strip at either end, and no "queries:" in it. */
  predicate WellFormedQuery(q: string) {
    && q != []
    && !HasSeparator(q, {'\n'})
    && !IsRegexSpace(q[0]) && q[0] != '"'
    && !Trimmable(q[|q| - 1]) && q[|q| - 1] != '"' && !IsLineTerminator(q[|q| - 1])
    && !Contains(Lower(q), "queries:")
  }

  /* "n. query". */
  function NumberedLine(n: nat, q: string): string {
    Digits(n) + ". " + q
  }

  /* The queries as a numbered list, query i numbered nums[i]. */
  function NumberedLines(qs: seq<string>, nums: seq<nat>): (r: seq<string>)
    requires |nums| == |qs|
    ensures |r| == |qs|
    ensures forall i :: 0 <= i < |qs| ==> r[i] == NumberedLine(nums[i], qs[i])
  {
    if qs == [] then [] else [NumberedLine(nums[0], qs[0])] + NumberedLines(qs[1..], nums[1..])
  }

  /* One numbered line of a well-formed query cleans to the query. */
  lemma CleanNumberedLine(n: nat, q: string)
    requires WellFormedQuery(q)
    ensures CleanLine(NumberedLine(n, q)) == Some(q)
  {
    var ds := Digits(n);
    var line := NumberedLine(n, q);
    DigitsAreDigits(n);
    assert line[0] == ds[0] && line[|line| - 1] == q[|q| - 1];
    TrimUnchanged(line);
    NotPreamble(ds, q);
    StripNumberOfNumberedLine(n, q);
    StripQuotesOfUnquoted(q);
  }

  lemma StripNumberOfNumberedLine(n: nat, q: string)
    requires q != [] && !IsRegexSpace(q[0])
    ensures StripNumber(NumberedLine(n, q)) == q
  {
    var ds := Digits(n);
    var line := NumberedLine(n, q);
    DigitsAreDigits(n);
    assert DigitRun(line) == |ds| by {
      assert line == ds + (". " + q);
      assert (". " + q)[0] == '.';
      DigitRunOfPrefix(ds, ". " + q);
    }
    assert line[|ds|] == '.';
    assert line[|ds| + 1..] == " " + q;
    assert SpaceRun(" " + q) == 1 by { assert (" " + q)[1..] == q; }
    assert (" " + q)[1..] == q;
  }

  lemma StripQuotesOfUnquoted(q: string)
    requires q != [] && q[0] != '"' && q[|q| - 1] != '"' && !IsLineTerminator(q[|q| - 1])
    ensures StripQuotes(q) == q
  {
    assert FinalTerminator(q) == 0;
    assert q[..|q|] == q;
    assert LeadingQuotes(q) == 0;
    assert q[0..] == q;
    assert TrailingQuotes(q) == 0;
  }

  lemma {:induction false} DigitRunOfPrefix(ds: string, rest: string)
    requires forall i :: 0 <= i < |ds| ==> IsDigit(ds[i])
    requires rest == [] || !IsDigit(rest[0])
    ensures DigitRun(ds + rest) == |ds|
    decreases |ds|
  {
    if ds != [] {
      DigitRunOfPrefix(ds[1..], rest);
      assert (ds + rest)[1..] == ds[1..] + rest;
    }
  }

  /* A line that starts with a list number is not a preamble unless the query mentions "queries:". */
  lemma NotPreamble(ds: string, q: string)
    requires ds != [] && forall i :: 0 <= i < |ds| ==> IsDigit(ds[i])
    requires !Contains(Lower(q), "queries:")
    ensures !IsPreamble(ds + ". " + q)
  {
    var line := ds + ". " + q;
    var lower := Lower(line);
    assert lower[0] == LowerChar(ds[0]);
    assert !StartsWith(lower, "here are") && !StartsWith(lower, "here is") by {
      if |lower| > 0 {
        assert lower[0] != 'h';
      }
    }
    var head := Lower(ds + ". ");
    assert lower == head + Lower(q);
    assert 'q' !in head by {
      forall i | 0 <= i < |head| ensures head[i] != 'q' {
        if i < |ds| {
          assert (ds + ". ")[i] == ds[i];
        }
      }
    }
    ContainsPastPrefix(head, Lower(q), "queries:");
    SearchQueriesTestSubsumed(line);
  }

  /* The model may put a query in quotes: "n. \"query\"" cleans to the query as well. */
  lemma CleanQuotedNumberedLine(n: nat, q: string)
    requires WellFormedQuery(q)
    ensures CleanLine(NumberedLine(n, "\"" + q + "\"")) == Some(q)
  {
    var quoted := "\"" + q + "\"";
    var ds := Digits(n);
    var line := NumberedLine(n, quoted);
    DigitsAreDigits(n);
    assert line[0] == ds[0] && line[|line| - 1] == '"';
    TrimUnchanged(line);
    QuotesAddNoQueriesMark(q);
    NotPreamble(ds, quoted);
    StripNumberOfNumberedLine(n, quoted);
    StripQuotesOfQuoted(q);
  }

  lemma QuotesAddNoQueriesMark(q: string)
    requires !Contains(Lower(q), "queries:")
    ensures !Contains(Lower("\"" + q + "\""), "queries:")
  {
    assert Lower("\"" + q + "\"") == "\"" + (Lower(q) + "\"");
    ContainsPastPrefix("\"", Lower(q) + "\"", "queries:");
    ContainsBeforeSuffix(Lower(q), "\"", "queries:");
  }

  lemma StripQuotesOfQuoted(q: string)
    requires q != [] && q[0] != '"' && q[|q| - 1] != '"'
    ensures StripQuotes("\"" + q + "\"") == q
  {
    var s := "\"" + q + "\"";
    assert FinalTerminator(s) == 0;
    assert s[..|s|] == s;
    assert LeadingQuotes(s) == 1 by { assert s[1..][0] == q[0]; }
    var t := s[1..];
    assert t == q + "\"";
    assert TrailingQuotes(t) == 1 by { assert t[..|t| - 1] == q; }
    assert t[..|t| - 1] == q;
  }

  /* Numbered lines of well-formed queries clean to the queries, in order. */
  lemma CleanNumberedLines(qs: seq<string>, nums: seq<nat>)
    requires |nums| == |qs|
    requires forall i :: 0 <= i < |qs| ==> WellFormedQuery(qs[i])
    ensures CleanLines(NumberedLines(qs, nums)) == qs
  {
    var lines := NumberedLines(qs, nums);
    forall i | 0 <= i < |lines| ensures CleanLine(lines[i]) == Some(qs[i]) {
      CleanNumberedLine(nums[i], qs[i]);
    }
    FilterMapKeepsAll(CleanLine, lines, qs);
  }

  lemma {:induction false} FilterMapAppend<A, B>(f: A -> Option<B>, a: seq<A>, b: seq<A>)
    ensures FilterMap(f, a + b) == FilterMap(f, a) + FilterMap(f, b)
    decreases |a|
  {
    if a != [] {
      assert (a + b)[0] == a[0];
      assert (a + b)[1..] == a[1..] + b;
      FilterMapAppend(f, a[1..], b);
    } else {
      assert a + b == b;
    }
  }

  /* A blank line or a preamble anywhere in the reply changes nothing in the result. */
  lemma DroppedLineIgnored(before: seq<string>, line: string, after: seq<string>)
    requires Trim(line) == [] || IsPreamble(Trim(line))
    ensures CleanLines(before + [line] + after) == CleanLines(before + after)
  {
    assert CleanLine(line).None?;
    FilterMapSkips(CleanLine, before, line, after);
  }

  lemma FilterMapSkips<A, B>(f: A -> Option<B>, a: seq<A>, x: A, b: seq<A>)
    requires f(x).None?
    ensures FilterMap(f, a + [x] + b) == FilterMap(f, a + b)
  {
    FilterMapAppend(f, a + [x], b);
    FilterMapAppend(f, a, [x]);
    FilterMapAppend(f, a, b);
    assert FilterMap(f, [x]) == [] by {
      assert [x][1..] == [];
    }
  }

  /*
   The format the prompt asks for round-trips: the queries written one per
   line as "1. ...", "2. ..." and so on (whatever the numbers) parse back to
   exactly those queries, provided no more of them were written than were
   asked for.
   */
  lemma NumberedReplyRoundTrip(qs: seq<string>, nums: seq<nat>, maxQueries: int)
    requires |nums| == |qs|
    requires forall i :: 0 <= i < |qs| ==> WellFormedQuery(qs[i])
    requires |qs| <= maxQueries
    ensures ParseQueries(Some(Join(NumberedLines(qs, nums), '\n')), maxQueries) == Ok(qs)
  {
    var lines := NumberedLines(qs, nums);
    if qs == [] {
      assert Split("", {'\n'}) == [""];
    } else {
      forall k | 0 <= k < |lines| ensures !HasSeparator(lines[k], {'\n'}) {
        NumberedLineOneLine(nums[k], qs[k]);
      }
      assert lines[|lines| - 1] != "";
      SplitOfJoin(lines, '\n');
      CleanNumberedLines(qs, nums);
    }
  }

  lemma NumberedLineOneLine(n: nat, q: string)
    requires !HasSeparator(q, {'\n'})
    ensures !HasSeparator(NumberedLine(n, q), {'\n'})
  {
    var ds := Digits(n);
    DigitsAreDigits(n);
    var line := NumberedLine(n, q);
    forall i | 0 <= i < |line| ensures line[i] != '\n' {
      if i >= |ds| + 2 {
        assert line[i] == q[i - |ds| - 2];
      }
    }
  }
}
