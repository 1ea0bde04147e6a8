/**
 The slice of java.lang.String the modelled code relies on: trim, isBlank,
 case mapping, contains/startsWith, indexOf and the regex-free forms of split.
 */
module Text {
  import opened Wrappers

  /* Java string concatenation renders a null reference as "null". */
  function JavaText(s: Option<string>): string {
    if s.None? then "null" else s.value
  }

  /* The guard `s == null || s.isBlank()`. */
  predicate IsNullOrBlank(s: Option<string>) {
    s.None? || IsBlank(s.value)
  }

  /* Character.isWhitespace: Unicode space separators other than the
     no-break spaces, the line and paragraph separators, and the ASCII
     controls TAB, LF, VT, FF, CR and FS..US. */
  predicate IsJavaWhitespace(c: char) {
    || c == ' ' || c == '\t' || c == '\n' || c == '\U{B}' || c == '\U{C}' || c == '\r'
    || ('\U{1C}' <= c <= '\U{1F}')
    || c == '\U{1680}' || ('\U{2000}' <= c <= '\U{2006}') || ('\U{2008}' <= c <= '\U{200A}')
    || c == '\U{2028}' || c == '\U{2029}' || c == '\U{205F}' || c == '\U{3000}'
  }

  /* String.isBlank: empty or whitespace only. */
  predicate IsBlank(s: string) {
    forall i :: 0 <= i < |s| ==> IsJavaWhitespace(s[i])
  }

  /* String.trim removes every leading and trailing character up to U+0020. */
  predicate Trimmable(c: char) {
    c <= ' '
  }

  function TrimStart(s: string): (r: string)
    ensures |r| <= |s| && r == s[|s| - |r|..]
    ensures r == [] || !Trimmable(r[0])
    ensures forall i :: 0 <= i < |s| - |r| ==> Trimmable(s[i])
  {
    if |s| > 0 && Trimmable(s[0]) then TrimStart(s[1..]) else s
  }

  function TrimEnd(s: string): (r: string)
    ensures |r| <= |s| && r == s[..|r|]
    ensures r == [] || !Trimmable(r[|r| - 1])
    ensures forall i :: |r| <= i < |s| ==> Trimmable(s[i])
  {
    if |s| > 0 && Trimmable(s[|s| - 1]) then TrimEnd(s[..|s| - 1]) else s
  }

  /* r is s with a trimmable prefix of length i and a trimmable suffix cut off. */
  predicate TrimSlice(s: string, r: string, i: int) {
    && 0 <= i <= |s| - |r| && r == s[i..i + |r|]
    && (forall k :: 0 <= k < i ==> Trimmable(s[k]))
    && (forall k :: i + |r| <= k < |s| ==> Trimmable(s[k]))
  }

  /* The trimmed string is the inner slice whose ends are not trimmable;
     everything cut off is trimmable. */
  function Trim(s: string): (r: string)
    ensures exists i :: TrimSlice(s, r, i)
    ensures r == [] || (!Trimmable(r[0]) && !Trimmable(r[|r| - 1]))
  {
    var t := TrimStart(s);
    var r := TrimEnd(t);
    assert r == s[|s| - |t|..|s| - |t| + |r|];
    assert TrimSlice(s, r, |s| - |t|);
    r
  }

  /* A string whose end characters are not trimmable is its own trim. */
  lemma TrimUnchanged(s: string)
    requires s != [] && !Trimmable(s[0]) && !Trimmable(s[|s| - 1])
    ensures Trim(s) == s
  {
    var r := Trim(s);
    var i :| TrimSlice(s, r, i);
  }

  /* The Latin Extended-A letters (U+0100..U+017F) that come in adjacent
     pairs with the capital on the even code point, and those with the
     capital on the odd one. */
  predicate EvenCapitalPair(n: int) {
    0x100 <= n <= 0x12F || 0x132 <= n <= 0x137 || 0x14A <= n <= 0x177
  }

  predicate OddCapitalPair(n: int) {
    0x139 <= n <= 0x148 || 0x179 <= n <= 0x17E
  }

  /* Character.toLowerCase on ASCII, Latin-1, Latin Extended-A and the basic
     Cyrillic block. */
  function LowerChar(c: char): char {
    var n := c as int;
    if 'A' <= c <= 'Z' || ('À' <= c <= 'Þ' && c != '×') || ('А' <= c <= 'Я') then
      (n + 32) as char
    else if 'Ѐ' <= c <= 'Џ' then
      (n + 80) as char
    else if (EvenCapitalPair(n) && n % 2 == 0) || (OddCapitalPair(n) && n % 2 == 1) then
      (n + 1) as char
    else if n == 0x178 then
      'ÿ'
    else c
  }

  /* Character.toUpperCase on the same blocks, including the letters whose
     capital lies elsewhere: dotless i and long s become I and S, y with
     diaeresis U+0178, micro sign the Greek capital mu. */
  function UpperChar(c: char): char {
    var n := c as int;
    if 'a' <= c <= 'z' || ('à' <= c <= 'þ' && c != '÷') || ('а' <= c <= 'я') then
      (n - 32) as char
    else if 'ѐ' <= c <= 'џ' then
      (n - 80) as char
    else if (EvenCapitalPair(n) && n % 2 == 1) || (OddCapitalPair(n) && n % 2 == 0) then
      (n - 1) as char
    else if c == 'ÿ' then
      0x178 as char
    else if c == 'µ' then
      0x39C as char
    else if n == 0x131 then
      'I'
    else if n == 0x17F then
      'S'
    else c
  }

  /* Whitespace has no case, and no letter maps onto whitespace. */
  lemma WhitespaceCaseless(c: char)
    ensures IsJavaWhitespace(c) ==> UpperChar(c) == c && LowerChar(c) == c
    ensures IsJavaWhitespace(UpperChar(c)) ==> IsJavaWhitespace(c)
    ensures IsJavaWhitespace(LowerChar(c)) ==> IsJavaWhitespace(c)
  {
  }

  function Lower(s: string): (r: string)
    ensures |r| == |s|
    ensures forall i :: 0 <= i < |s| ==> r[i] == LowerChar(s[i])
  {
    seq(|s|, i requires 0 <= i < |s| => LowerChar(s[i]))
  }

  function Upper(s: string): (r: string)
    ensures |r| == |s|
    ensures forall i :: 0 <= i < |s| ==> r[i] == UpperChar(s[i])
  {
    seq(|s|, i requires 0 <= i < |s| => UpperChar(s[i]))
  }

  lemma LowerIdempotent(s: string)
    ensures Lower(Lower(s)) == Lower(s)
  {
  }

  lemma UpperIdempotent(s: string)
    ensures Upper(Upper(s)) == Upper(s)
  {
  }

  /* String.equalsIgnoreCase: equal lengths, and each pair of characters equal as they are,
     after upper-casing, or after upper- then lower-casing. */
  predicate EqualsIgnoreCase(a: string, b: string) {
    && |a| == |b|
    && forall i :: 0 <= i < |a| ==>
         || a[i] == b[i]
         || UpperChar(a[i]) == UpperChar(b[i])
         || LowerChar(UpperChar(a[i])) == LowerChar(UpperChar(b[i]))
  }

  predicate StartsWith(s: string, prefix: string) {
    |prefix| <= |s| && s[..|prefix|] == prefix
  }

  predicate EndsWith(s: string, suffix: string) {
    |suffix| <= |s| && s[|s| - |suffix|..] == suffix
  }

  /* `sub` occurs in `s` starting at index i. */
  predicate OccursAt(s: string, sub: string, i: int) {
    0 <= i && i + |sub| <= |s| && s[i..i + |sub|] == sub
  }

  /* String.contains, decided by scanning the start positions left to right. */
  function Contains(s: string, sub: string): (r: bool)
    ensures r <==> exists i :: OccursAt(s, sub, i)
  {
    if StartsWith(s, sub) then
      assert OccursAt(s, sub, 0);
      true
    else if |s| == 0 then
      assert forall i :: !OccursAt(s, sub, i);
      false
    else
      var rest := Contains(s[1..], sub);
      assert forall i :: OccursAt(s[1..], sub, i) <==> OccursAt(s, sub, i + 1) by {
        forall i ensures OccursAt(s[1..], sub, i) <==> OccursAt(s, sub, i + 1) {
          if 0 <= i && i + |sub| <= |s| - 1 {
            assert s[1..][i..i + |sub|] == s[i + 1..i + 1 + |sub|];
          }
        }
      }
      assert !OccursAt(s, sub, 0);
      assert forall i :: OccursAt(s, sub, i) ==> i == 0 || OccursAt(s[1..], sub, i - 1);
      rest
  }

  /* A string that contains a phrase contains every tail of it. */
  lemma ContainsTail(s: string, phrase: string, n: int)
    requires Contains(s, phrase) && 0 <= n <= |phrase|
    ensures Contains(s, phrase[n..])
  {
    var i :| OccursAt(s, phrase, i);
    assert s[i + n..i + n + |phrase[n..]|] == phrase[n..];
    assert OccursAt(s, phrase[n..], i + n);
  }

  /* An occurrence of sub cannot start in a prefix that lacks sub's first character. */
  lemma ContainsPastPrefix(a: string, b: string, sub: string)
    requires sub != [] && sub[0] !in a
    ensures Contains(a + b, sub) ==> Contains(b, sub)
  {
    if Contains(a + b, sub) {
      var i :| OccursAt(a + b, sub, i);
      assert (a + b)[i] == sub[0];
      assert i >= |a|;
      assert forall k :: 0 <= k < |sub| ==> sub[k] == (a + b)[i + k] == b[i - |a| + k];
      assert sub == b[i - |a|..i - |a| + |sub|];
      assert OccursAt(b, sub, i - |a|);
    }
  }

  /* Nor can it reach into a suffix made of characters sub does not use. */
  lemma ContainsBeforeSuffix(a: string, b: string, sub: string)
    requires sub != [] && forall k :: 0 <= k < |b| ==> b[k] !in sub
    ensures Contains(a + b, sub) ==> Contains(a, sub)
  {
    if Contains(a + b, sub) {
      var i :| OccursAt(a + b, sub, i);
      var last := i + |sub| - 1;
      assert (a + b)[last] == sub[|sub| - 1];
      assert (a + b)[i..i + |sub|] == a[i..i + |sub|];
      assert OccursAt(a, sub, i);
    }
  }

  /* Contains on a lowercased haystack does not depend on the haystack's case. */
  lemma ContainsLowerCaseInsensitive(a: string, b: string, sub: string)
    requires Lower(a) == Lower(b)
    ensures Contains(Lower(a), sub) == Contains(Lower(b), sub)
  {
  }

  /* String.indexOf(char): the first index holding c, or -1. */
  function IndexOf(s: string, c: char): (r: int)
    ensures -1 <= r < |s|
    ensures r == -1 <==> c !in s
    ensures r >= 0 ==> s[r] == c && c !in s[..r]
  {
    if |s| == 0 then -1
    else if s[0] == c then 0
    else
      var k := IndexOf(s[1..], c);
      assert s == [s[0]] + s[1..];
      if k == -1 then -1
      else
        assert s[..k + 1] == [s[0]] + s[1..][..k];
        k + 1
  }

  /* Every character of s outside `seps` kept, the pieces between separators
     produced left to right; this is split with no trailing-empty removal. */
  function Pieces(s: string, seps: set<char>): (r: seq<string>)
    ensures |r| >= 1
    ensures forall k :: 0 <= k < |r| ==> forall j :: 0 <= j < |r[k]| ==> r[k][j] !in seps
    decreases |s|
  {
    if |s| == 0 then [""]
    else
      var tail := Pieces(s[1..], seps);
      if s[0] in seps then [""] + tail
      else [[s[0]] + tail[0]] + tail[1..]
  }

  /* Joining the pieces back with the one separator gives the original string. */
  function Join(parts: seq<string>, sep: char): (r: string)
    decreases |parts|
  {
    if |parts| == 0 then ""
    else if |parts| == 1 then parts[0]
    else parts[0] + [sep] + Join(parts[1..], sep)
  }

  lemma {:induction false} JoinPieces(s: string, sep: char)
    ensures Join(Pieces(s, {sep}), sep) == s
    decreases |s|
  {
    if |s| > 0 {
      var tail := Pieces(s[1..], {sep});
      JoinPieces(s[1..], sep);
      if s[0] == sep {
        assert Pieces(s, {sep}) == [""] + tail;
        assert ([""] + tail)[1..] == tail;
      } else {
        var p := Pieces(s, {sep});
        assert p == [[s[0]] + tail[0]] + tail[1..];
        if |tail| == 1 {
          assert p == [[s[0]] + tail[0]];
        } else {
          assert p[1..] == tail[1..];
          assert Join(tail, sep) == tail[0] + [sep] + Join(tail[1..], sep);
        }
      }
      assert s == [s[0]] + s[1..];
    }
  }

  predicate HasSeparator(s: string, seps: set<char>) {
    exists i :: 0 <= i < |s| && s[i] in seps
  }

  function DropTrailingEmpty(parts: seq<string>): (r: seq<string>)
    ensures |r| <= |parts| && r == parts[..|r|]
    ensures r == [] || r[|r| - 1] != ""
    ensures forall k :: |r| <= k < |parts| ==> parts[k] == ""
  {
    if |parts| > 0 && parts[|parts| - 1] == "" then DropTrailingEmpty(parts[..|parts| - 1]) else parts
  }

  /* String.split with a one-character class and limit 0: with no separator
     the whole string is the only element; otherwise trailing empty pieces
     are removed (so "--".split("-") is empty). */
  function Split(s: string, seps: set<char>): (r: seq<string>)
    ensures !HasSeparator(s, seps) ==> r == [s]
    ensures HasSeparator(s, seps) ==> r == DropTrailingEmpty(Pieces(s, seps))
    ensures forall k :: 0 <= k < |r| ==> forall j :: 0 <= j < |r[k]| ==> r[k][j] !in seps
  {
    if HasSeparator(s, seps) then DropTrailingEmpty(Pieces(s, seps)) else [s]
  }

  lemma {:induction false} PiecesWithoutSeparator(s: string, seps: set<char>)
    requires !HasSeparator(s, seps)
    ensures Pieces(s, seps) == [s]
    decreases |s|
  {
    if |s| > 0 {
      assert s[0] !in seps;
      assert !HasSeparator(s[1..], seps) by {
        forall i | 0 <= i < |s| - 1 ensures s[1..][i] !in seps {
          assert s[1..][i] == s[i + 1];
        }
      }
      PiecesWithoutSeparator(s[1..], seps);
      assert s == [s[0]] + s[1..];
    }
  }

  /* A separator-free first piece followed by a separator splits off. */
  lemma {:induction false} PiecesAfterSeparator(a: string, c: char, b: string, seps: set<char>)
    requires !HasSeparator(a, seps) && c in seps
    ensures Pieces(a + [c] + b, seps) == [a] + Pieces(b, seps)
    decreases |a|
  {
    var s := a + [c] + b;
    if |a| == 0 {
      assert s[1..] == b;
    } else {
      assert a[0] !in seps;
      assert !HasSeparator(a[1..], seps) by {
        forall i | 0 <= i < |a| - 1 ensures a[1..][i] !in seps {
          assert a[1..][i] == a[i + 1];
        }
      }
      PiecesAfterSeparator(a[1..], c, b, seps);
      assert s[1..] == a[1..] + [c] + b;
      assert s[0] == a[0];
      assert [a[0]] + a[1..] == a;
    }
  }

  /* Joining separator-free lines and splitting them again gives the lines back. */
  lemma {:induction false} PiecesOfJoin(lines: seq<string>, sep: char)
    requires |lines| >= 1
    requires forall k :: 0 <= k < |lines| ==> !HasSeparator(lines[k], {sep})
    ensures Pieces(Join(lines, sep), {sep}) == lines
    decreases |lines|
  {
    if |lines| == 1 {
      PiecesWithoutSeparator(lines[0], {sep});
    } else {
      PiecesOfJoin(lines[1..], sep);
      PiecesAfterSeparator(lines[0], sep, Join(lines[1..], sep), {sep});
      assert lines == [lines[0]] + lines[1..];
    }
  }

  /* With a non-empty last line nothing is dropped, so Split undoes Join. */
  lemma SplitOfJoin(lines: seq<string>, sep: char)
    requires |lines| >= 1 && lines[|lines| - 1] != ""
    requires forall k :: 0 <= k < |lines| ==> !HasSeparator(lines[k], {sep})
    ensures Split(Join(lines, sep), {sep}) == lines
  {
    var s := Join(lines, sep);
    PiecesOfJoin(lines, sep);
    if HasSeparator(s, {sep}) {
      var r := DropTrailingEmpty(lines);
      assert r == lines;
    } else {
      PiecesWithoutSeparator(s, {sep});
    }
  }

  /* "a.b" with separator-free a and non-empty separator-free b splits into [a, b]. */
  lemma SplitTwoLabels(a: string, c: char, b: string)
    requires c !in a && c !in b && b != ""
    ensures Split(a + [c] + b, {c}) == [a, b]
  {
    var s := a + [c] + b;
    assert !HasSeparator(a, {c}) by {
      forall i | 0 <= i < |a| ensures a[i] != c {
        assert a[i] in a;
      }
    }
    assert !HasSeparator(b, {c}) by {
      forall i | 0 <= i < |b| ensures b[i] != c {
        assert b[i] in b;
      }
    }
    assert s[|a|] == c;
    PiecesAfterSeparator(a, c, b, {c});
    PiecesWithoutSeparator(b, {c});
    assert Pieces(s, {c}) == [a, b];
  }

  /* a, a separator, then b: with both parts separator-free and b non-empty, the split is [a, b]. */
  lemma SplitTwoParts(a: string, c: char, b: string, seps: set<char>)
    requires !HasSeparator(a, seps) && !HasSeparator(b, seps) && c in seps && b != ""
    ensures Split(a + [c] + b, seps) == [a, b]
  {
    var s := a + [c] + b;
    assert s[|a|] == c;
    PiecesAfterSeparator(a, c, b, seps);
    PiecesWithoutSeparator(b, seps);
    assert Pieces(s, seps) == [a, b];
  }

  /* Splitting at a separator concatenates the pieces of both sides. */
  lemma {:induction false} PiecesConcat(a: string, c: char, b: string, seps: set<char>)
    requires c in seps
    ensures Pieces(a + [c] + b, seps) == Pieces(a, seps) + Pieces(b, seps)
    decreases |a|
  {
    if |a| == 0 {
      assert a + [c] + b == [c] + b;
      PiecesCons(c, b, seps);
    } else {
      var t := a[1..];
      assert a == [a[0]] + t;
      assert a + [c] + b == [a[0]] + (t + [c] + b);
      PiecesConcat(t, c, b, seps);
      PiecesCons(a[0], t + [c] + b, seps);
      PiecesCons(a[0], t, seps);
    }
  }

  /* One step of Pieces: a separator starts a new piece, anything else joins the first. */
  lemma PiecesCons(x: char, t: string, seps: set<char>)
    ensures x in seps ==> Pieces([x] + t, seps) == [""] + Pieces(t, seps)
    ensures x !in seps ==>
      Pieces([x] + t, seps) == [[x] + Pieces(t, seps)[0]] + Pieces(t, seps)[1..]
  {
    assert ([x] + t)[0] == x && ([x] + t)[1..] == t;
  }

  /* A non-empty separator-free last part is the last element of the split. */
  lemma SplitLastPart(a: string, c: char, b: string)
    requires c !in b && b != ""
    ensures var r := Split(a + [c] + b, {c}); |r| >= 2 && r[|r| - 1] == b
  {
    var s := a + [c] + b;
    assert s[|a|] == c;
    assert !HasSeparator(b, {c}) by {
      forall i | 0 <= i < |b| ensures b[i] != c {
        assert b[i] in b;
      }
    }
    PiecesConcat(a, c, b, {c});
    PiecesWithoutSeparator(b, {c});
    assert Pieces(s, {c}) == Pieces(a, {c}) + [b];
  }

  /* Two non-empty separator-free last parts are the last two elements of the split. */
  lemma SplitLastTwoParts(a: string, c: char, b1: string, b2: string)
    requires c !in b1 && c !in b2 && b1 != "" && b2 != ""
    ensures var r := Split(a + [c] + (b1 + [c] + b2), {c}); |r| >= 3 && r[|r| - 2] == b1 && r[|r| - 1] == b2
  {
    var s := a + [c] + (b1 + [c] + b2);
    assert s[|a|] == c;
    assert !HasSeparator(b1, {c}) by {
      forall i | 0 <= i < |b1| ensures b1[i] != c {
        assert b1[i] in b1;
      }
    }
    assert !HasSeparator(b2, {c}) by {
      forall i | 0 <= i < |b2| ensures b2[i] != c {
        assert b2[i] in b2;
      }
    }
    PiecesConcat(a, c, b1 + [c] + b2, {c});
    PiecesAfterSeparator(b1, c, b2, {c});
    PiecesWithoutSeparator(b2, {c});
    assert Pieces(s, {c}) == Pieces(a, {c}) + [b1, b2];
  }

  /* Without a separator the string is its own single label. */
  lemma SplitSingleLabel(s: string, c: char)
    requires c !in s
    ensures Split(s, {c}) == [s]
  {
    assert !HasSeparator(s, {c}) by {
      forall i | 0 <= i < |s| ensures s[i] != c {
        assert s[i] in s;
      }
    }
  }

  /* String.split(sep, 2): at most two parts, cut at the first separator. */
  function SplitFirst(s: string, sep: char): (r: seq<string>)
    ensures sep !in s ==> r == [s]
    ensures sep in s ==> |r| == 2 && sep !in r[0] && r[0] + [sep] + r[1] == s
  {
    var i := IndexOf(s, sep);
    if i < 0 then [s]
    else
      assert s == s[..i] + [sep] + s[i + 1..];
      [s[..i], s[i + 1..]]
  }

  /* replaceFirst("^https?://", ""). */
  function StripScheme(s: string): (r: string)
    ensures StartsWith(s, "http://") ==> r == s[7..]
    ensures StartsWith(s, "https://") ==> r == s[8..]
    ensures !StartsWith(s, "http://") && !StartsWith(s, "https://") ==> r == s
  {
    if StartsWith(s, "http://") then
      assert s[..7][4] == s[4] == ':';
      s[7..]
    else if StartsWith(s, "https://") then s[8..]
    else s
  }
}
