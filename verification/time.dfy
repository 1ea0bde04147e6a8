/**
 Clock values. A java.time.LocalDateTime is a count of seconds on the local
 time line (no time zone, so plusHours/plusDays/plusWeeks add fixed amounts);
 a LocalDate keeps its fields, and its ISO-8601 text is modelled exactly.
 */
module Time {

  /* Seconds on the local time line. */
  type Instant = int

  const SecondsPerMinute := 60
  const SecondsPerHour := 3600
  const SecondsPerDay := 86400
  const SecondsPerWeek := 604800

  /* Duration.between(start, end).toMinutes(): whole minutes, truncated toward zero. */
  function MinutesBetween(start: Instant, end: Instant): (r: int)
    ensures start <= end ==> 0 <= r && r * 60 <= end - start < r * 60 + 60
    ensures end < start ==> r <= 0 && start - end - 60 < -r * 60 <= start - end
  {
    var d := end - start;
    if d >= 0 then d / 60 else -((-d) / 60)
  }

  datatype Date = Date(year: int, month: int, day: int)

  predicate ValidDate(d: Date) {
    1 <= d.month <= 12 && 1 <= d.day <= 31
  }

  /* A java.time.LocalDate: its month and day are always in range. */
  type LocalDate = d: Date | ValidDate(d) witness Date(2000, 1, 1)

  function DigitChar(n: nat): (c: char)
    requires n < 10
    ensures '0' <= c <= '9'
  {
    ('0' as int + n) as char
  }

  function CharValue(c: char): nat {
    if '0' <= c <= '9' then c as int - '0' as int else 0
  }

  /* The decimal digits of n, without leading zeros ("0" for zero). */
  function Digits(n: nat): (s: string)
    ensures |s| >= 1 && '0' <= s[0] <= '9'
    ensures n < 10 ==> |s| == 1
    ensures 10 <= n < 100 ==> |s| == 2
  {
    if n < 10 then [DigitChar(n)] else Digits(n / 10) + [DigitChar(n % 10)]
  }

  /* Every character of the rendering is a decimal digit. */
  lemma {:induction false} DigitsAreDigits(n: nat)
    ensures forall i :: 0 <= i < |Digits(n)| ==> '0' <= Digits(n)[i] <= '9'
  {
    if n >= 10 {
      DigitsAreDigits(n / 10);
    }
  }

  /* Java's decimal rendering of an int: a minus sign before the digits of a negative value. */
  function IntText(i: int): (s: string)
    ensures i >= 0 ==> s == Digits(i)
    ensures i < 0 ==> s == "-" + Digits(-i)
  {
    if i < 0 then "-" + Digits(-i) else Digits(i)
  }

  /* The number a string of decimal digits denotes. */
  function DecimalValue(s: string): nat {
    if |s| == 0 then 0 else DecimalValue(s[..|s| - 1]) * 10 + CharValue(s[|s| - 1])
  }

  function Zeros(k: nat): (s: string)
    ensures |s| == k
  {
    if k == 0 then "" else "0" + Zeros(k - 1)
  }

  /* Digits(n) left-padded with zeros to at least `width` characters. */
  function Pad(n: nat, width: nat): (s: string)
    ensures |s| >= 1 && '0' <= s[0] <= '9'
    ensures n < 100 && width == 2 ==> |s| == 2
  {
    var ds := Digits(n);
    if |ds| >= width then ds else Zeros(width - |ds|) + ds
  }

  lemma {:induction false} DigitsValue(n: nat)
    ensures DecimalValue(Digits(n)) == n
    decreases n
  {
    if n >= 10 {
      DigitsValue(n / 10);
      var s := Digits(n);
      assert s[..|s| - 1] == Digits(n / 10);
    }
  }

  lemma {:induction false} ZerosValue(k: nat, s: string)
    ensures DecimalValue(Zeros(k) + s) == DecimalValue(s)
    decreases k + |s|
  {
    if |s| > 0 {
      var t := Zeros(k) + s;
      assert t[..|t| - 1] == Zeros(k) + s[..|s| - 1];
      ZerosValue(k, s[..|s| - 1]);
    } else if k > 0 {
      assert Zeros(k) + s == Zeros(k);
      var t := Zeros(k);
      assert t == Zeros(k - 1) + "0" by { ZerosSnoc(k); }
      assert t[..|t| - 1] == Zeros(k - 1);
      ZerosValue(k - 1, "");
      assert Zeros(k - 1) + "" == Zeros(k - 1);
      assert DecimalValue(t) == DecimalValue(Zeros(k - 1)) * 10 + CharValue('0');
    }
  }

  lemma {:induction false} ZerosSnoc(k: nat)
    requires k > 0
    ensures Zeros(k) == Zeros(k - 1) + "0"
    decreases k
  {
    if k > 1 {
      ZerosSnoc(k - 1);
    }
  }

  lemma PadValue(n: nat, width: nat)
    ensures DecimalValue(Pad(n, width)) == n
  {
    DigitsValue(n);
    var ds := Digits(n);
    if |ds| < width {
      ZerosValue(width - |ds|, ds);
      assert Pad(n, width) == Zeros(width - |ds|) + ds;
    } else {
      assert Pad(n, width) == ds;
    }
  }

  /* LocalDate.toString's year: four digits below 1000 in magnitude, a '+'
     above 9999, a '-' for negative years. */
  function YearText(y: int): (s: string)
    ensures |s| >= 1
  {
    if 0 <= y < 1000 then Pad(y, 4)
    else if -1000 < y < 0 then "-" + Pad(-y, 4)
    else if y > 9999 then "+" + Digits(y)
    else if y >= 0 then Digits(y)
    else "-" + Digits(-y)
  }

  function ParseYear(s: string): int {
    if |s| > 0 && s[0] == '+' then DecimalValue(s[1..])
    else if |s| > 0 && s[0] == '-' then -(DecimalValue(s[1..]) as int)
    else DecimalValue(s)
  }

  lemma YearRoundTrip(y: int)
    ensures ParseYear(YearText(y)) == y
  {
    var s := YearText(y);
    if 0 <= y < 1000 {
      PadValue(y, 4);
    } else if -1000 < y < 0 {
      assert s[1..] == Pad(-y, 4);
      PadValue(-y, 4);
    } else if y > 9999 {
      assert s[1..] == Digits(y);
      DigitsValue(y);
    } else if y >= 0 {
      DigitsValue(y);
    } else {
      assert s[1..] == Digits(-y);
      DigitsValue(-y);
    }
  }

  /* LocalDate.toString: yyyy-MM-dd. */
  function DateText(d: Date): (s: string)
    requires ValidDate(d)
    ensures |s| >= 7
  {
    YearText(d.year) + "-" + Pad(d.month, 2) + "-" + Pad(d.day, 2)
  }

  /* LocalDate.parse for the texts DateText produces. */
  function ParseDate(s: string): Date
    requires |s| >= 6
  {
    Date(ParseYear(s[..|s| - 6]), DecimalValue(s[|s| - 5..|s| - 3]), DecimalValue(s[|s| - 2..]))
  }

  /* Parsing the ISO text gives the date back. */
  lemma DateRoundTrip(d: Date)
    requires ValidDate(d)
    ensures ParseDate(DateText(d)) == d
  {
    var s := DateText(d);
    var y := YearText(d.year);
    assert s[..|s| - 6] == y;
    assert s[|s| - 5..|s| - 3] == Pad(d.month, 2);
    assert s[|s| - 2..] == Pad(d.day, 2);
    YearRoundTrip(d.year);
    PadValue(d.month, 2);
    PadValue(d.day, 2);
  }

  /* Different dates have different ISO texts. */
  lemma DateTextInjective(a: Date, b: Date)
    requires ValidDate(a) && ValidDate(b) && DateText(a) == DateText(b)
    ensures a == b
  {
    DateRoundTrip(a);
    DateRoundTrip(b);
  }
}
