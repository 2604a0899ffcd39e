/**
 * The three `datetime` format strings the core uses, re-specified:
 * parsing with `strptime(s, "%Y-%m-%d")` and `strptime(s, "%B %d, %Y")`,
 * printing with `%A`, `%B`, `%d` and `%Y`.
 *
 * `strptime` compiles the format into a regular expression and accepts the
 * string only if the expression matches it from the first character to the
 * last. For the directives used here the alternatives are
 *   %Y  four digits
 *   %m  `1[0-2]`, `0[1-9]` or `[1-9]`
 *   %d  `3[01]`, `[12][0-9]`, `0[1-9]`, `[1-9]` or a space then `[1-9]`
 *   %B  a full month name, compared without regard to case
 * and every run of whitespace in the format matches one or more whitespace
 * characters. The parsed fields must then form a date `datetime` accepts.
 */
module DateFormat {
  import opened Values
  import opened Text
  import opened Calendar

  predicate IsDigit(c: char) {
    '0' <= c <= '9'
  }

  function DigitValue(c: char): int
    requires IsDigit(c)
  {
    c as int - '0' as int
  }

  function DigitChar(n: int): (c: char)
    requires 0 <= n < 10
    ensures IsDigit(c) && DigitValue(c) == n
  {
    ('0' as int + n) as char
  }

  /** The characters `\s` matches (ASCII whitespace). */
  predicate IsSpace(c: char) {
    c == ' ' || c == '\t' || c == '\n' || c == '\r' || c == '\U{B}' || c == '\U{C}'
  }

  /** ASCII lower-casing, as used by `re.IGNORECASE` on letters. */
  function Lower(c: char): char {
    if 'A' <= c <= 'Z' then (c as int + 32) as char else c
  }

  predicate SameIgnoringCase(a: string, b: string) {
    |a| == |b| && forall i :: 0 <= i < |a| ==> Lower(a[i]) == Lower(b[i])
  }

  /** `%d` and `%m` when printing: two digits, zero-padded. */
  function Pad2(n: int): (s: string)
    requires 0 <= n < 100
    ensures |s| == 2 && IsDigit(s[0]) && IsDigit(s[1])
    ensures 10 * DigitValue(s[0]) + DigitValue(s[1]) == n
  {
    [DigitChar(n / 10), DigitChar(n % 10)]
  }

  /** `%Y` when printing: four digits, zero-padded. */
  function Pad4(n: int): (s: string)
    requires 0 <= n < 10000
    ensures |s| == 4 && forall i :: 0 <= i < 4 ==> IsDigit(s[i])
  {
    [DigitChar(n / 1000), DigitChar(n / 100 % 10), DigitChar(n / 10 % 10), DigitChar(n % 10)]
  }

  /** `%m`: the month token at the start of a date field. */
  function MonthToken(t: string): (r: Option<int>)
    ensures r.Some? ==> 1 <= r.value <= 12
    ensures r.Some? ==> 1 <= |t| <= 2 && forall i :: 0 <= i < |t| ==> IsDigit(t[i])
  {
    if |t| == 2 && t[0] == '1' && '0' <= t[1] <= '2' then Some(10 + DigitValue(t[1]))
    else if |t| == 2 && t[0] == '0' && '1' <= t[1] <= '9' then Some(DigitValue(t[1]))
    else if |t| == 1 && '1' <= t[0] <= '9' then Some(DigitValue(t[0]))
    else None
  }

  /** `%d`: the day token, which must be all of `t`. */
  function DayToken(t: string): (r: Option<int>)
    ensures r.Some? ==> 1 <= r.value <= 31
    ensures r.Some? ==> 1 <= |t| <= 2 && forall i :: 0 <= i < |t| ==> IsDigit(t[i]) || t[i] == ' '
  {
    if |t| == 2 && t[0] == '3' && (t[1] == '0' || t[1] == '1') then Some(30 + DigitValue(t[1]))
    else if |t| == 2 && (t[0] == '1' || t[0] == '2') && IsDigit(t[1]) then Some(10 * DigitValue(t[0]) + DigitValue(t[1]))
    else if |t| == 2 && t[0] == '0' && '1' <= t[1] <= '9' then Some(DigitValue(t[1]))
    else if |t| == 1 && '1' <= t[0] <= '9' then Some(DigitValue(t[0]))
    else if |t| == 2 && t[0] == ' ' && '1' <= t[1] <= '9' then Some(DigitValue(t[1]))
    else None
  }

  predicate FourDigits(y: string) {
    |y| == 4 && IsDigit(y[0]) && IsDigit(y[1]) && IsDigit(y[2]) && IsDigit(y[3])
  }

  /** The value of a `%Y` field. */
  function YearValue(y: string): int
    requires FourDigits(y)
  {
    1000 * DigitValue(y[0]) + 100 * DigitValue(y[1]) + 10 * DigitValue(y[2]) + DigitValue(y[3])
  }

  /**
   * `datetime.strptime(s, "%Y-%m-%d")`, `None` where it raises. Neither the
   * month nor the day token contains `-`, so the month token is the text up
   * to the first `-` after the year and the day token is everything after it.
   */
  function ParseIsoDate(s: string): (r: Option<Date>)
    ensures r.Some? ==> Valid(r.value)
    ensures r.Some? ==> |s| >= 8 && s[4] == '-' && forall i :: 0 <= i < 4 ==> IsDigit(s[i])
    ensures r.Some? ==> FourDigits(s[..4]) && YearValue(s[..4]) == r.value.year
    ensures r.Some? ==>
      exists k :: 5 <= k < |s| && s[k] == '-' &&
        MonthToken(s[5..k]) == Some(r.value.month) && DayToken(s[k + 1..]) == Some(r.value.day)
  {
    if |s| < 5 || !FourDigits(s[..4]) || s[4] != '-' then None
    else
      var year := YearValue(s[..4]);
      var rest := s[5..];
      match FindFrom(rest, "-", 0)
      case None => None
      case Some(k) =>
        var m := MonthToken(rest[..k]);
        var d := DayToken(rest[k + 1..]);
        if m.None? || d.None? then None
        else
          var date := Date(year, m.value, d.value);
          assert s[5..5 + k] == rest[..k] && s[5 + k + 1..] == rest[k + 1..];
          if Valid(date) then Some(date) else None
  }

  /** The canonical `%Y-%m-%d` text of a date. */
  function IsoText(d: Date): string
    requires Valid(d)
  {
    Pad4(d.year) + "-" + Pad2(d.month) + "-" + Pad2(d.day)
  }

  /** `strftime("%A, %B %d, %Y")` */
  function LongText(d: Date): string
    requires Valid(d)
  {
    WeekdayName(Weekday(d)) + ", " + MonthName(d.month) + " " + Pad2(d.day) + ", " + Pad4(d.year)
  }

  /** `strftime("%B %d, %Y")` */
  function MonthDayYearText(d: Date): string
    requires Valid(d)
  {
    MonthName(d.month) + " " + Pad2(d.day) + ", " + Pad4(d.year)
  }

  /** Month `m`'s name, in any case, opens `s` and is followed by whitespace. */
  predicate MonthNameOpens(s: string, m: int)
    requires 1 <= m <= 12
  {
    var name := MonthName(m);
    |name| < |s| && SameIgnoringCase(s[..|name|], name) && IsSpace(s[|name|])
  }

  /** The first month whose name opens `s`, trying months `m` to 12. */
  function FindMonth(s: string, m: int): (r: Option<int>)
    requires 1 <= m <= 13
    ensures r.Some? ==> m <= r.value <= 12 && MonthNameOpens(s, r.value)
    ensures r.None? ==> forall k :: m <= k <= 12 ==> !MonthNameOpens(s, k)
    decreases 13 - m
  {
    if m == 13 then None
    else if MonthNameOpens(s, m) then Some(m)
    else FindMonth(s, m + 1)
  }

  /** `s` without its leading whitespace. */
  function DropSpaces(s: string): (r: string)
    ensures |r| <= |s| && r == s[|s| - |r|..]
    ensures |r| > 0 ==> !IsSpace(r[0])
    ensures forall i :: 0 <= i < |s| - |r| ==> IsSpace(s[i])
  {
    if |s| > 0 && IsSpace(s[0]) then DropSpaces(s[1..]) else s
  }

  /**
   * `datetime.strptime(s, "%B %d, %Y")`, `None` where it raises: a month
   * name, whitespace, a day token, a comma, whitespace and four digits, with
   * nothing after them. A day token never contains a comma, so it ends at
   * the first comma after the whitespace.
   */
  function ParseMonthDayYear(s: string): (r: Option<Date>)
    ensures r.Some? ==> Valid(r.value) && MonthNameOpens(s, r.value.month)
    ensures r.Some? ==> ParseDayYear(DropSpaces(s[|MonthName(r.value.month)|..]), r.value.month) == r
  {
    match FindMonth(s, 1)
    case None => None
    case Some(m) => ParseDayYear(DropSpaces(s[|MonthName(m)|..]), m)
  }

  /** The `%d, %Y` part of `%B %d, %Y`, once the month and whitespace are read. */
  function ParseDayYear(rest: string, m: int): (r: Option<Date>)
    requires 1 <= m <= 12
    ensures r.Some? ==> Valid(r.value) && r.value.month == m
    ensures r.Some? ==>
      exists k :: 0 < k < |rest| - 1 && rest[k] == ',' && IsSpace(rest[k + 1]) &&
        DayToken(rest[..k]) == Some(r.value.day) &&
        FourDigits(DropSpaces(rest[k + 1..])) && YearValue(DropSpaces(rest[k + 1..])) == r.value.year
  {
    match FindFrom(rest, ",", 0)
    case None => None
    case Some(k) =>
      var day := DayToken(rest[..k]);
      var tail := rest[k + 1..];
      if day.None? || |tail| == 0 || !IsSpace(tail[0]) then None
      else
        var y := DropSpaces(tail);
        if !FourDigits(y) then None
        else
          var date := Date(YearValue(y), m, day.value);
          if Valid(date) then Some(date) else None
  }

  /** The four printed digits of a year read back as the year. */
  lemma Pad4Value(n: int)
    requires 0 <= n < 10000
    ensures FourDigits(Pad4(n)) && YearValue(Pad4(n)) == n
  {
    var a, b, c, e := n / 1000, n / 100 % 10, n / 10 % 10, n % 10;
    assert n / 10 == 10 * (n / 100) + c;
    assert n / 100 == 10 * a + b;
  }

  /** The first occurrence of a separator the token lacks is the one right after the token. */
  lemma SeparatorAfterToken(tok: string, sep: char, rest: string)
    requires forall i :: 0 <= i < |tok| ==> tok[i] != sep
    ensures FindFrom(tok + [sep] + rest, [sep], 0) == Some(|tok|)
  {
    var s := tok + [sep] + rest;
    forall j: nat | j < |tok|
      ensures !StartsAt(s, [sep], j)
    {
      assert s[j..j + 1][0] == tok[j];
    }
    assert s[|tok|..|tok| + 1] == [sep];
    FindFromIsFirst(s, [sep], 0, |tok|);
  }

  /**
   * How `%Y-%m-%d` reads four digits, a dash, a month token of one or two
   * digits, a dash and a day: the date those fields name, if it exists.
   */
  lemma ParseIsoOfParts(yyyy: string, mm: string, dd: string)
    requires FourDigits(yyyy) && MonthToken(mm).Some?
    ensures var s := yyyy + "-" + mm + "-" + dd;
      var m, day := MonthToken(mm), DayToken(dd);
      ParseIsoDate(s) ==
        if day.None? || !Valid(Date(YearValue(yyyy), m.value, day.value)) then None
        else Some(Date(YearValue(yyyy), m.value, day.value))
  {
    var s := yyyy + "-" + mm + "-" + dd;
    var rest := s[5..];
    assert s[..4] == yyyy && s[4] == '-';
    assert rest == mm + "-" + dd;
    SeparatorAfterToken(mm, '-', dd);
    assert rest[..|mm|] == mm;
    assert rest[|mm| + 1..] == dd;
  }

  /** `strptime` reads back the canonical `%Y-%m-%d` text of every date. */
  lemma IsoRoundTrip(d: Date)
    requires Valid(d)
    ensures ParseIsoDate(IsoText(d)) == Some(d)
  {
    Pad4Value(d.year);
    MonthTokenOfPad2(d.month);
    DayTokenOfPad2(d.day);
    ParseIsoOfParts(Pad4(d.year), Pad2(d.month), Pad2(d.day));
  }

  /** A zero-padded month is a `%m` token for that month. */
  lemma MonthTokenOfPad2(month: int)
    requires 1 <= month <= 12
    ensures MonthToken(Pad2(month)) == Some(month)
  {
    var t := Pad2(month);
    assert 10 * DigitValue(t[0]) + DigitValue(t[1]) == month;
  }

  /** No text printed by `%A, %B %d, %Y` parses again as `%Y-%m-%d`. */
  lemma LongTextIsNotIso(d: Date)
    requires Valid(d)
    ensures ParseIsoDate(LongText(d)) == None
  {
    var w := WeekdayName(Weekday(d));
    assert LongText(d)[0] == w[0];
  }

  /** A month name that opens `s` is the one `FindMonth` finds. */
  lemma FindsOpeningMonth(s: string, m: int)
    requires 1 <= m <= 12 && MonthNameOpens(s, m)
    ensures FindMonth(s, 1) == Some(m)
  {
    forall k | 1 <= k < m
      ensures !MonthNameOpens(s, k)
    {
      MonthNamesDistinct(s, k, m);
    }
    FirstOpeningMonth(s, 1, m);
  }

  /** A zero-padded day of the month is a `%d` token for that day. */
  lemma DayTokenOfPad2(day: int)
    requires 1 <= day <= 31
    ensures DayToken(Pad2(day)) == Some(day)
  {
    var t := Pad2(day);
    assert 10 * DigitValue(t[0]) + DigitValue(t[1]) == day;
  }

  /** One leading space is dropped, and nothing after it. */
  lemma DropLeadingSpace(y: string)
    requires |y| > 0 && !IsSpace(y[0])
    ensures DropSpaces(" " + y) == y
  {
    assert (" " + y)[1..] == y;
  }

  /** In `dd, yyyy` the first comma sits right after the day token. */
  lemma CommaAfterDay(dd: string, yyyy: string)
    requires DayToken(dd).Some?
    ensures FindFrom(dd + ", " + yyyy, ",", 0) == Some(|dd|)
  {
    assert dd + ", " + yyyy == dd + [','] + (" " + yyyy);
    SeparatorAfterToken(dd, ',', " " + yyyy);
  }

  /** How `%d, %Y` reads a day token, a comma, a space and four digits. */
  lemma ParseDayYearOfParts(dd: string, yyyy: string, m: int, day: int)
    requires 1 <= m <= 12
    requires DayToken(dd) == Some(day)
    requires FourDigits(yyyy)
    ensures var date := Date(YearValue(yyyy), m, day);
      ParseDayYear(dd + ", " + yyyy, m) == if Valid(date) then Some(date) else None
  {
    var rest := dd + ", " + yyyy;
    CommaAfterDay(dd, yyyy);
    assert rest[..|dd|] == dd;
    assert rest[|dd| + 1..] == " " + yyyy;
    DropLeadingSpace(yyyy);
  }

  /** The `%d, %Y` part reads back a zero-padded day, a comma, a space and four digits. */
  lemma DayYearRoundTrip(d: Date)
    requires Valid(d)
    ensures ParseDayYear(Pad2(d.day) + ", " + Pad4(d.year), d.month) == Some(d)
  {
    DayTokenOfPad2(d.day);
    Pad4Value(d.year);
    ParseDayYearOfParts(Pad2(d.day), Pad4(d.year), d.month, d.day);
  }

  /** `strptime` reads back the `%B %d, %Y` text of every date. */
  lemma MonthDayYearRoundTrip(d: Date)
    requires Valid(d)
    ensures ParseMonthDayYear(MonthDayYearText(d)) == Some(d)
  {
    var s := MonthDayYearText(d);
    var name := MonthName(d.month);
    var rest := Pad2(d.day) + ", " + Pad4(d.year);
    assert s == name + " " + rest;
    assert s[..|name|] == name;
    FindsOpeningMonth(s, d.month);
    assert s[|name|..] == " " + rest;
    DropLeadingSpace(rest);
    DayYearRoundTrip(d);
  }

  /** `FindMonth` finds `m` when it opens `md` and no earlier month does. */
  lemma {:induction false} FirstOpeningMonth(md: string, from: int, m: int)
    requires 1 <= from <= m <= 12
    requires MonthNameOpens(md, m)
    requires forall k :: from <= k < m ==> !MonthNameOpens(md, k)
    ensures FindMonth(md, from) == Some(m)
    decreases m - from
  {
    if from < m {
      FirstOpeningMonth(md, from + 1, m);
    }
  }

  /** Any two month names differ, ignoring case, within their first three letters. */
  lemma MonthNamesDifferEarly(k: int, m: int)
    requires 1 <= k <= 12 && 1 <= m <= 12 && k != m
    ensures var a, b := MonthName(k), MonthName(m);
      Lower(a[0]) != Lower(b[0]) || Lower(a[1]) != Lower(b[1]) || Lower(a[2]) != Lower(b[2])
  {
  }

  /** A month name that opens `md` agrees with it, ignoring case, in its first three letters. */
  lemma OpeningAgreesEarly(md: string, m: int)
    requires 1 <= m <= 12
    ensures MonthNameOpens(md, m) ==>
      var a := MonthName(m);
      Lower(md[0]) == Lower(a[0]) && Lower(md[1]) == Lower(a[1]) && Lower(md[2]) == Lower(a[2])
  {
    var a := MonthName(m);
    if MonthNameOpens(md, m) {
      assert md[..|a|][0] == md[0] && md[..|a|][1] == md[1] && md[..|a|][2] == md[2];
    }
  }

  /** At most one month name, followed by whitespace, can open a string. */
  lemma MonthNamesDistinct(md: string, k: int, m: int)
    requires 1 <= k <= 12 && 1 <= m <= 12 && k != m
    requires MonthNameOpens(md, m)
    ensures !MonthNameOpens(md, k)
  {
    MonthNamesDifferEarly(k, m);
    OpeningAgreesEarly(md, m);
    OpeningAgreesEarly(md, k);
  }

  /** `%m` and `%d` as a person writes them: no zero padding. */
  function Unpadded(n: int): (t: string)
    requires 1 <= n <= 31
  {
    if n < 10 then [DigitChar(n)] else Pad2(n)
  }

  /** An unpadded month or day is read back as itself. */
  lemma UnpaddedTokens(n: int)
    requires 1 <= n <= 31
    ensures n <= 12 ==> MonthToken(Unpadded(n)) == Some(n)
    ensures DayToken(Unpadded(n)) == Some(n)
  {
    if n >= 10 {
      var t := Pad2(n);
      assert 10 * DigitValue(t[0]) + DigitValue(t[1]) == n;
    }
  }

  /** `strptime` also reads `%Y-%m-%d` text whose month and day are not zero-padded. */
  lemma UnpaddedIsoRoundTrip(d: Date)
    requires Valid(d)
    ensures ParseIsoDate(Pad4(d.year) + "-" + Unpadded(d.month) + "-" + Unpadded(d.day)) == Some(d)
  {
    Pad4Value(d.year);
    UnpaddedTokens(d.month);
    UnpaddedTokens(d.day);
    ParseIsoOfParts(Pad4(d.year), Unpadded(d.month), Unpadded(d.day));
  }

  /**
   * How `%B %d, %Y` reads a month name written in any case, one space, a
   * day token starting with a digit, a comma, a space and four digits.
   */
  lemma ParseMonthDayYearOfParts(written: string, m: int, dd: string, yyyy: string)
    requires 1 <= m <= 12 && SameIgnoringCase(written, MonthName(m))
    requires DayToken(dd).Some? && IsDigit(dd[0])
    requires FourDigits(yyyy)
    ensures var date := Date(YearValue(yyyy), m, DayToken(dd).value);
      ParseMonthDayYear(written + " " + dd + ", " + yyyy) == if Valid(date) then Some(date) else None
  {
    var rest := dd + ", " + yyyy;
    assert written + " " + dd + ", " + yyyy == written + " " + rest;
    MonthNameThenRest(written, m, rest);
    ParseDayYearOfParts(dd, yyyy, m, DayToken(dd).value);
  }

  /** After a month name in any case and one space, `%B %d, %Y` reads the rest as `%d, %Y`. */
  lemma MonthNameThenRest(written: string, m: int, rest: string)
    requires 1 <= m <= 12 && SameIgnoringCase(written, MonthName(m))
    requires |rest| > 0 && !IsSpace(rest[0])
    ensures ParseMonthDayYear(written + " " + rest) == ParseDayYear(rest, m)
  {
    var s := written + " " + rest;
    assert s[..|written|] == written;
    assert MonthNameOpens(s, m);
    FindsOpeningMonth(s, m);
    assert s[|written|..] == " " + rest;
    DropLeadingSpace(rest);
  }
}
