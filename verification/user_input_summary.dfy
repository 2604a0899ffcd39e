/**
 * The post-processing of LLM replies in src/backend/user_input_summary.py:
 * extracting the JSON from a fenced markdown block, and correcting the
 * date fields of the extracted flight and restaurant details. The LLM call
 * and `json.loads` are left to inputs: a reply is a string and decoding is a
 * function that may fail.
 */
module UserInputSummary {
  import opened Values
  import opened Text
  import opened Calendar
  import opened DateFormat

  /** The two delimiters of the pattern ```` ```json\n(.*?)\n``` ````. */
  const Open := "```json\n"
  const Close := "\n```"

  /**
   * `re.search(r"```json\n(.*?)\n```", response, re.DOTALL).group(1)`, or
   * `None` when nothing matches. The leftmost match starts at the first
   * opening fence (a later opener could only see fewer closers), and the
   * lazy group stops at the first closing fence after it.
   */
  function ExtractFenced(s: string): (r: Option<string>)
    ensures r.None? <==>
      forall i: nat, j: nat :: StartsAt(s, Open, i) && i + |Open| <= j ==> !StartsAt(s, Close, j)
    ensures r.Some? ==> exists i: nat, j: nat ::
      && StartsAt(s, Open, i) && i + |Open| <= j && StartsAt(s, Close, j)
      && (forall k: nat :: k < i ==> !StartsAt(s, Open, k))
      && (forall k: nat :: i + |Open| <= k < j ==> !StartsAt(s, Close, k))
      && r.value == s[i + |Open|..j]
  {
    match FindFrom(s, Open, 0)
    case None => None
    case Some(i) =>
      match FindFrom(s, Close, i + |Open|)
      case None => None
      case Some(j) => Some(s[i + |Open|..j])
  }

  /** No backtick in `t`. */
  predicate NoBackticks(t: string) {
    forall k :: 0 <= k < |t| ==> t[k] != '`'
  }

  /**
   * A reply that wraps JSON text `c` in a fenced block, after a preamble
   * and before a trailer, gives back exactly `c`, provided neither the
   * preamble nor `c` contains a backtick.
   */
  lemma {:induction false} FencedBlockRoundTrip(preamble: string, c: string, trailer: string)
    requires NoBackticks(preamble) && NoBackticks(c)
    ensures ExtractFenced(preamble + Open + c + Close + trailer) == Some(c)
  {
    OpenFoundAfter(preamble, c, trailer);
    CloseFoundAfter(preamble, c, trailer);
    ExtractedBetween(preamble + Open + c + Close + trailer, |preamble| + |Open|, c);
  }

  /** The opening fence is found right after a preamble without backticks. */
  lemma OpenFoundAfter(preamble: string, c: string, trailer: string)
    requires NoBackticks(preamble)
    ensures FindFrom(preamble + Open + c + Close + trailer, Open, 0) == Some(|preamble|)
  {
    var s := preamble + Open + c + Close + trailer;
    var i := |preamble|;
    assert s[i..i + |Open|] == Open;
    forall k: nat | k < i
      ensures !StartsAt(s, Open, k)
    {
      assert s[k] == preamble[k];
    }
    FindFromIsFirst(s, Open, 0, i);
  }

  /** The closing fence is found right after a content without backticks, and encloses it. */
  lemma CloseFoundAfter(preamble: string, c: string, trailer: string)
    requires NoBackticks(c)
    ensures var s := preamble + Open + c + Close + trailer;
      var i := |preamble| + |Open|;
      && FindFrom(s, Close, i) == Some(i + |c|)
      && s[i..i + |c|] == c
  {
    var s := preamble + Open + c + Close + trailer;
    var i := |preamble| + |Open|;
    var j := i + |c|;
    assert s[j..j + |Close|] == Close;
    forall k: nat | i <= k < j
      ensures !StartsAt(s, Close, k)
    {
      assert s[k + 1] == (c + Close)[k + 1 - i];
    }
    FindFromIsFirst(s, Close, i, j);
    assert s[i..j] == c;
  }

  /** Where the two searches stop determines what is extracted. */
  lemma ExtractedBetween(s: string, start: nat, c: string)
    requires start >= |Open| && FindFrom(s, Open, 0) == Some(start - |Open|)
    requires FindFrom(s, Close, start) == Some(start + |c|)
    requires start + |c| <= |s| && s[start..start + |c|] == c
    ensures ExtractFenced(s) == Some(c)
  {
  }

  const JsonParsingError := "JSON parsing error! Check the model's output."

  /**
   * `clean_json_response(response)`: decode the fenced block if there is
   * one and the whole reply otherwise; a decoding failure raises
   * `ValueError` with a fixed message.
   */
  function CleanJsonResponse(response: string, decode: string -> Option<Value>): (r: Step<Value>)
    ensures ExtractFenced(response).None? ==>
      r == (if decode(response).Some? then Returned(decode(response).value) else Raised(JsonParsingError))
    ensures ExtractFenced(response).Some? ==>
      var inner := ExtractFenced(response).value;
      r == (if decode(inner).Some? then Returned(decode(inner).value) else Raised(JsonParsingError))
    ensures r.Raised? ==> r.message == JsonParsingError
  {
    var text := ExtractFenced(response).GetOr(response);
    match decode(text)
    case Some(v) => Returned(v)
    case None => Raised(JsonParsingError)
  }

  /** The decoder sees the inside of a fenced block, not the reply around it. */
  lemma CleanJsonOfFencedReply(preamble: string, c: string, trailer: string, decode: string -> Option<Value>)
    requires NoBackticks(preamble) && NoBackticks(c)
    ensures var r := CleanJsonResponse(preamble + Open + c + Close + trailer, decode);
      && (r.Returned? <==> decode(c).Some?)
      && (r.Returned? ==> r.value == decode(c).value)
  {
    FencedBlockRoundTrip(preamble, c, trailer);
  }

  /** Why indexing the decoded JSON raised. */
  datatype LookupError =
    | NotADict              // `json_data[key]` on a list, string or number
    | MissingKey(key: string) // `KeyError`

  /**
   * `strptime(v, "%Y-%m-%d").strftime("%A, %B %d, %Y")` inside the
   * `try` of `correct_date_field_flight`: a value that does not parse (or
   * is not a string) is kept as it was.
   */
  function ReformatIsoDate(v: Value): (r: Value)
    ensures r != v ==> v.Str? && ParseIsoDate(v.s).Some? && r == Str(LongText(ParseIsoDate(v.s).value))
    ensures v.Str? && ParseIsoDate(v.s).Some? ==> r == Str(LongText(ParseIsoDate(v.s).value))
  {
    if v.Str? then
      match ParseIsoDate(v.s)
      case Some(d) => Str(LongText(d))
      case None => v
    else v
  }

  /** An ISO date is rewritten to its long form. */
  lemma IsoDateReformatted(d: Date)
    requires Valid(d)
    ensures ReformatIsoDate(Str(IsoText(d))) == Str(LongText(d))
  {
    IsoRoundTrip(d);
  }

  /** So is one whose month and day the model wrote without zero padding. */
  lemma UnpaddedIsoDateReformatted(d: Date)
    requires Valid(d)
    ensures ReformatIsoDate(Str(Pad4(d.year) + "-" + Unpadded(d.month) + "-" + Unpadded(d.day))) == Str(LongText(d))
  {
    UnpaddedIsoRoundTrip(d);
  }

  /** Reformatting a second time changes nothing. */
  lemma ReformatIsoDateIdempotent(v: Value)
    ensures ReformatIsoDate(ReformatIsoDate(v)) == ReformatIsoDate(v)
  {
    if v.Str? && ParseIsoDate(v.s).Some? {
      LongTextIsNotIso(ParseIsoDate(v.s).value);
    }
  }

  const FlightDateKeys := ["start_date", "end_date"]

  /**
   * `correct_date_field_flight(json_data)`: reformat `start_date`, then
   * `end_date`. The lookups sit outside the `try`, so a missing key (or a
   * value that is not a dict) propagates.
   */
  function CorrectFlightDates(json: Value): (r: Result<Value, LookupError>)
    ensures r.Err? <==> !json.Dict? || "start_date" !in json.entries || "end_date" !in json.entries
    ensures r.Err? ==>
      r.error == (if !json.Dict? then NotADict
                  else if "start_date" !in json.entries then MissingKey("start_date")
                  else MissingKey("end_date"))
    ensures r.Ok? ==> r.value.Dict? && r.value.entries.Keys == json.entries.Keys
    ensures r.Ok? ==> forall k :: k in json.entries && k !in FlightDateKeys ==>
      r.value.entries[k] == json.entries[k]
    ensures r.Ok? ==>
      && r.value.entries["start_date"] == ReformatIsoDate(json.entries["start_date"])
      && r.value.entries["end_date"] == ReformatIsoDate(json.entries["end_date"])
  {
    if !json.Dict? then Err(NotADict)
    else if "start_date" !in json.entries then Err(MissingKey("start_date"))
    else
      var d := json.entries["start_date" := ReformatIsoDate(json.entries["start_date"])];
      if "end_date" !in d then Err(MissingKey("end_date"))
      else Ok(Dict(d["end_date" := ReformatIsoDate(d["end_date"])]))
  }

  /** Correcting the flight dates of an already corrected dict changes nothing. */
  lemma CorrectFlightDatesIdempotent(json: Value)
    requires json.Dict? && "start_date" in json.entries && "end_date" in json.entries
    ensures CorrectFlightDates(CorrectFlightDates(json).value) == CorrectFlightDates(json)
  {
    var once := CorrectFlightDates(json).value.entries;
    ReformatIsoDateIdempotent(json.entries["start_date"]);
    ReformatIsoDateIdempotent(json.entries["end_date"]);
    var again := once["start_date" := ReformatIsoDate(once["start_date"])];
    assert again == once;
    assert again["end_date" := ReformatIsoDate(again["end_date"])] == once;
  }

  /** The year `correct_date_field` assumes for a month and day. */
  const AssumedYear := "2025"

  /** The separator between weekday and month-day in `"Tuesday, April 17"`. */
  const DateSeparator := ", "

  /**
   * `s` reads `"Day, Month DD"` with `Day` the weekday on which that month
   * and day fall in the assumed year.
   */
  predicate WeekdayAgrees(s: string) {
    var parts := Split(s, DateSeparator);
    && |parts| == 2
    && var parsed := ParseMonthDayYear(parts[1] + DateSeparator + AssumedYear);
    && parsed.Some?
    && parts[0] == WeekdayName(Weekday(parsed.value))
  }

  /**
   * The `try` block of `correct_date_field`: split `"Day, Month DD"` into
   * exactly two parts, read the second with the assumed year, and put the
   * weekday that date really falls on in front of it. Whatever raises
   * (not a string, not two parts, not a date) keeps the value.
   */
  function FixWeekday(v: Value): (r: Value)
    ensures r != v ==> v.Str? && r.Str?
    ensures
      || !v.Str?
      || |Split(v.s, DateSeparator)| != 2
      || ParseMonthDayYear(Split(v.s, DateSeparator)[1] + DateSeparator + AssumedYear).None?
      ==> r == v
  {
    if !v.Str? then v
    else
      var parts := Split(v.s, DateSeparator);
      if |parts| != 2 then v
      else
        var monthDay := parts[1];
        match ParseMonthDayYear(monthDay + DateSeparator + AssumedYear)
        case None => v
        case Some(d) => Str(WeekdayName(Weekday(d)) + DateSeparator + monthDay)
  }

  /** No weekday name contains a comma. */
  lemma WeekdayNameHasNoComma(w: int)
    requires 0 <= w < 7
    ensures forall k :: 0 <= k < |WeekdayName(w)| ==> WeekdayName(w)[k] != ','
  {
  }

  /** Whatever correction changes, it changes into a date whose weekday agrees. */
  lemma {:induction false} FixWeekdayMakesItAgree(v: Value)
    ensures FixWeekday(v) != v ==> WeekdayAgrees(FixWeekday(v).s)
    ensures FixWeekday(v) != v ==>
      Split(FixWeekday(v).s, DateSeparator)[1] == Split(v.s, DateSeparator)[1]
  {
    if FixWeekday(v) != v {
      var monthDay := Split(v.s, DateSeparator)[1];
      var d := ParseMonthDayYear(monthDay + DateSeparator + AssumedYear).value;
      var name := WeekdayName(Weekday(d));
      SplitPartsAvoidSeparator(v.s, DateSeparator);
      WeekdayNameHasNoComma(Weekday(d));
      SplitOfPair(name, monthDay, DateSeparator);
    }
  }

  /** A date whose weekday already agrees is left exactly as it was. */
  lemma {:induction false} FixWeekdayKeepsAgreeing(s: string)
    ensures WeekdayAgrees(s) ==> FixWeekday(Str(s)) == Str(s)
  {
    if WeekdayAgrees(s) {
      var parts := Split(s, DateSeparator);
      JoinSplit(s, DateSeparator);
      assert Join(parts, DateSeparator) == parts[0] + DateSeparator + parts[1];
    }
  }

  /** Correcting the weekday of an already corrected date changes nothing. */
  lemma FixWeekdayIdempotent(v: Value)
    ensures FixWeekday(FixWeekday(v)) == FixWeekday(v)
  {
    FixWeekdayMakesItAgree(v);
    if FixWeekday(v) != v {
      FixWeekdayKeepsAgreeing(FixWeekday(v).s);
    }
  }

  /** `"%B %d"`: the month-day text the restaurant date is meant to carry. */
  function MonthDayText(d: Date): string
    requires Valid(d)
  {
    MonthName(d.month) + " " + Pad2(d.day)
  }

  /** No month name contains a comma. */
  lemma MonthNameHasNoComma(m: int)
    requires 1 <= m <= 12
    ensures forall k :: 0 <= k < |MonthName(m)| ==> MonthName(m)[k] != ','
  {
  }

  /** A text without commas holds no `", "`. */
  lemma NoCommaNoSeparator(md: string)
    requires forall k :: 0 <= k < |md| ==> md[k] != ','
    ensures !Contains(md, DateSeparator)
  {
    forall i: nat | i <= |md|
      ensures !StartsAt(md, DateSeparator, i)
    {
      if i + |DateSeparator| <= |md| {
        assert md[i..i + |DateSeparator|][0] == md[i] != ',';
      }
    }
  }

  /** A month-day text holds no `", "`. */
  lemma MonthDayTextHasNoSeparator(d: Date)
    requires Valid(d)
    ensures !Contains(MonthDayText(d), DateSeparator)
  {
    var md := MonthDayText(d);
    MonthNameHasNoComma(d.month);
    assert forall k :: 0 <= k < |md| ==> md[k] != ',';
    NoCommaNoSeparator(md);
  }

  /** With the assumed year appended, a 2025 month-day text is `%B %d, %Y`. */
  lemma MonthDayTextWithYear(d: Date)
    requires Valid(d) && d.year == 2025
    ensures MonthDayText(d) + DateSeparator + AssumedYear == MonthDayYearText(d)
  {
    assert Pad4(2025) == AssumedYear;
  }

  /**
   * Whatever weekday the model wrote in front of a month-day text that
   * reads as a 2025 date, correction replaces it with the day that date
   * falls on and keeps the month-day text verbatim.
   */
  lemma {:induction false} FixWeekdayNamesTheRightDay(claimed: string, md: string, d: Date)
    requires forall k :: 0 <= k < |claimed| ==> claimed[k] != ','
    requires !Contains(md, DateSeparator)
    ensures ParseMonthDayYear(md + DateSeparator + AssumedYear) == Some(d) ==>
      FixWeekday(Str(claimed + DateSeparator + md)) == Str(WeekdayName(Weekday(d)) + DateSeparator + md)
  {
    var text := claimed + DateSeparator + md;
    SplitOfPair(claimed, md, DateSeparator);
    FixWeekdayWhenReadable(Str(text), d);
  }

  /** Helper of `FixWeekdayNamesTheRightDay`: the successful branch of `FixWeekday`, for an abstract value. */
  lemma FixWeekdayWhenReadable(v: Value, d: Date)
    ensures
      && v.Str? && |Split(v.s, DateSeparator)| == 2
      && ParseMonthDayYear(Split(v.s, DateSeparator)[1] + DateSeparator + AssumedYear) == Some(d)
      ==> FixWeekday(v) == Str(WeekdayName(Weekday(d)) + DateSeparator + Split(v.s, DateSeparator)[1])
  {
  }

  /** In particular for the zero-padded month-day text of every 2025 date. */
  lemma FixWeekdayOfPaddedMonthDay(claimed: string, d: Date)
    requires Valid(d) && d.year == 2025
    requires forall k :: 0 <= k < |claimed| ==> claimed[k] != ','
    ensures FixWeekday(Str(claimed + DateSeparator + MonthDayText(d))) ==
      Str(WeekdayName(Weekday(d)) + DateSeparator + MonthDayText(d))
  {
    MonthDayTextHasNoSeparator(d);
    MonthDayTextWithYear(d);
    MonthDayYearRoundTrip(d);
    FixWeekdayNamesTheRightDay(claimed, MonthDayText(d), d);
  }

  /**
   * `correct_date_field(json_data)`: the lookup of `date` is outside the
   * `try`, so a missing key propagates; every other key is kept.
   */
  function CorrectDate(json: Value): (r: Result<Value, LookupError>)
    ensures r.Err? <==> !json.Dict? || "date" !in json.entries
    ensures r.Err? ==> r.error == if !json.Dict? then NotADict else MissingKey("date")
    ensures r.Ok? ==> r.value.Dict? && r.value.entries.Keys == json.entries.Keys
    ensures r.Ok? ==> forall k :: k in json.entries && k != "date" ==> r.value.entries[k] == json.entries[k]
    ensures r.Ok? ==> r.value.entries["date"] == FixWeekday(json.entries["date"])
  {
    if !json.Dict? then Err(NotADict)
    else if "date" !in json.entries then Err(MissingKey("date"))
    else Ok(Dict(json.entries["date" := FixWeekday(json.entries["date"])]))
  }

  /** Correcting an already corrected restaurant dict changes nothing. */
  lemma CorrectDateIdempotent(json: Value)
    requires CorrectDate(json).Ok?
    ensures CorrectDate(CorrectDate(json).value) == CorrectDate(json)
  {
    var once := CorrectDate(json).value.entries;
    FixWeekdayIdempotent(json.entries["date"]);
    assert once["date" := FixWeekday(once["date"])] == once;
  }
}
