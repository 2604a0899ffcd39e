/**
 * The deterministic parts of the Streamlit front end
 * (src/frontend/frontend.py): filling the session state with defaults, the
 * required-field checks on parsed details, the preference dicts sent with
 * a search, the update of `travel_context` after a successful search, and
 * `format_date`. The session is a map from key to value; the LLM calls and
 * the HTTP exchanges are inputs.
 */
module Frontend {
  import opened Values
  import opened Calendar
  import opened DateFormat
  import opened ApiClient

  type Session = map<string, Value>

  const NotSpecified := Str("Not specified")

  /** The six keys of `travel_context`. */
  const ContextKeys: seq<string> := ["origin", "destination", "start_date", "end_date", "flights", "hotels"]

  /** The `travel_context` a new session starts with: every key "Not specified". */
  const InitialContext: map<string, Value> := map k | k in ContextKeys :: NotSpecified

  /** The keys `initialize_session_state` sets, in order, with their defaults. */
  const SessionDefaults: seq<(string, Value)> := [
    ("search_requirements", Str("")),
    ("chat_messages", List([])),
    ("summary", Null),
    ("research_assistant", Null),
    ("research_messages", List([])),
    ("ytb_rv_messages", List([])),
    ("parsed_data", Null),
    ("progress_bar", Null),
    ("travel_context", Dict(InitialContext))
  ]

  /** The keys a list of defaults mentions. */
  function DefaultKeys(defaults: seq<(string, Value)>): set<string> {
    set i | 0 <= i < |defaults| :: defaults[i].0
  }

  /** `if key not in st.session_state: st.session_state.key = default`, for each default in turn. */
  function FillMissing(session: Session, defaults: seq<(string, Value)>): (r: Session)
    ensures r.Keys == session.Keys + DefaultKeys(defaults)
    ensures forall k :: k in session ==> r[k] == session[k]
    ensures forall k :: k in r && k !in session ==> (k, r[k]) in defaults
    decreases |defaults|
  {
    if |defaults| == 0 then session
    else
      var key := defaults[0].0;
      var next := if key in session then session else session[key := defaults[0].1];
      var r := FillMissing(next, defaults[1..]);
      assert DefaultKeys(defaults) == {key} + DefaultKeys(defaults[1..]) by {
        assert forall i :: 1 <= i < |defaults| ==> defaults[i].0 == defaults[1..][i - 1].0;
      }
      assert forall p :: p in defaults[1..] ==> p in defaults;
      r
  }

  /** `initialize_session_state()` */
  function InitializeSessionState(session: Session): (r: Session)
    ensures r.Keys == session.Keys + DefaultKeys(SessionDefaults)
    ensures forall k :: k in session ==> r[k] == session[k]
  {
    FillMissing(session, SessionDefaults)
  }

  /** Filling defaults whose keys are all present already changes nothing. */
  lemma {:induction false} FillMissingWhenFull(session: Session, defaults: seq<(string, Value)>)
    requires DefaultKeys(defaults) <= session.Keys
    ensures FillMissing(session, defaults) == session
    decreases |defaults|
  {
    if |defaults| > 0 {
      assert defaults[0].0 in DefaultKeys(defaults);
      assert DefaultKeys(defaults[1..]) <= DefaultKeys(defaults) by {
        forall k | k in DefaultKeys(defaults[1..])
          ensures k in DefaultKeys(defaults)
        {
          var i :| 0 <= i < |defaults[1..]| && defaults[1..][i].0 == k;
          assert defaults[i + 1].0 == k;
        }
      }
      FillMissingWhenFull(session, defaults[1..]);
    }
  }

  /** Running the initialisation on every rerun is harmless: it is idempotent. */
  lemma InitializeSessionStateIdempotent(session: Session)
    ensures InitializeSessionState(InitializeSessionState(session)) == InitializeSessionState(session)
  {
    FillMissingWhenFull(InitializeSessionState(session), SessionDefaults);
  }

  /** The keys a new session is given. */
  lemma {:induction false} SessionDefaultKeys()
    ensures DefaultKeys(SessionDefaults) ==
      {"search_requirements", "chat_messages", "summary", "research_assistant",
       "research_messages", "ytb_rv_messages", "parsed_data", "progress_bar", "travel_context"}
  {
    var keys := DefaultKeys(SessionDefaults);
    assert SessionDefaults[0].0 in keys && SessionDefaults[1].0 in keys && SessionDefaults[2].0 in keys;
    assert SessionDefaults[3].0 in keys && SessionDefaults[4].0 in keys && SessionDefaults[5].0 in keys;
    assert SessionDefaults[6].0 in keys && SessionDefaults[7].0 in keys && SessionDefaults[8].0 in keys;
  }

  /** The initial travel context: six keys, each "Not specified". */
  lemma InitialContextShape()
    ensures InitialContext.Keys == {"origin", "destination", "start_date", "end_date", "flights", "hotels"}
    ensures forall k :: k in InitialContext ==> InitialContext[k] == NotSpecified
  {
  }

  /** Only the last default has the key `travel_context`. */
  lemma TravelContextDefault(v: Value)
    requires ("travel_context", v) in SessionDefaults
    ensures v == Dict(InitialContext)
  {
    var i :| 0 <= i < |SessionDefaults| && SessionDefaults[i] == ("travel_context", v);
    assert i == 8;
  }

  /**
   * A new session gets exactly the nine default keys, and its travel
   * context is the initial one.
   */
  lemma NewSessionDefaults()
    ensures var s := InitializeSessionState(map[]);
      && s.Keys == {"search_requirements", "chat_messages", "summary", "research_assistant",
                    "research_messages", "ytb_rv_messages", "parsed_data", "progress_bar", "travel_context"}
      && s["travel_context"] == Dict(InitialContext)
  {
    SessionDefaultKeys();
    var s := InitializeSessionState(map[]);
    TravelContextDefault(s["travel_context"]);
  }

  /** `FlightDetails` as Pydantic builds it from the model's JSON. */
  datatype FlightDetails = FlightDetails(
    origin: string, destination: string, startDate: string, endDate: string,
    budget: Option<string>, ticketClass: Option<string>, airline: Option<string>)

  /** `HotelDetails`: every field optional. */
  datatype HotelDetails = HotelDetails(
    location: Option<string>, checkIn: Option<string>, checkOut: Option<string>,
    pricePerNight: Option<string>, rating: Option<string>, amenities: Option<string>)

  /** An optional string field as a Python value. */
  function OptionalText(o: Option<string>): (v: Value)
    ensures Truthy(v) <==> o.Some? && o.value != ""
  {
    match o
    case Some(s) => Str(s)
    case None => Null
  }

  /** The preferences dict of `search_flight_options`. */
  function FlightPreferences(p: FlightDetails): (prefs: Value)
    ensures prefs.Dict? && prefs.entries.Keys == {"budget", "class", "airlines"}
    ensures prefs.entries["budget"] == OptionalText(p.budget)
    ensures prefs.entries["class"] == OptionalText(p.ticketClass)
    ensures prefs.entries["airlines"].List?
    ensures |prefs.entries["airlines"].items| <= 1
    ensures Truthy(prefs.entries["airlines"]) <==> Truthy(OptionalText(p.airline))
    ensures Truthy(prefs.entries["airlines"]) ==> prefs.entries["airlines"].items == [OptionalText(p.airline)]
  {
    var airline := OptionalText(p.airline);
    Dict(map["budget" := OptionalText(p.budget),
             "class" := OptionalText(p.ticketClass),
             "airlines" := List(if Truthy(airline) then [airline] else [])])
  }

  /** The preferences dict of `search_hotel_options`. */
  function HotelPreferences(p: HotelDetails): (prefs: Value)
    ensures prefs.Dict? && prefs.entries.Keys == {"check_in", "check_out", "rating", "price", "amenities"}
    ensures prefs.entries["check_in"] == OptionalText(p.checkIn)
    ensures prefs.entries["check_out"] == OptionalText(p.checkOut)
    ensures prefs.entries["rating"] == OptionalText(p.rating)
    ensures prefs.entries["price"] == OptionalText(p.pricePerNight)
    ensures prefs.entries["amenities"] == OptionalText(p.amenities)
  {
    Dict(map["check_in" := OptionalText(p.checkIn),
             "check_out" := OptionalText(p.checkOut),
             "rating" := OptionalText(p.rating),
             "price" := OptionalText(p.pricePerNight),
             "amenities" := OptionalText(p.amenities)])
  }

  const MissingAirportsError := "Please specify both departure and destination airports in your description"
  const MissingDatesError := "Please specify both departure and return dates in your description"
  const MissingLocationError := "Please specify location in your description"

  /** `display_parsed_flight_details`: the error that stops the page, if any. */
  function CheckFlightDetails(p: FlightDetails): (error: Option<string>)
    ensures error.None? <==> p.origin != "" && p.destination != "" && p.startDate != "" && p.endDate != ""
    ensures error == Some(MissingAirportsError) <==> p.origin == "" || p.destination == ""
    ensures p.origin != "" && p.destination != "" && (p.startDate == "" || p.endDate == "") ==>
      error == Some(MissingDatesError)
  {
    if p.origin == "" || p.destination == "" then Some(MissingAirportsError)
    else if p.startDate == "" || p.endDate == "" then Some(MissingDatesError)
    else None
  }

  /** `display_parsed_hotel_details`: only the location is required. */
  function CheckHotelDetails(p: HotelDetails): (error: Option<string>)
    ensures error.None? <==> Truthy(OptionalText(p.location))
    ensures error.Some? ==> error.value == MissingLocationError
  {
    if p.location.None? || p.location.value == "" then Some(MissingLocationError) else None
  }

  /** What the progress area shows when a search ends. */
  datatype Alert =
    | CallError(message: string)  // "An error occurred while searching for ...: <message>"
    | StartFailed                 // SEARCH_FAILED
    | Incomplete                  // SEARCH_INCOMPLETE
    | UnexpectedError             // "An error occurred: ..." from the outer `except`
    | Completed                   // SEARCH_COMPLETED

  /** How a call of `search_flight_options` or `search_hotel_options` stands. */
  datatype SearchOutcome =
    | StillPolling
    | Finished(succeeded: bool, alert: Alert, session: Session)

  /** The parsed details a search was started from. */
  datatype SearchRequest = FlightSearch(flight: FlightDetails) | HotelSearch(hotel: HotelDetails)

  /** The noun used in the error text of a failed POST. */
  function Kind(req: SearchRequest): string {
    match req
    case FlightSearch(_) => "flights"
    case HotelSearch(_) => "hotels"
  }

  /** What a successful search writes into `travel_context`. */
  function ContextUpdates(req: SearchRequest, results: Value): map<string, Value> {
    match req
    case FlightSearch(p) =>
      map["origin" := Str(p.origin), "destination" := Str(p.destination),
          "start_date" := Str(p.startDate), "end_date" := Str(p.endDate), "flights" := results]
    case HotelSearch(p) =>
      map["destination" := OptionalText(p.location), "start_date" := OptionalText(p.checkIn),
          "end_date" := OptionalText(p.checkOut), "hotels" := results]
  }

  /**
   * The steps shared by both searches once the POST has been made: check
   * the POST's status, read the task id, poll, summarise, and on success
   * merge the request's context updates into `travel_context` and set
   * `switch_to_result`. `post` is what `requests.post` gave,
   * `observations` what the status requests give, and
   * `summarise(results)` the outcome of the summary LLM.
   */
  function RunSearch(session: Session, req: SearchRequest, post: Step<HttpResponse>,
                     observations: seq<Observation>, summarise: Value -> Step<string>): (r: SearchOutcome)
  {
    match post
    case Raised(m) => Finished(false, CallError(m), session)
    case Returned(response) =>
      match CheckSearchResponse(Kind(req), response)
      case Raised(m) => Finished(false, CallError(m), session)
      case Returned(checked) =>
        if checked.code != 200 then Finished(false, StartFailed, session)
        else if !checked.body.Dict? then Finished(false, UnexpectedError, session)
        else
          match Poll(observations)
          case Polling => StillPolling
          case Crashed(_) => Finished(false, UnexpectedError, session)
          case Done(results, _, _) =>
            if !Truthy(results) then Finished(false, Incomplete, session)
            else if summarise(results).Raised? then Finished(false, UnexpectedError, session)
            else if "travel_context" !in session || !session["travel_context"].Dict? then
              Finished(false, UnexpectedError, session)
            else
              var context := session["travel_context"].entries + ContextUpdates(req, results);
              Finished(true, Completed,
                       session["travel_context" := Dict(context)]["switch_to_result" := Bool(true)])
  }


  /**
   * A search that fails at any point (the POST raises or is not 200, the
   * body is not a dict, polling ends without a truthy result, the summary
   * raises) leaves the whole session untouched; one that succeeds changes
   * only `travel_context` and `switch_to_result`, and only after polling
   * returned a truthy result.
   */
  lemma {:induction false} SearchTouchesSessionOnlyOnSuccess(
    session: Session, req: SearchRequest, post: Step<HttpResponse>, observations: seq<Observation>,
    summarise: Value -> Step<string>)
    ensures var r := RunSearch(session, req, post, observations, summarise);
      && (r.Finished? && !r.succeeded ==> r.session == session)
      && (r.Finished? && r.succeeded <==>
            && post.Returned? && post.value.code == 200 && post.value.body.Dict?
            && Poll(observations).Done? && Truthy(Poll(observations).value)
            && summarise(Poll(observations).value).Returned?
            && "travel_context" in session && session["travel_context"].Dict?)
      && (r.Finished? && r.succeeded ==>
            && r.session.Keys == session.Keys + {"switch_to_result"}
            && r.session["switch_to_result"] == Bool(true)
            && r.session["travel_context"] ==
                 Dict(session["travel_context"].entries + ContextUpdates(req, Poll(observations).value))
            && forall k :: k in session && k !in {"travel_context", "switch_to_result"} ==>
                 r.session[k] == session[k])
      && (post.Returned? && post.value.code != 200 ==> r == Finished(false, CallError(
            "Failed to search " + Kind(req) + ": " + post.value.text), session))
  {
  }

  /** On success the new `travel_context` is the old one with the updates for the results merged in. */
  lemma SuccessMergesUpdates(
    session: Session, req: SearchRequest, post: Step<HttpResponse>, observations: seq<Observation>,
    summarise: Value -> Step<string>)
    requires RunSearch(session, req, post, observations, summarise).Finished?
    requires RunSearch(session, req, post, observations, summarise).succeeded
    ensures "travel_context" in session && session["travel_context"].Dict?
    ensures Poll(observations).Done? && Truthy(Poll(observations).value)
    ensures RunSearch(session, req, post, observations, summarise).session["travel_context"]
      == Dict(session["travel_context"].entries + ContextUpdates(req, Poll(observations).value))
  {
    SearchTouchesSessionOnlyOnSuccess(session, req, post, observations, summarise);
  }

  /** `dict.update`: the updates win, every other key keeps its value. */
  lemma MergeOverwrites(before: map<string, Value>, updates: map<string, Value>)
    ensures (before + updates).Keys == before.Keys + updates.Keys
    ensures forall k :: k in updates ==> (before + updates)[k] == updates[k]
    ensures forall k :: k in before && k !in updates ==> (before + updates)[k] == before[k]
  {
  }

  /** `search_flight_options(parsed_data, ...)` */
  function SearchFlightOptions(session: Session, p: FlightDetails, post: Step<HttpResponse>,
                               observations: seq<Observation>, summarise: Value -> Step<string>): (r: SearchOutcome)
  {
    RunSearch(session, FlightSearch(p), post, observations, summarise)
  }

  /** `search_hotel_options(parsed_data, ...)` */
  function SearchHotelOptions(session: Session, p: HotelDetails, post: Step<HttpResponse>,
                              observations: seq<Observation>, summarise: Value -> Step<string>): (r: SearchOutcome)
  {
    RunSearch(session, HotelSearch(p), post, observations, summarise)
  }

  /**
   * A successful flight search overwrites origin, destination, both dates
   * and the flights, and adds no other context field.
   */
  lemma FlightSuccessContext(session: Session, p: FlightDetails, post: Step<HttpResponse>,
                             observations: seq<Observation>, summarise: Value -> Step<string>)
    requires SearchFlightOptions(session, p, post, observations, summarise).Finished?
    requires SearchFlightOptions(session, p, post, observations, summarise).succeeded
    ensures var before := session["travel_context"].entries;
      var after := SearchFlightOptions(session, p, post, observations, summarise).session["travel_context"];
      var results := Poll(observations).value;
      && after.Dict?
      && after.entries.Keys == before.Keys + {"origin", "destination", "start_date", "end_date", "flights"}
      && after.entries["origin"] == Str(p.origin)
      && after.entries["destination"] == Str(p.destination)
      && after.entries["start_date"] == Str(p.startDate)
      && after.entries["end_date"] == Str(p.endDate)
      && after.entries["flights"] == results && Truthy(results)
  {
    SuccessMergesUpdates(session, FlightSearch(p), post, observations, summarise);
    MergeOverwrites(session["travel_context"].entries, ContextUpdates(FlightSearch(p), Poll(observations).value));
  }

  /**
   * Every context field a successful flight search does not write (the
   * hotels among them) keeps its value.
   */
  lemma FlightSearchKeepsOtherContext(session: Session, p: FlightDetails, post: Step<HttpResponse>,
                                      observations: seq<Observation>, summarise: Value -> Step<string>)
    requires SearchFlightOptions(session, p, post, observations, summarise).Finished?
    requires SearchFlightOptions(session, p, post, observations, summarise).succeeded
    ensures var before := session["travel_context"].entries;
      var after := SearchFlightOptions(session, p, post, observations, summarise).session["travel_context"];
      && after.Dict?
      && forall k :: k in before && k !in {"origin", "destination", "start_date", "end_date", "flights"} ==>
           k in after.entries && after.entries[k] == before[k]
  {
    SuccessMergesUpdates(session, FlightSearch(p), post, observations, summarise);
    MergeOverwrites(session["travel_context"].entries, ContextUpdates(FlightSearch(p), Poll(observations).value));
  }

  /**
   * A successful hotel search overwrites destination, both dates and the
   * hotels, and adds no other context field.
   */
  lemma HotelSuccessContext(session: Session, p: HotelDetails, post: Step<HttpResponse>,
                            observations: seq<Observation>, summarise: Value -> Step<string>)
    requires SearchHotelOptions(session, p, post, observations, summarise).Finished?
    requires SearchHotelOptions(session, p, post, observations, summarise).succeeded
    ensures var before := session["travel_context"].entries;
      var after := SearchHotelOptions(session, p, post, observations, summarise).session["travel_context"];
      var results := Poll(observations).value;
      && after.Dict?
      && after.entries.Keys == before.Keys + {"destination", "start_date", "end_date", "hotels"}
      && after.entries["destination"] == OptionalText(p.location)
      && after.entries["start_date"] == OptionalText(p.checkIn)
      && after.entries["end_date"] == OptionalText(p.checkOut)
      && after.entries["hotels"] == results && Truthy(results)
  {
    SuccessMergesUpdates(session, HotelSearch(p), post, observations, summarise);
    MergeOverwrites(session["travel_context"].entries, ContextUpdates(HotelSearch(p), Poll(observations).value));
  }

  /**
   * Every context field a successful hotel search does not write (the
   * origin and the flights among them) keeps its value.
   */
  lemma HotelSearchKeepsOtherContext(session: Session, p: HotelDetails, post: Step<HttpResponse>,
                                     observations: seq<Observation>, summarise: Value -> Step<string>)
    requires SearchHotelOptions(session, p, post, observations, summarise).Finished?
    requires SearchHotelOptions(session, p, post, observations, summarise).succeeded
    ensures var before := session["travel_context"].entries;
      var after := SearchHotelOptions(session, p, post, observations, summarise).session["travel_context"];
      && after.Dict?
      && forall k :: k in before && k !in {"destination", "start_date", "end_date", "hotels"} ==>
           k in after.entries && after.entries[k] == before[k]
  {
    SuccessMergesUpdates(session, HotelSearch(p), post, observations, summarise);
    MergeOverwrites(session["travel_context"].entries, ContextUpdates(HotelSearch(p), Poll(observations).value));
  }

  /** The argument of `format_date`: a `datetime` or any other value. */
  datatype DateArgument = DateTimeValue(date: Date) | OtherValue(value: Value)

  /** `format_date(date_str)` */
  function FormatDate(a: DateArgument): (r: Value)
    requires a.DateTimeValue? ==> Valid(a.date)
    ensures a.OtherValue? ==> r == a.value
    ensures a.DateTimeValue? ==> r.Str?
  {
    match a
    case DateTimeValue(d) => Str(MonthDayYearText(d))
    case OtherValue(v) => v
  }

  /** A formatted `datetime` reads back, with `%B %d, %Y`, as the same date. */
  lemma FormatDateReadsBack(d: Date)
    requires Valid(d)
    ensures ParseMonthDayYear(FormatDate(DateTimeValue(d)).s) == Some(d)
  {
    MonthDayYearRoundTrip(d);
  }
}
