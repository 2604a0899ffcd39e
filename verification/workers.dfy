/**
 * The background workers of src/backend/app.py (`process_flight_search`,
 * `process_hotel_search`, `process_youtube_search`). A worker is modelled
 * by the `update_task_status` calls it makes, in order; the scraping and
 * LLM calls it makes are inputs giving each call's outcome.
 */
module Workers {
  import opened Values
  import opened TaskStore
  import Youtube

  const FlightUrlFailure := "Failed to generate flight search URL"
  const HotelUrlFailure := "Failed to generate hotel search URL"
  const YoutubeUrlFailure := "Failed to generate youtube search URL"

  /**
   * The shape every worker's writes have: `processing` first, then exactly
   * one terminal write, which for `failed` carries an error and no data and
   * for `completed` carries no error.
   */
  predicate WorkerShaped(writes: seq<Update>) {
    && |writes| == 2
    && writes[0] == StatusOnly(Processing)
    && writes[1].status.IsTerminal()
    && (writes[1].status == Failed ==> writes[1].data == Null && writes[1].error.Some?)
    && (writes[1].status == Completed ==> writes[1].error.None?)
  }

  /** `except Exception as e: update_task_status(task_id, FAILED, error=str(e))` */
  function Fail(message: string): Update {
    Update(Failed, Null, Some(message))
  }

  /**
   * The body shared by the flight and hotel workers: resolve a search URL,
   * give up with `urlFailure` if it is falsy, otherwise scrape it and store
   * what the scrape returns.
   */
  function UrlPipeline(resolve: Step<Value>, scrape: Value -> Step<Value>, urlFailure: string): (writes: seq<Update>)
    ensures WorkerShaped(writes)
    ensures writes[1].status == Completed <==>
      resolve.Returned? && Truthy(resolve.value) && scrape(resolve.value).Returned?
    ensures writes[1].status == Completed ==> writes[1].data == scrape(resolve.value).value
    ensures resolve.Raised? ==> writes[1] == Fail(resolve.message)
    ensures resolve.Returned? && !Truthy(resolve.value) ==> writes[1] == Fail(urlFailure)
    ensures resolve.Returned? && Truthy(resolve.value) && scrape(resolve.value).Raised? ==>
      writes[1] == Fail(scrape(resolve.value).message)
  {
    var terminal :=
      match resolve
      case Raised(m) => Fail(m)
      case Returned(url) =>
        if !Truthy(url) then Fail(urlFailure)
        else
          match scrape(url)
          case Raised(m) => Fail(m)
          case Returned(result) => Update(Completed, result, None);
    [StatusOnly(Processing), terminal]
  }

  /**
   * `process_flight_search`: `resolve` is the outcome of `get_flight_url`
   * and `scrape(url)` that of `scrape_flights(url, preferences)`.
   */
  function ProcessFlightSearch(resolve: Step<Value>, scrape: Value -> Step<Value>): (writes: seq<Update>)
    ensures WorkerShaped(writes)
    ensures resolve.Returned? && !Truthy(resolve.value) ==> writes[1] == Fail(FlightUrlFailure)
  {
    UrlPipeline(resolve, scrape, FlightUrlFailure)
  }

  /**
   * `process_hotel_search`: `resolve` is the outcome of `get_hotel_url`
   * and `scrape(url)` that of `scrape_hotels(url, preferences)`.
   */
  function ProcessHotelSearch(resolve: Step<Value>, scrape: Value -> Step<Value>): (writes: seq<Update>)
    ensures WorkerShaped(writes)
    ensures resolve.Returned? && !Truthy(resolve.value) ==> writes[1] == Fail(HotelUrlFailure)
  {
    UrlPipeline(resolve, scrape, HotelUrlFailure)
  }

  /**
   * A falsy URL stops the pipeline before the scrape: the writes do not
   * depend on what the scrape would have done.
   */
  lemma ScrapeNotReachedWithoutUrl(resolve: Step<Value>, scrape1: Value -> Step<Value>,
                                   scrape2: Value -> Step<Value>, urlFailure: string)
    requires resolve.Raised? || !Truthy(resolve.value)
    ensures UrlPipeline(resolve, scrape1, urlFailure) == UrlPipeline(resolve, scrape2, urlFailure)
  {
  }

  /**
   * `process_youtube_search`: `title` is the outcome of `get_title`,
   * `search(t)` that of `get_youtube_urls(t)` (a list, or `None`),
   * `fetch` the transcript service used by `get_content`, and
   * `respond(content)` the outcome of `get_response(user_input, content)`.
   */
  function ProcessYoutubeSearch(title: Step<string>, search: string -> Step<Option<seq<string>>>,
                                fetch: string -> Step<Youtube.Transcript>,
                                respond: string -> Step<string>): (writes: seq<Update>)
    ensures WorkerShaped(writes)
    ensures writes[1].status == Completed <==>
      && title.Returned?
      && search(title.value).Returned?
      && search(title.value).value.Some?
      && |search(title.value).value.value| > 0
      && Youtube.GetContent(search(title.value).value.value, fetch).Returned?
      && respond(Youtube.GetContent(search(title.value).value.value, fetch).value).Returned?
    ensures writes[1].status == Completed ==>
      writes[1].data ==
        Str(respond(Youtube.GetContent(search(title.value).value.value, fetch).value).value)
    ensures
      (&& title.Returned?
       && search(title.value).Returned?
       && (search(title.value).value.None? || |search(title.value).value.value| == 0))
      ==> writes[1] == Fail(YoutubeUrlFailure)
    ensures title.Raised? ==> writes[1] == Fail(title.message)
    ensures title.Returned? && search(title.value).Raised? ==>
      writes[1] == Fail(search(title.value).message)
    ensures
      (&& title.Returned?
       && search(title.value).Returned?
       && search(title.value).value.Some?
       && |search(title.value).value.value| > 0
       && Youtube.GetContent(search(title.value).value.value, fetch).Raised?)
      ==> writes[1] == Fail(Youtube.GetContent(search(title.value).value.value, fetch).message)
    ensures
      (&& title.Returned?
       && search(title.value).Returned?
       && search(title.value).value.Some?
       && |search(title.value).value.value| > 0
       && Youtube.GetContent(search(title.value).value.value, fetch).Returned?
       && respond(Youtube.GetContent(search(title.value).value.value, fetch).value).Raised?)
      ==> writes[1] == Fail(respond(Youtube.GetContent(search(title.value).value.value, fetch).value).message)
  {
    var terminal :=
      match title
      case Raised(m) => Fail(m)
      case Returned(t) =>
        match search(t)
        case Raised(m) => Fail(m)
        case Returned(urls) =>
          if urls.None? || |urls.value| == 0 then Fail(YoutubeUrlFailure)
          else
            match Youtube.GetContent(urls.value, fetch)
            case Raised(m) => Fail(m)
            case Returned(content) =>
              match respond(content)
              case Raised(m) => Fail(m)
              case Returned(response) => Update(Completed, Str(response), None);
    [StatusOnly(Processing), terminal]
  }

  /**
   * Run on a task that holds neither data nor error (a freshly registered
   * one), a worker's writes go through `processing` and leave a terminal,
   * well-formed record: `failed` with the error and no data, or `completed`
   * with no error and with data exactly when the pipeline result is not
   * `None`. Every other task is left as it was.
   */
  lemma WorkerLeavesTerminalRecord(store: Store, id: TaskId, writes: seq<Update>)
    requires WorkerShaped(writes)
    requires RecordOf(store, id).data.None? && RecordOf(store, id).error.None?
    ensures var mid := UpdateTaskStatus(store, id, writes[0]);
      GetStatus(mid, id).Found? && GetStatus(mid, id).record.status == Some(Processing)
    ensures var after := ApplyUpdates(store, id, writes);
      && GetStatus(after, id).Found?
      && GetStatus(after, id).record.status == Some(writes[1].status)
      && WellFormed(GetStatus(after, id).record)
      && (writes[1].status == Completed ==>
            && (GetStatus(after, id).record.data.Some? <==> writes[1].data != Null)
            && GetStatus(after, id).record.data.GetOr(Null) == writes[1].data)
      && (writes[1].status == Failed ==> GetStatus(after, id).record.error == writes[1].error)
      && (forall k :: k in store && k != id ==> after[k] == store[k])
  {
    var mid := UpdateTaskStatus(store, id, writes[0]);
    var after := UpdateTaskStatus(mid, id, writes[1]);
    assert ApplyUpdates(store, id, writes) == ApplyUpdates(mid, id, writes[1..]);
    assert writes[1..][1..] == [];
    assert ApplyUpdates(mid, id, writes[1..]) == after;
  }
}
