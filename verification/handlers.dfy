/**
 * The HTTP handlers of src/backend/app.py: the three POST endpoints that
 * validate a JSON body and register a pending task, and the GET endpoint
 * that reports a task's record (`TaskStore.GetStatus`). Starting the worker
 * thread is modelled by handing back the job it would run; the fresh task
 * id that `uuid.uuid4()` draws is a parameter.
 */
module Handlers {
  import opened Values
  import opened Text
  import opened TaskStore

  const FlightParamsMissing :=
    "Missing required parameters. Please provide origin, destination, start_date and end_date"
  const HotelParamsMissing :=
    "Missing required parameters. Please provide location, check_in and check_out"
  const QuestionMissing := "Missing required parameters. Please provide question."

  /** The reply of a POST endpoint. */
  datatype PostReply =
    | Accepted(taskId: TaskId)  // {'task_id': ..., 'status': 'pending'}
    | Rejected(error: string)   // {'error': ...} with 400
    | ServerError               // {'error': str(e)} with 500
  {
    function Code(): int {
      match this
      case Accepted(_) => 200
      case Rejected(_) => 400
      case ServerError => 500
    }
  }

  /** The arguments a worker thread is started with. */
  datatype Job =
    | FlightJob(taskId: TaskId, origin: Value, destination: Value, startDate: string,
                endDate: string, preferences: Value)
    | HotelJob(taskId: TaskId, location: Value, checkIn: string, checkOut: string,
               preferences: Value)
    | YoutubeJob(taskId: TaskId, userInput: Value)

  /** The reply, the store after the request, and the thread started (if any). */
  datatype PostOutcome = PostOutcome(reply: PostReply, store: Store, job: Option<Job>)

  /**
   * `data.get(key, '').replace(" 0", " ")`: the date with the zero padding
   * of its day removed, or `None` when the value is not a string and
   * `replace` raises.
   */
  function NormaliseDate(d: map<string, Value>, key: string): (r: Option<string>)
    ensures r.Some? <==> Get(d, key, Str("")).Str?
  {
    match Get(d, key, Str(""))
    case Str(s) => Some(ReplaceAll(s, " 0", " "))
    case _ => None
  }

  /**
   * Removing padding never empties a date nor lengthens it, and it changes
   * the text exactly when some " 0" occurs in it.
   */
  lemma NormalisedDate(s: string)
    ensures ReplaceAll(s, " 0", " ") == "" <==> s == ""
    ensures |ReplaceAll(s, " 0", " ")| <= |s|
    ensures ReplaceAll(s, " 0", " ") == s <==> !Contains(s, " 0")
  {
    ReplaceShrinks(s, " 0", " ");
    ReplaceUnchangedIff(s, " 0", " ");
  }

  /** Storing `{'status': 'pending'}` under the fresh id and starting `job`. */
  function Register(store: Store, freshId: TaskId, job: Job): PostOutcome {
    PostOutcome(Accepted(freshId), store[freshId := PendingRecord], Some(job))
  }

  /** A request that did not get past validation: nothing stored, no thread. */
  predicate Refused(r: PostOutcome, store: Store) {
    !r.reply.Accepted? && r.store == store && r.job.None?
  }

  /** The date fields a request actually sent, as `data.get(key, '')` reads them. */
  function RawDate(d: map<string, Value>, key: string): Value {
    Get(d, key, Str(""))
  }

  /** `POST /search_flights` */
  function SearchFlights(store: Store, body: Value, freshId: TaskId): (r: PostOutcome)
    ensures r.reply.ServerError? <==>
      !body.Dict? || !RawDate(body.entries, "start_date").Str? || !RawDate(body.entries, "end_date").Str?
    ensures r.reply.Accepted? <==>
      && body.Dict?
      && Truthy(Get(body.entries, "origin", Null))
      && Truthy(Get(body.entries, "destination", Null))
      && RawDate(body.entries, "start_date").Str? && RawDate(body.entries, "start_date").s != ""
      && RawDate(body.entries, "end_date").Str? && RawDate(body.entries, "end_date").s != ""
    ensures r.reply.Rejected? ==> r.reply.error == FlightParamsMissing && r.reply.Code() == 400
    ensures !r.reply.Accepted? ==> Refused(r, store)
    ensures r.reply.Accepted? ==>
      && r.reply.taskId == freshId
      && r.store == store[freshId := PendingRecord]
      && r.job == Some(FlightJob(freshId,
                                 body.entries["origin"],
                                 body.entries["destination"],
                                 ReplaceAll(body.entries["start_date"].s, " 0", " "),
                                 ReplaceAll(body.entries["end_date"].s, " 0", " "),
                                 Get(body.entries, "preferences", Dict(map[]))))
  {
    if !body.Dict? then PostOutcome(ServerError, store, None)
    else
      var d := body.entries;
      var origin := Get(d, "origin", Null);
      var destination := Get(d, "destination", Null);
      var startDate := NormaliseDate(d, "start_date");
      if startDate.None? then PostOutcome(ServerError, store, None)
      else
        var endDate := NormaliseDate(d, "end_date");
        if endDate.None? then PostOutcome(ServerError, store, None)
        else
          var preferences := Get(d, "preferences", Dict(map[]));
          NormalisedDate(RawDate(d, "start_date").s);
          NormalisedDate(RawDate(d, "end_date").s);
          if !(Truthy(origin) && Truthy(destination) && startDate.value != "" && endDate.value != "") then
            PostOutcome(Rejected(FlightParamsMissing), store, None)
          else
            Register(store, freshId,
                     FlightJob(freshId, origin, destination, startDate.value, endDate.value, preferences))
  }

  /** `POST /search_hotels` */
  function SearchHotels(store: Store, body: Value, freshId: TaskId): (r: PostOutcome)
    ensures r.reply.ServerError? <==>
      !body.Dict? || !RawDate(body.entries, "check_in").Str? || !RawDate(body.entries, "check_out").Str?
    ensures r.reply.Accepted? <==>
      && body.Dict?
      && Truthy(Get(body.entries, "location", Null))
      && RawDate(body.entries, "check_in").Str? && RawDate(body.entries, "check_in").s != ""
      && RawDate(body.entries, "check_out").Str? && RawDate(body.entries, "check_out").s != ""
    ensures r.reply.Rejected? ==> r.reply.error == HotelParamsMissing && r.reply.Code() == 400
    ensures !r.reply.Accepted? ==> Refused(r, store)
    ensures r.reply.Accepted? ==>
      && r.reply.taskId == freshId
      && r.store == store[freshId := PendingRecord]
      && r.job == Some(HotelJob(freshId,
                                body.entries["location"],
                                ReplaceAll(body.entries["check_in"].s, " 0", " "),
                                ReplaceAll(body.entries["check_out"].s, " 0", " "),
                                Get(body.entries, "preferences", Dict(map[]))))
  {
    if !body.Dict? then PostOutcome(ServerError, store, None)
    else
      var d := body.entries;
      var location := Get(d, "location", Null);
      var checkIn := NormaliseDate(d, "check_in");
      if checkIn.None? then PostOutcome(ServerError, store, None)
      else
        var checkOut := NormaliseDate(d, "check_out");
        if checkOut.None? then PostOutcome(ServerError, store, None)
        else
          var preferences := Get(d, "preferences", Dict(map[]));
          NormalisedDate(RawDate(d, "check_in").s);
          NormalisedDate(RawDate(d, "check_out").s);
          if !(Truthy(location) && checkIn.value != "" && checkOut.value != "") then
            PostOutcome(Rejected(HotelParamsMissing), store, None)
          else
            Register(store, freshId, HotelJob(freshId, location, checkIn.value, checkOut.value, preferences))
  }

  /** `POST /search_youtube` */
  function SearchYoutube(store: Store, body: Value, freshId: TaskId): (r: PostOutcome)
    ensures r.reply.ServerError? <==> !body.Dict?
    ensures r.reply.Accepted? <==> body.Dict? && Truthy(Get(body.entries, "user_input", Null))
    ensures r.reply.Rejected? ==> r.reply.error == QuestionMissing && r.reply.Code() == 400
    ensures !r.reply.Accepted? ==> Refused(r, store)
    ensures r.reply.Accepted? ==>
      && r.reply.taskId == freshId
      && r.store == store[freshId := PendingRecord]
      && r.job == Some(YoutubeJob(freshId, body.entries["user_input"]))
  {
    if !body.Dict? then PostOutcome(ServerError, store, None)
    else
      var userInput := Get(body.entries, "user_input", Null);
      if !Truthy(userInput) then PostOutcome(Rejected(QuestionMissing), store, None)
      else Register(store, freshId, YoutubeJob(freshId, userInput))
  }

  /** Any of the three POST endpoints. */
  predicate IsPostOutcome(r: PostOutcome, store: Store, body: Value, freshId: TaskId) {
    r == SearchFlights(store, body, freshId)
    || r == SearchHotels(store, body, freshId)
    || r == SearchYoutube(store, body, freshId)
  }

  /**
   * After an accepted POST the task is immediately visible as pending, and
   * a fresh id adds exactly one task while every other task keeps its
   * record; a refused POST leaves every task's status as it was.
   */
  lemma AcceptedTaskIsPending(store: Store, body: Value, freshId: TaskId, r: PostOutcome)
    requires IsPostOutcome(r, store, body, freshId)
    ensures r.reply.Accepted? ==> GetStatus(r.store, r.reply.taskId) == Found(PendingRecord)
    ensures r.reply.Accepted? && freshId !in store ==> |r.store| == |store| + 1
    ensures forall id :: id != freshId ==> GetStatus(r.store, id) == GetStatus(store, id)
    ensures !r.reply.Accepted? ==> forall id :: GetStatus(r.store, id) == GetStatus(store, id)
  {
    assert Refused(r, store) || (r.reply == Accepted(freshId) && r.store == store[freshId := PendingRecord]);
    if r.reply.Accepted? {
      PendingIsVisible(store, freshId);
    }
  }

  /** Storing a pending record makes it the only status that changes. */
  lemma PendingIsVisible(store: Store, freshId: TaskId)
    ensures GetStatus(store[freshId := PendingRecord], freshId) == Found(PendingRecord)
    ensures freshId !in store ==> |store[freshId := PendingRecord]| == |store| + 1
    ensures forall id :: id != freshId ==> GetStatus(store[freshId := PendingRecord], id) == GetStatus(store, id)
  {
  }
}
