/**
 * The client side of the task protocol (`TravelAPIClient` in
 * src/backend/api_client.py): the status check after each search POST and
 * `poll_task_status`, which keeps asking the server about a task until it
 * learns an outcome. The HTTP exchanges are inputs: the poller is a fold
 * over the sequence of observations its requests would produce, and the
 * two-second sleep between them is left out.
 */
module ApiClient {
  import opened Values
  import opened TaskStore

  /** An HTTP response: status code, decoded JSON body, and raw text. */
  datatype HttpResponse = HttpResponse(code: int, body: Value, text: string)

  /** What one `requests.get` of the status endpoint yields. */
  datatype Observation =
    | Got(response: HttpResponse)
    | NetworkError(message: string)   // a `requests.exceptions.RequestException`

  /** The JSON body `search_flights` posts. */
  function FlightRequestBody(origin: Value, destination: Value, startDate: Value, endDate: Value,
                             preferences: Value): Value {
    Dict(map["origin" := origin, "destination" := destination, "start_date" := startDate,
             "end_date" := endDate, "preferences" := preferences])
  }

  /** The JSON body `search_hotels` posts. */
  function HotelRequestBody(location: Value, checkIn: Value, checkOut: Value, preferences: Value): Value {
    Dict(map["location" := location, "check_in" := checkIn, "check_out" := checkOut,
             "preferences" := preferences])
  }

  /** The JSON body `search_youtube` posts. */
  function YoutubeRequestBody(userInput: Value): Value {
    Dict(map["user_input" := userInput])
  }

  /**
   * `search_flights` / `search_hotels` / `search_youtube` after the POST:
   * anything but 200 raises `Failed to search <kind>: <text>`.
   */
  function CheckSearchResponse(kind: string, response: HttpResponse): (r: Step<HttpResponse>)
    ensures r.Returned? <==> response.code == 200
    ensures r.Returned? ==> r.value == response
    ensures r.Raised? ==> r.message == "Failed to search " + kind + ": " + response.text
  {
    if response.code != 200 then Raised("Failed to search " + kind + ": " + response.text)
    else Returned(response)
  }

  /** The message shown in the progress container when polling ends. */
  datatype Notice =
    | SearchCompleted                  // success: "<Type> search completed!"
    | SearchFailed(error: Value)       // error: "<Type> search failed: <error>"
    | StatusUnavailable(text: string)  // error: "Failed to get <type> search status: <text>"
    | NetworkFailure(message: string)  // error: "Network error while polling <type> status: <message>"

  /** What one observation makes the poller do. */
  datatype Verdict =
    | Continue                          // not terminal yet: sleep and ask again
    | Stop(result: Value, notice: Notice)
    | Crash                             // `result.get` on a body that is not a dict raises

  const UnknownError := Str("Unknown error")

  /**
   * One iteration of the `while True` loop of `poll_task_status`, one
   * clause per way out of it.
   */
  function Decide(o: Observation): (v: Verdict)
    ensures o.NetworkError? ==> v == Stop(Null, NetworkFailure(o.message))
    ensures o.Got? && o.response.code != 200 ==> v == Stop(Null, StatusUnavailable(o.response.text))
    ensures v.Crash? <==> o.Got? && o.response.code == 200 && !o.response.body.Dict?
    ensures o.Got? && o.response.code == 200 && o.response.body.Dict? ==>
      var result := o.response.body.entries;
      var status := Get(result, "status", Null);
      && (status == Str(Completed.Name()) ==> v == Stop(Get(result, "data", Null), SearchCompleted))
      && (status == Str(Failed.Name()) ==> v == Stop(Null, SearchFailed(Get(result, "error", UnknownError))))
      && (status != Str(Completed.Name()) && status != Str(Failed.Name()) ==> v == Continue)
    ensures v.Continue? ==> o.Got? && o.response.code == 200 && o.response.body.Dict?
  {
    match o
    case NetworkError(m) => Stop(Null, NetworkFailure(m))
    case Got(resp) =>
      if resp.code != 200 then Stop(Null, StatusUnavailable(resp.text))
      else if !resp.body.Dict? then Crash
      else
        var result := resp.body.entries;
        var status := Get(result, "status", Null);
        if status == Str(Completed.Name()) then Stop(Get(result, "data", Null), SearchCompleted)
        else if status == Str(Failed.Name()) then Stop(Null, SearchFailed(Get(result, "error", UnknownError)))
        else Continue
  }

  /**
   * How `poll_task_status` stands after a run of observations: still
   * looping, returned `value` after `after` requests, or crashed on the
   * `after`-th request.
   */
  datatype PollOutcome =
    | Polling
    | Done(value: Value, notice: Notice, after: nat)
    | Crashed(after: nat)

  /** The poller fed `obs` from index `i` on. */
  function PollFrom(obs: seq<Observation>, i: nat): (r: PollOutcome)
    requires i <= |obs|
    ensures r.Polling? <==> forall j :: i <= j < |obs| ==> Decide(obs[j]).Continue?
    ensures !r.Polling? ==>
      && i < r.after <= |obs|
      && (forall j :: i <= j < r.after - 1 ==> Decide(obs[j]).Continue?)
      && !Decide(obs[r.after - 1]).Continue?
    ensures r.Done? ==> Decide(obs[r.after - 1]) == Stop(r.value, r.notice)
    ensures r.Crashed? ==> Decide(obs[r.after - 1]).Crash?
    decreases |obs| - i
  {
    if i == |obs| then Polling
    else
      match Decide(obs[i])
      case Continue => PollFrom(obs, i + 1)
      case Stop(result, notice) => Done(result, notice, i + 1)
      case Crash => Crashed(i + 1)
  }

  /** `poll_task_status` fed the observations `obs` in order. */
  function Poll(obs: seq<Observation>): (r: PollOutcome)
    ensures r.Polling? <==> forall j :: 0 <= j < |obs| ==> Decide(obs[j]).Continue?
  {
    PollFrom(obs, 0)
  }

  /**
   * Once polling has ended, later observations are never made: extending
   * the run does not change the outcome.
   */
  lemma {:induction false} PollIgnoresLaterObservations(obs: seq<Observation>, more: seq<Observation>, i: nat)
    requires i <= |obs|
    requires !PollFrom(obs, i).Polling?
    ensures PollFrom(obs + more, i) == PollFrom(obs, i)
    decreases |obs| - i
  {
    assert (obs + more)[i] == obs[i];
    if Decide(obs[i]).Continue? {
      PollIgnoresLaterObservations(obs, more, i + 1);
    }
  }

  /** An outcome whose observation count is moved on by `offset` earlier observations. */
  function Shifted(r: PollOutcome, offset: nat): PollOutcome {
    match r
    case Polling => Polling
    case Done(v, n, k) => Done(v, n, offset + k)
    case Crashed(k) => Crashed(offset + k)
  }

  /**
   * While the poller is still looping, the outcome of a longer run is the
   * outcome of the new observations alone, shifted by the ones already made.
   */
  lemma {:induction false} PollResumes(obs: seq<Observation>, more: seq<Observation>, i: nat)
    requires i <= |obs|
    requires PollFrom(obs, i).Polling?
    ensures PollFrom(obs + more, i) == Shifted(PollFrom(more, 0), |obs|)
    decreases |obs| - i
  {
    if i == |obs| {
      PollShift(obs, more, 0);
    } else {
      assert (obs + more)[i] == obs[i];
      PollResumes(obs, more, i + 1);
    }
  }

  /** Polling `more` placed after `obs` is polling `more` with indices shifted. */
  lemma {:induction false} PollShift(obs: seq<Observation>, more: seq<Observation>, i: nat)
    requires i <= |more|
    ensures PollFrom(obs + more, |obs| + i) == Shifted(PollFrom(more, i), |obs|)
    decreases |more| - i
  {
    if i == |more| {
      assert |obs| + i == |obs + more|;
    } else {
      assert (obs + more)[|obs| + i] == more[i];
      if Decide(more[i]).Continue? {
        PollShift(obs, more, i + 1);
      }
    }
  }

  /** The JSON the status endpoint sends for a task's dict. */
  function RecordJson(rec: TaskRecord): (j: Value)
    ensures j.Dict?
    ensures "status" in j.entries <==> rec.status.Some?
    ensures rec.status.Some? ==> j.entries["status"] == Str(rec.status.value.Name())
    ensures "data" in j.entries <==> rec.data.Some?
    ensures "error" in j.entries <==> rec.error.Some?
    ensures rec.data.Some? ==> j.entries["data"] == rec.data.value
    ensures rec.error.Some? ==> j.entries["error"] == Str(rec.error.value)
    ensures j.entries.Keys <= {"status", "data", "error"}
  {
    var withStatus: map<string, Value> :=
      if rec.status.Some? then map["status" := Str(rec.status.value.Name())] else map[];
    var withData := if rec.data.Some? then withStatus["data" := rec.data.value] else withStatus;
    var withError := if rec.error.Some? then withData["error" := Str(rec.error.value)] else withData;
    Dict(withError)
  }

  /** The response the client receives for a `GET /task_status/<id>`. */
  function StatusResponse(reply: StatusReply, text: string): (resp: HttpResponse)
    ensures resp.code == reply.Code()
  {
    match reply
    case Found(rec) => HttpResponse(200, RecordJson(rec), text)
    case NotFound(e) => HttpResponse(404, Dict(map["error" := Str(e)]), text)
  }

  /**
   * What the poller makes of the server's reply about a task: a pending or
   * processing task keeps it polling, a completed one returns the stored
   * data (`None` when none was stored), a failed one returns `None` with
   * the stored error, and an unknown task ends polling with the 404 text.
   */
  lemma DecideOnServerReply(store: Store, id: TaskId, text: string)
    requires id in store ==> WellFormed(store[id])
    ensures var reply := GetStatus(store, id);
      var v := Decide(Got(StatusResponse(reply, text)));
      && (reply.NotFound? ==> v == Stop(Null, StatusUnavailable(text)))
      && (reply.Found? && !reply.record.status.value.IsTerminal() ==> v.Continue?)
      && (reply.Found? && reply.record.status == Some(Completed) ==>
            v == Stop(reply.record.data.GetOr(Null), SearchCompleted))
      && (reply.Found? && reply.record.status == Some(Failed) ==>
            v == Stop(Null, SearchFailed(Str(reply.record.error.value))))
  {
  }
}
