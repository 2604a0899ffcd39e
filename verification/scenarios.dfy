/**
 * End-to-end consequences of the pieces modelled elsewhere: what the
 * server makes of the requests the front end sends, and what the poller
 * returns for a task a worker has run.
 */
module Scenarios {
  import opened Values
  import opened TaskStore
  import opened Workers
  import opened Handlers
  import opened ApiClient
  import opened Frontend

  /**
   * Flight details that pass the front end's checks always produce a
   * request the server accepts: every field the server requires is a
   * non-empty string.
   */
  lemma CheckedFlightRequestIsAccepted(store: Store, p: FlightDetails, freshId: TaskId)
    requires CheckFlightDetails(p).None?
    ensures var body := FlightRequestBody(Str(p.origin), Str(p.destination), Str(p.startDate),
                                          Str(p.endDate), FlightPreferences(p));
      var r := SearchFlights(store, body, freshId);
      && r.reply == Accepted(freshId)
      && r.job.Some? && r.job.value.preferences == FlightPreferences(p)
  {
  }

  /**
   * Hotel details with a location and both dates are accepted, and the
   * worker receives the preferences dict the front end built, rating and
   * amenities included.
   */
  lemma HotelPreferencesReachTheWorker(store: Store, p: HotelDetails, freshId: TaskId)
    requires CheckHotelDetails(p).None?
    requires p.checkIn.Some? && p.checkIn.value != "" && p.checkOut.Some? && p.checkOut.value != ""
    ensures var body := HotelRequestBody(OptionalText(p.location), OptionalText(p.checkIn),
                                         OptionalText(p.checkOut), HotelPreferences(p));
      var r := SearchHotels(store, body, freshId);
      && r.reply == Accepted(freshId)
      && r.job.Some? && r.job.value.preferences == HotelPreferences(p)
      && r.job.value.preferences.entries["rating"] == OptionalText(p.rating)
      && r.job.value.preferences.entries["amenities"] == OptionalText(p.amenities)
  {
  }

  /**
   * The hotel check asks only for a location, so details without a
   * check-in date pass it, yet the server's `.replace` on the null date
   * raises and the request ends in a 500, which the client turns into an
   * exception.
   */
  lemma HotelWithoutCheckInFailsOnServer(store: Store, p: HotelDetails, freshId: TaskId, text: string)
    requires CheckHotelDetails(p).None? && p.checkIn.None?
    ensures var body := HotelRequestBody(OptionalText(p.location), OptionalText(p.checkIn),
                                         OptionalText(p.checkOut), HotelPreferences(p));
      var r := SearchHotels(store, body, freshId);
      && r.reply == ServerError && r.store == store
      && CheckSearchResponse("hotels", HttpResponse(r.reply.Code(), Null, text)).Raised?
  {
  }

  /** The observation the poller makes of the store as it stands. */
  function Observe(store: Store, id: TaskId, text: string): Observation {
    Got(StatusResponse(GetStatus(store, id), text))
  }

  /**
   * A client that polls a freshly registered task once before the worker
   * starts, once while it processes and once after it finishes ends with
   * the worker's outcome: the stored data when the pipeline produced a
   * non-`None` result, and `None` with the stored error when it failed.
   */
  lemma {:induction false} PollSeesWorkerOutcome(store: Store, id: TaskId, writes: seq<Update>, text: string)
    requires GetStatus(store, id) == Found(PendingRecord)
    requires WorkerShaped(writes)
    ensures var processing := UpdateTaskStatus(store, id, writes[0]);
      var finished := ApplyUpdates(store, id, writes);
      var r := Poll([Observe(store, id, text), Observe(processing, id, text), Observe(finished, id, text)]);
      && (writes[1].status == Status.Completed ==>
            r == Done(writes[1].data, SearchCompleted, 3))
      && (writes[1].status == Status.Failed ==>
            r == Done(Null, SearchFailed(Str(writes[1].error.value)), 3))
  {
    var processing := UpdateTaskStatus(store, id, writes[0]);
    var finished := ApplyUpdates(store, id, writes);
    WorkerLeavesTerminalRecord(store, id, writes);
    DecideOnServerReply(store, id, text);
    DecideOnServerReply(processing, id, text);
    DecideOnServerReply(finished, id, text);
    var obs := [Observe(store, id, text), Observe(processing, id, text), Observe(finished, id, text)];
    assert Decide(obs[0]).Continue? && Decide(obs[1]).Continue?;
    assert PollFrom(obs, 2) == PollFrom(obs, 3) || !Decide(obs[2]).Continue?;
  }
}
