# Travel Assistant core, modelled in Dafny

The Travel Assistant has a Streamlit front end and a Flask back end. The
front end asks an LLM to parse a trip description into flight or hotel
details, posts a search to the back end, and polls until the search is
done. The back end registers each search as a task in an in-memory store,
runs a worker thread that scrapes the results, and answers status requests
about the task. The browser automation, the LLM calls and the web
frameworks are glue. Underneath them lies a small deterministic core, and
this project models that core and proves properties of it:

- **Task store** (`TaskStore`). The map from task id to the task's record,
  `update_task_status` with its three branches, and `get_status`.
- **Workers** (`Workers`). Each worker is modelled as the sequence of
  status updates it makes: `processing`, then exactly one terminal write.
- **POST handlers** (`Handlers`). Validation, date normalisation, and the
  registration of a pending task under a fresh id.
- **Client** (`ApiClient`). The status check after each search POST, and
  `poll_task_status` as a fold over the observations its requests yield.
- **LLM-output post-processing** (`UserInputSummary`, `DateFormat`,
  `Calendar`). Extraction of a fenced JSON block, and the rewriting of
  flight and restaurant dates. This rests on a re-specification of the
  `strptime`/`strftime` formats and on proleptic Gregorian weekday
  arithmetic.
- **Video content** (`Youtube`). Selection of result links, extraction of
  the video id, and the assembly of transcripts into one text.
- **Chat history** (`ChatModel`). The conversion of stored chat messages
  into model messages.
- **Front-end state** (`Frontend`). Session-state defaults, the
  required-field checks, the preference dicts, the update of
  `travel_context` after a successful search, and `format_date`.
- **Scenarios** (`Scenarios`). Consequences that span several of the
  pieces above.

`Values` models Python values (`None`, booleans, ints, strings, lists,
dicts and opaque objects) with Python truthiness. It also holds `Step`, the
outcome of a call that may raise. `Text` models the string methods the
core uses (`find`, `split`, `join`, `replace`) and proves their algebra.

Calls into code outside the core become parameters that give each call's
outcome. These are the LLM, the scrapers, `json.loads`, the transcript
service, the HTTP exchanges and `uuid.uuid4()`. Every write and every
lookup happens under `task_lock`. `get_status` serialises the record after
releasing the lock, and the model treats lookup and serialisation as one
step.

`update_task_status` stores `data` only when it is not `None`, so a
`completed` record may lack data. A worker whose pipeline returns `None`
leaves such a record, and the poller then returns `None` for it
(`Workers.WorkerLeavesTerminalRecord`, `Scenarios.PollSeesWorkerOutcome`).

## Model

| member | source | states |
|---|---|---|
| TaskStore.UpdateTaskStatus | src/backend/app.py:32-45 | Non-`None` data sets status and data and keeps the old error, and data wins even when an error is also given. Otherwise an error sets status and error and keeps the old data. With neither, only the status changes. An id the store lacks is created from an empty dict, and every other id keeps its record. |
| TaskStore.ApplyUpdates | src/backend/app.py:47-69 | A worker's successive updates to its own task add that id to the store and leave every other task's record as it was. |
| TaskStore.GetStatus | src/backend/app.py:220-228 | The reply is `Task not found` with 404 exactly when the id is missing or its dict is empty. Otherwise it is the stored record, unchanged, with 200. |
| TaskStore.UpdatedTaskIsFound | src/backend/app.py:32-45 | A task that has been updated is never reported unknown: the lookup returns the record the update produced. |
| TaskStore.UpdatesOfDistinctTasksCommute | src/backend/app.py:32-45 | Updates of two different tasks give the same store in either order, so the interleaving of workers of distinct tasks does not matter. |
| Workers.UrlPipeline | src/backend/app.py:47-69 | The worker writes `processing` and then one terminal update. The result is `completed` with the scrape's result exactly when the URL resolves to a truthy value and the scrape returns. A falsy URL fails with the fixed message, and any exception fails with its message. |
| Workers.ProcessFlightSearch | src/backend/app.py:47-69 | The flight worker has the shape above, and a falsy URL gives `Failed to generate flight search URL`. |
| Workers.ProcessHotelSearch | src/backend/app.py:71-93 | The hotel worker has the shape above, and a falsy URL gives `Failed to generate hotel search URL`. |
| Workers.ScrapeNotReachedWithoutUrl | src/backend/app.py:51-56 | When the URL step raises or yields a falsy URL, the writes are the same whatever the scrape would do, so the scrape is never reached. |
| Workers.ProcessYoutubeSearch | src/backend/app.py:94-116 | The video worker completes, storing the response text, exactly when the title, the search, the transcript content and the response all return and the URL list is non-empty. A `None` or empty URL list fails with `Failed to generate youtube search URL`. Otherwise the first step that raises (title, search, transcripts or response) fails the task with that exception's message. |
| Workers.WorkerLeavesTerminalRecord | src/backend/app.py:32-69 | Run on a fresh task, a worker shows `processing` after its first write and leaves a terminal, well-formed record. The record never holds both data and error. A completed record has data exactly when the result was not `None`, and a failed one has the error and no data. No other task changes. |
| Handlers.NormaliseDate | src/backend/app.py:126-127 | A date is normalised exactly when the value read with default `''` is a string. A non-string such as an explicit null makes `replace` raise. |
| Handlers.NormalisedDate | src/backend/app.py:126-127 | Replacing every `" 0"` by `" "` empties a date only if it was empty and never lengthens it. The date comes back unchanged exactly when it holds no `" 0"`. |
| Handlers.SearchFlights | src/backend/app.py:118-152 | A body that is not a dict, or a date that is not a string, gives 500. The request is accepted exactly when origin and destination are truthy and both dates are non-empty strings. Otherwise it gets 400 with the fixed message and the store is untouched. An accepted request stores a pending record under the fresh id and starts a worker with the normalised dates and the preferences, `{}` by default. |
| Handlers.SearchHotels | src/backend/app.py:154-186 | The same holds for hotels: the request is accepted exactly when the location is truthy and both dates are non-empty strings. A non-string date gives 500, and a rejected request leaves the store untouched. |
| Handlers.SearchYoutube | src/backend/app.py:187-217 | A body that is not a dict gives 500. The request is accepted exactly when `user_input` is truthy, and is otherwise rejected with 400 and `Missing required parameters. Please provide question.` |
| Handlers.AcceptedTaskIsPending | src/backend/app.py:135-148 | After any accepted POST the task is at once visible as pending. A fresh id adds exactly one task, no other task's status changes, and a refused POST changes no status. |
| Handlers.PendingIsVisible | src/backend/app.py:135-137 | Storing `{'status': 'pending'}` under an id makes that id report pending and leaves every other lookup as it was. |
| ApiClient.CheckSearchResponse | src/backend/api_client.py:20-22 | The response is returned unchanged exactly when its code is 200. Otherwise the call raises `Failed to search <kind>: <text>`. |
| ApiClient.Decide | src/backend/api_client.py:52-73 | A network error stops polling with `None` and its message, and a non-200 reply stops it with `None` and the reply text. On a 200 dict body, status `completed` returns `data` (`None` if absent). Status `failed` returns `None` with `error`, or `Unknown error` if absent. Any other status, a missing one included, keeps polling. A 200 body that is not a dict, and only that, makes `result.get` raise. |
| ApiClient.PollFrom | src/backend/api_client.py:48-73 | The poller is still looping exactly when every observation so far says continue. Otherwise it ends at the first observation that does not, returning that observation's result and notice, or crashing on it. |
| ApiClient.Poll | src/backend/api_client.py:48-73 | A poll from the start keeps looping exactly when no observation has been terminal. There is no bound on the number of attempts. |
| ApiClient.PollIgnoresLaterObservations | src/backend/api_client.py:59-73 | Once polling has returned, further observations do not change the outcome: no request is made after a terminal one. |
| ApiClient.PollResumes | src/backend/api_client.py:52-67 | While polling goes on, the outcome of a longer run is that of the new observations alone, with the request count shifted. |
| ApiClient.PollShift | src/backend/api_client.py:52-67 | Polling a run placed after earlier observations gives that run's outcome, with the request count shifted by their number. |
| ApiClient.RecordJson | src/backend/app.py:228 | The JSON of a record has no keys but `status`, `data` and `error`. Each is present exactly when the record holds it, and carries the enum's string, the stored data or the stored error text. |
| ApiClient.StatusResponse | src/backend/app.py:220-228 | The HTTP code the client sees is the code of the server's reply. |
| ApiClient.DecideOnServerReply | src/backend/api_client.py:55-70 | The poller continues on a pending or processing task. On a completed one it returns the stored data, or `None` when none was stored. On a failed one it returns `None` with the stored error, and an unknown task ends polling with the 404 text. |
| UserInputSummary.ExtractFenced | src/backend/user_input_summary.py:10-14 | There is no match exactly when no closing fence follows any opening fence. A match is the text between the first opening fence and the first closing fence after it (leftmost, shortest). |
| UserInputSummary.FencedBlockRoundTrip | src/backend/user_input_summary.py:10-12 | JSON text wrapped in a fenced block, after a preamble and before any trailer, is extracted exactly, provided neither the preamble nor the text contains a backtick. |
| UserInputSummary.CleanJsonResponse | src/backend/user_input_summary.py:8-19 | When the reply holds a fenced block, the text inside it is decoded. Without one, the whole reply is decoded. The result is the decoded value, or a raise of `JSON parsing error! Check the model's output.` when decoding fails. |
| UserInputSummary.CleanJsonOfFencedReply | src/backend/user_input_summary.py:8-19 | A fenced reply decodes exactly when its inner JSON does, and to the same value. |
| UserInputSummary.ReformatIsoDate | src/backend/user_input_summary.py:35-43 | A string that parses as `%Y-%m-%d`, zero-padded or not, becomes that date's `%A, %B %d, %Y` text. Any other value is kept. |
| UserInputSummary.IsoDateReformatted | src/backend/user_input_summary.py:38-41 | The `YYYY-MM-DD` text of any valid date becomes `Weekday, Month DD, YYYY` with that date's true weekday. |
| UserInputSummary.UnpaddedIsoDateReformatted | src/backend/user_input_summary.py:38-41 | A `YYYY-M-D` date, without zero padding, is rewritten to the same long text. |
| UserInputSummary.ReformatIsoDateIdempotent | src/backend/user_input_summary.py:35-43 | Reformatting a second time changes nothing. |
| UserInputSummary.CorrectFlightDates | src/backend/user_input_summary.py:32-44 | A missing `start_date` or `end_date`, or JSON that is not a dict, raises with the key that failed first. Otherwise only those two keys are rewritten, each by the reformatting above, and every other key keeps its value. |
| UserInputSummary.CorrectFlightDatesIdempotent | src/backend/user_input_summary.py:32-44 | Correcting already corrected flight details changes nothing. |
| UserInputSummary.FixWeekday | src/backend/user_input_summary.py:99-106 | A value is kept unless it is a string that splits on `, ` into exactly two parts, with the second followed by `, 2025` reading as `%B %d, %Y`. What changes stays a string. |
| UserInputSummary.FixWeekdayMakesItAgree | src/backend/user_input_summary.py:100-104 | Whatever the correction changes becomes `Day, <month-day>` with the original month-day text kept. `Day` is the weekday of that month and day in 2025. |
| UserInputSummary.FixWeekdayKeepsAgreeing | src/backend/user_input_summary.py:100-104 | A date whose weekday already agrees with 2025 is left exactly as it was. |
| UserInputSummary.FixWeekdayIdempotent | src/backend/user_input_summary.py:100-104 | Correcting an already corrected date changes nothing. |
| UserInputSummary.FixWeekdayNamesTheRightDay | src/backend/user_input_summary.py:100-104 | Whatever weekday (without a comma) was written in front of any month-day text that reads as a 2025 date, it is replaced by the weekday that date falls on. The month-day text is kept verbatim, whether unpadded (`April 7`) or in any case (`APRIL 17`). |
| UserInputSummary.FixWeekdayOfPaddedMonthDay | src/backend/user_input_summary.py:100-104 | In particular, the zero-padded `Month DD` of every 2025 date gets its true weekday. |
| UserInputSummary.CorrectDate | src/backend/user_input_summary.py:96-107 | A missing `date` key, or JSON that is not a dict, raises. Otherwise only `date` is corrected and every other key keeps its value. |
| UserInputSummary.CorrectDateIdempotent | src/backend/user_input_summary.py:96-107 | Correcting already corrected restaurant details changes nothing. |
| DateFormat.ParseIsoDate | src/backend/user_input_summary.py:38 | A string that parses as `%Y-%m-%d` gives a date `datetime` accepts. The year is the value of its four leading digits, the month is the value of the `%m` token up to the next dash, and the day is the value of the `%d` token after it. |
| DateFormat.ParseIsoOfParts | src/backend/user_input_summary.py:38 | Four digits, a dash, any one- or two-digit `%m` token, a dash and a text parse exactly when that text is a `%d` token naming a valid day. They then give that year, month and day. |
| DateFormat.IsoRoundTrip | src/backend/user_input_summary.py:38 | The zero-padded `%Y-%m-%d` text of every valid date parses back to that date. |
| DateFormat.UnpaddedIsoRoundTrip | src/backend/user_input_summary.py:38 | The `%Y-%m-%d` text of every valid date with month and day not zero-padded (`2025-5-1`) also parses back to that date. |
| DateFormat.LongTextIsNotIso | src/backend/user_input_summary.py:38-40 | A date already written as `%A, %B %d, %Y` does not parse as `%Y-%m-%d`. |
| DateFormat.FindMonth | src/backend/user_input_summary.py:102 | A month found, from the given one on, is one whose full name, in any case and followed by whitespace, opens the text. None is found only when no such month name does. |
| DateFormat.MonthNamesDistinct | src/backend/user_input_summary.py:102 | At most one month name can open a text, so `%B` reads the text in only one way. |
| DateFormat.DropSpaces | src/backend/user_input_summary.py:102 | The result is the suffix of the text after its leading whitespace, and does not itself start with whitespace. |
| DateFormat.ParseMonthDayYear | src/backend/user_input_summary.py:102 | A string that parses as `%B %d, %Y` gives a valid date whose month name opens the string. Its day and year are those the `%d, %Y` reading of the rest gives. |
| DateFormat.ParseDayYear | src/backend/user_input_summary.py:102 | A `%d, %Y` reading succeeds only on a `%d` token, then a comma, then whitespace and four digits, and gives that day and year. |
| DateFormat.MonthDayYearRoundTrip | src/backend/user_input_summary.py:102 | The `%B %d, %Y` text of every valid date parses back to that date. |
| DateFormat.ParseMonthDayYearOfParts | src/backend/user_input_summary.py:102 | A month name in any case, a space, a day token starting with a digit (padded or not), a comma, a space and four digits parse to exactly that date, when it exists. |
| Calendar.DaysBeforeYearCounts | src/backend/user_input_summary.py:38-40 | The closed-form day count before a year, as `toordinal` computes it, equals counting year lengths one year at a time. |
| Calendar.NextDayOrdinal | src/backend/user_input_summary.py:38-40 | Each valid date but the last is followed by a valid date whose ordinal is one greater. |
| Calendar.NextDayWeekday | src/backend/user_input_summary.py:40 | Consecutive dates fall on consecutive weekdays, wrapping from Sunday to Monday. |
| Calendar.KnownWeekdays | src/backend/user_input_summary.py:103 | 0001-01-01 is a Monday and 2025-01-01 a Wednesday. Together with the step from day to day, this fixes every weekday. |
| Youtube.KeepLinks | src/backend/Agent/youtube.py:34-37 | There are never more links than hrefs, and every link starts with `https://www.youtube.com` and has a non-empty remainder. |
| Youtube.KeepLinksAppend | src/backend/Agent/youtube.py:34-37 | Selection distributes over concatenation, so links keep page order. |
| Youtube.FillYoutubeSearch | src/backend/Agent/youtube.py:29-44 | Any error while loading the page gives `None`. A list is returned exactly when reading each of the first three results succeeds. It holds at most three links, namely the non-empty hrefs among those results, prefixed. |
| Youtube.VideoId | src/backend/Agent/youtube.py:81 | The id is a suffix of the URL without any `v=` in it. It is either the whole URL or immediately follows a `v=`, so it is the part after the last `v=`. |
| Youtube.Collect | src/backend/Agent/youtube.py:80-83 | Calls run in order. Either all return and their results are kept in order, or the first one that raises propagates its message. |
| Youtube.GetContent | src/backend/Agent/youtube.py:78-84 | The content is produced exactly when every transcript fetch returns. Otherwise the first failing fetch's exception propagates. |
| Youtube.NoUrlsNoContent | src/backend/Agent/youtube.py:84 | An empty URL list gives the empty string. |
| Youtube.ContentOfConcatenation | src/backend/Agent/youtube.py:78-84 | When both URL lists fetch successfully and each yields at least one transcript item, the content of their concatenation is the first content, one space, then the second, so URL order is reading order. |
| ChatModel.ConvertedIsKeptEntries | src/backend/config/model.py:12-17 | Read back as role and content, the converted history is exactly the user and assistant messages, in order. Other roles are dropped, and nothing is altered or invented. |
| ChatModel.ChatHistory | src/backend/config/model.py:7-19 | The history is the converted messages followed by the new user input as a human message. Its length is the number of user and assistant messages plus one. |
| Frontend.FillMissing | src/frontend/frontend.py:26-52 | Only absent keys are added. Every present key keeps its value, and each added key gets its default. |
| Frontend.InitializeSessionState | src/frontend/frontend.py:26-52 | The session gains exactly the nine default keys it lacked and keeps every value it had. |
| Frontend.FillMissingWhenFull | src/frontend/frontend.py:26-52 | When every default key is present already, nothing changes. |
| Frontend.InitializeSessionStateIdempotent | src/frontend/frontend.py:26-52 | Initialising again, as every Streamlit rerun does, changes nothing. |
| Frontend.NewSessionDefaults | src/frontend/frontend.py:26-52 | A new session gets exactly the nine keys, and its travel context is the initial one. |
| Frontend.InitialContextShape | src/frontend/frontend.py:44-52 | The initial travel context has exactly the six keys, each `Not specified`. |
| Frontend.FlightPreferences | src/frontend/frontend.py:74-78 | The preferences have the keys budget, class and airlines. The airlines list is `[airline]` when the airline is truthy and `[]` otherwise. |
| Frontend.HotelPreferences | src/frontend/frontend.py:165-171 | The preferences have exactly the five keys, carrying check-in, check-out, rating, the price per night and amenities, each `None` when not given. |
| Frontend.CheckFlightDetails | src/frontend/frontend.py:54-67 | The search proceeds exactly when origin, destination and both dates are non-empty. Missing airports are reported first, with the airports message. With both airports present, a missing date gives the dates message. |
| Frontend.CheckHotelDetails | src/frontend/frontend.py:149-158 | The search proceeds exactly when the location is truthy, and neither date is checked. |
| Frontend.SearchTouchesSessionOnlyOnSuccess | src/frontend/frontend.py:69-126 | A search that fails at any point leaves the session untouched. This covers a raising call, a non-200 reply, a falsy poll result and a raising summary. A search succeeds exactly when every step goes through. It then changes only `travel_context`, by merging the updates, and sets `switch_to_result`. |
| Frontend.SuccessMergesUpdates | src/frontend/frontend.py:115-122 | After a success, the travel context is the old one with the search's updates merged in. |
| Frontend.MergeOverwrites | src/frontend/frontend.py:115-121 | `dict.update` makes the updates win and keeps every other key. |
| Frontend.FlightSuccessContext | src/frontend/frontend.py:115-121 | A successful flight search sets origin, destination, both dates and the flights (a truthy poll result), and adds no other key. |
| Frontend.FlightSearchKeepsOtherContext | src/frontend/frontend.py:115-121 | Every other context field keeps its value, the hotels among them. |
| Frontend.HotelSuccessContext | src/frontend/frontend.py:206-211 | A successful hotel search sets destination, both dates and the hotels, and adds no other key. |
| Frontend.HotelSearchKeepsOtherContext | src/frontend/frontend.py:206-211 | Every other context field keeps its value, the origin and the flights among them. |
| Frontend.FormatDate | src/frontend/frontend.py:19-22 | Any value that is not a `datetime` is returned unchanged. A `datetime` becomes a string. |
| Frontend.FormatDateReadsBack | src/frontend/frontend.py:19-22 | A formatted date reads back with `%B %d, %Y` as the same date. |
| Scenarios.CheckedFlightRequestIsAccepted | src/backend/app.py:124-133 | Flight details that pass the front end's checks always make a request the server accepts. The worker receives the preferences dict the front end built. |
| Scenarios.HotelPreferencesReachTheWorker | src/frontend/frontend.py:165-179 | Hotel details with a location and both dates are accepted by the server. The worker receives the front end's preferences dict, rating and amenities included. |
| Scenarios.HotelWithoutCheckInFailsOnServer | src/backend/app.py:160 | Hotel details without a check-in date pass the front end's check. Yet the server's `replace` on the null date raises, so the request ends in a 500, the store is untouched, and the client raises. |
| Scenarios.PollSeesWorkerOutcome | src/backend/api_client.py:52-65 | Suppose a client polls a fresh task before the worker runs, during processing, and after it. On completion it returns the stored data after three requests, and on failure `None` with the stored error. |
| Text.FindFrom | src/backend/user_input_summary.py:10 | The position found is the first occurrence at or after the start. None is found only when the pattern does not occur there. |
| Text.SplitPartsAvoidSeparator | src/backend/user_input_summary.py:100 | No part of a split contains the separator. |
| Text.JoinSplit | src/backend/user_input_summary.py:100-104 | Joining the parts of a split with the same separator gives back the string. |
| Text.SplitOfPair | src/backend/user_input_summary.py:100 | Take a first text containing no character that opens the separator, then the separator, then a second text not containing the separator. The whole splits into exactly those two texts. |
| Text.ReplaceIsJoinOfSplit | src/backend/app.py:126-127 | Replacing every occurrence is the same as splitting and joining with the replacement. |
| Text.ReplaceShrinks | src/backend/app.py:126-127 | A shorter replacement never lengthens the text, and shortens it whenever the pattern occurs. |
| Text.ReplaceUnchangedIff | src/backend/app.py:126-127 | A replacement by any different text, shorter, of equal length or longer, changes the string exactly when the pattern occurs. |
| Text.ReplaceGrows | src/backend/app.py:126-127 | A longer replacement never shortens the text, and lengthens it whenever the pattern occurs. |
| Text.LastPartIsSuffixAfterSeparator | src/backend/Agent/youtube.py:81 | `split(sep)[-1]` is a suffix with no separator in it, and is the whole string or follows a separator. |
| Text.JoinAppend | src/backend/Agent/youtube.py:84 | Joining two non-empty lists is joining each and putting one separator between them. |

## Left out

- Browser automation, the LLM calls, `json.loads`, Pydantic validation and the transcript service: these are foreign, non-deterministic calls. Their outcomes are parameters: a `Step` that returns or raises, or an `Option` for a decoder.
- Threads, `task_lock`, the asyncio loop, `time.sleep(2)` and `uuid.uuid4()` are left out. Each store write and each lookup is one atomic step, and the fresh id is a parameter.
- TaskStore.GetStatus: `get_status` runs `jsonify(result)` outside `task_lock`, while a worker may be changing the same dict in place with `update`. A failure of that serialisation would give the 500 of the `except`. The model treats the lookup and the serialisation as one step, so it has no such 500.
- Flask routing, `requests` transport and Streamlit rendering are left out. The progress texts are reduced to which message is shown, with `task_type.capitalize()` dropped. The 500 replies do not carry the exception text.
- Frontend.RunSearch: the `requests.post` call and its JSON decoding are one input, and the summary LLM call is another. `response.json().get("task_id")` is modelled only as a check that the body is a dict.
- DateFormat.ParseIsoDate: only ASCII digits and whitespace are recognised, whereas Python's `strptime` regex also accepts other Unicode digits and spaces. The locale is taken to be C/English.
- DateFormat.ParseMonthDayYear: the same ASCII restriction applies. Case folding of month names is ASCII-only, whereas `re.IGNORECASE` also matches `ſ` for `s` and the Kelvin sign for `k`.
- DateFormat.LongText, DateFormat.MonthDayYearText (and so UserInputSummary.ReformatIsoDate, Frontend.FormatDate, DateFormat.IsoRoundTrip): `%Y` is printed with four digits. Some platforms print years below 1000 without padding, which this model does not follow.
- Values.Value: there is no float case, so JSON numbers with a fraction (a falsy `0.0` in a request field, say, or floats in scraped data) cannot be represented. Only `int` is modelled.
- Frontend.FormatDate: a `datetime`'s time of day is ignored, since `%B %d, %Y` does not print it.
- Youtube.FillYoutubeSearch: starting the browser, navigating and typing the query are one input, the page outcome. Closing the browser in `get_youtube_urls` is left out.
- `clean_response` and `format_review_response`, the regex formatters of the video-review tab, are left out because they are unused by the flows modelled here.
- `constant.py` holds only display strings, and only the three missing-field messages are modelled.
- The conversion of the stored chat messages is modelled, but streaming the model's reply (`model.stream`) is not.
- The code implements no worker pools, task eviction or poll timeouts, so none are modelled.
