# Verified model of rload

rload is an HTTP/1.1 load generator. This project models the parts of it that decide what a run means: the worker and
connection state machine, the streaming response decoder, the mergeable metrics, the allocation of replay entries, the
pacers, the replay whitelist, request validation and encoding, and the calendar arithmetic of the log reader. Check
everything with `dafny verify dfyconfig.toml`.

Parts of rload that update their fields in place are classes here, and every method is proved equal to a function on
values; the properties are lemmas about those functions, about all inputs, all runs, or all reachable states.

| file | what it holds |
|---|---|
| `Prelude.dfy`, `Arithmetic.dfy`, `Methods.dfy` | options, bytes, sums, quotients, the request methods |
| `ResponseHead.dfy`, `Decoder.dfy` | the head parser, the streaming decoder as functions, the one-shot reference parser |
| `HeadProofs.dfy`, `Utf8.dfy` | what a response head means, line by line, and which bytes are text |
| `DecoderProofs.dfy`, `ChunkedRoundTrip.dfy`, `Framing.dfy` | refinement under every segmentation, its exact limit, the chunked round trip, and when each framing completes |
| `ResponseTexts.dfy` | whole responses as text: what their fields announce is when and how they complete |
| `ResponseDecoder.dfy` | the decoders as objects that buffer and drain in place |
| `Connection.dfy`, `ConnectionObject.dfy` | the operations of a connection, and the connection as an object |
| `WorkerSpec.dfy`, `WorkerSteps.dfy` | the worker invariant, what it says about whole runs, and the steps that keep it |
| `WorkerRules.dfy`, `Worker.dfy` | what the worker does for each event, timer and turn of its loop as functions that keep the invariant, and the worker as an object that does exactly that |
| `Timers.dfy`, `Outcomes.dfy` | when timers fire, and what each event and timer counts, records and does to its connection |
| `WorkerRuns.dfy` | opening connections, a worker's whole run, and what it reports whether or not it ends |
| `WorkerProgress.dfy`, `Isolation.dfy` | how many failures may still come from any state on, and exactly which of them end a run |
| `Run.dfy` | splitting limits, dealing them to workers, running them and merging their counters |
| `Interleaving.dfy` | workers taking turns in any order on one replay sequence, and what they complete of it |
| `Replay.dfy` | the two replay orders, the shared cursor, Fisher-Yates rounds, rejection sampling, the packed method and URI range |
| `UriTop.dfy`, `UriTopProofs.dfy`, `UriTopObject.dfy` | the Space-Saving sketch, its bounds over merge trees, the sketch as an object |
| `Latency.dfy`, `RunSummary.dfy` | histograms, the coordinated-omission correction, the run summary |
| `Reports.dfy` | what the workers answered, recorded in their summaries and merged: the report of a run and of a replay |
| `Pacers.dfy` | fixed-rate, stage and timestamp pacing, and reserving under the cursor lock |
| `Glob.dfy`, `Encoder.dfy`, `CivilDate.dfy` | the whitelist matcher, request validation and encoding, calendar dates |

The environment is an input. Socket writes, reads, connection attempts and clock readings are scripts that a worker
consumes; a script may be any list, and a worker that outlives its script is `Unfinished`. An event that writes the rest of
one request and, after its answer, the beginning of the next has a script for each of the two. The clock never goes back
and stands still while one event is handled. Events reach only registered sockets.

## Where the code and its documentation differ

The model follows the code.

* `docs/QUALITY_ACCEPTANCE.md:31` says that runtime transport failures are isolated, and the repository's own `README.md:155-158` that a
  request-limited run is never failed as a whole. An event ends a run through a request-limited connection exactly when
  it gets to read and reads a malformed response, or a complete one after which the next request meets a refused
  connection or a refused write (`Isolation.EventEndsTheRun`, and `Isolation.WorkerEventEndsTheRun` for the worker); a
  due deadline never does (`Isolation.DeadlineNeverEndsTheRun`), and a due slot exactly when a connection closed to wait
  is refused (`Isolation.SlotEndsTheRun`). `Isolation.ClosedAndRefused` gives the runs of two requests that end so: the
  server answers the first with a bare status line, closes, and refuses the next connection.
* The repository's own `README.md:148` says that `-T` controls the connection and request timeout. A connection closed to
  wait for its slot and opened again there is given no timer (`src/engine/mod.rs:1054`), so nothing times it out until
  its socket becomes writable (`WorkerRules.ReopenedWithoutTimer`, `WorkerRules.NoTimerWhileHandedOver`). These are the
  only unfinished connections without a timer (`WorkerSpec.NoTimerMissed`).
* The 64 KiB checks compare the whole buffer before a terminator is seen. The decoder therefore answers the same under
  every segmentation exactly when each head or trailer terminator starts at or before 65533 or past 65536 and each
  chunk-size line ends at or before 65535 or past 65536, or when the one-shot answer already is the refusal
  (`DecoderProofs.SegmentationExact`).
* The glob matcher tests for a literal byte before it looks for a star. It agrees with the meaning of all patterns exactly
  for values without a star byte before their last byte (`Globs.GlobIsExact`); `/*` does not match `/*c`.
* The log reader bounds most numbers only from above. It accepts a 31st day in every month, negative days, hours, minutes
  and seconds, and a second 60, and takes such a reading for the one existing reading with the same timestamp; it keeps
  a reading exactly when that one exists itself (`CivilDate.AcceptedReadings`).

## Model

| member | source | states |
|---|---|---|
| Utf8.TextIsRead | src/protocol/response.rs:136-137 | bytes are read as a text exactly when they are its encoding in one to four bytes a character |
| HeadProofs.Blanks | src/protocol/response.rs:171 | spaces and tabs are blanks, and no visible character is |
| HeadProofs.NumbersAreRead | src/protocol/response.rs:143-147 | a status or a length is read as n exactly when it is the decimal digits of n, perhaps after zeros or a plus sign, and n is within the limit |
| HeadProofs.TokensAreFound | src/protocol/response.rs:176-184 | a field line has a token exactly when its name is the field's in any case and some part of its comma-separated value is the token in any case with blanks around it |
| HeadProofs.FramingIs | src/protocol/response.rs:151-160 | the framing is chunked exactly when some transfer-encoding line lists chunked; otherwise it is a length of n exactly when the first content-length line, in any case and with blanks, announces n, and no later one is looked at |
| HeadProofs.HeadIsRead | src/protocol/response.rs:135-168 | a head of a status line and fields, on its bytes, is read exactly when its code is a number of at most 65535, with that status, with closing exactly for a close token or for HTTP/1.0 without keep-alive, and with the framing its fields announce |
| Decoder.FindFromIsFirst | src/protocol/response.rs:296-300 | the windowed search reports the first occurrence and none when there is none |
| DecoderProofs.DrainIsParse | src/protocol/response.rs:206-283 | draining the chunk buffer from any phase answers as the one-shot chunk parser on the same bytes |
| DecoderProofs.DrainKeepsMeaning | src/protocol/response.rs:206-283 | what a drained decoder still waits for, fed later, parses as if nothing had been drained |
| DecoderProofs.ChunkResultIsFinal | src/protocol/response.rs:206-294 | a chunked answer on a prefix is the answer on the whole, or is an over-length refusal made too early |
| DecoderProofs.UnclearCut | src/protocol/response.rs:211-214 | control data that ends in the narrow band at the limit can be cut so that the decoder refuses it |
| DecoderProofs.FeedSimulates | src/protocol/response.rs:28-87 | every feed of every reachable decoder state answers as the one-shot parser on all bytes fed so far |
| DecoderProofs.OneFeedIsParse | src/protocol/response.rs:28-87 | one feed of a whole response is the one-shot parse |
| DecoderProofs.EmptyFeedIsNoOp | src/protocol/response.rs:28-87 | an empty feed without end of input answers nothing and forgets nothing |
| DecoderProofs.ResultIsFinal | src/protocol/response.rs:28-87 | the first result is the result of the whole stream, except for an over-length refusal made too early |
| DecoderProofs.StreamSimulates | src/protocol/response.rs:28-87 | feeding any segments until the first result answers as the one-shot parse, or refuses too early |
| DecoderProofs.SegmentationIndependence | src/protocol/response.rs:28-294 | for input clear of the limit, every segmentation gives the one-shot answer |
| DecoderProofs.UnclearStreamRefuses | src/protocol/response.rs:37-41 | input that is not clear of the limit has a segmentation that is refused |
| DecoderProofs.SegmentationExact | src/protocol/response.rs:28-294 | all segmentations agree with the one-shot parse if and only if the input is clear of the limit or the one-shot answer is that refusal |
| ChunkedRoundTrip.ReadsHex | src/protocol/response.rs:220-226 | every hexadecimal chunk size is read back as the number it encodes |
| ChunkedRoundTrip.ExtensionIsIgnored | src/protocol/response.rs:217-226 | what follows a semicolon in a chunk-size line does not change the size |
| ChunkedRoundTrip.EncodedPrefix | src/protocol/response.rs:206-283 | the parser completes on the whole chunked encoding with its total length, and on no strict prefix |
| ChunkedRoundTrip.ChunkedRoundTrip | src/protocol/response.rs:206-294 | any list of non-empty chunks, encoded after a chunked head with or without trailers, decodes under every segmentation to the sum of the lengths, at the last byte and not before |
| ChunkedRoundTrip.DrainHeld | src/protocol/response.rs:234-246 | draining never counts more body bytes than were buffered |
| ChunkedRoundTrip.FeedHeld | src/protocol/response.rs:28-87 | the decoded length never exceeds the bytes fed, whatever the framing |
| FramingProofs.LengthDelimited | src/protocol/response.rs:112-124 | under every segmentation, a response with a length of n completes with n when n body bytes have arrived and not before |
| FramingProofs.HeadHasNoBody | src/protocol/response.rs:57-61 | under every segmentation, a response to HEAD completes with its head, whatever it announces |
| FramingProofs.CloseDelimitedBody | src/protocol/response.rs:127-130 | without a length, only the end of input completes the response, with all bytes as its body |
| ResponseTexts.AnnouncedLength | src/protocol/response.rs:28-124 | a response whose field lines announce a length of n completes, under every segmentation, with its code and n once n body bytes have arrived and not before, and closes exactly as its version and connection fields say |
| ResponseTexts.AnnouncedChunks | src/protocol/response.rs:28-294 | a response whose field lines list the chunked coding decodes, under every segmentation, to the sum of its chunks, at the last byte of the encoding |
| ResponseTexts.NothingAnnounced | src/protocol/response.rs:127-130 | a response that announces neither completes only at the end of input, with all bytes after its head |
| ResponseDecoders.ChunkedDecoder.Feed | src/protocol/response.rs:206-283 | the in-place chunk decoder answers and ends up exactly as the drain function says |
| ResponseDecoders.ResponseDecoder.ConsumeBody | src/protocol/response.rs:76-86 | the body part of a feed, in place, with the outcome joined to the stored head |
| ResponseDecoders.ResponseDecoder.Feed | src/protocol/response.rs:28-74 | the in-place response decoder answers and ends up exactly as the feed function says |
| Connections.ConnectFrom | src/engine/connection.rs:633-644 | a connection attempt takes the first reachable address from its start on, and fails only if there is none |
| Connections.Dial | src/engine/connection.rs:320-334 | at most the remaining attempts are made, all of them when every one fails |
| Connections.DialStops | src/engine/connection.rs:320-334 | every attempt but the last reached no address, and the last reached the first reachable one from its start on, or none |
| Connections.OpenedIsFresh | src/engine/connection.rs:58-91 | an opened connection has its first request, its limit and its address, and nothing written, started or read |
| Connections.TransmitTakes | src/engine/connection.rs:113-139 | the offset grows by the sum of what the socket takes before the first write it does not take, up to the length; the write fails exactly when that one does before the end |
| Connections.TransmitContinues | src/engine/connection.rs:118-135 | the bytes a socket takes follow on from those taken before, without a gap and without repetition |
| Connections.WriteStarts | src/engine/connection.rs:93-112 | an early request is held back unwritten; a due one is started, now if it was not before, and the generation grows exactly on a change |
| Connections.WatchesWrites | src/engine/connection.rs:151-164 | a registered connection is watched for writability exactly when it has something to write now |
| ConnectionObjects.Connection.WriteRequest | src/engine/connection.rs:93-140 | writing in place is the writing the offsets above are about |
| ConnectionObjects.Connection.ReadResponse | src/engine/connection.rs:186-219 | reading feeds the decoder until a response, an error, end of input or would-block, and counts the bytes |
| ConnectionObjects.Connection.FinishResponse | src/engine/connection.rs:241-279 | a completed response is counted once; the connection is done at its limit and otherwise continues with the next entry |
| Connections.NextBegins | src/engine/connection.rs:250-277 | the next request begins with a fresh decoder, on the first reachable address from nothing when the response closes, and otherwise on the same socket, started at once unless its slot is still to come |
| ConnectionObjects.Connection.RetryAddress | src/engine/connection.rs:307-363 | the same request on the next reachable address, within the attempts left |
| Connections.RetryGoesOn | src/engine/connection.rs:307-363 | a retry starts at the address after the current one and takes the first reachable one; every attempt spent before reached none, and it gives up only after three |
| Connections.RetryKeepsRequest | src/engine/connection.rs:307-363 | a retry keeps what is written, read and started of its request |
| ConnectionObjects.Connection.RecoverRequest | src/engine/connection.rs:372-423 | the same request from its first byte on a new connection, within the attempts left |
| Connections.RecoveryStartsOver | src/engine/connection.rs:372-423 | a recovery starts at the first address, and then over: nothing written, nothing read, not started |
| ConnectionObjects.Connection.DeferReconnect | src/engine/connection.rs:425-441 | a failed connection whose slot has not come is closed until then, once per request |
| Connections.DeferWaits | src/engine/connection.rs:425-441 | a connection is deferred exactly when it has not started and its slot is still to come; it keeps its request and spends no attempt |
| ConnectionObjects.Connection.ResumeAtPace | src/engine/connection.rs:443-464 | at its slot a deferred connection is reopened and any other is handed to writability |
| Connections.ResumeReopens | src/engine/connection.rs:443-464 | a deferred connection is reopened at the first reachable address, and refused only when none is |
| ConnectionObjects.Connection.StopIfExpired | src/engine/connection.rs:281-290 | an unstarted connection past its limit is done and no longer registered |
| ConnectionObjects.Connection.StopAfterDurationError | src/engine/connection.rs:466-480 | a failed connection past its deadline is done and deregistered |
| ConnectionObjects.Connection.Expire | src/engine/connection.rs:509-520 | which of the three expirations a due deadline means |
| Isolation.EventEndsTheRun | src/engine/mod.rs:771-991 | exactly which events end a run through a request-limited connection, and with which failure: those that read a malformed response, or a complete one whose next request meets a refused connection or write |
| Isolation.NextWriteEndsTheRun | src/engine/connection.rs:267-277 | in particular, when the request is written and answered within one event and the first write of the next one fails |
| Isolation.ReadEndsTheRun | src/engine/mod.rs:910-990 | the same for the readable part alone |
| Isolation.WorkerEventEndsTheRun | src/engine/mod.rs:771-776 | the same for a worker in any reachable state: no other event ends its run |
| Isolation.DeadlineNeverEndsTheRun | src/engine/mod.rs:993-1039 | a due deadline of a request-limited connection never ends the run |
| Isolation.SlotEndsTheRun | src/engine/mod.rs:1041-1055 | a due slot ends it exactly when the connection was closed to wait and every address refuses it |
| Isolation.DurationFailuresEndTheRun | src/engine/connection.rs:348-350 | on duration-limited connections recovery and retry end the run exactly when the one attempt is refused, for recovery with time left |
| Isolation.StatusLineHead | src/protocol/response.rs:133-168 | a bare status line of two words parses to its status, without a length and without closing |
| Isolation.ClosingRead | src/protocol/response.rs:127-130 | a response without a length, and then the end of input, is read as complete and closed |
| Isolation.ClosedAndRefused | src/engine/connection.rs:258-261 | from its opening on, a run of two requests fails with a refused connection when the server answers once, closes and refuses the next connection |
| Isolation.ClosedAndRefusedHappens | src/engine/connection.rs:258-261 | there is such a run |
| Isolation.AnsweredAndFinished | src/engine/mod.rs:704-1058 | a run of one request on a server that answers and closes finishes, with that one answer recorded and nothing abandoned |
| WorkerSpec.MatchingInsert | src/engine/mod.rs:1063-1078 | pushing a timer adds exactly one live entry, for its own connection and generation |
| WorkerSpec.StepKeepsInv | src/engine/mod.rs:757-1056 | a step of one connection with balanced accounts and one live timer keeps the invariant of the whole worker |
| WorkerSpec.TickKeepsInv | src/engine/mod.rs:992-1040 | time passing keeps the invariant |
| WorkerSpec.Conservation | src/engine/mod.rs:757-1058 | at every moment completed, abandoned and remaining requests are exactly the requests of the limits, and with no active connection none remains |
| WorkerSpec.RecoveryBound | src/engine/connection.rs:307-423 | at every moment at most three recovery attempts for each completed request and each connection in trouble; at the end only those given up are in trouble |
| WorkerSpec.FailureBound | src/engine/mod.rs:771-1055 | at every moment, ended or not, the failures handled are bounded by the completed requests and the connections, so no run fails for ever |
| WorkerSpec.DrawnIsFinished | src/engine/connection.rs:296-305 | with nothing abandoned, exactly the entries drawn were completed, one for each request of the limits |
| WorkerSpec.NoTimerMissed | src/engine/mod.rs:758-770 | every unfinished connection, but one just handed over to writability at its slot, is due no earlier than the wake-up time: at its start plus the timeout once started, before that at its connecting plus the timeout or the load deadline, and at its slot or the load deadline while it waits |
| WorkerSpec.LiveEntryIsDue | src/engine/connection.rs:482-508 | every live queue entry, head or not, lies at exactly that time and in the queue for its connection's state |
| WorkerSpec.ActiveIsUnfinished | src/engine/mod.rs:750 | the count of active connections is the number of unfinished ones, and zero exactly when all are done |
| WorkerSpec.WrittenInOrder | src/engine/connection.rs:113-139 | at every moment the sockets have taken exactly the bytes of the request up to the offset, each once and in order, and an unfinished one is watched for writability |
| Timers.DeadlineHeadIsDue | src/engine/connection.rs:482-520 | a timeout fires only from the start of its request plus the timeout on, a connection timeout only from connecting plus the timeout on, and the end of the load only from the load deadline on |
| Timers.SlotHeadIsDue | src/engine/connection.rs:498-508 | a slot fires only from the time of its request, or from the load deadline, on |
| Timers.DeadlinesAreMet | src/engine/mod.rs:993-1039 | after the deadlines due by some instant have fired, every request still running has until later to answer |
| Timers.SlotsAreMet | src/engine/mod.rs:1041-1055 | after the slots due by some instant have fired, every connection still waiting for one waits for a later one |
| Timers.RoundMeetsTimers | src/engine/mod.rs:757-1056 | after a whole turn of the loop both hold for the instants of its timer phases |
| WorkerSteps.ScheduleCovers | src/engine/mod.rs:1063-1078 | after a change of generation, scheduling leaves exactly one live timer at the right time |
| WorkerSteps.WriteIsStep | src/engine/mod.rs:863-908 | writing, with or without a change of generation, leaves the connection covered |
| WorkerSteps.FinishIsStep | src/engine/mod.rs:968-986 | finishing a response counts it once, moves the drawn entry to the finished ones, and covers the next request |
| WorkerSteps.DeadlineFires | src/engine/mod.rs:993-1001 | a live due deadline belongs to a registered connection that does not wait for a slot |
| WorkerSteps.PacingFires | src/engine/mod.rs:1041-1054 | a live due slot leaves its connection done or handed over to writability, with no timer left behind |
| WorkerRules.RecoverRuleIsStep | src/engine/mod.rs:780-813 | the recovery block keeps the invariant on every path; its error return is unreachable, and a refused connection ends only duration-limited runs |
| WorkerRules.RetryRuleIsStep | src/engine/mod.rs:825-834 | the retry block keeps the invariant on every path |
| WorkerRules.DeferOrRetryRuleIsStep | src/engine/mod.rs:848-861 | deferring to the slot or retrying keeps the invariant |
| WorkerRules.WritableRuleIsStep | src/engine/mod.rs:836-909 | the writable part of an event keeps the invariant, and goes on only with a connection that can be read |
| WorkerRules.ReadableRuleIsStep | src/engine/mod.rs:910-990 | the readable part keeps the invariant; a request-limited run ends only at a completed or malformed response |
| WorkerRules.EventRuleIsStep | src/engine/mod.rs:771-991 | every event of a registered connection, whatever the sockets answer, keeps the invariant or ends the run with a refused connection, a refused write or an invalid response |
| WorkerRules.ExpiryRuleIsStep | src/engine/mod.rs:993-1039 | a live due deadline keeps the invariant; the return at line 1017 is unreachable |
| WorkerRules.SlotRuleIsStep | src/engine/mod.rs:1041-1055 | a live due slot stops the connection or hands it over to writability, and fails only for a connection closed to wait |
| WorkerRules.ReopenedWithoutTimer | src/engine/mod.rs:1054 | a connection closed to wait and reopened at its slot has a deadline that is in no queue |
| WorkerRules.NoTimerWhileHandedOver | src/engine/mod.rs:758-770 | it stays so as long as its generation does |
| WorkerRules.StaleSlotIsStale | src/engine/mod.rs:1091-1103 | a pacing head of the current generation always is its connection's slot |
| WorkerRules.EventOn | src/engine/mod.rs:771-776 | every event of the worker keeps the worker invariant: nothing is registered or deregistered twice |
| WorkerRules.EventsInOrder | src/engine/mod.rs:771-776 | events are handled one after the other, each in the state the ones before leave, up to the first that ends the run |
| WorkerRules.DeadlineOn | src/engine/mod.rs:993-1001 | every due deadline, stale or live, keeps the worker invariant |
| WorkerRules.SlotOn | src/engine/mod.rs:1041-1049 | every due slot, stale or live, keeps the worker invariant |
| WorkerRules.CleanDeadlines | src/engine/mod.rs:1080-1089 | cleaning keeps the invariant and ends at a live head |
| WorkerRules.CleanSlots | src/engine/mod.rs:1091-1103 | the same for the pacing queue |
| WorkerRules.RoundsOn | src/engine/mod.rs:757-1057 | the main loop keeps the invariant and ends, if the script lasts, with no active connection |
| Outcomes.EventRaises | src/engine/mod.rs:777-966 | an event counts exactly the failure that it is: connecting before a request has started, writing while it is partly written, reading after that, or none |
| Outcomes.ExpiryRaises | src/engine/mod.rs:993-1039 | a due deadline counts a timeout for a started request, a failure to connect before that, and nothing at the end of the load |
| Outcomes.ErrorReopens | src/engine/mod.rs:777-835 | after a socket error a started request starts over on a new connection, an early one waits for its slot, and any other goes on at another address, or the connection is done |
| Outcomes.ExpiryReopens | src/engine/mod.rs:993-1039 | after a due deadline a started request starts over, and one that has not started goes on at another address, or the connection is done |
| Outcomes.ReadIsParsed | src/engine/connection.rs:186-239 | a read answers as the one-shot parser on the bytes since the request began, waits for more, or is lost, and counts exactly the bytes received |
| Outcomes.DecoderGoesOn | src/engine/connection.rs:186-219 | a new decoder stands for no bytes, and one that waits on stands for those received as well |
| Outcomes.ResponseIsRecorded | src/engine/mod.rs:968-981 | a response is recorded once, with its entry, its status and the time since its request started; all bytes received and the length of its body are added |
| Outcomes.BytesAreCounted | src/engine/mod.rs:910-966 | a read without a response adds its bytes and records nothing |
| WorkerProgress.EventAdvances | src/engine/mod.rs:771-991 | every event of a request-limited connection counts at most one failure; a failure ends the connection or leaves fewer requests, attempts or deferrals, and nothing else leaves more |
| WorkerProgress.ExpiryIsPaid | src/engine/mod.rs:993-1039 | every live due deadline is a failure that ends the connection or leaves fewer attempts or deferrals |
| WorkerProgress.SlotAdvances | src/engine/mod.rs:1041-1055 | a live due slot counts no failure and leaves no more of them |
| WorkerProgress.EventSettles | src/engine/mod.rs:771-991 | an event of the worker never raises the failures so far plus those still possible |
| WorkerProgress.FailuresToCome | src/engine/mod.rs:757-1057 | from any reachable state on and for every script, at most eight more failures for each request to come and eight for each unfinished connection |
| WorkerRuns.OpenKeeps | src/engine/mod.rs:712-745 | opening or giving up one more limit keeps the invariant and the limits served |
| WorkerRuns.OpeningsKeep | src/engine/mod.rs:712-756 | a worker that connected everything satisfies its invariant, and one cut short is within the bounds |
| WorkerRuns.DialMeans | src/engine/mod.rs:715-745 | a connection opens at the first attempt that reaches an address; a request limit is given up after three that reach none, and a duration limit when its deadline has passed |
| WorkerRuns.RefusalsAreCounted | src/engine/mod.rs:715-745 | opening counts one connect error for each attempt that reached none, and nothing else |
| WorkerRuns.RunIsBounded | src/engine/mod.rs:757-1058 | in every reachable state the requests, recoveries and failures are within the bounds of the limits |
| WorkerRuns.EndOfRun | src/engine/mod.rs:757-1058 | the invariant at the end of a run is the run's report |
| WorkerRuns.RunOnReports | src/engine/mod.rs:704-1058 | for every script, a run that finishes reports all requests accounted for, one that does not is within the bounds, and one that fails does so in one of three ways |
| Workers.Worker.Recover | src/engine/mod.rs:780-813 | the recovery block changes the connection, the counters, the queues and the active count exactly as the rule says |
| Workers.Worker.Retry | src/engine/mod.rs:825-834 | the retry block does exactly what the rule says |
| Workers.Worker.OnError | src/engine/mod.rs:777-835 | a socket error is recovered, deferred, retried or given up and counted in its category, exactly as the rule says |
| Workers.Worker.OnWritable | src/engine/mod.rs:836-909 | the writable part does exactly what the rule says |
| Workers.Worker.OnReadable | src/engine/mod.rs:910-990 | the readable part does exactly what the rule says |
| Workers.Worker.Finish | src/engine/mod.rs:968-986 | a completed response is counted once, and the next request scheduled, exactly as the rule says |
| Workers.Worker.HandleEvent | src/engine/mod.rs:771-991 | the whole worker after an event is the one the rules give, and its invariant holds |
| Workers.Worker.FireDeadline | src/engine/mod.rs:993-1039 | the whole worker after a due deadline is the one the rules give |
| Workers.Worker.FirePacing | src/engine/mod.rs:1041-1055 | the whole worker after a due slot is the one the rules give |
| Workers.Worker.DiscardStaleDeadlines | src/engine/mod.rs:1080-1089 | the loop removes exactly the stale heads |
| Workers.Worker.DiscardStalePacing | src/engine/mod.rs:1091-1103 | the loop removes exactly the stale heads |
| Workers.Worker.NextWake | src/engine/mod.rs:758-769 | the poll sleeps until the earliest current timer: none is missed but those of connections just handed over, and none wakes the worker for nothing |
| Workers.Worker.RunRound | src/engine/mod.rs:757-1056 | one turn of the loop is the turn the rules give |
| Workers.Worker.RunRounds | src/engine/mod.rs:757-1057 | the loop ends, stays unfinished or fails exactly as the rules give for the whole script |
| Workers.Worker.Connect | src/engine/mod.rs:715-745 | the attempts, the refusals counted and the connection are exactly those of the rule: the first attempt that reaches an address opens, and a request limit is given up after three |
| Workers.Worker.Open | src/engine/mod.rs:712-756 | opening ends as the rules give and leaves exactly the worker they give, its first deadlines queued |
| Workers.Worker.Run | src/engine/mod.rs:704-1058 | the result and the counters are exactly those of the run the rules give; a finished worker reports, an unfinished one is within the bounds, and a failure is one of three |
| Runs.LimitsSplitEvenly | src/engine/mod.rs:677-691 | the limits are positive, differ by at most one, number min(connections, requests) and add up to the requests |
| Runs.DealKeepsAll | src/engine/mod.rs:391-395 | dealing the limits round robin loses and invents none |
| Runs.DealIsRoundRobin | src/engine/mod.rs:391-395 | worker w is dealt the limits w, w + n, w + 2n and so on, in order |
| Runs.DealOut | src/engine/mod.rs:391-395 | the loop deals exactly as the function says |
| Runs.MergeConserves | src/metrics.rs:365-372 | merging two accounts that balance gives one that balances |
| Runs.MergedSums | src/metrics.rs:365-372 | every merged counter is the sum of that counter over the workers |
| Runs.ReportsAddUp | src/engine/mod.rs:396-413 | the reports of finished workers add up to the report of the run |
| Runs.RunParts | src/engine/mod.rs:396-413 | the summary is the merge of the counters of all workers, each the result of its own run, and there is none unless all finish |
| Runs.RunRequests | src/engine/mod.rs:389-413 | for every request-limited run whose workers all finish, the merged counters have completed plus abandoned exactly the requested count, and recoveries and failures bounded by completed requests and the connections the workers gave up, for any sockets and any split over workers |
| Interleaving.EventDraws | src/engine/connection.rs:296-305 | an event draws nothing from the sequence or exactly the one entry that was served to it |
| Interleaving.TurnKeepsSharing | src/request_sequence.rs:76-132 | whichever worker takes a turn and whatever it does, every worker's draws stay its share of what the sequence served |
| Interleaving.TurnsKeepSharing | src/request_sequence.rs:76-132 | so they do in every interleaving, from the opening of the connections on |
| Interleaving.SharesAddUp | src/request_sequence.rs:76-132 | the workers' shares make up the whole output, whichever worker drew which position |
| Interleaving.ServedIsFinished | src/engine/mod.rs:396-413 | with nothing abandoned the workers together completed exactly what the sequence served |
| Interleaving.InterleavedConservation | src/engine/mod.rs:389-413 | completed plus abandoned is the requested count in every interleaving |
| Interleaving.ReplayRoundsExact | src/engine/mod.rs:421-423 | with N rounds of a sequential or shuffled sequence, the timestamp order being the sequential one with slots (Pacers.TimestampOrder), and nothing abandoned in the merged summary, every entry is completed exactly N times, in any interleaving of the workers |
| Reports.TotalsAgree | src/engine/mod.rs:968-976 | the total of the merged summary and its number of latency samples are the completed requests that the workers counted |
| Reports.RunIsReported | src/engine/mod.rs:389-413 | in every request-limited run whose workers all finish, each requested response is one latency sample or is abandoned, and the methods together make up the aggregate |
| Reports.MergedFor | src/engine/mod.rs:405-413 | the merged summary has seen each URI as often as its entries were completed |
| Reports.ReplayIsReported | src/engine/mod.rs:421-423 | with N rounds and nothing abandoned, in any interleaving, the summary has N requests and samples for each entry, completed_replay_rounds is N, each URI was seen N times for each of its entries, and a URI of more than a twentieth of the entries is reported with that count bracketed |
| Replay.RoundsAreExact | src/request_sequence.rs:76-105 | any order made of whole rounds draws every entry equally often |
| Replay.DrawsAreRounds | src/request_sequence.rs:76-105 | every beginning of a sequence, in either order, is made of whole rounds and a part of one |
| Replay.DrawsAreExact | src/request_sequence.rs:76-105 | N rounds of draws hold every entry exactly N times |
| Replay.SequentialCursor.Next | src/request_sequence.rs:92-96 | the shared cursor draws entry k mod n and stays on the sequential order from its beginning |
| Replay.ShuffledKeeps | src/request_sequence.rs:164-170 | the shuffle rearranges the positions it has reached and leaves the others |
| Replay.ShuffledIsPermutation | src/request_sequence.rs:164-170 | a reshuffle of a permutation is a permutation |
| Replay.ShuffleInjective | src/request_sequence.rs:164-170 | different choices give different orders |
| Replay.ShuffleSurjective | src/request_sequence.rs:164-170 | every order comes from some choices, so with even choices all orders are equally likely |
| Replay.Unbiased | src/request_sequence.rs:172-181 | for every bound, every residue is the image of exactly floor(2^64 / bound) accepted words |
| Replay.ShuffleState.Bounded | src/request_sequence.rs:172-181 | the rejection loop returns the first accepted word, reduced |
| Replay.ShuffleState.Reshuffle | src/request_sequence.rs:164-170 | the in-place loop computes the shuffle of the choices it reads |
| Replay.ShuffleState.Begin | src/request_sequence.rs:33-37 | the first round is the shuffle of the identity by the words of the seed, and those words are used up |
| Replay.ShuffleState.Next | src/request_sequence.rs:155-162 | each draw is the next of the order that the seed gives, with a reshuffle by the next words after each whole round |
| Replay.RoundIsShuffled | src/request_sequence.rs:155-170 | each round is the shuffle of the last one by the choices that the next words make |
| Replay.WordsAreUsedOnce | src/request_sequence.rs:155-181 | after k draws each round begun has used at least n - 1 words, in the order of the stream and none twice |
| Replay.EqualSeedsEqualOrders | src/request_sequence.rs:140-181 | equal seeds and equally many draws give equal sequences and equal states |
| UriTops.SortIsSorted | src/metrics.rs:538-547 | sorting puts larger estimates and then smaller URIs first and keeps exactly the entries |
| UriTopProofs.RecordKeepsSound | src/metrics.rs:465-536 | recording keeps all promises: bounds for every URI, distinct entries, capacity, sum of estimates |
| UriTopProofs.CombinedEntry | src/metrics.rs:477-500 | each entry of a merge adds up what both sketches say of its URI |
| UriTopProofs.SaidIsCovered | src/metrics.rs:477-509 | what a sketch says of distinct URIs is covered by its own estimates and its minimum |
| UriTopProofs.MergedMinimum | src/metrics.rs:549-559 | the bound on untracked URIs never shrinks in a merge |
| UriTopProofs.MergeKeepsSound | src/metrics.rs:477-509 | merging with truncation keeps all promises |
| UriTopProofs.SketchIsSound | src/metrics.rs:457-559 | all promises hold after any tree of recordings and merges |
| UriTopProofs.SketchBounds | src/metrics.rs:465-559 | after any such tree, tracked URIs are bracketed by estimate and error and untracked ones were seen at most minimum_count times |
| UriTopProofs.HeavyHittersSurvive | src/metrics.rs:477-559 | estimates sum to at most the recordings, and every URI with more than a capacity-th of them is still tracked |
| UriTopObjects.UriTop.RecordUri | src/metrics.rs:465-475 | recording in place is the recording the bounds are about |
| UriTopObjects.UriTop.RecordWeighted | src/metrics.rs:511-536 | a weighted recording raises, adds or replaces the first smallest entry |
| UriTopObjects.UriTop.Merge | src/metrics.rs:477-509 | merging in place with two loops is the merge the bounds are about |
| UriTopObjects.UriTop.Sorted | src/metrics.rs:538-547 | the report holds exactly the entries, in order |
| Latencies.CorrectionAt | src/metrics.rs:117-134 | every bucket gains exactly what the uncorrected buckets contribute at the interval clamped into [1, 2^64 - 1] microseconds, so no addition is corrected again |
| Latencies.FilledSamples | src/metrics.rs:123-132 | for a value v, max(0, ceil(v/i) - 2) samples are filled in, strictly between i and v, one interval apart |
| Latencies.CorrectionTotal | src/metrics.rs:117-134 | the number of samples grows by exactly those, and overflows are untouched |
| Latencies.CorrectionDistributes | src/metrics.rs:106-134 | correcting a merge is merging corrections |
| Latencies.RecordThenMerge | src/metrics.rs:95-115 | recording before or after a merge is the same |
| Latencies.RecordTotal | src/metrics.rs:95-104 | each recording adds exactly one sample |
| Latencies.RecordedIn | src/metrics.rs:95-104 | exactly one bucket grows, by one: that of the microseconds, of 1 for none and of 3600000000 above that; the overflow count grows by one exactly above that |
| Latencies.LatencyHistogram.Record | src/metrics.rs:95-104 | recording in place is that recording |
| Latencies.LatencyHistogram.Merge | src/metrics.rs:106-115 | merging in place, with histograms allocated on first use |
| Latencies.LatencyHistogram.CorrectForCoordinatedOmission | src/metrics.rs:117-134 | the nested loop computes the correction of the histogram as it was before |
| RunSummaries.RecordKeepsConsistent | src/metrics.rs:412-425 | recording keeps the aggregate equal to the methods together |
| RunSummaries.MergeKeepsConsistent | src/metrics.rs:365-389 | merging keeps it |
| RunSummaries.CorrectKeepsConsistent | src/engine/mod.rs:438-439 | correcting the aggregate and every method with one interval keeps it |
| RunSummaries.CorrectSummaryDistributes | src/engine/mod.rs:434-441 | correcting each worker's summary or the merged one makes no difference |
| RunSummaries.TallyOrder | src/metrics.rs:365-377 | the plain sums of a summary, skipped counts by method and reason included, do not depend on the order of merging |
| RunSummaries.AddInto | src/metrics.rs:374-376 | every count of the other summary is added to its key |
| RunSummaries.SumsAreTotals | src/metrics.rs:365-377 | in every reachable summary each plain sum is the total of that sum over the counts recorded and merged |
| RunSummaries.AggregateIsMethods | src/metrics.rs:364-436 | in every reachable summary, before and after correction, the aggregate histogram and counts are the methods together |
| RunSummaries.StatusesAreCounted | src/metrics.rs:592-608 | every status below 1000 is counted exactly |
| RunSummaries.EveryResponseCounts | src/metrics.rs:412-425 | every response is counted once in the total, among the errors from 400 on, in the sketch, and as one sample until corrected |
| RunSummaries.SummaryShowsResponses | src/metrics.rs:412-425 | in every reachable summary not yet corrected, each bucket and the overflow, in the aggregate and for each method, count exactly the responses whose latency belongs there |
| RunSummaries.CorrectedShows | src/engine/mod.rs:434-441 | correction changes the latencies of the aggregate and of each method, by the same interval, and nothing else |
| RunSummaries.PopularUrisAreReported | src/metrics.rs:408-425 | a URI with more than a twentieth of all completed requests is reported with a bracketed count |
| RunSummaries.RunSummary.Respond | src/metrics.rs:412-425 | recording a response in place |
| RunSummaries.RunSummary.Merge | src/metrics.rs:365-389 | merging in place, every sum, method, status and URI of the summary |
| RunSummaries.RunSummary.Correct | src/metrics.rs:427-431 | correcting in place, method by method |
| Pacers.FixedSlotIsLeast | src/pacer.rs:40-48 | a fixed-rate slot is the latest of its lower bounds: k intervals after the start, k - j intervals after call j |
| Pacers.Pacer.Reserve | src/pacer.rs:40-48 | each call of the pacer is given the next slot of that schedule |
| Pacers.SlotsIncrease | src/pacer.rs:98-117 | stage slots strictly increase and are never before their call |
| Pacers.SlotsFitStage | src/pacer.rs:98-117 | from any state, a stage gets no more slots than its remaining length has room for |
| Pacers.StageSchedule | src/pacer.rs:78-117 | for any call times a stage of duration d and interval i gets at most ceil(d/i) slots |
| Pacers.NextSlot | src/pacer.rs:98-117 | after a slot the next one is the later of its call and one interval of the stage in force, or the end of that stage if it comes first |
| Pacers.EarlyIsPlanned | src/pacer.rs:98-117 | early calls get exactly the ticks of each stage and then the last rate |
| Pacers.EarlyStageSlots | src/pacer.rs:98-117 | the slots early calls get of a stage are its ticks, the first exactly on its boundary and all inside it |
| Pacers.EarlyStageSchedule | src/pacer.rs:78-117 | when every call is early and there are calls enough, each stage, the last included, gets exactly ceil(d/i) slots |
| Pacers.StagePacer.constructor | src/pacer.rs:79-96 | boundaries are the sums of the durations |
| Pacers.StagePacer.Reserve | src/pacer.rs:98-117 | each call of the pacer is given the next slot of the stage schedule |
| Pacers.TimestampGaps | src/pacer.rs:62-75 | slots are at least d apart, exactly d when the call is early, where d times the speed is the log gap but for half a nanosecond's rounding at that speed, and a wrap adds no gap |
| Pacers.ScaleIsNear | src/pacer.rs:70-73 | a scaled gap times the speed is the gap, within half a nanosecond at that speed |
| Pacers.EarlyTimes | src/pacer.rs:62-75 | when every call is early, slot k times the speed is as far from the start as the log has advanced by entry k, whole rounds included, but for half a nanosecond for each gap |
| Pacers.EarlyRounds | src/pacer.rs:62-75 | when every call is early, each round repeats the log at the chosen speed, back to back |
| Pacers.ValidateTimestamps | src/engine/mod.rs:451-472 | a log is accepted exactly when every entry has a timestamp and none decreases |
| Pacers.TimestampPacer.Reserve | src/pacer.rs:62-75 | one reservation in place |
| Pacers.TakeKeepsOrder | src/request_sequence.rs:76-132 | every turn of every worker keeps the reservations those of one sequential caller |
| Pacers.TimestampOrder | src/request_sequence.rs:84-124 | in every interleaving the k-th reservation carries entry k mod n and its slot, because the cursor lock is held across it |
| Globs.StarIsAny | src/replay_filter.rs:53-78 | a star matches any sequence |
| Globs.FirstFitSuffices | src/replay_filter.rs:67-71 | once a star has been met, the block before it need not move |
| Globs.RunFromStar | src/replay_filter.rs:58-77 | restarting only from the latest star decides the match |
| Globs.GlobIsSound | src/replay_filter.rs:53-78 | the matcher never claims a match that is none |
| Globs.StarInValue | src/replay_filter.rs:59-62 | a value with an early star byte has a matching pattern that is missed |
| Globs.GlobIsExact | src/replay_filter.rs:53-78 | the matcher is right for all patterns exactly for values without a star byte before the last byte |
| Globs.GlobMatches | src/replay_filter.rs:53-78 | the loop terminates and is sound, and exact for those values |
| Globs.OnlyAllowedPass | src/replay_filter.rs:16-25 | only allowed requests pass the whitelist, and all of them whose path is such a value |
| Globs.SelectIsSubsequence | src/replay_filter.rs:16-25 | the requests kept are those at exactly the passing positions, in order |
| Globs.Apply | src/replay_filter.rs:7-33 | the filter keeps exactly the passing requests, counts the others, and refuses bad patterns and empty results |
| Encoder.ValidOriginForm | src/request_file.rs:527-573 | a URI is accepted exactly when it starts with a slash, every percent sign starts an escape, and all other bytes are allowed |
| Encoder.ValidateRequest | src/request_file.rs:485-525 | a request is accepted exactly when it meets every rule, and each refusal is named exactly when its rule is the first one broken |
| Encoder.ValidateHeaders | src/request_file.rs:500-525 | the first bad field is named, and the total size only when all fields are good |
| Encoder.ReplayRequest | src/target.rs:92-114 | the buffer built piece by piece is the joined lines, a blank line and the body |
| Encoder.ReadBack | src/target.rs:92-114 | joined lines without breaks are read back as exactly those lines and the body |
| Encoder.EncodedReadsBack | src/target.rs:92-114 | an accepted request, encoded, reads back as the method, path, fields and body that were meant |
| Encoder.BodyStartsAtFirstBlankLine | src/target.rs:92-114 | the first blank line in the encoded bytes ends exactly where the body starts |
| Encoder.FramingIsManaged | src/request_file.rs:500-513 | the body length is announced exactly once and correctly, except for GET and HEAD, and no transfer coding ever is |
| Encoder.FieldsInOrder | src/target.rs:92-114 | the fields are the host with its value, the request's own headers in order, the length of the body in digits unless GET or HEAD, and keep-alive |
| Encoder.HeaderBytesAreWritten | src/request_file.rs:514-522 | the header size that is limited is the number of bytes those lines are written in |
| Encoder.PackedRangeReadsBack | src/request_sequence.rs:125-138 | the packed method and URI range give back the method and the path of the encoded request |
| CivilDate.CountsTheCalendar | src/access_log.rs:203-211 | the formula counts years, months and days of the Gregorian calendar, for all integer years |
| CivilDate.EpochIsZero | src/access_log.rs:203-211 | the first of January 1970 is day zero |
| CivilDate.NextDayIsOneMore | src/access_log.rs:203-211 | the next calendar day is one more |
| CivilDate.StrictlyMonotone | src/access_log.rs:203-211 | day numbers order valid dates strictly |
| CivilDate.EveryNumberIsADate | src/access_log.rs:203-211 | every integer is the number of exactly one valid date |
| CivilDate.TimestampsFollowTheClock | src/access_log.rs:198-200 | at one offset, timestamps order existing readings as the clock does, and no two share one |
| CivilDate.EveryTimestampIsAReading | src/access_log.rs:198-200 | every timestamp is that of exactly one existing reading |
| CivilDate.SameInstant | src/access_log.rs:185-200 | two existing readings, each at its own offset, have the same timestamp exactly when they name the same minute at offset zero and agree in seconds and fraction |
| CivilDate.NextMicrosecond | src/access_log.rs:198-200 | timestamps count microseconds |
| CivilDate.FromDayZero | src/access_log.rs:198-200 | and they count from midnight of day zero at offset zero |
| CivilDate.AcceptedReadings | src/access_log.rs:165-200 | an accepted reading is taken for the one existing reading with its timestamp, and for itself exactly when its day is in its month and its clock shows no negative number and no second 60 |
| CivilDate.LateDaysRunOn | src/access_log.rs:169-171 | an accepted day past the end of its month is a day of the next month |
| CivilDate.NegativeReadingsRunBack | src/access_log.rs:169-171 | a negative day and hour are accepted and run back into the month before |

## Left out

- TLS, DNS, mio polling and real sockets: foreign calls; plain transport only, with their outcomes as scripts.
- Delivery of events to deregistered sockets: an event or error for an unregistered socket is ignored.
- Time within one event: all clock readings while one event or timer is handled are the same instant.
- Workers.Worker.Run: the script is finite; a run that outlives it is `Unfinished`, and its failures are bounded rather than the wall time it takes.
- Workers.Worker.HandleEvent: the worker records its responses in a ghost history; the summaries computed from that history in `Reports.dfy` are not a field of the worker, and the correction for coordinated omission is applied to them in `RunSummary.dfy` only.
- ConnectionObjects.Connection.ReadResponse: the connection holds the decoder as a value; the decoder that changes in place is proved separately in `ResponseDecoder.dfy`.
- Binary heaps: the timer queues are sorted sequences with the order of the heap entries; ties and the heap's layout are not modelled.
- Interleaving.ReplayRoundsExact: workers take turns at whole openings, events and timers, each with one draw under the lock of the sequence; the slots that pacers give to draws are input, and random order has no rounds.
- Random replay order: only the reduction of accepted words is proved; the positions come from a generator.
- Replay.ShuffleState.Next: the splitmix64 words are an input stream; that the rejection loop ends depends on the generator's orbit.
- Integer widths: counters, cursors and generations are unbounded; the program's u64 and usize would wrap or abort after 2^64.
- Connections.TransmitTakes: the bytes of a request are their positions; what they are is the encoder's (`Encoder.dfy`), and the two are joined by the length of the request.
- Outcomes.ReadIsParsed: that the decoder stands for the bytes since the request began is its hypothesis, true of a new request and kept by every read that waits on (`Outcomes.DecoderGoesOn`); the worker keeps no record of those bytes.
- HDR histogram internals: any bucketing function that covers the range; statistics such as percentiles are not modelled.
- Floating point: intervals are given integers, speed is a positive real, and scaled gaps are rounded to the nearest nanosecond.
- RunSummaries.RunSummary.Merge: the wall-clock runtimes and the replay settings that the engine fills in after merging are left out.
- UriTopObjects.UriTop.Merge: merges assume equal capacities, which is always so in the program (20).
- CivilDate.AcceptedReadings: splitting the text into its fields is left out, and so are years so far away that 64-bit arithmetic would overflow.
- Response bodies of 204, 304 and 1xx responses and conflicting Content-Length fields: the program does not treat them specially, and nothing is claimed about them.
- Framing on the wire across early responses and address retries after a request has started: no offset is reset there, so no theorem per transport is stated.
- URL parsing, request files, profiles, command line, printing, assertions and HTML: branching and plumbing over other libraries.
