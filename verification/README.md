# Verified model of media-bot-v2

A Dafny model of the algorithms and protocols of the media bot, with proofs. Each module
follows one component of the program; `dafny verify dfyconfig.toml` checks all of them.

Concurrency is modelled as a step relation: a state, events that name which coroutine, lane or
thread moves and what its call came back with, and `Runs(s, es, t)` for "these events lead from
`s` to `t`". Theorems quantify over every run. Next to a step relation stands a class with the
fields the program mutates, whose methods are its atomic sections; their contracts tie the new
fields to the same functions the step relation uses, and whole calls (`UploadCall.Upload`,
`ProgressReporter.MessageProgressReporter.Update`) are proved to be runs of it. Network, disk, database
and subprocess calls are arbitrary answers: an event's outcome, a value chosen with `*`, or a
function parameter about which nothing is assumed.

| file | models |
|---|---|
| ParallelUpload, UploadEnds, UploadCall | upload lanes, shared queue, flood waits, failover, lane limit; which events end an upload; the object (telegram/parallel_upload.py) |
| Progress, ProgressFloods, ProgressEnds, ProgressChat | the message reporter: its protocol, which floods it sleeps out, how its calls end, and what stands in the chat (telegram/progress.py) |
| ProgressRetries, ProgressRoutes, ProgressWitnesses, ProgressReporter | its background retries and their requests, runs that show costs and failures, and the object (telegram/progress.py) |
| UploadBar | the upload bar (telegram/progress.py) |
| HlsPlaylist, HlsMaster, HlsReading, HlsRfc | playlist parser, what its variants and segments are, and where it differs from RFC 8216 (engines/hls.py) |
| HlsRender, HlsRoundTrip, HlsMaterialize | playlist printer, its inverse relation to the parser, and the local copy of a playlist (engines/hls.py) |
| HlsWindow, HlsDownload, HlsSampling, ByteCounter | window choice, runs, gaps, one live download, sampling, the shared byte budget (engines/hls.py) |
| Delivery, Credits, VideoCache | sending, billing and caching of one request (pipeline.py, credits/service.py, cache/video_cache.py) |
| Captions, CaptionTexts, Utf16 | HTML captions within a UTF-16 budget, what they say, and what the budget counts (telegram/captions.py) |
| Utf8, SafeFilename | byte budgets for file names (engines/safe_filename.py) |
| Cancellation | the cancellation token (engines/base.py) |
| ErrorReport, RetryStore, ProviderHealth | rate window and dedup, retry index, circuit breaker |
| Splitter, Mp4Boxes | part sizes and the atom walk (upload/splitter.py, upload/streamable.py) |
| Common, PyText, PyReading | shared vocabulary; the Python string and number operations the parsers use, and what they do with any text |

## Where the code and its description differ

The code is what is modelled; where a promise fails, a lemma says exactly when it holds and
another gives an input for which it does not.

- `sanitize_component` says it removes leading dots. One survives exactly when the text, control
  characters aside, is white space, dots, at least one dash and then a dot that more than dots and
  white space follow (`SafeFilename.LeadingDotSurvives`; "-.x" in `LeadingDotWitness`).
- `build_safe_named_file` says the result stays within `max_bytes`. It does exactly when the suffix
  leaves room for the first character of the stem; otherwise the fallback "file" comes back
  untruncated (`SafeFilename.SafeNamedFileFits`, `SafeNamedFileWitness`).
- A cache hit is meant to look like a fresh delivery. Album items stand without a caption but are
  replayed with the full signature, so this holds exactly when no file but the last travels in an
  album (`Delivery.ReplayEqualsDelivery`; two photos in `TwoPhotosReplay`).
- The room reserved for a part label is measured on the stripped label, so label and caption fit
  exactly when the white space at the end of the label fits into what the caption left unused
  (`Captions.LabelledCaptionFits`; a file name that ends in a space in `LabelWitness`).
- `RetryStore` draws random ids without checking whether they are in use; the two maps stay inverse
  exactly when no live entry of another message has the id (`RetryStore.PutKeepsIff`,
  `TakenWitness`).
- A terminal progress text is meant to reach the chat. A call comes back without it exactly when
  neither its edits nor its new message got through (`ProgressEnds.HowTerminalsEnd`), and then it
  may leave nothing behind to try again (`ProgressWitnesses.NothingLeftOnScreen`). An update skipped
  as "the same" takes the recorded text for the visible one. It is right while no terminal text was
  lost, and after that exactly when nobody deleted the message and no retry changed it
  (`ProgressChat.SameIsTrueUnlessLost`, `SameIsTrueIff`; by outcomes in `SameBeforeDelivery` and
  `ProgressRetries.SameAfterDelivery`; a wrong one in `ProgressWitnesses.AnotherTextOnScreen`).
- The background retry says it guarantees an error indication. After every edit that gets through
  it deletes the very message it edited, so the user has an indication exactly when a new message
  was sent, the general text was put in, or that deletion failed
  (`ProgressRetries.HowRetriesEnd`, `ProgressWitnesses.EditedThenDeleted`).
- A delivered terminal text is meant to stop background retries. It stops all that are not past
  their checks, and the only one if one text was lost (`ProgressRetries.LatchStopsRetries`,
  `OneLostTextIsHarmless`); of two lost ones the first keeps running, as only the second has a
  handle, and may overwrite a delivered result (`ProgressWitnesses.OlderRetryRuinsResult`).
- The upload bar promises 100/min_step + 1 edits. That leaves out the two edits each long flood wait
  adds (`UploadBar.EditBound`, which `EditBoundIsReached` reaches).
- A live window counts seconds by the selected segments, but keeps one file for each number, so with
  repeated numbers seconds delivered and missing need not sum up to those selected
  (`HlsDownload.DownloadWindow` with `RepeatedNumber`).
- In the playlist parser a line that only begins like a discontinuity tag counts as one, a byte
  range without an offset starts at 0, and one map tag serves the whole playlist. Each time a lemma
  says when that is the reading of RFC 8216 and a playlist shows that it is not always
  (`HlsRfc.BreakEqualsRfc`, `RangeEqualsRfc`, `InitEqualsRfc` with `BreakWitness`, `RangeWitness`,
  `InitWitness`).
- `_split_raw` with a limit of 0 returns no parts (`Splitter.RawSplitKeepsTheFile`, both ways).
- Owners are exempt from `check_quota` only; `use_quota_dynamic` charges them.

## Model

| member | source | states |
|---|---|---|
| ParallelUpload.PartsAreTheFile | media_bot_v2/telegram/parallel_upload.py:219-235 | the parts cut for the queue, joined by index, are the file |
| ParallelUpload.NormalReturnDeliversTheFile | media_bot_v2/telegram/parallel_upload.py:202-265 | in every interleaving of lanes, floods, cuts and link failures, a normal return means each part was accepted exactly once, the server's parts joined by index are the file, and the counter equals its size |
| ParallelUpload.ProgressRises | media_bot_v2/telegram/parallel_upload.py:276-298 | in every run the reported byte count rises strictly and stays within the file size |
| ParallelUpload.LaneLimit | media_bot_v2/telegram/parallel_upload.py:120-128 | the limit is the asked number of lanes, two after two floods, one after four, never below one; lane 0 only stops on an empty queue |
| ParallelUpload.NoPartStranded | media_bot_v2/telegram/parallel_upload.py:276-291 | a part not accepted is in the queue or in the hands of exactly one lane |
| ParallelUpload.PartCost | media_bot_v2/telegram/parallel_upload.py:301-367 | one part costs at most 14 requests, 12 waits and 12 times 120 seconds of sleep |
| UploadEnds.PartCostIsReached | media_bot_v2/telegram/parallel_upload.py:301-367 | that bound is attained by a run whose part is accepted in the end |
| ParallelUpload.UploadTerminates | media_bot_v2/telegram/parallel_upload.py:276-367 | every run has at most 29 events a part plus one a lane |
| UploadEnds.HowRunsEnd | media_bot_v2/telegram/parallel_upload.py:240-258 | a run that can go no further has stopped all lanes, and returns normally exactly when its events hold nothing fatal (as in WhoRaises) and no interruption from outside |
| UploadEnds.WhoRaises | media_bot_v2/telegram/parallel_upload.py:301-367 | over every run: a lane has raised exactly when the events hold, for it, a read error, a failure on the main link, a flood of more than 120 seconds, or a seventh flood for one part on one link |
| UploadEnds.OtherErrorsAreOvercome | media_bot_v2/telegram/parallel_upload.py:301-367 | every other flood is slept out for the time asked for, at least a second, and the part sent again on the same link; every other failure, which is on an extra link, goes on at the main link with the same part |
| UploadEnds.WhoTakesParts | media_bot_v2/telegram/parallel_upload.py:120-128 | a lane takes the first queued part unless the queue is empty, or two floods (lane 2 and up) or four (lane 1 and up) were seen; it keeps its link |
| UploadEnds.WhoIsCancelled | media_bot_v2/telegram/parallel_upload.py:240-258 | in every run a lane that still goes may be cancelled exactly when something fatal happened or the call was interrupted; every lane that has not stopped has a step of its own |
| UploadCall.Uploader.NoteFlood | media_bot_v2/telegram/parallel_upload.py:120-128 | the loop over the thresholds lowers the limit as the step relation says |
| UploadCall.Uploader.TakeNext | media_bot_v2/telegram/parallel_upload.py:276-283 | limit check and queue pop of one lane, as one step |
| UploadCall.Uploader.OnFlood | media_bot_v2/telegram/parallel_upload.py:325-364 | a flood counts and may lower the limit; one of more than 120 seconds, or the seventh for a part on one link, raises; every other one is slept out |
| UploadCall.Uploader.OnError | media_bot_v2/telegram/parallel_upload.py:306-316 | another failure moves an extra lane to the main link and is fatal on the main link |
| UploadCall.Uploader.OnAccepted | media_bot_v2/telegram/parallel_upload.py:289-291 | an accepted part is stored once and its bytes are counted |
| UploadCall.Upload | media_bot_v2/telegram/parallel_upload.py:202-265 | a whole call under any schedule reaches the state the step relation gives for it, raises only if an event was fatal, and, if it returns normally, delivers the file |
| Progress.NothingAfterTheEnd | media_bot_v2/telegram/progress.py:476-643 | in every interleaving no status text is shown after a terminal one, and shown status texts come in the order of their calls |
| Progress.NoStatusEditOnceSealed | media_bot_v2/telegram/progress.py:508-520 | once a terminal update held the lock, no status edit is even requested |
| Progress.UpdateCost | media_bot_v2/telegram/progress.py:602-712 | a terminal call sleeps out at most 3 times max_retries waits of max_wait_seconds, counting edits, new message and deletion; a status text one of two seconds; with the number of edits and fallback requests |
| ProgressFloods.FloodOfAnEdit | media_bot_v2/telegram/progress.py:602-636 | in every interleaving: an edit answered with a flood is slept out for as long as asked, at least a second, and sent again exactly when it is at most the max_retries-th flood of a terminal text and asks for at most max_wait_seconds, or the first of a status text of at most two seconds |
| ProgressFloods.FloodOfARequest | media_bot_v2/telegram/progress.py:638-712 | the same numbers for the new message and the deletion of the old one |
| ProgressFloods.WhenDropped | media_bot_v2/telegram/progress.py:476-520 | a status text is discarded on entry exactly when a terminal update has begun or the message was last found uneditable; a text is skipped as the same exactly when it is the recorded one with the same buttons, or a status text that gives none; later a status text gives way exactly to a begun terminal update or a newer recorded text; a terminal text never does |
| Progress.UpdatesEnd | media_bot_v2/telegram/progress.py:192-740 | n calls with their background retries take at most n(7 max_retries + 22) steps; until all calls returned some coroutine has a step of its own, cancellation and background retries aside |
| ProgressEnds.HowTerminalsEnd | media_bot_v2/telegram/progress.py:491-740 | a terminal update comes back shown, as the same text, cancelled or lost; it is lost exactly when neither its edits nor its new message got through; a shown one makes the last text terminal; a lost one leaves no background retry exactly when it reports no failure and the old message was deleted; a retry still asleep has shown nothing, and goes on to its first request exactly if no terminal text got through by then |
| ProgressChat.SameIsTrueIff | media_bot_v2/telegram/progress.py:497-507 | an update skipped as the same finds its text in the reporter's message exactly when no call and no retry deleted that message and this text is what was shown on it last |
| ProgressChat.SameIsTrueUnlessLost | media_bot_v2/telegram/progress.py:497-507 | so it does as long as no terminal text was lost |
| ProgressChat.SameBeforeDelivery | media_bot_v2/telegram/progress.py:497-507 | as long as no terminal text got through, it does exactly when no lost call or its retry deleted the message and no retry put the general text in |
| ProgressRetries.SameAfterDelivery | media_bot_v2/telegram/progress.py:497-507 | once a terminal text got through and no retry is past its checks, a visible recorded text stays the right one exactly until a lost call deletes the message |
| ProgressRetries.LatchStopsRetries | media_bot_v2/telegram/progress.py:216-233 | after a delivered terminal text a retry not past its checks never sends a request, in any continuation, and a cancelled one hears of at most the request it had sent |
| ProgressRetries.OneLostTextIsHarmless | media_bot_v2/telegram/progress.py:426-439 | if one terminal text was lost and another gets through, the retry of the lost one has at most one request left that takes effect |
| ProgressRetries.HowRetriesEnd | media_bot_v2/telegram/progress.py:192-373 | left alone, a retry leaves an indication exactly when a new message was sent, the general text was put in, or the text was edited in and not deleted again; the stale message stays exactly when it was neither edited, overwritten nor deleted |
| ProgressRoutes.HowARetryGoes | media_bot_v2/telegram/progress.py:192-373 | left alone, a retry sends exactly these requests: a text that is no failure only has the old message deleted; a failure is edited in, or sent, and the old message deleted; if neither works, the old one is deleted or gets the general text, and the failure goes through the client or, last, out as a message |
| ProgressRoutes.EveryRetryOccurs | media_bot_v2/telegram/progress.py:192-373 | and each such order of requests and replies is that of a run, as long as no edit works on a deleted message |
| ProgressRoutes.WhatARetryTells | media_bot_v2/telegram/progress.py:242-373 | after it the reporter counts a terminal text as delivered exactly when one of the four ways to the user worked, has a message sent by respond for its own, and keeps the rest of its record |
| ProgressWitnesses.NothingLeftOnScreen | media_bot_v2/telegram/progress.py:638-740 | a run that ends with an empty chat, no retry left, and the next update skipped as the same |
| ProgressWitnesses.AnotherTextOnScreen | media_bot_v2/telegram/progress.py:192-373 | a run in which a failure shown late by its retry stands while a result that reads like the earlier status text is skipped as the same |
| ProgressWitnesses.EditedThenDeleted | media_bot_v2/telegram/progress.py:242-312 | a retry that edits its failure in and deletes it again: it counts as delivered and the chat is empty |
| ProgressWitnesses.OlderRetryRuinsResult | media_bot_v2/telegram/progress.py:426-439 | two lost failures, then a delivered result that the retry of the first overwrites and deletes |
| ProgressWitnesses.UpdateCostIsReached | media_bot_v2/telegram/progress.py:602-712 | the bound of 3 times max_retries waits is attained |
| Progress.StepOrder | media_bot_v2/telegram/progress.py:515-535 | each step keeps both orders of the shown texts |
| ProgressReporter.MessageProgressReporter.Enter | media_bot_v2/telegram/progress.py:474-505 | number, latch and early returns before the loop, over the fields |
| ProgressReporter.MessageProgressReporter.Update | media_bot_v2/telegram/progress.py:464-740 | by its replies alone: if up to max_retries floods of at most max_wait_seconds and then a success answer the edits of a terminal text, it comes back delivered after as many edits and one, on the same message and without other requests; a status text survives one flood of at most two seconds; an edit is given up on a flood only past these numbers; and the whole call is the run of the step relation that hears these replies |
| UploadBar.EditBound | media_bot_v2/telegram/progress.py:790-858 | calls one after another lead to at most 99/min_step + 1 edits plus two for each long flood wait (its message and the bar put back), for byte counts in any order |
| UploadBar.EditBoundIsReached | media_bot_v2/telegram/progress.py:790-858 | that number is attained for every min_step and every number of long flood waits |
| UploadBar.ShownNeverFalls | media_bot_v2/telegram/progress.py:823-858 | the shown percentage never falls and never passes 100 |
| UploadBar.WhenTheBarMoves | media_bot_v2/telegram/progress.py:823-858 | after any calls, a byte count leads to an edit exactly when the user was last told of a flood wait, or the bar moves and is complete, or it moves by min_step points at least min_interval seconds after the edit before |
| UploadBar.PercentIs | media_bot_v2/telegram/progress.py:823-826 | the percentage is that of the bytes, rounded down, and 100 from the total on |
| UploadBar.UploadProgress.Report | media_bot_v2/telegram/progress.py:823-863 | one byte count edits exactly under the stated conditions and updates the fields |
| HlsPlaylist.ParseUndoesPrintAttrs | media_bot_v2/engines/hls.py:225-235 | the attribute-list parser inverts the printer of attribute lists |
| HlsPlaylist.AttrsStandInText | media_bot_v2/engines/hls.py:222-235 | of any text whatever: every attribute read stands in it, a name of capital letters, digits and hyphens, an equals sign, and the value in quotes or bare up to a comma |
| HlsPlaylist.ParseAttributes | media_bot_v2/engines/hls.py:225-235 | the match loop computes the attribute map |
| HlsPlaylist.ParsePlaylist | media_bot_v2/engines/hls.py:269-385 | the line loop with its pending variables computes the parse, errors included; what the parse is say VariantsAre, SegmentsAre and ParsesIff |
| PyReading.WhatTheLinesAre | media_bot_v2/engines/hls.py:274 | the lines of a text are the stripped stretches between its line breaks that are not empty |
| PyReading.WhatStripKeeps | media_bot_v2/engines/hls.py:274 | stripping takes the white space at both ends and nothing else |
| PyReading.WhatIntReads | media_bot_v2/engines/hls.py:238-246 | a text is read as a number exactly when it is digits, with a sign or without, between white space; the number is the one they stand for |
| PyReading.WhatFloatReads | media_bot_v2/engines/hls.py:325-329 | a decimal number is read as the value its digits stand for |
| PyReading.WhatExponentsDo | media_bot_v2/engines/hls.py:325-329 | an exponent multiplies it by that power of ten |
| HlsMaster.TagsAre | media_bot_v2/engines/hls.py:294-372 | each tag is recognised by its name |
| HlsMaster.ParsesIff | media_bot_v2/engines/hls.py:269-385 | a text is a playlist exactly when it begins with the header, its values can be read, it has address lines, each announced by a stream tag or a duration, and not both kinds of tag; it is a master playlist exactly when it holds stream tags |
| HlsMaster.VariantsAre | media_bot_v2/engines/hls.py:249-385 | in a master playlist variant i stands on the i-th address line, with the bandwidth, audio group, width (before the first x) and height (after it) of the stream tag since the address before; every rendition group holds the attributes of its media tags in order |
| HlsMaster.ReadStreamTag | media_bot_v2/engines/hls.py:249-266 | reading a printed stream tag gives back bandwidth, width, height and audio group |
| HlsMaster.ReadByterange | media_bot_v2/engines/hls.py:238-246 | reading a printed byte range gives back its length and offset, 0 if it has none |
| HlsReading.SegmentsAre | media_bot_v2/engines/hls.py:269-385 | segment i stands on the i-th address line, with duration, byte range, date and break of the tags since the address before, the key of the last key tag above and the last media sequence above plus i; the map is that of the last map tag |
| HlsReading.ParsedIsNumbered | media_bot_v2/engines/hls.py:294-385 | segments are numbered consecutively from the media sequence exactly when no address line comes before a media sequence that changes it |
| HlsReading.NumbersIncrease | media_bot_v2/engines/hls.py:294-385 | so numbers increase in every playlist that gives no media sequence after an address |
| HlsRfc.BreakEqualsRfc | media_bot_v2/engines/hls.py:341-372 | a segment's break flag is that of RFC 8216, section 4.3.2.3, exactly when a longer line that begins like the tag never comes without the tag |
| HlsRfc.BreakWitness | media_bot_v2/engines/hls.py:341-372 | a discontinuity sequence alone marks a segment |
| HlsRfc.RangeEqualsRfc | media_bot_v2/engines/hls.py:238-246 | a byte range is that of section 4.3.2.2 exactly when there is no tag, or it gives an offset, or the last tag above that does is of the same resource, so are those in between, and its offset and their lengths sum up to 0 |
| HlsRfc.RangeWitness | media_bot_v2/engines/hls.py:238-246 | two ranges of one file, the second without an offset: both cover the first bytes |
| HlsRfc.InitEqualsRfc | media_bot_v2/engines/hls.py:317-324 | one map for all segments is the reading of section 4.3.2.5 exactly when every map tag in force agrees with it and none of the segments stands above the first one |
| HlsRfc.CodeInitIsParsed | media_bot_v2/engines/hls.py:317-324 | that one map is what the parse returns |
| HlsRfc.InitWitness | media_bot_v2/engines/hls.py:317-324 | two map tags: the second is given to the first segment as well |
| HlsRender.NormalizedIv | media_bot_v2/engines/hls.py:445-453 | a normalized vector has 32 digits and the value of the explicit vector, or else of the sequence number |
| HlsRender.VectorsAre | media_bot_v2/engines/hls.py:445-453 | a text is a vector exactly when it is 1 to 32 hexadecimal digits after 0x, 0X, 0x0X or nothing; a sequence number is one exactly when it fits into 128 bits |
| HlsRender.NormalizeIvIdempotent | media_bot_v2/engines/hls.py:445-453 | normalizing a normalized vector changes nothing, whatever sequence comes with it |
| HlsRender.RenderMediaPlaylist | media_bot_v2/engines/hls.py:778-800 | the printer succeeds exactly when all vectors normalize and prints the entries of the segments |
| HlsRender.WriteRunPlaylist | media_bot_v2/engines/hls.py:1131-1153 | the same for one run, without discontinuity tags |
| HlsMaterialize.FetchKeys | media_bot_v2/engines/hls.py:710-759 | succeeds exactly when every key is of a known kind, https and 16 bytes; then every key address has a plain file name of its own and the file holds its key |
| HlsMaterialize.UsableKeys | media_bot_v2/engines/hls.py:427-442 | a key is usable exactly when its method is AES-128, its format identity, its address given and not skd, and its vector is one; which reason any other key is refused for |
| HlsMaterialize.Materialize | media_bot_v2/engines/hls.py:811-853 | succeeds exactly when keys, map and segments can be fetched and vectors exist; then the local playlist, read back, has every segment in order with its break, its length to half a millionth, its vector, and from the local files the bytes, map and key of the remote addresses; no remote reference is left |
| HlsMaterialize.RunPlays | media_bot_v2/engines/hls.py:1131-1153 | the playlist of a run of a live window, read back, plays the run without a break |
| HlsMaterialize.WindowFileIsPlain | media_bot_v2/engines/hls.py:1063 | the file names of a live window are plain, so these results cover them |
| HlsMaterialize.WindowFileSays | media_bot_v2/engines/hls.py:771-775 | the name holds the segment number in at least 20 characters and the suffix of its address if that is one of four, else .ts |
| HlsRoundTrip.ParseUndoesPrint | media_bot_v2/engines/hls.py:269-385 | the parser reads every rewritten playlist back exactly |
| HlsRoundTrip.RewritingKeepsMeaning | media_bot_v2/engines/hls.py:778-800 | rewriting then parsing gives the same segments in order with the same breaks, six-decimal durations, encryption and effective vectors |
| HlsRoundTrip.RewrittenIsLocal | media_bot_v2/engines/hls.py:803-808 | a rewritten playlist contains no slash, so the local-only check passes |
| HlsMaterialize.SchemeIff | media_bot_v2/engines/hls.py:803-808 | the local-only check fires exactly on the texts that hold "://" |
| HlsWindow.SelectWindow | media_bot_v2/engines/hls.py:975-990 | the window is the shortest tail that lasts long enough, or the error for an empty or non-positive request |
| HlsWindow.ShortestTailIsUnique | media_bot_v2/engines/hls.py:975-990 | that tail is unique |
| HlsWindow.ContinuousRuns | media_bot_v2/engines/hls.py:1108-1128 | the runs are maximal and concatenate to the present items in order |
| HlsWindow.RunIsContinuous | media_bot_v2/engines/hls.py:1108-1128 | inside a run sequences are consecutive and only the first item may be a discontinuity |
| HlsWindow.RunsAreMaximal | media_bot_v2/engines/hls.py:1108-1128 | every boundary is a gap, a jump or a discontinuity |
| HlsWindow.RunsAreUnique | media_bot_v2/engines/hls.py:1108-1128 | no other split has these properties |
| HlsWindow.DurationsAddUp | media_bot_v2/engines/hls.py:1296-1341 | selected duration is delivered plus missing duration |
| HlsWindow.GapsAllowedIff | media_bot_v2/engines/hls.py:1088-1105 | a window with items passes exactly when its gaps are no more than the allowed share, at most three, and last no longer than a hundredth of it |
| HlsDownload.DownloadBatch | media_bot_v2/engines/hls.py:1049-1085 | in whatever order the workers finish: succeeds exactly when no segment with a new number fails, keeps what is there, and gives every new number the file or gap of a segment with that number |
| HlsDownload.FinishWindow | media_bot_v2/engines/hls.py:1306-1362 | success exactly when gaps are within the limits, vectors exist, every run is remuxed and the runs joined, the probed length is within five percent, and nobody cancelled; then at most 3 gaps and, if the items are the selected segments and no duration is negative, at least 0.95 times 0.99 of the selected duration, and each run has a playlist that plays it |
| HlsDownload.DownloadWindow | media_bot_v2/engines/hls.py:1214-1382 | succeeds exactly when the playlist is live with usable keys and a window, and map, segments, audio, second reading, keys and the end of the download all work; the selected segments are the window and what the second reading has after it, every one has the item fetched for a segment with its number, seconds are conserved exactly when the items are as long as the segments, the runs hold the delivered items and each run playlist plays its run; with rising numbers in both readings the selection rises and every segment has its own item |
| HlsDownload.RepeatedNumber | media_bot_v2/engines/hls.py:1049-1085 | two segments of different length with one number: nothing is missing, yet the seconds delivered are not those selected |
| HlsSampling.SampleIndices | media_bot_v2/engines/hls.py:578-584 | min(count, limit) distinct indices with both ends, under half-to-even rounding; for less than two samples the first index, if any |
| ByteCounter.Counter.Add | media_bot_v2/engines/hls.py:652-656 | counts first, then raises over the limit |
| ByteCounter.BudgetHolds | media_bot_v2/engines/hls.py:642-759 | for any interleaving of workers the bytes written, keys included, never pass the limit, and after one failed charge every later one fails |
| ByteCounter.WhoIsRefused | media_bot_v2/engines/hls.py:652-656 | in every run a worker is refused exactly when all bytes charged so far, its own included, are more than the limit |
| Utf8.PrefixDecodes | media_bot_v2/engines/safe_filename.py:52-57 | a byte prefix of encoded text decodes exactly when it ends on a character boundary |
| Utf8.RoundTrip | media_bot_v2/engines/safe_filename.py:44-58 | decoding undoes encoding (section 3 of RFC 3629) |
| Utf8.DecodingIsStrict | media_bot_v2/engines/safe_filename.py:44-58 | and what decodes at all is the encoding of its text: there are no two spellings |
| SafeFilename.TruncatedIsLongest | media_bot_v2/engines/safe_filename.py:44-58 | the result is the longest prefix of characters that fits |
| SafeFilename.TruncateUtf8Bytes | media_bot_v2/engines/safe_filename.py:44-58 | cutting and trimming bytes computes it and trims at most three |
| SafeFilename.SanitizedIsSafe | media_bot_v2/engines/safe_filename.py:34-41 | no separator, control or reserved character, no leading dash, no trailing dot, never "." or ".." |
| SafeFilename.WhatCleaningDoes | media_bot_v2/engines/safe_filename.py:34-41 | control characters go, reserved ones become underscores, every other character stays in its place |
| SafeFilename.GoodNamesStay | media_bot_v2/engines/safe_filename.py:34-41 | a name of ordinary characters without dot, dash or white space at its ends is left alone |
| SafeFilename.LeadingDotSurvives | media_bot_v2/engines/safe_filename.py:34-41 | for which texts, character by character, a leading dot survives |
| SafeFilename.LeadingDotWitness | media_bot_v2/engines/safe_filename.py:34-41 | "-.x" is one |
| SafeFilename.SafeBasenameFits | media_bot_v2/engines/safe_filename.py:68-94 | exactly when the name stays within the limit |
| SafeFilename.WhatALinkIsCalled | media_bot_v2/engines/safe_filename.py:68-94 | the name is what follows the last separator, sanitized, with its own extension or the default one; whole if it fits, else only the part before the extension is cut, with a default for nothing left |
| SafeFilename.SafeNamedFileFits | media_bot_v2/engines/safe_filename.py:97-104 | exactly when the named file stays within the limit |
| SafeFilename.WhatANamedFileIsCalled | media_bot_v2/engines/safe_filename.py:97-104 | the sanitized stem, or "file", whole if it fits beside the suffix, else the longest part of it that does, else "file", and the suffix |
| SafeFilename.SafeNamedFileWitness | media_bot_v2/engines/safe_filename.py:97-104 | a two-byte first character with one byte left exceeds it |
| SafeFilename.FourBytesAreEnough | media_bot_v2/engines/safe_filename.py:97-104 | four bytes of room for the stem always suffice |
| Captions.ParseUndoesPrint | media_bot_v2/telegram/captions.py:119-142 | parsing the markup gives back exactly the values between the fixed texts, for all values |
| CaptionTexts.WhatEscapingDoes | media_bot_v2/telegram/captions.py:119-142 | escaping replaces the five markup characters by their references and keeps every other character |
| CaptionTexts.NothingToMarkUp | media_bot_v2/telegram/captions.py:119-142 | an escaped title, name or link holds no character that opens or closes a tag or ends an attribute |
| Utf16.UnitsAreCodeUnits | media_bot_v2/telegram/captions.py:40-43 | the length of a text is the number of its UTF-16 code units (section 2.1 of RFC 2781) |
| Utf16.RoundTrip | media_bot_v2/telegram/captions.py:40-43 | the code units give the text back |
| Captions.OneCutIsEnough | media_bot_v2/telegram/captions.py:98-107 | one round of the title loop makes the message fit or empties the title |
| Captions.TwoCutsAreEnough | media_bot_v2/telegram/captions.py:109-115 | the link loop needs at most two rounds |
| Captions.ShrunkFits | media_bot_v2/telegram/captions.py:91-116 | the result fits whenever the fixed text plus two units does; a fitting caption is untouched; the link is cut only after the title is gone; values are cut to a prefix and an ellipsis |
| CaptionTexts.NoMoreIsCut | media_bot_v2/telegram/captions.py:91-116 | a caption n units too long loses n characters of its title and one for the ellipsis, or the whole title; the link is touched only after that |
| Captions.ShrinkText | media_bot_v2/telegram/captions.py:98-107 | the title loop terminates and does just one cut |
| Captions.ShrinkLink | media_bot_v2/telegram/captions.py:109-115 | the link loop terminates with its result |
| Captions.BuildUserCaption | media_bot_v2/telegram/captions.py:73-116 | a signature stays within 1024 less the reserved units whenever its template plus two units does |
| CaptionTexts.WhatTheUserReads | media_bot_v2/telegram/captions.py:73-142 | the text under a file: its title as the setting cuts it (750 characters for 0 and from 1000 on), link, resolution and length, and exactly as much of the title cut as does not fit into 1024 units less the reserved ones |
| CaptionTexts.WhatNumbersAreShown | media_bot_v2/telegram/captions.py:119-142 | numbers are shown in decimal, with as many digits as they need |
| Captions.UserFrameIsShort | media_bot_v2/telegram/captions.py:119-142 | how small a template is |
| Captions.SignatureFits | media_bot_v2/telegram/captions.py:73-142 | so a signature always fits beside a reservation of up to 600 units, for every title and link and numbers of up to nine digits |
| Captions.BuildDescriptionMessage | media_bot_v2/telegram/captions.py:145-176 | the description message is never over 4096 units, with no condition |
| CaptionTexts.WhatTheDescriptionSays | media_bot_v2/telegram/captions.py:145-176 | there is none exactly if title and description are blank; its text is the heading, the title above the description, and no more of them is cut than does not fit into 4096 units |
| Captions.BuildArchiveCaption | media_bot_v2/telegram/captions.py:179-221 | the archive caption fits under the same condition |
| CaptionTexts.WhatTheOperatorsRead | media_bot_v2/telegram/captions.py:179-221 | the text above an archived copy: user, number, file and link |
| CaptionTexts.WhatALabelSays | media_bot_v2/telegram/captions.py:57-62 | the text of a part label: number of total, with the file name for documents |
| Captions.LabelledUnits | media_bot_v2/telegram/captions.py:65-66 | the exact length of a label above a caption |
| Captions.LabelledCaptionFits | media_bot_v2/pipeline.py:497-507 | label and signature together stay within 1024 exactly when the white space at the label's end fits into what the signature left unused |
| Captions.LabelOverflows | media_bot_v2/pipeline.py:497-507 | for every label that ends in white space some signature makes the two too long |
| Captions.LabelWitness | media_bot_v2/pipeline.py:497-507 | such as that of a file name ending in a space |
| Cancellation.AtMostOnceAndNotEarly | media_bot_v2/engines/base.py:33-55 | in every race no callback runs twice, unregistered, or before the flag |
| Cancellation.ExactlyOnce | media_bot_v2/engines/base.py:33-55 | when all calls returned, each registered callback ran exactly once if the token is set, else never |
| Cancellation.FlagMeansSet | media_bot_v2/engines/base.py:33-34 | the flag is set only by, and after return always by, a set call |
| Cancellation.NoDeadlock | media_bot_v2/engines/base.py:33-55 | until all calls returned some thread can move |
| Cancellation.StepNoneForgotten | media_bot_v2/engines/base.py:33-49 | a callback stored past the flag is always followed by a set call that has yet to take the list |
| Cancellation.CancellationToken.Set | media_bot_v2/engines/base.py:33-42 | runs and clears the list in order |
| Cancellation.CancellationToken.OnCancel | media_bot_v2/engines/base.py:44-55 | stores the callback, or runs it when the flag is set |
| Credits.PriceCoversTheVolume | media_bot_v2/credits/service.py:36-48 | the price is the least positive number of units of mb_per_credit times 1048576 bytes covering the volume, 0 only for nothing |
| Credits.TotalIsTheSum | media_bot_v2/credits/service.py:36-48 | the volume is the sum of the sizes |
| Credits.SplittingKeepsThePrice | media_bot_v2/credits/service.py:36-48 | however files are cut into parts, the price is the same |
| Credits.PriceMonotone | media_bot_v2/credits/service.py:36-48 | more delivered never costs less |
| Credits.DeductionIsFair | media_bot_v2/credits/service.py:101-107 | exactly min(balance, credits) go, free before paid, nothing below zero |
| Credits.CreditsService.UseQuotaDynamic | media_bot_v2/credits/service.py:87-108 | the deduction loop computes that row, or a failing transaction changes nothing |
| Credits.CreditsService.CheckQuota | media_bot_v2/credits/service.py:69-85 | exactly who may start a download, and which of the reasons anybody else is given |
| Credits.CreditsService.AddBandwidthUsed | media_bot_v2/credits/service.py:110-121 | both bandwidth counters of the user grow by the size and nothing else of the row changes, or nothing changes |
| VideoCache.DecodeUndoesEncode | media_bot_v2/cache/video_cache.py:119-213 | reading a row undoes writing it; items that do not match the messages are lost |
| VideoCache.ItemsAlignedOrDropped | media_bot_v2/cache/video_cache.py:190-213 | for every row, items are dropped or stand one to one with the messages |
| VideoCache.DecodeItemList | media_bot_v2/cache/video_cache.py:190-213 | the loop over entries, dropping all on the first bad one |
| VideoCache.NumbersOfARow | media_bot_v2/cache/video_cache.py:203-207 | what a stored number becomes for every JSON value: missing and empty ones are 0, booleans 0 or 1, fractions are cut towards zero, texts read by int, the rest unusable |
| VideoCache.VideoCacheStore.Put | media_bot_v2/cache/video_cache.py:119-147 | one row changes; a lookup of the key then answers with the entry, and of any other key as before |
| VideoCache.WhatARowIs | media_bot_v2/cache/video_cache.py:150-181 | in terms of its JSON a row is a miss exactly when it is not readable, raises exactly when its subtitle names cannot be iterated, and else is an entry that says what the row says |
| VideoCache.VideoCacheStore.Lookup | media_bot_v2/cache/video_cache.py:105-113 | a missing key or an unreadable row is a miss, and nothing else is |
| Delivery.PlanCovers | media_bot_v2/pipeline.py:436-555 | the batches together are every part of every file once, in download order |
| Delivery.AlbumsOfADelivery | media_bot_v2/pipeline.py:438-489 | every album item belongs to a request of several files, is an unsplit photo or video, and neither the request nor the file is sent as a document; a part sent on its own fails one of these tests; albums hold one to ten items, ten if another album follows; only the last batch is signed, exactly when it is an album with the last file |
| Delivery.WhatStandsUnderAPart | media_bot_v2/pipeline.py:852-880 | under a whole file stands the signature, or nothing in an album before the last file; under a part of a split file its number, with the name exactly for documents, and under the last one the signature shortened by that label |
| Delivery.WhatARowKeeps | media_bot_v2/pipeline.py:530-543 | the cached item of a part: kind, length and size of its file, and number, total and label exactly if the file was split |
| Delivery.DeliveryRun.SendAlbumBatch | media_bot_v2/pipeline.py:804-850 | album or fallback: the messages that arrived are a prefix of the batch with the captions meant for them |
| Delivery.DeliveryRun.FlushAlbum | media_bot_v2/pipeline.py:438-474 | flushing delivers the buffer in albums, and at most ten messages are ever unrecorded |
| Delivery.DeliveryRun.DeliverPart | media_bot_v2/pipeline.py:491-551 | one part is sent and recorded, then the one before it drops to its label, so the newest keeps the signature |
| Delivery.DeliveryRun.SendGroup | media_bot_v2/pipeline.py:489-553 | the parts of a file outside albums go out in order and end with the standing captions |
| Delivery.DeliveryRun.Upload | media_bot_v2/pipeline.py:476-555 | wherever it stops, what the user has is a prefix of the parts in download order; a complete upload is the plan |
| Delivery.DeliveryRun.Run | media_bot_v2/pipeline.py:410-759 | for every failure point: recorded sizes are those of the parts delivered first, at most one charge takes effect and for exactly those sizes, it is missing only if every due attempt failed, and a cache row is only written complete and aligned, with the first 4000 characters of the description and a copy of every subtitle; without failures everything is delivered, charged and stored |
| Delivery.BilledFairly | media_bot_v2/pipeline.py:567-576 | the user pays min(balance, price of the recorded sizes), nothing recorded costs nothing, no more than the whole would cost; both bandwidth counters grow by the counted sizes, and no other row changes |
| Delivery.ReplayOfPart | media_bot_v2/pipeline.py:957-977 | the caption replayed for a part is the standing one exactly if the part is no album item before the last file |
| Delivery.WhenAReplayRaises | media_bot_v2/pipeline.py:957-977 | replaying raises exactly when the stored title is neither a text nor empty; a message without an item is shown as a video of which nothing is known |
| Delivery.ReplayEqualsDelivery | media_bot_v2/pipeline.py:957-977 | a stored delivery replays the standing captions if and only if no file but the last travelled in an album |
| Delivery.TwoPhotosReplay | media_bot_v2/pipeline.py:957-977 | the row stored for two photos replays a caption the first one never had |
| ErrorReport.WhatGoesOut | media_bot_v2/telegram/error_report.py:289-368 | over every run: in no half-open minute are more slots consumed than the limit, every accepted report consumed one, equal reports are dedup_seconds apart, and every kept-back report is counted exactly once |
| ErrorReport.AcceptedIff | media_bot_v2/telegram/error_report.py:262-306 | in every run a report is accepted exactly when reports are on, a channel is set and not the chat itself, its kind is not skipped, it was not accepted within dedup_seconds, and fewer than max_per_minute slots were consumed within the last minute; it carries the number kept back since the last one |
| ErrorReport.AttachedIff | media_bot_v2/telegram/error_report.py:426-435 | a log file goes out under the same limit and is never counted as kept back |
| ErrorReport.SpacedCount | media_bot_v2/telegram/error_report.py:336-368 | spacing of consumed slots bounds the count in any minute, not only the latest |
| ErrorReport.ErrorReporter.ReportError | media_bot_v2/telegram/error_report.py:262-306 | the decision of one report and its new fields |
| ErrorReport.ErrorReporter.PruneRateWindow | media_bot_v2/telegram/error_report.py:336-338 | the popping loop keeps exactly the slots of the last minute |
| ErrorReport.ErrorReporter.TakeAttachmentSlot | media_bot_v2/telegram/error_report.py:426-435 | an attachment takes a slot of its own and is never counted as a skipped report |
| ProviderHealth.SuppressedIff | media_bot_v2/providers/health.py:133-156 | for every history, suppressed exactly when the trailing failures reach max(1, threshold) and the cooldown after the last one is not over |
| ProviderHealth.OrderForIs | media_bot_v2/providers/health.py:190-225 | with distinct names the order is the unique arrangement of the unsuppressed candidates by rate, time and position |
| ProviderHealth.BetterComesFirst | media_bot_v2/providers/health.py:209-225 | over histories: of any two in the order the earlier one has at least the success rate of the later one (1 if untried); on equal rates its time per success is not longer (0 if untried, 999 without a success); on equal times it is configured earlier |
| ProviderHealth.ProviderHealthTracker.RecordSuccess | media_bot_v2/providers/health.py:43-80 | the row stays what the longer history makes of it |
| ProviderHealth.ProviderHealthTracker.RecordFailure | media_bot_v2/providers/health.py:82-131 | the same for a failure, with the cooldown |
| ProviderHealth.ProviderHealthTracker.IsSuppressed | media_bot_v2/providers/health.py:133-156 | the stored row answers for the history |
| ProviderHealth.ProviderHealthTracker.Order | media_bot_v2/providers/health.py:158-225 | filtering and sorting give exactly the candidates whose history is not open, arranged over their histories as in BetterComesFirst |
| RetryStore.PutIsGood | media_bot_v2/telegram/retry.py:126-161 | with a new id both maps stay inverse, bounded and ordered by age, and what falls out is the oldest |
| RetryStore.PutKeepsIff | media_bot_v2/telegram/retry.py:126-161 | the maps stay inverse exactly when no live entry of another message has the id |
| RetryStore.TakenWitness | media_bot_v2/telegram/retry.py:126-161 | two messages that draw the same id break them |
| RetryStore.EvictedIsGood | media_bot_v2/telegram/retry.py:194-207 | expiry removes exactly the entries that are too old, from both maps |
| RetryStore.RoutesAgree | media_bot_v2/telegram/retry.py:163-184 | finding and removing by id or by message agree |
| RetryStore.LinksAfterRemoval | media_bot_v2/telegram/retry.py:172-184 | in any store: removing by id takes the link of the removed message exactly when it leads to that id, and no other link |
| RetryStore.NotFound | media_bot_v2/telegram/retry.py:163-184 | nothing is found or changed for a key no entry has |
| RetryStore.RetryStore.PutEntry | media_bot_v2/telegram/retry.py:126-161 | the method with its eviction loops computes the new store |
| RetryStore.RetryStore.Remove | media_bot_v2/telegram/retry.py:172-184 | removal by either key, from both maps |
| Splitter.RawSplitKeepsTheFile | media_bot_v2/upload/splitter.py:213-237 | chunks join to the file, all but the last exactly at the limit; content is lost only for limit 0 |
| Splitter.SplitRaw | media_bot_v2/upload/splitter.py:213-237 | reading in 8 MiB blocks gives those chunks |
| Splitter.EnsurePartsWithinLimit | media_bot_v2/upload/splitter.py:189-210 | the loop and its recursion end and collect the fixed parts in order |
| Splitter.SplitFileIsGood | media_bot_v2/upload/splitter.py:38-95 | for every order-preserving segmenter all parts fit the limit and hold what the file held, in order |
| Splitter.SplitFileIff | media_bot_v2/upload/splitter.py:38-95 | a video is cut by the segmenter at most three times over; splitting fails exactly when a too large file reached in this way cannot be cut, and only files still too large after three cuts are cut by raw bytes |
| Splitter.RawSplitCostsTheSame | media_bot_v2/credits/service.py:36-48 | a raw split never changes the price |
| Mp4Boxes.WalkAgreesWithTheBoxes | media_bot_v2/upload/streamable.py:68-98 | on every file of well-formed boxes the walk tells exactly whether moov is there and before mdat |
| Mp4Boxes.WalkIff | media_bot_v2/upload/streamable.py:68-98 | of any bytes: the walk says yes exactly when boxes of stated sizes, none of them mdat, lead from its start to a moov |
| Mp4Boxes.MoovBeforeMdat | media_bot_v2/upload/streamable.py:68-98 | the offset loop computes the walk on any bytes |

## Left out

- Telethon, requests, yt-dlp, ffmpeg, ffprobe, SQLAlchemy and file system calls: arbitrary answers; a call that raises is taken to have sent or changed nothing.
- telegram/router.py, platform engines, provider clients, text tables, configuration, logging, permissions and address checks: wiring without deep properties.
- Floating point: credits are exact integers, durations and times exact reals or integers; infinities and NaN are not modelled.
- PyText: `int()` and `float()` without underscores and non-ASCII digits, upper and lower case for ASCII letters only.
- HLS addresses: joining and percent-decoding are function parameters; fetching, the audio rendition of a live window, ffmpeg calls and the concat list are answers; errors of the file system other than at the final moves are not modelled.
- HlsDownload.DownloadBatch: a fetch is looked up by segment, and what two workers that write one file at the same time leave in it is not modelled.
- Captions.ParseHtml: the message parser knows closed tags and the five references that escaping produces, and strips the result; lone surrogates cannot occur.
- Progress: the flood waits inside a request of a background retry are part of that request, and what its requests cost is not counted; an exception the code does not catch ends a call like a cancellation; whether a text is terminal and which failure buttons it gets are given with the call; handing buttons to Telegram is not modelled beyond the fields.
- ProgressReporter.MessageProgressReporter.Update: for replies that are possible: a message that was deleted is not edited.
- UploadBar.EditBound: for calls that complete one after another, as the shown percentage is only updated after the awaited edit.
- ErrorReport: building and clamping the report text, and sending it: the limit is on decisions, and a message that waits out floods may leave later.
- Delivery: probing, conversion, progress texts and the description message; a caption edit that fails is logged and leaves the caption, so standing captions are claimed for runs without such failures.
- VideoCache: the hash of the cache key, and JSON text itself (rows hold parsed documents or something unreadable).
- Splitter: file names and the working directory of the segmenter.
- SafeFilename: `within_directory`, which resolves real paths.
