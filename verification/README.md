# ISpooferMotion spoofer run, modelled in Dafny

ISpooferMotion is an Electron app that re-uploads Roblox animations and sounds
under the user's account. The user pastes a list of bracketed lines such as
`[123] [MyWalk] [User555]` and the main process runs `handleSpooferAction`.
That handler:

- checks the request;
- resolves a list of place ids for each creator;
- asks the asset-delivery batch endpoint where each asset lives, in chunks of
  50, one request per creator group, rotating and refreshing place ids when
  replies carry 403 errors;
- downloads every asset that has a location, with progress updates;
- uploads every saved file, unless the run is download-only;
- tallies the outcomes into an `id = newId` mapping and sends the final status
  line and the result.

The project models that run and the helpers it relies on:

- `retryAsync` and `sanitizeFilename` from `modules/utils/common.js`;
- the streamed download and the upload classification from
  `modules/utils/transfer-handlers.js`.

Every call leaving the process is an **oracle**: a total function from "which
call this is" (its call site and a counter) to the outcome of that call. This
covers:

- cookie detection, the CSRF token, `getPlaceIdFromCreator`;
- the batch POST, the download response and its body chunks, the upload reply;
- the size of a downloaded file.

So every sequence of external answers is a possible input. Everything the run
sends to the window is one ordered list of `RunEvent`s:

- transfer updates, addressed by transfer number;
- status lines;
- results.

| file | module | models |
|---|---|---|
| `wrappers.dfy` | `Wrappers` | `Option` |
| `js_text.dfy` | `JsText` | the JavaScript string built-ins the code uses: `trim`, `split`, `\d`, `parseInt`, number printing |
| `common.dfy` | `Common` | `retryAsync` as a loop method proved against the function `Retry`; `sanitizeFilename` |
| `transfer.dfy` | `Transfer` | the download read loop, its progress values and its completion; upload query and reply classification |
| `asset_list.dfy` | `AssetList` | the bracketed-line parser and creator keys |
| `batch_locations.dfy` | `BatchLocations` | `placeIdMap`; chunking; grouping by creator; the rotation loop; recording locations; failed-chunk marking; location classification |
| `run_checks.dfy` | `RunChecks` | the request, the environment and the checks before the first transfer update |
| `run_downloads.dfy` | `RunDownloads` | the per-entry downloads and their events |
| `run_uploads.dfy` | `RunUploads` | upload settings, the per-download uploads and their counting |
| `spoofer_run.dfy` | `SpooferRun` | the result tally, `finalOutput`, and the whole handler as one method |

Where the code works step by step (loops over counters, dictionaries filled
in place), the model is a `method` with a loop. Each such method is proved
equal to a specification function, and the lemmas are stated about that
function. Examples:

- `RetryAsync` / `Retry`;
- `ReadBody` / `ProgressReports`;
- `GroupByCreator` / `CreatorGroups`;
- `ResolveGroup` / `Rotation`;
- `TallyResults` / `Tallied`;
- `HandleSpooferAction` / `RunEvents`.

Where the code is a pure expression (the line parser, upload classification,
`sanitizeFilename`), the model is a function.

The download percentage `Math.round(received / total * 100)` is modelled as
the exact ratio rounded half up in integers,
`(200 * received + total) / (2 * total)`. It differs from the floating-point
value only where the product lands just below a `.5` tie (see "## Left out").

In two places the code is followed rather than a plain reading of what the
app is meant to do:

- In download-only mode the user's own folder is passed to
  `clearDownloadsDirectory` before the run (ipc-handlers.js:126-137).
  `FoldersCleared` records that folder.
- Uploads in sound mode still go to the animation endpoint with
  `assetTypeName=Animation`. The extra argument passed at ipc-handlers.js:465
  is ignored by `publishAnimationRbxmWithProgress`.

## Model

| member | source | states |
|---|---|---|
| Common.RetryAsync | modules/utils/common.js:10-24 | the attempt loop settles as `Retry` says, and with `retries <= 0` it calls nothing and resolves `undefined` |
| Common.RetryLoopIsRetry | modules/utils/common.js:11-23 | the loop's remaining attempts from attempt `i` give what `Retry` gives from `i`, after the events already sent |
| Common.RetryReturnsFirstSuccess | modules/utils/common.js:11-13 | if the first k calls throw and call k+1 returns (k < retries), the result is that value and `fn` ran exactly k+1 times, with k sleeps and, when notifying, k notices |
| Common.RetryExhausted | modules/utils/common.js:15-20 | after `retries` throws, `fn` ran `retries` times, `onRetryAttempt` ran `retries` times when given, and there were `retries - 1` sleeps; the error is "After {retries} attempts: {last message}" with `cause` the last error |
| Common.Enriched | modules/utils/common.js:18-19 | the enriched error's `cause` is the last error |
| Common.RetrySettles | modules/utils/common.js:11-23 | with at least one attempt, the helper never resolves `undefined` |
| Common.RetryResolvesWithReply | modules/utils/common.js:13 | a resolved value is the value some allowed attempt returned |
| Common.RetryEventsAgree | modules/utils/common.js:15-16 | each notice carries (i+1, retries, the error of call i+1); each sleep lasts `delayMs` and follows a throw that is not the last attempt |
| Common.SanitizeFilename | modules/utils/common.js:52-54 | keeps the length, replaces each of the nine reserved characters by `_` and keeps every other character in place; the result holds no reserved character |
| Common.SanitizeFilenameIdempotent | modules/utils/common.js:53 | sanitizing twice equals sanitizing once |
| Common.SanitizeFilenameFixedPoint | modules/utils/common.js:53 | a name is unchanged exactly when it holds no reserved character |
| JsText.Trim | modules/utils/ipc-handlers.js:154 | the trimmed text starts and ends with a non-space, and is empty only for all-space text |
| JsText.SplitJoin | modules/utils/ipc-handlers.js:151-152 | splitting at `\n` and joining back gives the text |
| JsText.JoinSplit | modules/utils/ipc-handlers.js:151-152 | lines without `\n`, joined and split again, come back unchanged |
| JsText.TrimIsInfix | modules/utils/ipc-handlers.js:154 | the trimmed text is the slice of the line that starts after its leading white space, with only white space before and after it |
| JsText.DigitsOnly | modules/utils/ipc-handlers.js:164 | `replace(/[^0-9]/g, '')` keeps only digits and leaves all-digit text unchanged |
| JsText.DigitsOnlyChar | modules/utils/ipc-handlers.js:164 | one character is kept exactly when it is a digit |
| JsText.DigitsOnlyAppend | modules/utils/ipc-handlers.js:164 | the digits of two pieces of text put together are the digits of each, in order, so the result is exactly the text's digits in order |
| JsText.ParseIntAutoAgrees | modules/utils/ipc-handlers.js:292 | `parseInt` with no radix gives NaN wherever radix 10 does, and differs from radix 10 only on text whose digits begin `0x` or `0X`, which radix 10 reads as 0 |
| JsText.ParseIntAutoHex | modules/utils/ipc-handlers.js:292 | without a radix, any white space, an optional `+` or `-`, then `0x` or `0X` and a run of hexadecimal digits read as that hexadecimal value with the sign, whatever follows the run |
| JsText.ParseIntAutoDecimal | modules/utils/ipc-handlers.js:292 | without a radix, any white space, an optional `+` or `-`, then a run of decimal digits (other than a lone `0` before `x` or `X`) read as that decimal value with the sign, whatever follows, the same as with radix 10 |
| JsText.DecimalTextParses | modules/utils/ipc-handlers.js:292 | a non-empty all-digit id parses to its decimal value, with or without radix 10 |
| JsText.HexPrefixExamples | modules/utils/ipc-handlers.js:292 | `0x1A` gives 26 where radix 10 would give 0, and `0x` gives NaN where radix 10 would give 0 |
| Transfer.TotalSize | modules/utils/transfer-handlers.js:16-17 | a missing or non-numeric content-length gives size 0 |
| Transfer.ProgressReports | modules/utils/transfer-handlers.js:22-34 | without a known size no progress value is reported |
| Transfer.ReportsAreRoundedPercents | modules/utils/transfer-handlers.js:26-30 | each reported value is the integer-rounded percentage receivedLength * 100 / totalSize at the chunk that reported it, and the size is known |
| Transfer.ProgressReportsIncrease | modules/utils/transfer-handlers.js:29-31 | reported values exceed the last one sent and strictly increase |
| Transfer.ReadBody | modules/utils/transfer-handlers.js:20-34 | the read loop sends exactly the values `ProgressReports` lists and ends with `lastReportedProgress` at the last of them (-1 if none) |
| Transfer.ReadFromReports | modules/utils/transfer-handlers.js:22-34 | the loop's remaining iterations append the remaining reports |
| Transfer.DownloadAnimationAsset | modules/utils/transfer-handlers.js:10-47 | the download's result and updates are those of `DownloadRun`, the download with its error path as intended |
| Transfer.DownloadOutcome | modules/utils/transfer-handlers.js:12-46 | saved exactly when `fetch` gives an OK response with a body and neither reader nor file stream fails; a rejected `fetch` fails with its own message, and it, a bad status and a missing body fail before anything is streamed, at progress 0; an unknown size sends no progress |
| Transfer.SuccessfulDownloadProgress | modules/utils/transfer-handlers.js:40-41 | a saved download's progress values strictly increase; the last update is `completed`; with a known size the last value is at least 100 |
| Transfer.ClosingProgress | modules/utils/transfer-handlers.js:40-41 | a final 100 is sent only when the last value was below 100 and the size known |
| Transfer.HonestLengthReachesHundred | modules/utils/transfer-handlers.js:27-41 | when the chunks add up to the content-length, values stay at most 100, the last is 100, and no extra 100 is sent |
| Transfer.RoundPercentAtMostHundred | modules/utils/transfer-handlers.js:28 | the percentage of a count within the total is at most 100 |
| Transfer.RoundPercentOfTotal | modules/utils/transfer-handlers.js:28 | the whole total rounds to exactly 100 |
| Transfer.UploadQuery | modules/utils/transfer-handlers.js:74-82 | `assetTypeName=Animation` comes first and only once; `name` comes second; `groupId` is present exactly when the group argument is non-empty, and carries it |
| Transfer.PublishAnimation | modules/utils/transfer-handlers.js:94-110 | published exactly when the file was read and the reply is OK with a non-empty all-digit trimmed body; the asset id is that trimmed body, after a `processing` and a `completed` update |
| Transfer.PublishFailureReported | modules/utils/transfer-handlers.js:56-116 | a file-read error returns "File system error" with one error update; every other failure is returned after `processing` and `error` updates with a non-empty message; an OK reply that is not an id fails "not a valid Asset ID" |
| Transfer.UploadIsNeverRetried | modules/utils/ipc-handlers.js:465-467 | since publishing returns failures instead of throwing, `retryAsync` calls it once and resolves with its first result |
| Transfer.DownloadFailureRejectsAsWritten | modules/utils/transfer-handlers.js:43-46 | as written, every failed download rejects with a ReferenceError, after the updates sent before the catch block |
| Transfer.NotFoundDownloadExample | modules/utils/transfer-handlers.js:14 | a 404 download rejects as written, but settles as a failure at progress 0 when corrected |
| AssetList.ParseLine | modules/utils/ipc-handlers.js:153-171 | a parsed entry's id is empty or starts with a non-space, and its creator id is all digits |
| AssetList.ParseEach | modules/utils/ipc-handlers.js:151-172 | each line is parsed on its own, so other lines never affect its result |
| AssetList.ParseLineReadsFields | modules/utils/ipc-handlers.js:153-171 | a line that parses is, trimmed, a matched `[a] [b] [c]` line; the entry's id and name are the trimmed first and second fields, the trimmed third starts with the creator type's tag (`User` or `Group`), and the creator id is the digits after that tag |
| AssetList.EntryOfReadsFields | modules/utils/ipc-handlers.js:160-171 | a matched line's entry takes the trimmed first and second fields as id and name, and the digits after the `User` or `Group` tag of the trimmed third as creator id |
| AssetList.KeepEntries | modules/utils/ipc-handlers.js:173 | kept entries have a non-empty id and creator id; there are no more of them than results |
| AssetList.KeepEntriesSingle | modules/utils/ipc-handlers.js:173 | one line's result is kept exactly when it is an entry with a non-empty id and creator id |
| AssetList.KeepEntriesAppend | modules/utils/ipc-handlers.js:173 | the filter works line by line: the kept entries of two runs of results are those of each run, in order |
| AssetList.ParseLinesAppend | modules/utils/ipc-handlers.js:153-173 | the entries of two runs of lines are the entries of each run, in order |
| AssetList.BadLineDropped | modules/utils/ipc-handlers.js:153-173 | a line that yields no kept entry is dropped and leaves the entries of the lines before and after it unchanged and in order |
| AssetList.ParseJoinedLines | modules/utils/ipc-handlers.js:151-173 | lines without a line break, joined by `\n`, give exactly the entries of those lines |
| AssetList.LineRead | modules/utils/ipc-handlers.js:153-173 | a line that parses to an entry with an id and a creator id gives just that entry |
| AssetList.BadLineBetweenEntries | modules/utils/ipc-handlers.js:151-173 | a malformed line between two written entries is dropped, and both entries are read, in order |
| AssetList.FooDropped | modules/utils/ipc-handlers.js:155-157 | the line `foo` holds no line break and yields no entry, so it is such a malformed line |
| AssetList.ParseAssetList | modules/utils/ipc-handlers.js:151-173 | every entry of the list has a non-empty id and an all-digit non-empty creator id |
| AssetList.MatchRenderTriple | modules/utils/ipc-handlers.js:156 | the line regex matches a rendered `[a] [b] [c]` line (optional gaps and comma) and captures its three fields |
| AssetList.MatchIsRendering | modules/utils/ipc-handlers.js:156 | whatever the regex matches is such a rendered line, with no `]` inside a field |
| AssetList.ParseFormatEntry | modules/utils/ipc-handlers.js:153-171 | a written entry with clean fields parses back to itself |
| AssetList.ParseFormattedList | modules/utils/ipc-handlers.js:151-173 | a list of written entries, one per line, parses back to the same entries in order |
| AssetList.ParseExampleEntry | modules/utils/ipc-handlers.js:151-173 | `[123] [MyWalk] [User555]` gives the single entry {123, MyWalk, user, 555} |
| AssetList.UnbracketedLineDropped | modules/utils/ipc-handlers.js:155-157 | a blank line, or one not starting with `[`, is dropped |
| AssetList.KeyStringInjective | modules/utils/ipc-handlers.js:258 | two creators with the same `type:id` key are the same creator |
| AssetList.UniqueCreators | modules/utils/ipc-handlers.js:258 | the creator keys without repeats, exactly those of the entries |
| RunChecks.CheckCookie | modules/utils/ipc-handlers.js:184-203 | a cookie that is used is non-empty; without auto-detection the run has a cookie exactly when one was provided |
| RunChecks.AbortSendsOnlyFailures | modules/utils/ipc-handlers.js:131-212 | a stopped run sends at least one event, all of them status lines or failed results and no transfer update; without a download folder nothing is cleared |
| RunChecks.AbortShape | modules/utils/ipc-handlers.js:131-146 | a stopped run sends the failed result for its reason, after the clearing warning when clearing failed (the missing-folder stop sends its status line instead) |
| RunChecks.GateNeverMissesFolder | modules/utils/ipc-handlers.js:143-223 | the checks after the folder check never stop for a missing folder |
| RunChecks.ProceedConditions | modules/utils/ipc-handlers.js:126-223 | the run goes on exactly when the folder is given (download-only), spoofing or download-only is on, some entry parses, a cookie is found, the CSRF token returns and the folder exists; it then uses the parsed entries, the chosen folder and a non-empty cookie |
| BatchLocations.InitialPlacesFallback | modules/utils/ipc-handlers.js:263-280 | when every attempt throws, a creator gets exactly `[99840799534728]`, after 2 calls for a group and 3 for a user |
| BatchLocations.InitialPlacesFound | modules/utils/ipc-handlers.js:265-274 | the first lookup that returns gives the creator's places, a scalar wrapped as a one-place list |
| BatchLocations.InitialPlacesNonEmpty | modules/utils/ipc-handlers.js:273-279 | a creator's place list is non-empty whenever no lookup answers with an empty list |
| BatchLocations.ResolvePlaceIds | modules/utils/ipc-handlers.js:256-281 | `placeIdMap` holds exactly the entries' creator keys, each with its looked-up places |
| BatchLocations.BatchItems | modules/utils/ipc-handlers.js:290-296 | one item per entry, in order, with the entry's id as request id, `parseInt` of it with no radix as asset id, the run's asset type and the entry's creator |
| BatchLocations.WithoutCreator | modules/utils/ipc-handlers.js:321 | the request body keeps every item's request id and drops its creator |
| BatchLocations.ChunksPartition | modules/utils/ipc-handlers.js:297-301 | the chunks cover the items once and in order; each holds 1 to 50, and only the last holds fewer than 50 |
| BatchLocations.GroupByCreator | modules/utils/ipc-handlers.js:304-309 | the grouping loop builds `CreatorGroups` of the chunk |
| BatchLocations.CreatorGroupsSnoc | modules/utils/ipc-handlers.js:305-309 | one more item joins its creator's group, or opens a new group at the end |
| BatchLocations.GroupsPartitionChunk | modules/utils/ipc-handlers.js:304-309 | groups have distinct creators and are non-empty; each item is in exactly its creator's group; group sizes add up to the chunk size |
| BatchLocations.RecordLocations | modules/utils/ipc-handlers.js:382-384 | the recording loop stores each reply under its request id, later replies overwriting earlier ones |
| BatchLocations.RecordedReplyWins | modules/utils/ipc-handlers.js:382-384 | a reply that no later reply overwrites is the one stored for its id |
| BatchLocations.RecordAllLeavesOthers | modules/utils/ipc-handlers.js:382-384 | ids no reply names keep their old entry |
| BatchLocations.ResolveGroup | modules/utils/ipc-handlers.js:312-387 | the rotation loop ends as `Rotation` says, recording the last reply only when it ends by recording |
| BatchLocations.RotationCallsBounded | modules/utils/ipc-handlers.js:316-362 | each continuing iteration increments `retryCount`, so a group makes at most 6 batch calls |
| BatchLocations.RotationIgnoresPlaceValues | modules/utils/ipc-handlers.js:319-333 | since no place id is sent, how a group's loop ends depends on how many places it has, not which |
| BatchLocations.RecordedIsLastReply | modules/utils/ipc-handlers.js:363-385 | what the loop records is the reply to its last call |
| BatchLocations.ForbiddenRecordedOnlyWhenStuck | modules/utils/ipc-handlers.js:341-378 | a recorded reply with a 403 means all 6 calls were used or the last refresh failed |
| BatchLocations.FailureIsLastError | modules/utils/ipc-handlers.js:325-334 | a failed group carries the error its last call threw |
| BatchLocations.SinglePlaceAlwaysSettles | modules/utils/ipc-handlers.js:319-385 | with one place, and refreshes that return one place, the loop always records or fails, never falls out of its guard |
| BatchLocations.PersistentForbiddenUsesEveryRetry | modules/utils/ipc-handlers.js:341-378 | when every reply has a 403 and every refresh gives one place, the group makes all 6 calls and records the last reply |
| BatchLocations.RefreshedSinglePlace | modules/utils/ipc-handlers.js:352-357 | a refresh that returns a scalar gives a one-place list |
| BatchLocations.ResolveChunk | modules/utils/ipc-handlers.js:311-388 | the groups of a chunk run in order until the first error thrown |
| BatchLocations.MarkChunkFailed | modules/utils/ipc-handlers.js:393-396 | the marking loop sends `MarkFailed` of the chunk |
| BatchLocations.FailedChunkMarksEveryItem | modules/utils/ipc-handlers.js:393-396 | every item with a transfer gets one "Batch request failed" error update on the first transfer with its id, in item order |
| BatchLocations.ResolveLocations | modules/utils/ipc-handlers.js:300-398 | the chunk loop builds `Locations`: the locations recorded, the updated `placeIdMap`, `hasAuthError` and the events |
| BatchLocations.LocateChunk | modules/utils/ipc-handlers.js:301-397 | one chunk groups its items, runs the groups, and on a thrown error sets `hasAuthError` and sends the notice and the item marks |
| BatchLocations.ChunkAppendsFailures | modules/utils/ipc-handlers.js:389-397 | a chunk only appends failure notices, and sets `hasAuthError` exactly when it appends any |
| BatchLocations.LocationEventsAreFailures | modules/utils/ipc-handlers.js:300-398 | the location phase sends only failure notices, and `hasAuthError` is set exactly when it sent any |
| BatchLocations.ClassifyLocation | modules/utils/ipc-handlers.js:407-416 | an entry is fetched exactly when its location exists with no errors and some URL, from the first URL; otherwise it fails with the source's three messages |
| BatchLocations.EmptyPlaceListLeavesNoLocation | modules/utils/ipc-handlers.js:319-408 | a group with no places makes no call and records nothing, so its items fail with "No location in batch response" |
| BatchLocations.FirstWithId | modules/utils/ipc-handlers.js:394 | `find` gives the first transfer whose asset id matches, or none |
| RunDownloads.QueuedDownloads | modules/utils/ipc-handlers.js:230-243 | one queued download transfer per entry, in entry order |
| RunDownloads.TransferIdOf | modules/utils/ipc-handlers.js:421-422 | an entry's download uses the first transfer with the same asset id |
| RunDownloads.DownloadOne | modules/utils/ipc-handlers.js:406-431 | one entry's download settles as `DownloadStep` says |
| RunDownloads.DownloadAll | modules/utils/ipc-handlers.js:403-432 | the downloads settle as `Downloads` says |
| RunDownloads.EntryOutcome | modules/utils/ipc-handlers.js:407-430 | an entry is fetched exactly when its location is usable, into `{sanitized name}_{id}{.rbxm or .ogg}` |
| RunDownloads.DownloadsSettleEveryEntry | modules/utils/ipc-handlers.js:406-432 | every entry settles once, in order, as `EntryOutcome`; `downloadCompleted` counts the fetches and lies between the saved count and the entry count |
| RunDownloads.DownloadsFromKeepsOutcomes | modules/utils/ipc-handlers.js:406-432 | the pass over the remaining entries keeps every settled entry as `EntryOutcome` |
| RunDownloads.SuccessesAreFetches | modules/utils/ipc-handlers.js:428-430 | saved downloads are among the fetched ones |
| RunDownloads.SuccessCount | modules/utils/ipc-handlers.js:442 | the saved downloads number at most the downloads |
| RunUploads.GroupArgument | modules/utils/ipc-handlers.js:465 | the group id is passed exactly when its trimmed text is non-empty, unchanged |
| RunUploads.UploadRetriesSetting | modules/utils/ipc-handlers.js:400 | `UPLOAD_RETRIES` is never 0; text without a number gives 3; it is negative exactly when the text starts with a negative number |
| RunUploads.SettleUpload | modules/utils/ipc-handlers.js:466-476 | each upload bumps `uploadCompleted` once, ends with its status line, and is published exactly when `retryAsync` resolved with a publish |
| RunUploads.UploadOne | modules/utils/ipc-handlers.js:443-477 | one saved download's upload settles as `UploadOf` says |
| RunUploads.UploadAll | modules/utils/ipc-handlers.js:440-478 | the uploads settle as `Uploads` says |
| RunUploads.UploadOfRecord | modules/utils/ipc-handlers.js:443-470 | an upload is recorded under its entry's id, a published one carries an all-digit asset id, and the counter goes up by one |
| RunUploads.UploadsFromKeeps | modules/utils/ipc-handlers.js:442-478 | the pass over the remaining downloads keeps the upload invariant |
| RunUploads.UploadsCountEachOnce | modules/utils/ipc-handlers.js:440-478 | exactly the saved downloads are uploaded, in order, each started and counted once; published ids are all digits |
| RunUploads.UnsettledUploadCountedTwice | modules/utils/ipc-handlers.js:466-476 | as written, an upload whose retry never ran is counted twice and sends two status lines |
| RunUploads.NegativeRetriesOverCount | modules/utils/ipc-handlers.js:400-476 | with `uploadRetries` "-1" and one saved download, as written, "Uploaded 1/1" is followed by "Uploaded 2/1" |
| SpooferRun.FirstUpload | modules/utils/ipc-handlers.js:491 | `find` gives the first upload of the entry's id, or none |
| SpooferRun.TallyResults | modules/utils/ipc-handlers.js:482-510 | the result loop computes the counters and the mapping as `Tallied` |
| SpooferRun.TallyFromKeeps | modules/utils/ipc-handlers.js:482-510 | the remaining iterations keep the tally invariant |
| SpooferRun.TallyCounts | modules/utils/ipc-handlers.js:482-510 | downloaded is the saved count; uploaded is at most downloaded; the mapping is empty exactly when nothing was uploaded; download-only uploads nothing; the mapping is lines ending ",\n" |
| SpooferRun.DropFinalComma | modules/utils/ipc-handlers.js:544 | `replace(/,$/, '')` drops one final comma and nothing else |
| SpooferRun.MappingOutputText | modules/utils/ipc-handlers.js:543-544 | a non-empty mapping trims to non-empty text, and the output is the mapping without its final ",\n" |
| SpooferRun.SavedList | modules/utils/ipc-handlers.js:533-536 | one non-empty line per saved download |
| SpooferRun.JoinedNonEmpty | modules/utils/ipc-handlers.js:533-538 | the joined file list is empty exactly when no download was saved |
| SpooferRun.FinalOutputMeaning | modules/utils/ipc-handlers.js:530-555 | download-only lists files exactly when something was saved; the mapping is shown exactly when something was uploaded, without its last ",\n"; authentication failure is shown exactly when nothing was saved and a batch chunk failed; "No operations performed." never appears |
| SpooferRun.PlaceIdMapOf | modules/utils/ipc-handlers.js:256-281 | the keys of `placeIdMap` are exactly the entries' creator keys |
| SpooferRun.DownloadsOf | modules/utils/ipc-handlers.js:403-432 | one download result per entry |
| SpooferRun.RunProceeding | modules/utils/ipc-handlers.js:225-557 | after the checks, the run sends `Proceeding`: queued transfers, the spoofed count, location failures, downloads, the upload section, the final status and the result |
| SpooferRun.HandleSpooferAction | modules/utils/ipc-handlers.js:114-570 | the handler sends `RunEvents` and clears `FoldersCleared` |
| SpooferRun.CleanupDecision | modules/utils/ipc-handlers.js:559-569 | the chosen folder is cleared before the run unless the download folder is missing, and again afterwards only when the run went on and is not download-only |
| SpooferRun.RunEndsWithResult | modules/utils/ipc-handlers.js:519-557 | a run that went on ends with the final status line, then the result |
| SpooferRun.ResultReportsDownloads | modules/utils/ipc-handlers.js:557 | the result succeeds exactly when some download was saved; a download-only run uploads nothing |

## Left out

- Electron and IPC plumbing is not modelled: `registerIpcHandlers`, the window, the preload script and the other handlers. They are not part of the run.
- roblox-api.js is not part of this model. Cookie detection, the CSRF fetch and `getPlaceIdFromCreator` are oracles that return a value or throw.
- File-system effects are not modelled: `clearDownloadsDirectory`, `fs.stat`, `mkdir`, `readFile` and the write stream. The model records which folders are cleared, whether clearing succeeded, whether creating the folder threw, each file's size, and the read and finish errors of each download.
- `fetch`, `setTimeout` and `Promise.all` are not modelled as concurrent. Downloads, then uploads, run one after another in entry order. Interleaved status lines and timing are not captured.
- `crypto.randomUUID` is replaced by sequential transfer numbers. Entry k is queued under number k, and the j-th upload uses number N + j, where N is the entry count. An entry's download updates and its failed-chunk mark go to the first entry with the same id (`TransferIdOf`, `FirstWithId`), as `find` picks them, so with repeated ids they land on that earlier transfer.
- `DEVELOPER_MODE` logging, `console` output and `verboseOutputMessage` are left out. The message is built but never sent.
- The download's cookie and the unused place-id argument are left out. The URL is not interpreted: it only selects, with the entry, which answer the download oracle gives.
- The upload's request headers and body bytes are left out, because they never affect the result. The query parameters are modelled.
- `try`/`catch` around `sendStatusMessage` is left out, because sending never throws in the model.
- BatchLocations.InitialPlacesNonEmpty: holds only when no lookup answers with an empty list. The source wraps an empty array as-is and does not rule this out.
- BatchLocations.GroupsPartitionChunk: states group membership and sizes, not that each group keeps the chunk's item order (which `WithKey`'s definition does).
- Transfer.PublishAnimation: the reply body is cut to its first 350 characters counted as Unicode scalar values (`JsText.Prefix`). JavaScript's `substring(0, 350)` counts UTF-16 code units, so a body with characters outside the Basic Multilingual Plane is cut at a different place, and JavaScript may split a surrogate pair.
- JsText.Prefix: counts Unicode scalar values, where `substring` counts UTF-16 code units. The same difference applies to the 120-character retry notice (ipc-handlers.js:462).
- Transfer.RoundPercent: rounds the exact ratio half up. JavaScript computes `received / total * 100` in floating point, and at an exact `.5` tie the product can fall just below it, so the source can report one less (23 of 40 bytes: JavaScript gives 57, the model 58).
- SpooferRun.HandleSpooferAction: `RunEvents` uses both corrections listed under "## Findings" (`DownloadRun` and `SettleUpload`). As written, a failed download rejects `Promise.all` (ipc-handlers.js:432), and the `ipcMain.on` listener (ipc-handlers.js:51-53) does not catch it. The run then sends no upload section, no final status and no result, and skips the cleanup at ipc-handlers.js:559-569. Only `DownloadRunAsWritten` models that path, for one download.
- BatchLocations.BatchItems: asset ids are unbounded integers. JavaScript numbers lose precision above 2^53, so very long ids are not rounded as the source would round them.
- Transfer.DownloadFailureRejectsAsWritten: states only that the failure rejects. Beyond the corrected run, no claim is made about the progress value of the as-written error path.

## Findings

| source | as written | input that shows it | evidently intended | confidence | as-written member | corrected member |
|---|---|---|---|---|---|---|
| modules/utils/transfer-handlers.js:21-45 | `lastReportedProgress` is declared with `let` inside `try`. The `catch` block reads it, throws a ReferenceError and rejects the download, so `Promise.all` at ipc-handlers.js:432 rejects. | A response with status 404 | An `error` update at the last reported progress (0 when none) and `{success: false, error}` | high, not executed | Transfer.DownloadRunAsWritten, Transfer.DownloadFailureRejectsAsWritten, Transfer.NotFoundDownloadExample | Transfer.DownloadRun, Transfer.DownloadOutcome |
| modules/utils/ipc-handlers.js:466-476 | A negative `uploadRetries` makes `retryAsync` resolve `undefined`. `uploadCompleted` is bumped and reported, then `uploadResult.success` throws, and the `catch` bumps and reports again. | `uploadRetries` "-1" with one saved download: "Uploaded 1/1", then "Uploaded 2/1" | Each upload counted once | high, not executed | RunUploads.SettleUploadAsWritten, RunUploads.NegativeRetriesOverCount, RunUploads.UnsettledUploadCountedTwice | RunUploads.SettleUpload, RunUploads.UploadsCountEachOnce |
