/**
 * The upload phase of `handleSpooferAction` (modules/utils/ipc-handlers.js):
 * every download that saved its file is published again, through
 * `retryAsync`, under a transfer of its own, and counted in the "Uploaded"
 * status lines. The uploads, run concurrently by `Promise.all`, are taken in
 * entry order; the transfer of the j-th upload has id `N + j`, where `N` is
 * the number of entries (the download transfers have ids `0 .. N - 1`).
 */
module RunUploads {

  import opened Wrappers
  import opened JsText
  import opened Common
  import opened AssetList
  import opened Transfer
  import opened RunChecks
  import opened RunDownloads

  // ---------------------------------------------------------------- settings

  /** The number `text` starts with, or `fallback` when there is none or it is zero. */
  function NumberOr(text: string, fallback: int): int {
    match ParseInt(text)
    case None => fallback
    case Some(v) => if v != 0 then v else fallback
  }

  /** The group id as given when its trimmed text is non-empty, else none (the empty string). */
  function GroupArgument(groupId: string): (g: string)
    ensures g == "" <==> Trim(groupId) == ""
    ensures g != "" ==> g == groupId
  {
    if Trim(groupId) != "" then groupId else ""
  }

  /** The retry count and delay, the group argument, and the number of uploads (`successfulDownloads.length`). */
  datatype UploadSettings = UploadSettings(retries: int, delayMs: int, groupArg: string, total: nat)

  function SettingsOf(req: SpooferRequest, downloads: seq<EntryDownload>): UploadSettings {
    UploadSettings(NumberOr(req.uploadRetries, 3), NumberOr(req.uploadRetryDelay, 5000),
                   GroupArgument(req.groupId), SuccessCount(downloads))
  }

  /**
   * `UPLOAD_RETRIES` is never zero: text without a number gives 3, and any
   * other value is the number itself, so it is negative exactly when the text
   * starts with a negative number.
   */
  lemma UploadRetriesSetting(req: SpooferRequest, downloads: seq<EntryDownload>)
    ensures SettingsOf(req, downloads).retries != 0
    ensures ParseInt(req.uploadRetries).None? ==> SettingsOf(req, downloads).retries == 3
    ensures SettingsOf(req, downloads).retries < 0 <==>
      ParseInt(req.uploadRetries).Some? && ParseInt(req.uploadRetries).value < 0
  {
  }

  // ---------------------------------------------------------------- attempts

  /** The function `retryAsync` retries for the upload at position `k`: one publish call per attempt. */
  function UploadAttempt(env: Environment, entry: AssetEntry, k: nat, query: seq<(string, string)>)
    : nat -> Outcome<UploadResult>
  {
    (n: nat) => Returned(PublishAnimation(entry.name, env.upload(UploadCall(k, n, query))).0)
  }

  function UploadEvents(id: nat, updates: seq<UploadUpdate>): (events: seq<RunEvent>)
    ensures |events| == |updates|
    ensures forall j :: 0 <= j < |updates| ==> events[j] == TransferEvent(id, OfUpload(updates[j]))
  {
    seq(|updates|, j requires 0 <= j < |updates| => TransferEvent(id, OfUpload(updates[j])))
  }

  /**
   * What the run sends for one step of `retryAsync`: the updates of the
   * publish call an attempt makes, or the `onRetryAttempt` notice (its error
   * cut to 120 characters); a sleep sends nothing.
   */
  function AttemptEvent(env: Environment, entry: AssetEntry, k: nat, query: seq<(string, string)>, id: nat, ev: RetryEvent)
    : seq<RunEvent>
  {
    match ev
    case Called(a) =>
      if a == 0 then []
      else UploadEvents(id, PublishAnimation(entry.name, env.upload(UploadCall(k, a - 1, query))).1)
    case Notified(a, max, err) =>
      [TransferEvent(id, RetryNotice("Upload attempt " + NatToString(a) + "/" + IntToString(max) + " for " + entry.name
                                     + " failed. Retrying...", Prefix(err.message, 120)))]
    case Slept(_, _) => []
  }

  function AttemptEvents(env: Environment, entry: AssetEntry, k: nat, query: seq<(string, string)>, id: nat,
                         steps: seq<RetryEvent>): seq<RunEvent>
  {
    if steps == [] then []
    else AttemptEvent(env, entry, k, query, id, steps[0]) + AttemptEvents(env, entry, k, query, id, steps[1..])
  }

  // -------------------------------------------------------------- settlement

  /** The message of the `TypeError` that reading `.success` of `undefined` throws. */
  const UndefinedResultError: string := "Cannot read properties of undefined (reading 'success')"

  /** The status line after an upload: the count so far, out of the saved downloads, and the asset kind. */
  function UploadedStatus(count: nat, total: nat, sound: bool): RunEvent {
    StatusMessage("Uploaded " + Ratio(count, total) + " " + Plural(sound))
  }

  /** How an upload settles: its result, the events sent, and the new value of `uploadCompleted`. */
  datatype Settled = Settled(result: UploadResult, events: seq<RunEvent>, completed: nat)

  /** The `catch` block: an error update, the counter bumped, a status line, and a failed result. */
  function CaughtUpload(id: nat, message: string, completed: nat, total: nat, sound: bool): Settled {
    Settled(NotPublished(message),
            [TransferEvent(id, AllAttemptsFailed("All upload attempts failed: " + message)), UploadedStatus(completed + 1, total, sound)],
            completed + 1)
  }

  /**
   * The `try` block as written. When `retryAsync` settles with `undefined`
   * (a retry count below one), the counter is bumped and its status line sent
   * before `uploadResult.success` throws, and the `catch` block then bumps
   * and sends again.
   */
  function SettleUploadAsWritten(r: RetryResult<UploadResult>, id: nat, completed: nat, total: nat, sound: bool): Settled {
    match r
    case Resolved(v) => Settled(v, [UploadedStatus(completed + 1, total, sound)], completed + 1)
    case Rejected(e) => CaughtUpload(id, e.message, completed, total, sound)
    case Undefined =>
      var caught := CaughtUpload(id, UndefinedResultError, completed + 1, total, sound);
      Settled(caught.result, [UploadedStatus(completed + 1, total, sound)] + caught.events, caught.completed)
  }

  /** As written, an upload whose retry never ran is counted twice, and two status lines are sent for it. */
  lemma UnsettledUploadCountedTwice(id: nat, completed: nat, total: nat, sound: bool)
    ensures var s := SettleUploadAsWritten(Undefined, id, completed, total, sound);
      && s.completed == completed + 2
      && s.events == [UploadedStatus(completed + 1, total, sound),
                      TransferEvent(id, AllAttemptsFailed("All upload attempts failed: " + UndefinedResultError)),
                      UploadedStatus(completed + 2, total, sound)]
  {
  }

  /** `parseInt("-1", 10)` is -1. */
  lemma ParseMinusOne()
    ensures ParseInt("-1") == Some(-1)
  {
    var text := ['-', '1'];
    assert !IsSpace('-');
    assert TrimStart(text) == text;
    var digits := text[1..];
    assert digits == ['1'] && IsDigit('1');
    assert digits[1..] == [];
    assert LeadingDigits(digits) == digits;
    assert digits[..0] == [];
    assert DigitsValue(digits) == 1;
    assert text == "-1";
  }

  /**
   * With `uploadRetries` set to "-1" the retry count is -1, `retryAsync` makes
   * no attempt and settles with `undefined`, and the one upload of a run is
   * reported as "Uploaded 1/1" and then "Uploaded 2/1".
   */
  lemma NegativeRetriesOverCount(req: SpooferRequest, downloads: seq<EntryDownload>, fn: nat -> Outcome<UploadResult>,
                                 id: nat, sound: bool)
    requires req.uploadRetries == "-1" && SuccessCount(downloads) == 1
    ensures var s := SettingsOf(req, downloads);
      && s.retries == -1
      && Retry(fn, s.retries, s.delayMs, true) == (Undefined, [])
      && var settled := SettleUploadAsWritten(Undefined, id, 0, s.total, sound);
        settled.completed == 2 > s.total
        && settled.events[0] == UploadedStatus(1, 1, sound)
        && settled.events[2] == UploadedStatus(2, 1, sound)
  {
    var s := SettingsOf(req, downloads);
    assert s.retries == -1 by {
      ParseMinusOne();
    }
    assert s.total == 1;
    UnsettledUploadCountedTwice(id, 0, 1, sound);
  }

  /**
   * The settlement the run uses: as written, except that an upload whose retry
   * never ran is reported once, as a failure, like a rejected one.
   */
  function SettleUpload(r: RetryResult<UploadResult>, id: nat, completed: nat, total: nat, sound: bool): (s: Settled)
    ensures s.completed == completed + 1
    ensures s.events != [] && s.events[|s.events| - 1] == UploadedStatus(completed + 1, total, sound)
    ensures s.result.Published? <==> r.Resolved? && r.value.Published?
    ensures r.Resolved? ==> s.result == r.value
    ensures r.Rejected? ==> s.result == NotPublished(r.error.message)
    ensures !r.Undefined? ==> s == SettleUploadAsWritten(r, id, completed, total, sound)
  {
    match r
    case Undefined => CaughtUpload(id, UndefinedResultError, completed, total, sound)
    case _ => SettleUploadAsWritten(r, id, completed, total, sound)
  }

  // ------------------------------------------------------------------- phase

  /** An element of `uploadResults`: the entry's id and how its upload ended. */
  datatype UploadRecord = UploadRecord(id: string, result: UploadResult)

  /** The uploads settled so far, the events sent, how many were started, and `uploadCompleted`. */
  datatype UploadPhase = UploadPhase(uploads: seq<UploadRecord>, events: seq<RunEvent>, started: nat, completed: nat)

  /**
   * The upload of entry `k`, the `started`-th upload of the run: queued with
   * the size of its file, published through `retryAsync`, then settled.
   */
  function UploadOf(env: Environment, ctx: Context, s: UploadSettings, k: nat, started: nat, completed: nat)
    : (UploadRecord, seq<RunEvent>, nat)
    requires k < |ctx.entries|
  {
    var entry := ctx.entries[k];
    var id := |ctx.entries| + started;
    var query := UploadQuery(entry.name, s.groupArg);
    var retry := Retry(UploadAttempt(env, entry, k, query), s.retries, s.delayMs, true);
    var settled := SettleUpload(retry.0, id, completed, s.total, ctx.sound);
    (UploadRecord(entry.id, settled.result),
     [TransferEvent(id, Queued(entry.name, entry.id, Upload, env.fileSize(k)))]
       + AttemptEvents(env, entry, k, query, id, retry.1) + settled.events,
     settled.completed)
  }

  /** Entry `k` is uploaded only when its download saved the file. */
  function UploadStep(env: Environment, ctx: Context, s: UploadSettings, downloads: seq<EntryDownload>, k: nat, ph: UploadPhase)
    : UploadPhase
    requires k < |downloads| == |ctx.entries|
  {
    if !Succeeded(downloads[k]) then ph
    else
      var u := UploadOf(env, ctx, s, k, ph.started, ph.completed);
      UploadPhase(ph.uploads + [u.0], ph.events + u.1, ph.started + 1, u.2)
  }

  function UploadsFrom(env: Environment, ctx: Context, s: UploadSettings, downloads: seq<EntryDownload>, k: nat, ph: UploadPhase)
    : UploadPhase
    requires k <= |downloads| == |ctx.entries|
    decreases |downloads| - k
  {
    if k == |downloads| then ph
    else UploadsFrom(env, ctx, s, downloads, k + 1, UploadStep(env, ctx, s, downloads, k, ph))
  }

  /** The upload phase of a run that is not download-only. */
  function Uploads(env: Environment, ctx: Context, s: UploadSettings, downloads: seq<EntryDownload>): UploadPhase
    requires |downloads| == |ctx.entries|
  {
    UploadsFrom(env, ctx, s, downloads, 0, UploadPhase([], [], 0, 0))
  }

  /** One upload: queue it, run `retryAsync` over the publish call, settle. */
  method UploadOne(env: Environment, ctx: Context, s: UploadSettings, k: nat, started: nat, completed: nat)
    returns (record: UploadRecord, sent: seq<RunEvent>, completedAfter: nat)
    requires k < |ctx.entries|
    ensures (record, sent, completedAfter) == UploadOf(env, ctx, s, k, started, completed)
  {
    var entry := ctx.entries[k];
    var id := |ctx.entries| + started;
    var query := UploadQuery(entry.name, s.groupArg);
    sent := [TransferEvent(id, Queued(entry.name, entry.id, Upload, env.fileSize(k)))];
    var fn := UploadAttempt(env, entry, k, query);
    var r, steps := RetryAsync(fn, s.retries, s.delayMs, true);
    var settled := SettleUpload(r, id, completed, s.total, ctx.sound);
    sent := sent + AttemptEvents(env, entry, k, query, id, steps) + settled.events;
    record, completedAfter := UploadRecord(entry.id, settled.result), settled.completed;
  }

  /** The upload phase: one upload per download that saved its file, in entry order. */
  method UploadAll(env: Environment, ctx: Context, s: UploadSettings, downloads: seq<EntryDownload>)
    returns (uploads: seq<UploadRecord>, events: seq<RunEvent>, started: nat, completed: nat)
    requires |downloads| == |ctx.entries|
    ensures UploadPhase(uploads, events, started, completed) == Uploads(env, ctx, s, downloads)
  {
    uploads, events, started, completed := [], [], 0, 0;
    for k := 0 to |downloads|
      invariant UploadsFrom(env, ctx, s, downloads, k, UploadPhase(uploads, events, started, completed))
             == Uploads(env, ctx, s, downloads)
    {
      ghost var before := UploadPhase(uploads, events, started, completed);
      if Succeeded(downloads[k]) {
        var record, sent, completedAfter := UploadOne(env, ctx, s, k, started, completed);
        uploads, events, started, completed := uploads + [record], events + sent, started + 1, completedAfter;
      }
      assert UploadPhase(uploads, events, started, completed) == UploadStep(env, ctx, s, downloads, k, before);
    }
  }

  // ------------------------------------------------------ what the phase gives

  /** The ids of the entries whose download saved a file, among the first `k`, in order. */
  function SavedIds(entries: seq<AssetEntry>, downloads: seq<EntryDownload>, k: nat): seq<string>
    requires k <= |downloads| == |entries|
  {
    if k == 0 then []
    else SavedIds(entries, downloads, k - 1) + (if Succeeded(downloads[k - 1]) then [entries[k - 1].id] else [])
  }

  function RecordIds(uploads: seq<UploadRecord>): (ids: seq<string>)
    ensures |ids| == |uploads| && forall j :: 0 <= j < |uploads| ==> ids[j] == uploads[j].id
  {
    seq(|uploads|, j requires 0 <= j < |uploads| => uploads[j].id)
  }

  /** What the phase guarantees after the first `k` downloads. */
  predicate UploadedUpTo(ctx: Context, s: UploadSettings, downloads: seq<EntryDownload>, k: nat, ph: UploadPhase)
    requires k <= |downloads| == |ctx.entries|
  {
    && ph.started == ph.completed == |ph.uploads| == SuccessCount(downloads[..k])
    && RecordIds(ph.uploads) == SavedIds(ctx.entries, downloads, k)
    && (forall j :: 0 <= j < |ph.uploads| && ph.uploads[j].result.Published? ==> IsAssetId(ph.uploads[j].result.assetId))
  }

  /**
   * One upload is recorded under its entry's id and counted once, and a value
   * its `retryAsync` resolves with is a publish result, so a published id is
   * all digits.
   */
  lemma UploadOfRecord(env: Environment, ctx: Context, s: UploadSettings, k: nat, started: nat, completed: nat)
    requires k < |ctx.entries|
    ensures var u := UploadOf(env, ctx, s, k, started, completed);
      && u.0.id == ctx.entries[k].id
      && (u.0.result.Published? ==> IsAssetId(u.0.result.assetId))
      && u.2 == completed + 1
  {
    var entry := ctx.entries[k];
    var query := UploadQuery(entry.name, s.groupArg);
    var fn := UploadAttempt(env, entry, k, query);
    RetryResolvesWithReply(fn, s.retries, s.delayMs, true);
    var r := Retry(fn, s.retries, s.delayMs, true).0;
    if r.Resolved? && r.value.Published? {
      var n: nat :| n < s.retries && fn(n) == Returned(r.value);
      var reply := env.upload(UploadCall(k, n, query));
      assert r.value == PublishAnimation(entry.name, reply).0;
    }
  }

  lemma UploadStepKeeps(env: Environment, ctx: Context, s: UploadSettings, downloads: seq<EntryDownload>, k: nat, ph: UploadPhase)
    requires k < |downloads| == |ctx.entries| && UploadedUpTo(ctx, s, downloads, k, ph)
    ensures UploadedUpTo(ctx, s, downloads, k + 1, UploadStep(env, ctx, s, downloads, k, ph))
  {
    if Succeeded(downloads[k]) {
      var u := UploadOf(env, ctx, s, k, ph.started, ph.completed);
      UploadOfRecord(env, ctx, s, k, ph.started, ph.completed);
      RecordKeeps(ctx, s, downloads, k, ph, u.0, u.1, u.2);
    } else {
      SkipKeeps(ctx, s, downloads, k, ph);
    }
  }

  lemma RecordKeeps(ctx: Context, s: UploadSettings, downloads: seq<EntryDownload>, k: nat, ph: UploadPhase,
                    record: UploadRecord, sent: seq<RunEvent>, completed: nat)
    requires k < |downloads| == |ctx.entries| && UploadedUpTo(ctx, s, downloads, k, ph) && Succeeded(downloads[k])
    requires record.id == ctx.entries[k].id && (record.result.Published? ==> IsAssetId(record.result.assetId))
    requires completed == ph.completed + 1
    ensures UploadedUpTo(ctx, s, downloads, k + 1, UploadPhase(ph.uploads + [record], ph.events + sent, ph.started + 1, completed))
  {
    assert downloads[..k + 1][..k] == downloads[..k];
    var uploads := ph.uploads + [record];
    assert RecordIds(uploads) == RecordIds(ph.uploads) + [ctx.entries[k].id];
    assert forall j :: 0 <= j < |ph.uploads| ==> uploads[j] == ph.uploads[j];
  }

  lemma SkipKeeps(ctx: Context, s: UploadSettings, downloads: seq<EntryDownload>, k: nat, ph: UploadPhase)
    requires k < |downloads| == |ctx.entries| && UploadedUpTo(ctx, s, downloads, k, ph) && !Succeeded(downloads[k])
    ensures UploadedUpTo(ctx, s, downloads, k + 1, ph)
  {
    assert downloads[..k + 1][..k] == downloads[..k];
  }

  lemma {:induction false} UploadsFromKeeps(env: Environment, ctx: Context, s: UploadSettings, downloads: seq<EntryDownload>,
                                            k: nat, ph: UploadPhase)
    requires k <= |downloads| == |ctx.entries| && UploadedUpTo(ctx, s, downloads, k, ph)
    ensures UploadedUpTo(ctx, s, downloads, |downloads|, UploadsFrom(env, ctx, s, downloads, k, ph))
    decreases |downloads| - k
  {
    if k < |downloads| {
      UploadStepKeeps(env, ctx, s, downloads, k, ph);
      UploadsFromKeeps(env, ctx, s, downloads, k + 1, UploadStep(env, ctx, s, downloads, k, ph));
    }
  }

  /**
   * Every download that saved its file is uploaded exactly once, in entry
   * order, and counted exactly once: `uploadCompleted` ends at the number of
   * uploads, which is `successfulDownloads.length`; a published asset id is a
   * non-empty run of digits.
   */
  lemma UploadsCountEachOnce(env: Environment, ctx: Context, s: UploadSettings, downloads: seq<EntryDownload>)
    requires |downloads| == |ctx.entries|
    ensures var ph := Uploads(env, ctx, s, downloads);
      && ph.started == ph.completed == |ph.uploads| == SuccessCount(downloads)
      && RecordIds(ph.uploads) == SavedIds(ctx.entries, downloads, |downloads|)
      && (forall j :: 0 <= j < |ph.uploads| && ph.uploads[j].result.Published? ==> IsAssetId(ph.uploads[j].result.assetId))
  {
    assert downloads[..0] == [];
    UploadsFromKeeps(env, ctx, s, downloads, 0, UploadPhase([], [], 0, 0));
    assert downloads[..|downloads|] == downloads;
  }
}
