/**
 * The download phase of `handleSpooferAction` (modules/utils/ipc-handlers.js):
 * one queued transfer per entry, then one download per entry that has a
 * usable location. The downloads, run concurrently by `Promise.all`, are
 * taken in entry order.
 */
module RunDownloads {

  import opened Wrappers
  import opened JsText
  import opened Common
  import opened AssetList
  import opened Transfer
  import opened BatchLocations
  import opened RunChecks

  // ---------------------------------------------------------------- queueing

  /** One queued download transfer per entry; the transfer of entry `k` has id `k`. */
  function QueuedDownloads(entries: seq<AssetEntry>): (events: seq<RunEvent>)
    ensures |events| == |entries|
    ensures forall k :: 0 <= k < |entries| ==>
      events[k] == TransferEvent(k, Queued(entries[k].name, entries[k].id, Download, 0))
  {
    seq(|entries|, k requires 0 <= k < |entries| => TransferEvent(k, Queued(entries[k].name, entries[k].id, Download, 0)))
  }

  /** The transfer id `initialTransferStates.find` gives for entry `k`: the first entry with its id. */
  function TransferIdOf(entries: seq<AssetEntry>, k: nat): (t: nat)
    requires k < |entries|
    ensures t <= k && entries[t].id == entries[k].id
  {
    FirstWithId(entries, entries[k].id).value
  }

  // --------------------------------------------------------------- downloads

  /** What a download promise resolves with: no location, or a fetch into `fileName` and its result. */
  datatype EntryDownload = NoLocation(error: string) | Fetched(fileName: string, result: DownloadResult)

  predicate Succeeded(d: EntryDownload) {
    d.Fetched? && d.result.Saved?
  }

  /** The sanitized name, an underscore, the asset id and the extension. */
  function FileName(entry: AssetEntry, sound: bool): string {
    SanitizeFilename(entry.name) + "_" + entry.id + Extension(sound)
  }

  function DownloadEvents(id: nat, updates: seq<DownloadUpdate>): (events: seq<RunEvent>)
    ensures |events| == |updates|
    ensures forall j :: 0 <= j < |updates| ==> events[j] == TransferEvent(id, OfDownload(updates[j]))
  {
    seq(|updates|, j requires 0 <= j < |updates| => TransferEvent(id, OfDownload(updates[j])))
  }

  /** The download of entry `k` once it has a URL: the updates sent and the status line after it. */
  function FetchEvents(entries: seq<AssetEntry>, k: nat, updates: seq<DownloadUpdate>, completed: nat, sound: bool)
    : seq<RunEvent>
    requires k < |entries|
  {
    [TransferEvent(TransferIdOf(entries, k), MarkedProcessing)]
    + DownloadEvents(TransferIdOf(entries, k), updates)
    + [StatusMessage("Downloaded " + Ratio(completed, |entries|) + " " + Plural(sound))]
  }

  /** The downloads settled so far, the events sent, and how many reached their status line. */
  datatype DownloadPhase = DownloadPhase(downloads: seq<EntryDownload>, events: seq<RunEvent>, completed: nat)

  /**
   * The download of entry `k`, `completed` downloads having reached their
   * status line before it: an entry without a usable location settles at once,
   * silently; the others are fetched, then counted. The result is the
   * settled download, the events sent, and the new count.
   */
  function DownloadStep(env: Environment, ctx: Context, locations: map<string, LocationReply>, k: nat, completed: nat)
    : (EntryDownload, seq<RunEvent>, nat)
    requires k < |ctx.entries|
  {
    var entry := ctx.entries[k];
    match ClassifyLocation(locations, entry.id)
    case Unavailable(error) => (NoLocation(error), [], completed)
    case FetchFrom(url) =>
      var response := env.download(DownloadCall(k, url));
      var run := DownloadRun(entry.name, entry.id, response.0, response.1);
      (Fetched(FileName(entry, ctx.sound), run.0), FetchEvents(ctx.entries, k, run.1, completed + 1, ctx.sound), completed + 1)
  }

  /** The downloads settled and the events sent once entries `k..` are downloaded after `done`. */
  function DownloadsFrom(env: Environment, ctx: Context, locations: map<string, LocationReply>, k: nat, done: DownloadPhase)
    : DownloadPhase
    requires k <= |ctx.entries|
    decreases |ctx.entries| - k
  {
    if k == |ctx.entries| then done
    else
      var step := DownloadStep(env, ctx, locations, k, done.completed);
      DownloadsFrom(env, ctx, locations, k + 1, DownloadPhase(done.downloads + [step.0], done.events + step.1, step.2))
  }

  /** The download phase, in entry order. */
  function Downloads(env: Environment, ctx: Context, locations: map<string, LocationReply>): DownloadPhase {
    DownloadsFrom(env, ctx, locations, 0, DownloadPhase([], [], 0))
  }

  /** The download of one entry: fetched from its location, or settled at once when it has none. */
  method DownloadOne(env: Environment, ctx: Context, locations: map<string, LocationReply>, k: nat, completed: nat)
    returns (download: EntryDownload, sent: seq<RunEvent>, completedAfter: nat)
    requires k < |ctx.entries|
    ensures (download, sent, completedAfter) == DownloadStep(env, ctx, locations, k, completed)
  {
    var entry := ctx.entries[k];
    var verdict := ClassifyLocation(locations, entry.id);
    if verdict.Unavailable? {
      download, sent, completedAfter := NoLocation(verdict.error), [], completed;
    } else {
      var response := env.download(DownloadCall(k, verdict.url));
      var result, updates := DownloadAnimationAsset(entry.name, entry.id, response.0, response.1);
      completedAfter := completed + 1;
      download := Fetched(FileName(entry, ctx.sound), result);
      sent := FetchEvents(ctx.entries, k, updates, completedAfter, ctx.sound);
    }
  }

  /** The download phase: one download per entry, in entry order. */
  method DownloadAll(env: Environment, ctx: Context, locations: map<string, LocationReply>)
    returns (downloads: seq<EntryDownload>, events: seq<RunEvent>, completed: nat)
    ensures DownloadPhase(downloads, events, completed) == Downloads(env, ctx, locations)
  {
    downloads, events, completed := [], [], 0;
    for k := 0 to |ctx.entries|
      invariant DownloadsFrom(env, ctx, locations, k, DownloadPhase(downloads, events, completed)) == Downloads(env, ctx, locations)
    {
      var download, sent, completedAfter := DownloadOne(env, ctx, locations, k, completed);
      downloads, events, completed := downloads + [download], events + sent, completedAfter;
    }
  }

  // ------------------------------------------------------ what the phase gives

  /** The settled download of entry `k`, which depends on nothing but its own location and response. */
  function EntryOutcome(env: Environment, ctx: Context, locations: map<string, LocationReply>, k: nat): (d: EntryDownload)
    requires k < |ctx.entries|
    ensures d.NoLocation? <==> ClassifyLocation(locations, ctx.entries[k].id).Unavailable?
    ensures d.Fetched? ==> d.fileName == FileName(ctx.entries[k], ctx.sound)
  {
    var entry := ctx.entries[k];
    match ClassifyLocation(locations, entry.id)
    case Unavailable(error) => NoLocation(error)
    case FetchFrom(url) =>
      var response := env.download(DownloadCall(k, url));
      Fetched(FileName(entry, ctx.sound), DownloadRun(entry.name, entry.id, response.0, response.1).0)
  }

  /** How many of the downloads were fetched, i.e. reached their status line. */
  function Fetches(downloads: seq<EntryDownload>): nat {
    if downloads == [] then 0
    else Fetches(downloads[..|downloads| - 1]) + (if downloads[|downloads| - 1].Fetched? then 1 else 0)
  }

  /** How many of the downloads saved their file. */
  function SuccessCount(downloads: seq<EntryDownload>): (n: nat)
    ensures n <= |downloads|
  {
    if downloads == [] then 0
    else SuccessCount(downloads[..|downloads| - 1]) + (if Succeeded(downloads[|downloads| - 1]) then 1 else 0)
  }

  /** The state of the phase after the first `k` entries: their outcomes in order, and the fetched ones counted. */
  predicate DownloadedUpTo(env: Environment, ctx: Context, locations: map<string, LocationReply>, k: nat, ph: DownloadPhase)
    requires k <= |ctx.entries|
  {
    && |ph.downloads| == k
    && (forall j :: 0 <= j < k ==> ph.downloads[j] == EntryOutcome(env, ctx, locations, j))
    && ph.completed == Fetches(ph.downloads)
  }

  lemma {:induction false} DownloadsFromKeepsOutcomes(env: Environment, ctx: Context, locations: map<string, LocationReply>,
                                                     k: nat, ph: DownloadPhase)
    requires k <= |ctx.entries| && DownloadedUpTo(env, ctx, locations, k, ph)
    ensures DownloadedUpTo(env, ctx, locations, |ctx.entries|, DownloadsFrom(env, ctx, locations, k, ph))
    decreases |ctx.entries| - k
  {
    if k < |ctx.entries| {
      var step := DownloadStep(env, ctx, locations, k, ph.completed);
      var next := DownloadPhase(ph.downloads + [step.0], ph.events + step.1, step.2);
      StepOutcome(env, ctx, locations, k, ph.completed);
      assert next.downloads[..k] == ph.downloads;
      DownloadsFromKeepsOutcomes(env, ctx, locations, k + 1, next);
    }
  }

  /** One step settles the entry as `EntryOutcome` says, and counts it when it was fetched. */
  lemma StepOutcome(env: Environment, ctx: Context, locations: map<string, LocationReply>, k: nat, completed: nat)
    requires k < |ctx.entries|
    ensures var step := DownloadStep(env, ctx, locations, k, completed);
      && step.0 == EntryOutcome(env, ctx, locations, k)
      && step.2 == completed + (if step.0.Fetched? then 1 else 0)
  {
  }

  /**
   * The phase settles every entry, in entry order, each with its own outcome;
   * the count in the "Downloaded" status lines ends at the number of fetched
   * entries, and the downloads that saved a file are counted among those.
   */
  lemma DownloadsSettleEveryEntry(env: Environment, ctx: Context, locations: map<string, LocationReply>)
    ensures var ph := Downloads(env, ctx, locations);
      && |ph.downloads| == |ctx.entries|
      && (forall k :: 0 <= k < |ctx.entries| ==> ph.downloads[k] == EntryOutcome(env, ctx, locations, k))
      && ph.completed == Fetches(ph.downloads)
      && SuccessCount(ph.downloads) <= ph.completed <= |ctx.entries|
  {
    DownloadsFromKeepsOutcomes(env, ctx, locations, 0, DownloadPhase([], [], 0));
    SuccessesAreFetches(Downloads(env, ctx, locations).downloads);
  }

  lemma {:induction false} SuccessesAreFetches(downloads: seq<EntryDownload>)
    ensures SuccessCount(downloads) <= Fetches(downloads) <= |downloads|
  {
    if downloads != [] {
      SuccessesAreFetches(downloads[..|downloads| - 1]);
    }
  }
}
