/**
 * modules/utils/ipc-handlers.js `handleSpooferAction`: one whole run of the
 * spoofer, from the request the window sends to the result it gets back.
 *
 * After its checks the run queues one download transfer per entry, resolves
 * place ids and batch locations, downloads every asset that has a location,
 * uploads every download that saved its file (unless the run is
 * download-only), tallies the outcomes, sends the final status line and the
 * result, and clears the app's own downloads folder.
 */
module SpooferRun {

  import opened Wrappers
  import opened JsText
  import opened Common
  import opened AssetList
  import opened Transfer
  import opened BatchLocations
  import opened RunChecks
  import opened RunDownloads
  import opened RunUploads

  // ------------------------------------------------------------------- tally

  /** `downloadedSuccessfullyCount`, `successfulUploadCount` and `uploadMappingOutput`. */
  datatype Tally = Tally(downloaded: nat, uploaded: nat, mapping: string)

  /** The first upload of an entry with that id. */
  function FirstUpload(uploads: seq<UploadRecord>, id: string): (r: Option<nat>)
    ensures r.Some? ==> r.value < |uploads| && uploads[r.value].id == id
    ensures r.Some? ==> forall j :: 0 <= j < r.value ==> uploads[j].id != id
    ensures r.None? ==> forall j :: 0 <= j < |uploads| ==> uploads[j].id != id
  {
    if uploads == [] then None
    else if uploads[0].id == id then Some(0)
    else match FirstUpload(uploads[1..], id)
      case None => None
      case Some(j) => Some(j + 1)
  }

  /** One mapping line: the old id, ` = `, the new asset id, a comma and a line break. */
  function MappingLine(id: string, assetId: string): string {
    id + " = " + assetId + ",\n"
  }

  /** The result loop on entry `k`: a saved download is counted, and so is its published upload, with its line. */
  function TallyStep(entries: seq<AssetEntry>, downloads: seq<EntryDownload>, uploads: seq<UploadRecord>,
                     downloadOnly: bool, k: nat, t: Tally): Tally
    requires k < |downloads| == |entries|
  {
    if !Succeeded(downloads[k]) then t
    else if downloadOnly then t.(downloaded := t.downloaded + 1)
    else
      match FirstUpload(uploads, entries[k].id)
      case Some(j) =>
        if uploads[j].result.Published? then
          Tally(t.downloaded + 1, t.uploaded + 1, t.mapping + MappingLine(entries[k].id, uploads[j].result.assetId))
        else t.(downloaded := t.downloaded + 1)
      case None => t.(downloaded := t.downloaded + 1)
  }

  function TallyFrom(entries: seq<AssetEntry>, downloads: seq<EntryDownload>, uploads: seq<UploadRecord>,
                     downloadOnly: bool, k: nat, t: Tally): Tally
    requires k <= |downloads| == |entries|
    decreases |downloads| - k
  {
    if k == |downloads| then t
    else TallyFrom(entries, downloads, uploads, downloadOnly, k + 1, TallyStep(entries, downloads, uploads, downloadOnly, k, t))
  }

  function Tallied(entries: seq<AssetEntry>, downloads: seq<EntryDownload>, uploads: seq<UploadRecord>, downloadOnly: bool): Tally
    requires |downloads| == |entries|
  {
    TallyFrom(entries, downloads, uploads, downloadOnly, 0, Tally(0, 0, ""))
  }

  /** The "Process results" loop over `downloadResults`. */
  method TallyResults(entries: seq<AssetEntry>, downloads: seq<EntryDownload>, uploads: seq<UploadRecord>, downloadOnly: bool)
    returns (downloaded: nat, uploaded: nat, mapping: string)
    requires |downloads| == |entries|
    ensures Tally(downloaded, uploaded, mapping) == Tallied(entries, downloads, uploads, downloadOnly)
  {
    downloaded, uploaded, mapping := 0, 0, "";
    for k := 0 to |downloads|
      invariant TallyFrom(entries, downloads, uploads, downloadOnly, k, Tally(downloaded, uploaded, mapping))
             == Tallied(entries, downloads, uploads, downloadOnly)
    {
      if Succeeded(downloads[k]) {
        downloaded := downloaded + 1;
        if !downloadOnly {
          var found := FirstUpload(uploads, entries[k].id);
          if found.Some? && uploads[found.value].result.Published? {
            uploaded := uploaded + 1;
            mapping := mapping + MappingLine(entries[k].id, uploads[found.value].result.assetId);
          }
        }
      }
    }
  }

  /** The mapping text is empty or starts with a non-space character and ends with ",\n". */
  predicate MappingShape(m: string) {
    m == [] || (|m| >= 2 && !IsSpace(m[0]) && m[|m| - 2] == ',' && m[|m| - 1] == '\n')
  }

  /** What the tally guarantees after the first `k` downloads. */
  predicate TalliedUpTo(downloads: seq<EntryDownload>, downloadOnly: bool, k: nat, t: Tally)
    requires k <= |downloads|
  {
    && t.downloaded == SuccessCount(downloads[..k])
    && t.uploaded <= t.downloaded
    && (t.uploaded == 0 <==> t.mapping == [])
    && (downloadOnly ==> t.uploaded == 0)
    && MappingShape(t.mapping)
  }

  lemma TallyStepKeeps(entries: seq<AssetEntry>, downloads: seq<EntryDownload>, uploads: seq<UploadRecord>,
                       downloadOnly: bool, k: nat, t: Tally)
    requires k < |downloads| == |entries|
    requires forall j :: 0 <= j < |entries| ==> entries[j].id != [] && !IsSpace(entries[j].id[0])
    requires TalliedUpTo(downloads, downloadOnly, k, t)
    ensures TalliedUpTo(downloads, downloadOnly, k + 1, TallyStep(entries, downloads, uploads, downloadOnly, k, t))
  {
    assert downloads[..k + 1][..k] == downloads[..k];
    var next := TallyStep(entries, downloads, uploads, downloadOnly, k, t);
    if next.mapping != t.mapping {
      var line := next.mapping[|t.mapping|..];
      assert next.mapping == t.mapping + line;
      assert |line| >= 2 && line[|line| - 2] == ',' && line[|line| - 1] == '\n';
      assert t.mapping == [] ==> next.mapping[0] == entries[k].id[0];
    }
  }

  lemma {:induction false} TallyFromKeeps(entries: seq<AssetEntry>, downloads: seq<EntryDownload>, uploads: seq<UploadRecord>,
                                          downloadOnly: bool, k: nat, t: Tally)
    requires k <= |downloads| == |entries|
    requires forall j :: 0 <= j < |entries| ==> entries[j].id != [] && !IsSpace(entries[j].id[0])
    requires TalliedUpTo(downloads, downloadOnly, k, t)
    ensures TalliedUpTo(downloads, downloadOnly, |downloads|, TallyFrom(entries, downloads, uploads, downloadOnly, k, t))
    decreases |downloads| - k
  {
    if k < |downloads| {
      TallyStepKeeps(entries, downloads, uploads, downloadOnly, k, t);
      TallyFromKeeps(entries, downloads, uploads, downloadOnly, k + 1, TallyStep(entries, downloads, uploads, downloadOnly, k, t));
    }
  }

  /**
   * Every saved download is counted once; an upload is counted only with its
   * download, never in download-only mode, and exactly when it adds a line to
   * the mapping, each line ending in ",\n".
   */
  lemma TallyCounts(entries: seq<AssetEntry>, downloads: seq<EntryDownload>, uploads: seq<UploadRecord>, downloadOnly: bool)
    requires |downloads| == |entries|
    requires forall j :: 0 <= j < |entries| ==> entries[j].id != [] && !IsSpace(entries[j].id[0])
    ensures var t := Tallied(entries, downloads, uploads, downloadOnly);
      && t.downloaded == SuccessCount(downloads)
      && t.uploaded <= t.downloaded
      && (t.uploaded == 0 <==> t.mapping == [])
      && (downloadOnly ==> t.uploaded == 0)
      && MappingShape(t.mapping)
  {
    assert downloads[..0] == [];
    TallyFromKeeps(entries, downloads, uploads, downloadOnly, 0, Tally(0, 0, ""));
    assert downloads[..|downloads|] == downloads;
  }

  // ------------------------------------------------------------ final output

  /** `.replace(/,$/, '')`: one comma at the very end is dropped. */
  function DropFinalComma(s: string): (r: string)
    ensures s != [] && s[|s| - 1] == ',' ==> r == s[..|s| - 1]
    ensures (s == [] || s[|s| - 1] != ',') ==> r == s
  {
    if s != [] && s[|s| - 1] == ',' then s[..|s| - 1] else s
  }

  /** The name and, in parentheses, the id of every saved download, in entry order. */
  function SavedList(entries: seq<AssetEntry>, downloads: seq<EntryDownload>, k: nat): (lines: seq<string>)
    requires k <= |downloads| == |entries|
    ensures |lines| == SuccessCount(downloads[..k])
    ensures forall j :: 0 <= j < |lines| ==> lines[j] != []
  {
    if k == 0 then []
    else
      assert downloads[..k][..k - 1] == downloads[..k - 1];
      SavedList(entries, downloads, k - 1)
        + (if Succeeded(downloads[k - 1]) then [entries[k - 1].name + " (ID: " + entries[k - 1].id + ")"] else [])
  }

  /** The output of the final result, one alternative per branch of the source. */
  datatype FinalOutput =
    | DownloadedTo(downloaded: nat, total: nat, sound: bool, dir: string, list: string)
    | NothingDownloaded(sound: bool)
    | MappingText(text: string)
    | NoUploads(downloaded: nat, total: nat, sound: bool)
    | UploadsSkipped(downloaded: nat, total: nat)
    | AuthFailed
    | NothingProcessed(sound: bool)
    | NothingPerformed

  function OutputText(o: FinalOutput): string {
    match o
    case DownloadedTo(d, n, sound, dir, list) =>
      "Downloaded " + Ratio(d, n) + " " + Plural(sound) + " to:\n" + dir + "\n\nFiles:\n" + list
    case NothingDownloaded(sound) => "No " + Plural(sound) + " were successfully downloaded."
    case MappingText(text) => text
    case NoUploads(d, n, sound) =>
      "Downloads successful (" + Ratio(d, n) + "), but no " + Plural(sound) + " were successfully uploaded."
    case UploadsSkipped(d, n) => "Downloads successful (" + Ratio(d, n) + "). Uploads skipped (CSRF token missing)."
    case AuthFailed => "Authentication failed. Please check your Roblox cookie."
    case NothingProcessed(sound) => "No " + Plural(sound) + " were successfully processed to provide mappings."
    case NothingPerformed => "No operations performed."
  }

  /** How `finalOutput` is chosen. */
  function Final(downloadOnly: bool, ctx: Context, downloads: seq<EntryDownload>, t: Tally, hasAuthError: bool): FinalOutput
    requires |downloads| == |ctx.entries|
  {
    var n := |ctx.entries|;
    if downloadOnly then
      var list := JoinWith(SavedList(ctx.entries, downloads, |downloads|), '\n');
      if list != "" then DownloadedTo(t.downloaded, n, ctx.sound, ctx.dir, list) else NothingDownloaded(ctx.sound)
    else if Trim(t.mapping) != "" then MappingText(DropFinalComma(Trim(t.mapping)))
    else if t.downloaded > 0 && ctx.csrfToken != "" && t.uploaded == 0 then NoUploads(t.downloaded, n, ctx.sound)
    else if t.downloaded > 0 && ctx.csrfToken == "" then UploadsSkipped(t.downloaded, n)
    else if n > 0 then (if hasAuthError then AuthFailed else NothingProcessed(ctx.sound))
    else NothingPerformed
  }

  /** The last status line: where the files went, or how many were uploaded. */
  function FinalStatus(downloadOnly: bool, ctx: Context, t: Tally): RunEvent {
    if downloadOnly then StatusMessage("Download Complete: " + Ratio(t.downloaded, |ctx.entries|) + " files saved to " + ctx.dir)
    else StatusMessage("Operation Successful: " + Ratio(t.uploaded, |ctx.entries|))
  }

  /** A mapping built line by line loses its last ",\n" and nothing else. */
  lemma MappingOutputText(m: string)
    requires m != [] && MappingShape(m)
    ensures Trim(m) != "" && DropFinalComma(Trim(m)) + ",\n" == m
  {
    var body := m[..|m| - 1];
    assert m == body + "\n";
    TrimDropsTrailingSpace(body, "\n");
  }

  /** A non-empty list of non-empty lines joins into a non-empty text. */
  lemma JoinedNonEmpty(lines: seq<string>)
    requires forall j :: 0 <= j < |lines| ==> lines[j] != []
    ensures JoinWith(lines, '\n') != "" <==> lines != []
  {
    if |lines| > 1 {
      assert JoinWith(lines, '\n') == lines[0] + ['\n'] + JoinWith(lines[1..], '\n');
    }
  }

  /**
   * What the final output says. A download-only run lists its files exactly
   * when one was saved. Otherwise the output is the mapping, less its last
   * ",\n", exactly when an upload was published; the authentication message
   * appears exactly when nothing was saved and a batch request failed; and
   * "No operations performed." never appears, a run having at least one entry.
   */
  lemma FinalOutputMeaning(downloadOnly: bool, ctx: Context, downloads: seq<EntryDownload>, uploads: seq<UploadRecord>,
                           hasAuthError: bool)
    requires |downloads| == |ctx.entries| > 0
    requires forall j :: 0 <= j < |ctx.entries| ==> ctx.entries[j].id != [] && !IsSpace(ctx.entries[j].id[0])
    ensures var t := Tallied(ctx.entries, downloads, uploads, downloadOnly);
      var o := Final(downloadOnly, ctx, downloads, t, hasAuthError);
      && (downloadOnly ==> (o.DownloadedTo? <==> SuccessCount(downloads) > 0))
      && (o.MappingText? <==> !downloadOnly && t.uploaded > 0)
      && (o.MappingText? ==> o.text + ",\n" == t.mapping)
      && (o == AuthFailed <==> !downloadOnly && SuccessCount(downloads) == 0 && hasAuthError)
      && o != NothingPerformed
  {
    var t := Tallied(ctx.entries, downloads, uploads, downloadOnly);
    TallyCounts(ctx.entries, downloads, uploads, downloadOnly);
    assert downloads[..|downloads|] == downloads;
    JoinedNonEmpty(SavedList(ctx.entries, downloads, |downloads|));
    if t.mapping != [] {
      MappingOutputText(t.mapping);
    }
  }

  // --------------------------------------------------------------- whole run

  /** `placeIdMap` once the creator loop is done: every creator named by an entry, with its lookup's outcome. */
  function PlaceIdMapOf(lookup: PlaceOracle, entries: seq<AssetEntry>): (m: map<CreatorKey, seq<int>>)
    ensures forall k :: k in m <==> k in KeysOf(entries)
  {
    map k | k in KeysOf(entries) :: InitialPlaces(lookup, k)
  }

  /** The phases of a run that passed its checks, as the run computes them in turn. */
  function LocationsOf(env: Environment, ctx: Context): LocationPhase {
    Locations(env.batch, env.lookup, ctx.entries, AssetTypeName(ctx.sound), PlaceIdMapOf(env.lookup, ctx.entries))
  }

  function DownloadsOf(env: Environment, ctx: Context): (ph: DownloadPhase)
    ensures |ph.downloads| == |ctx.entries|
  {
    DownloadsSettleEveryEntry(env, ctx, LocationsOf(env, ctx).state.locations);
    Downloads(env, ctx, LocationsOf(env, ctx).state.locations)
  }

  function UploadsOf(req: SpooferRequest, env: Environment, ctx: Context): UploadPhase {
    var downloads := DownloadsOf(env, ctx).downloads;
    if req.downloadOnly then UploadPhase([], [], 0, 0) else Uploads(env, ctx, SettingsOf(req, downloads), downloads)
  }

  function TallyOf(req: SpooferRequest, env: Environment, ctx: Context): Tally {
    Tallied(ctx.entries, DownloadsOf(env, ctx).downloads, UploadsOf(req, env, ctx).uploads, req.downloadOnly)
  }

  /** The status line sent once the transfers are queued: nothing spoofed yet. */
  function SpoofedStatus(n: nat): RunEvent {
    StatusMessage("0/" + NatToString(n) + " spoofed")
  }

  const DownloadingStatus: RunEvent := StatusMessage("Downloading animations...")

  const SkippingUploadsStatus: RunEvent := StatusMessage("Download-only mode: Skipping uploads")

  function UploadingStatus(sound: bool): RunEvent {
    StatusMessage("Uploading " + Plural(sound) + "...")
  }

  /** The status line that opens the upload phase, then its events. */
  function UploadSection(req: SpooferRequest, env: Environment, ctx: Context): seq<RunEvent> {
    if req.downloadOnly then [SkippingUploadsStatus]
    else [UploadingStatus(ctx.sound)] + UploadsOf(req, env, ctx).events
  }

  /** The result a run that passed its checks sends last. */
  function ResultOf(req: SpooferRequest, env: Environment, ctx: Context): RunEvent {
    var t := TallyOf(req, env, ctx);
    var o := Final(req.downloadOnly, ctx, DownloadsOf(env, ctx).downloads, t, LocationsOf(env, ctx).hasAuthError);
    RunResult(OutputText(o), t.downloaded > 0 || t.uploaded > 0)
  }

  /** Everything a run that passed its checks sends, from the queued transfers to the result. */
  function Proceeding(req: SpooferRequest, env: Environment, ctx: Context): seq<RunEvent> {
    QueuedDownloads(ctx.entries)
      + [SpoofedStatus(|ctx.entries|)]
      + LocationsOf(env, ctx).events
      + [DownloadingStatus]
      + DownloadsOf(env, ctx).events
      + UploadSection(req, env, ctx)
      + [FinalStatus(req.downloadOnly, ctx, TallyOf(req, env, ctx)), ResultOf(req, env, ctx)]
  }

  /** Everything a run sends, in order. */
  function RunEvents(req: SpooferRequest, env: Environment): seq<RunEvent> {
    match CheckRequest(req, env)
    case Abort(_, events, _) => events
    case Proceed(events, _, ctx) => events + Proceeding(req, env, ctx)
  }

  /** The folders a run passes to `clearDownloadsDirectory`, in order. */
  function FoldersCleared(req: SpooferRequest, env: Environment): seq<string> {
    match CheckRequest(req, env)
    case Abort(_, _, cleared) => cleared
    case Proceed(_, cleared, ctx) => cleared + (if req.downloadOnly then [] else [ctx.dir])
  }

  /** The run after its checks: place ids, locations, downloads, uploads, tally, final status and result. */
  method RunProceeding(req: SpooferRequest, env: Environment, ctx: Context) returns (events: seq<RunEvent>)
    ensures events == Proceeding(req, env, ctx)
  {
    var placeIdMap0 := ResolvePlaceIds(env.lookup, ctx.entries);
    assert placeIdMap0 == PlaceIdMapOf(env.lookup, ctx.entries);
    var locations, placeIdMap, hasAuthError, locationEvents :=
      ResolveLocations(env.batch, env.lookup, ctx.entries, AssetTypeName(ctx.sound), placeIdMap0);
    ghost var loc := LocationsOf(env, ctx);
    assert locations == loc.state.locations && hasAuthError == loc.hasAuthError && locationEvents == loc.events;
    var downloads, downloadEvents, _ := DownloadAll(env, ctx, locations);
    assert downloads == DownloadsOf(env, ctx).downloads && downloadEvents == DownloadsOf(env, ctx).events;
    var uploads: seq<UploadRecord>, section: seq<RunEvent>;
    if req.downloadOnly {
      uploads, section := [], [SkippingUploadsStatus];
    } else {
      var published, uploadEvents, _, _ := UploadAll(env, ctx, SettingsOf(req, downloads), downloads);
      uploads, section := published, [UploadingStatus(ctx.sound)] + uploadEvents;
    }
    assert uploads == UploadsOf(req, env, ctx).uploads && section == UploadSection(req, env, ctx);
    var downloaded, uploaded, mapping := TallyResults(ctx.entries, downloads, uploads, req.downloadOnly);
    var t := Tally(downloaded, uploaded, mapping);
    assert t == TallyOf(req, env, ctx);
    var result := RunResult(OutputText(Final(req.downloadOnly, ctx, downloads, t, hasAuthError)), downloaded > 0 || uploaded > 0);
    assert result == ResultOf(req, env, ctx);
    events := QueuedDownloads(ctx.entries)
      + [SpoofedStatus(|ctx.entries|)]
      + locationEvents
      + [DownloadingStatus]
      + downloadEvents
      + section
      + [FinalStatus(req.downloadOnly, ctx, t), result];
  }

  /** modules/utils/ipc-handlers.js `handleSpooferAction`. */
  method HandleSpooferAction(req: SpooferRequest, env: Environment) returns (events: seq<RunEvent>, cleared: seq<string>)
    ensures events == RunEvents(req, env)
    ensures cleared == FoldersCleared(req, env)
  {
    var checks := CheckRequest(req, env);
    events, cleared := checks.events, checks.cleared;
    if checks.Proceed? {
      var rest := RunProceeding(req, env, checks.ctx);
      events := events + rest;
      if !req.downloadOnly {
        cleared := cleared + [checks.ctx.dir];
      }
    }
  }

  // ------------------------------------------------------- what a run gives

  /**
   * Clearing: a run without a folder in download-only mode clears nothing;
   * every other run clears its folder before the checks, and clears it again
   * at the end only when it went on and is not download-only, so a folder the
   * user chose is never cleared afterwards.
   */
  lemma CleanupDecision(req: SpooferRequest, env: Environment)
    ensures var cleared := FoldersCleared(req, env);
      && (req.downloadOnly && Trim(req.downloadFolder) == "" ==> cleared == [])
      && (!(req.downloadOnly && Trim(req.downloadFolder) == "") ==>
            cleared == if CheckRequest(req, env).Proceed? && !req.downloadOnly
                           then [DownloadsDir(req, env), DownloadsDir(req, env)]
                           else [DownloadsDir(req, env)])
  {
    if CheckRequest(req, env).Proceed? {
      ProceedConditions(req, env);
    }
  }

  /** A run that went on ends with its final status line and then its result. */
  lemma RunEndsWithResult(req: SpooferRequest, env: Environment)
    requires CheckRequest(req, env).Proceed?
    ensures var events := RunEvents(req, env);
      var ctx := CheckRequest(req, env).ctx;
      && |events| >= 2
      && events[|events| - 2] == FinalStatus(req.downloadOnly, ctx, TallyOf(req, env, ctx))
      && events[|events| - 1] == ResultOf(req, env, ctx)
  {
  }

  /**
   * The result of a run that went on reports success exactly when at least
   * one download saved its file, and a download-only run publishes nothing.
   */
  lemma ResultReportsDownloads(req: SpooferRequest, env: Environment)
    requires CheckRequest(req, env).Proceed?
    ensures var ctx := CheckRequest(req, env).ctx;
      && (ResultOf(req, env, ctx).success <==> SuccessCount(DownloadsOf(env, ctx).downloads) > 0)
      && (req.downloadOnly ==> UploadsOf(req, env, ctx).uploads == [] && TallyOf(req, env, ctx).uploaded == 0)
  {
    var ctx := CheckRequest(req, env).ctx;
    ProceedConditions(req, env);
    var downloads := DownloadsOf(env, ctx).downloads;
    TallyCounts(ctx.entries, downloads, UploadsOf(req, env, ctx).uploads, req.downloadOnly);
  }
}
