/**
 * The request and the world of one run of `handleSpooferAction`
 * (modules/utils/ipc-handlers.js), and the checks the run makes before its
 * first transfer update.
 *
 * Everything outside the process (the file system, Roblox Studio's cookie
 * store, the web endpoints) is a field of `Environment`, answered per call.
 */
module RunChecks {

  import opened Wrappers
  import opened JsText
  import opened Common
  import opened AssetList
  import opened Transfer
  import opened BatchLocations

  /** The fields of the request the run reads; a missing text field is the empty string. */
  datatype SpooferRequest = SpooferRequest(
    animationId: string,
    spoofSounds: bool,
    enableSpoofing: bool,
    downloadOnly: bool,
    downloadFolder: string,
    autoDetectCookie: bool,
    robloxCookie: string,
    groupId: string,
    uploadRetries: string,
    uploadRetryDelay: string)

  /** Which download is being fetched: the entry's position and the URL of its location. */
  datatype DownloadCall = DownloadCall(entryIndex: nat, url: string)

  /** Which publish call is being made: the entry's position, the attempt, and the upload query. */
  datatype UploadCall = UploadCall(entryIndex: nat, attempt: nat, query: seq<(string, string)>)

  /** What the world answers the run. */
  datatype Environment = Environment(
    appDownloadsDir: string,                          // the `ispoofer_downloads` folder under the user-data path
    clearSucceeds: bool,                              // `clearDownloadsDirectory(downloadsDir)` before the run
    detectCookie: Option<string> -> Outcome<string>,  // `getCookieFromRobloxStudio(userId?)`; "" is a falsy cookie
    csrf: Outcome<string>,                            // `getCsrfToken(cookie)`
    ensureDirError: Option<string>,                   // the error creating the downloads folder throws, if any
    lookup: PlaceOracle,
    batch: BatchOracle,
    download: DownloadCall -> (DownloadResponse, BodyStream),
    fileSize: nat -> nat,                             // `fs.stat(filePath).size` of an entry's file, 0 when it fails
    upload: UploadCall -> UploadReply)

  function Plural(sound: bool): string {
    if sound then "sounds" else "animations"
  }

  function Singular(sound: bool): string {
    if sound then "sound" else "animation"
  }

  function AssetTypeName(sound: bool): string {
    if sound then "Audio" else "Animation"
  }

  function Extension(sound: bool): string {
    if sound then ".ogg" else ".rbxm"
  }

  /** `n/total`, as the status lines print counts. */
  function Ratio(n: nat, total: nat): string {
    NatToString(n) + "/" + NatToString(total)
  }

  // ----------------------------------------------------------- preconditions

  /** The folder the run downloads into: the trimmed user folder in download-only mode, the app's own otherwise. */
  function DownloadsDir(req: SpooferRequest, env: Environment): string {
    if req.downloadOnly && Trim(req.downloadFolder) != "" then Trim(req.downloadFolder) else env.appDownloadsDir
  }

  /** What the checks before any transfer decide about the run. */
  datatype Context = Context(dir: string, sound: bool, entries: seq<AssetEntry>, cookie: string, csrfToken: string)

  /**
   * Either the run stops, after sending `events`, or it goes on with a context,
   * after sending `events` (the warning that clearing failed, if it did).
   * `cleared` lists the folders passed to `clearDownloadsDirectory`.
   */
  datatype Preflight =
    | Abort(reason: StopReason, events: seq<RunEvent>, cleared: seq<string>)
    | Proceed(events: seq<RunEvent>, cleared: seq<string>, ctx: Context)

  /** Why a run stops before its first transfer update. */
  datatype StopReason =
    | NoDownloadFolder
    | SpoofingOff
    | NoValidEntries(sound: bool)
    | CookieNotDetected(message: string)
    | CookieNotProvided
    | CsrfFailed(message: string)
    | DirectoryFailed(message: string)

  /** The output of the failed result a stopped run sends. */
  function StopMessage(reason: StopReason): string {
    match reason
    case NoDownloadFolder => "Please select a download folder for Download-Only mode."
    case SpoofingOff => "Enable Spoofing toggle is OFF and Download-Only mode is not enabled."
    case NoValidEntries(sound) => "No valid " + Singular(sound) + " entries."
    case CookieNotDetected(m) => "Failed to auto-detect cookie: " + m
    case CookieNotProvided => "Roblox cookie not provided."
    case CsrfFailed(m) => "Failed to get CSRF token: " + m
    case DirectoryFailed(m) => "Failed to ensure downloads directory exists: " + m
  }

  function Stop(reason: StopReason): RunEvent {
    RunResult(StopMessage(reason), false)
  }

  /** The message of the error thrown when auto-detection yields a falsy cookie. */
  const EmptyCookieError: string := "Auto-detected cookie empty/not found."

  const NoFolderStatus: string := "Error: No download folder selected"

  const ClearWarning: string := "Warning: Could not fully clear previous downloads."

  /** The cookie the run uses, or why it stops. */
  datatype CookieCheck = CookieFound(cookie: string) | CookieMissing(reason: StopReason)

  function CheckCookie(req: SpooferRequest, env: Environment, first: AssetEntry): (c: CookieCheck)
    ensures c.CookieFound? ==> c.cookie != ""
    ensures c.CookieMissing? ==> c.reason.CookieNotDetected? || c.reason == CookieNotProvided
    ensures !req.autoDetectCookie ==> (c.CookieFound? <==> req.robloxCookie != "")
  {
    if req.autoDetectCookie then
      match env.detectCookie(if first.creatorType == User then Some(first.creatorId) else None)
      case Threw(e) => CookieMissing(CookieNotDetected(e.message))
      case Returned(cookie) =>
        if cookie == "" then CookieMissing(CookieNotDetected(EmptyCookieError)) else CookieFound(cookie)
    else if req.robloxCookie == "" then CookieMissing(CookieNotProvided)
    else CookieFound(req.robloxCookie)
  }

  /** The outcome of the checks after the folder is cleared: why the run stops, or its context. */
  datatype GateOutcome = Fail(reason: StopReason) | Pass(ctx: Context)

  function Gate(req: SpooferRequest, env: Environment, dir: string): GateOutcome {
    if !req.enableSpoofing && !req.downloadOnly then Fail(SpoofingOff)
    else
      var entries := ParseAssetList(req.animationId);
      if entries == [] then Fail(NoValidEntries(req.spoofSounds))
      else
        match CheckCookie(req, env, entries[0])
        case CookieMissing(r) => Fail(r)
        case CookieFound(cookie) =>
          match env.csrf
          case Threw(e) => Fail(CsrfFailed(e.message))
          case Returned(token) =>
            match env.ensureDirError
            case Some(m) => Fail(DirectoryFailed(m))
            case None => Pass(Context(dir, req.spoofSounds, entries, cookie, token))
  }

  /** The failed result sent, without stopping the run, when the folder could not be cleared. */
  function ClearingWarning(env: Environment): seq<RunEvent> {
    if env.clearSucceeds then [] else [RunResult(ClearWarning, false)]
  }

  /** The checks of `handleSpooferAction` before the first transfer update, in their order. */
  function CheckRequest(req: SpooferRequest, env: Environment): Preflight {
    if req.downloadOnly && Trim(req.downloadFolder) == "" then
      Abort(NoDownloadFolder, [Stop(NoDownloadFolder), StatusMessage(NoFolderStatus)], [])
    else
      var dir := DownloadsDir(req, env);
      match Gate(req, env, dir)
      case Fail(r) => Abort(r, ClearingWarning(env) + [Stop(r)], [dir])
      case Pass(ctx) => Proceed(ClearingWarning(env), [dir], ctx)
  }

  /** What a stopped run may send: a status line or a failed result, never a transfer update or a success. */
  predicate IsStopEvent(e: RunEvent) {
    e.StatusMessage? || (e.RunResult? && !e.success)
  }

  predicate OnlyStopEvents(events: seq<RunEvent>) {
    events == [] || (IsStopEvent(events[0]) && OnlyStopEvents(events[1..]))
  }

  lemma {:induction false} OnlyStopEventsEverywhere(events: seq<RunEvent>)
    ensures OnlyStopEvents(events) <==> forall j :: 0 <= j < |events| ==> IsStopEvent(events[j])
  {
    if events != [] {
      OnlyStopEventsEverywhere(events[1..]);
      assert forall j :: 1 <= j < |events| ==> events[j] == events[1..][j - 1];
    }
  }

  /**
   * A run that stops early sends only failed results (and, for a missing
   * folder, one status line), never a transfer update, and clears nothing
   * when the folder is missing.
   */
  lemma AbortSendsOnlyFailures(req: SpooferRequest, env: Environment)
    requires CheckRequest(req, env).Abort?
    ensures CheckRequest(req, env).events != [] && OnlyStopEvents(CheckRequest(req, env).events)
    ensures req.downloadOnly && Trim(req.downloadFolder) == "" ==> CheckRequest(req, env).cleared == []
  {
    var p := CheckRequest(req, env);
    AbortShape(req, env);
    StoppedEvents(p.reason, ClearingWarning(env), p.events);
  }

  lemma StoppedEvents(reason: StopReason, w: seq<RunEvent>, events: seq<RunEvent>)
    requires w == [] || w == [RunResult(ClearWarning, false)]
    requires events == if reason == NoDownloadFolder then [Stop(NoDownloadFolder), StatusMessage(NoFolderStatus)]
                        else w + [Stop(reason)]
    ensures OnlyStopEvents(events)
  {
    if reason == NoDownloadFolder {
      StopPair(StopMessage(NoDownloadFolder), NoFolderStatus);
    } else {
      assert OnlyStopEvents(w) by {
        if w != [] { assert w[1..] == []; }
      }
      WarnedStop(w, Stop(reason));
    }
  }

  lemma StopPair(a: string, b: string)
    ensures OnlyStopEvents([RunResult(a, false), StatusMessage(b)])
  {
    assert [RunResult(a, false), StatusMessage(b)][1..][1..] == [];
  }

  lemma WarnedStop(w: seq<RunEvent>, e: RunEvent)
    requires |w| <= 1 && OnlyStopEvents(w) && IsStopEvent(e)
    ensures OnlyStopEvents(w + [e])
  {
    if w == [] {
      assert (w + [e])[1..] == [];
    } else {
      assert (w + [e])[1..] == [e];
      assert [e][1..] == [];
    }
  }

  /** The events of a stopped run: the folder message and status line, or the clearing warning and the reason. */
  lemma AbortShape(req: SpooferRequest, env: Environment)
    requires CheckRequest(req, env).Abort?
    ensures var p := CheckRequest(req, env);
      p.events == if p.reason == NoDownloadFolder then [Stop(NoDownloadFolder), StatusMessage(NoFolderStatus)]
                  else ClearingWarning(env) + [Stop(p.reason)]
  {
    if !(req.downloadOnly && Trim(req.downloadFolder) == "") {
      GateNeverMissesFolder(req, env, DownloadsDir(req, env));
    }
  }

  /** The checks after clearing never complain about the folder: that one is made first. */
  lemma GateNeverMissesFolder(req: SpooferRequest, env: Environment, dir: string)
    ensures Gate(req, env, dir).Fail? ==> Gate(req, env, dir).reason != NoDownloadFolder
  {
    if req.enableSpoofing || req.downloadOnly {
      var entries := ParseAssetList(req.animationId);
      if entries != [] {
        var cookie := CheckCookie(req, env, entries[0]);
        assert cookie.CookieMissing? ==> Gate(req, env, dir).reason == cookie.reason;
      }
    }
  }

  /**
   * A run goes on exactly when a folder is given in download-only mode,
   * spoofing or download-only mode is on, the list has an entry, a cookie is
   * found, the CSRF token is fetched and the folder exists.
   */
  lemma ProceedConditions(req: SpooferRequest, env: Environment)
    ensures CheckRequest(req, env).Proceed? <==>
      && !(req.downloadOnly && Trim(req.downloadFolder) == "")
      && (req.enableSpoofing || req.downloadOnly)
      && ParseAssetList(req.animationId) != []
      && CheckCookie(req, env, ParseAssetList(req.animationId)[0]).CookieFound?
      && env.csrf.Returned?
      && env.ensureDirError.None?
    ensures CheckRequest(req, env).Proceed? ==>
      && CheckRequest(req, env).ctx.entries == ParseAssetList(req.animationId)
      && CheckRequest(req, env).ctx.dir == DownloadsDir(req, env)
      && CheckRequest(req, env).ctx.cookie != ""
      && CheckRequest(req, env).events == ClearingWarning(env)
  {
  }
}
