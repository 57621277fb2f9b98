/**
 * modules/utils/transfer-handlers.js: the streamed download with its progress
 * counter, and the animation upload with its response check.
 *
 * The network and the file system are inputs. A download is described by the
 * HTTP response (status, body present, content-length header) and by what the
 * body reader yields (chunk lengths, then either the end or a read error) and
 * whether the file stream finishes. An upload is described by whether the file
 * could be read and by the HTTP reply.
 *
 * The module also declares the updates and events that the run sends to the
 * observer (`sendTransferUpdate`, `sendStatusMessage`, the final result).
 */
module Transfer {

  import opened Wrappers
  import opened JsText
  import opened Common

  // ---------------------------------------------------------------- download

  /** The `content-length` header: missing, a number, or text that is not a number. */
  datatype ContentLength = Absent | Numeric(value: int) | NotNumeric

  /**
   * `Number(header)` as the code uses it: `Number(null)` is 0, and NaN behaves
   * like 0 for both uses (`isNaN(total) ? 0 : total` and `total > 0`).
   */
  function TotalSize(h: ContentLength): (t: int)
    ensures h.Absent? || h.NotNumeric? ==> t == 0
  {
    match h
    case Absent => 0
    case Numeric(v) => v
    case NotNumeric => 0
  }

  /** What `fetch` of the asset gives: a response, or a rejection with its message (network failure, bad URL). */
  datatype DownloadResponse =
    | DownloadResponse(ok: bool, status: nat, statusText: string, hasBody: bool, contentLength: ContentLength)
    | FetchThrew(message: string)

  /** The body as read: chunk lengths, then an optional read error; then whether the file stream fails to finish. */
  datatype BodyStream = BodyStream(chunks: seq<nat>, readError: Option<string>, finishError: Option<string>)

  /** The partial transfer records the download sends, in order. */
  datatype DownloadUpdate =
    | DownloadStarted(name: string, originalAssetId: string)  // status processing, progress 0, size 0
    | SizeReported(size: int)
    | ProgressReported(progress: int)
    | DownloadCompleted                                       // status completed, progress 100
    | DownloadFailed(error: string, progress: int)            // status error

  datatype DownloadResult = Saved | NotSaved(error: string)

  /**
   * `Math.round(received / total * 100)` for a non-negative count and a positive
   * total, on the exact ratio rounded half up.
   */
  function RoundPercent(received: nat, total: int): int
    requires total > 0
  {
    (200 * received + total) / (2 * total)
  }

  /** The bytes in the chunks from index `i` on. */
  function SumFrom(chunks: seq<nat>, i: nat): nat
    requires i <= |chunks|
    decreases |chunks| - i
  {
    if i == |chunks| then 0 else chunks[i] + SumFrom(chunks, i + 1)
  }

  /**
   * The progress values the read loop reports for the chunks from index `i` on,
   * given the bytes received so far and the last value reported: a value is
   * reported only when the total is known (positive) and it exceeds the last one.
   */
  function ProgressReports(chunks: seq<nat>, i: nat, total: int, received: nat, last: int): (r: seq<int>)
    requires i <= |chunks|
    ensures total <= 0 ==> r == []
    decreases |chunks| - i
  {
    if i == |chunks| then []
    else
      var now := received + chunks[i];
      if total > 0 && RoundPercent(now, total) > last then
        [RoundPercent(now, total)] + ProgressReports(chunks, i + 1, total, now, RoundPercent(now, total))
      else
        ProgressReports(chunks, i + 1, total, now, last)
  }

  /** Each value reported exceeds the one before it, the first exceeding the last value already sent. */
  lemma {:induction false} ProgressReportsIncrease(chunks: seq<nat>, i: nat, total: int, received: nat, last: int)
    requires i <= |chunks|
    ensures var r := ProgressReports(chunks, i, total, received, last);
      (forall j :: 0 <= j < |r| ==> r[j] > last) && StrictlyIncreasing(r)
    decreases |chunks| - i
  {
    if i < |chunks| {
      var now := received + chunks[i];
      if total > 0 && RoundPercent(now, total) > last {
        var p := RoundPercent(now, total);
        ProgressReportsIncrease(chunks, i + 1, total, now, p);
        var rest := ProgressReports(chunks, i + 1, total, now, p);
        var r := [p] + rest;
        forall j | 0 < j < |r|
          ensures r[j - 1] < r[j]
        {
          assert r[j] == rest[j - 1];
          if j > 1 {
            assert r[j - 1] == rest[j - 2];
          }
        }
      } else {
        ProgressReportsIncrease(chunks, i + 1, total, now, last);
      }
    }
  }

  /** `receivedLength` once the first `m` chunks have arrived. */
  function ReceivedAfter(chunks: seq<nat>, m: nat): nat
    requires m <= |chunks|
  {
    if m == 0 then 0 else ReceivedAfter(chunks, m - 1) + chunks[m - 1]
  }

  /** How many chunks had arrived at each progress report. */
  ghost function ReportPoints(chunks: seq<nat>, i: nat, total: int, received: nat, last: int): seq<nat>
    requires i <= |chunks|
    decreases |chunks| - i
  {
    if i == |chunks| then []
    else
      var now := received + chunks[i];
      if total > 0 && RoundPercent(now, total) > last then
        [i + 1] + ReportPoints(chunks, i + 1, total, now, RoundPercent(now, total))
      else
        ReportPoints(chunks, i + 1, total, now, last)
  }

  /** Every value reported is the rounded percentage `RoundPercent(receivedLength, totalSize)` at the chunk that reported it. */
  lemma {:induction false} ReportsAreRoundedPercents(chunks: seq<nat>, i: nat, total: int, received: nat, last: int)
    requires i <= |chunks| && received == ReceivedAfter(chunks, i)
    ensures var r := ProgressReports(chunks, i, total, received, last);
      var points := ReportPoints(chunks, i, total, received, last);
      && |points| == |r|
      && forall j :: 0 <= j < |r| ==>
           i < points[j] <= |chunks| && total > 0 && r[j] == RoundPercent(ReceivedAfter(chunks, points[j]), total)
    decreases |chunks| - i
  {
    if i < |chunks| {
      var now := received + chunks[i];
      assert now == ReceivedAfter(chunks, i + 1);
      if total > 0 && RoundPercent(now, total) > last {
        ReportsAreRoundedPercents(chunks, i + 1, total, now, RoundPercent(now, total));
      } else {
        ReportsAreRoundedPercents(chunks, i + 1, total, now, last);
      }
    }
  }

  /** The value of `lastReportedProgress` once the reports are sent. */
  function LastOf(reports: seq<int>, last: int): int {
    if reports == [] then last else reports[|reports| - 1]
  }

  function AsUpdates(reports: seq<int>): (u: seq<DownloadUpdate>)
    ensures |u| == |reports| && forall j :: 0 <= j < |u| ==> u[j] == ProgressReported(reports[j])
  {
    seq(|reports|, j requires 0 <= j < |reports| => ProgressReported(reports[j]))
  }

  /** How the `try` block of the download ends: normally, or by throwing. */
  datatype TryOutcome =
    | Finished(updates: seq<DownloadUpdate>)
    | Caught(message: string, updates: seq<DownloadUpdate>, lastReported: int)

  /** The `try` block: the checks on the response, the read loop, the final 100 and completion. */
  function DownloadTry(name: string, originalAssetId: string, resp: DownloadResponse, body: BodyStream): TryOutcome {
    var start := [DownloadStarted(name, originalAssetId)];
    if resp.FetchThrew? then
      Caught(resp.message, start, -1)
    else if !resp.ok then
      Caught("Failed to download asset: " + NatToString(resp.status) + " " + resp.statusText, start, -1)
    else if !resp.hasBody then
      Caught("No response body for asset", start, -1)
    else
      var total := TotalSize(resp.contentLength);
      var reports := ProgressReports(body.chunks, 0, total, 0, -1);
      var last := LastOf(reports, -1);
      var streamed := start + [SizeReported(total)] + AsUpdates(reports);
      if body.readError.Some? then Caught(body.readError.value, streamed, last)
      else if body.finishError.Some? then Caught("File stream error: " + body.finishError.value, streamed, last)
      else Finished(streamed + Closing(last, total))
  }

  /** After the loop: a final 100 when the last value sent was below it and the size was known, then completion. */
  function Closing(last: int, total: int): seq<DownloadUpdate> {
    (if last < 100 && total > 0 then [ProgressReported(100)] else []) + [DownloadCompleted]
  }

  /**
   * The download with the `catch` block as intended: an error update carrying
   * the last reported progress (0 when none), and `{success: false, error}`.
   */
  function DownloadRun(name: string, originalAssetId: string, resp: DownloadResponse, body: BodyStream)
    : (DownloadResult, seq<DownloadUpdate>)
  {
    match DownloadTry(name, originalAssetId, resp, body)
    case Finished(u) => (Saved, u)
    case Caught(m, u, last) => (NotSaved(m), u + [DownloadFailed(m, if last >= 0 then last else 0)])
  }

  /** How the download promise settles as the source is written. */
  datatype AsWrittenSettlement =
    | Fulfilled(result: DownloadResult, updates: seq<DownloadUpdate>)
    | RejectedAfter(error: Error, updates: seq<DownloadUpdate>)

  /**
   * The download as written: the `catch` block reads `lastReportedProgress`,
   * which was declared with `let` inside the `try` block and is not in scope
   * there, so building the error update throws a ReferenceError and the
   * promise rejects without sending an error update or returning a result.
   */
  function DownloadRunAsWritten(name: string, originalAssetId: string, resp: DownloadResponse, body: BodyStream)
    : AsWrittenSettlement
  {
    match DownloadTry(name, originalAssetId, resp, body)
    case Finished(u) => Fulfilled(Saved, u)
    case Caught(_, u, _) => RejectedAfter(Error("lastReportedProgress is not defined", None), u)
  }

  /** Every download that fails rejects as written, where the intended code returns a failure. */
  lemma DownloadFailureRejectsAsWritten(name: string, originalAssetId: string, resp: DownloadResponse, body: BodyStream)
    requires DownloadRun(name, originalAssetId, resp, body).0.NotSaved?
    ensures DownloadRunAsWritten(name, originalAssetId, resp, body).RejectedAfter?
    ensures DownloadRunAsWritten(name, originalAssetId, resp, body).updates
         == DownloadRun(name, originalAssetId, resp, body).1[..|DownloadRun(name, originalAssetId, resp, body).1| - 1]
  {
  }

  /** A 404 response: as written the promise rejects; as intended it returns a failure at progress 0. */
  lemma NotFoundDownloadExample()
    ensures var resp := DownloadResponse(false, 404, "Not Found", true, Absent);
      var body := BodyStream([], None, None);
      && DownloadRunAsWritten("Walk", "123", resp, body)
         == RejectedAfter(Error("lastReportedProgress is not defined", None), [DownloadStarted("Walk", "123")])
      && DownloadRun("Walk", "123", resp, body).0 == NotSaved("Failed to download asset: 404 Not Found")
      && DownloadRun("Walk", "123", resp, body).1
         == [DownloadStarted("Walk", "123"), DownloadFailed("Failed to download asset: 404 Not Found", 0)]
  {
    assert NatToString(404) == "404" by {
      assert NatToString(4) == "4";
      assert NatToString(40) == "40";
    }
    assert "Failed to download asset: " + "404" + " " + "Not Found" == "Failed to download asset: 404 Not Found";
  }

  /**
   * modules/utils/transfer-handlers.js `downloadAnimationAssetWithProgress`:
   * the read loop over `receivedLength` and `lastReportedProgress`.
   */
  method DownloadAnimationAsset(name: string, originalAssetId: string, resp: DownloadResponse, body: BodyStream)
    returns (result: DownloadResult, updates: seq<DownloadUpdate>)
    ensures result == DownloadRun(name, originalAssetId, resp, body).0
    ensures updates == DownloadRun(name, originalAssetId, resp, body).1
  {
    updates := [DownloadStarted(name, originalAssetId)];
    if resp.FetchThrew? {
      result, updates := NotSaved(resp.message), updates + [DownloadFailed(resp.message, 0)];
      return;
    }
    if !resp.ok {
      var message := "Failed to download asset: " + NatToString(resp.status) + " " + resp.statusText;
      result, updates := NotSaved(message), updates + [DownloadFailed(message, 0)];
      return;
    }
    if !resp.hasBody {
      result, updates := NotSaved("No response body for asset"), updates + [DownloadFailed("No response body for asset", 0)];
      return;
    }
    var total := TotalSize(resp.contentLength);
    var lastReportedProgress;
    updates, lastReportedProgress := ReadBody(body.chunks, total, updates + [SizeReported(total)]);
    if body.readError.Some? {
      var message := body.readError.value;
      var shown := if lastReportedProgress >= 0 then lastReportedProgress else 0;
      result, updates := NotSaved(message), updates + [DownloadFailed(message, shown)];
      return;
    }
    if body.finishError.Some? {
      var message := "File stream error: " + body.finishError.value;
      var shown := if lastReportedProgress >= 0 then lastReportedProgress else 0;
      result, updates := NotSaved(message), updates + [DownloadFailed(message, shown)];
      return;
    }
    if lastReportedProgress < 100 && total > 0 {
      updates := updates + [ProgressReported(100)];
    }
    updates := updates + [DownloadCompleted];
    result := Saved;
  }

  /**
   * The read loop of `downloadAnimationAssetWithProgress`: it adds up the chunk
   * lengths and sends the rounded percentage whenever the size is known and
   * the value exceeds the last one sent.
   */
  method ReadBody(chunks: seq<nat>, total: int, head: seq<DownloadUpdate>)
    returns (updates: seq<DownloadUpdate>, lastReportedProgress: int)
    ensures updates == head + AsUpdates(ProgressReports(chunks, 0, total, 0, -1))
    ensures lastReportedProgress == LastOf(ProgressReports(chunks, 0, total, 0, -1), -1)
  {
    updates := head;
    var receivedLength: nat := 0;
    lastReportedProgress := -1;
    for i := 0 to |chunks|
      invariant ReadFrom(chunks, i, total, receivedLength, lastReportedProgress, updates)
             == ReadFrom(chunks, 0, total, 0, -1, head)
    {
      receivedLength := receivedLength + chunks[i];
      if total > 0 && RoundPercent(receivedLength, total) > lastReportedProgress {
        var currentProgress := RoundPercent(receivedLength, total);
        updates := updates + [ProgressReported(currentProgress)];
        lastReportedProgress := currentProgress;
      }
    }
    ReadFromReports(chunks, 0, total, 0, -1, head);
  }

  /** The read loop from chunk `i` on, given what it has sent so far: the updates and the last value. */
  function ReadFrom(chunks: seq<nat>, i: nat, total: int, received: nat, last: int, updates: seq<DownloadUpdate>)
    : (seq<DownloadUpdate>, int)
    requires i <= |chunks|
    decreases |chunks| - i
  {
    if i == |chunks| then (updates, last)
    else
      var now := received + chunks[i];
      if total > 0 && RoundPercent(now, total) > last then
        ReadFrom(chunks, i + 1, total, now, RoundPercent(now, total), updates + [ProgressReported(RoundPercent(now, total))])
      else ReadFrom(chunks, i + 1, total, now, last, updates)
  }

  /** The read loop sends exactly the progress reports, and ends on the last of them. */
  lemma {:induction false} ReadFromReports(chunks: seq<nat>, i: nat, total: int, received: nat, last: int,
                                           updates: seq<DownloadUpdate>)
    requires i <= |chunks|
    ensures ReadFrom(chunks, i, total, received, last, updates)
         == (updates + AsUpdates(ProgressReports(chunks, i, total, received, last)),
             LastOf(ProgressReports(chunks, i, total, received, last), last))
    decreases |chunks| - i
  {
    if i < |chunks| {
      var now := received + chunks[i];
      if total > 0 && RoundPercent(now, total) > last {
        var p := RoundPercent(now, total);
        var rest := ProgressReports(chunks, i + 1, total, now, p);
        ReadFromReports(chunks, i + 1, total, now, p, updates + [ProgressReported(p)]);
        assert ProgressReports(chunks, i, total, received, last) == [p] + rest;
        assert AsUpdates([p] + rest) == [ProgressReported(p)] + AsUpdates(rest);
        assert (updates + [ProgressReported(p)]) + AsUpdates(rest) == updates + ([ProgressReported(p)] + AsUpdates(rest));
      } else {
        ReadFromReports(chunks, i + 1, total, now, last, updates);
      }
    } else {
      assert updates + [] == updates;
    }
  }

  /** The progress values among a sequence of download updates, in order. */
  function ProgressValues(updates: seq<DownloadUpdate>): seq<int> {
    if updates == [] then []
    else (if updates[0].ProgressReported? then [updates[0].progress] else []) + ProgressValues(updates[1..])
  }

  lemma {:induction false} ProgressValuesAppend(a: seq<DownloadUpdate>, b: seq<DownloadUpdate>)
    ensures ProgressValues(a + b) == ProgressValues(a) + ProgressValues(b)
  {
    if a == [] {
      assert a + b == b;
    } else {
      assert (a + b)[0] == a[0];
      assert (a + b)[1..] == a[1..] + b;
      ProgressValuesAppend(a[1..], b);
    }
  }

  lemma {:induction false} ProgressValuesOfReports(reports: seq<int>)
    ensures ProgressValues(AsUpdates(reports)) == reports
  {
    if reports != [] {
      assert AsUpdates(reports) == [ProgressReported(reports[0])] + AsUpdates(reports[1..]);
      ProgressValuesAppend([ProgressReported(reports[0])], AsUpdates(reports[1..]));
      ProgressValuesOfReports(reports[1..]);
    }
  }

  predicate StrictlyIncreasing(s: seq<int>) {
    forall j :: 0 < j < |s| ==> s[j - 1] < s[j]
  }

  /**
   * How the download settles: it is saved exactly when `fetch` gives an OK
   * response with a body and neither the reader nor the file stream fails; a
   * rejected `fetch` fails with its own message, and it and a failure of the
   * response itself are reported before anything is streamed, at progress 0;
   * and without a known size a successful download sends no progress values.
   */
  lemma DownloadOutcome(name: string, originalAssetId: string, resp: DownloadResponse, body: BodyStream)
    ensures var (result, updates) := DownloadRun(name, originalAssetId, resp, body);
      && (result.Saved? <==>
            resp.DownloadResponse? && resp.ok && resp.hasBody && body.readError.None? && body.finishError.None?)
      && (resp.FetchThrew? ==>
            result == NotSaved(resp.message)
            && updates == [DownloadStarted(name, originalAssetId), DownloadFailed(resp.message, 0)])
      && (resp.DownloadResponse? && (!resp.ok || !resp.hasBody) ==>
            result.NotSaved? && updates == [DownloadStarted(name, originalAssetId), DownloadFailed(result.error, 0)])
      && (result.Saved? && resp.DownloadResponse? && TotalSize(resp.contentLength) <= 0 ==>
            updates == [DownloadStarted(name, originalAssetId), SizeReported(TotalSize(resp.contentLength)), DownloadCompleted])
  {
  }

  lemma StartCarriesNoProgress(name: string, originalAssetId: string, total: int)
    ensures ProgressValues([DownloadStarted(name, originalAssetId), SizeReported(total)]) == []
  {
    var start := [DownloadStarted(name, originalAssetId), SizeReported(total)];
    assert start[1..] == [SizeReported(total)];
    assert ProgressValues(start[1..]) == ProgressValues(start[1..][1..]);
  }

  lemma ClosingProgress(last: int, total: int)
    ensures ProgressValues(Closing(last, total)) == if last < 100 && total > 0 then [100] else []
  {
    var done := [DownloadCompleted];
    assert ProgressValues(done) == ProgressValues(done[1..]);
    if last < 100 && total > 0 {
      assert Closing(last, total) == [ProgressReported(100)] + done;
      ProgressValuesAppend([ProgressReported(100)], done);
      assert ProgressValues([ProgressReported(100)]) == [100] + ProgressValues([ProgressReported(100)][1..]);
    } else {
      assert Closing(last, total) == done;
    }
  }

  /**
   * Within one successful download the progress values sent are strictly
   * increasing; when the size is known (positive) the last one is at least 100,
   * and the final update is the completion (status completed, progress 100).
   */
  lemma SuccessfulDownloadProgress(name: string, originalAssetId: string, resp: DownloadResponse, body: BodyStream)
    requires DownloadRun(name, originalAssetId, resp, body).0.Saved?
    ensures var u := DownloadRun(name, originalAssetId, resp, body).1;
      var p := ProgressValues(u);
      && StrictlyIncreasing(p)
      && u[|u| - 1] == DownloadCompleted
      && (TotalSize(resp.contentLength) > 0 ==> p != [] && p[|p| - 1] >= 100)
      && (TotalSize(resp.contentLength) <= 0 ==> p == [])
  {
    var total := TotalSize(resp.contentLength);
    var reports := ProgressReports(body.chunks, 0, total, 0, -1);
    var start := [DownloadStarted(name, originalAssetId), SizeReported(total)];
    assert DownloadRun(name, originalAssetId, resp, body).1 == start + AsUpdates(reports) + Closing(LastOf(reports, -1), total);
    ProgressReportsIncrease(body.chunks, 0, total, 0, -1);
    StartCarriesNoProgress(name, originalAssetId, total);
    ProgressOfSavedRun(start, reports, total);
  }

  /** The progress values of a saved download, from the reports of its read loop. */
  lemma ProgressOfSavedRun(start: seq<DownloadUpdate>, reports: seq<int>, total: int)
    requires ProgressValues(start) == []
    requires StrictlyIncreasing(reports) && (total <= 0 ==> reports == [])
    ensures var u := start + AsUpdates(reports) + Closing(LastOf(reports, -1), total);
      var p := ProgressValues(u);
      && StrictlyIncreasing(p)
      && u[|u| - 1] == DownloadCompleted
      && (total > 0 ==> p != [] && p[|p| - 1] >= 100)
      && (total <= 0 ==> p == [])
  {
    var last := LastOf(reports, -1);
    var closing := Closing(last, total);
    var u := start + AsUpdates(reports) + closing;
    var p := ProgressValues(u);
    assert p == reports + ProgressValues(closing) by {
      ProgressValuesAppend(start + AsUpdates(reports), closing);
      ProgressValuesAppend(start, AsUpdates(reports));
      ProgressValuesOfReports(reports);
      assert [] + reports == reports;
    }
    ClosingProgress(last, total);
    assert u[|u| - 1] == closing[|closing| - 1];
    if last < 100 && total > 0 {
      IncreasingSnoc(reports, 100);
    } else {
      assert p == reports;
    }
  }

  lemma IncreasingSnoc(s: seq<int>, x: int)
    requires StrictlyIncreasing(s) && (s == [] || s[|s| - 1] < x)
    ensures StrictlyIncreasing(s + [x])
  {
    var t := s + [x];
    forall j | 0 < j < |t|
      ensures t[j - 1] < t[j]
    {
      if j < |s| {
        assert t[j - 1] == s[j - 1] && t[j] == s[j];
      }
    }
  }

  /** The rounded percentage never exceeds 100 while no more than the announced size has arrived. */
  lemma RoundPercentAtMostHundred(received: nat, total: int)
    requires 0 < total && received <= total
    ensures RoundPercent(received, total) <= 100
  {
    var q := RoundPercent(received, total);
    assert q * (2 * total) <= 200 * received + total < 101 * (2 * total);
    if q >= 101 {
      assert false;
    }
  }

  /** Once everything announced has arrived, the rounded percentage is exactly 100. */
  lemma RoundPercentOfTotal(total: int)
    requires total > 0
    ensures RoundPercent(total, total) == 100
  {
    assert 200 * total + total == 100 * (2 * total) + total;
    QuotientOf(100, 2 * total, total);
  }

  /** The quotient of `q * d + r` by `d`, for a remainder below `d`, is `q`. */
  lemma QuotientOf(q: int, d: int, r: int)
    requires d > 0 && 0 <= r < d
    ensures (q * d + r) / d == q
  {
    var n := q * d + r;
    var k := n / d;
    assert n == k * d + n % d && 0 <= n % d < d;
    if k > q {
      assert k * d - q * d == (k - q) * d;
      MulAtLeast(k - q, d);
    } else if k < q {
      assert q * d - k * d == (q - k) * d;
      MulAtLeast(q - k, d);
    }
  }

  lemma MulAtLeast(a: nat, d: nat)
    requires a >= 1
    ensures a * d >= d
  {
    assert a * d == (a - 1) * d + d;
  }

  lemma {:induction false} HonestLengthFrom(chunks: seq<nat>, i: nat, total: int, received: nat, last: int)
    requires i < |chunks| && total > 0 && received + SumFrom(chunks, i) == total && last <= 100
    ensures var r := ProgressReports(chunks, i, total, received, last);
      && (forall j :: 0 <= j < |r| ==> r[j] <= 100)
      && LastOf(r, last) == 100
    decreases |chunks| - i
  {
    var now := received + chunks[i];
    RoundPercentAtMostHundred(now, total);
    var next := if RoundPercent(now, total) > last then RoundPercent(now, total) else last;
    if i + 1 == |chunks| {
      RoundPercentOfTotal(total);
    } else {
      HonestLengthFrom(chunks, i + 1, total, now, next);
    }
  }

  /**
   * When the chunks add up to the announced size, every value reported is at
   * most 100 and, once at least one chunk arrived, the last value reported is
   * exactly 100 — so the extra `progress: 100` update is not sent.
   */
  lemma HonestLengthReachesHundred(chunks: seq<nat>, total: int)
    requires total > 0 && chunks != [] && SumFrom(chunks, 0) == total
    ensures var r := ProgressReports(chunks, 0, total, 0, -1);
      && (forall j :: 0 <= j < |r| ==> r[j] <= 100)
      && r != [] && r[|r| - 1] == 100
      && Closing(LastOf(r, -1), total) == [DownloadCompleted]
  {
    HonestLengthFrom(chunks, 0, total, 0, -1);
  }

  // ------------------------------------------------------------------ upload

  datatype HttpReply = NetworkError(message: string) | Response(ok: bool, status: nat, body: string)

  /** One call of the publish function: the file read fails, or it succeeds and the POST gets a reply. */
  datatype UploadReply = FileUnreadable(message: string) | FileRead(size: nat, reply: HttpReply)

  /** The partial transfer records the upload sends, in order. */
  datatype UploadUpdate =
    | UploadFileError(name: string, error: string)  // status error, direction upload
    | UploadProcessing(name: string, size: nat)     // status processing, progress 0
    | UploadCompleted(newAssetId: string)           // status completed, progress 100
    | UploadError(error: string)                    // status error, progress 0

  /** `{success: true, assetId}` or `{success: false, error}`: the publish function never throws. */
  datatype UploadResult = Published(assetId: string) | NotPublished(error: string)

  /** A non-empty reply body made of digits only. */
  predicate IsAssetId(s: string) {
    s != [] && AllDigits(s)
  }

  const UploadEndpoint: string := "https://www.roblox.com/ide/publish/uploadnewanimation"

  /** Whether a query carries the given key. */
  predicate HasKey(query: seq<(string, string)>, key: string) {
    exists j :: 0 <= j < |query| && query[j].0 == key
  }

  /**
   * The query parameters of the upload URL, in the order they are set. The asset
   * type is always Animation; `groupId` is present exactly when the group
   * argument is truthy (a non-empty string), and then carries it.
   */
  function UploadQuery(name: string, groupId: string): (q: seq<(string, string)>)
    ensures |q| >= 7
    ensures q[0] == ("assetTypeName", "Animation") && q[1] == ("name", name)
    ensures HasKey(q, "groupId") <==> groupId != ""
    ensures forall j :: 0 <= j < |q| && q[j].0 == "groupId" ==> q[j].1 == groupId
    ensures forall j :: 0 < j < |q| ==> q[j].0 != "assetTypeName"
  {
    var fixed := [("assetTypeName", "Animation"), ("name", name), ("description", "Placeholder"), ("AllID", "1"),
                  ("ispublic", "False"), ("allowComments", "True"), ("isGamesAsset", "False")];
    var q := if groupId != "" then fixed + [("groupId", groupId)] else fixed;
    assert groupId != "" ==> q[7].0 == "groupId";
    q
  }

  /** The failure of a file that cannot be read. */
  function FileErrorMessage(m: string): (message: string)
    ensures message != ""
  {
    "File system error: " + m
  }

  /** The failure of a request that threw: its own message, or a fixed one naming the upload. */
  function NetworkFailureMessage(name: string, m: string): (message: string)
    ensures message != ""
  {
    if m != "" then m else "Upload failed for \"" + name + "\" due to an unknown error."
  }

  /** The failure of a reply that is not OK: its status and the first 350 characters of its body. */
  function StatusFailureMessage(status: nat, body: string): (message: string)
    ensures message != ""
  {
    "Upload failed (Status: " + NatToString(status) + "). Response: " + Prefix(body, 350)
  }

  /** How the failure for an OK reply whose body is not an asset id begins. */
  const NotAnAssetIdPrefix: string := "Upload successful (Status "

  /** The failure of an OK reply whose body is not an asset id. */
  function NotAnAssetIdMessage(status: nat, body: string): (message: string)
    ensures StartsWith(message, NotAnAssetIdPrefix)
  {
    var rest := NatToString(status) + ") but the response was not a valid Asset ID. Response: \"" + Prefix(body, 350) + "\"";
    assert (NotAnAssetIdPrefix + rest)[..|NotAnAssetIdPrefix|] == NotAnAssetIdPrefix;
    NotAnAssetIdPrefix + rest
  }

  /**
   * modules/utils/transfer-handlers.js `publishAnimationRbxmWithProgress`: the
   * upload succeeds exactly when the reply is OK and its trimmed body is a
   * non-empty run of ASCII digits, which becomes the new asset id; every other
   * outcome, a file-read error included, is returned as a failure after an
   * error update, never thrown.
   */
  function PublishAnimation(name: string, upload: UploadReply): (out: (UploadResult, seq<UploadUpdate>))
    ensures out.0.Published? <==>
      upload.FileRead? && upload.reply.Response? && upload.reply.ok && IsAssetId(Trim(upload.reply.body))
    ensures out.0.Published? ==>
      && out.0.assetId == Trim(upload.reply.body)
      && out.1 == [UploadProcessing(name, upload.size), UploadCompleted(out.0.assetId)]
  {
    match upload
    case FileUnreadable(m) =>
      (NotPublished(FileErrorMessage(m)), [UploadFileError(name, FileErrorMessage(m))])
    case FileRead(size, reply) =>
      var processing := UploadProcessing(name, size);
      match reply
      case NetworkError(m) =>
        (NotPublished(NetworkFailureMessage(name, m)), [processing, UploadError(NetworkFailureMessage(name, m))])
      case Response(ok, status, body) =>
        if !ok then
          (NotPublished(StatusFailureMessage(status, body)), [processing, UploadError(StatusFailureMessage(status, body))])
        else
          var newAssetId := Trim(body);
          if newAssetId != [] && AllDigits(newAssetId) then
            (Published(newAssetId), [processing, UploadCompleted(newAssetId)])
          else
            (NotPublished(NotAnAssetIdMessage(status, body)), [processing, UploadError(NotAnAssetIdMessage(status, body))])
  }

  /**
   * A failed upload reports its error in an error update: a file that cannot
   * be read gets only that update, any other failure follows the processing
   * update, with a non-empty message, and an OK reply that is not an asset id
   * says so.
   */
  lemma PublishFailureReported(name: string, upload: UploadReply)
    ensures var out := PublishAnimation(name, upload);
      && (upload.FileUnreadable? ==>
            out == (NotPublished(FileErrorMessage(upload.message)), [UploadFileError(name, FileErrorMessage(upload.message))]))
      && (upload.FileRead? && out.0.NotPublished? ==>
            out.1 == [UploadProcessing(name, upload.size), UploadError(out.0.error)] && out.0.error != "")
      && (upload.FileRead? && upload.reply.Response? && upload.reply.ok && out.0.NotPublished? ==>
            StartsWith(out.0.error, NotAnAssetIdPrefix))
  {
  }

  /**
   * The publish function always resolves, so `retryAsync` around it calls it
   * once and resolves with its result whatever the retry count (when positive).
   */
  lemma UploadIsNeverRetried(name: string, replies: nat -> UploadReply, retries: int, delayMs: int)
    requires retries > 0
    ensures var fn := (n: nat) => Returned(PublishAnimation(name, replies(n)).0);
      var (r, events) := Retry(fn, retries, delayMs, true);
      r == Resolved(PublishAnimation(name, replies(0)).0) && CallCount(events) == 1 && NoticeCount(events) == 0
  {
    var fn := (n: nat) => Returned(PublishAnimation(name, replies(n)).0);
    RetryReturnsFirstSuccess(fn, retries, delayMs, true, 0);
  }

  // ------------------------------------------------------ observer messages

  datatype Direction = Download | Upload

  /** The partial transfer records of one run, addressed by transfer id. */
  datatype TransferUpdate =
    | Queued(name: string, originalAssetId: string, direction: Direction, size: int)  // status queued, progress 0
    | MarkedProcessing                                                                // status processing
    | BatchRequestFailed                                                              // status error
    | OfDownload(download: DownloadUpdate)
    | OfUpload(upload: UploadUpdate)
    | RetryNotice(message: string, error: string)                                     // status processing
    | AllAttemptsFailed(error: string)                                                // status error

  /** What the run sends to the window: transfer updates, status lines and results. */
  datatype RunEvent =
    | TransferEvent(id: nat, update: TransferUpdate)
    | StatusMessage(text: string)
    | RunResult(output: string, success: bool)
}
