/**
 * The generic helpers of modules/utils/common.js: the bounded retry loop
 * `retryAsync` and the file-name sanitiser `sanitizeFilename`.
 *
 * The operation that `retryAsync` retries is an oracle: `fn(i)` is what the
 * (i+1)-th call returns or throws. The callback and the sleeps are recorded as
 * events, in the order they happen.
 */
module Common {

  import opened Wrappers
  import opened JsText

  /** A thrown JavaScript `Error`: its message and its optional `cause`. */
  datatype Error = Error(message: string, cause: Option<Error>)

  /** What one call of an asynchronous operation does: resolve with a value or throw. */
  datatype Outcome<+T> = Returned(value: T) | Threw(error: Error)

  /** How `retryAsync` settles: with a value, with `undefined` (no attempt at all), or by throwing. */
  datatype RetryResult<+T> = Resolved(value: T) | Undefined | Rejected(error: Error)

  /** The observable steps of `retryAsync`: a call of `fn`, a call of `onRetryAttempt`, a sleep. */
  datatype RetryEvent =
    | Called(attempt: nat)
    | Notified(attempt: nat, max: int, error: Error)
    | Slept(afterAttempt: nat, ms: int)

  /** The error thrown after the last failed attempt, wrapping the last underlying error. */
  function Enriched(retries: int, err: Error): (e: Error)
    ensures e.cause == Some(err)
  {
    Error("After " + IntToString(retries) + " attempts: " + err.message, Some(err))
  }

  /**
   * The behaviour of the loop from attempt index `i` on: what it settles with
   * and the events it produces (`notify` says whether a callback was passed).
   */
  function RetryFrom<T>(fn: nat -> Outcome<T>, retries: int, delayMs: int, notify: bool, i: nat)
    : (RetryResult<T>, seq<RetryEvent>)
    decreases retries - i
  {
    if i >= retries then (Undefined, [])
    else
      match fn(i)
      case Returned(v) => (Resolved(v), [Called(i + 1)])
      case Threw(e) =>
        var note := if notify then [Notified(i + 1, retries, e)] else [];
        if i < retries - 1 then
          var rest := RetryFrom(fn, retries, delayMs, notify, i + 1);
          (rest.0, [Called(i + 1)] + note + [Slept(i + 1, delayMs)] + rest.1)
        else
          (Rejected(Enriched(retries, e)), [Called(i + 1)] + note)
  }

  /** The whole of `retryAsync(fn, retries, delayMs, onRetryAttempt)`. */
  function Retry<T>(fn: nat -> Outcome<T>, retries: int, delayMs: int, notify: bool)
    : (RetryResult<T>, seq<RetryEvent>)
  {
    RetryFrom(fn, retries, delayMs, notify, 0)
  }

  /** modules/utils/common.js `retryAsync`: the attempt loop itself. */
  method RetryAsync<T>(fn: nat -> Outcome<T>, retries: int, delayMs: int, notify: bool)
    returns (r: RetryResult<T>, events: seq<RetryEvent>)
    ensures r == Retry(fn, retries, delayMs, notify).0 && events == Retry(fn, retries, delayMs, notify).1
    ensures retries <= 0 ==> r == Undefined && events == []
  {
    RetryLoopIsRetry(fn, retries, delayMs, notify, 0, []);
    events := [];
    var i: nat := 0;
    while i < retries
      invariant RetryLoop(fn, retries, delayMs, notify, i, events) == RetryLoop(fn, retries, delayMs, notify, 0, [])
      decreases retries - i
    {
      var out := fn(i);
      events := events + [Called(i + 1)];
      if out.Returned? {
        r := Resolved(out.value);
        return;
      }
      var note := if notify then [Notified(i + 1, retries, out.error)] else [];
      events := events + note;
      if i < retries - 1 {
        events := events + [Slept(i + 1, delayMs)];
      } else {
        r := Rejected(Enriched(retries, out.error));
        return;
      }
      i := i + 1;
    }
    r := Undefined;
  }

  /** The attempt loop from index `i` on, given the events so far. */
  function RetryLoop<T>(fn: nat -> Outcome<T>, retries: int, delayMs: int, notify: bool, i: nat, events: seq<RetryEvent>)
    : (RetryResult<T>, seq<RetryEvent>)
    decreases retries - i
  {
    if i >= retries then (Undefined, events)
    else
      match fn(i)
      case Returned(v) => (Resolved(v), events + [Called(i + 1)])
      case Threw(e) =>
        var noted := events + [Called(i + 1)] + (if notify then [Notified(i + 1, retries, e)] else []);
        if i < retries - 1 then RetryLoop(fn, retries, delayMs, notify, i + 1, noted + [Slept(i + 1, delayMs)])
        else (Rejected(Enriched(retries, e)), noted)
  }

  /** The loop settles as `RetryFrom` says, after the events it was given. */
  lemma {:induction false} RetryLoopIsRetry<T>(fn: nat -> Outcome<T>, retries: int, delayMs: int, notify: bool, i: nat,
                                               events: seq<RetryEvent>)
    ensures RetryLoop(fn, retries, delayMs, notify, i, events)
         == (RetryFrom(fn, retries, delayMs, notify, i).0, events + RetryFrom(fn, retries, delayMs, notify, i).1)
    decreases retries - i
  {
    if i >= retries {
      assert events + [] == events;
    } else if fn(i).Threw? {
      var e := fn(i).error;
      var note := if notify then [Notified(i + 1, retries, e)] else [];
      if i < retries - 1 {
        var rest := RetryFrom(fn, retries, delayMs, notify, i + 1);
        RetryLoopIsRetry(fn, retries, delayMs, notify, i + 1, events + [Called(i + 1)] + note + [Slept(i + 1, delayMs)]);
        assert RetryFrom(fn, retries, delayMs, notify, i).1 == [Called(i + 1)] + note + [Slept(i + 1, delayMs)] + rest.1;
        assert events + [Called(i + 1)] + note + [Slept(i + 1, delayMs)] + rest.1
            == events + ([Called(i + 1)] + note + [Slept(i + 1, delayMs)] + rest.1);
      } else {
        assert events + [Called(i + 1)] + note == events + ([Called(i + 1)] + note);
      }
    }
  }

  /** How many times `fn` ran. */
  function CallCount(events: seq<RetryEvent>): nat {
    if events == [] then 0 else (if events[0].Called? then 1 else 0) + CallCount(events[1..])
  }

  /** How many times `onRetryAttempt` ran. */
  function NoticeCount(events: seq<RetryEvent>): nat {
    if events == [] then 0 else (if events[0].Notified? then 1 else 0) + NoticeCount(events[1..])
  }

  /** How many sleeps happened. */
  function SleepCount(events: seq<RetryEvent>): nat {
    if events == [] then 0 else (if events[0].Slept? then 1 else 0) + SleepCount(events[1..])
  }

  lemma {:induction false} CountsAppend(a: seq<RetryEvent>, b: seq<RetryEvent>)
    ensures CallCount(a + b) == CallCount(a) + CallCount(b)
    ensures NoticeCount(a + b) == NoticeCount(a) + NoticeCount(b)
    ensures SleepCount(a + b) == SleepCount(a) + SleepCount(b)
  {
    if a == [] {
      assert a + b == b;
    } else {
      assert (a + b)[0] == a[0];
      assert (a + b)[1..] == a[1..] + b;
      CountsAppend(a[1..], b);
    }
  }

  /** The events of one failed, non-final attempt: a call, maybe a notice, a sleep. */
  lemma FailedAttemptCounts(i: nat, retries: int, delayMs: int, notify: bool, e: Error, rest: seq<RetryEvent>)
    ensures var note := if notify then [Notified(i + 1, retries, e)] else [];
      var all := [Called(i + 1)] + note + [Slept(i + 1, delayMs)] + rest;
      && CallCount(all) == 1 + CallCount(rest)
      && NoticeCount(all) == (if notify then 1 else 0) + NoticeCount(rest)
      && SleepCount(all) == 1 + SleepCount(rest)
  {
    var note := if notify then [Notified(i + 1, retries, e)] else [];
    CountsAppend([Called(i + 1)] + note + [Slept(i + 1, delayMs)], rest);
    CountsAppend([Called(i + 1)] + note, [Slept(i + 1, delayMs)]);
    CountsAppend([Called(i + 1)], note);
  }

  /**
   * If the first `k` calls throw and call `k` returns, with `k < retries`, the
   * helper resolves with that value after exactly `k + 1` calls, `k` notices
   * (when a callback is given) and `k` sleeps.
   */
  lemma {:induction false} RetryReturnsFirstSuccess<T>(fn: nat -> Outcome<T>, retries: int, delayMs: int, notify: bool, k: nat)
    requires k < retries
    requires forall j :: 0 <= j < k ==> fn(j).Threw?
    requires fn(k).Returned?
    ensures var (r, events) := Retry(fn, retries, delayMs, notify);
      && r == Resolved(fn(k).value)
      && CallCount(events) == k + 1
      && NoticeCount(events) == (if notify then k else 0)
      && SleepCount(events) == k
  {
    FirstSuccessFrom(fn, retries, delayMs, notify, 0, k);
  }

  lemma {:induction false} FirstSuccessFrom<T>(fn: nat -> Outcome<T>, retries: int, delayMs: int, notify: bool, i: nat, k: nat)
    requires i <= k < retries
    requires forall j :: i <= j < k ==> fn(j).Threw?
    requires fn(k).Returned?
    ensures var (r, events) := RetryFrom(fn, retries, delayMs, notify, i);
      && r == Resolved(fn(k).value)
      && CallCount(events) == k - i + 1
      && NoticeCount(events) == (if notify then k - i else 0)
      && SleepCount(events) == k - i
    decreases k - i
  {
    if i == k {
      assert RetryFrom(fn, retries, delayMs, notify, i).1 == [Called(i + 1)];
    } else {
      FirstSuccessFrom(fn, retries, delayMs, notify, i + 1, k);
      var rest := RetryFrom(fn, retries, delayMs, notify, i + 1);
      FailedAttemptCounts(i, retries, delayMs, notify, fn(i).error, rest.1);
    }
  }

  /**
   * After `retries` consecutive failures `fn` has run exactly `retries` times,
   * the callback ran after every failure including the last, there was one sleep
   * fewer than failures, and the helper throws "After {retries} attempts: {last
   * message}" whose `cause` is the last error.
   */
  lemma {:induction false} RetryExhausted<T>(fn: nat -> Outcome<T>, retries: int, delayMs: int, notify: bool)
    requires retries > 0
    requires forall j :: 0 <= j < retries ==> fn(j).Threw?
    ensures var (r, events) := Retry(fn, retries, delayMs, notify);
      && r == Rejected(Error("After " + IntToString(retries) + " attempts: " + fn(retries - 1).error.message,
                             Some(fn(retries - 1).error)))
      && CallCount(events) == retries
      && NoticeCount(events) == (if notify then retries else 0)
      && SleepCount(events) == retries - 1
  {
    ExhaustedFrom(fn, retries, delayMs, notify, 0);
  }

  lemma {:induction false} ExhaustedFrom<T>(fn: nat -> Outcome<T>, retries: int, delayMs: int, notify: bool, i: nat)
    requires i < retries
    requires forall j :: i <= j < retries ==> fn(j).Threw?
    ensures var (r, events) := RetryFrom(fn, retries, delayMs, notify, i);
      && r == Rejected(Enriched(retries, fn(retries - 1).error))
      && CallCount(events) == retries - i
      && NoticeCount(events) == (if notify then retries - i else 0)
      && SleepCount(events) == retries - i - 1
    decreases retries - i
  {
    var e := fn(i).error;
    var note := if notify then [Notified(i + 1, retries, e)] else [];
    if i == retries - 1 {
      CountsAppend([Called(i + 1)], note);
    } else {
      ExhaustedFrom(fn, retries, delayMs, notify, i + 1);
      var rest := RetryFrom(fn, retries, delayMs, notify, i + 1);
      FailedAttemptCounts(i, retries, delayMs, notify, e, rest.1);
    }
  }

  /** With at least one attempt allowed the helper always settles: with a value or with the enriched error. */
  lemma {:induction false} RetrySettles<T>(fn: nat -> Outcome<T>, retries: int, delayMs: int, notify: bool)
    requires retries > 0
    ensures !Retry(fn, retries, delayMs, notify).0.Undefined?
  {
    SettlesFrom(fn, retries, delayMs, notify, 0);
  }

  lemma {:induction false} SettlesFrom<T>(fn: nat -> Outcome<T>, retries: int, delayMs: int, notify: bool, i: nat)
    requires i < retries
    ensures !RetryFrom(fn, retries, delayMs, notify, i).0.Undefined?
    decreases retries - i
  {
    if fn(i).Threw? && i < retries - 1 {
      SettlesFrom(fn, retries, delayMs, notify, i + 1);
    }
  }

  /** A value the helper resolves with is a value one of the attempts returned. */
  lemma {:induction false} RetryResolvesWithReply<T>(fn: nat -> Outcome<T>, retries: int, delayMs: int, notify: bool)
    ensures var r := Retry(fn, retries, delayMs, notify).0;
      r.Resolved? ==> exists k: nat :: k < retries && fn(k) == Returned(r.value)
  {
    ResolvesFrom(fn, retries, delayMs, notify, 0);
  }

  lemma {:induction false} ResolvesFrom<T>(fn: nat -> Outcome<T>, retries: int, delayMs: int, notify: bool, i: nat)
    ensures var r := RetryFrom(fn, retries, delayMs, notify, i).0;
      r.Resolved? ==> exists k: nat :: i <= k < retries && fn(k) == Returned(r.value)
    decreases retries - i
  {
    if i < retries && fn(i).Threw? && i < retries - 1 {
      ResolvesFrom(fn, retries, delayMs, notify, i + 1);
    }
  }

  /**
   * What each recorded event says about the calls: `fn` is called with attempt
   * numbers 1..retries; the callback gets (i+1, retries, err) for the error the
   * (i+1)-th call threw; a sleep of `delayMs` follows only a failed call that
   * was not the last attempt.
   */
  ghost predicate EventAgrees<T>(fn: nat -> Outcome<T>, retries: int, delayMs: int, ev: RetryEvent) {
    match ev
    case Called(a) => 1 <= a <= retries
    case Notified(a, m, err) => m == retries && 1 <= a <= retries && fn(a - 1) == Threw(err)
    case Slept(a, ms) => ms == delayMs && 1 <= a < retries && fn(a - 1).Threw?
  }

  lemma {:induction false} RetryEventsAgree<T>(fn: nat -> Outcome<T>, retries: int, delayMs: int, notify: bool)
    ensures forall ev :: ev in Retry(fn, retries, delayMs, notify).1 ==> EventAgrees(fn, retries, delayMs, ev)
  {
    EventsAgreeFrom(fn, retries, delayMs, notify, 0);
  }

  lemma {:induction false} EventsAgreeFrom<T>(fn: nat -> Outcome<T>, retries: int, delayMs: int, notify: bool, i: nat)
    ensures forall ev :: ev in RetryFrom(fn, retries, delayMs, notify, i).1 ==> EventAgrees(fn, retries, delayMs, ev)
    decreases retries - i
  {
    if i < retries && fn(i).Threw? && i < retries - 1 {
      EventsAgreeFrom(fn, retries, delayMs, notify, i + 1);
    }
  }

  /** A character the expression `/[<>:"/\\|?*]/` matches. */
  predicate IsReservedInFilename(c: char) {
    c == '<' || c == '>' || c == ':' || c == '"' || c == '/' || c == '\\' || c == '|' || c == '?' || c == '*'
  }

  /**
   * modules/utils/common.js `sanitizeFilename`: every reserved character becomes
   * `_`, every other character stays where it was.
   */
  function SanitizeFilename(name: string): (r: string)
    ensures |r| == |name|
    ensures forall i :: 0 <= i < |name| ==> r[i] == (if IsReservedInFilename(name[i]) then '_' else name[i])
    ensures forall i :: 0 <= i < |r| ==> !IsReservedInFilename(r[i])
  {
    if name == [] then []
    else [if IsReservedInFilename(name[0]) then '_' else name[0]] + SanitizeFilename(name[1..])
  }

  /** Sanitising twice is sanitising once. */
  lemma SanitizeFilenameIdempotent(name: string)
    ensures SanitizeFilename(SanitizeFilename(name)) == SanitizeFilename(name)
  {
    var once := SanitizeFilename(name);
    assert forall i :: 0 <= i < |once| ==> SanitizeFilename(once)[i] == once[i];
  }

  /** A name is left as it is exactly when it holds none of the reserved characters. */
  lemma SanitizeFilenameFixedPoint(name: string)
    ensures SanitizeFilename(name) == name <==> forall i :: 0 <= i < |name| ==> !IsReservedInFilename(name[i])
  {
    if SanitizeFilename(name) == name {
      assert forall i :: 0 <= i < |name| ==> !IsReservedInFilename(SanitizeFilename(name)[i]);
    }
  }
}
