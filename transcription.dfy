/**
 * The transcription service: one transcription attempt (download, the
 * empty-file check, the Whisper call), the retry loop with exponential
 * backoff, and the batch loop that fills a result map.
 *
 * What the network, the file system and Whisper do is an input: an
 * `Attempt` says how the download went and what Whisper answered. Waits are
 * returned as the list of requested delays in milliseconds.
 */
module Transcription {
  import opened Wrappers
  import opened Text

  /** How the audio download of one attempt went. */
  datatype Download =
    | DownloadError(message: string)                   // fetch or the stream pipeline threw
    | Downloaded(status: int, statusText: string, hasBody: bool, size: nat)

  /** The inputs of one call to `transcribeAudio`. */
  datatype Attempt = Attempt(download: Download, whisper: Result<string, string>)

  const EmptyFile := "Downloaded audio file is empty"
  const NoBody := "No response body"
  const RetriesExhausted := "Transcription failed after retries"

  /**
   * `transcribeAudio`: a transcript comes back only from a successful
   * download of a non-empty file; a zero-byte file is an error.
   */
  function TranscribeAudio(a: Attempt): Result<string, string> {
    match a.download
    case DownloadError(e) => Failure(e)
    case Downloaded(status, text, hasBody, size) =>
      if !(200 <= status <= 299) then Failure("Failed to download audio: " + IntToString(status) + " " + text)
      else if !hasBody then Failure(NoBody)
      else if size == 0 then Failure(EmptyFile)
      else a.whisper
  }

  /**
   * An attempt yields Whisper's text exactly when the download succeeded
   * with a 2xx status and a non-empty body and Whisper answered; each
   * download failure has its own message.
   */
  lemma TranscribeAudioSpec(a: Attempt)
    ensures var r := TranscribeAudio(a);
      && (r.Success? <==>
        a.download.Downloaded? && 200 <= a.download.status <= 299 && a.download.hasBody
        && a.download.size > 0 && a.whisper.Success?)
      && (r.Success? ==> r == a.whisper)
      && (a.download.DownloadError? ==> r == Failure(a.download.message))
      && (a.download.Downloaded? && !(200 <= a.download.status <= 299) ==>
        r == Failure("Failed to download audio: " + IntToString(a.download.status) + " " + a.download.statusText))
      && (a.download.Downloaded? && 200 <= a.download.status <= 299 && a.download.hasBody && a.download.size == 0 ==>
        r == Failure(EmptyFile))
  {
  }

  function Pow2(n: nat): (p: nat)
    ensures p >= 1
  {
    if n == 0 then 1 else 2 * Pow2(n - 1)
  }

  /** The waits after the first `n` failed attempts: attempt k waits 2^k seconds. */
  function Backoff(n: nat): (w: seq<nat>)
    ensures |w| == n && forall j :: 0 <= j < n ==> w[j] == Pow2(j + 1) * 1000
  {
    seq(n, j requires 0 <= j < n => Pow2(j + 1) * 1000)
  }

  /** How a retry loop ended: its result and how many attempts it made. */
  datatype RetryRun = RetryRun(result: Result<string, string>, tries: nat)

  /** The retry loop from attempt `k` on, `last` being the error of attempt k-1. */
  function RetryFrom(a: nat -> Attempt, maxRetries: int, k: nat, last: Option<string>): RetryRun
    requires k >= 1
    decreases if maxRetries < k then 0 else maxRetries - k + 1
  {
    if k > maxRetries then
      RetryRun(if last.Some? then Failure(last.value) else Failure(RetriesExhausted), k - 1)
    else
      match TranscribeAudio(a(k))
      case Success(t) => RetryRun(Success(t), k)
      case Failure(e) => RetryFrom(a, maxRetries, k + 1, Some(e))
  }

  /** `transcribeAudioWithRetry(url, maxRetries)`, where attempt k (from 1) is `a(k)`. */
  function Retry(a: nat -> Attempt, maxRetries: int): RetryRun {
    RetryFrom(a, maxRetries, 1, None)
  }

  /** The waits a run requests: one after every failed attempt but the last allowed. */
  function RetryWaits(run: RetryRun): seq<nat> {
    Backoff(if run.tries == 0 then 0 else run.tries - 1)
  }

  lemma {:induction false} RetryFromFacts(a: nat -> Attempt, m: int, k: nat, last: Option<string>)
    requires k >= 1 && (k == 1 <==> last.None?)
    requires k > 1 ==> k - 1 <= m && TranscribeAudio(a(k - 1)).Failure? && last == Some(TranscribeAudio(a(k - 1)).error)
    requires forall j :: 1 <= j < k ==> TranscribeAudio(a(j)).Failure?
    ensures var r := RetryFrom(a, m, k, last);
      && k - 1 <= r.tries
      && (r.tries <= m || (r.tries == 0 && m <= 0))
      && (forall j :: 1 <= j < r.tries ==> TranscribeAudio(a(j)).Failure?)
      && (r.result.Success? ==> r.tries >= 1 && r.result == TranscribeAudio(a(r.tries)))
      && (r.result.Failure? ==> r.tries == (if m <= 0 then 0 else m) && forall j :: 1 <= j <= r.tries ==> TranscribeAudio(a(j)).Failure?)
      && (r.result.Failure? && m >= 1 ==> r.result == TranscribeAudio(a(m)))
      && (m <= 0 ==> r.result == Failure(RetriesExhausted))
    decreases if m < k then 0 else m - k + 1
  {
    if k <= m {
      match TranscribeAudio(a(k))
      case Success(t) =>
      case Failure(e) =>
        RetryFromFacts(a, m, k + 1, Some(e));
    }
  }

  /**
   * At most `maxRetries` attempts are made and the first success is
   * returned; when every attempt fails, exactly `maxRetries` are made and
   * the last error is returned; with `maxRetries <= 0` nothing is attempted.
   */
  lemma RetrySemantics(a: nat -> Attempt, m: int)
    ensures var r := Retry(a, m);
      && r.tries == (if r.result.Success? then r.tries else if m <= 0 then 0 else m)
      && (m >= 1 ==> 1 <= r.tries <= m)
      && (m <= 0 ==> r.tries == 0 && r.result == Failure(RetriesExhausted))
      && (forall j :: 1 <= j < r.tries ==> TranscribeAudio(a(j)).Failure?)
      && (r.result.Success? ==> r.result == TranscribeAudio(a(r.tries)))
      && (r.result.Failure? && m >= 1 ==> r.result == TranscribeAudio(a(m)))
      && (r.result.Success? <==> exists j :: 1 <= j <= m && TranscribeAudio(a(j)).Success?)
  {
    RetryFromFacts(a, m, 1, None);
    var r := Retry(a, m);
    if r.result.Success? {
      assert TranscribeAudio(a(r.tries)).Success?;
    }
  }

  /** With the default of three attempts, a run that never succeeds waits 2 s and then 4 s. */
  lemma DefaultSchedule(a: nat -> Attempt)
    requires forall j :: 1 <= j <= 3 ==> TranscribeAudio(a(j)).Failure?
    ensures Retry(a, 3).tries == 3
    ensures RetryWaits(Retry(a, 3)) == [2000, 4000]
  {
    RetrySemantics(a, 3);
    assert Pow2(1) == 2 && Pow2(2) == 4;
  }

  /** The retry loop; it returns the result, the number of attempts and the waits it requested. */
  method TranscribeWithRetry(a: nat -> Attempt, maxRetries: int) returns (r: Result<string, string>, tries: nat, waits: seq<nat>)
    ensures r == Retry(a, maxRetries).result && tries == Retry(a, maxRetries).tries
    ensures waits == RetryWaits(Retry(a, maxRetries))
  {
    var lastError: Option<string> := None;
    var attempt := 1;
    waits := [];
    while attempt <= maxRetries
      invariant attempt >= 1 && (attempt == 1 <==> lastError.None?)
      invariant attempt > 1 ==> attempt - 1 <= maxRetries
      invariant RetryFrom(a, maxRetries, attempt, lastError) == Retry(a, maxRetries)
      invariant waits == Backoff(if attempt == 1 then 0 else if attempt - 1 < maxRetries then attempt - 1 else attempt - 2)
      decreases maxRetries - attempt + 1
    {
      var out := TranscribeAudio(a(attempt));
      if out.Success? {
        return out, attempt, waits;
      }
      lastError := Some(out.error);
      if attempt < maxRetries {
        waits := waits + [Pow2(attempt) * 1000];
      }
      attempt := attempt + 1;
    }
    tries := attempt - 1;
    r := if lastError.Some? then Failure(lastError.value) else Failure(RetriesExhausted);
  }

  // ---------------------------------------------------------------------
  // batchTranscribe

  /** An input item: the id and the audio URL. */
  datatype Item = Item(id: string, url: string)

  /** The entry an item gets: its transcript, or "" when every attempt failed. */
  function Entry(a: nat -> Attempt): string {
    match Retry(a, 3).result
    case Success(t) => t
    case Failure(_) => ""
  }

  predicate Succeeds(a: nat -> Attempt) {
    Retry(a, 3).result.Success?
  }

  /** The result map after the first `i` items; item `i`'s attempts are `attempts(i)`. */
  function BatchAfter(items: seq<Item>, attempts: nat -> nat -> Attempt, i: nat): map<string, string>
    requires i <= |items|
  {
    if i == 0 then map[] else BatchAfter(items, attempts, i - 1)[items[i - 1].id := Entry(attempts(i - 1))]
  }

  /** The `onProgress(completed, total, id)` calls after the first `i` items. */
  function ProgressAfter(items: seq<Item>, attempts: nat -> nat -> Attempt, i: nat): seq<(nat, nat, string)>
    requires i <= |items|
  {
    if i == 0 then []
    else
      var done := if Succeeds(attempts(i - 1)) then [(i, |items|, items[i - 1].id)] else [];
      ProgressAfter(items, attempts, i - 1) + done
  }

  /** Every input id gets an entry, and no other key appears. */
  lemma {:induction false} BatchKeys(items: seq<Item>, attempts: nat -> nat -> Attempt, i: nat)
    requires i <= |items|
    ensures forall id :: id in BatchAfter(items, attempts, i) <==> exists j :: 0 <= j < i && items[j].id == id
  {
    if i > 0 {
      BatchKeys(items, attempts, i - 1);
      assert items[i - 1].id in BatchAfter(items, attempts, i);
    }
  }

  /**
   * An id's entry is that of its last occurrence: the transcript of a
   * success, "" after a failure.
   */
  lemma {:induction false} BatchEntries(items: seq<Item>, attempts: nat -> nat -> Attempt, i: nat, j: nat)
    requires j < i <= |items|
    requires forall k :: j < k < i ==> items[k].id != items[j].id
    ensures items[j].id in BatchAfter(items, attempts, i)
    ensures BatchAfter(items, attempts, i)[items[j].id] == Entry(attempts(j))
    ensures Succeeds(attempts(j)) ==> Success(BatchAfter(items, attempts, i)[items[j].id]) == Retry(attempts(j), 3).result
    ensures !Succeeds(attempts(j)) ==> BatchAfter(items, attempts, i)[items[j].id] == ""
  {
    if j < i - 1 {
      BatchEntries(items, attempts, i - 1, j);
    }
  }

  /** A progress call reports exactly a success, with its 1-based position and the total. */
  lemma {:induction false} ProgressOnlyOnSuccess(items: seq<Item>, attempts: nat -> nat -> Attempt, i: nat)
    requires i <= |items|
    ensures forall p :: p in ProgressAfter(items, attempts, i) <==>
      1 <= p.0 <= i && p.1 == |items| && p.2 == items[p.0 - 1].id && Succeeds(attempts(p.0 - 1))
  {
    if i > 0 {
      ProgressOnlyOnSuccess(items, attempts, i - 1);
    }
  }

  /** The entry and the progress call of an item follow from the result of its attempts. */
  lemma EntryOfResult(a: nat -> Attempt, r: Result<string, string>)
    requires r == Retry(a, 3).result
    ensures Succeeds(a) <==> r.Success?
    ensures Entry(a) == if r.Success? then r.value else ""
  {
  }

  /** One more item sets its entry and, on success, adds its progress call. */
  lemma BatchNext(items: seq<Item>, attempts: nat -> nat -> Attempt, i: nat)
    requires i < |items|
    ensures BatchAfter(items, attempts, i + 1) == BatchAfter(items, attempts, i)[items[i].id := Entry(attempts(i))]
    ensures ProgressAfter(items, attempts, i + 1) ==
      ProgressAfter(items, attempts, i) + if Succeeds(attempts(i)) then [(i + 1, |items|, items[i].id)] else []
  {
  }

  /** Pauses of one second between items, none after the last. */
  function Pacing(n: nat): seq<nat> {
    if n <= 1 then [] else Pacing(n - 1) + [1000]
  }

  /** `n` items wait `n - 1` times, one second each. */
  lemma {:induction false} PacingSpec(n: nat)
    ensures |Pacing(n)| == (if n == 0 then 0 else n - 1)
    ensures forall j :: 0 <= j < |Pacing(n)| ==> Pacing(n)[j] == 1000
  {
    if n > 1 {
      PacingSpec(n - 1);
    }
  }

  /**
   * `batchTranscribe`, with `onProgress` given: the result map, the progress
   * calls and the pacing waits between items.
   */
  method BatchTranscribe(items: seq<Item>, attempts: nat -> nat -> Attempt)
    returns (results: map<string, string>, progress: seq<(nat, nat, string)>, pauses: seq<nat>)
    ensures results == BatchAfter(items, attempts, |items|)
    ensures progress == ProgressAfter(items, attempts, |items|)
    ensures pauses == Pacing(|items|)
  {
    results, progress, pauses := map[], [], [];
    var i := 0;
    while i < |items|
      invariant 0 <= i <= |items|
      invariant results == BatchAfter(items, attempts, i)
      invariant progress == ProgressAfter(items, attempts, i)
      invariant pauses == Pacing(if i < |items| then i + 1 else |items|)
    {
      var r, _, _ := TranscribeWithRetry(attempts(i), 3);
      EntryOfResult(attempts(i), r);
      BatchNext(items, attempts, i);
      if r.Success? {
        results := results[items[i].id := r.value];
        progress := progress + [(i + 1, |items|, items[i].id)];
      } else {
        results := results[items[i].id := ""];
      }
      if i < |items| - 1 {
        pauses := pauses + [1000];
      }
      i := i + 1;
    }
  }
}
