/**
 * `POST /api/transcribe`: the same candidate query as the script, with a
 * default limit of 10, a result entry per clip and a pause after every clip.
 */
module TranscribeRoute {
  import opened Wrappers
  import opened Text
  import opened Seqs
  import opened Catalog
  import opened Transcription
  import opened TranscribeCommon

  /** The `limit` field of the body: absent, JSON null, or a number. */
  datatype LimitField = Missing | Null | Number(n: int)

  datatype TranscribeBody = TranscribeBody(clipId: Option<string>, limit: LimitField)

  /** `const { limit = 10 } = body`: the default replaces only an absent field; null stays falsy. */
  function EffectiveLimit(l: LimitField): (r: Option<int>)
    ensures l.Missing? ==> r == Some(10)
    ensures l.Null? ==> r.None?
    ensures l.Number? ==> r == Some(l.n)
  {
    match l
    case Missing => Some(10)
    case Null => None
    case Number(n) => Some(n)
  }

  /** One entry of the `results` list. */
  datatype Entry =
    | Transcribed(id: ClipId, title: string, transcript: string)
    | Failed(id: ClipId, title: string, error: string)

  /** The entry for a clip: the first 100 characters of a saved transcript, or the error. */
  function EntryOf(c: ClipRow, a: nat -> Attempt, updateError: Option<string>): (e: Entry)
    ensures e.id == c.id && e.title == c.title
    ensures e.Transcribed? <==> Saved(a, updateError).Some?
    ensures e.Transcribed? ==> |e.transcript| <= 100 && e.transcript <= Saved(a, updateError).value
    ensures e.Failed? && Retry(a, 3).result.Failure? ==> e.error == Retry(a, 3).result.error
    ensures e.Failed? && Retry(a, 3).result.Success? ==> Some(e.error) == updateError
  {
    match Retry(a, 3).result
    case Failure(msg) => Failed(c.id, c.title, msg)
    case Success(t) =>
      if updateError.Some? then Failed(c.id, c.title, updateError.value)
      else Transcribed(c.id, c.title, Prefix(t, 100))
  }

  function ResultsAfter(cs: seq<ClipRow>, attempts: nat -> nat -> Attempt, updateErrors: nat -> Option<string>, i: nat): seq<Entry>
    requires i <= |cs|
  {
    if i == 0 then [] else ResultsAfter(cs, attempts, updateErrors, i - 1) + [EntryOf(cs[i - 1], attempts(i - 1), updateErrors(i - 1))]
  }

  function CountTranscribed(es: seq<Entry>): nat {
    if es == [] then 0 else CountTranscribed(es[..|es| - 1]) + (if es[|es| - 1].Transcribed? then 1 else 0)
  }

  /**
   * One entry per clip, in order, each naming its clip; the successful
   * entries are exactly the job's successes.
   */
  lemma ResultsMatchJob(st: JobState, cs: seq<ClipRow>, attempts: nat -> nat -> Attempt, updateErrors: nat -> Option<string>, i: nat)
    requires i <= |cs| && st.success == 0 && st.fail == 0
    ensures var es := ResultsAfter(cs, attempts, updateErrors, i);
      && |es| == i
      && (forall j :: 0 <= j < i ==> es[j] == EntryOf(cs[j], attempts(j), updateErrors(j)) && es[j].id == cs[j].id)
      && CountTranscribed(es) == JobAfter(st, cs, attempts, updateErrors, i).success
      && i - CountTranscribed(es) == JobAfter(st, cs, attempts, updateErrors, i).fail
  {
    ResultsShape(cs, attempts, updateErrors, i);
    ResultsCount(st, cs, attempts, updateErrors, i);
  }

  /** One entry per clip, in order. */
  lemma {:induction false} ResultsShape(cs: seq<ClipRow>, attempts: nat -> nat -> Attempt, updateErrors: nat -> Option<string>, i: nat)
    requires i <= |cs|
    ensures var es := ResultsAfter(cs, attempts, updateErrors, i);
      && |es| == i
      && forall j :: 0 <= j < i ==> es[j] == EntryOf(cs[j], attempts(j), updateErrors(j))
  {
    if i > 0 {
      ResultsShape(cs, attempts, updateErrors, i - 1);
    }
  }

  /** The transcribed entries count the job's successes, the others its failures. */
  lemma {:induction false} ResultsCount(st: JobState, cs: seq<ClipRow>, attempts: nat -> nat -> Attempt, updateErrors: nat -> Option<string>, i: nat)
    requires i <= |cs| && st.success == 0 && st.fail == 0
    ensures var es := ResultsAfter(cs, attempts, updateErrors, i);
      && CountTranscribed(es) == JobAfter(st, cs, attempts, updateErrors, i).success
      && |es| - CountTranscribed(es) == JobAfter(st, cs, attempts, updateErrors, i).fail
  {
    if i > 0 {
      ResultsCount(st, cs, attempts, updateErrors, i - 1);
      var prev := ResultsAfter(cs, attempts, updateErrors, i - 1);
      var e := EntryOf(cs[i - 1], attempts(i - 1), updateErrors(i - 1));
      var es := prev + [e];
      assert es[..|es| - 1] == prev;
      assert CountTranscribed(es) == CountTranscribed(prev) + (if e.Transcribed? then 1 else 0);
      StepCounts(JobAfter(st, cs, attempts, updateErrors, i - 1), cs[i - 1], attempts(i - 1), updateErrors(i - 1));
    }
  }

  /** A clip whose entry is transcribed is a success of the job; any other clip is a failure. */
  lemma StepCounts(p: JobState, c: ClipRow, a: nat -> Attempt, updateError: Option<string>)
    ensures var r, e := ClipStep(p, c, a, updateError), EntryOf(c, a, updateError);
      && r.success == p.success + (if e.Transcribed? then 1 else 0)
      && r.fail == p.fail + (if e.Transcribed? then 0 else 1)
  {
  }

  /** The JSON response. */
  datatype TranscribeResponse =
    | ServerError(error: string)
    | NoClips
    | Summary(total: nat, successful: nat, failed: nat, results: seq<Entry>)
  {
    function Status(): int {
      if this.ServerError? then 500 else 200
    }

    predicate Success() {
      !this.ServerError?
    }

    function Message(): string
      requires !this.ServerError?
    {
      if this.NoClips? then "No clips found that need transcription"
      else "Transcribed " + NatToString(successful) + "/" + NatToString(total) + " clips"
    }
  }

  /** The entry of a clip is the one built from the outcome of its transcription. */
  lemma EntryOfOutcome(c: ClipRow, a: nat -> Attempt, updateError: Option<string>, outcome: Result<string, string>)
    requires outcome.Success? <==> Saved(a, updateError).Some?
    requires outcome.Success? ==> Saved(a, updateError) == Some(outcome.value)
    requires outcome.Failure? ==>
      outcome.error == (if Retry(a, 3).result.Failure? then Retry(a, 3).result.error else updateError.value)
    ensures EntryOf(c, a, updateError) ==
      if outcome.Success? then Transcribed(c.id, c.title, Prefix(outcome.value, 100)) else Failed(c.id, c.title, outcome.error)
  {
  }

  /** The clip loop, with a one-second pause after every clip. */
  method RunClips(store: Store, cs: seq<ClipRow>, attempts: nat -> nat -> Attempt, updateErrors: nat -> Option<string>)
    returns (success: nat, fail: nat, results: seq<Entry>, pauses: seq<nat>)
    modifies store
    ensures JobAfter(JobState(old(store.Snapshot()), 0, 0), cs, attempts, updateErrors, |cs|) == JobState(store.Snapshot(), success, fail)
    ensures results == ResultsAfter(cs, attempts, updateErrors, |cs|)
    ensures |pauses| == |cs| && forall j :: 0 <= j < |pauses| ==> pauses[j] == 1000
  {
    ghost var st0 := JobState(store.Snapshot(), 0, 0);
    success, fail, results, pauses := 0, 0, [], [];
    for i := 0 to |cs|
      invariant JobAfter(st0, cs, attempts, updateErrors, i) == JobState(store.Snapshot(), success, fail)
      invariant results == ResultsAfter(cs, attempts, updateErrors, i)
      invariant |pauses| == i && forall j :: 0 <= j < i ==> pauses[j] == 1000
    {
      ghost var before := JobState(store.Snapshot(), success, fail);
      var c := cs[i];
      StepOfCounters(before, c, attempts(i), updateErrors(i));
      JobNext(st0, cs, attempts, updateErrors, i);
      assert ResultsAfter(cs, attempts, updateErrors, i + 1) == results + [EntryOf(c, attempts(i), updateErrors(i))];
      var outcome := TranscribeClip(store, c, attempts(i), updateErrors(i));
      EntryOfOutcome(c, attempts(i), updateErrors(i), outcome);
      if outcome.Success? {
        success := success + 1;
        results := results + [Transcribed(c.id, c.title, Prefix(outcome.value, 100))];
      } else {
        fail := fail + 1;
        results := results + [Failed(c.id, c.title, outcome.error)];
      }
      pauses := pauses + [1000];
    }
  }

  /**
   * `POST`: `body` is the parsed body or the error parsing it threw;
   * `queryError` is the error the clip query returns, if any.
   */
  method Post(store: Store, body: Result<TranscribeBody, string>, queryError: Option<string>,
              attempts: nat -> nat -> Attempt, updateErrors: nat -> Option<string>)
    returns (response: TranscribeResponse, pauses: seq<nat>)
    modifies store
    ensures body.Failure? ==> response == ServerError(body.error) && store.Snapshot() == old(store.Snapshot())
    ensures body.Success? && queryError.Some? ==> response == ServerError(queryError.value) && store.Snapshot() == old(store.Snapshot())
    ensures body.Success? && queryError.None? ==>
      var q := Candidates(old(store.clips), body.value.clipId.GetOr(""), EffectiveLimit(body.value.limit));
      if q.Failure? then response == ServerError(q.error) && store.Snapshot() == old(store.Snapshot())
      else if q.value == [] then response == NoClips && store.Snapshot() == old(store.Snapshot())
      else
        var r := JobAfter(JobState(old(store.Snapshot()), 0, 0), q.value, attempts, updateErrors, |q.value|);
        && store.Snapshot() == r.db
        && response == Summary(|q.value|, r.success, r.fail, ResultsAfter(q.value, attempts, updateErrors, |q.value|))
        && |pauses| == |q.value|
  {
    pauses := [];
    if body.Failure? {
      return ServerError(body.error), pauses;
    }
    if queryError.Some? {
      return ServerError(queryError.value), pauses;
    }
    var q := Candidates(store.clips, body.value.clipId.GetOr(""), EffectiveLimit(body.value.limit));
    if q.Failure? {
      return ServerError(q.error), pauses;
    }
    var cs := q.value;
    if |cs| == 0 {
      return NoClips, pauses;
    }
    var success, fail, results;
    success, fail, results, pauses := RunClips(store, cs, attempts, updateErrors);
    response := Summary(|cs|, success, fail, results);
  }

  /** `successful + failed == total == results.length`, and `successful` counts the successful entries. */
  lemma SummaryCounts(db: Db, cs: seq<ClipRow>, attempts: nat -> nat -> Attempt, updateErrors: nat -> Option<string>)
    ensures var r := JobAfter(JobState(db, 0, 0), cs, attempts, updateErrors, |cs|);
      var es := ResultsAfter(cs, attempts, updateErrors, |cs|);
      && r.success + r.fail == |cs| == |es|
      && r.success == CountTranscribed(es)
  {
    JobCounts(JobState(db, 0, 0), cs, attempts, updateErrors, |cs|);
    ResultsMatchJob(JobState(db, 0, 0), cs, attempts, updateErrors, |cs|);
  }
}
