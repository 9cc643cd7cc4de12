/**
 * What the transcription script and the transcription route share: the
 * candidate query (newest first, by id or by missing transcript, with an
 * optional limit) and the per-clip step (transcribe with retries, then
 * save the transcript). Whisper's answers and each update's error are
 * inputs: `attempts(i)` drives the retries of candidate i, and
 * `updateErrors(i)` is the error its update returns, if any.
 */
module TranscribeCommon {
  import opened Wrappers
  import opened Text
  import opened Seqs
  import opened Catalog
  import opened Transcription

  /**
   * The row filter: with a truthy clip id, the clip whose id reads as that
   * text, whatever its transcript; otherwise a null or empty transcript.
   */
  predicate Selected(c: ClipRow, clipId: string) {
    if clipId != "" then NatToString(c.id) == clipId else NeedsTranscript(c)
  }

  /** The matching clips, newest first (clips are stored in creation order). */
  function Matching(clips: seq<ClipRow>, clipId: string): (r: seq<ClipRow>)
    ensures |r| <= |clips|
    ensures forall i :: 0 <= i < |r| ==> r[i] in clips && Selected(r[i], clipId)
    ensures forall i :: 0 <= i < |clips| && Selected(clips[i], clipId) ==> clips[i] in r
    ensures IsSubseq(r, Reverse(clips))
  {
    var rev := Reverse(clips);
    var r := Filter(rev, (c: ClipRow) => Selected(c, clipId));
    FilterIsSubseq(rev, (c: ClipRow) => Selected(c, clipId));
    assert forall i :: 0 <= i < |clips| ==> clips[i] == rev[|clips| - 1 - i];
    r
  }

  /** `.limit(n)` with a negative `n` is refused by the store; this is its error. */
  const NegativeLimit := "limit must not be negative"

  /**
   * The rows the candidate query returns: a truthy limit keeps at most that
   * many of the newest; a falsy one (0, NaN, absent) keeps all.
   */
  function Candidates(clips: seq<ClipRow>, clipId: string, limit: Option<int>): (r: Result<seq<ClipRow>, string>)
    ensures r.Failure? <==> limit.Some? && limit.value < 0
    ensures r.Success? && (limit.None? || limit.value == 0) ==> r.value == Matching(clips, clipId)
    ensures r.Success? && limit.Some? && limit.value > 0 ==>
      |r.value| == (if |Matching(clips, clipId)| < limit.value then |Matching(clips, clipId)| else limit.value)
      && r.value <= Matching(clips, clipId)
  {
    var m := Matching(clips, clipId);
    if limit.None? || limit.value == 0 then Success(m)
    else if limit.value < 0 then Failure(NegativeLimit)
    else Success(if |m| <= limit.value then m else m[..limit.value])
  }

  /** The transcript a candidate ends with in the store, if any. */
  function Saved(a: nat -> Attempt, updateError: Option<string>): Option<string> {
    match Retry(a, 3).result
    case Success(t) => if updateError.None? then Some(t) else None
    case Failure(_) => None
  }

  datatype JobState = JobState(db: Db, success: nat, fail: nat)

  /** One clip: a saved transcript is a success; a retry failure or an update error is a failure. */
  function ClipStep(st: JobState, c: ClipRow, a: nat -> Attempt, updateError: Option<string>): JobState {
    match Saved(a, updateError)
    case Some(t) => JobState(st.db.(clips := SetTranscript(st.db.clips, c.id, t)), st.success + 1, st.fail)
    case None => st.(fail := st.fail + 1)
  }

  /** A clip's step counts it once and changes the store as the step from zeroed counters does. */
  lemma StepOfCounters(st: JobState, c: ClipRow, a: nat -> Attempt, updateError: Option<string>)
    ensures ClipStep(st, c, a, updateError) == JobState(ClipStep(JobState(st.db, 0, 0), c, a, updateError).db,
      st.success + (if Saved(a, updateError).Some? then 1 else 0), st.fail + (if Saved(a, updateError).Some? then 0 else 1))
  {
  }

  function JobAfter(st: JobState, cs: seq<ClipRow>, attempts: nat -> nat -> Attempt, updateErrors: nat -> Option<string>, i: nat): (r: JobState)
    requires i <= |cs|
    ensures |r.db.clips| == |st.db.clips|
  {
    if i == 0 then st else ClipStep(JobAfter(st, cs, attempts, updateErrors, i - 1), cs[i - 1], attempts(i - 1), updateErrors(i - 1))
  }

  /** One more candidate takes one more clip step. */
  lemma JobNext(st: JobState, cs: seq<ClipRow>, attempts: nat -> nat -> Attempt, updateErrors: nat -> Option<string>, i: nat)
    requires i < |cs|
    ensures JobAfter(st, cs, attempts, updateErrors, i + 1) == ClipStep(JobAfter(st, cs, attempts, updateErrors, i), cs[i], attempts(i), updateErrors(i))
  {
  }

  /** Every candidate is counted once, as a success or as a failure; only clip transcripts change. */
  lemma {:induction false} JobCounts(st: JobState, cs: seq<ClipRow>, attempts: nat -> nat -> Attempt, updateErrors: nat -> Option<string>, i: nat)
    requires i <= |cs|
    ensures var r := JobAfter(st, cs, attempts, updateErrors, i);
      && r.success + r.fail == st.success + st.fail + i
      && r.db == st.db.(clips := r.db.clips)
      && ClipIds(r.db.clips) == ClipIds(st.db.clips)
  {
    if i > 0 {
      JobCounts(st, cs, attempts, updateErrors, i - 1);
    }
  }

  predicate NoIdSaved(cs: seq<ClipRow>, attempts: nat -> nat -> Attempt, updateErrors: nat -> Option<string>, i: nat, id: ClipId)
    requires i <= |cs|
  {
    forall j :: 0 <= j < i && cs[j].id == id ==> Saved(attempts(j), updateErrors(j)).None?
  }

  /**
   * A failure leaves its clip as it was: a row whose id no candidate saved
   * a transcript for is unchanged, and every row keeps all but its transcript.
   */
  lemma {:induction false} JobOnlyTouchesSaved(st: JobState, cs: seq<ClipRow>, attempts: nat -> nat -> Attempt, updateErrors: nat -> Option<string>, i: nat)
    requires i <= |cs|
    ensures var r := JobAfter(st, cs, attempts, updateErrors, i).db.clips;
      && |r| == |st.db.clips|
      && (forall k :: 0 <= k < |r| ==> r[k] == st.db.clips[k].(transcript := r[k].transcript))
      && (forall k :: 0 <= k < |r| && NoIdSaved(cs, attempts, updateErrors, i, st.db.clips[k].id) ==> r[k] == st.db.clips[k])
  {
    if i > 0 {
      JobOnlyTouchesSaved(st, cs, attempts, updateErrors, i - 1);
      forall k | 0 <= k < |st.db.clips| && NoIdSaved(cs, attempts, updateErrors, i, st.db.clips[k].id)
        ensures NoIdSaved(cs, attempts, updateErrors, i - 1, st.db.clips[k].id)
      {
      }
    }
  }

  /** A success saves its transcript on its clip, and a later candidate of another id does not undo it. */
  lemma {:induction false} JobSavesTranscript(st: JobState, cs: seq<ClipRow>, attempts: nat -> nat -> Attempt, updateErrors: nat -> Option<string>, i: nat, j: nat, k: nat)
    requires j < i <= |cs| && k < |st.db.clips| && st.db.clips[k].id == cs[j].id
    requires Saved(attempts(j), updateErrors(j)).Some?
    requires forall j' :: j < j' < i ==> cs[j'].id != cs[j].id
    ensures JobAfter(st, cs, attempts, updateErrors, i).db.clips[k].transcript == Saved(attempts(j), updateErrors(j))
  {
    JobCounts(st, cs, attempts, updateErrors, i);
    if j < i - 1 {
      JobSavesTranscript(st, cs, attempts, updateErrors, i - 1, j, k);
      JobCounts(st, cs, attempts, updateErrors, i - 1);
    } else {
      JobCounts(st, cs, attempts, updateErrors, i - 1);
    }
  }

  /** The per-clip work of both loops: transcribe with the default retries, then update the row. */
  method TranscribeClip(store: Store, c: ClipRow, a: nat -> Attempt, updateError: Option<string>)
    returns (outcome: Result<string, string>)
    modifies store
    ensures outcome.Success? <==> Saved(a, updateError).Some?
    ensures outcome.Success? ==> Saved(a, updateError) == Some(outcome.value)
    ensures outcome.Failure? ==>
      outcome.error == (if Retry(a, 3).result.Failure? then Retry(a, 3).result.error else updateError.value)
    ensures ClipStep(JobState(old(store.Snapshot()), 0, 0), c, a, updateError).db == store.Snapshot()
  {
    var r, _, _ := TranscribeWithRetry(a, 3);
    if r.Failure? {
      return Failure(r.error);
    }
    var ok := store.UpdateTranscript(c.id, r.value, updateError.Some?);
    if !ok {
      return Failure(updateError.value);
    }
    outcome := Success(r.value);
  }
}
