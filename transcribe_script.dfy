/**
 * `scripts/transcribe-clips.ts`: the command-line options and the
 * `transcribeClips` job, which transcribes the candidate clips one by one,
 * saves each transcript and counts successes and failures.
 */
module TranscribeScript {
  import opened Wrappers
  import opened Text
  import opened Seqs
  import opened Catalog
  import opened Transcription
  import opened TranscribeCommon

  /** The options; a `limit` of None is absent or NaN, both falsy. */
  datatype Options = Options(limit: Option<int>, clipId: Option<string>)

  /** One argument: `--limit=` and `--clip-id=` take the text after the first `=`, up to any next one. */
  function ArgStep(o: Options, arg: string): Options {
    if StartsWith(arg, "--limit=") then
      ValueAfterPrefix(arg, "--limit=");
      o.(limit := ParseInt(SplitOn(arg, "=")[1]))
    else if StartsWith(arg, "--clip-id=") then
      ValueAfterPrefix(arg, "--clip-id=");
      o.(clipId := Some(SplitOn(arg, "=")[1]))
    else o
  }

  function ArgsAfter(args: seq<string>, i: nat): Options
    requires i <= |args|
  {
    if i == 0 then Options(None, None) else ArgStep(ArgsAfter(args, i - 1), args[i - 1])
  }

  /** The argument loop over `process.argv.slice(2)`. */
  method ParseArgs(args: seq<string>) returns (o: Options)
    ensures o == ArgsAfter(args, |args|)
  {
    o := Options(None, None);
    for i := 0 to |args|
      invariant o == ArgsAfter(args, i)
    {
      var arg := args[i];
      if StartsWith(arg, "--limit=") {
        ValueAfterPrefix(arg, "--limit=");
        o := o.(limit := ParseInt(SplitOn(arg, "=")[1]));
      } else if StartsWith(arg, "--clip-id=") {
        ValueAfterPrefix(arg, "--clip-id=");
        o := o.(clipId := Some(SplitOn(arg, "=")[1]));
      }
    }
  }

  /** `--limit=N` sets the limit to N. */
  lemma LimitArg(o: Options, n: int)
    ensures ArgStep(o, "--limit=" + IntToString(n)) == o.(limit := Some(n))
  {
    var v := IntToString(n);
    var arg := "--limit=" + v;
    assert arg == "--limit" + ['='] + v;
    assert StartsWith(arg, "--limit=");
    assert '=' !in v by {
      if n < 0 { assert v == "-" + NatToString(-n); }
    }
    SplitAfterKey("--limit", '=', v);
    ParseIntOfIntToString(n);
  }

  /** `--clip-id=X` sets the clip id to X when X holds no `=`. */
  lemma ClipIdArg(o: Options, x: string)
    requires '=' !in x
    ensures ArgStep(o, "--clip-id=" + x) == o.(clipId := Some(x))
  {
    var arg := "--clip-id=" + x;
    assert arg == "--clip-id" + ['='] + x;
    assert !StartsWith(arg, "--limit=") by {
      assert arg[2] == 'c';
    }
    SplitAfterKey("--clip-id", '=', x);
  }

  /** A clip id given with further `=` signs keeps only the text up to the second one. */
  lemma ClipIdArgCut(o: Options, x: string, y: string)
    requires '=' !in x
    ensures ArgStep(o, "--clip-id=" + x + "=" + y) == o.(clipId := Some(x))
  {
    var arg := "--clip-id=" + x + "=" + y;
    assert arg == "--clip-id" + ['='] + (x + "=" + y);
    assert !StartsWith(arg, "--limit=") by {
      assert arg[2] == 'c';
    }
    var v := x + ['='] + y;
    assert x + "=" + y == v;
    SplitAfterKey("--clip-id", '=', v);
    SplitAfterKey(x, '=', y);
    assert SplitOn(v, "=")[0] == x;
  }

  /** How the job ends. */
  datatype ScriptRun =
    | FetchFailed(error: string)                       // process.exit(1)
    | NothingToTranscribe                              // no clips need transcription
    | Done(total: nat, success: nat, fail: nat)

  /** The clip-id text the query filters on; an absent or empty one selects by transcript. */
  function IdFilter(o: Options): string {
    o.clipId.GetOr("")
  }

  /** The clip loop, with a one-second pause between clips. */
  method RunClips(store: Store, cs: seq<ClipRow>, attempts: nat -> nat -> Attempt, updateErrors: nat -> Option<string>)
    returns (success: nat, fail: nat, pauses: seq<nat>)
    modifies store
    ensures JobAfter(JobState(old(store.Snapshot()), 0, 0), cs, attempts, updateErrors, |cs|) == JobState(store.Snapshot(), success, fail)
    ensures success + fail == |cs|
    ensures pauses == Pacing(|cs|)
  {
    ghost var st0 := JobState(store.Snapshot(), 0, 0);
    success, fail, pauses := 0, 0, [];
    for i := 0 to |cs|
      invariant JobAfter(st0, cs, attempts, updateErrors, i) == JobState(store.Snapshot(), success, fail)
      invariant pauses == Pacing(if i < |cs| then i + 1 else |cs|)
    {
      ghost var before := JobState(store.Snapshot(), success, fail);
      StepOfCounters(before, cs[i], attempts(i), updateErrors(i));
      JobNext(st0, cs, attempts, updateErrors, i);
      var outcome := TranscribeClip(store, cs[i], attempts(i), updateErrors(i));
      if outcome.Success? {
        success := success + 1;
      } else {
        fail := fail + 1;
      }
      if i < |cs| - 1 {
        pauses := pauses + [1000];
      }
    }
    JobCounts(st0, cs, attempts, updateErrors, |cs|);
  }

  /** `transcribeClips(options)` over the store; `queryError` is the error the clip query returns, if any. */
  method TranscribeClips(store: Store, o: Options, queryError: Option<string>,
                         attempts: nat -> nat -> Attempt, updateErrors: nat -> Option<string>)
    returns (run: ScriptRun, pauses: seq<nat>)
    modifies store
    ensures queryError.Some? ==> run == FetchFailed(queryError.value) && store.Snapshot() == old(store.Snapshot())
    ensures var q := Candidates(old(store.clips), IdFilter(o), o.limit);
      queryError.None? ==>
        if q.Failure? then run == FetchFailed(q.error) && store.Snapshot() == old(store.Snapshot())
        else if q.value == [] then run == NothingToTranscribe && store.Snapshot() == old(store.Snapshot())
        else
          var r := JobAfter(JobState(old(store.Snapshot()), 0, 0), q.value, attempts, updateErrors, |q.value|);
          && store.Snapshot() == r.db
          && run == Done(|q.value|, r.success, r.fail)
          && r.success + r.fail == |q.value|
          && pauses == Pacing(|q.value|)
  {
    pauses := [];
    if queryError.Some? {
      return FetchFailed(queryError.value), pauses;
    }
    var q := Candidates(store.clips, IdFilter(o), o.limit);
    if q.Failure? {
      return FetchFailed(q.error), pauses;
    }
    var cs := q.value;
    if |cs| == 0 {
      return NothingToTranscribe, pauses;
    }
    var success, fail;
    success, fail, pauses := RunClips(store, cs, attempts, updateErrors);
    run := Done(|cs|, success, fail);
  }
}
