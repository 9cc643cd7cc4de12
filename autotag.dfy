/**
 * `scripts/auto-tag-clips.ts`: reads the categories, fetches the transcribed
 * clips newest first in pages of 1000 up to the requested limit, and for
 * each clip that has no tag yet asks the chat model for category names,
 * parses the answer strictly as JSON, maps the names to category ids and
 * inserts one tag row per id.
 *
 * The store's answers are inputs: `pageFails(k)` says whether page k of the
 * clip query returns no data, and `replies(i)` holds, for candidate i, whether
 * its tag count query fails, what the chat model returns and what the tag
 * insert reports.
 */
module AutoTag {
  import opened Wrappers
  import opened Text
  import opened Seqs
  import opened Json
  import opened Catalog
  import opened Paging

  // ---------------------------------------------------------------------
  // The command line.

  /** `args.find(arg => arg.startsWith('--limit='))`. */
  function FindLimitArg(args: seq<string>): (r: Option<string>)
    ensures r.Some? ==> r.value in args && StartsWith(r.value, "--limit=")
    ensures r.None? <==> forall k :: 0 <= k < |args| ==> !StartsWith(args[k], "--limit=")
    decreases |args|
  {
    if args == [] then None
    else if StartsWith(args[0], "--limit=") then Some(args[0])
    else FindLimitArg(args[1..])
  }

  /** `limitArg ? parseInt(limitArg.split('=')[1]) : undefined`; None is undefined or NaN. */
  function LimitOf(args: seq<string>): Option<int> {
    match FindLimitArg(args)
    case None => None
    case Some(arg) =>
      ValueAfterPrefix(arg, "--limit=");
      ParseInt(SplitOn(arg, "=")[1])
  }

  /** The first `--limit=` argument decides; later ones and other arguments are ignored. */
  lemma {:induction false} FirstLimitWins(before: seq<string>, n: int, after: seq<string>)
    requires forall k :: 0 <= k < |before| ==> !StartsWith(before[k], "--limit=")
    ensures LimitOf(before + ["--limit=" + IntToString(n)] + after) == Some(n)
    decreases |before|
  {
    var args := before + ["--limit=" + IntToString(n)] + after;
    if before == [] {
      assert args[0] == "--limit=" + IntToString(n);
      LimitText(n);
    } else {
      assert args[1..] == before[1..] + ["--limit=" + IntToString(n)] + after;
      FirstLimitWins(before[1..], n, after);
    }
  }

  /** `parseInt` of the text after `--limit=` reads back the number written there. */
  lemma LimitText(n: int)
    ensures StartsWith("--limit=" + IntToString(n), "--limit=")
    ensures |SplitOn("--limit=" + IntToString(n), "=")| >= 2
    ensures ParseInt(SplitOn("--limit=" + IntToString(n), "=")[1]) == Some(n)
  {
    var v := IntToString(n);
    var arg := "--limit=" + v;
    assert arg == "--limit" + ['='] + v;
    assert '=' !in v by {
      if n < 0 { assert v == "-" + NatToString(-n); }
    }
    SplitAfterKey("--limit", '=', v);
    ParseIntOfIntToString(n);
  }

  /** `limit || 1000`: an absent, NaN or zero limit becomes 1000. */
  function RequestedLimit(limit: Option<int>): (r: int)
    ensures r != 0
    ensures limit.Some? && limit.value != 0 ==> r == limit.value
    ensures limit.None? || limit.value == 0 ==> r == 1000
  {
    if limit.None? || limit.value == 0 then 1000 else limit.value
  }

  // ---------------------------------------------------------------------
  // The candidate fetch.

  /** The rows of the clip query, newest first (clips are stored in creation order). */
  function TranscribedRows(clips: seq<ClipRow>): (r: seq<ClipRow>)
    ensures forall i :: 0 <= i < |r| ==> HasTranscript(r[i]) && r[i] in clips
    ensures forall i :: 0 <= i < |clips| && HasTranscript(clips[i]) ==> clips[i] in r
    ensures IsSubseq(r, Reverse(clips))
  {
    var rev := Reverse(clips);
    FilterIsSubseq(rev, HasTranscript);
    assert forall i :: 0 <= i < |clips| ==> clips[i] == rev[|clips| - 1 - i];
    Filter(rev, HasTranscript)
  }

  /** `allClips.slice(0, end)`: a negative end counts from the back. */
  function SliceTo(s: seq<ClipRow>, end: int): (r: seq<ClipRow>)
    ensures r <= s
    ensures end >= 0 ==> |r| == Min(end, |s|)
  {
    if end >= |s| then s
    else if end >= 0 then s[..end]
    else if |s| + end >= 0 then s[..|s| + end]
    else []
  }

  /** The candidate list: the collected rows, sliced to the requested count. */
  function Fetched(rows: seq<ClipRow>, limit: Option<int>, pageFails: nat -> bool): seq<ClipRow> {
    SliceTo(Collected(rows, RequestedLimit(limit), pageFails, 0), RequestedLimit(limit))
  }

  /**
   * The candidates are always the newest rows, at most as many as
   * requested; when no page fails they are exactly the newest `requested`
   * rows, or all of them if there are fewer.
   */
  lemma FetchedNewest(rows: seq<ClipRow>, limit: Option<int>, pageFails: nat -> bool)
    ensures var r, n := Fetched(rows, limit, pageFails), RequestedLimit(limit);
      && r <= rows
      && |r| <= (if n < 0 then 0 else n)
      && (PagesOk(pageFails, n) ==> r == if n < 0 then [] else rows[..Min(n, |rows|)])
  {
    var n := RequestedLimit(limit);
    CollectedContinues(rows, n, pageFails, 0);
    var all := Collected(rows, n, pageFails, 0);
    assert rows[..0] + all == all;
    if n > 0 && PagesOk(pageFails, n) {
      CollectedEnough(rows, n, pageFails, 0);
    }
  }

  /** The paging loop and the final slice. */
  method FetchCandidates(rows: seq<ClipRow>, limit: Option<int>, pageFails: nat -> bool) returns (clips: seq<ClipRow>)
    ensures clips == Fetched(rows, limit, pageFails)
  {
    var requested := RequestedLimit(limit);
    var all := FetchPages(rows, requested, pageFails);
    clips := SliceTo(all, requested);
  }

  // ---------------------------------------------------------------------
  // One clip.

  /** What the chat completion call gives: a thrown error, or the first choice's content, if any. */
  datatype ChatReply = ChatError(message: string) | ChatAnswer(content: Option<string>)

  /** The external answers for one candidate. */
  datatype ClipReplies = ClipReplies(countFails: bool, chat: ChatReply, insert: TagReply)

  /** How one clip ends. */
  datatype Outcome =
    | AlreadyTagged                // count > 0: skipped before the model call
    | ChatFailed(message: string)  // the call threw
    | NoResponse                   // no content, or only white space
    | InvalidJson                  // JSON.parse threw
    | NotAList                     // the parsed value has no `map`: a TypeError
    | NoMatches                    // no name matched a category
    | Duplicate                    // the insert hit a unique violation
    | InsertFailed                 // the insert failed otherwise
    | Tagged(ids: seq<CategoryId>) // tag rows inserted

  /** `categories.find(c => c.name === name)?.id` for one element; only a string can equal a name. */
  function Lookup(v: Json, cats: map<string, CategoryRow>): (r: seq<CategoryId>)
    ensures |r| <= 1
    ensures r != [] <==> v.JString? && v.s in cats
    ensures r != [] ==> r[0] == cats[v.s].id
  {
    if v.JString? && v.s in cats then [cats[v.s].id] else []
  }

  /**
   * `selectedCategories.map(...).filter(Boolean)`: the id of every element
   * that is exactly a category's name, in order; other elements are dropped.
   * (Category ids are never falsy.)
   */
  function MatchIds(items: seq<Json>, cats: map<string, CategoryRow>): (ids: seq<CategoryId>)
    ensures |ids| <= |items|
    ensures forall k :: 0 <= k < |ids| ==> exists j :: 0 <= j < |items| && Lookup(items[j], cats) == [ids[k]]
    ensures forall j :: 0 <= j < |items| && Lookup(items[j], cats) != [] ==> Lookup(items[j], cats)[0] in ids
    decreases |items|
  {
    if items == [] then []
    else
      var head := Lookup(items[0], cats);
      var rest := MatchIds(items[1..], cats);
      var ids := head + rest;
      assert forall k :: 0 <= k < |ids| ==> exists j :: 0 <= j < |items| && Lookup(items[j], cats) == [ids[k]] by {
        forall k | 0 <= k < |ids|
          ensures exists j :: 0 <= j < |items| && Lookup(items[j], cats) == [ids[k]]
        {
          if k < |head| {
            assert Lookup(items[0], cats) == [ids[k]];
          } else {
            assert ids[k] == rest[k - |head|];
            var j :| 0 <= j < |items[1..]| && Lookup(items[1..][j], cats) == [rest[k - |head|]];
            assert Lookup(items[j + 1], cats) == [ids[k]];
          }
        }
      }
      assert forall j :: 0 <= j < |items| && Lookup(items[j], cats) != [] ==> Lookup(items[j], cats)[0] in ids by {
        forall j | 0 <= j < |items| && Lookup(items[j], cats) != []
          ensures Lookup(items[j], cats)[0] in ids
        {
          if j > 0 {
            assert items[j] == items[1..][j - 1];
          }
        }
      }
      ids
  }

  /** The ids of the listed names that are category names, in order. */
  function NamedIds(names: seq<string>, cats: map<string, CategoryRow>): seq<CategoryId> {
    if names == [] then [] else (if names[0] in cats then [cats[names[0]].id] else []) + NamedIds(names[1..], cats)
  }

  /** Matching the strings of a list of names is looking up each name in turn. */
  lemma {:induction false} MatchStrings(names: seq<string>, cats: map<string, CategoryRow>)
    ensures MatchIds(Strings(names), cats) == NamedIds(names, cats)
    decreases |names|
  {
    if names != [] {
      assert Strings(names)[1..] == Strings(names[1..]);
      MatchStrings(names[1..], cats);
    }
  }

  /** The tag rows inserted for a clip: one per matched id, all for that clip. */
  function RowsFor(id: ClipId, ids: seq<CategoryId>): (rows: seq<TagRow>)
    ensures |rows| == |ids| && forall k :: 0 <= k < |ids| ==> rows[k] == TagRow(id, ids[k])
  {
    seq(|ids|, k requires 0 <= k < |ids| => TagRow(id, ids[k]))
  }

  /** The trimmed answer, if it is non-empty. */
  function Answer(c: ChatReply): Option<string>
    requires c.ChatAnswer?
  {
    if c.content.Some? && Trim(c.content.value) != "" then Some(Trim(c.content.value)) else None
  }

  /**
   * How the model call and what follows it end for a clip: every outcome
   * but `AlreadyTagged`, which the tag count decides before the call.
   */
  function AnswerOutcome(cats: map<string, CategoryRow>, r: ClipReplies): (o: Outcome)
    ensures !o.AlreadyTagged?
    ensures o.Tagged? ==> o.ids != [] && r.insert == TagsInserted
  {
    match r.chat
    case ChatError(m) => ChatFailed(m)
    case ChatAnswer(_) =>
      match Answer(r.chat)
      case None => NoResponse
      case Some(text) =>
        match Parse(text)
        case None => InvalidJson
        case Some(v) =>
          if !v.JArray? then NotAList
          else
            var ids := MatchIds(v.items, cats);
            if ids == [] then NoMatches
            else match r.insert
              case TagsInserted => Tagged(ids)
              case DuplicateKey => Duplicate
              case TagInsertError => InsertFailed
  }

  /**
   * How clip `c` ends: skipped when its tag count (unless that query fails)
   * is positive, otherwise as the model call and the insert go.
   */
  function OutcomeOf(tags: seq<TagRow>, c: ClipRow, countFails: bool, answer: Outcome): Outcome {
    if !countFails && |TagsOf(tags, c.id)| > 0 then AlreadyTagged else answer
  }

  /** `successCount++`. */
  predicate Succeeded(o: Outcome) {
    o.Tagged?
  }

  /** `failCount++`. */
  predicate Failed(o: Outcome) {
    o.ChatFailed? || o.NoResponse? || o.InvalidJson? || o.NotAList? || o.InsertFailed?
  }

  /** The outcomes that reach the rate-limit pause instead of a `continue`. */
  predicate Paced(o: Outcome) {
    o.ChatFailed? || o.NotAList? || o.InsertFailed? || o.Tagged?
  }

  /** An already tagged clip is skipped whatever the model would say, and counted in neither counter. */
  lemma SkipBeforeModel(tags: seq<TagRow>, c: ClipRow, a: Outcome, a': Outcome)
    requires TagsOf(tags, c.id) != []
    ensures OutcomeOf(tags, c, false, a) == OutcomeOf(tags, c, false, a') == AlreadyTagged
    ensures !Succeeded(AlreadyTagged) && !Failed(AlreadyTagged) && !Paced(AlreadyTagged)
  {
  }

  /** An empty or white-space answer, and an answer that is not JSON, are failures that insert nothing. */
  lemma BadAnswersFail(cats: map<string, CategoryRow>, r: ClipReplies)
    requires r.chat.ChatAnswer? && (Answer(r.chat).None? || Parse(Answer(r.chat).value).None?)
    ensures var o := AnswerOutcome(cats, r); Failed(o) && !o.Tagged? && !Paced(o)
  {
  }

  /**
   * An answer in the requested format, `["a", "b"]`, tags the clip with the
   * ids of exactly the listed names that are categories, in order; with no
   * such name it is a soft skip.
   */
  lemma RenderedAnswer(cats: map<string, CategoryRow>, names: seq<string>, countFails: bool, insert: TagReply)
    requires AllPlain(names)
    ensures var o := AnswerOutcome(cats, ClipReplies(countFails, ChatAnswer(Some(RenderNames(names))), insert));
      && (NamedIds(names, cats) == [] ==> o == NoMatches)
      && (NamedIds(names, cats) != [] && insert == TagsInserted ==> o == Tagged(NamedIds(names, cats)))
      && (NamedIds(names, cats) != [] && insert == DuplicateKey ==> o == Duplicate)
      && (NamedIds(names, cats) != [] && insert == TagInsertError ==> o == InsertFailed)
  {
    TrimRendered(names);
    ParseRenderNames(names);
    MatchStrings(names, cats);
  }

  /** A rendered list starts with `[` and ends with `]`, so trimming keeps it. */
  lemma TrimRendered(names: seq<string>)
    ensures Trim(RenderNames(names)) == RenderNames(names) != ""
  {
    var text := RenderNames(names);
    var items := if names == [] then "" else RenderItems(names);
    assert text == "[" + items + "]";
    assert text[0] == '[' && text[|text| - 1] == ']';
    TrimKeeps(text);
  }

  /** A string whose first and last characters are not white space is its own trim. */
  lemma TrimKeeps(s: string)
    requires |s| > 0 && !IsJsSpace(s[0]) && !IsJsSpace(s[|s| - 1])
    ensures Trim(s) == s
  {
    assert TrimStart(s) == s;
    assert TrimEnd(s) == s;
  }

  // ---------------------------------------------------------------------
  // The clip loop. `countFails(i)` and `answers(i)` are candidate i's tag
  // count failure and the outcome of its model call and insert; the job
  // passes `AnswerOutcome` of its replies.

  /** The tag table and the counters; `pauses` lists the rate-limit waits in milliseconds. */
  datatype TagState = TagState(tags: seq<TagRow>, success: nat, fail: nat, pauses: seq<nat>)

  /** One candidate; `last` says whether it is the last one, after which no pause follows. */
  function TagStep(st: TagState, c: ClipRow, countFails: bool, answer: Outcome, last: bool): TagState {
    var o := OutcomeOf(st.tags, c, countFails, answer);
    TagState(
      if o.Tagged? then st.tags + RowsFor(c.id, o.ids) else st.tags,
      st.success + (if Succeeded(o) then 1 else 0),
      st.fail + (if Failed(o) then 1 else 0),
      st.pauses + (if Paced(o) && !last then [500] else []))
  }

  function TagAfter(st: TagState, cs: seq<ClipRow>, countFails: nat -> bool, answers: nat -> Outcome, i: nat): TagState
    requires i <= |cs|
  {
    if i == 0 then st
    else TagStep(TagAfter(st, cs, countFails, answers, i - 1), cs[i - 1], countFails(i - 1), answers(i - 1), i == |cs|)
  }

  /**
   * Each candidate adds at most one to one counter, so `successCount +
   * failCount` never exceeds the candidates; every pause is 500 ms, and
   * none follows the last candidate.
   */
  lemma {:induction false} TagCounts(st: TagState, cs: seq<ClipRow>, countFails: nat -> bool, answers: nat -> Outcome, i: nat)
    requires i <= |cs|
    ensures var r := TagAfter(st, cs, countFails, answers, i);
      && r.success + r.fail <= st.success + st.fail + i
      && |r.pauses| <= |st.pauses| + (if i == |cs| && i > 0 then i - 1 else i)
      && st.pauses <= r.pauses
      && forall k :: |st.pauses| <= k < |r.pauses| ==> r.pauses[k] == 500
  {
    if i > 0 {
      TagCounts(st, cs, countFails, answers, i - 1);
    }
  }

  /**
   * The job only appends tag rows, and each appended row belongs to a
   * candidate: the tags of a clip that is not among the first `i`
   * candidates are unchanged.
   */
  lemma {:induction false} TagsOnlyForCandidates(st: TagState, cs: seq<ClipRow>, countFails: nat -> bool, answers: nat -> Outcome, i: nat, id: ClipId)
    requires i <= |cs| && forall j :: 0 <= j < i ==> cs[j].id != id
    ensures st.tags <= TagAfter(st, cs, countFails, answers, i).tags
    ensures TagsOf(TagAfter(st, cs, countFails, answers, i).tags, id) == TagsOf(st.tags, id)
  {
    if i > 0 {
      TagsOnlyForCandidates(st, cs, countFails, answers, i - 1, id);
      var prev := TagAfter(st, cs, countFails, answers, i - 1);
      var o := OutcomeOf(prev.tags, cs[i - 1], countFails(i - 1), answers(i - 1));
      if o.Tagged? {
        var rows := RowsFor(cs[i - 1].id, o.ids);
        TagsOfAppend(prev.tags, rows, id);
        RowsForOther(cs[i - 1].id, o.ids, id);
      }
    }
  }

  /** Rows for one clip hold no tag of another. */
  lemma RowsForOther(clip: ClipId, ids: seq<CategoryId>, id: ClipId)
    requires clip != id
    ensures TagsOf(RowsFor(clip, ids), id) == []
  {
    TagsOfNone(RowsFor(clip, ids), id);
  }

  lemma {:induction false} TagsOfNone(tags: seq<TagRow>, id: ClipId)
    requires forall k :: 0 <= k < |tags| ==> tags[k].clipId != id
    ensures TagsOf(tags, id) == []
    decreases |tags|
  {
    if tags != [] {
      TagsOfNone(tags[1..], id);
    }
  }

  /**
   * A candidate that ends tagged gets exactly one row per matched id, for
   * itself only, and the success counter grows by one; a soft skip
   * changes nothing.
   */
  lemma TaggedStep(st: TagState, c: ClipRow, countFails: bool, answer: Outcome, last: bool)
    ensures var o, n := OutcomeOf(st.tags, c, countFails, answer), TagStep(st, c, countFails, answer, last);
      && (o.Tagged? ==> n.tags == st.tags + RowsFor(c.id, o.ids) && n.success == st.success + 1 && n.fail == st.fail)
      && (!o.Tagged? ==> n.tags == st.tags && n.success == st.success)
      && (o.Duplicate? || o.NoMatches? || o.AlreadyTagged? ==> n == st)
  {
  }

  /** The clip loop's store writes: `InsertTags` with the reply for this clip, only when some id matched. */
  method TagClip(store: Store, cats: map<string, CategoryRow>, c: ClipRow, r: ClipReplies) returns (o: Outcome)
    modifies store
    ensures o == OutcomeOf(old(store.tags), c, r.countFails, AnswerOutcome(cats, r))
    ensures store.Snapshot() == if o.Tagged? then old(store.Snapshot()).(tags := old(store.tags) + RowsFor(c.id, o.ids)) else old(store.Snapshot())
  {
    var count := |TagsOf(store.tags, c.id)|;
    if !r.countFails && count > 0 {
      return AlreadyTagged;
    }
    o := Answered(store, cats, c, r);
  }

  /** From the model call on. */
  method Answered(store: Store, cats: map<string, CategoryRow>, c: ClipRow, r: ClipReplies) returns (o: Outcome)
    modifies store
    ensures o == AnswerOutcome(cats, r)
    ensures store.Snapshot() == if o.Tagged? then old(store.Snapshot()).(tags := old(store.tags) + RowsFor(c.id, o.ids)) else old(store.Snapshot())
  {
    if r.chat.ChatError? {
      return ChatFailed(r.chat.message);
    }
    var response := if r.chat.content.Some? then Trim(r.chat.content.value) else "";
    if response == "" {
      return NoResponse;
    }
    var parsed := Parse(response);
    if parsed.None? {
      return InvalidJson;
    }
    if !parsed.value.JArray? {
      return NotAList;
    }
    var ids := MatchIds(parsed.value.items, cats);
    if |ids| == 0 {
      return NoMatches;
    }
    store.InsertTags(RowsFor(c.id, ids), r.insert);
    match r.insert
    case TagsInserted => o := Tagged(ids);
    case DuplicateKey => o := Duplicate;
    case TagInsertError => o := InsertFailed;
  }

  method RunTagging(store: Store, cats: map<string, CategoryRow>, cs: seq<ClipRow>, replies: nat -> ClipReplies)
    returns (success: nat, fail: nat, pauses: seq<nat>)
    modifies store
    ensures TagAfter(TagState(old(store.tags), 0, 0, []), cs, CountFailures(replies), Answers(cats, replies), |cs|)
      == TagState(store.tags, success, fail, pauses)
    ensures store.Snapshot() == old(store.Snapshot()).(tags := store.tags)
  {
    ghost var st0 := TagState(store.tags, 0, 0, []);
    success, fail, pauses := 0, 0, [];
    for i := 0 to |cs|
      invariant TagAfter(st0, cs, CountFailures(replies), Answers(cats, replies), i) == TagState(store.tags, success, fail, pauses)
      invariant store.Snapshot() == old(store.Snapshot()).(tags := store.tags)
    {
      success, fail, pauses := TagNext(store, cats, cs[i], replies(i), i + 1 == |cs|, success, fail, pauses);
    }
  }

  /** The loop body: one clip, its counter and its pause. */
  method TagNext(store: Store, cats: map<string, CategoryRow>, c: ClipRow, r: ClipReplies, last: bool,
                 success0: nat, fail0: nat, pauses0: seq<nat>)
    returns (success: nat, fail: nat, pauses: seq<nat>)
    modifies store
    ensures TagStep(TagState(old(store.tags), success0, fail0, pauses0), c, r.countFails, AnswerOutcome(cats, r), last)
      == TagState(store.tags, success, fail, pauses)
    ensures store.Snapshot() == old(store.Snapshot()).(tags := store.tags)
  {
    ghost var tags0 := store.tags;
    var o := TagClip(store, cats, c, r);
    success, fail, pauses := Tally(o, last, success0, fail0, pauses0);
    StepOfOutcome(TagState(tags0, success0, fail0, pauses0), c, r.countFails, AnswerOutcome(cats, r), last, o);
  }

  /** The counters and the pause after an outcome. */
  method Tally(o: Outcome, last: bool, success0: nat, fail0: nat, pauses0: seq<nat>) returns (success: nat, fail: nat, pauses: seq<nat>)
    ensures success == success0 + (if Succeeded(o) then 1 else 0)
    ensures fail == fail0 + (if Failed(o) then 1 else 0)
    ensures pauses == pauses0 + (if Paced(o) && !last then [500] else [])
  {
    success, fail, pauses := success0, fail0, pauses0;
    if Succeeded(o) {
      success := success + 1;
    } else if Failed(o) {
      fail := fail + 1;
    }
    if Paced(o) && !last {
      pauses := pauses + [500];
    }
  }

  lemma StepOfOutcome(st: TagState, c: ClipRow, countFails: bool, answer: Outcome, last: bool, o: Outcome)
    requires o == OutcomeOf(st.tags, c, countFails, answer)
    ensures TagStep(st, c, countFails, answer, last) == TagState(
      if o.Tagged? then st.tags + RowsFor(c.id, o.ids) else st.tags,
      st.success + (if Succeeded(o) then 1 else 0),
      st.fail + (if Failed(o) then 1 else 0),
      st.pauses + (if Paced(o) && !last then [500] else []))
  {
  }

  function CountFailures(replies: nat -> ClipReplies): nat -> bool {
    (i: nat) => replies(i).countFails
  }

  function Answers(cats: map<string, CategoryRow>, replies: nat -> ClipReplies): nat -> Outcome {
    (i: nat) => AnswerOutcome(cats, replies(i))
  }

  /** How the job ends. */
  datatype TagRun =
    | NoCategories                                // process.exit(1)
    | NoClips                                     // 'No clips to tag!'
    | Done(total: nat, success: nat, fail: nat)

  /**
   * `autoTagClips(limit)`; `categoriesFail` says whether the category query
   * returns no data.
   */
  method AutoTagClips(store: Store, limit: Option<int>, categoriesFail: bool, pageFails: nat -> bool, replies: nat -> ClipReplies)
    returns (run: TagRun, pauses: seq<nat>)
    modifies store
    ensures categoriesFail || old(store.categories) == map[] ==> run == NoCategories && store.Snapshot() == old(store.Snapshot())
    ensures !categoriesFail && old(store.categories) != map[] ==>
      var cs := Fetched(TranscribedRows(old(store.clips)), limit, pageFails);
      if cs == [] then run == NoClips && store.Snapshot() == old(store.Snapshot())
      else
        var r := TagAfter(TagState(old(store.tags), 0, 0, []), cs, CountFailures(replies), Answers(old(store.categories), replies), |cs|);
        && run == Done(|cs|, r.success, r.fail)
        && store.Snapshot() == old(store.Snapshot()).(tags := r.tags)
        && pauses == r.pauses
  {
    pauses := [];
    if categoriesFail || store.categories == map[] {
      return NoCategories, pauses;
    }
    var cats := store.categories;
    var cs := FetchCandidates(TranscribedRows(store.clips), limit, pageFails);
    if |cs| == 0 {
      return NoClips, pauses;
    }
    var success, fail;
    success, fail, pauses := RunTagging(store, cats, cs, replies);
    run := Done(|cs|, success, fail);
  }
}
