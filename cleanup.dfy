/**
 * `scripts/clean-short-transcripts.ts`: counts the clips with a transcript,
 * loads them in pages of 1000, picks those whose trimmed transcript is at
 * most one word, waits five seconds and deletes them in batches of 100.
 *
 * The store's answers are inputs: `countFails` says whether the count query
 * returns no count, `pageFails(k)` whether page k returns no data, and
 * `deleteFails(k)` whether the k-th delete batch returns an error.
 */
module Cleanup {
  import opened Wrappers
  import opened Text
  import opened Seqs
  import opened Catalog
  import opened Paging

  /** The rows both queries select, in storage order. */
  function TranscribedRows(clips: seq<ClipRow>): (r: seq<ClipRow>)
    ensures forall i :: 0 <= i < |r| ==> HasTranscript(r[i]) && r[i] in clips
    ensures forall i :: 0 <= i < |clips| && HasTranscript(clips[i]) ==> clips[i] in r
  {
    Filter(clips, HasTranscript)
  }

  /** The bound of the fetch loop, `totalCount || 0`: a missing count reads as 0. */
  function TotalOf(rows: seq<ClipRow>, countFails: bool): nat {
    if countFails then 0 else |rows|
  }

  // ---------------------------------------------------------------------
  // Loading.

  /**
   * The rows the fetch loop collects from `offset` on: one page per offset
   * below `total`; a page that returns no data is skipped and the loop
   * goes on.
   */
  function Loaded(rows: seq<ClipRow>, total: nat, pageFails: nat -> bool, offset: nat): seq<ClipRow>
    decreases total - offset
  {
    if offset >= total then []
    else (if pageFails(offset / PageSize) then [] else Page(rows, offset)) + Loaded(rows, total, pageFails, offset + PageSize)
  }

  /** The offsets the loop queries from `offset` on. */
  function OffsetsFrom(total: nat, offset: nat): seq<nat>
    decreases total - offset
  {
    if offset >= total then [] else [offset] + OffsetsFrom(total, offset + PageSize)
  }

  /** The loop queries offsets 0, 1000, 2000, ...: one per started thousand of the count. */
  lemma {:induction false} OffsetsAreThousands(total: nat, k: nat)
    requires k * PageSize <= total + PageSize - 1
    ensures var os := OffsetsFrom(total, k * PageSize);
      && |os| == (total + PageSize - 1) / PageSize - k
      && forall j :: 0 <= j < |os| ==> os[j] == (k + j) * PageSize
    decreases total - k * PageSize
  {
    if k * PageSize < total {
      assert (k + 1) * PageSize == k * PageSize + PageSize;
      OffsetsAreThousands(total, k + 1);
      var os := OffsetsFrom(total, k * PageSize);
      assert os == [k * PageSize] + OffsetsFrom(total, (k + 1) * PageSize);
      forall j | 0 <= j < |os|
        ensures os[j] == (k + j) * PageSize
      {
        if j > 0 {
          assert os[j] == OffsetsFrom(total, (k + 1) * PageSize)[j - 1];
          assert (k + 1 + (j - 1)) == k + j;
        }
      }
    } else {
      assert (total + PageSize - 1) / PageSize == k by {
        assert k * PageSize >= total;
        assert (k - 1) * PageSize < total || k == 0;
      }
    }
  }

  /** Every loaded row is a selected row. */
  lemma {:induction false} LoadedFromRows(rows: seq<ClipRow>, total: nat, pageFails: nat -> bool, offset: nat)
    ensures forall i :: 0 <= i < |Loaded(rows, total, pageFails, offset)| ==> Loaded(rows, total, pageFails, offset)[i] in rows
    decreases total - offset
  {
    if offset < total {
      LoadedFromRows(rows, total, pageFails, offset + PageSize);
      var page := if pageFails(offset / PageSize) then [] else Page(rows, offset);
      var rest := Loaded(rows, total, pageFails, offset + PageSize);
      forall i | 0 <= i < |page + rest|
        ensures (page + rest)[i] in rows
      {
        if i >= |page| {
          assert (page + rest)[i] == rest[i - |page|];
        } else {
          assert page[i] == rows[offset + i];
        }
      }
    }
  }

  /** With the true count and no failing page, the loop loads every selected row once, in order. */
  lemma {:induction false} LoadedAll(rows: seq<ClipRow>, offset: nat)
    requires offset <= |rows|
    ensures Loaded(rows, |rows|, _ => false, offset) == rows[offset..]
    decreases |rows| - offset
  {
    if offset < |rows| {
      if offset + PageSize <= |rows| {
        LoadedAll(rows, offset + PageSize);
        assert rows[offset..] == rows[offset..offset + PageSize] + rows[offset + PageSize..];
      } else {
        assert Loaded(rows, |rows|, _ => false, offset + PageSize) == [];
        assert Page(rows, offset) == rows[offset..];
      }
    }
  }

  /** The fetch loop; it also returns the offsets it queried. */
  method LoadRows(rows: seq<ClipRow>, total: nat, pageFails: nat -> bool) returns (all: seq<ClipRow>, offsets: seq<nat>)
    ensures all == Loaded(rows, total, pageFails, 0)
    ensures offsets == OffsetsFrom(total, 0)
  {
    all, offsets := [], [];
    var offset: nat := 0;
    while offset < total
      invariant all + Loaded(rows, total, pageFails, offset) == Loaded(rows, total, pageFails, 0)
      invariant offsets + OffsetsFrom(total, offset) == OffsetsFrom(total, 0)
      decreases total - offset
    {
      var batch := if pageFails(offset / PageSize) then [] else Page(rows, offset);
      ghost var rest := Loaded(rows, total, pageFails, offset + PageSize);
      assert (all + batch) + rest == all + (batch + rest);
      ghost var later := OffsetsFrom(total, offset + PageSize);
      assert (offsets + [offset]) + later == offsets + ([offset] + later);
      all := all + batch;
      offsets := offsets + [offset];
      offset := offset + PageSize;
    }
  }

  // ---------------------------------------------------------------------
  // Choosing.

  /** `clip.transcript?.trim().split(/\s+/) || []` has at most one element. */
  predicate IsShort(c: ClipRow) {
    match c.transcript
    case None => true
    case Some(t) => |SplitOnSpaces(Trim(t))| <= 1
  }

  /** A transcript is short exactly when, once trimmed, it has no white space left: a single word or nothing. */
  lemma ShortMeansOneWord(c: ClipRow)
    ensures IsShort(c) <==> c.transcript.None? || !HasSpace(Trim(c.transcript.value))
  {
    if c.transcript.Some? {
      SplitOnSpacesSingle(Trim(c.transcript.value));
    }
  }

  /** A word, white space, and another word is not short. */
  lemma TwoWordsNotShort(c: ClipRow, a: string, sp: char, b: string)
    requires IsJsSpace(sp) && a != [] && b != [] && !IsJsSpace(a[0]) && !IsJsSpace(b[|b| - 1])
    requires c.transcript == Some(a + [sp] + b)
    ensures !IsShort(c)
  {
    var t := a + [sp] + b;
    TrimKeepsEnds(t);
    assert Trim(t) == t;
    assert t[|a|] == sp;
    ShortMeansOneWord(c);
  }

  /** Trimming leaves a string alone when it starts and ends with a non-space. */
  lemma TrimKeepsEnds(t: string)
    requires t != [] && !IsJsSpace(t[0]) && !IsJsSpace(t[|t| - 1])
    ensures Trim(t) == t
  {
  }

  /** The ids of the clips to delete: the short ones among the loaded rows, in load order. */
  function ShortIds(loaded: seq<ClipRow>): seq<ClipId> {
    ChosenIds(loaded, IsShort)
  }

  /** The ids of the loaded rows that `keep` picks, in load order. */
  function ChosenIds(loaded: seq<ClipRow>, keep: ClipRow -> bool): seq<ClipId> {
    ClipIds(Filter(loaded, keep))
  }

  // ---------------------------------------------------------------------
  // Deleting.

  const BatchSize := 100

  /** `clipIds.slice(i, i + 100)`. */
  function Batch(ids: seq<ClipId>, i: nat): (b: seq<ClipId>)
    requires i < |ids|
    ensures 0 < |b| <= BatchSize && b == ids[i..Min(i + BatchSize, |ids|)]
  {
    ids[i..Min(i + BatchSize, |ids|)]
  }

  /** The batches from offset `i` on. */
  function Batches(ids: seq<ClipId>, i: nat): seq<seq<ClipId>>
    decreases |ids| - i
  {
    if i >= |ids| then [] else [Batch(ids, i)] + Batches(ids, i + BatchSize)
  }

  function Concat(bs: seq<seq<ClipId>>): seq<ClipId> {
    if bs == [] then [] else bs[0] + Concat(bs[1..])
  }

  /** The batches split the ids into consecutive runs of at most 100, none empty and all but the last full. */
  lemma {:induction false} BatchesSplit(ids: seq<ClipId>, i: nat)
    requires i <= |ids|
    ensures var bs := Batches(ids, i);
      && Concat(bs) == ids[i..]
      && (forall k :: 0 <= k < |bs| ==> 0 < |bs[k]| <= BatchSize)
      && (forall k :: 0 <= k < |bs| - 1 ==> |bs[k]| == BatchSize)
    decreases |ids| - i
  {
    if i < |ids| {
      var bs := Batches(ids, i);
      if i + BatchSize < |ids| {
        BatchesSplit(ids, i + BatchSize);
        assert ids[i..] == ids[i..i + BatchSize] + ids[i + BatchSize..];
      } else {
        assert Batches(ids, i + BatchSize) == [];
      }
      assert bs[1..] == Batches(ids, i + BatchSize);
    }
  }

  datatype DeleteState = DeleteState(db: Db, deleted: nat)

  /** The delete loop from offset `i` on: a batch that succeeds removes its clips and adds its size. */
  function DeleteFrom(st: DeleteState, ids: seq<ClipId>, deleteFails: nat -> bool, i: nat): DeleteState
    decreases |ids| - i
  {
    if i >= |ids| then st
    else
      var b := Batch(ids, i);
      var next := if deleteFails(i / BatchSize) then st
        else DeleteState(st.db.(clips := DeleteClips(st.db.clips, b)), st.deleted + |b|);
      DeleteFrom(next, ids, deleteFails, i + BatchSize)
  }

  /**
   * The delete loop touches only clips, removes only listed ids, keeps
   * every clip whose id is not listed from `i` on, and counts at most the
   * listed ids; when no batch fails it removes every listed clip and counts
   * every id.
   */
  lemma {:induction false} DeleteEffects(st: DeleteState, ids: seq<ClipId>, deleteFails: nat -> bool, i: nat)
    requires i <= |ids|
    ensures var r := DeleteFrom(st, ids, deleteFails, i);
      && r.db == st.db.(clips := r.db.clips)
      && st.deleted <= r.deleted <= st.deleted + (|ids| - i)
      && (forall x :: x in r.db.clips ==> x in st.db.clips)
      && (forall x :: x in st.db.clips && x.id !in ids[i..] ==> x in r.db.clips)
    decreases |ids| - i
  {
    if i < |ids| {
      var b := Batch(ids, i);
      var j := Min(i + BatchSize, |ids|);
      assert ids[i..] == b + ids[j..];
      var next := if deleteFails(i / BatchSize) then st
        else DeleteState(st.db.(clips := DeleteClips(st.db.clips, b)), st.deleted + |b|);
      DeletedAreListed(st.db.clips, b);
      if j == |ids| {
        assert DeleteFrom(st, ids, deleteFails, i) == next;
      } else {
        DeleteEffects(next, ids, deleteFails, j);
      }
    }
  }

  /** A delete keeps only rows that were there. */
  lemma DeletedAreListed(clips: seq<ClipRow>, ids: seq<ClipId>)
    ensures forall x :: x in DeleteClips(clips, ids) ==> x in clips
  {
    var r := DeleteClips(clips, ids);
    forall x | x in r
      ensures x in clips
    {
      var i :| 0 <= i < |r| && r[i] == x;
      SubseqMember(r, clips, i);
    }
  }

  /** When no batch fails, every listed id is gone and every id is counted. */
  lemma {:induction false} DeleteAllListed(st: DeleteState, ids: seq<ClipId>, i: nat)
    requires i <= |ids|
    ensures var r := DeleteFrom(st, ids, _ => false, i);
      && r.deleted == st.deleted + (|ids| - i)
      && (forall x :: x in r.db.clips ==> x.id !in ids[i..])
    decreases |ids| - i
  {
    if i < |ids| {
      var b := Batch(ids, i);
      var j := Min(i + BatchSize, |ids|);
      assert ids[i..] == b + ids[j..];
      var next := DeleteState(st.db.(clips := DeleteClips(st.db.clips, b)), st.deleted + |b|);
      if j == |ids| {
        assert DeleteFrom(st, ids, _ => false, i) == next;
      } else {
        DeleteAllListed(next, ids, j);
        DeleteEffects(next, ids, _ => false, j);
      }
    }
  }

  /** The delete loop. */
  method DeleteBatches(store: Store, ids: seq<ClipId>, deleteFails: nat -> bool) returns (deleted: nat)
    modifies store
    ensures DeleteFrom(DeleteState(old(store.Snapshot()), 0), ids, deleteFails, 0) == DeleteState(store.Snapshot(), deleted)
  {
    ghost var goal := DeleteFrom(DeleteState(store.Snapshot(), 0), ids, deleteFails, 0);
    deleted := 0;
    var i: nat := 0;
    while i < |ids|
      invariant DeleteFrom(DeleteState(store.Snapshot(), deleted), ids, deleteFails, i) == goal
      decreases |ids| - i
    {
      var b := Batch(ids, i);
      var ok := store.DeleteClipBatch(b, deleteFails(i / BatchSize));
      if ok {
        deleted := deleted + |b|;
      }
      i := i + BatchSize;
    }
  }

  // ---------------------------------------------------------------------
  // The script.

  /** How the script ends: nothing to remove, or the number found and the number deleted. */
  datatype CleanRun = NothingToRemove(loaded: nat) | Cleaned(found: nat, deleted: nat)

  /** The rows the script loads from `db`. */
  function LoadedOf(db: Db, countFails: bool, pageFails: nat -> bool): seq<ClipRow> {
    var rows := TranscribedRows(db.clips);
    Loaded(rows, TotalOf(rows, countFails), pageFails, 0)
  }

  /** The store after the script, and its report. */
  function CleanOf(db: Db, countFails: bool, pageFails: nat -> bool, deleteFails: nat -> bool): (CleanRun, Db) {
    var loaded := LoadedOf(db, countFails, pageFails);
    var ids := ShortIds(loaded);
    if ids == [] then (NothingToRemove(|loaded|), db)
    else
      var r := DeleteFrom(DeleteState(db, 0), ids, deleteFails, 0);
      (Cleaned(|ids|, r.deleted), r.db)
  }

  /**
   * `cleanShortTranscripts()`: `offsets` are the page ranges it queries and
   * `pauses` the waits, five seconds before deleting.
   */
  method CleanShortTranscripts(store: Store, countFails: bool, pageFails: nat -> bool, deleteFails: nat -> bool)
    returns (run: CleanRun, offsets: seq<nat>, pauses: seq<nat>)
    modifies store
    ensures (run, store.Snapshot()) == CleanOf(old(store.Snapshot()), countFails, pageFails, deleteFails)
    ensures var rows := TranscribedRows(old(store.clips));
      offsets == OffsetsFrom(TotalOf(rows, countFails), 0)
    ensures pauses == if run.Cleaned? then [5000] else []
  {
    var rows := TranscribedRows(store.clips);
    var total := TotalOf(rows, countFails);
    var clips;
    clips, offsets := LoadRows(rows, total, pageFails);
    var shortClips := Filter(clips, IsShort);
    if |shortClips| == 0 {
      return NothingToRemove(|clips|), offsets, [];
    }
    pauses := [5000];
    var clipIds := ClipIds(shortClips);
    var deleted := DeleteBatches(store, clipIds, deleteFails);
    run := Cleaned(|clipIds|, deleted);
  }

  /** Every loaded row is a clip of the store with a transcript. */
  lemma LoadedFromDb(db: Db, countFails: bool, pageFails: nat -> bool)
    ensures var loaded := LoadedOf(db, countFails, pageFails);
      forall i :: 0 <= i < |loaded| ==> loaded[i] in db.clips && HasTranscript(loaded[i])
  {
    var rows := TranscribedRows(db.clips);
    LoadedFromRows(rows, TotalOf(rows, countFails), pageFails, 0);
  }

  /** In a valid store, a clip whose id is chosen has a transcript and is one that `keep` picks. */
  lemma ChosenArePicked(db: Db, countFails: bool, pageFails: nat -> bool, keep: ClipRow -> bool)
    requires Valid(db)
    ensures forall x :: x in db.clips && x.id in ChosenIds(LoadedOf(db, countFails, pageFails), keep) ==>
      HasTranscript(x) && keep(x)
  {
    var loaded := LoadedOf(db, countFails, pageFails);
    LoadedFromDb(db, countFails, pageFails);
    var picked := Filter(loaded, keep);
    forall x | x in db.clips && x.id in ChosenIds(loaded, keep)
      ensures HasTranscript(x) && keep(x)
    {
      var k :| 0 <= k < |picked| && ClipIds(picked)[k] == x.id;
      SameIdSameClip(db, x, picked[k]);
    }
  }

  /** In a valid store, a clip whose id is chosen for deletion has a transcript, and that transcript is short. */
  lemma ShortIdsAreShort(db: Db, countFails: bool, pageFails: nat -> bool)
    requires Valid(db)
    ensures forall x :: x in db.clips && x.id in ShortIds(LoadedOf(db, countFails, pageFails)) ==>
      HasTranscript(x) && IsShort(x)
  {
    ChosenArePicked(db, countFails, pageFails, IsShort);
  }

  /** In a valid store, two clips with one id are one clip. */
  lemma SameIdSameClip(db: Db, x: ClipRow, y: ClipRow)
    requires Valid(db) && x in db.clips && y in db.clips && x.id == y.id
    ensures x == y
  {
    var a :| 0 <= a < |db.clips| && db.clips[a] == x;
    var b :| 0 <= b < |db.clips| && db.clips[b] == y;
  }

  /**
   * The script only ever deletes clips with a short transcript: a clip
   * without a transcript, or with one of two words or more, survives
   * whatever fails; nothing is added; only clips change; at most the
   * chosen number is reported deleted.
   */
  lemma CleanKeepsLongTranscripts(db: Db, countFails: bool, pageFails: nat -> bool, deleteFails: nat -> bool)
    requires Valid(db)
    ensures var (run, r) := CleanOf(db, countFails, pageFails, deleteFails);
      && r == db.(clips := r.clips)
      && (forall x :: x in r.clips ==> x in db.clips)
      && (forall x :: x in db.clips && !(HasTranscript(x) && IsShort(x)) ==> x in r.clips)
      && (run.Cleaned? ==> run.deleted <= run.found)
  {
    var loaded := LoadedOf(db, countFails, pageFails);
    var ids := ShortIds(loaded);
    if ids != [] {
      DeleteEffects(DeleteState(db, 0), ids, deleteFails, 0);
      ShortIdsAreShort(db, countFails, pageFails);
    }
  }

  /**
   * When the count, every page and every batch succeed, the script deletes
   * exactly the clips with a short transcript and reports each of them.
   */
  lemma CleanRemovesExactlyShort(db: Db)
    requires Valid(db)
    ensures var (run, r) := CleanOf(db, false, _ => false, _ => false);
      && (forall x :: x in db.clips ==> (x in r.clips <==> !(HasTranscript(x) && IsShort(x))))
      && (run.Cleaned? ==> run.deleted == run.found)
  {
    var ids := ShortIds(LoadedOf(db, false, _ => false));
    CleanKeepsLongTranscripts(db, false, _ => false, _ => false);
    AllShortChosen(db);
    if ids != [] {
      DeleteAllListed(DeleteState(db, 0), ids, 0);
    }
  }

  /** When the count and every page succeed, every clip with a transcript that `keep` picks is chosen. */
  lemma AllPickedChosen(db: Db, keep: ClipRow -> bool)
    ensures forall x :: x in db.clips && HasTranscript(x) && keep(x) ==> x.id in ChosenIds(LoadedOf(db, false, _ => false), keep)
  {
    var rows := TranscribedRows(db.clips);
    LoadedAll(rows, 0);
    assert LoadedOf(db, false, _ => false) == rows;
    PickedIds(rows, keep);
    forall x | x in db.clips && HasTranscript(x) && keep(x)
      ensures x in rows
    {
      var k :| 0 <= k < |db.clips| && db.clips[k] == x;
    }
  }

  /** Every row that `keep` picks has its id among the chosen ones. */
  lemma PickedIds(s: seq<ClipRow>, keep: ClipRow -> bool)
    ensures forall x :: x in s && keep(x) ==> x.id in ChosenIds(s, keep)
  {
    var picked := Filter(s, keep);
    forall x | x in s && keep(x)
      ensures x.id in ChosenIds(s, keep)
    {
      var m :| 0 <= m < |s| && s[m] == x;
      var n :| 0 <= n < |picked| && picked[n] == x;
      assert ChosenIds(s, keep)[n] == x.id;
    }
  }

  /** When the count and every page succeed, every clip with a short transcript is chosen. */
  lemma AllShortChosen(db: Db)
    ensures forall x :: x in db.clips && HasTranscript(x) && IsShort(x) ==> x.id in ShortIds(LoadedOf(db, false, _ => false))
  {
    AllPickedChosen(db, IsShort);
  }

  /** With no short transcript among the loaded rows, nothing is deleted. */
  lemma NoShortNoDelete(db: Db, countFails: bool, pageFails: nat -> bool, deleteFails: nat -> bool)
    requires forall i :: 0 <= i < |db.clips| && HasTranscript(db.clips[i]) ==> !IsShort(db.clips[i])
    ensures CleanOf(db, countFails, pageFails, deleteFails) == (NothingToRemove(|LoadedOf(db, countFails, pageFails)|), db)
  {
    var rows := TranscribedRows(db.clips);
    var loaded := LoadedOf(db, countFails, pageFails);
    LoadedFromRows(rows, TotalOf(rows, countFails), pageFails, 0);
    forall i | 0 <= i < |loaded|
      ensures !IsShort(loaded[i])
    {
      assert loaded[i] in rows;
      var k :| 0 <= k < |db.clips| && db.clips[k] == loaded[i];
    }
    FilterNone(loaded, IsShort);
  }

  /** A missing count loads nothing and so deletes nothing. */
  lemma MissingCountDeletesNothing(db: Db, pageFails: nat -> bool, deleteFails: nat -> bool)
    ensures CleanOf(db, true, pageFails, deleteFails) == (NothingToRemove(0), db)
  {
  }
}
