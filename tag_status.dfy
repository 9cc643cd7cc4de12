/**
 * `scripts/check-tag-status.ts`: counts the clips, reads every tag row's
 * clip id in pages of 1000, and reports the tagged clips (distinct clip
 * ids among the rows read), the untagged ones (the clip count minus that),
 * and the batches of 500 still to run. `countFails` says whether the clip
 * count comes back without a count, `pageFails(k)` whether page k of the
 * tag rows comes back without data. The progress percentage is left out.
 */
module TagStatus {
  import opened Wrappers
  import opened Seqs
  import opened Catalog
  import opened Paging

  function TagClipIds(tags: seq<TagRow>): (ids: seq<ClipId>)
    ensures |ids| == |tags| && forall i :: 0 <= i < |tags| ==> ids[i] == tags[i].clipId
  {
    seq(|tags|, i requires 0 <= i < |tags| => tags[i].clipId)
  }

  /**
   * The tag rows the `while (true)` loop collects. Its offset only grows
   * after a full page, so it stays at most the row count, and a page at the
   * row count is empty: bounding the offset by the row count plus one
   * changes nothing.
   */
  function TagRowsRead(tags: seq<TagRow>, pageFails: nat -> bool): seq<TagRow> {
    Collected(tags, |tags| + 1, pageFails, 0)
  }

  /** The paging loop over the tag rows. */
  method ReadTagRows(tags: seq<TagRow>, pageFails: nat -> bool) returns (all: seq<TagRow>)
    ensures all == TagRowsRead(tags, pageFails)
  {
    all := FetchUntilShort(tags, pageFails);
  }

  /** The loop reads a prefix of the tag rows, and all of them when no page fails. */
  lemma TagRowsReadPrefix(tags: seq<TagRow>, pageFails: nat -> bool)
    ensures TagRowsRead(tags, pageFails) <= tags
    ensures PagesOk(pageFails, |tags| + 1) ==> TagRowsRead(tags, pageFails) == tags
  {
    var all := TagRowsRead(tags, pageFails);
    CollectedContinues(tags, |tags| + 1, pageFails, 0);
    assert tags[..0] + all == all;
    if PagesOk(pageFails, |tags| + 1) {
      CollectedEnough(tags, |tags| + 1, pageFails, 0);
    }
  }

  /** `Math.ceil(untaggedCount / 500)`, shown only when some clip is untagged. */
  function EstimatedBatches(untagged: int): (r: Option<nat>)
    ensures r.Some? <==> untagged > 0
    ensures r.Some? ==> (r.value - 1) * 500 < untagged <= r.value * 500
  {
    if untagged > 0 then Some((untagged + 499) / 500) else None
  }

  datatype TagReport = TagReport(totalClips: Option<nat>, tagged: nat, untagged: int, batches: Option<nat>)

  /** The report over `db`; a missing clip count reads as 0. */
  function ReportOf(db: Db, countFails: bool, pageFails: nat -> bool): TagReport {
    var total := if countFails then None else Some(|db.clips|);
    var tagged := |Dedup(TagClipIds(TagRowsRead(db.tags, pageFails)))|;
    var untagged := total.GetOr(0) - tagged;
    TagReport(total, tagged, untagged, EstimatedBatches(untagged))
  }

  /** `checkTagStatus()`: it only reads the store. */
  method CheckTagStatus(store: Store, countFails: bool, pageFails: nat -> bool) returns (report: TagReport)
    ensures report == ReportOf(store.Snapshot(), countFails, pageFails)
  {
    var totalClips := if countFails then None else Some(|store.clips|);
    var rows := ReadTagRows(store.tags, pageFails);
    var taggedCount := |Dedup(TagClipIds(rows))|;
    var untaggedCount := totalClips.GetOr(0) - taggedCount;
    report := TagReport(totalClips, taggedCount, untaggedCount, EstimatedBatches(untaggedCount));
  }

  /** The clip ids that have at least one tag row. */
  function TaggedIds(db: Db): set<ClipId> {
    Elements(TagClipIds(db.tags))
  }

  /**
   * The tagged count is the number of distinct clips among the tag rows
   * read: all tagged clips when no page fails, never more otherwise.
   */
  lemma TaggedCountsDistinctClips(db: Db, countFails: bool, pageFails: nat -> bool)
    ensures var r := ReportOf(db, countFails, pageFails);
      && r.tagged == |Elements(TagClipIds(TagRowsRead(db.tags, pageFails)))|
      && r.tagged <= |TaggedIds(db)|
      && (PagesOk(pageFails, |db.tags| + 1) ==> r.tagged == |TaggedIds(db)|)
  {
    var read := TagRowsRead(db.tags, pageFails);
    TagRowsReadPrefix(db.tags, pageFails);
    DedupSize(TagClipIds(read));
    PrefixIds(read, db.tags);
    SubsetSize(Elements(TagClipIds(read)), TaggedIds(db));
  }

  /** The clip ids of a prefix of the rows are among those of all rows. */
  lemma PrefixIds(read: seq<TagRow>, tags: seq<TagRow>)
    requires read <= tags
    ensures Elements(TagClipIds(read)) <= Elements(TagClipIds(tags))
  {
    forall id | id in Elements(TagClipIds(read))
      ensures id in Elements(TagClipIds(tags))
    {
      var i :| 0 <= i < |read| && TagClipIds(read)[i] == id;
      assert read[i] == tags[i];
    }
  }

  /** Every tag row names a clip of the store. */
  predicate TagsNameClips(db: Db) {
    forall i :: 0 <= i < |db.tags| ==> db.tags[i].clipId in ClipIds(db.clips)
  }

  /** The clip ids without a tag row. */
  function UntaggedIds(db: Db): set<ClipId> {
    Elements(ClipIds(db.clips)) - TaggedIds(db)
  }

  /**
   * In a valid store whose tag rows all name clips, with the count and
   * every page read, the untagged count is the number of clips without a
   * tag row, and the batch estimate covers them in runs of 500.
   */
  lemma UntaggedCountsUntaggedClips(db: Db)
    requires Valid(db) && TagsNameClips(db)
    ensures var r := ReportOf(db, false, _ => false);
      && r.tagged + |UntaggedIds(db)| == |db.clips|
      && r.untagged == |UntaggedIds(db)|
      && (r.batches.Some? <==> UntaggedIds(db) != {})
  {
    TaggedCountsDistinctClips(db, false, _ => false);
    var c := Elements(ClipIds(db.clips));
    var t := TaggedIds(db);
    assert NoDups(ClipIds(db.clips));
    NoDupsSize(ClipIds(db.clips));
    assert t <= c by {
      forall id | id in t
        ensures id in c
      {
        var i :| 0 <= i < |db.tags| && TagClipIds(db.tags)[i] == id;
      }
    }
    assert c * t == t && t - c == {} && c + t == c;
  }

  /** A tag row for a clip that is not in the store makes the untagged count negative. */
  lemma OrphanTagNegative(db: Db, tag: TagRow)
    requires db.clips == [] && db.tags == [tag]
    ensures ReportOf(db, false, _ => false).untagged == -1
    ensures ReportOf(db, false, _ => false).batches.None?
  {
    TaggedCountsDistinctClips(db, false, _ => false);
    assert TagClipIds(db.tags) == [tag.clipId];
    assert TaggedIds(db) == {tag.clipId};
  }
}
