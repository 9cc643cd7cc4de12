/**
 * `scripts/check-transcripts.ts`: two count queries, all clips and the
 * clips whose transcript is null or empty, and their difference as the
 * clips with a transcript. `totalFails` and `withoutFails` say whether
 * each count comes back without a count; a missing count reads as 0 in
 * the difference. The progress percentage is left out.
 */
module TranscriptStatus {
  import opened Wrappers
  import opened Seqs
  import opened Catalog

  datatype TranscriptReport = TranscriptReport(totalClips: Option<nat>, withoutTranscripts: Option<nat>, withTranscripts: int)

  /** `.or('transcript.is.null,transcript.eq.')`. */
  function WithoutCount(clips: seq<ClipRow>): nat {
    |Filter(clips, NeedsTranscript)|
  }

  function ReportOf(db: Db, totalFails: bool, withoutFails: bool): TranscriptReport {
    var total := if totalFails then None else Some(|db.clips|);
    var without := if withoutFails then None else Some(WithoutCount(db.clips));
    TranscriptReport(total, without, total.GetOr(0) - without.GetOr(0))
  }

  /** `checkTranscripts()`: it only reads the store. */
  method CheckTranscripts(store: Store, totalFails: bool, withoutFails: bool) returns (report: TranscriptReport)
    ensures report == ReportOf(store.Snapshot(), totalFails, withoutFails)
  {
    var totalClips := if totalFails then None else Some(|store.clips|);
    var withoutTranscripts := if withoutFails then None else Some(WithoutCount(store.clips));
    var withTranscripts := totalClips.GetOr(0) - withoutTranscripts.GetOr(0);
    report := TranscriptReport(totalClips, withoutTranscripts, withTranscripts);
  }

  /**
   * When both counts come back, the clips with a transcript are counted
   * exactly: the difference is the number of clips whose transcript is
   * neither null nor empty, and the two parts add up to the total.
   */
  lemma CountsAddUp(db: Db)
    ensures var r := ReportOf(db, false, false);
      && r.withTranscripts == |Filter(db.clips, HasTranscript)|
      && r.withTranscripts + r.withoutTranscripts.value == r.totalClips.value
      && 0 <= r.withTranscripts <= |db.clips|
  {
    FilterSplit(db.clips, NeedsTranscript, HasTranscript);
  }

  /** A missing total with a count of untranscribed clips reports a negative or zero number with transcripts. */
  lemma MissingTotalGoesNegative(db: Db)
    ensures var r := ReportOf(db, true, false);
      r.withTranscripts + WithoutCount(db.clips) == 0 && r.withTranscripts <= 0
  {
  }
}
