/**
 * The steps the radio sync script and the sync route share: the driver
 * upsert loop, and the loop over one session's team-radio messages that
 * skips orphan and already-stored messages and inserts the others as clips.
 * Both are written as a function of the state after the first `i` items,
 * which the loop methods follow step by step.
 */
module SyncCommon {
  import opened Wrappers
  import opened Text
  import opened OpenF1
  import opened Catalog

  /** The driver row an OpenF1 driver is upserted as. */
  function DriverRowOf(d: DriverInfo): DriverRow {
    DriverRow(d.driverNumber, d.fullName, d.teamName, d.teamColour, d.countryCode, d.headshotUrl, d.nameAcronym)
  }

  /** The race row a session is upserted as, under the given display name. */
  function RaceRowOf(s: Session, name: string): RaceRow {
    RaceRow(name, s.location, s.year, s.dateStart, s.sessionKey, s.meetingKey)
  }

  /** The title of a synced clip: `<session_name> - Driver <n>`. */
  function ClipTitle(sessionName: string, driverNumber: int): string {
    sessionName + " - Driver " + IntToString(driverNumber)
  }

  /** The clip a message is inserted as: no duration and an empty transcript, since OpenF1 gives neither. */
  function NewClipOf(s: Session, m: TeamRadio): NewClip {
    NewClip(ClipTitle(s.sessionName, m.driverNumber), m.recordingUrl, m.driverNumber, s.sessionKey, m.date, 0, Some(""))
  }

  /**
   * What OpenF1 and the store answer while one session is processed: the
   * driver and team-radio fetches (a failure is the error they throw), the
   * positions of the driver upserts and clip inserts that fail, and whether
   * the race upsert fails.
   */
  datatype SessionFeed = SessionFeed(
    drivers: Result<seq<DriverInfo>, string>, driverFaults: set<nat>,
    raceFault: bool,
    radio: Result<seq<TeamRadio>, string>, clipFaults: set<nat>)

  /** Every fetch of the first `n` sessions succeeds. */
  predicate FeedsOk(feed: nat -> SessionFeed, n: nat) {
    forall k :: 0 <= k < n ==> feed(k).drivers.Success? && feed(k).radio.Success?
  }

  // ---------------------------------------------------------------------
  // Driver upserts.

  /** The drivers table after upserting `ds[..i]`; the upserts listed in `faults` fail. */
  function DriversAfter(m: map<int, DriverRow>, ds: seq<DriverInfo>, faults: set<nat>, i: nat): map<int, DriverRow>
    requires i <= |ds|
  {
    if i == 0 then m
    else
      var prev := DriversAfter(m, ds, faults, i - 1);
      if i - 1 in faults then prev else prev[ds[i - 1].driverNumber := DriverRowOf(ds[i - 1])]
  }

  /** The last successful upsert among `ds[..i]` for driver number `n`. */
  function LastWrite(ds: seq<DriverInfo>, faults: set<nat>, n: int, i: nat): (r: Option<nat>)
    requires i <= |ds|
    ensures r.Some? ==> r.value < i && r.value !in faults && ds[r.value].driverNumber == n
    ensures r.Some? ==> forall k :: r.value < k < i && k !in faults ==> ds[k].driverNumber != n
    ensures r.None? ==> forall k :: 0 <= k < i && k !in faults ==> ds[k].driverNumber != n
  {
    if i == 0 then None
    else if i - 1 !in faults && ds[i - 1].driverNumber == n then Some(i - 1)
    else LastWrite(ds, faults, n, i - 1)
  }

  /**
   * After the driver loop each number has one row: the fields of the last
   * successful upsert for it, or the row it had before when every upsert
   * for it failed or there was none.
   */
  lemma {:induction false} DriversLastWins(m: map<int, DriverRow>, ds: seq<DriverInfo>, faults: set<nat>, i: nat, n: int)
    requires i <= |ds|
    ensures LastWrite(ds, faults, n, i).Some? ==>
      n in DriversAfter(m, ds, faults, i) && DriversAfter(m, ds, faults, i)[n] == DriverRowOf(ds[LastWrite(ds, faults, n, i).value])
    ensures LastWrite(ds, faults, n, i).None? ==>
      (n in DriversAfter(m, ds, faults, i) <==> n in m) && (n in m ==> DriversAfter(m, ds, faults, i)[n] == m[n])
  {
    if i > 0 {
      DriversLastWins(m, ds, faults, i - 1, n);
    }
  }

  /** Upserts never remove a driver. */
  lemma {:induction false} DriversGrow(m: map<int, DriverRow>, ds: seq<DriverInfo>, faults: set<nat>, i: nat)
    requires i <= |ds|
    ensures m.Keys <= DriversAfter(m, ds, faults, i).Keys
  {
    if i > 0 {
      DriversGrow(m, ds, faults, i - 1);
    }
  }

  method UpsertDrivers(store: Store, ds: seq<DriverInfo>, faults: set<nat>)
    modifies store
    ensures store.Snapshot() == old(store.Snapshot()).(drivers := DriversAfter(old(store.drivers), ds, faults, |ds|))
  {
    ghost var m := store.drivers;
    var i := 0;
    while i < |ds|
      invariant 0 <= i <= |ds|
      invariant store.Snapshot() == old(store.Snapshot()).(drivers := DriversAfter(m, ds, faults, i))
    {
      var ok := store.UpsertDriver(DriverRowOf(ds[i]), i in faults);
      i := i + 1;
    }
  }

  // ---------------------------------------------------------------------
  // The message loop of one session.

  /** The store and the counters while the messages of a session are processed. */
  datatype MsgState = MsgState(db: Db, added: nat, skipped: nat, orphans: nat)

  /**
   * One message: an unknown driver number is an orphan and is skipped; a
   * URL that `.single()` finds (exactly one stored clip) is skipped; any
   * other message is inserted, and counted when the insert succeeds.
   */
  function MessageStep(st: MsgState, s: Session, m: TeamRadio, fault: bool): MsgState {
    if m.driverNumber !in st.db.drivers then st.(skipped := st.skipped + 1, orphans := st.orphans + 1)
    else if CountUrl(st.db.clips, m.recordingUrl) == 1 then st.(skipped := st.skipped + 1)
    else if fault then st
    else st.(db := AddClip(st.db, NewClipOf(s, m)), added := st.added + 1)
  }

  function MessagesAfter(st: MsgState, s: Session, ms: seq<TeamRadio>, faults: set<nat>, i: nat): MsgState
    requires i <= |ms|
  {
    if i == 0 then st else MessageStep(MessagesAfter(st, s, ms, faults, i - 1), s, ms[i - 1], i - 1 in faults)
  }

  /** The number of messages among `ms[..i]` whose driver number is not in `drivers`. */
  function OrphanCount(ms: seq<TeamRadio>, drivers: map<int, DriverRow>, i: nat): nat
    requires i <= |ms|
  {
    if i == 0 then 0 else OrphanCount(ms, drivers, i - 1) + (if ms[i - 1].driverNumber in drivers then 0 else 1)
  }

  lemma OrphanCountZero(ms: seq<TeamRadio>, drivers: map<int, DriverRow>, i: nat)
    requires i <= |ms| && OrphanCount(ms, drivers, i) == 0
    ensures forall k :: 0 <= k < i ==> ms[k].driverNumber in drivers
  {
    if i > 0 {
      OrphanCountZero(ms, drivers, i - 1);
    }
  }

  /** Some message of `ms` has this recording URL. */
  predicate FromMessages(url: string, ms: seq<TeamRadio>) {
    exists k :: 0 <= k < |ms| && ms[k].recordingUrl == url
  }

  /** A clip the sync inserted for session `s`. */
  predicate SyncedClip(c: ClipRow, s: Session, ms: seq<TeamRadio>, drivers: map<int, DriverRow>) {
    c.title == ClipTitle(s.sessionName, c.driverNumber)
    && c.duration == 0 && c.transcript == Some("")
    && c.raceKey == s.sessionKey && c.driverNumber in drivers
    && FromMessages(c.audioUrl, ms)
  }

  /**
   * What the message loop does to the store and the counters: only clips
   * are added, at the end, one per counted insert, each built from a message
   * of a known driver; one in `skipped` per orphan or stored URL, and one in
   * `orphans` per unknown driver number.
   */
  lemma {:induction false} MessagesEffect(st: MsgState, s: Session, ms: seq<TeamRadio>, faults: set<nat>, i: nat)
    requires i <= |ms|
    ensures var r := MessagesAfter(st, s, ms, faults, i);
      && r.db == st.db.(clips := r.db.clips, nextClipId := r.db.nextClipId)
      && r.added >= st.added && r.skipped >= st.skipped
      && (r.added - st.added) + (r.skipped - st.skipped) <= i
      && r.orphans == st.orphans + OrphanCount(ms, st.db.drivers, i)
      && |r.db.clips| == |st.db.clips| + (r.added - st.added)
      && r.db.nextClipId == st.db.nextClipId + (r.added - st.added)
      && r.db.clips[..|st.db.clips|] == st.db.clips
      && forall j :: |st.db.clips| <= j < |r.db.clips| ==> SyncedClip(r.db.clips[j], s, ms, st.db.drivers)
  {
    if i > 0 {
      MessagesEffect(st, s, ms, faults, i - 1);
      var p := MessagesAfter(st, s, ms, faults, i - 1);
      var m := ms[i - 1];
      if m.driverNumber in p.db.drivers && CountUrl(p.db.clips, m.recordingUrl) != 1 && i - 1 !in faults {
        var r := MessagesAfter(st, s, ms, faults, i);
        assert r.db.clips == p.db.clips + [r.db.clips[|p.db.clips|]];
        assert r.db.clips[..|st.db.clips|] == p.db.clips[..|st.db.clips|];
        assert FromMessages(m.recordingUrl, ms);
      }
    }
  }

  /** The loop never gives two clips the same audio URL: an insert happens only when `.single()` finds none. */
  lemma {:induction false} MessagesKeepUrlsUnique(st: MsgState, s: Session, ms: seq<TeamRadio>, faults: set<nat>, i: nat)
    requires i <= |ms| && UniqueUrls(st.db.clips)
    ensures UniqueUrls(MessagesAfter(st, s, ms, faults, i).db.clips)
  {
    if i > 0 {
      MessagesKeepUrlsUnique(st, s, ms, faults, i - 1);
      var p := MessagesAfter(st, s, ms, faults, i - 1);
      var m := ms[i - 1];
      if m.driverNumber in p.db.drivers && CountUrl(p.db.clips, m.recordingUrl) != 1 && i - 1 !in faults {
        UniqueUrlsCount(p.db.clips, m.recordingUrl);
        CountUrlZero(p.db.clips, m.recordingUrl);
        var c := p.db.clips + [ClipRow(p.db.nextClipId, ClipTitle(s.sessionName, m.driverNumber), m.recordingUrl, m.driverNumber, s.sessionKey, m.date, 0, Some(""))];
        assert MessagesAfter(st, s, ms, faults, i).db.clips == c;
      }
    }
  }

  /** One message never removes a stored URL. */
  lemma StepKeepsUrl(p: MsgState, s: Session, m: TeamRadio, fault: bool, url: string)
    ensures CountUrl(MessageStep(p, s, m, fault).db.clips, url) >= CountUrl(p.db.clips, url)
  {
    if m.driverNumber in p.db.drivers && CountUrl(p.db.clips, m.recordingUrl) != 1 && !fault {
      CountUrlAppend(p.db.clips, [ClipRow(p.db.nextClipId, ClipTitle(s.sessionName, m.driverNumber), m.recordingUrl, m.driverNumber, s.sessionKey, m.date, 0, Some(""))], url);
    }
  }

  /** A message of a known driver whose insert does not fail is stored after its step. */
  lemma StepStores(p: MsgState, s: Session, m: TeamRadio)
    requires m.driverNumber in p.db.drivers
    ensures CountUrl(MessageStep(p, s, m, false).db.clips, m.recordingUrl) >= 1
  {
    if CountUrl(p.db.clips, m.recordingUrl) != 1 {
      var c := ClipRow(p.db.nextClipId, ClipTitle(s.sessionName, m.driverNumber), m.recordingUrl, m.driverNumber, s.sessionKey, m.date, 0, Some(""));
      CountUrlAppend(p.db.clips, [c], m.recordingUrl);
    }
  }

  /** Clips are only added, so a URL once stored stays stored. */
  lemma {:induction false} MessagesKeepUrls(st: MsgState, s: Session, ms: seq<TeamRadio>, faults: set<nat>, i: nat, url: string)
    requires i <= |ms|
    ensures CountUrl(MessagesAfter(st, s, ms, faults, i).db.clips, url) >= CountUrl(st.db.clips, url)
  {
    if i > 0 {
      MessagesKeepUrls(st, s, ms, faults, i - 1, url);
      StepKeepsUrl(MessagesAfter(st, s, ms, faults, i - 1), s, ms[i - 1], i - 1 in faults, url);
    }
  }

  /** The driver table does not change while messages are processed. */
  lemma {:induction false} MessagesKeepDrivers(st: MsgState, s: Session, ms: seq<TeamRadio>, faults: set<nat>, i: nat)
    requires i <= |ms|
    ensures MessagesAfter(st, s, ms, faults, i).db.drivers == st.db.drivers
  {
    if i > 0 {
      MessagesKeepDrivers(st, s, ms, faults, i - 1);
    }
  }

  /**
   * With no failed insert, every message of a known driver is stored after
   * the loop: its URL was there already or was inserted.
   */
  lemma {:induction false} MessagesStoreAll(st: MsgState, s: Session, ms: seq<TeamRadio>, i: nat)
    requires i <= |ms|
    ensures forall k :: 0 <= k < i && ms[k].driverNumber in st.db.drivers ==>
      CountUrl(MessagesAfter(st, s, ms, {}, i).db.clips, ms[k].recordingUrl) >= 1
  {
    if i > 0 {
      MessagesStoreAll(st, s, ms, i - 1);
      MessagesKeepDrivers(st, s, ms, {}, i - 1);
      var p := MessagesAfter(st, s, ms, {}, i - 1);
      var q := MessageStep(p, s, ms[i - 1], false);
      assert MessagesAfter(st, s, ms, {}, i) == q;
      forall k | 0 <= k < i && ms[k].driverNumber in st.db.drivers
        ensures CountUrl(q.db.clips, ms[k].recordingUrl) >= 1
      {
        if k == i - 1 {
          StepStores(p, s, ms[k]);
        } else {
          StepKeepsUrl(p, s, ms[i - 1], false, ms[k].recordingUrl);
        }
      }
    }
  }

  /**
   * A second pass over messages that are all stored, by known drivers,
   * writes nothing and counts nothing as new: each one is skipped.
   */
  lemma {:induction false} MessagesAbsorbed(st: MsgState, s: Session, ms: seq<TeamRadio>, faults: set<nat>, i: nat)
    requires i <= |ms|
    requires forall k :: 0 <= k < i ==> ms[k].driverNumber in st.db.drivers && CountUrl(st.db.clips, ms[k].recordingUrl) == 1
    ensures MessagesAfter(st, s, ms, faults, i) == st.(skipped := st.skipped + i)
  {
    if i > 0 {
      MessagesAbsorbed(st, s, ms, faults, i - 1);
      var p := MessagesAfter(st, s, ms, faults, i - 1);
      AbsorbedStep(p, s, ms[i - 1], i - 1 in faults);
    }
  }

  /** A stored message of a known driver is skipped and changes nothing else. */
  lemma AbsorbedStep(p: MsgState, s: Session, m: TeamRadio, fault: bool)
    requires m.driverNumber in p.db.drivers && CountUrl(p.db.clips, m.recordingUrl) == 1
    ensures MessageStep(p, s, m, fault) == p.(skipped := p.skipped + 1)
  {
  }

  method SyncMessages(store: Store, s: Session, ms: seq<TeamRadio>, faults: set<nat>) returns (added: nat, skipped: nat, orphans: nat)
    modifies store
    ensures var r := MessagesAfter(MsgState(old(store.Snapshot()), 0, 0, 0), s, ms, faults, |ms|);
      store.Snapshot() == r.db && added == r.added && skipped == r.skipped && orphans == r.orphans
  {
    ghost var st0 := MsgState(store.Snapshot(), 0, 0, 0);
    added, skipped, orphans := 0, 0, 0;
    var i := 0;
    while i < |ms|
      invariant 0 <= i <= |ms|
      invariant MessagesAfter(st0, s, ms, faults, i) == MsgState(store.Snapshot(), added, skipped, orphans)
    {
      var m := ms[i];
      ghost var next := MessageStep(MsgState(store.Snapshot(), added, skipped, orphans), s, m, i in faults);
      if m.driverNumber !in store.drivers {
        skipped, orphans := skipped + 1, orphans + 1;
      } else if CountUrl(store.clips, m.recordingUrl) == 1 {
        skipped := skipped + 1;
      } else {
        var ok := store.InsertClip(NewClipOf(s, m), i in faults);
        if ok {
          added := added + 1;
        }
      }
      assert MsgState(store.Snapshot(), added, skipped, orphans) == next;
      i := i + 1;
    }
  }
}
