/**
 * The command-line radio sync (`syncRadioMessages`): for each OpenF1
 * session, upsert its drivers, upsert its race row under the bare session
 * name, then fetch its team radio and insert the messages not yet stored.
 * A failed race upsert skips the session; any thrown error ends the run.
 */
module SyncScript {
  import opened Wrappers
  import opened Text
  import opened Params
  import opened OpenF1
  import opened Catalog
  import opened SyncCommon

  /** A JavaScript value passed as `year`: undefined, NaN or a number. */
  datatype JsYear = Undefined | NaN | Num(n: int)

  predicate Truthy(y: JsYear) {
    y.Num? && y.n != 0
  }

  /** `year ? { year } : undefined`: the year the sessions are filtered by, if any. */
  function YearFilter(y: JsYear): (r: Option<int>)
    ensures r.Some? <==> Truthy(y)
    ensures r.Some? ==> r.value == y.n
  {
    if Truthy(y) then Some(y.n) else None
  }

  /** The state of a run after some sessions. `fetched` lists the sessions whose team radio was requested. */
  datatype RunState = RunState(
    db: Db, total: nat, added: nat, skipped: nat, orphans: nat,
    fetched: seq<int>, failure: Option<string>)

  /** One session of the loop. */
  function ScriptSession(st: RunState, s: Session, f: SessionFeed): RunState {
    if st.failure.Some? then st
    else match f.drivers
      case Failure(e) => st.(failure := Some(e))
      case Success(ds) =>
        var db1 := st.db.(drivers := DriversAfter(st.db.drivers, ds, f.driverFaults, |ds|));
        if f.raceFault then st.(db := db1)
        else
          var db2 := db1.(races := db1.races[s.sessionKey := RaceRowOf(s, s.sessionName)]);
          var fetched := st.fetched + [s.sessionKey];
          match f.radio
          case Failure(e) => st.(db := db2, fetched := fetched, failure := Some(e))
          case Success(ms) =>
            var r := MessagesAfter(MsgState(db2, 0, 0, 0), s, ms, f.clipFaults, |ms|);
            RunState(r.db, st.total + |ms|, st.added + r.added, st.skipped + r.skipped,
                     st.orphans + r.orphans, fetched, None)
  }

  /** The state after the first `i` sessions. */
  function ScriptAfter(db: Db, ss: seq<Session>, feed: nat -> SessionFeed, i: nat): RunState
    requires i <= |ss|
  {
    if i == 0 then RunState(db, 0, 0, 0, 0, [], None)
    else ScriptSession(ScriptAfter(db, ss, feed, i - 1), ss[i - 1], feed(i - 1))
  }

  /** The sessions, among the first `i`, whose race upsert succeeds. */
  function RaceOkKeys(ss: seq<Session>, feed: nat -> SessionFeed, i: nat): seq<int>
    requires i <= |ss|
  {
    if i == 0 then []
    else RaceOkKeys(ss, feed, i - 1) + (if feed(i - 1).raceFault then [] else [ss[i - 1].sessionKey])
  }

  /** The team-radio messages of those sessions. */
  function RaceOkMessages(ss: seq<Session>, feed: nat -> SessionFeed, i: nat): nat
    requires i <= |ss| && FeedsOk(feed, i)
  {
    if i == 0 then 0
    else RaceOkMessages(ss, feed, i - 1) + (if feed(i - 1).raceFault then 0 else |feed(i - 1).radio.value|)
  }

  /**
   * With every fetch succeeding, team radio is requested for exactly the
   * sessions whose race upsert succeeded, and `totalRadioMessages` counts
   * exactly their messages: a failed race upsert skips the fetch and the count.
   */
  lemma {:induction false} ScriptFetchesOnlyRaceOk(db: Db, ss: seq<Session>, feed: nat -> SessionFeed, i: nat)
    requires i <= |ss| && FeedsOk(feed, i)
    ensures ScriptAfter(db, ss, feed, i).failure.None?
    ensures ScriptAfter(db, ss, feed, i).fetched == RaceOkKeys(ss, feed, i)
    ensures ScriptAfter(db, ss, feed, i).total == RaceOkMessages(ss, feed, i)
  {
    if i > 0 {
      ScriptFetchesOnlyRaceOk(db, ss, feed, i - 1);
    }
  }

  /** Counters: every counted new clip and every skip is one fetched message. */
  lemma {:induction false} ScriptCounters(db: Db, ss: seq<Session>, feed: nat -> SessionFeed, i: nat)
    requires i <= |ss|
    ensures var r := ScriptAfter(db, ss, feed, i);
      r.added + r.skipped <= r.total && r.added <= r.total && r.orphans <= r.skipped
  {
    if i > 0 {
      ScriptCounters(db, ss, feed, i - 1);
      var p := ScriptAfter(db, ss, feed, i - 1);
      var f := feed(i - 1);
      var s := ss[i - 1];
      if p.failure.None? && f.drivers.Success? && !f.raceFault && f.radio.Success? {
        var ds := f.drivers.value;
        var db1 := p.db.(drivers := DriversAfter(p.db.drivers, ds, f.driverFaults, |ds|));
        var db2 := db1.(races := db1.races[s.sessionKey := RaceRowOf(s, s.sessionName)]);
        var ms := f.radio.value;
        MessagesEffect(MsgState(db2, 0, 0, 0), s, ms, f.clipFaults, |ms|);
        OrphansAtMostSkips(MsgState(db2, 0, 0, 0), s, ms, f.clipFaults, |ms|);
      }
    }
  }

  lemma {:induction false} OrphansAtMostSkips(st: MsgState, s: Session, ms: seq<TeamRadio>, faults: set<nat>, i: nat)
    requires i <= |ms| && st.orphans <= st.skipped
    ensures MessagesAfter(st, s, ms, faults, i).orphans <= MessagesAfter(st, s, ms, faults, i).skipped
  {
    if i > 0 {
      OrphansAtMostSkips(st, s, ms, faults, i - 1);
    }
  }

  /** A run keeps "no two clips share an audio URL". */
  lemma {:induction false} ScriptKeepsUrlsUnique(db: Db, ss: seq<Session>, feed: nat -> SessionFeed, i: nat)
    requires i <= |ss| && UniqueUrls(db.clips)
    ensures UniqueUrls(ScriptAfter(db, ss, feed, i).db.clips)
  {
    if i > 0 {
      ScriptKeepsUrlsUnique(db, ss, feed, i - 1);
      var p := ScriptAfter(db, ss, feed, i - 1);
      var f := feed(i - 1);
      var s := ss[i - 1];
      if p.failure.None? && f.drivers.Success? && !f.raceFault && f.radio.Success? {
        var ds := f.drivers.value;
        var db1 := p.db.(drivers := DriversAfter(p.db.drivers, ds, f.driverFaults, |ds|));
        var db2 := db1.(races := db1.races[s.sessionKey := RaceRowOf(s, s.sessionName)]);
        MessagesKeepUrlsUnique(MsgState(db2, 0, 0, 0), s, f.radio.value, f.clipFaults, |f.radio.value|);
      }
    }
  }

  /** A run changes drivers, races and clips only, never removes a driver, and never removes a clip. */
  lemma {:induction false} ScriptOnlyGrows(db: Db, ss: seq<Session>, feed: nat -> SessionFeed, i: nat)
    requires i <= |ss|
    ensures var r := ScriptAfter(db, ss, feed, i).db;
      && r.tags == db.tags && r.categories == db.categories && r.nextCategoryId == db.nextCategoryId
      && db.drivers.Keys <= r.drivers.Keys
      && |db.clips| <= |r.clips| && r.clips[..|db.clips|] == db.clips
  {
    if i > 0 {
      ScriptOnlyGrows(db, ss, feed, i - 1);
      var p := ScriptAfter(db, ss, feed, i - 1);
      var f := feed(i - 1);
      var s := ss[i - 1];
      if p.failure.None? && f.drivers.Success? {
        var ds := f.drivers.value;
        DriversGrow(p.db.drivers, ds, f.driverFaults, |ds|);
        var db1 := p.db.(drivers := DriversAfter(p.db.drivers, ds, f.driverFaults, |ds|));
        var db2 := db1.(races := db1.races[s.sessionKey := RaceRowOf(s, s.sessionName)]);
        if !f.raceFault && f.radio.Success? {
          var ms := f.radio.value;
          MessagesEffect(MsgState(db2, 0, 0, 0), s, ms, f.clipFaults, |ms|);
          var r := MessagesAfter(MsgState(db2, 0, 0, 0), s, ms, f.clipFaults, |ms|);
          assert r.db.clips[..|db.clips|] == r.db.clips[..|p.db.clips|][..|db.clips|];
        }
      }
    }
  }

  // ---------------------------------------------------------------------
  // Re-running on the same upstream data.

  /**
   * Every message of every session whose race upsert succeeds is by a known
   * driver and has its URL stored.
   */
  predicate Absorbed(db: Db, ss: seq<Session>, feed: nat -> SessionFeed, n: nat)
    requires n <= |ss|
  {
    forall k :: 0 <= k < n && !feed(k).raceFault && feed(k).radio.Success? ==>
      forall j :: 0 <= j < |feed(k).radio.value| ==>
        feed(k).radio.value[j].driverNumber in db.drivers && CountUrl(db.clips, feed(k).radio.value[j].recordingUrl) >= 1
  }

  /** No clip insert fails. */
  predicate NoClipFaults(feed: nat -> SessionFeed, n: nat) {
    forall k :: 0 <= k < n ==> feed(k).clipFaults == {}
  }

  lemma {:induction false} OrphansGrow(db: Db, ss: seq<Session>, feed: nat -> SessionFeed, i: nat, j: nat)
    requires i <= j <= |ss|
    ensures ScriptAfter(db, ss, feed, i).orphans <= ScriptAfter(db, ss, feed, j).orphans
    decreases j - i
  {
    if i < j {
      OrphansGrow(db, ss, feed, i, j - 1);
    }
  }

  /** The facts about one session of a run that a re-run relies on. */
  lemma SessionGrowth(p: RunState, s: Session, f: SessionFeed)
    requires p.failure.None? && f.drivers.Success? && f.radio.Success? && f.clipFaults == {}
    ensures var r := ScriptSession(p, s, f);
      && p.db.drivers.Keys <= r.db.drivers.Keys
      && (forall url :: CountUrl(r.db.clips, url) >= CountUrl(p.db.clips, url))
      && (!f.raceFault && r.orphans == p.orphans ==>
            forall j :: 0 <= j < |f.radio.value| ==>
              f.radio.value[j].driverNumber in r.db.drivers && CountUrl(r.db.clips, f.radio.value[j].recordingUrl) >= 1)
  {
    var ds := f.drivers.value;
    DriversGrow(p.db.drivers, ds, f.driverFaults, |ds|);
    var db1 := p.db.(drivers := DriversAfter(p.db.drivers, ds, f.driverFaults, |ds|));
    var db2 := db1.(races := db1.races[s.sessionKey := RaceRowOf(s, s.sessionName)]);
    if !f.raceFault {
      var ms := f.radio.value;
      var st := MsgState(db2, 0, 0, 0);
      MessagesEffect(st, s, ms, {}, |ms|);
      MessagesKeepDrivers(st, s, ms, {}, |ms|);
      forall url
        ensures CountUrl(ScriptSession(p, s, f).db.clips, url) >= CountUrl(p.db.clips, url)
      {
        MessagesKeepUrls(st, s, ms, {}, |ms|, url);
      }
      if ScriptSession(p, s, f).orphans == p.orphans {
        OrphanCountZero(ms, db2.drivers, |ms|);
        MessagesStoreAll(st, s, ms, |ms|);
      }
    }
  }

  /** What is absorbed stays absorbed when drivers and stored URLs only grow. */
  lemma AbsorbedGrows(db: Db, db': Db, ss: seq<Session>, feed: nat -> SessionFeed, n: nat)
    requires n <= |ss| && Absorbed(db, ss, feed, n)
    requires db.drivers.Keys <= db'.drivers.Keys
    requires forall url :: CountUrl(db'.clips, url) >= CountUrl(db.clips, url)
    ensures Absorbed(db', ss, feed, n)
  {
  }

  lemma AbsorbedExtend(db: Db, ss: seq<Session>, feed: nat -> SessionFeed, n: nat)
    requires n < |ss| && Absorbed(db, ss, feed, n)
    requires !feed(n).raceFault && feed(n).radio.Success? ==>
      forall j :: 0 <= j < |feed(n).radio.value| ==>
        feed(n).radio.value[j].driverNumber in db.drivers && CountUrl(db.clips, feed(n).radio.value[j].recordingUrl) >= 1
    ensures Absorbed(db, ss, feed, n + 1)
  {
  }

  /** A session that meets no orphan keeps what is absorbed and absorbs its own messages. */
  lemma SessionAbsorbs(p: RunState, ss: seq<Session>, feed: nat -> SessionFeed, n: nat)
    requires n < |ss| && p.failure.None? && FeedsOk(feed, n + 1) && NoClipFaults(feed, n + 1)
    requires Absorbed(p.db, ss, feed, n)
    requires ScriptSession(p, ss[n], feed(n)).orphans == p.orphans
    ensures Absorbed(ScriptSession(p, ss[n], feed(n)).db, ss, feed, n + 1)
  {
    var r := ScriptSession(p, ss[n], feed(n));
    assert feed(n).drivers.Success? && feed(n).radio.Success? && feed(n).clipFaults == {};
    SessionGrowth(p, ss[n], feed(n));
    AbsorbedGrows(p.db, r.db, ss, feed, n);
    AbsorbedExtend(r.db, ss, feed, n);
  }

  /** A first run that fetches everything, fails no insert and meets no orphan stores every message it sees. */
  lemma {:induction false} FirstRunAbsorbs(db: Db, ss: seq<Session>, feed: nat -> SessionFeed, i: nat)
    requires i <= |ss| && FeedsOk(feed, i) && NoClipFaults(feed, i)
    requires ScriptAfter(db, ss, feed, i).orphans == 0
    ensures Absorbed(ScriptAfter(db, ss, feed, i).db, ss, feed, i)
  {
    if i > 0 {
      OrphansGrow(db, ss, feed, i - 1, i);
      FirstRunAbsorbs(db, ss, feed, i - 1);
      ScriptFetchesOnlyRaceOk(db, ss, feed, i - 1);
      var p := ScriptAfter(db, ss, feed, i - 1);
      assert ScriptAfter(db, ss, feed, i) == ScriptSession(p, ss[i - 1], feed(i - 1));
      SessionAbsorbs(p, ss, feed, i - 1);
    }
  }

  /** A run over sessions whose messages are all absorbed inserts nothing and counts nothing as new. */
  lemma {:induction false} AbsorbedRunAddsNothing(db: Db, ss: seq<Session>, feed: nat -> SessionFeed, i: nat)
    requires i <= |ss| && FeedsOk(feed, i) && Absorbed(db, ss, feed, i) && UniqueUrls(db.clips)
    ensures ScriptAfter(db, ss, feed, i).added == 0
    ensures ScriptAfter(db, ss, feed, i).db.clips == db.clips
    ensures db.drivers.Keys <= ScriptAfter(db, ss, feed, i).db.drivers.Keys
  {
    if i > 0 {
      assert Absorbed(db, ss, feed, i - 1);
      AbsorbedRunAddsNothing(db, ss, feed, i - 1);
      ScriptFetchesOnlyRaceOk(db, ss, feed, i - 1);
      var p := ScriptAfter(db, ss, feed, i - 1);
      assert ScriptAfter(db, ss, feed, i) == ScriptSession(p, ss[i - 1], feed(i - 1));
      SessionAddsNothing(p, db, ss, feed, i - 1);
    }
  }

  /** A session whose messages are all absorbed inserts nothing and keeps every driver. */
  lemma SessionAddsNothing(p: RunState, db: Db, ss: seq<Session>, feed: nat -> SessionFeed, n: nat)
    requires n < |ss| && p.failure.None? && FeedsOk(feed, n + 1) && Absorbed(db, ss, feed, n + 1) && UniqueUrls(db.clips)
    requires p.added == 0 && p.db.clips == db.clips && db.drivers.Keys <= p.db.drivers.Keys
    ensures var r := ScriptSession(p, ss[n], feed(n));
      r.added == 0 && r.db.clips == db.clips && db.drivers.Keys <= r.db.drivers.Keys
  {
    var f := feed(n);
    var s := ss[n];
    var ds := f.drivers.value;
    DriversGrow(p.db.drivers, ds, f.driverFaults, |ds|);
    var db1 := p.db.(drivers := DriversAfter(p.db.drivers, ds, f.driverFaults, |ds|));
    var db2 := db1.(races := db1.races[s.sessionKey := RaceRowOf(s, s.sessionName)]);
    if !f.raceFault {
      var ms := f.radio.value;
      forall k | 0 <= k < |ms|
        ensures ms[k].driverNumber in db2.drivers && CountUrl(db2.clips, ms[k].recordingUrl) == 1
      {
        UniqueUrlsCount(db.clips, ms[k].recordingUrl);
      }
      MessagesAbsorbed(MsgState(db2, 0, 0, 0), s, ms, f.clipFaults, |ms|);
    }
  }

  /**
   * Re-running the sync on the same upstream data and the same store replies
   * adds no clip, provided the first run fetched everything, had no failed
   * clip insert and met no orphan message, and the store started with unique
   * audio URLs.
   */
  lemma ResyncAddsNothing(db: Db, ss: seq<Session>, feed: nat -> SessionFeed)
    requires FeedsOk(feed, |ss|) && NoClipFaults(feed, |ss|) && UniqueUrls(db.clips)
    requires ScriptAfter(db, ss, feed, |ss|).orphans == 0
    ensures var db1 := ScriptAfter(db, ss, feed, |ss|).db;
      ScriptAfter(db1, ss, feed, |ss|).added == 0 && ScriptAfter(db1, ss, feed, |ss|).db.clips == db1.clips
  {
    var db1 := ScriptAfter(db, ss, feed, |ss|).db;
    FirstRunAbsorbs(db, ss, feed, |ss|);
    ScriptKeepsUrlsUnique(db, ss, feed, |ss|);
    AbsorbedRunAddsNothing(db1, ss, feed, |ss|);
  }

  // ---------------------------------------------------------------------
  // The run.

  /** One more session takes one more step of the loop. */
  lemma ScriptNext(db: Db, ss: seq<Session>, feed: nat -> SessionFeed, i: nat)
    requires i < |ss|
    ensures ScriptAfter(db, ss, feed, i + 1) == ScriptSession(ScriptAfter(db, ss, feed, i), ss[i], feed(i))
  {
  }

  lemma {:induction false} FailureSticky(db: Db, ss: seq<Session>, feed: nat -> SessionFeed, i: nat, j: nat)
    requires i <= j <= |ss| && ScriptAfter(db, ss, feed, i).failure.Some?
    ensures ScriptAfter(db, ss, feed, j) == ScriptAfter(db, ss, feed, i)
    decreases j - i
  {
    if i < j {
      FailureSticky(db, ss, feed, i, j - 1);
    }
  }

  /** How a run of the script ends: no sessions, a summary, or the exit after an error. */
  datatype SyncResult =
    | NoSessions                                       // "No sessions found. Exiting."
    | Finished(sessionsProcessed: nat, total: nat, added: nat, skipped: nat)
    | Exited(error: string)                            // the catch block's exit(1)

  /** The body of the session loop, from a state without failure. */
  method ProcessSession(store: Store, s: Session, f: SessionFeed, total: nat, added: nat, skipped: nat, ghost orphans: nat, ghost fetched: seq<int>)
    returns (total': nat, added': nat, skipped': nat, ghost orphans': nat, ghost fetched': seq<int>, failure: Option<string>)
    modifies store
    ensures ScriptSession(RunState(old(store.Snapshot()), total, added, skipped, orphans, fetched, None), s, f)
      == RunState(store.Snapshot(), total', added', skipped', orphans', fetched', failure)
  {
    total', added', skipped', orphans', fetched', failure := total, added, skipped, orphans, fetched, None;
    if f.drivers.Failure? {
      failure := Some(f.drivers.error);
      return;
    }
    UpsertDrivers(store, f.drivers.value, f.driverFaults);
    var raceOk := store.UpsertRace(RaceRowOf(s, s.sessionName), f.raceFault);
    if !raceOk {
      return;
    }
    fetched' := fetched + [s.sessionKey];
    if f.radio.Failure? {
      failure := Some(f.radio.error);
      return;
    }
    var ms := f.radio.value;
    total' := total + |ms|;
    var a, k, o := SyncMessages(store, s, ms, f.clipFaults);
    added', skipped', orphans' := added + a, skipped + k, orphans + o;
  }

  /** `fetchSessions(year ? { year } : undefined)`: the query asks for that year, or for every session. */
  method YearQuery(year: JsYear) returns (query: Pairs)
    ensures YearFilter(year).None? ==> query == []
    ensures YearFilter(year).Some? ==> query == [("year", IntToString(YearFilter(year).value))]
  {
    var params := if Truthy(year) then Some(SessionParams(None, None, Some(year.n), None)) else None;
    query := SessionsQuery(params);
    if Truthy(year) {
      var v := NumArg(Some(year.n));
      var args := [None, None, v, None];
      var none: seq<Option<string>> := [None];
      assert none[1..] == [] && Present(none) == 0;
      assert ([v] + none)[1..] == none && Present([v] + none) == 1;
      assert ([None] + [v] + none)[1..] == [v] + none && Present([None] + [v] + none) == 1;
      assert args == [None] + ([None] + [v] + none) && args[1..] == [None] + [v] + none;
      assert Present(args) == 1;
      QueryOfSingle(query, ["session_key", "meeting_key", "year", "session_name"], args, 2);
    }
  }

  method SyncRadioMessages(store: Store, year: JsYear, sessions: Result<seq<Session>, string>, feed: nat -> SessionFeed)
    returns (query: Pairs, result: SyncResult)
    modifies store
    ensures YearFilter(year).None? ==> query == []
    ensures YearFilter(year).Some? ==> query == [("year", IntToString(YearFilter(year).value))]
    ensures sessions.Failure? ==> result == Exited(sessions.error) && store.Snapshot() == old(store.Snapshot())
    ensures sessions == Success([]) ==> result == NoSessions && store.Snapshot() == old(store.Snapshot())
    ensures sessions.Success? && sessions.value != [] ==>
      var r := ScriptAfter(old(store.Snapshot()), sessions.value, feed, |sessions.value|);
      && store.Snapshot() == r.db
      && result == if r.failure.Some? then Exited(r.failure.value) else Finished(|sessions.value|, r.total, r.added, r.skipped)
  {
    query := YearQuery(year);
    if sessions.Failure? {
      return query, Exited(sessions.error);
    }
    var ss := sessions.value;
    if |ss| == 0 {
      return query, NoSessions;
    }
    ghost var db0 := store.Snapshot();
    var total: nat, added: nat, skipped: nat := 0, 0, 0;
    ghost var orphans: nat, fetched: seq<int> := 0, [];
    var failure: Option<string> := None;
    var i := 0;
    while i < |ss| && failure.None?
      invariant 0 <= i <= |ss|
      invariant ScriptAfter(db0, ss, feed, i) == RunState(store.Snapshot(), total, added, skipped, orphans, fetched, failure)
    {
      ScriptNext(db0, ss, feed, i);
      total, added, skipped, orphans, fetched, failure := ProcessSession(store, ss[i], feed(i), total, added, skipped, orphans, fetched);
      i := i + 1;
    }
    if failure.Some? {
      FailureSticky(db0, ss, feed, i, |ss|);
      result := Exited(failure.value);
    } else {
      result := Finished(|ss|, total, added, skipped);
    }
  }

  // ---------------------------------------------------------------------
  // The year argument.

  /** `args[0] ? parseInt(args[0]) : undefined`. */
  function YearArg(args: seq<string>): JsYear {
    if |args| == 0 || args[0] == "" then Undefined
    else match ParseInt(args[0])
      case None => NaN
      case Some(n) => Num(n)
  }

  /**
   * The check as written: exit when `year && (isNaN(year) || year < 2023 ||
   * year > currentYear)`. NaN and 0 are falsy, so they are never rejected.
   */
  predicate RejectsYearAsWritten(y: JsYear, currentYear: int) {
    Truthy(y) && (y.NaN? || y.n < 2023 || y.n > currentYear)
  }

  /** As written, a non-numeric argument or "0" passes the check and the sync then runs unfiltered. */
  lemma NonNumericYearSyncsEverything(arg: string, currentYear: int)
    requires arg != "" && (ParseInt(arg).None? || ParseInt(arg) == Some(0))
    ensures !RejectsYearAsWritten(YearArg([arg]), currentYear)
    ensures YearFilter(YearArg([arg])).None?
  {
  }

  lemma NonNumericYearExample(currentYear: int)
    ensures YearArg(["abc"]) == NaN && !RejectsYearAsWritten(NaN, currentYear) && YearFilter(NaN).None?
  {
    assert TrimStart("abc") == "abc";
    assert DigitRun("abc") == 0;
  }

  /**
   * The evidently intended check: a given argument must be a number in
   * [2023, currentYear]; None means the script exits. The current year is
   * an input, since the clock is not modelled.
   */
  function ScriptYear(args: seq<string>, currentYear: int): (r: Option<JsYear>)
    ensures r.Some? && r.value.Num? ==> 2023 <= r.value.n <= currentYear
    ensures r.Some? ==> r.value.Undefined? || r.value.Num?
    ensures r.Some? && r.value.Undefined? ==> |args| == 0 || args[0] == ""
    ensures r.Some? && r.value.Num? ==> YearFilter(r.value) == Some(r.value.n)
  {
    match YearArg(args)
    case Undefined => Some(Undefined)
    case NaN => None
    case Num(n) => if 2023 <= n <= currentYear then Some(Num(n)) else None
  }

  /** The corrected check agrees with the written one on every argument the written one rejects or that is a number. */
  lemma ScriptYearRefinesCheck(args: seq<string>, currentYear: int)
    ensures RejectsYearAsWritten(YearArg(args), currentYear) ==> ScriptYear(args, currentYear).None?
    ensures YearArg(args).Num? && YearArg(args).n != 0 ==>
      (ScriptYear(args, currentYear).None? <==> RejectsYearAsWritten(YearArg(args), currentYear))
  {
  }

  /** The script's entry point with the corrected year check. */
  method SyncFromArgs(store: Store, args: seq<string>, currentYear: int, sessions: Result<seq<Session>, string>, feed: nat -> SessionFeed)
    returns (query: Pairs, result: Option<SyncResult>)
    modifies store
    ensures ScriptYear(args, currentYear).None? ==> query == [] && result.None? && store.Snapshot() == old(store.Snapshot())
    ensures ScriptYear(args, currentYear).Some? ==>
      var y := ScriptYear(args, currentYear).value;
      && result.Some?
      && (YearFilter(y).None? ==> query == [])
      && (YearFilter(y).Some? ==> query == [("year", IntToString(YearFilter(y).value))])
      && (sessions.Failure? ==> result.value == Exited(sessions.error) && store.Snapshot() == old(store.Snapshot()))
      && (sessions == Success([]) ==> result.value == NoSessions && store.Snapshot() == old(store.Snapshot()))
      && (sessions.Success? && sessions.value != [] ==>
            var r := ScriptAfter(old(store.Snapshot()), sessions.value, feed, |sessions.value|);
            && store.Snapshot() == r.db
            && result.value == if r.failure.Some? then Exited(r.failure.value) else Finished(|sessions.value|, r.total, r.added, r.skipped))
  {
    var y := ScriptYear(args, currentYear);
    if y.None? {
      return [], None;
    }
    var r;
    query, r := SyncRadioMessages(store, y.value, sessions, feed);
    result := Some(r);
  }
}
