/**
 * The `POST /api/sync-radio` route. It differs from the command-line sync
 * in three ways: the sessions are chosen by `session_key` before `year`;
 * each session's team radio is fetched and counted right after its
 * drivers, before any upsert; and the race row is named
 * `<location> - <session_name>`. Orphan and stored messages are skipped
 * without a counter. Any thrown error becomes a 500 response.
 */
module SyncRoute {
  import opened Wrappers
  import opened Text
  import opened Params
  import opened OpenF1
  import opened Catalog
  import opened SyncCommon

  /** The request body fields; None is a missing field. */
  datatype SyncBody = SyncBody(sessionKey: Option<int>, year: Option<int>)

  predicate TruthyNum(n: Option<int>) {
    n.Some? && n.value != 0
  }

  /** `session_key ? { session_key } : year ? { year } : undefined`. */
  function SessionFilter(b: SyncBody): (p: Option<SessionParams>)
    ensures TruthyNum(b.sessionKey) ==> p == Some(SessionParams(b.sessionKey, None, None, None))
    ensures !TruthyNum(b.sessionKey) && TruthyNum(b.year) ==> p == Some(SessionParams(None, None, b.year, None))
    ensures !TruthyNum(b.sessionKey) && !TruthyNum(b.year) ==> p.None?
  {
    if TruthyNum(b.sessionKey) then Some(SessionParams(b.sessionKey, None, None, None))
    else if TruthyNum(b.year) then Some(SessionParams(None, None, b.year, None))
    else None
  }

  /** The composite race name: `<location> - <session_name>`. */
  function RaceName(s: Session): string {
    s.location + " - " + s.sessionName
  }

  datatype RouteState = RouteState(db: Db, total: nat, added: nat, failure: Option<string>)

  function RouteSession(st: RouteState, s: Session, f: SessionFeed): RouteState {
    if st.failure.Some? then st
    else if f.drivers.Failure? then st.(failure := Some(f.drivers.error))
    else if f.radio.Failure? then st.(failure := Some(f.radio.error))
    else
      var ds, ms := f.drivers.value, f.radio.value;
      var db1 := st.db.(drivers := DriversAfter(st.db.drivers, ds, f.driverFaults, |ds|));
      if f.raceFault then RouteState(db1, st.total + |ms|, st.added, None)
      else
        var db2 := db1.(races := db1.races[s.sessionKey := RaceRowOf(s, RaceName(s))]);
        var r := MessagesAfter(MsgState(db2, 0, 0, 0), s, ms, f.clipFaults, |ms|);
        RouteState(r.db, st.total + |ms|, st.added + r.added, None)
  }

  function RouteAfter(db: Db, ss: seq<Session>, feed: nat -> SessionFeed, i: nat): RouteState
    requires i <= |ss|
  {
    if i == 0 then RouteState(db, 0, 0, None)
    else RouteSession(RouteAfter(db, ss, feed, i - 1), ss[i - 1], feed(i - 1))
  }

  /** Every team-radio message of the first `i` sessions. */
  function AllMessages(feed: nat -> SessionFeed, i: nat): nat
    requires FeedsOk(feed, i)
  {
    if i == 0 then 0 else AllMessages(feed, i - 1) + |feed(i - 1).radio.value|
  }

  /**
   * `total_radio_messages` counts the messages of every session, including
   * those whose race upsert failed and whose messages were never stored.
   */
  lemma {:induction false} RouteCountsEverySession(db: Db, ss: seq<Session>, feed: nat -> SessionFeed, i: nat)
    requires i <= |ss| && FeedsOk(feed, i)
    ensures RouteAfter(db, ss, feed, i).failure.None?
    ensures RouteAfter(db, ss, feed, i).total == AllMessages(feed, i)
  {
    if i > 0 {
      RouteCountsEverySession(db, ss, feed, i - 1);
    }
  }

  /** `new_radio_messages` never exceeds `total_radio_messages`. */
  lemma {:induction false} RouteNewAtMostTotal(db: Db, ss: seq<Session>, feed: nat -> SessionFeed, i: nat)
    requires i <= |ss|
    ensures RouteAfter(db, ss, feed, i).added <= RouteAfter(db, ss, feed, i).total
  {
    if i > 0 {
      RouteNewAtMostTotal(db, ss, feed, i - 1);
      var p := RouteAfter(db, ss, feed, i - 1);
      var f := feed(i - 1);
      var s := ss[i - 1];
      if p.failure.None? && f.drivers.Success? && f.radio.Success? && !f.raceFault {
        var ds, ms := f.drivers.value, f.radio.value;
        var db1 := p.db.(drivers := DriversAfter(p.db.drivers, ds, f.driverFaults, |ds|));
        var db2 := db1.(races := db1.races[s.sessionKey := RaceRowOf(s, RaceName(s))]);
        MessagesEffect(MsgState(db2, 0, 0, 0), s, ms, f.clipFaults, |ms|);
      }
    }
  }

  /** The route keeps "no two clips share an audio URL". */
  lemma {:induction false} RouteKeepsUrlsUnique(db: Db, ss: seq<Session>, feed: nat -> SessionFeed, i: nat)
    requires i <= |ss| && UniqueUrls(db.clips)
    ensures UniqueUrls(RouteAfter(db, ss, feed, i).db.clips)
  {
    if i > 0 {
      RouteKeepsUrlsUnique(db, ss, feed, i - 1);
      var p := RouteAfter(db, ss, feed, i - 1);
      var f := feed(i - 1);
      var s := ss[i - 1];
      if p.failure.None? && f.drivers.Success? && f.radio.Success? && !f.raceFault {
        var ds, ms := f.drivers.value, f.radio.value;
        var db1 := p.db.(drivers := DriversAfter(p.db.drivers, ds, f.driverFaults, |ds|));
        var db2 := db1.(races := db1.races[s.sessionKey := RaceRowOf(s, RaceName(s))]);
        MessagesKeepUrlsUnique(MsgState(db2, 0, 0, 0), s, ms, f.clipFaults, |ms|);
      }
    }
  }

  /** A session whose race upsert succeeds leaves its race row under the composite name, keyed by session key. */
  lemma RouteRaceRow(st: RouteState, s: Session, f: SessionFeed)
    requires st.failure.None? && f.drivers.Success? && f.radio.Success? && !f.raceFault
    ensures var r := RouteSession(st, s, f);
      s.sessionKey in r.db.races && r.db.races[s.sessionKey] == RaceRowOf(s, RaceName(s))
      && r.db.races.Keys == st.db.races.Keys + {s.sessionKey}
  {
    var ds, ms := f.drivers.value, f.radio.value;
    var db1 := st.db.(drivers := DriversAfter(st.db.drivers, ds, f.driverFaults, |ds|));
    var db2 := db1.(races := db1.races[s.sessionKey := RaceRowOf(s, RaceName(s))]);
    MessagesEffect(MsgState(db2, 0, 0, 0), s, ms, f.clipFaults, |ms|);
  }

  lemma {:induction false} RouteFailureSticky(db: Db, ss: seq<Session>, feed: nat -> SessionFeed, i: nat, j: nat)
    requires i <= j <= |ss| && RouteAfter(db, ss, feed, i).failure.Some?
    ensures RouteAfter(db, ss, feed, j) == RouteAfter(db, ss, feed, i)
    decreases j - i
  {
    if i < j {
      RouteFailureSticky(db, ss, feed, i, j - 1);
    }
  }

  /** The JSON response of the route and its HTTP status. */
  datatype SyncResponse =
    | NotFound
    | Synced(sessionsProcessed: nat, total: nat, added: nat)
    | ServerError(error: string)
  {
    function Status(): int {
      match this
      case NotFound => 404
      case Synced(_, _, _) => 200
      case ServerError(_) => 500
    }

    predicate Success() {
      this.Synced?
    }

    function Message(): string {
      match this
      case NotFound => "No sessions found"
      case Synced(_, total, added) =>
        "Successfully synced " + NatToString(added) + " new radio messages out of " + NatToString(total) + " total"
      case ServerError(e) => e
    }
  }

  /** `success` is true exactly for a 200 response. */
  lemma SuccessIffOk(r: SyncResponse)
    ensures r.Success() <==> r.Status() == 200
    ensures !r.Success() ==> r.Status() == 404 || r.Status() == 500
  {
  }

  /** The sessions query: by session key when one is given, else by year, else unfiltered. */
  method RouteQuery(b: SyncBody) returns (query: Pairs)
    ensures TruthyNum(b.sessionKey) ==> query == [("session_key", IntToString(b.sessionKey.value))]
    ensures !TruthyNum(b.sessionKey) && TruthyNum(b.year) ==> query == [("year", IntToString(b.year.value))]
    ensures !TruthyNum(b.sessionKey) && !TruthyNum(b.year) ==> query == []
  {
    query := SessionsQuery(SessionFilter(b));
    if TruthyNum(b.sessionKey) {
      OneArgQuery(query, NumArg(b.sessionKey), None, 0);
    } else if TruthyNum(b.year) {
      OneArgQuery(query, None, NumArg(b.year), 2);
    }
  }

  /** A sessions query with just a session key or just a year is that one pair. */
  lemma OneArgQuery(q: Pairs, key: Option<string>, year: Option<string>, k: nat)
    requires (k == 0 && key.Some? && year.None?) || (k == 2 && key.None? && year.Some?)
    requires QueryOf(q, ["session_key", "meeting_key", "year", "session_name"], [key, None, year, None])
    ensures q == [(if k == 0 then "session_key" else "year", (if k == 0 then key else year).value)]
  {
    PresentFour(key, None, year, None);
    QueryOfSingle(q, ["session_key", "meeting_key", "year", "session_name"], [key, None, year, None], k);
  }

  method RouteSessionStep(store: Store, s: Session, f: SessionFeed, total: nat, added: nat)
    returns (total': nat, added': nat, failure: Option<string>)
    modifies store
    ensures RouteSession(RouteState(old(store.Snapshot()), total, added, None), s, f)
      == RouteState(store.Snapshot(), total', added', failure)
  {
    total', added', failure := total, added, None;
    if f.drivers.Failure? {
      failure := Some(f.drivers.error);
      return;
    }
    if f.radio.Failure? {
      failure := Some(f.radio.error);
      return;
    }
    var ms := f.radio.value;
    total' := total + |ms|;
    UpsertDrivers(store, f.drivers.value, f.driverFaults);
    var raceOk := store.UpsertRace(RaceRowOf(s, RaceName(s)), f.raceFault);
    if !raceOk {
      return;
    }
    var a, k, o := SyncMessages(store, s, ms, f.clipFaults);
    added' := added + a;
  }

  /**
   * `POST`: `body` is the parsed request body or the error parsing it threw;
   * `sessions` is the outcome of the sessions fetch.
   */
  method Post(store: Store, body: Result<SyncBody, string>, sessions: Result<seq<Session>, string>, feed: nat -> SessionFeed)
    returns (query: Pairs, response: SyncResponse)
    modifies store
    ensures body.Failure? ==> response == ServerError(body.error) && store.Snapshot() == old(store.Snapshot())
    ensures body.Success? && sessions.Failure? ==> response == ServerError(sessions.error) && store.Snapshot() == old(store.Snapshot())
    ensures body.Success? && sessions == Success([]) ==> response == NotFound && store.Snapshot() == old(store.Snapshot())
    ensures body.Success? && sessions.Success? && sessions.value != [] ==>
      var r := RouteAfter(old(store.Snapshot()), sessions.value, feed, |sessions.value|);
      && store.Snapshot() == r.db
      && response == if r.failure.Some? then ServerError(r.failure.value) else Synced(|sessions.value|, r.total, r.added)
  {
    query := [];
    if body.Failure? {
      return query, ServerError(body.error);
    }
    query := RouteQuery(body.value);
    if sessions.Failure? {
      return query, ServerError(sessions.error);
    }
    var ss := sessions.value;
    if |ss| == 0 {
      return query, NotFound;
    }
    ghost var db0 := store.Snapshot();
    var total: nat, added: nat := 0, 0;
    var failure: Option<string> := None;
    var i := 0;
    while i < |ss| && failure.None?
      invariant 0 <= i <= |ss|
      invariant RouteAfter(db0, ss, feed, i) == RouteState(store.Snapshot(), total, added, failure)
    {
      total, added, failure := RouteSessionStep(store, ss[i], feed(i), total, added);
      i := i + 1;
    }
    if failure.Some? {
      RouteFailureSticky(db0, ss, feed, i, |ss|);
      response := ServerError(failure.value);
    } else {
      response := Synced(|ss|, total, added);
    }
  }
}
