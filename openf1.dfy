/**
 * The OpenF1 client: the records it returns, the query strings it builds
 * and the rule that turns a non-ok HTTP response into an error. The request
 * itself is not modelled; its outcome is an input wherever a fetch happens.
 */
module OpenF1 {
  import opened Wrappers
  import opened Text
  import opened Params
  import opened Seqs

  datatype TeamRadio = TeamRadio(date: string, driverNumber: int, meetingKey: int, recordingUrl: string, sessionKey: int)

  datatype Session = Session(
    sessionKey: int, meetingKey: int, year: int, location: string, sessionName: string, dateStart: string)

  datatype DriverInfo = DriverInfo(
    driverNumber: int, fullName: string, teamName: string, teamColour: string,
    countryCode: string, headshotUrl: string, nameAcronym: string)

  /** The optional fields of the parameter object of each fetcher; None is `undefined`. */
  datatype TeamRadioParams = TeamRadioParams(
    sessionKey: Option<int>, driverNumber: Option<int>, dateStart: Option<string>, dateEnd: Option<string>)

  datatype SessionParams = SessionParams(
    sessionKey: Option<int>, meetingKey: Option<int>, year: Option<int>, sessionName: Option<string>)

  datatype DriverParams = DriverParams(sessionKey: Option<int>, driverNumber: Option<int>)

  datatype MeetingParams = MeetingParams(meetingKey: Option<int>, year: Option<int>)

  /** The value a truthy number is appended with; 0 and `undefined` are falsy and give nothing. */
  function NumArg(n: Option<int>): (r: Option<string>)
    ensures r.Some? <==> n.Some? && n.value != 0
    ensures r.Some? ==> ParseInt(r.value) == Some(n.value)
  {
    if n.Some? && n.value != 0 then
      ParseIntOfIntToString(n.value);
      Some(IntToString(n.value))
    else None
  }

  /** The value a truthy string is appended with; "" and `undefined` are falsy and give nothing. */
  function StrArg(s: Option<string>): (r: Option<string>)
    ensures r.Some? <==> s.Some? && s.value != ""
    ensures r.Some? ==> r == s
  {
    if s.Some? && s.value != "" then s else None
  }

  function Keys(ps: Pairs): (ks: seq<string>)
    ensures |ks| == |ps| && forall i :: 0 <= i < |ps| ==> ks[i] == ps[i].0
  {
    seq(|ps|, i requires 0 <= i < |ps| => ps[i].0)
  }

  /** The number of arguments among `args` that are present. */
  function Present(args: seq<Option<string>>): nat {
    if args == [] then 0 else (if args[0].Some? then 1 else 0) + Present(args[1..])
  }

  /**
   * The query a fetcher sends: for each name in order, one pair when its
   * argument is present; names with an absent argument do not occur.
   */
  predicate QueryOf(q: Pairs, names: seq<string>, args: seq<Option<string>>)
    requires |names| == |args|
  {
    |q| == Present(args)
    && IsSubseq(Keys(q), names)
    && forall i :: 0 <= i < |names| ==> Get(q, names[i]) == args[i]
  }

  /** Appends `(k, v)` when `v` is present, as each `if (...) queryParams.append(...)` does. */
  method AppendIfPresent(qp: SearchParams, k: string, v: Option<string>)
    modifies qp
    ensures v.Some? ==> qp.pairs == old(qp.pairs) + [(k, v.value)]
    ensures v.None? ==> qp.pairs == old(qp.pairs)
  {
    if v.Some? {
      qp.Append(k, v.value);
    }
  }

  lemma KeysAppend(ps: Pairs, p: Pair)
    ensures Keys(ps + [p]) == Keys(ps) + [p.0]
  {
  }

  lemma GetAppendOther(ps: Pairs, p: Pair, k: string)
    requires p.0 != k
    ensures Get(ps + [p], k) == Get(ps, k)
  {
    KeepOnlyAppend(ps, [p], k);
  }

  lemma GetAppendNew(ps: Pairs, p: Pair)
    requires !HasKey(ps, p.0)
    ensures Get(ps + [p], p.0) == Some(p.1)
  {
    KeepOnlyAppend(ps, [p], p.0);
  }

  lemma PresentAppend(args: seq<Option<string>>, v: Option<string>)
    ensures Present(args + [v]) == Present(args) + (if v.Some? then 1 else 0)
  {
    if args != [] {
      assert (args + [v])[1..] == args[1..] + [v];
      PresentAppend(args[1..], v);
    }
  }

  /**
   * One step of building a query: if the pairs so far are the query for a
   * prefix of the names, appending the next argument when present gives the
   * query for one more name.
   */
  lemma QueryOfStep(q: Pairs, names: seq<string>, args: seq<Option<string>>, k: string, v: Option<string>)
    requires |names| == |args| && QueryOf(q, names, args) && k !in names
    ensures QueryOf(if v.Some? then q + [(k, v.value)] else q, names + [k], args + [v])
  {
    PresentAppend(args, v);
    var q' := if v.Some? then q + [(k, v.value)] else q;
    var names' := names + [k];
    var args' := args + [v];
    assert !HasKey(q, k) by {
      if HasKey(q, k) {
        var i :| 0 <= i < |q| && q[i].0 == k;
        SubseqMember(Keys(q), names, i);
      }
    }
    if v.Some? {
      KeysAppend(q, (k, v.value));
      SubseqAppend(Keys(q), names, k);
      GetAppendNew(q, (k, v.value));
      forall i | 0 <= i < |names'|
        ensures Get(q', names'[i]) == args'[i]
      {
        if i < |names| {
          GetAppendOther(q, (k, v.value), names[i]);
        }
      }
    } else {
      SubseqExtend(Keys(q), names, k);
      assert Get(q, k) == None;
      forall i | 0 <= i < |names'|
        ensures Get(q', names'[i]) == args'[i]
      {
      }
    }
  }

  /** The query over the first `i + 1` names is the one over the first `i` with the next argument appended when present. */
  lemma QueryOfNext(q: Pairs, names: seq<string>, args: seq<Option<string>>, i: nat)
    requires |names| == |args| && NoDups(names) && i < |names|
    requires QueryOf(q, names[..i], args[..i])
    ensures QueryOf(if args[i].Some? then q + [(names[i], args[i].value)] else q, names[..i + 1], args[..i + 1])
  {
    assert names[i] !in names[..i];
    QueryOfStep(q, names[..i], args[..i], names[i], args[i]);
    assert names[..i + 1] == names[..i] + [names[i]];
    assert args[..i + 1] == args[..i] + [args[i]];
  }

  /** Builds the query from the truthy arguments, appending them in the order given. */
  method BuildQuery(names: seq<string>, args: seq<Option<string>>) returns (q: Pairs)
    requires |names| == |args| && NoDups(names)
    ensures QueryOf(q, names, args)
  {
    var qp := new SearchParams([]);
    var i := 0;
    while i < |names|
      invariant 0 <= i <= |names|
      invariant QueryOf(qp.pairs, names[..i], args[..i])
    {
      QueryOfNext(qp.pairs, names, args, i);
      AppendIfPresent(qp, names[i], args[i]);
      i := i + 1;
    }
    assert names[..i] == names && args[..i] == args;
    q := qp.pairs;
  }

  /** `fetchTeamRadio`'s query: `session_key`, `driver_number`, `date>=`, `date<=`, each only when truthy. */
  method TeamRadioQuery(p: TeamRadioParams) returns (q: Pairs)
    ensures QueryOf(q, ["session_key", "driver_number", "date>=", "date<="],
                       [NumArg(p.sessionKey), NumArg(p.driverNumber), StrArg(p.dateStart), StrArg(p.dateEnd)])
  {
    q := BuildQuery(["session_key", "driver_number", "date>=", "date<="],
                    [NumArg(p.sessionKey), NumArg(p.driverNumber), StrArg(p.dateStart), StrArg(p.dateEnd)]);
  }

  /** `fetchSessions`' query; with no parameter object at all the query is empty. */
  method SessionsQuery(p: Option<SessionParams>) returns (q: Pairs)
    ensures p.None? ==> q == []
    ensures p.Some? ==> QueryOf(q, ["session_key", "meeting_key", "year", "session_name"],
                                   [NumArg(p.value.sessionKey), NumArg(p.value.meetingKey), NumArg(p.value.year), StrArg(p.value.sessionName)])
  {
    var v := p.GetOr(SessionParams(None, None, None, None));
    q := BuildQuery(["session_key", "meeting_key", "year", "session_name"],
                    [NumArg(v.sessionKey), NumArg(v.meetingKey), NumArg(v.year), StrArg(v.sessionName)]);
    if p.None? {
      QueryOfNone(q, ["session_key", "meeting_key", "year", "session_name"], [NumArg(v.sessionKey), NumArg(v.meetingKey), NumArg(v.year), StrArg(v.sessionName)]);
    }
  }

  method DriversQuery(p: Option<DriverParams>) returns (q: Pairs)
    ensures p.None? ==> q == []
    ensures p.Some? ==> QueryOf(q, ["session_key", "driver_number"], [NumArg(p.value.sessionKey), NumArg(p.value.driverNumber)])
  {
    var v := p.GetOr(DriverParams(None, None));
    q := BuildQuery(["session_key", "driver_number"], [NumArg(v.sessionKey), NumArg(v.driverNumber)]);
    if p.None? {
      QueryOfNone(q, ["session_key", "driver_number"], [NumArg(v.sessionKey), NumArg(v.driverNumber)]);
    }
  }

  method MeetingsQuery(p: Option<MeetingParams>) returns (q: Pairs)
    ensures p.None? ==> q == []
    ensures p.Some? ==> QueryOf(q, ["meeting_key", "year"], [NumArg(p.value.meetingKey), NumArg(p.value.year)])
  {
    var v := p.GetOr(MeetingParams(None, None));
    q := BuildQuery(["meeting_key", "year"], [NumArg(v.meetingKey), NumArg(v.year)]);
    if p.None? {
      QueryOfNone(q, ["meeting_key", "year"], [NumArg(v.meetingKey), NumArg(v.year)]);
    }
  }

  /** A query whose arguments are all absent is empty. */
  lemma QueryOfNone(q: Pairs, names: seq<string>, args: seq<Option<string>>)
    requires |names| == |args| && QueryOf(q, names, args)
    requires forall i :: 0 <= i < |args| ==> args[i].None?
    ensures q == []
  {
    PresentNone(args);
  }

  /** The present arguments among four. */
  lemma PresentFour(a: Option<string>, b: Option<string>, c: Option<string>, d: Option<string>)
    ensures Present([a, b, c, d]) == (if a.Some? then 1 else 0) + (if b.Some? then 1 else 0) + (if c.Some? then 1 else 0) + (if d.Some? then 1 else 0)
  {
    assert [d][1..] == [];
    assert Present([d]) == (if d.Some? then 1 else 0);
    assert [c, d][1..] == [d];
    assert Present([c, d]) == (if c.Some? then 1 else 0) + Present([d]);
    assert [b, c, d][1..] == [c, d];
    assert Present([b, c, d]) == (if b.Some? then 1 else 0) + Present([c, d]);
    assert [a, b, c, d][1..] == [b, c, d];
  }

  lemma PresentNone(args: seq<Option<string>>)
    requires forall i :: 0 <= i < |args| ==> args[i].None?
    ensures Present(args) == 0
  {
    if args != [] {
      PresentNone(args[1..]);
    }
  }

  /** A query with exactly one present argument is that one pair. */
  lemma QueryOfSingle(q: Pairs, names: seq<string>, args: seq<Option<string>>, k: nat)
    requires |names| == |args| && QueryOf(q, names, args)
    requires k < |args| && args[k].Some? && Present(args) == 1
    ensures q == [(names[k], args[k].value)]
  {
    assert Get(q, names[k]) == args[k];
    assert q == [q[0]];
    assert KeepOnly(q, names[k]) == KeepOnly(q[1..], names[k]) + [] || q[0].0 == names[k];
  }

  /** An HTTP response as the client sees it. */
  datatype Response<T> = Response(status: int, statusText: string, body: T)

  /** `response.ok`: a status in 200-299. */
  predicate Ok<T>(r: Response<T>) {
    200 <= r.status <= 299
  }

  /** The body of an ok response, or the error every fetcher throws otherwise. */
  function CheckResponse<T>(r: Response<T>): (res: Result<T, string>)
    ensures res.Success? <==> Ok(r)
    ensures res.Success? ==> res.value == r.body
    ensures res.Failure? ==> res.error == "OpenF1 API error: " + IntToString(r.status) + " " + r.statusText
  {
    if Ok(r) then Success(r.body)
    else Failure("OpenF1 API error: " + IntToString(r.status) + " " + r.statusText)
  }
}
