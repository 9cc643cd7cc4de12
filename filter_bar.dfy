/**
 * `components/filter-bar.tsx`: the season choices and the races of the
 * selected season (pure, memoised values), and the handlers that copy the
 * current query parameters, change the copy in place and push it to the
 * router. The router push is the returned pair list.
 */
module FilterBar {
  import opened Wrappers
  import opened Seqs
  import opened Text
  import opened Params
  import opened Views

  // ---------------------------------------------------------------------
  // `seasons`: the distinct seasons, newest first.

  predicate StrictlyDescending(s: seq<int>) {
    forall i, j :: 0 <= i < j < |s| ==> s[i] > s[j]
  }

  /** Puts `x` into a list sorted newest first. */
  function InsertDescending(x: int, s: seq<int>): (r: seq<int>)
    ensures multiset(r) == multiset(s) + multiset{x}
    ensures forall k :: 0 <= k < |r| ==> r[k] == x || r[k] in s
    decreases |s|
  {
    if s == [] then [x]
    else if x > s[0] then [x] + s
    else
      assert s == [s[0]] + s[1..];
      [s[0]] + InsertDescending(x, s[1..])
  }

  lemma {:induction false} InsertDescendingSorted(x: int, s: seq<int>)
    requires StrictlyDescending(s) && x !in s
    ensures StrictlyDescending(InsertDescending(x, s))
    decreases |s|
  {
    if s != [] && x < s[0] {
      var rest := InsertDescending(x, s[1..]);
      InsertDescendingSorted(x, s[1..]);
      forall k | 0 <= k < |rest|
        ensures s[0] > rest[k]
      {
        if rest[k] != x {
          var m :| 0 <= m < |s[1..]| && s[1..][m] == rest[k];
          assert s[m + 1] == rest[k];
        }
      }
    }
  }

  /** `xs.sort((a, b) => b - a)`. */
  function SortDescending(s: seq<int>): (r: seq<int>)
    ensures multiset(r) == multiset(s)
    decreases |s|
  {
    if s == [] then []
    else
      assert s == [s[0]] + s[1..];
      InsertDescending(s[0], SortDescending(s[1..]))
  }

  /** Sorting distinct numbers gives a strictly descending list. */
  lemma {:induction false} SortDescendingSorted(s: seq<int>)
    requires NoDups(s)
    ensures StrictlyDescending(SortDescending(s))
    decreases |s|
  {
    if s != [] {
      assert NoDups(s[1..]);
      SortDescendingSorted(s[1..]);
      var rest := SortDescending(s[1..]);
      assert s == [s[0]] + s[1..];
      assert s[0] !in multiset(s[1..]);
      assert s[0] !in rest by {
        assert multiset(rest) == multiset(s[1..]);
      }
      InsertDescendingSorted(s[0], rest);
    }
  }

  /** The head of a non-empty strictly descending list is its largest element. */
  lemma HeadIsLargest(a: seq<int>, x: int)
    requires StrictlyDescending(a) && x in multiset(a)
    ensures x <= a[0]
  {
    var i :| 0 <= i < |a| && a[i] == x;
  }

  /** Equal sorted lists share their head, and their tails have the same elements. */
  lemma SameHead(a: seq<int>, b: seq<int>)
    requires StrictlyDescending(a) && StrictlyDescending(b) && multiset(a) == multiset(b) && a != []
    ensures b != [] && a[0] == b[0] && multiset(a[1..]) == multiset(b[1..])
  {
    assert a[0] in multiset(b);
    assert b[0] in multiset(a);
    HeadIsLargest(a, b[0]);
    HeadIsLargest(b, a[0]);
    assert a == [a[0]] + a[1..] && b == [b[0]] + b[1..];
    assert multiset(a[1..]) == multiset(a) - multiset{a[0]};
    assert multiset(b[1..]) == multiset(b) - multiset{b[0]};
  }

  /**
   * A comparator sort of distinct numbers has one possible outcome: two
   * strictly descending lists with the same elements are equal.
   */
  lemma {:induction false} DescendingUnique(a: seq<int>, b: seq<int>)
    requires StrictlyDescending(a) && StrictlyDescending(b) && multiset(a) == multiset(b)
    ensures a == b
    decreases |a|
  {
    if a != [] {
      SameHead(a, b);
      DescendingUnique(a[1..], b[1..]);
      assert a == [a[0]] + a[1..] && b == [b[0]] + b[1..];
    } else {
      assert |multiset(b)| == 0;
    }
  }

  function SeasonList(races: seq<RaceView>): (r: seq<int>)
    ensures |r| == |races| && forall i :: 0 <= i < |races| ==> r[i] == races[i].season
  {
    seq(|races|, i requires 0 <= i < |races| => races[i].season)
  }

  /** `Array.from(new Set(races.map(r => r.season))).sort((a, b) => b - a)`. */
  function Seasons(races: seq<RaceView>): seq<int> {
    SortDescending(Dedup(SeasonList(races)))
  }

  /**
   * The season choices are strictly descending (so distinct), they are
   * exactly the seasons of the races, and any other arrangement a sort could
   * produce with those properties is this one.
   */
  lemma SeasonsSpec(races: seq<RaceView>)
    ensures var r := Seasons(races);
      && StrictlyDescending(r)
      && (forall y :: y in r <==> exists i :: 0 <= i < |races| && races[i].season == y)
      && (forall other :: StrictlyDescending(other) && multiset(other) == multiset(Dedup(SeasonList(races))) ==> other == r)
  {
    var d := Dedup(SeasonList(races));
    var r := Seasons(races);
    SortDescendingSorted(d);
    forall y
      ensures y in r <==> exists i :: 0 <= i < |races| && races[i].season == y
    {
      assert y in r <==> y in multiset(d);
      if exists i :: 0 <= i < |races| && races[i].season == y {
        var i :| 0 <= i < |races| && races[i].season == y;
        assert SeasonList(races)[i] == y;
      }
    }
    forall other | StrictlyDescending(other) && multiset(other) == multiset(d)
      ensures other == r
    {
      DescendingUnique(other, r);
    }
  }

  // ---------------------------------------------------------------------
  // `filteredRaces`.

  /** The races of the selected season, or all of them when none is selected. */
  function FilteredRaces(races: seq<RaceView>, selectedSeason: Option<string>): seq<RaceView> {
    if !Truthy(selectedSeason) then races
    else Filter(races, (r: RaceView) => IntToString(r.season) == selectedSeason.value)
  }

  /**
   * With no season selected every race is offered; with a season selected
   * the races of that season are offered, in order, and no others; a season
   * printed from a number selects the races of exactly that number.
   */
  lemma FilteredRacesSpec(races: seq<RaceView>, selectedSeason: Option<string>)
    ensures var r := FilteredRaces(races, selectedSeason);
      && IsSubseq(r, races)
      && (!Truthy(selectedSeason) ==> r == races)
      && (Truthy(selectedSeason) ==> forall x :: x in r <==> x in races && IntToString(x.season) == selectedSeason.value)
      && (forall n: int :: selectedSeason == Some(IntToString(n)) ==> forall x :: x in r <==> x in races && x.season == n)
  {
    if Truthy(selectedSeason) {
      FilterIsSubseq(races, (r: RaceView) => IntToString(r.season) == selectedSeason.value);
      forall n: int, x: RaceView | selectedSeason == Some(IntToString(n))
        ensures IntToString(x.season) == selectedSeason.value <==> x.season == n
      {
        ParseIntOfIntToString(n);
        ParseIntOfIntToString(x.season);
      }
    } else {
      SubseqRefl(races);
    }
  }

  // ---------------------------------------------------------------------
  // `updateFilter`.

  /** The value a select reports: its "all" item stands for no value. */
  function Choice(v: string): Option<string> {
    if v == "all" then None else Some(v)
  }

  /** The pairs `updateFilter(key, value)` pushes. */
  function Updated(ps: Pairs, key: string, value: Option<string>): Pairs {
    var q := if Truthy(value) then Set(ps, key, value.value) else Delete(ps, key);
    if key == "season" then Delete(q, "race") else q
  }

  /** `updateFilter`: a copy of the current parameters, changed in place and pushed. */
  method UpdateFilter(current: Pairs, key: string, value: Option<string>) returns (pushed: Pairs)
    ensures pushed == Updated(current, key, value)
  {
    var params := new SearchParams(current);
    if Truthy(value) {
      params.SetParam(key, value.value);
    } else {
      params.DeleteParam(key);
    }
    if key == "season" {
      params.DeleteParam("race");
    }
    pushed := params.pairs;
  }

  /**
   * A value sets the key to exactly that value, no value (the "all" item
   * included) removes it, a season change also removes the race, and every
   * other key keeps its pairs.
   */
  lemma UpdatedSpec(ps: Pairs, key: string, value: Option<string>)
    ensures var r := Updated(ps, key, value);
      && (Truthy(value) ==> KeepOnly(r, key) == [(key, value.value)] && Get(r, key) == value)
      && (!Truthy(value) ==> !HasKey(r, key))
      && (value == Choice("all") ==> !HasKey(r, key))
      && (key == "season" ==> !HasKey(r, "race"))
      && (forall j :: j != key && !(key == "season" && j == "race") ==> KeepOnly(r, j) == KeepOnly(ps, j))
  {
    var q := if Truthy(value) then Set(ps, key, value.value) else Delete(ps, key);
    if Truthy(value) {
      SetKeepsOne(ps, key, value.value);
    } else {
      KeepOnlyDelete(ps, key, key);
    }
    forall j | j != key
      ensures KeepOnly(q, j) == KeepOnly(ps, j)
    {
      if Truthy(value) {
        SetKeepsOtherKeys(ps, key, value.value, j);
      } else {
        KeepOnlyDelete(ps, key, j);
      }
    }
    if key == "season" {
      KeepOnlyDelete(q, "race", key);
      forall j | j != "race"
        ensures KeepOnly(Delete(q, "race"), j) == KeepOnly(q, j)
      {
        KeepOnlyDelete(q, "race", j);
      }
    }
  }

  // ---------------------------------------------------------------------
  // `clearAllFilters` and `hasActiveFilters`.

  /** The six filter keys. */
  predicate IsFilterKey(k: string) {
    k == "driver" || k == "race" || k == "category" || k == "season" || k == "location" || k == "session"
  }

  /** The pairs `clearAllFilters` pushes. */
  function Cleared(ps: Pairs): Pairs {
    Delete(Delete(Delete(Delete(Delete(Delete(ps, "driver"), "race"), "category"), "season"), "location"), "session")
  }

  method ClearAllFilters(current: Pairs) returns (pushed: Pairs)
    ensures pushed == Cleared(current)
  {
    var params := new SearchParams(current);
    params.DeleteParam("driver");
    params.DeleteParam("race");
    params.DeleteParam("category");
    params.DeleteParam("season");
    params.DeleteParam("location");
    params.DeleteParam("session");
    pushed := params.pairs;
  }

  /** Clearing removes exactly the six filter keys: any other key, such as `search`, keeps its pairs. */
  lemma ClearedSpec(ps: Pairs, j: string)
    ensures KeepOnly(Cleared(ps), j) == if IsFilterKey(j) then [] else KeepOnly(ps, j)
    ensures IsFilterKey(j) ==> !HasKey(Cleared(ps), j)
  {
    var a := Delete(ps, "driver");
    var b := Delete(a, "race");
    var c := Delete(b, "category");
    var d := Delete(c, "season");
    var e := Delete(d, "location");
    KeepOnlyDelete(ps, "driver", j);
    KeepOnlyDelete(a, "race", j);
    KeepOnlyDelete(b, "category", j);
    KeepOnlyDelete(c, "season", j);
    KeepOnlyDelete(d, "location", j);
    KeepOnlyDelete(e, "session", j);
  }

  /** The six selections the page passes in. */
  datatype Selections = Selections(
    driver: Option<string>, race: Option<string>, category: Option<string>,
    season: Option<string>, location: Option<string>, session: Option<string>)

  /** `selectedDriver || selectedRace || ...`, read as a condition. */
  predicate HasActiveFilters(s: Selections) {
    Truthy(s.driver) || Truthy(s.race) || Truthy(s.category) || Truthy(s.season) || Truthy(s.location) || Truthy(s.session)
  }

  /** The selections the page reads from a query string: the first value of each key. */
  function SelectionsOf(ps: Pairs): Selections {
    Selections(Get(ps, "driver"), Get(ps, "race"), Get(ps, "category"), Get(ps, "season"), Get(ps, "location"), Get(ps, "session"))
  }

  /** After clearing, no filter is active, so the clear button and the badges go away. */
  lemma ClearedHasNoActiveFilters(ps: Pairs)
    ensures !HasActiveFilters(SelectionsOf(Cleared(ps)))
  {
    ClearedSpec(ps, "driver");
    ClearedSpec(ps, "race");
    ClearedSpec(ps, "category");
    ClearedSpec(ps, "season");
    ClearedSpec(ps, "location");
    ClearedSpec(ps, "session");
  }

  /** Choosing a value for a filter key makes a filter active on the next page. */
  lemma UpdatedActivates(ps: Pairs, key: string, value: Option<string>)
    requires IsFilterKey(key) && Truthy(value)
    ensures HasActiveFilters(SelectionsOf(Updated(ps, key, value)))
  {
    UpdatedSpec(ps, key, value);
  }
}
