/**
 * `app/page.tsx`: the home page. The store runs the text search, the driver
 * and race equality filters and the row limit, so the clip list this module
 * starts from is the store's answer. The page then filters that list in
 * memory by category, season, location and session, in that order, and
 * derives the distinct Grand Prix locations and session names offered as
 * filter choices.
 */
module HomePage {
  import opened Wrappers
  import opened Seqs
  import opened Text
  import opened Views

  /** The query parameters of the page. */
  datatype PageParams = PageParams(
    search: Option<string>, driver: Option<string>, race: Option<string>,
    category: Option<string>, season: Option<string>, location: Option<string>, session: Option<string>)

  /** `clip.clip_tags?.some(tag => tag.category?.id === id)`. */
  predicate HasCategory(c: ClipView, id: string) {
    exists i :: 0 <= i < |c.tags| && c.tags[i].Some? && c.tags[i].value.id == id
  }

  /** `clip.race?.season.toString() === s`. */
  predicate InSeason(c: ClipView, s: string) {
    c.race.Some? && IntToString(c.race.value.season) == s
  }

  /** `clip.race?.location === l`. */
  predicate AtLocation(c: ClipView, l: string) {
    c.race.Some? && c.race.value.location == l
  }

  /** `name.split(' - ')[1]`: the second segment, missing when the name has no `' - '`. */
  function SessionOf(name: string): (r: Option<string>)
    ensures r.Some? <==> IndexOf(name, " - ", 0).Some?
    ensures r.Some? ==> |SplitOn(name, " - ")| >= 2 && r.value == SplitOn(name, " - ")[1]
  {
    SplitOnFirst(name, " - ");
    var parts := SplitOn(name, " - ");
    if |parts| > 1 then Some(parts[1]) else None
  }

  /** `clip.race?.name?.split(' - ')[1] === s`. */
  predicate InSession(c: ClipView, s: string) {
    c.race.Some? && SessionOf(c.race.value.name) == Some(s)
  }

  function ByCategory(clips: seq<ClipView>, p: PageParams): (r: seq<ClipView>)
    ensures IsSubseq(r, clips)
    ensures forall x :: x in r <==> x in clips && (Truthy(p.category) ==> HasCategory(x, p.category.value))
  {
    if Truthy(p.category) then
      var f := (c: ClipView) => HasCategory(c, p.category.value);
      FilterIsSubseq(clips, f);
      Filter(clips, f)
    else
      SubseqRefl(clips);
      clips
  }

  function BySeason(clips: seq<ClipView>, p: PageParams): (r: seq<ClipView>)
    ensures IsSubseq(r, clips)
    ensures forall x :: x in r <==> x in clips && (Truthy(p.season) ==> InSeason(x, p.season.value))
  {
    if Truthy(p.season) then
      var f := (c: ClipView) => InSeason(c, p.season.value);
      FilterIsSubseq(clips, f);
      Filter(clips, f)
    else
      SubseqRefl(clips);
      clips
  }

  function ByLocation(clips: seq<ClipView>, p: PageParams): (r: seq<ClipView>)
    ensures IsSubseq(r, clips)
    ensures forall x :: x in r <==> x in clips && (Truthy(p.location) ==> AtLocation(x, p.location.value))
  {
    if Truthy(p.location) then
      var f := (c: ClipView) => AtLocation(c, p.location.value);
      FilterIsSubseq(clips, f);
      Filter(clips, f)
    else
      SubseqRefl(clips);
      clips
  }

  function BySession(clips: seq<ClipView>, p: PageParams): (r: seq<ClipView>)
    ensures IsSubseq(r, clips)
    ensures forall x :: x in r <==> x in clips && (Truthy(p.session) ==> InSession(x, p.session.value))
  {
    if Truthy(p.session) then
      var f := (c: ClipView) => InSession(c, p.session.value);
      FilterIsSubseq(clips, f);
      Filter(clips, f)
    else
      SubseqRefl(clips);
      clips
  }

  /** The four in-memory filters, applied one after the other. */
  function PostFilter(clips: seq<ClipView>, p: PageParams): seq<ClipView> {
    BySession(ByLocation(BySeason(ByCategory(clips, p), p), p), p)
  }

  /** What a clip must satisfy for each filter parameter that is set. */
  predicate Matches(p: PageParams, c: ClipView) {
    && (Truthy(p.category) ==> HasCategory(c, p.category.value))
    && (Truthy(p.season) ==> InSeason(c, p.season.value))
    && (Truthy(p.location) ==> AtLocation(c, p.location.value))
    && (Truthy(p.session) ==> InSession(c, p.session.value))
  }

  /** No filter parameter is set (or each is empty). */
  predicate NoFilters(p: PageParams) {
    !Truthy(p.category) && !Truthy(p.season) && !Truthy(p.location) && !Truthy(p.session)
  }

  /**
   * The filtered list keeps the clips, in their order, that meet every
   * filter parameter set; it keeps exactly those; and with no filter
   * parameter it is the whole list.
   */
  lemma PostFilterSpec(clips: seq<ClipView>, p: PageParams)
    ensures var r := PostFilter(clips, p);
      && IsSubseq(r, clips)
      && (forall c :: c in r <==> c in clips && Matches(p, c))
      && (NoFilters(p) ==> r == clips)
  {
    var a := ByCategory(clips, p);
    var b := BySeason(a, p);
    var c := ByLocation(b, p);
    var d := BySession(c, p);
    SubseqTrans(b, a, clips);
    SubseqTrans(c, b, clips);
    SubseqTrans(d, c, clips);
  }

  /** The season filter picks a season by its number: a printed season matches the races of that season only. */
  lemma SeasonFilterByNumber(c: ClipView, n: int)
    ensures InSeason(c, IntToString(n)) <==> c.race.Some? && c.race.value.season == n
  {
    if c.race.Some? {
      ParseIntOfIntToString(n);
      ParseIntOfIntToString(c.race.value.season);
    }
  }

  function Locations(races: seq<RaceView>): (r: seq<string>)
    ensures |r| == |races| && forall i :: 0 <= i < |races| ==> r[i] == races[i].location
  {
    seq(|races|, i requires 0 <= i < |races| => races[i].location)
  }

  predicate NonEmpty(s: string) {
    s != ""
  }

  /** `[...new Set(races.map(r => r.location).filter(Boolean))]`. */
  function UniqueLocations(races: seq<RaceView>): seq<string> {
    Dedup(Filter(Locations(races), NonEmpty))
  }

  /**
   * The locations offered are distinct and non-empty, they are exactly the
   * non-empty locations of the races, and they come in the order of their
   * first appearance among those.
   */
  lemma UniqueLocationsSpec(races: seq<RaceView>)
    ensures var r := UniqueLocations(races);
      && NoDups(r)
      && (forall l :: l in r <==> l != "" && exists i :: 0 <= i < |races| && races[i].location == l)
      && (forall i, j :: 0 <= i < j < |r| ==>
            FirstIndex(Filter(Locations(races), NonEmpty), r[i]) < FirstIndex(Filter(Locations(races), NonEmpty), r[j]))
  {
    var ls := Locations(races);
    var kept := Filter(ls, NonEmpty);
    DedupFirstOccurrenceOrder(kept);
    forall l | l != "" && exists i :: 0 <= i < |races| && races[i].location == l
      ensures l in UniqueLocations(races)
    {
      var i :| 0 <= i < |races| && races[i].location == l;
      assert ls[i] == l;
    }
  }

  /** Each race's session segment, or `None` when its name has a single part. */
  function SessionParts(races: seq<RaceView>): (r: seq<Option<string>>)
    ensures |r| == |races| && forall i :: 0 <= i < |races| ==> r[i] == SessionOf(races[i].name)
  {
    seq(|races|, i requires 0 <= i < |races| => SessionOf(races[i].name))
  }

  /** `[...new Set(races.map(r => parts.length > 1 ? parts[1] : null).filter(Boolean))]`. */
  function UniqueSessions(races: seq<RaceView>): seq<string> {
    Dedup(Filter(Present(SessionParts(races)), NonEmpty))
  }

  /**
   * The sessions offered are distinct, and they are exactly the non-empty
   * second segments of race names that split into at least two parts.
   */
  lemma UniqueSessionsSpec(races: seq<RaceView>)
    ensures var r := UniqueSessions(races);
      && NoDups(r)
      && (forall s :: s in r <==> s != "" && exists i :: 0 <= i < |races| && SessionOf(races[i].name) == Some(s))
      && (forall s :: s in r ==> exists i :: 0 <= i < |races| && |SplitOn(races[i].name, " - ")| >= 2 && SplitOn(races[i].name, " - ")[1] == s)
  {
    var parts := SessionParts(races);
    var present := Present(parts);
    forall s | s in UniqueSessions(races)
      ensures s != "" && exists i :: 0 <= i < |races| && SessionOf(races[i].name) == Some(s)
    {
      assert s in present;
      var k :| 0 <= k < |present| && present[k] == s;
      assert Some(s) in parts;
      var i :| 0 <= i < |parts| && parts[i] == Some(s);
      assert SessionOf(races[i].name) == Some(s);
    }
    forall s | s != "" && exists i :: 0 <= i < |races| && SessionOf(races[i].name) == Some(s)
      ensures s in UniqueSessions(races)
    {
      var i :| 0 <= i < |races| && SessionOf(races[i].name) == Some(s);
      assert parts[i] == Some(s);
      assert s in present;
    }
  }

  /** What the page shows: the header count, the clips, and the location and session choices. */
  datatype PageView = PageView(clipCount: nat, clips: seq<ClipView>, locations: seq<string>, sessions: seq<string>)

  /** The page for the store's answers; `clips || []` and `racesResult.data?` read a missing answer as none. */
  function HomeView(clipsData: Option<seq<ClipView>>, racesData: Option<seq<RaceView>>, p: PageParams): PageView {
    var shown := PostFilter(clipsData.GetOr([]), p);
    var races := racesData.GetOr([]);
    PageView(|shown|, shown, UniqueLocations(races), UniqueSessions(races))
  }

  /**
   * The header counts the clips the grid shows, which are the store's
   * clips that pass the in-memory filters; with no clip answer both are
   * empty and with no race answer there are no choices.
   */
  lemma HeaderCountsShownClips(clipsData: Option<seq<ClipView>>, racesData: Option<seq<RaceView>>, p: PageParams)
    ensures var v := HomeView(clipsData, racesData, p);
      && v.clipCount == |v.clips|
      && IsSubseq(v.clips, clipsData.GetOr([]))
      && (clipsData.None? ==> v.clipCount == 0)
      && (racesData.None? ==> v.locations == [] && v.sessions == [])
  {
    PostFilterSpec(clipsData.GetOr([]), p);
  }
}
