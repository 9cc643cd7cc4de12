/**
 * The catalog store, as the jobs and pages see it: drivers keyed by number,
 * races keyed by OpenF1 session key, clips in storage order with generated
 * ids, clip-category tag rows, and categories keyed by name. A driver row is
 * referred to by its number and a race row by its session key, the natural
 * keys the upserts conflict on.
 *
 * The outcome of each write (succeeded or failed) is an input of the method
 * that performs it, and so is the outcome of each read, except that the
 * sync's driver lookup and existing-clip check are assumed to succeed.
 */
module Catalog {
  import opened Wrappers
  import opened Seqs

  type ClipId = nat
  type CategoryId = nat

  datatype DriverRow = DriverRow(
    number: int, name: string, team: string, teamColor: string,
    countryCode: string, headshotUrl: string, nameAcronym: string)

  datatype RaceRow = RaceRow(
    name: string, location: string, season: int, raceDate: string, sessionKey: int, meetingKey: int)

  /** A clip; `transcript` None is SQL null. */
  datatype ClipRow = ClipRow(
    id: ClipId, title: string, audioUrl: string, driverNumber: int, raceKey: int,
    timestamp: string, duration: int, transcript: Option<string>)

  /** The fields of a clip insert; the store assigns the id. */
  datatype NewClip = NewClip(
    title: string, audioUrl: string, driverNumber: int, raceKey: int,
    timestamp: string, duration: int, transcript: Option<string>)

  datatype TagRow = TagRow(clipId: ClipId, categoryId: CategoryId)

  datatype CategoryRow = CategoryRow(id: CategoryId, name: string, description: string)

  /** What a tag insert returns: no error, a unique-violation error, or another error. */
  datatype TagReply = TagsInserted | DuplicateKey | TagInsertError

  datatype Db = Db(
    drivers: map<int, DriverRow>,
    races: map<int, RaceRow>,
    clips: seq<ClipRow>,
    nextClipId: ClipId,
    tags: seq<TagRow>,
    categories: map<string, CategoryRow>,
    nextCategoryId: CategoryId)

  /** Generated ids are distinct and below the next one; a category is filed under its own name. */
  predicate Valid(db: Db) {
    (forall i :: 0 <= i < |db.clips| ==> db.clips[i].id < db.nextClipId)
    && (forall i, j :: 0 <= i < j < |db.clips| ==> db.clips[i].id != db.clips[j].id)
    && (forall n :: n in db.categories ==> db.categories[n].name == n && db.categories[n].id < db.nextCategoryId)
    && (forall n, m :: n in db.categories && m in db.categories && n != m ==> db.categories[n].id != db.categories[m].id)
  }

  // ---------------------------------------------------------------------
  // Queries shared by several jobs.

  /** The number of clips whose audio URL is `url`. */
  function CountUrl(clips: seq<ClipRow>, url: string): (n: nat)
    ensures n <= |clips|
    decreases |clips|
  {
    if clips == [] then 0 else (if clips[0].audioUrl == url then 1 else 0) + CountUrl(clips[1..], url)
  }

  lemma CountUrlAppend(a: seq<ClipRow>, b: seq<ClipRow>, url: string)
    ensures CountUrl(a + b, url) == CountUrl(a, url) + CountUrl(b, url)
    decreases |a|
  {
    if a == [] {
      assert a + b == b;
    } else {
      assert (a + b)[1..] == a[1..] + b;
      CountUrlAppend(a[1..], b, url);
    }
  }

  /** No two clips share an audio URL. */
  predicate UniqueUrls(clips: seq<ClipRow>) {
    forall i, j :: 0 <= i < j < |clips| ==> clips[i].audioUrl != clips[j].audioUrl
  }

  /** With unique URLs, a URL that occurs occurs exactly once, so `.single()` finds it. */
  lemma {:induction false} UniqueUrlsCount(clips: seq<ClipRow>, url: string)
    requires UniqueUrls(clips)
    ensures CountUrl(clips, url) <= 1
    decreases |clips|
  {
    if clips != [] {
      assert UniqueUrls(clips[1..]) by {
        forall i, j | 0 <= i < j < |clips[1..]|
          ensures clips[1..][i].audioUrl != clips[1..][j].audioUrl
        {
          assert clips[1..][i] == clips[i + 1] && clips[1..][j] == clips[j + 1];
        }
      }
      UniqueUrlsCount(clips[1..], url);
      if clips[0].audioUrl == url {
        forall i | 0 <= i < |clips[1..]|
          ensures clips[1..][i].audioUrl != url
        {
          assert clips[1..][i] == clips[i + 1];
        }
        CountUrlZero(clips[1..], url);
      }
    }
  }

  /** The count is zero exactly when no clip has the URL. */
  lemma {:induction false} CountUrlZero(clips: seq<ClipRow>, url: string)
    ensures CountUrl(clips, url) == 0 <==> forall i :: 0 <= i < |clips| ==> clips[i].audioUrl != url
    decreases |clips|
  {
    if clips != [] {
      CountUrlZero(clips[1..], url);
      assert forall i :: 0 <= i < |clips[1..]| ==> clips[1..][i] == clips[i + 1];
    }
  }

  /** A transcript of null or "" means the clip is still to be transcribed. */
  predicate NeedsTranscript(c: ClipRow) {
    c.transcript.None? || c.transcript == Some("")
  }

  /** `.not('transcript', 'is', null).neq('transcript', '')`: the complement. */
  predicate HasTranscript(c: ClipRow) {
    !NeedsTranscript(c)
  }

  /** The category ids tagged on clip `id`, in row order. */
  function TagsOf(tags: seq<TagRow>, id: ClipId): (r: seq<CategoryId>)
    ensures |r| <= |tags|
    ensures forall c :: c in r <==> TagRow(id, c) in tags
    decreases |tags|
  {
    if tags == [] then []
    else (if tags[0].clipId == id then [tags[0].categoryId] else []) + TagsOf(tags[1..], id)
  }

  lemma TagsOfAppend(a: seq<TagRow>, b: seq<TagRow>, id: ClipId)
    ensures TagsOf(a + b, id) == TagsOf(a, id) + TagsOf(b, id)
    decreases |a|
  {
    if a == [] {
      assert a + b == b;
    } else {
      assert (a + b)[1..] == a[1..] + b;
      TagsOfAppend(a[1..], b, id);
    }
  }

  function ClipIds(clips: seq<ClipRow>): (ids: seq<ClipId>)
    ensures |ids| == |clips| && forall i :: 0 <= i < |clips| ==> ids[i] == clips[i].id
  {
    seq(|clips|, i requires 0 <= i < |clips| => clips[i].id)
  }

  // ---------------------------------------------------------------------
  // The effect of each successful write.

  /** Adds a clip with the next generated id at the end of the table. */
  function AddClip(db: Db, c: NewClip): (r: Db)
    ensures r.clips == db.clips + [ClipRow(db.nextClipId, c.title, c.audioUrl, c.driverNumber, c.raceKey, c.timestamp, c.duration, c.transcript)]
    ensures r.nextClipId == db.nextClipId + 1
    ensures r == db.(clips := r.clips, nextClipId := r.nextClipId)
  {
    db.(clips := db.clips + [ClipRow(db.nextClipId, c.title, c.audioUrl, c.driverNumber, c.raceKey, c.timestamp, c.duration, c.transcript)],
        nextClipId := db.nextClipId + 1)
  }

  /** `update({ transcript }).eq('id', id)`: the clips with that id get the transcript; nothing else changes. */
  function SetTranscript(clips: seq<ClipRow>, id: ClipId, t: string): (r: seq<ClipRow>)
    ensures |r| == |clips|
    ensures forall i :: 0 <= i < |clips| && clips[i].id != id ==> r[i] == clips[i]
    ensures forall i :: 0 <= i < |clips| && clips[i].id == id ==> r[i] == clips[i].(transcript := Some(t))
    ensures ClipIds(r) == ClipIds(clips)
  {
    seq(|clips|, i requires 0 <= i < |clips| => if clips[i].id == id then clips[i].(transcript := Some(t)) else clips[i])
  }

  /** `delete().in('id', ids)`: the clips whose id is listed are removed, the others keep their order. */
  function DeleteClips(clips: seq<ClipRow>, ids: seq<ClipId>): (r: seq<ClipRow>)
    ensures IsSubseq(r, clips)
    ensures forall i :: 0 <= i < |r| ==> r[i].id !in ids
    ensures forall i :: 0 <= i < |clips| && clips[i].id !in ids ==> clips[i] in r
    decreases |clips|
  {
    if clips == [] then []
    else
      var rest := DeleteClips(clips[1..], ids);
      if clips[0].id in ids then rest else [clips[0]] + rest
  }

  /** `delete().eq('clip_id', id)` on the tag table. */
  function DeleteTagsOf(tags: seq<TagRow>, id: ClipId): (r: seq<TagRow>)
    ensures TagsOf(r, id) == []
    ensures forall other :: other != id ==> TagsOf(r, other) == TagsOf(tags, other)
    ensures IsSubseq(r, tags)
    decreases |tags|
  {
    if tags == [] then []
    else
      var rest := DeleteTagsOf(tags[1..], id);
      if tags[0].clipId == id then rest
      else
        assert forall other :: other != id ==> TagsOf([tags[0]] + rest, other) == TagsOf(tags, other) by {
          forall other | other != id
            ensures TagsOf([tags[0]] + rest, other) == TagsOf(tags, other)
          {
            TagsOfAppend([tags[0]], rest, other);
            TagsOfAppend([tags[0]], tags[1..], other);
            assert tags == [tags[0]] + tags[1..];
          }
        }
        TagsOfAppend([tags[0]], rest, id);
        [tags[0]] + rest
  }

  /** Upsert of a category on conflict `name`: an existing row keeps its id, a new one gets the next id. */
  function UpsertCategory(db: Db, name: string, description: string): (r: Db)
    ensures name in r.categories && r.categories[name].name == name && r.categories[name].description == description
    ensures name in db.categories ==> r.categories[name].id == db.categories[name].id
    ensures r.categories.Keys == db.categories.Keys + {name}
    ensures forall n :: n in db.categories && n != name ==> r.categories[n] == db.categories[n]
    ensures Valid(db) ==> Valid(r)
    ensures r == db.(categories := r.categories, nextCategoryId := r.nextCategoryId)
  {
    if name in db.categories then
      db.(categories := db.categories[name := db.categories[name].(name := name, description := description)])
    else
      db.(categories := db.categories[name := CategoryRow(db.nextCategoryId, name, description)],
          nextCategoryId := db.nextCategoryId + 1)
  }

  lemma AddClipValid(db: Db, c: NewClip)
    requires Valid(db)
    ensures Valid(AddClip(db, c))
  {
  }

  lemma SetTranscriptValid(db: Db, id: ClipId, t: string)
    requires Valid(db)
    ensures Valid(db.(clips := SetTranscript(db.clips, id, t)))
  {
    var r := SetTranscript(db.clips, id, t);
    assert forall i :: 0 <= i < |r| ==> r[i].id == ClipIds(r)[i];
  }

  /**
   * The backing store: one field per table. Each write takes the outcome the
   * store reports for it; a failed write changes nothing.
   */
  class Store {
    var drivers: map<int, DriverRow>
    var races: map<int, RaceRow>
    var clips: seq<ClipRow>
    var nextClipId: ClipId
    var tags: seq<TagRow>
    var categories: map<string, CategoryRow>
    var nextCategoryId: CategoryId

    function Snapshot(): Db
      reads this
    {
      Db(drivers, races, clips, nextClipId, tags, categories, nextCategoryId)
    }

    constructor(db: Db)
      ensures Snapshot() == db
    {
      drivers, races, clips, nextClipId := db.drivers, db.races, db.clips, db.nextClipId;
      tags, categories, nextCategoryId := db.tags, db.categories, db.nextCategoryId;
    }

    /** `from('drivers').upsert(row, { onConflict: 'number' })`. */
    method UpsertDriver(row: DriverRow, fail: bool) returns (ok: bool)
      modifies this
      ensures ok == !fail
      ensures Snapshot() == if fail then old(Snapshot()) else old(Snapshot()).(drivers := old(drivers)[row.number := row])
    {
      ok := !fail;
      if ok {
        drivers := drivers[row.number := row];
      }
    }

    /** `from('races').upsert(row, { onConflict: 'session_key' })`. */
    method UpsertRace(row: RaceRow, fail: bool) returns (ok: bool)
      modifies this
      ensures ok == !fail
      ensures Snapshot() == if fail then old(Snapshot()) else old(Snapshot()).(races := old(races)[row.sessionKey := row])
    {
      ok := !fail;
      if ok {
        races := races[row.sessionKey := row];
      }
    }

    method InsertClip(c: NewClip, fail: bool) returns (ok: bool)
      modifies this
      ensures ok == !fail
      ensures Snapshot() == if fail then old(Snapshot()) else AddClip(old(Snapshot()), c)
    {
      ok := !fail;
      if ok {
        clips := clips + [ClipRow(nextClipId, c.title, c.audioUrl, c.driverNumber, c.raceKey, c.timestamp, c.duration, c.transcript)];
        nextClipId := nextClipId + 1;
      }
    }

    method UpdateTranscript(id: ClipId, t: string, fail: bool) returns (ok: bool)
      modifies this
      ensures ok == !fail
      ensures Snapshot() == if fail then old(Snapshot()) else old(Snapshot()).(clips := SetTranscript(old(clips), id, t))
    {
      ok := !fail;
      if ok {
        clips := SetTranscript(clips, id, t);
      }
    }

    method DeleteClipBatch(ids: seq<ClipId>, fail: bool) returns (ok: bool)
      modifies this
      ensures ok == !fail
      ensures Snapshot() == if fail then old(Snapshot()) else old(Snapshot()).(clips := DeleteClips(old(clips), ids))
    {
      ok := !fail;
      if ok {
        clips := DeleteClips(clips, ids);
      }
    }

    /** Inserts tag rows; only a reply without error adds them. */
    method InsertTags(rows: seq<TagRow>, reply: TagReply)
      modifies this
      ensures Snapshot() == if reply == TagsInserted then old(Snapshot()).(tags := old(tags) + rows) else old(Snapshot())
    {
      if reply == TagsInserted {
        tags := tags + rows;
      }
    }

    method DeleteTagsOfClip(id: ClipId, fail: bool) returns (ok: bool)
      modifies this
      ensures ok == !fail
      ensures Snapshot() == if fail then old(Snapshot()) else old(Snapshot()).(tags := DeleteTagsOf(old(tags), id))
    {
      ok := !fail;
      if ok {
        tags := DeleteTagsOf(tags, id);
      }
    }

    method UpsertCategoryRow(name: string, description: string, fail: bool) returns (ok: bool)
      modifies this
      ensures ok == !fail
      ensures Snapshot() == if fail then old(Snapshot()) else UpsertCategory(old(Snapshot()), name, description)
    {
      ok := !fail;
      if ok {
        var r := UpsertCategory(Snapshot(), name, description);
        categories, nextCategoryId := r.categories, r.nextCategoryId;
      }
    }
  }
}
