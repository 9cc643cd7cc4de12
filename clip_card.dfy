/**
 * `components/clip-card.tsx`: one clip on the grid. The card formats the
 * duration, tallies the votes on the clip, toggles the signed-in user's
 * vote, lists the clip's categories, and turns a category badge into a
 * category filter. The session lookup (`auth.getUser()`) is a parameter:
 * the user it returns, if any. Each vote write and each read takes a flag
 * saying whether the store reports an error; the card ignores write errors.
 */
module ClipCard {
  import opened Wrappers
  import opened Seqs
  import opened Text
  import opened Params
  import opened Views

  // ---------------------------------------------------------------------
  // `formatDuration`.

  /** `a % b` in JavaScript for a positive `b`: the remainder keeps the sign of `a`. */
  function JsRem(a: int, b: nat): (r: int)
    requires b > 0
    ensures a >= 0 ==> 0 <= r < b && r == a % b
    ensures a < 0 ==> -(b as int) < r <= 0
  {
    if a >= 0 then a % b else -((-a) % b)
  }

  /**
   * `formatDuration(seconds)`: "0:00" for null or 0, else the minutes
   * (`Math.floor(seconds / 60)`; Dafny's division by a positive number
   * rounds down) and the remainder padded to two characters.
   */
  function FormatDuration(seconds: Option<int>): string {
    if seconds.None? || seconds.value == 0 then "0:00"
    else
      var mins := seconds.value / 60;
      var secs := JsRem(seconds.value, 60);
      IntToString(mins) + ":" + PadTwo(IntToString(secs))
  }

  /** A number below 60 prints as two digits that read back as the number. */
  lemma PaddedSeconds(n: nat)
    requires n < 60
    ensures var p := PadTwo(NatToString(n)); |p| == 2 && AllDigits(p) && DigitsValue(p) == n
  {
    NatToStringRoundTrip(n);
    var d := NatToString(n);
    if n < 10 {
      var p := "0" + d;
      assert p[..1] == "0" && p[1] == d[0];
      assert DigitsValue(p[..1]) == 0;
      assert DigitsValue(d) == DigitValue(d[0]) by {
        assert d[..0] == [];
      }
    }
  }

  /**
   * A missing or zero duration shows as "0:00". A positive duration prints
   * as minutes, a colon and two digits of seconds; reading the two numbers
   * back gives the minutes and the seconds under 60 that make up the
   * duration.
   */
  lemma FormatDurationReadsBack(seconds: Option<int>)
    ensures seconds.None? || seconds == Some(0) ==> FormatDuration(seconds) == "0:00"
    ensures seconds.Some? && seconds.value > 0 ==>
      var r := FormatDuration(seconds); var k := |r| - 3;
      && k >= 1 && r[k] == ':'
      && AllDigits(r[..k]) && AllDigits(r[k + 1..])
      && DigitsValue(r[..k]) * 60 + DigitsValue(r[k + 1..]) == seconds.value
      && DigitsValue(r[k + 1..]) < 60
  {
    if seconds.Some? && seconds.value > 0 {
      var s: nat := seconds.value;
      PositiveDuration(s);
      var m := NatToString(s / 60);
      var p := PadTwo(NatToString(s % 60));
      PaddedSeconds(s % 60);
      NatToStringRoundTrip(s / 60);
      ColonJoin(m, p);
    }
  }

  /** For a positive duration both numbers are non-negative: the minutes and the remainder. */
  lemma PositiveDuration(s: nat)
    requires s > 0
    ensures FormatDuration(Some(s)) == NatToString(s / 60) + ":" + PadTwo(NatToString(s % 60))
  {
    assert JsRem(s, 60) == s % 60;
  }

  /** The parts of `m + ":" + p` for a two-character `p`. */
  lemma ColonJoin(m: string, p: string)
    requires |p| == 2
    ensures var r := m + ":" + p; var k := |r| - 3;
      k == |m| && r[k] == ':' && r[..k] == m && r[k + 1..] == p
  {
  }

  // ---------------------------------------------------------------------
  // Votes.

  datatype VoteType = Up | Down

  /** A row of the `votes` table. */
  datatype VoteRow = VoteRow(clipId: string, userId: string, voteType: VoteType)

  predicate IsUp(v: VoteType) {
    v == Up
  }

  predicate IsDown(v: VoteType) {
    v == Down
  }

  /** `votes.filter(v => v.vote_type === "up").length - ...("down").length`. */
  function Tally(votes: seq<VoteType>): int {
    |Filter(votes, IsUp)| - |Filter(votes, IsDown)|
  }

  /** The tally is the up votes minus the rest, so it lies between minus and plus the number of votes. */
  lemma TallyBounds(votes: seq<VoteType>)
    ensures Tally(votes) == 2 * |Filter(votes, IsUp)| - |votes|
    ensures -|votes| <= Tally(votes) <= |votes|
  {
    FilterSplit(votes, IsUp, IsDown);
  }

  /** The tally of two lists of votes adds up. */
  lemma TallyAppend(a: seq<VoteType>, b: seq<VoteType>)
    ensures Tally(a + b) == Tally(a) + Tally(b)
  {
    FilterAppend(a, b, IsUp);
    FilterAppend(a, b, IsDown);
  }

  /** `select("vote_type").eq("clip_id", clip)`: the votes on the clip, in row order. */
  function VotesOn(rows: seq<VoteRow>, clip: string): (r: seq<VoteType>)
    decreases |rows|
  {
    if rows == [] then []
    else (if rows[0].clipId == clip then [rows[0].voteType] else []) + VotesOn(rows[1..], clip)
  }

  lemma {:induction false} VotesOnAppend(a: seq<VoteRow>, b: seq<VoteRow>, clip: string)
    ensures VotesOn(a + b, clip) == VotesOn(a, clip) + VotesOn(b, clip)
    decreases |a|
  {
    if a == [] {
      assert a + b == b;
    } else {
      assert (a + b)[1..] == a[1..] + b;
      VotesOnAppend(a[1..], b, clip);
    }
  }

  predicate IsVoteOf(row: VoteRow, clip: string, user: string) {
    row.clipId == clip && row.userId == user
  }

  /** The user has a vote on the clip. */
  predicate HasVote(rows: seq<VoteRow>, clip: string, user: string) {
    exists i :: 0 <= i < |rows| && IsVoteOf(rows[i], clip, user)
  }

  lemma HasVoteCons(rows: seq<VoteRow>, clip: string, user: string)
    requires rows != []
    ensures HasVote(rows, clip, user) <==> IsVoteOf(rows[0], clip, user) || HasVote(rows[1..], clip, user)
  {
    if HasVote(rows[1..], clip, user) {
      var k :| 0 <= k < |rows[1..]| && IsVoteOf(rows[1..][k], clip, user);
      assert rows[k + 1] == rows[1..][k];
    }
    if HasVote(rows, clip, user) && !IsVoteOf(rows[0], clip, user) {
      var k :| 0 <= k < |rows| && IsVoteOf(rows[k], clip, user);
      assert rows[1..][k - 1] == rows[k];
    }
  }

  /** The unique key `(clip_id, user_id)` of the table. */
  predicate OneVoteEach(rows: seq<VoteRow>) {
    forall i, j :: 0 <= i < j < |rows| ==> !(rows[i].clipId == rows[j].clipId && rows[i].userId == rows[j].userId)
  }

  /** `.eq("clip_id", clip).eq("user_id", user).single()`: the user's vote when there is exactly one row. */
  function VoteOf(rows: seq<VoteRow>, clip: string, user: string): (r: Option<VoteType>)
    ensures r.Some? ==> HasVote(rows, clip, user)
    decreases |rows|
  {
    if rows == [] then None
    else if IsVoteOf(rows[0], clip, user) then
      (if HasVote(rows[1..], clip, user) then None else Some(rows[0].voteType))
    else
      HasVoteCons(rows, clip, user);
      VoteOf(rows[1..], clip, user)
  }

  /** `delete().eq("clip_id", clip).eq("user_id", user)`. */
  function RemoveVote(rows: seq<VoteRow>, clip: string, user: string): (r: seq<VoteRow>)
    ensures IsSubseq(r, rows)
    ensures forall i :: 0 <= i < |r| ==> !IsVoteOf(r[i], clip, user)
    ensures forall i :: 0 <= i < |rows| && !IsVoteOf(rows[i], clip, user) ==> rows[i] in r
    decreases |rows|
  {
    if rows == [] then []
    else
      var rest := RemoveVote(rows[1..], clip, user);
      if IsVoteOf(rows[0], clip, user) then
        assert IsSubseq(rest, rows) by {
          if rest != [] {
            assert IsSubseq(rest, rows[1..]);
          }
        }
        rest
      else
        assert ([rows[0]] + rest)[1..] == rest;
        [rows[0]] + rest
  }

  /** The new row for the user's vote. */
  function Voted(row: VoteRow, clip: string, user: string, t: VoteType): VoteRow {
    if IsVoteOf(row, clip, user) then row.(voteType := t) else row
  }

  /** `upsert({ clip_id, user_id, vote_type }, { onConflict: "clip_id,user_id" })`. */
  function UpsertVote(rows: seq<VoteRow>, clip: string, user: string, t: VoteType): (r: seq<VoteRow>)
    ensures |r| == |rows| + (if HasVote(rows, clip, user) then 0 else 1)
  {
    if HasVote(rows, clip, user) then seq(|rows|, i requires 0 <= i < |rows| => Voted(rows[i], clip, user, t))
    else rows + [VoteRow(clip, user, t)]
  }

  /** With one row per user and clip, `single()` finds the user's row. */
  lemma {:induction false} VoteOfFinds(rows: seq<VoteRow>, clip: string, user: string, i: nat)
    requires OneVoteEach(rows) && i < |rows| && IsVoteOf(rows[i], clip, user)
    ensures VoteOf(rows, clip, user) == Some(rows[i].voteType)
    decreases |rows|
  {
    if i == 0 {
      forall k | 0 <= k < |rows[1..]|
        ensures !IsVoteOf(rows[1..][k], clip, user)
      {
        assert rows[1..][k] == rows[k + 1];
      }
    } else {
      assert !IsVoteOf(rows[0], clip, user);
      VoteOfFinds(rows[1..], clip, user, i - 1);
    }
  }

  /**
   * An upsert keeps one row per user and clip, records the new vote as the
   * user's, and leaves every other user's and clip's vote as it was.
   */
  lemma UpsertVoteSpec(rows: seq<VoteRow>, clip: string, user: string, t: VoteType)
    requires OneVoteEach(rows)
    ensures var r := UpsertVote(rows, clip, user, t);
      && OneVoteEach(r)
      && VoteOf(r, clip, user) == Some(t)
      && (forall c, u :: !(c == clip && u == user) ==> VoteOf(r, c, u) == VoteOf(rows, c, u))
  {
    var r := UpsertVote(rows, clip, user, t);
    UpsertKeepsKey(rows, clip, user, t);
    if HasVote(rows, clip, user) {
      var i :| 0 <= i < |rows| && IsVoteOf(rows[i], clip, user);
      VoteOfFinds(r, clip, user, i);
    } else {
      VoteOfFinds(r, clip, user, |rows|);
    }
    forall c, u | !(c == clip && u == user)
      ensures VoteOf(r, c, u) == VoteOf(rows, c, u)
    {
      UpsertOthers(rows, clip, user, t, c, u);
    }
  }

  /** An upsert keeps the table's unique key. */
  lemma UpsertKeepsKey(rows: seq<VoteRow>, clip: string, user: string, t: VoteType)
    requires OneVoteEach(rows)
    ensures OneVoteEach(UpsertVote(rows, clip, user, t))
  {
    var r := UpsertVote(rows, clip, user, t);
    if HasVote(rows, clip, user) {
      assert forall i :: 0 <= i < |r| ==> r[i].clipId == rows[i].clipId && r[i].userId == rows[i].userId;
    } else {
      assert forall i :: 0 <= i < |rows| ==> !IsVoteOf(rows[i], clip, user);
    }
  }

  /** An upsert leaves the vote of every other user and clip as it was. */
  lemma UpsertOthers(rows: seq<VoteRow>, clip: string, user: string, t: VoteType, c: string, u: string)
    requires OneVoteEach(rows) && !(c == clip && u == user)
    ensures VoteOf(UpsertVote(rows, clip, user, t), c, u) == VoteOf(rows, c, u)
  {
    var r := UpsertVote(rows, clip, user, t);
    UpsertKeepsKey(rows, clip, user, t);
    if HasVote(rows, c, u) {
      var k :| 0 <= k < |rows| && IsVoteOf(rows[k], c, u);
      VoteOfFinds(rows, c, u, k);
      if HasVote(rows, clip, user) {
        assert r[k] == rows[k];
      }
      VoteOfFinds(r, c, u, k);
    } else {
      VoteOfAbsent(rows, c, u);
      assert !HasVote(r, c, u) by {
        if HasVote(rows, clip, user) {
          assert forall i :: 0 <= i < |r| ==> !IsVoteOf(r[i], c, u);
        } else {
          assert forall i :: 0 <= i < |r| ==> (i < |rows| && r[i] == rows[i]) || i == |rows|;
        }
      }
      VoteOfAbsent(r, c, u);
    }
  }

  /** Without a row, `single()` returns nothing. */
  lemma VoteOfAbsent(rows: seq<VoteRow>, clip: string, user: string)
    requires !HasVote(rows, clip, user)
    ensures VoteOf(rows, clip, user) == None
  {
  }

  /**
   * A delete leaves the user without a vote on the clip, keeps one row per
   * user and clip, and leaves every other vote as it was.
   */
  lemma RemoveVoteSpec(rows: seq<VoteRow>, clip: string, user: string)
    requires OneVoteEach(rows)
    ensures var r := RemoveVote(rows, clip, user);
      && OneVoteEach(r)
      && !HasVote(r, clip, user) && VoteOf(r, clip, user) == None
      && (forall c, u :: !(c == clip && u == user) ==> VoteOf(r, c, u) == VoteOf(rows, c, u))
  {
    var r := RemoveVote(rows, clip, user);
    SubseqKeepsOneVoteEach(r, rows);
    VoteOfAbsent(r, clip, user);
    forall c, u | !(c == clip && u == user)
      ensures VoteOf(r, c, u) == VoteOf(rows, c, u)
    {
      if HasVote(rows, c, u) {
        var k :| 0 <= k < |rows| && IsVoteOf(rows[k], c, u);
        VoteOfFinds(rows, c, u, k);
        assert rows[k] in r;
        var m :| 0 <= m < |r| && r[m] == rows[k];
        VoteOfFinds(r, c, u, m);
      } else {
        VoteOfAbsent(rows, c, u);
        assert !HasVote(r, c, u) by {
          if HasVote(r, c, u) {
            var m :| 0 <= m < |r| && IsVoteOf(r[m], c, u);
            SubseqMember(r, rows, m);
          }
        }
        VoteOfAbsent(r, c, u);
      }
    }
  }

  /** Dropping rows keeps the table's unique key. */
  lemma {:induction false} SubseqKeepsOneVoteEach(a: seq<VoteRow>, b: seq<VoteRow>)
    requires IsSubseq(a, b) && OneVoteEach(b)
    ensures OneVoteEach(a)
    decreases |b|
  {
    if a != [] {
      assert OneVoteEach(b[1..]);
      if a[0] == b[0] && IsSubseq(a[1..], b[1..]) {
        SubseqKeepsOneVoteEach(a[1..], b[1..]);
        forall j | 0 < j < |a|
          ensures !(a[0].clipId == a[j].clipId && a[0].userId == a[j].userId)
        {
          SubseqMember(a[1..], b[1..], j - 1);
          var m :| 0 <= m < |b[1..]| && b[1..][m] == a[j];
          assert b[m + 1] == a[j];
        }
      } else {
        SubseqKeepsOneVoteEach(a, b[1..]);
      }
    }
  }

  /** A first vote adds one to the clip's tally when up and takes one away when down. */
  lemma FirstVoteTally(rows: seq<VoteRow>, clip: string, user: string, t: VoteType)
    requires !HasVote(rows, clip, user)
    ensures Tally(VotesOn(UpsertVote(rows, clip, user, t), clip)) == Tally(VotesOn(rows, clip)) + (if t == Up then 1 else -1)
  {
    var row := VoteRow(clip, user, t);
    VotesOnAppend(rows, [row], clip);
    assert VotesOn([row], clip) == [t] by {
      assert [row][1..] == [];
    }
    TallyAppend(VotesOn(rows, clip), [t]);
  }

  /** Voting and taking the vote back restores the table when the user had not voted. */
  lemma VoteThenUnvote(rows: seq<VoteRow>, clip: string, user: string, t: VoteType)
    requires !HasVote(rows, clip, user)
    ensures RemoveVote(UpsertVote(rows, clip, user, t), clip, user) == rows
  {
    RemoveAll(rows, clip, user);
    RemoveAppend(rows, [VoteRow(clip, user, t)], clip, user);
    assert RemoveVote([VoteRow(clip, user, t)], clip, user) == [];
  }

  lemma {:induction false} RemoveAll(rows: seq<VoteRow>, clip: string, user: string)
    requires !HasVote(rows, clip, user)
    ensures RemoveVote(rows, clip, user) == rows
    decreases |rows|
  {
    if rows != [] {
      HasVoteCons(rows, clip, user);
      RemoveAll(rows[1..], clip, user);
      assert !IsVoteOf(rows[0], clip, user);
      assert rows == [rows[0]] + rows[1..];
    }
  }

  lemma {:induction false} RemoveAppend(a: seq<VoteRow>, b: seq<VoteRow>, clip: string, user: string)
    ensures RemoveVote(a + b, clip, user) == RemoveVote(a, clip, user) + RemoveVote(b, clip, user)
    decreases |a|
  {
    if a == [] {
      assert a + b == b;
    } else {
      assert (a + b)[1..] == a[1..] + b;
      RemoveAppend(a[1..], b, clip, user);
    }
  }

  /** The `votes` table. */
  class VoteTable {
    var rows: seq<VoteRow>

    constructor(init: seq<VoteRow>)
      ensures rows == init
    {
      rows := init;
    }

    method Delete(clip: string, user: string, fail: bool)
      modifies this
      ensures rows == if fail then old(rows) else RemoveVote(old(rows), clip, user)
    {
      if !fail {
        rows := RemoveVote(rows, clip, user);
      }
    }

    method Upsert(clip: string, user: string, t: VoteType, fail: bool)
      modifies this
      ensures rows == if fail then old(rows) else UpsertVote(old(rows), clip, user, t)
    {
      if !fail {
        rows := UpsertVote(rows, clip, user, t);
      }
    }
  }

  /** The card's state for one clip. */
  class Card {
    const clipId: string
    var userVote: Option<VoteType>
    var voteCount: int
    var isAuthenticated: bool

    constructor(clipId: string)
      ensures this.clipId == clipId && userVote == None && voteCount == 0 && !isAuthenticated
    {
      this.clipId := clipId;
      userVote := None;
      voteCount := 0;
      isAuthenticated := false;
    }

    /**
     * `checkAuthAndVotes()`: the user's vote replaces `userVote` only when the
     * read finds one, and the tally replaces `voteCount` only when the vote
     * list comes back.
     */
    method CheckAuthAndVotes(table: VoteTable, user: Option<string>, voteReadFails: bool, votesReadFails: bool)
      modifies this
      ensures isAuthenticated == user.Some?
      ensures userVote == if user.Some? then Refreshed(table.rows, clipId, user.value, voteReadFails, old(userVote)) else old(userVote)
      ensures voteCount == if votesReadFails then old(voteCount) else Tally(VotesOn(table.rows, clipId))
    {
      isAuthenticated := user.Some?;
      if user.Some? {
        var vote := if voteReadFails then None else VoteOf(table.rows, clipId, user.value);
        if vote.Some? {
          userVote := vote;
        }
      }
      if !votesReadFails {
        voteCount := Tally(VotesOn(table.rows, clipId));
      }
    }

    /**
     * `handleVote(voteType)`. Signed out, it only redirects to the login
     * page. Without a session user it does nothing. Otherwise the same vote
     * again deletes the user's row and clears `userVote`, a different vote
     * upserts the row and sets `userVote`, and the card then refreshes the
     * user's vote and the tally from the table.
     */
    method HandleVote(table: VoteTable, voteType: VoteType, user: Option<string>,
                      writeFails: bool, voteReadFails: bool, votesReadFails: bool) returns (redirect: bool)
      modifies this, table
      ensures redirect <==> !old(isAuthenticated)
      ensures !old(isAuthenticated) || user.None? ==>
        userVote == old(userVote) && voteCount == old(voteCount) && isAuthenticated == old(isAuthenticated) && table.rows == old(table.rows)
      ensures old(isAuthenticated) && user.Some? ==>
        && table.rows == Written(old(table.rows), clipId, user.value, old(userVote), voteType, writeFails)
        && userVote == Refreshed(table.rows, clipId, user.value, voteReadFails, Toggled(old(userVote), voteType))
        && voteCount == (if votesReadFails then old(voteCount) else Tally(VotesOn(table.rows, clipId)))
        && isAuthenticated
    {
      if !isAuthenticated {
        return true;
      }
      redirect := false;
      if user.None? {
        return;
      }
      if userVote == Some(voteType) {
        table.Delete(clipId, user.value, writeFails);
        userVote := None;
      } else {
        table.Upsert(clipId, user.value, voteType, writeFails);
        userVote := Some(voteType);
      }
      CheckAuthAndVotes(table, user, voteReadFails, votesReadFails);
    }
  }

  /** The vote the card shows after a click: the same vote again clears it, another replaces it. */
  function Toggled(current: Option<VoteType>, clicked: VoteType): Option<VoteType> {
    if current == Some(clicked) then None else Some(clicked)
  }

  /** The table after the click's write; a failed write changes nothing. */
  function Written(rows: seq<VoteRow>, clip: string, user: string, current: Option<VoteType>, clicked: VoteType, fails: bool): seq<VoteRow> {
    if fails then rows
    else if current == Some(clicked) then RemoveVote(rows, clip, user)
    else UpsertVote(rows, clip, user, clicked)
  }

  /** The shown vote after the refresh: the stored vote when the read finds one, else the vote shown before. */
  function Refreshed(rows: seq<VoteRow>, clip: string, user: string, fails: bool, prior: Option<VoteType>): Option<VoteType> {
    if !fails && VoteOf(rows, clip, user).Some? then VoteOf(rows, clip, user) else prior
  }

  /**
   * When the write and the read succeed, the vote the card shows after a
   * click is the vote stored for the user: none after clicking the current
   * vote, the clicked one otherwise.
   */
  lemma ClickShowsStoredVote(rows: seq<VoteRow>, clip: string, user: string, current: Option<VoteType>, clicked: VoteType)
    requires OneVoteEach(rows)
    ensures var r := Written(rows, clip, user, current, clicked, false);
      && OneVoteEach(r)
      && Refreshed(r, clip, user, false, Toggled(current, clicked)) == Toggled(current, clicked)
      && VoteOf(r, clip, user) == Toggled(current, clicked)
  {
    if current == Some(clicked) {
      RemoveVoteSpec(rows, clip, user);
    } else {
      UpsertVoteSpec(rows, clip, user, clicked);
    }
  }

  /**
   * A failed delete leaves the row in place, so the refresh shows the vote
   * again although the click cleared it.
   */
  lemma FailedUnvoteComesBack(rows: seq<VoteRow>, clip: string, user: string, t: VoteType)
    requires OneVoteEach(rows) && VoteOf(rows, clip, user) == Some(t)
    ensures Refreshed(Written(rows, clip, user, Some(t), t, true), clip, user, false, Toggled(Some(t), t)) == Some(t)
  {
  }

  // ---------------------------------------------------------------------
  // Categories and the category badge.

  /** `clip.clip_tags?.map(tag => tag.category).filter(Boolean) || []`. */
  function Categories(c: ClipView): seq<CategoryRef> {
    Present(c.tags)
  }

  /**
   * The badges show the categories of the clip's tags that still exist,
   * in tag order: the categories of a clip's tags in two parts are those of
   * the first part followed by those of the second.
   */
  lemma CategoriesSpec(c: ClipView, i: nat)
    requires i <= |c.tags|
    ensures forall k :: 0 <= k < |Categories(c)| ==> Some(Categories(c)[k]) in c.tags
    ensures forall k :: 0 <= k < |c.tags| && c.tags[k].Some? ==> c.tags[k].value in Categories(c)
    ensures Categories(c) == Present(c.tags[..i]) + Present(c.tags[i..])
  {
    assert c.tags == c.tags[..i] + c.tags[i..];
    PresentAppend(c.tags[..i], c.tags[i..]);
  }

  /** `handleCategoryClick(id)`: a copy of the parameters with `category` set, pushed to the router. */
  method HandleCategoryClick(current: Pairs, categoryId: string) returns (pushed: Pairs)
    ensures KeepOnly(pushed, "category") == [("category", categoryId)]
    ensures Get(pushed, "category") == Some(categoryId)
    ensures forall j :: j != "category" ==> KeepOnly(pushed, j) == KeepOnly(current, j)
  {
    var params := new SearchParams(current);
    params.SetParam("category", categoryId);
    pushed := params.pairs;
    SetKeepsOne(current, "category", categoryId);
    forall j | j != "category"
      ensures KeepOnly(pushed, j) == KeepOnly(current, j)
    {
      SetKeepsOtherKeys(current, "category", categoryId, j);
    }
  }
}
