/**
 * `app/admin/tag-clips/page.tsx`: the admin page that walks through the
 * newest clips one at a time. It shows the current clip's categories as
 * ticked boxes, lets the admin toggle them, and on save replaces the clip's
 * tag rows with the ticked ones. On save or skip it moves to the next clip.
 * The store is the same `Catalog.Store` the scripts use. Each read and
 * delete takes a flag saying whether the store reports an error, and
 * the insert takes the store's reply. The page ignores every one of those
 * errors. When `currentIndex` changes, the page's effect reloads the
 * selection: `LoadClipTags` is the caller's step after a move.
 */
module TagEditor {
  import opened Wrappers
  import opened Seqs
  import opened Catalog
  import opened Views

  // ---------------------------------------------------------------------
  // `toggleCategory`: a pure update of the selection.

  function Except(id: CategoryId): CategoryId -> bool {
    x => x != id
  }

  /** `prev.includes(id) ? prev.filter(x => x !== id) : [...prev, id]`. */
  function Toggle(prev: seq<CategoryId>, id: CategoryId): seq<CategoryId> {
    if id in prev then Filter(prev, Except(id)) else prev + [id]
  }

  /**
   * A ticked id is unticked and the others keep their order; an unticked one
   * is added at the end. Either way the selected set gains or loses just
   * that id, and a selection without repeats stays without repeats.
   */
  lemma ToggleSpec(prev: seq<CategoryId>, id: CategoryId)
    ensures var r := Toggle(prev, id);
      && (id in prev ==> IsSubseq(r, prev) && Elements(r) == Elements(prev) - {id})
      && (id !in prev ==> r == prev + [id] && Elements(r) == Elements(prev) + {id})
      && (NoDups(prev) ==> NoDups(r))
  {
    var r := Toggle(prev, id);
    if id in prev {
      FilterIsSubseq(prev, Except(id));
      if NoDups(prev) {
        FilterNoDups(prev, Except(id));
      }
      assert Elements(r) == Elements(prev) - {id} by {
        forall x | x in Elements(prev) - {id}
          ensures x in Elements(r)
        {
          var i :| 0 <= i < |prev| && prev[i] == x;
        }
      }
    } else {
      assert Elements(r) == Elements(prev) + {id};
    }
  }

  /** Ticking an unticked box and unticking it again restores the selection exactly. */
  lemma ToggleTwiceRestores(prev: seq<CategoryId>, id: CategoryId)
    requires id !in prev
    ensures Toggle(Toggle(prev, id), id) == prev
  {
    FilterAppend(prev, [id], Except(id));
    FilterAll(prev, Except(id));
    assert Filter([id], Except(id)) == [];
  }

  /** Unticking a ticked box and ticking it again restores the selected set. */
  lemma ToggleTwiceSameSet(prev: seq<CategoryId>, id: CategoryId)
    ensures Elements(Toggle(Toggle(prev, id), id)) == Elements(prev)
  {
    ToggleSpec(prev, id);
    ToggleSpec(Toggle(prev, id), id);
  }

  // ---------------------------------------------------------------------
  // `saveTags`: replace the clip's tags.

  /** `selectedCategories.map(c => ({ clip_id, category_id: c }))`. */
  function TagRows(clip: ClipId, selected: seq<CategoryId>): (r: seq<TagRow>)
    ensures |r| == |selected| && forall i :: 0 <= i < |r| ==> r[i] == TagRow(clip, selected[i])
    decreases |selected|
  {
    if selected == [] then [] else [TagRow(clip, selected[0])] + TagRows(clip, selected[1..])
  }

  /** The new rows name this clip only, with the selected ids in order. */
  lemma {:induction false} TagRowsOf(clip: ClipId, selected: seq<CategoryId>, other: ClipId)
    ensures TagsOf(TagRows(clip, selected), clip) == selected
    ensures other != clip ==> TagsOf(TagRows(clip, selected), other) == []
    decreases |selected|
  {
    if selected != [] {
      TagRowsOf(clip, selected[1..], other);
      var rows := TagRows(clip, selected);
      assert rows[1..] == TagRows(clip, selected[1..]);
    }
  }

  /** The tag table after the delete and the insert of `saveTags`. */
  function SavedTags(tags: seq<TagRow>, clip: ClipId, selected: seq<CategoryId>, deleteFails: bool, reply: TagReply): seq<TagRow> {
    var kept := if deleteFails then tags else DeleteTagsOf(tags, clip);
    if |selected| > 0 && reply == TagsInserted then kept + TagRows(clip, selected) else kept
  }

  /**
   * When the delete and the insert succeed, the clip's tags are exactly the
   * selection, in order (an empty selection leaves none), and every other
   * clip keeps its tags.
   */
  lemma SaveReplacesTags(tags: seq<TagRow>, clip: ClipId, selected: seq<CategoryId>)
    ensures var r := SavedTags(tags, clip, selected, false, TagsInserted);
      && TagsOf(r, clip) == selected
      && Elements(TagsOf(r, clip)) == Elements(selected)
      && (forall other :: other != clip ==> TagsOf(r, other) == TagsOf(tags, other))
  {
    var kept := DeleteTagsOf(tags, clip);
    forall other
      ensures TagsOf(kept + TagRows(clip, selected), other) == TagsOf(kept, other) + TagsOf(TagRows(clip, selected), other)
      ensures TagsOf(TagRows(clip, selected), clip) == selected
      ensures other != clip ==> TagsOf(TagRows(clip, selected), other) == []
    {
      TagsOfAppend(kept, TagRows(clip, selected), other);
      TagRowsOf(clip, selected, other);
    }
  }

  /** Whatever the store reports, a save touches only rows of the current clip. */
  lemma SaveTouchesOnlyClip(tags: seq<TagRow>, clip: ClipId, selected: seq<CategoryId>, deleteFails: bool, reply: TagReply)
    ensures forall other :: other != clip ==> TagsOf(SavedTags(tags, clip, selected, deleteFails, reply), other) == TagsOf(tags, other)
  {
    var kept := if deleteFails then tags else DeleteTagsOf(tags, clip);
    forall other | other != clip
      ensures TagsOf(SavedTags(tags, clip, selected, deleteFails, reply), other) == TagsOf(tags, other)
    {
      TagsOfAppend(kept, TagRows(clip, selected), other);
      TagRowsOf(clip, selected, other);
    }
  }

  // ---------------------------------------------------------------------
  // The page's state.

  /** `.order('created_at', { ascending: false }).limit(100)`: the hundred newest clips. */
  function NewestClips(clips: seq<ClipRow>): (r: seq<ClipRow>)
    ensures |r| == if |clips| <= 100 then |clips| else 100
    ensures r <= Reverse(clips)
  {
    var newest := Reverse(clips);
    if |newest| <= 100 then newest else newest[..100]
  }

  class Editor {
    var clips: seq<ClipRow>
    var currentIndex: nat
    var selected: seq<CategoryId>
    var loading: bool

    /** `currentIndex` is 0 or names a loaded clip. */
    predicate Valid()
      reads this
    {
      currentIndex == 0 || currentIndex < |clips|
    }

    constructor()
      ensures clips == [] && currentIndex == 0 && selected == [] && loading && Valid()
    {
      clips, currentIndex, selected, loading := [], 0, [], true;
    }

    /** `loadData()` at mount: the newest clips, or none when the read fails. */
    method LoadData(store: Store, clipsFail: bool)
      requires currentIndex == 0
      modifies this
      ensures clips == (if clipsFail then [] else NewestClips(store.clips))
      ensures !loading && Valid()
      ensures currentIndex == old(currentIndex) && selected == old(selected)
    {
      clips := if clipsFail then [] else NewestClips(store.clips);
      loading := false;
    }

    /** `loadClipTags()`: the selection becomes the current clip's tags, or none when the read fails. */
    method LoadClipTags(store: Store, readFails: bool)
      modifies this
      ensures currentIndex < |clips| ==> selected == (if readFails then [] else TagsOf(store.tags, clips[currentIndex].id))
      ensures currentIndex >= |clips| ==> selected == old(selected)
      ensures clips == old(clips) && currentIndex == old(currentIndex) && loading == old(loading)
    {
      if currentIndex < |clips| {
        var clip := clips[currentIndex];
        selected := if readFails then [] else TagsOf(store.tags, clip.id);
      }
    }

    /** `toggleCategory(id)`. */
    method ToggleCategory(id: CategoryId)
      modifies this
      ensures selected == Toggle(old(selected), id)
      ensures clips == old(clips) && currentIndex == old(currentIndex) && loading == old(loading)
    {
      selected := Toggle(selected, id);
    }

    /** `if (currentIndex < clips.length - 1) setCurrentIndex(currentIndex + 1)`. */
    method Advance() returns (moved: bool)
      requires Valid()
      modifies this
      ensures Valid()
      ensures currentIndex == NextIndex(old(currentIndex), |clips|)
      ensures moved <==> currentIndex != old(currentIndex)
      ensures clips == old(clips) && selected == old(selected) && loading == old(loading)
    {
      moved := currentIndex < |clips| - 1;
      if moved {
        currentIndex := currentIndex + 1;
      }
    }

    /** `skip()`. */
    method Skip() returns (moved: bool)
      requires Valid()
      modifies this
      ensures Valid()
      ensures currentIndex == NextIndex(old(currentIndex), |clips|)
      ensures moved <==> currentIndex != old(currentIndex)
      ensures clips == old(clips) && selected == old(selected) && loading == old(loading)
    {
      moved := Advance();
    }

    /**
     * `saveTags()`: without a current clip it does nothing; otherwise it
     * deletes the clip's tag rows, inserts one row per selected id when
     * there is any, and moves on.
     */
    method SaveTags(store: Store, deleteFails: bool, reply: TagReply) returns (moved: bool)
      requires Valid()
      modifies this, store
      ensures Valid()
      ensures old(currentIndex) >= |clips| ==>
        !moved && currentIndex == old(currentIndex) && store.Snapshot() == old(store.Snapshot())
      ensures old(currentIndex) < |clips| ==>
        && store.Snapshot() == old(store.Snapshot()).(tags := SavedTags(old(store.tags), clips[old(currentIndex)].id, selected, deleteFails, reply))
        && currentIndex == NextIndex(old(currentIndex), |clips|)
        && (moved <==> currentIndex != old(currentIndex))
      ensures clips == old(clips) && selected == old(selected) && loading == old(loading)
    {
      if currentIndex >= |clips| {
        return false;
      }
      var clip := clips[currentIndex];
      var _ := store.DeleteTagsOfClip(clip.id, deleteFails);
      if |selected| > 0 {
        store.InsertTags(TagRows(clip.id, selected), reply);
      }
      moved := Advance();
    }
  }
}
