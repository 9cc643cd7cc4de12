/**
 * `components/compilation-card.tsx`: a compilation's card and its player.
 * The card lists the compilation's clips that still exist, opens the player
 * on the first one, moves to the next clip when one ends, and jumps to a
 * clip picked from the playlist.
 */
module CompilationCard {
  import opened Wrappers
  import opened Views

  datatype CompilationClip = CompilationClip(id: string, title: string, audioUrl: string)

  /** A compilation with `compilation_clips(clip:clips(...))`; a link to a deleted clip is `None`. */
  datatype Compilation = Compilation(id: string, title: string, description: Option<string>, isFeatured: bool, entries: seq<Option<CompilationClip>>)

  /** `compilation.compilation_clips.map(cc => cc.clip).filter(Boolean)`. */
  function Clips(c: Compilation): seq<CompilationClip> {
    Present(c.entries)
  }

  /**
   * The playlist holds the linked clips that exist, in link order, and
   * every one of them; with no dangling link it is the whole list.
   */
  lemma ClipsSpec(c: Compilation)
    ensures forall k :: 0 <= k < |Clips(c)| ==> Some(Clips(c)[k]) in c.entries
    ensures forall k :: 0 <= k < |c.entries| && c.entries[k].Some? ==> c.entries[k].value in Clips(c)
    ensures (forall k :: 0 <= k < |c.entries| ==> c.entries[k].Some?) ==>
      |Clips(c)| == |c.entries| && forall k :: 0 <= k < |c.entries| ==> Clips(c)[k] == c.entries[k].value
  {
    if forall k :: 0 <= k < |c.entries| ==> c.entries[k].Some? {
      PresentAll(c.entries);
    }
  }

  /** The card's player state. */
  class Player {
    const clips: seq<CompilationClip>
    var currentClipIndex: nat
    var isPlayerOpen: bool

    /** `currentClipIndex` is 0 or names a clip. */
    predicate Valid()
      reads this
    {
      currentClipIndex == 0 || currentClipIndex < |clips|
    }

    /** `clips[currentClipIndex]`, undefined past the end. */
    function CurrentClip(): (r: Option<CompilationClip>)
      reads this
      ensures r.Some? <==> currentClipIndex < |clips|
    {
      if currentClipIndex < |clips| then Some(clips[currentClipIndex]) else None
    }

    /** `disabled={clips.length === 0}` on the play button. */
    predicate PlayDisabled()
      reads this
    {
      |clips| == 0
    }

    constructor(c: Compilation)
      ensures clips == Clips(c) && currentClipIndex == 0 && !isPlayerOpen && Valid()
    {
      clips := Clips(c);
      currentClipIndex := 0;
      isPlayerOpen := false;
    }

    /** The play button: back to the first clip, player open; a clip plays exactly when the button is enabled. */
    method Play()
      modifies this
      ensures currentClipIndex == 0 && isPlayerOpen && Valid()
      ensures CurrentClip().Some? <==> !PlayDisabled()
      ensures !PlayDisabled() ==> CurrentClip() == Some(clips[0])
    {
      currentClipIndex := 0;
      isPlayerOpen := true;
    }

    /** `handleNextClip()`, run when a clip ends. */
    method HandleNextClip()
      requires Valid()
      modifies this
      ensures Valid()
      ensures currentClipIndex == NextIndex(old(currentClipIndex), |clips|)
      ensures isPlayerOpen == old(isPlayerOpen)
    {
      if currentClipIndex < |clips| - 1 {
        currentClipIndex := currentClipIndex + 1;
      }
    }

    /** A playlist button: its clip's position, which is in range. */
    method SelectClip(index: nat)
      requires index < |clips|
      modifies this
      ensures currentClipIndex == index && CurrentClip() == Some(clips[index]) && Valid()
      ensures isPlayerOpen == old(isPlayerOpen)
    {
      currentClipIndex := index;
    }
  }
}
