/**
 * The rows the pages read with their joins, as plain values, and the few
 * JavaScript idioms the pages share: the truthiness of an optional string,
 * `xs.filter(Boolean)` over nullable objects, and the "advance unless at
 * the last item" step of the tag editor and the compilation player.
 *
 * The pages see the store's ids as strings. A null race name or location
 * reads as "": every use of them (`split(' - ')`, `=== param` with a
 * non-empty param, `.filter(Boolean)`) treats null and "" alike. A null
 * `clip_tags` list reads as [] for the same reason.
 */
module Views {
  import opened Wrappers

  /** `if (s)` on a `string | undefined`: present and not empty. */
  predicate Truthy(o: Option<string>) {
    o.Some? && o.value != ""
  }

  datatype CategoryRef = CategoryRef(id: string, name: string)

  /** `races(id, name, location, season)`. */
  datatype RaceView = RaceView(id: string, name: string, location: string, season: int)

  /** A clip with `race:races(...)` and `clip_tags(category:categories(id, name))`; a tag whose category is gone is `None`. */
  datatype ClipView = ClipView(id: string, race: Option<RaceView>, tags: seq<Option<CategoryRef>>)

  /** `xs.filter(Boolean)` over objects or null: the present values, in order. */
  function Present<T(==)>(s: seq<Option<T>>): (r: seq<T>)
    ensures |r| <= |s|
    ensures forall i :: 0 <= i < |r| ==> Some(r[i]) in s
    ensures forall i :: 0 <= i < |s| && s[i].Some? ==> s[i].value in r
    decreases |s|
  {
    if s == [] then []
    else (if s[0].Some? then [s[0].value] else []) + Present(s[1..])
  }

  /** Dropping the nulls of a concatenation drops them part by part: the order is kept. */
  lemma {:induction false} PresentAppend<T>(a: seq<Option<T>>, b: seq<Option<T>>)
    ensures Present(a + b) == Present(a) + Present(b)
    decreases |a|
  {
    if a == [] {
      assert a + b == b;
    } else {
      assert (a + b)[1..] == a[1..] + b;
      PresentAppend(a[1..], b);
    }
  }

  /** A list without nulls keeps every value, each in its place. */
  lemma {:induction false} PresentAll<T>(s: seq<Option<T>>)
    requires forall i :: 0 <= i < |s| ==> s[i].Some?
    ensures |Present(s)| == |s|
    ensures forall i :: 0 <= i < |s| ==> Present(s)[i] == s[i].value
    decreases |s|
  {
    if s != [] {
      PresentAll(s[1..]);
    }
  }

  /** `if (i < n - 1) i + 1`: one step forward unless at the last of `n` items. */
  function NextIndex(i: nat, n: nat): (r: nat)
    ensures i < n - 1 ==> r == i + 1
    ensures i >= n - 1 ==> r == i
  {
    if i < n - 1 then i + 1 else i
  }

  /** The index after `k` steps from `i`. */
  function StepsFrom(i: nat, n: nat, k: nat): nat
    decreases k
  {
    if k == 0 then i else NextIndex(StepsFrom(i, n, k - 1), n)
  }

  /**
   * From the first item, `k` steps reach item `k` or stop at the last one:
   * the index never leaves the list, and an empty list keeps index 0.
   */
  lemma {:induction false} StepsStayInRange(n: nat, k: nat)
    ensures n == 0 ==> StepsFrom(0, n, k) == 0
    ensures n > 0 ==> StepsFrom(0, n, k) == if k < n - 1 then k else n - 1
    decreases k
  {
    if k > 0 {
      StepsStayInRange(n, k - 1);
    }
  }
}
