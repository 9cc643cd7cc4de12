/**
 * `components/search-bar.tsx`: the search input. Each change stores the
 * typed value as the input's state, copies the current query parameters,
 * sets or deletes `search` in the copy and pushes it to the router; the
 * pushed pairs are the method's result. The pending indicator of the
 * transition is left out.
 */
module SearchBar {
  import opened Wrappers
  import opened Params

  /** The pairs `handleSearch(value)` pushes. */
  function Searched(ps: Pairs, value: string): Pairs {
    if value != "" then Set(ps, "search", value) else Delete(ps, "search")
  }

  /**
   * A non-empty value becomes the one `search` pair, an empty value removes
   * `search`, and every other parameter keeps its pairs.
   */
  lemma SearchedSpec(ps: Pairs, value: string)
    ensures var r := Searched(ps, value);
      && (value != "" ==> KeepOnly(r, "search") == [("search", value)] && Get(r, "search") == Some(value))
      && (value == "" ==> !HasKey(r, "search"))
      && (forall j :: j != "search" ==> KeepOnly(r, j) == KeepOnly(ps, j))
  {
    if value != "" {
      SetKeepsOne(ps, "search", value);
    }
    forall j | j != "search"
      ensures KeepOnly(Searched(ps, value), j) == KeepOnly(ps, j)
    {
      if value != "" {
        SetKeepsOtherKeys(ps, "search", value, j);
      } else {
        KeepOnlyDelete(ps, "search", j);
      }
    }
  }

  /** Searching for a value and then clearing the box leaves the other parameters as they were, without `search`. */
  lemma SearchThenClear(ps: Pairs, value: string)
    ensures Searched(Searched(ps, value), "") == Delete(ps, "search")
  {
    if value != "" {
      SetOthers(ps, "search", value);
    } else {
      DeleteDelete(ps, "search", "search");
    }
  }

  /** The search input and its state. */
  class SearchBox {
    var search: string

    /** `useState(initialSearch || "")`. */
    constructor(initialSearch: Option<string>)
      ensures search == initialSearch.GetOr("")
    {
      search := initialSearch.GetOr("");
    }

    /** `handleSearch(value)` over the current query parameters. */
    method HandleSearch(current: Pairs, value: string) returns (pushed: Pairs)
      modifies this
      ensures search == value
      ensures pushed == Searched(current, value)
    {
      search := value;
      var params := new SearchParams(current);
      if value != "" {
        params.SetParam("search", value);
      } else {
        params.DeleteParam("search");
      }
      pushed := params.pairs;
    }
  }
}
