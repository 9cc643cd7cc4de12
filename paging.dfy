/**
 * Reading a table in pages of 1000 rows with `.range(offset, offset + 999)`,
 * as the tagging job and the tag status report do: the loop stops at a page
 * that returns no data, at an empty page, after a short page, or once the
 * offset reaches a bound. `pageFails(k)` says whether page k returns no data.
 */
module Paging {

  const PageSize := 1000

  function Min(a: int, b: int): int {
    if a <= b then a else b
  }

  /** `.range(offset, offset + 999)`: the rows at positions offset to offset + 999 that exist. */
  function Page<T>(rows: seq<T>, offset: nat): (r: seq<T>)
    ensures |r| <= PageSize
    ensures offset + |r| <= |rows| || r == []
    ensures |r| < PageSize ==> offset + |r| >= |rows|
    ensures offset <= |rows| ==> r == rows[offset..Min(offset + PageSize, |rows|)]
  {
    if offset >= |rows| then [] else rows[offset..Min(offset + PageSize, |rows|)]
  }

  /**
   * The rows the paging loop collects from `offset` on: it stops at a page
   * that fails, at an empty page, after a short page, or once `offset`
   * reaches the requested count.
   */
  function Collected<T>(rows: seq<T>, requested: int, pageFails: nat -> bool, offset: nat): seq<T>
    decreases requested - offset
  {
    if offset >= requested || pageFails(offset / PageSize) then []
    else
      var batch := Page(rows, offset);
      if batch == [] then []
      else if |batch| < PageSize then batch
      else batch + Collected(rows, requested, pageFails, offset + PageSize)
  }

  /** No page that the loop can reach fails. */
  ghost predicate PagesOk(pageFails: nat -> bool, requested: int) {
    forall k: nat :: k * PageSize < requested ==> !pageFails(k)
  }

  /** The collected rows continue the table in order. */
  lemma {:induction false} CollectedContinues<T>(rows: seq<T>, requested: int, pageFails: nat -> bool, offset: nat)
    requires offset <= |rows|
    ensures rows[..offset] + Collected(rows, requested, pageFails, offset) <= rows
    decreases requested - offset
  {
    CollectedNext(rows, requested, pageFails, offset);
    PrefixPage(rows, offset);
    if offset < requested && !pageFails(offset / PageSize) && |Page(rows, offset)| == PageSize {
      CollectedContinues(rows, requested, pageFails, offset + PageSize);
      Regroup(rows[..offset], Page(rows, offset), Collected(rows, requested, pageFails, offset + PageSize));
    }
  }

  /** The rows before a page followed by the page are a prefix of the table. */
  lemma PrefixPage<T>(rows: seq<T>, offset: nat)
    requires offset <= |rows|
    ensures rows[..offset] + Page(rows, offset) == rows[..Min(offset + PageSize, |rows|)]
  {
  }

  /**
   * When no page fails, the loop from a page boundary below the requested
   * count ends with the whole table or with at least the requested count.
   */
  lemma {:induction false} CollectedEnough<T>(rows: seq<T>, requested: int, pageFails: nat -> bool, offset: nat)
    requires offset <= |rows| && offset % PageSize == 0 && offset < requested
    requires PagesOk(pageFails, requested)
    ensures var all := rows[..offset] + Collected(rows, requested, pageFails, offset);
      all == rows || |all| >= requested
    decreases requested - offset
  {
    assert (offset / PageSize) * PageSize == offset;
    assert !pageFails(offset / PageSize);
    CollectedNext(rows, requested, pageFails, offset);
    PrefixPage(rows, offset);
    if |Page(rows, offset)| == PageSize {
      Regroup(rows[..offset], Page(rows, offset), Collected(rows, requested, pageFails, offset + PageSize));
      if offset + PageSize < requested {
        CollectedEnough(rows, requested, pageFails, offset + PageSize);
      }
    } else {
      assert rows[..|rows|] == rows;
    }
  }

  /** How the loop's next page decides what is collected from `offset` on. */
  lemma CollectedNext<T>(rows: seq<T>, requested: int, pageFails: nat -> bool, offset: nat)
    ensures offset >= requested || pageFails(offset / PageSize) ==> Collected(rows, requested, pageFails, offset) == []
    ensures offset < requested && !pageFails(offset / PageSize) && |Page(rows, offset)| < PageSize ==>
      Collected(rows, requested, pageFails, offset) == Page(rows, offset)
    ensures offset < requested && !pageFails(offset / PageSize) && |Page(rows, offset)| == PageSize ==>
      Collected(rows, requested, pageFails, offset) == Page(rows, offset) + Collected(rows, requested, pageFails, offset + PageSize)
  {
  }

  /** One page of the loop: the rows it adds, and whether the loop goes on to the next page. */
  method NextPage<T>(rows: seq<T>, requested: int, pageFails: nat -> bool, offset: nat) returns (batch: seq<T>, more: bool)
    requires offset < requested && offset <= |rows|
    ensures offset + |batch| <= |rows| && batch == rows[offset..offset + |batch|]
    ensures more ==> |batch| == PageSize
    ensures Collected(rows, requested, pageFails, offset)
      == batch + (if more then Collected(rows, requested, pageFails, offset + PageSize) else [])
  {
    CollectedNext(rows, requested, pageFails, offset);
    if pageFails(offset / PageSize) {
      return [], false;
    }
    batch := Page(rows, offset);
    more := |batch| == PageSize;
  }

  /** The paging loop: reads pages from offset 0 while the offset is below `requested`. */
  method FetchPages<T>(rows: seq<T>, requested: int, pageFails: nat -> bool) returns (all: seq<T>)
    ensures all == Collected(rows, requested, pageFails, 0)
  {
    ghost var whole := Collected(rows, requested, pageFails, 0);
    all := [];
    var offset: nat := 0;
    while offset < requested
      invariant offset <= |rows|
      invariant all + Collected(rows, requested, pageFails, offset) == whole
      decreases requested - offset
    {
      var batch, more := NextPage(rows, requested, pageFails, offset);
      if !more {
        Regroup(all, batch, []);
        all := all + batch;
        return;
      }
      Regroup(all, batch, Collected(rows, requested, pageFails, offset + PageSize));
      all := all + batch;
      offset := offset + PageSize;
    }
    CollectedNext(rows, requested, pageFails, offset);
  }

  /**
   * The `while (true)` form of the loop: no bound on the offset. The offset
   * only grows after a full page, so it stays at most the row count, and
   * the page there is empty: it reads what the bounded loop reads with the
   * row count plus one as its bound.
   */
  method FetchUntilShort<T>(rows: seq<T>, pageFails: nat -> bool) returns (all: seq<T>)
    ensures all == Collected(rows, |rows| + 1, pageFails, 0)
  {
    var bound := |rows| + 1;
    ghost var whole := Collected(rows, bound, pageFails, 0);
    all := [];
    var offset: nat := 0;
    while true
      invariant offset <= |rows|
      invariant all + Collected(rows, bound, pageFails, offset) == whole
      decreases |rows| - offset
    {
      var batch, more := NextPage(rows, bound, pageFails, offset);
      if !more {
        all := all + batch;
        break;
      }
      Regroup(all, batch, Collected(rows, bound, pageFails, offset + PageSize));
      all := all + batch;
      offset := offset + PageSize;
    }
  }

  lemma Regroup<T>(all: seq<T>, batch: seq<T>, rest: seq<T>)
    ensures (all + batch) + rest == all + (batch + rest)
  {
  }
}
