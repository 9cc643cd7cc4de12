/**
 * `URLSearchParams` as an ordered list of (name, value) pairs. The
 * operations follow the WHATWG URL Standard (section 6.2, interface
 * URLSearchParams): `append` adds a pair at the end, `set` replaces the value
 * of the first pair with that name and removes the others (or appends when
 * there is none), `delete` removes every pair with that name, and `get`
 * returns the value of the first one. Percent-encoding of the serialized
 * form is not modelled: a query string is its list of pairs.
 */
module Params {
  import opened Wrappers

  type Pair = (string, string)
  type Pairs = seq<Pair>

  predicate HasKey(ps: Pairs, k: string) {
    exists i :: 0 <= i < |ps| && ps[i].0 == k
  }

  /** The pairs named `k`, in order. */
  function KeepOnly(ps: Pairs, k: string): (r: Pairs)
    ensures |r| <= |ps|
    ensures forall i :: 0 <= i < |r| ==> r[i].0 == k && r[i] in ps
    ensures r == [] <==> !HasKey(ps, k)
    decreases |ps|
  {
    if ps == [] then []
    else
      var rest := KeepOnly(ps[1..], k);
      assert HasKey(ps, k) <==> ps[0].0 == k || HasKey(ps[1..], k) by {
        if HasKey(ps, k) && ps[0].0 != k {
          var i :| 0 <= i < |ps| && ps[i].0 == k;
          assert ps[1..][i - 1].0 == k;
        }
        if HasKey(ps[1..], k) {
          var i :| 0 <= i < |ps[1..]| && ps[1..][i].0 == k;
          assert ps[i + 1].0 == k;
        }
      }
      if ps[0].0 == k then [ps[0]] + rest else rest
  }

  /** `params.get(k)`. */
  function Get(ps: Pairs, k: string): (r: Option<string>)
    ensures r.Some? <==> HasKey(ps, k)
    ensures r.Some? ==> (k, r.value) in ps
  {
    var m := KeepOnly(ps, k);
    if m == [] then None else Some(m[0].1)
  }

  /** `params.delete(k)`. */
  function Delete(ps: Pairs, k: string): (r: Pairs)
    ensures |r| <= |ps|
    ensures !HasKey(r, k)
    ensures forall i :: 0 <= i < |r| ==> r[i] in ps
    decreases |ps|
  {
    if ps == [] then [] else (if ps[0].0 == k then [] else [ps[0]]) + Delete(ps[1..], k)
  }

  /** `params.set(k, v)`. */
  function Set(ps: Pairs, k: string, v: string): (r: Pairs)
    decreases |ps|
  {
    if !HasKey(ps, k) then ps + [(k, v)]
    else if ps[0].0 == k then [(k, v)] + Delete(ps[1..], k)
    else [ps[0]] + Set(ps[1..], k, v)
  }

  lemma HasKeyCons(p: Pair, ps: Pairs, k: string)
    ensures HasKey([p] + ps, k) <==> p.0 == k || HasKey(ps, k)
  {
    var qs := [p] + ps;
    if p.0 == k {
      assert qs[0].0 == k;
    }
    if HasKey(qs, k) && p.0 != k {
      var i :| 0 <= i < |qs| && qs[i].0 == k;
      assert ps[i - 1].0 == k;
    }
    if HasKey(ps, k) {
      var i :| 0 <= i < |ps| && ps[i].0 == k;
      assert qs[i + 1].0 == k;
    }
  }

  lemma KeepOnlyAppend(a: Pairs, b: Pairs, k: string)
    ensures KeepOnly(a + b, k) == KeepOnly(a, k) + KeepOnly(b, k)
    decreases |a|
  {
    if a == [] {
      assert a + b == b;
    } else {
      assert (a + b)[1..] == a[1..] + b;
      KeepOnlyAppend(a[1..], b, k);
    }
  }

  /** Deleting one name leaves the pairs of every other name as they were. */
  lemma {:induction false} KeepOnlyDelete(ps: Pairs, k: string, j: string)
    ensures KeepOnly(Delete(ps, k), j) == if j == k then [] else KeepOnly(ps, j)
    decreases |ps|
  {
    if ps != [] {
      KeepOnlyDelete(ps[1..], k, j);
      var head: Pairs := if ps[0].0 == k then [] else [ps[0]];
      KeepOnlyAppend(head, Delete(ps[1..], k), j);
    }
  }

  /** Deleting a name twice is deleting it once; deletions of two names commute. */
  lemma {:induction false} DeleteDelete(ps: Pairs, k: string, j: string)
    ensures Delete(Delete(ps, k), j) == Delete(Delete(ps, j), k)
    ensures Delete(Delete(ps, k), k) == Delete(ps, k)
    decreases |ps|
  {
    if ps != [] {
      DeleteDelete(ps[1..], k, j);
      DeleteAppend([ps[0]], Delete(ps[1..], k), j);
      DeleteAppend([ps[0]], Delete(ps[1..], j), k);
      DeleteAppend([ps[0]], Delete(ps[1..], k), k);
      DeleteAppend([], Delete(ps[1..], k), j);
      DeleteAppend([], Delete(ps[1..], j), k);
      DeleteAppend([], Delete(ps[1..], k), k);
    }
  }

  lemma {:induction false} DeleteAppend(a: Pairs, b: Pairs, k: string)
    ensures Delete(a + b, k) == Delete(a, k) + Delete(b, k)
    decreases |a|
  {
    if a == [] {
      assert a + b == b;
    } else {
      assert (a + b)[1..] == a[1..] + b;
      DeleteAppend(a[1..], b, k);
    }
  }

  /** A name that does not occur is not affected by delete. */
  lemma {:induction false} DeleteAbsent(ps: Pairs, k: string)
    requires !HasKey(ps, k)
    ensures Delete(ps, k) == ps
    decreases |ps|
  {
    if ps != [] {
      HasKeyCons(ps[0], ps[1..], k);
      assert [ps[0]] + ps[1..] == ps;
      DeleteAbsent(ps[1..], k);
    }
  }

  /** After `set(k, v)` there is exactly one pair named `k`, holding `v`. */
  lemma {:induction false} SetKeepsOne(ps: Pairs, k: string, v: string)
    ensures KeepOnly(Set(ps, k, v), k) == [(k, v)]
    ensures Get(Set(ps, k, v), k) == Some(v)
    decreases |ps|
  {
    if !HasKey(ps, k) {
      KeepOnlyAppend(ps, [(k, v)], k);
    } else if ps[0].0 == k {
      KeepOnlyAppend([(k, v)], Delete(ps[1..], k), k);
      KeepOnlyDelete(ps[1..], k, k);
    } else {
      assert ps == [ps[0]] + ps[1..];
      HasKeyCons(ps[0], ps[1..], k);
      SetKeepsOne(ps[1..], k, v);
      KeepOnlyAppend([ps[0]], Set(ps[1..], k, v), k);
    }
  }

  /** `set(k, v)` changes nothing but the pairs named `k`: the rest keep their order. */
  lemma {:induction false} SetOthers(ps: Pairs, k: string, v: string)
    ensures Delete(Set(ps, k, v), k) == Delete(ps, k)
    decreases |ps|
  {
    if !HasKey(ps, k) {
      DeleteAppend(ps, [(k, v)], k);
    } else if ps[0].0 == k {
      DeleteAppend([(k, v)], Delete(ps[1..], k), k);
      DeleteDelete(ps[1..], k, k);
    } else {
      assert ps == [ps[0]] + ps[1..];
      HasKeyCons(ps[0], ps[1..], k);
      SetOthers(ps[1..], k, v);
      DeleteAppend([ps[0]], Set(ps[1..], k, v), k);
    }
  }

  /** Every name other than `k` has the same pairs, and so the same value, after `set(k, v)`. */
  lemma SetKeepsOtherKeys(ps: Pairs, k: string, v: string, j: string)
    requires j != k
    ensures KeepOnly(Set(ps, k, v), j) == KeepOnly(ps, j)
    ensures Get(Set(ps, k, v), j) == Get(ps, j)
  {
    SetOthers(ps, k, v);
    KeepOnlyDelete(Set(ps, k, v), k, j);
    KeepOnlyDelete(ps, k, j);
  }

  /** `set` on a name that does not occur appends one pair; on one that does, the list does not grow. */
  lemma {:induction false} SetPosition(ps: Pairs, k: string, v: string)
    ensures !HasKey(ps, k) ==> Set(ps, k, v) == ps + [(k, v)]
    ensures HasKey(ps, k) ==> |Set(ps, k, v)| <= |ps|
    decreases |ps|
  {
    if HasKey(ps, k) && ps[0].0 != k {
      assert ps == [ps[0]] + ps[1..];
      HasKeyCons(ps[0], ps[1..], k);
      SetPosition(ps[1..], k, v);
    }
  }

  /**
   * A `URLSearchParams` object: the pair list is changed in place by
   * `append`, `set` and `delete`.
   */
  class SearchParams {
    var pairs: Pairs

    /** `new URLSearchParams(init.toString())`: a copy of the given pairs. */
    constructor(init: Pairs)
      ensures pairs == init
    {
      pairs := init;
    }

    method Append(k: string, v: string)
      modifies this
      ensures pairs == old(pairs) + [(k, v)]
    {
      pairs := pairs + [(k, v)];
    }

    method SetParam(k: string, v: string)
      modifies this
      ensures pairs == Set(old(pairs), k, v)
    {
      pairs := Set(pairs, k, v);
    }

    method DeleteParam(k: string)
      modifies this
      ensures pairs == Delete(old(pairs), k)
    {
      pairs := Delete(pairs, k);
    }

    function GetParam(k: string): Option<string>
      reads this
    {
      Get(pairs, k)
    }
  }
}
