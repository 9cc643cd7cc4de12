/**
 * Array operations of JavaScript used on query results: `filter`, the
 * distinct values of `[...new Set(xs)]` (first-occurrence order), and the
 * notion of a subsequence (a filtered list keeps its order).
 */
module Seqs {

  /** `s.filter(f)`. */
  function Filter<T(==)>(s: seq<T>, f: T -> bool): (r: seq<T>)
    ensures |r| <= |s|
    ensures forall i :: 0 <= i < |r| ==> r[i] in s && f(r[i])
    ensures forall i :: 0 <= i < |s| && f(s[i]) ==> s[i] in r
    decreases |s|
  {
    if s == [] then [] else (if f(s[0]) then [s[0]] else []) + Filter(s[1..], f)
  }

  /** `s` newest first: the reverse of storage order. */
  function Reverse<T>(s: seq<T>): (r: seq<T>)
    ensures |r| == |s| && forall i :: 0 <= i < |s| ==> r[i] == s[|s| - 1 - i]
  {
    seq(|s|, i requires 0 <= i < |s| => s[|s| - 1 - i])
  }

  /** `a` is `b` with some elements left out, the others kept in order. */
  predicate IsSubseq<T(==)>(a: seq<T>, b: seq<T>)
    decreases |b|
  {
    if a == [] then true
    else if b == [] then false
    else (a[0] == b[0] && IsSubseq(a[1..], b[1..])) || IsSubseq(a, b[1..])
  }

  lemma {:induction false} FilterIsSubseq<T>(s: seq<T>, f: T -> bool)
    ensures IsSubseq(Filter(s, f), s)
    decreases |s|
  {
    if s != [] {
      FilterIsSubseq(s[1..], f);
      var rest := Filter(s[1..], f);
      if f(s[0]) {
        assert Filter(s, f) == [s[0]] + rest;
        assert (Filter(s, f))[1..] == rest;
      } else {
        assert Filter(s, f) == rest;
        if rest != [] {
          assert IsSubseq(rest, s[1..]);
        }
      }
    }
  }

  lemma {:induction false} SubseqAppend<T>(a: seq<T>, b: seq<T>, x: T)
    requires IsSubseq(a, b)
    ensures IsSubseq(a + [x], b + [x])
    decreases |b|
  {
    if a == [] {
      assert a + [x] == [x];
      SubseqLast(b, x);
    } else if a[0] == b[0] && IsSubseq(a[1..], b[1..]) {
      SubseqAppend(a[1..], b[1..], x);
      assert (a + [x])[1..] == a[1..] + [x];
      assert (b + [x])[1..] == b[1..] + [x];
    } else {
      SubseqAppend(a, b[1..], x);
      assert (b + [x])[1..] == b[1..] + [x];
    }
  }

  lemma {:induction false} SubseqLast<T>(b: seq<T>, x: T)
    ensures IsSubseq([x], b + [x])
    decreases |b|
  {
    if b != [] {
      SubseqLast(b[1..], x);
      assert (b + [x])[1..] == b[1..] + [x];
    }
  }

  lemma {:induction false} SubseqExtend<T>(a: seq<T>, b: seq<T>, x: T)
    requires IsSubseq(a, b)
    ensures IsSubseq(a, b + [x])
    decreases |b|
  {
    if a != [] {
      if a[0] == b[0] && IsSubseq(a[1..], b[1..]) {
        SubseqExtend(a[1..], b[1..], x);
      } else {
        SubseqExtend(a, b[1..], x);
      }
      assert (b + [x])[1..] == b[1..] + [x];
    }
  }

  lemma {:induction false} SubseqMember<T>(a: seq<T>, b: seq<T>, i: nat)
    requires IsSubseq(a, b) && i < |a|
    ensures a[i] in b
    decreases |b|
  {
    if a[0] == b[0] && IsSubseq(a[1..], b[1..]) {
      if i > 0 {
        SubseqMember(a[1..], b[1..], i - 1);
      }
    } else {
      SubseqMember(a, b[1..], i);
    }
  }

  lemma {:induction false} SubseqRefl<T>(s: seq<T>)
    ensures IsSubseq(s, s)
    decreases |s|
  {
    if s != [] {
      SubseqRefl(s[1..]);
    }
  }

  lemma {:induction false} SubseqTrans<T>(a: seq<T>, b: seq<T>, c: seq<T>)
    requires IsSubseq(a, b) && IsSubseq(b, c)
    ensures IsSubseq(a, c)
    decreases |c|
  {
    if a != [] {
      if b[0] == c[0] && IsSubseq(b[1..], c[1..]) {
        if a[0] == b[0] && IsSubseq(a[1..], b[1..]) {
          SubseqTrans(a[1..], b[1..], c[1..]);
        } else {
          SubseqTrans(a, b[1..], c[1..]);
        }
      } else {
        SubseqTrans(a, b, c[1..]);
      }
    }
  }

  /** A filtered list without repeats has none either. */
  lemma {:induction false} FilterNoDups<T>(s: seq<T>, f: T -> bool)
    requires NoDups(s)
    ensures NoDups(Filter(s, f))
    decreases |s|
  {
    if s != [] {
      assert NoDups(s[1..]);
      FilterNoDups(s[1..], f);
      assert s[0] !in s[1..];
    }
  }

  /** Filtering twice keeps what both predicates keep. */
  lemma {:induction false} FilterFilter<T>(s: seq<T>, f: T -> bool, g: T -> bool)
    ensures Filter(Filter(s, f), g) == Filter(s, x => f(x) && g(x))
    decreases |s|
  {
    if s != [] {
      FilterFilter(s[1..], f, g);
      var head := if f(s[0]) then [s[0]] else [];
      FilterAppend(head, Filter(s[1..], f), g);
    }
  }

  lemma {:induction false} FilterAppend<T>(a: seq<T>, b: seq<T>, f: T -> bool)
    ensures Filter(a + b, f) == Filter(a, f) + Filter(b, f)
    decreases |a|
  {
    if a == [] {
      assert a + b == b;
    } else {
      assert (a + b)[1..] == a[1..] + b;
      FilterAppend(a[1..], b, f);
    }
  }

  /** A filter that keeps everything returns its input. */
  lemma {:induction false} FilterAll<T>(s: seq<T>, f: T -> bool)
    requires forall i :: 0 <= i < |s| ==> f(s[i])
    ensures Filter(s, f) == s
    decreases |s|
  {
    if s != [] {
      FilterAll(s[1..], f);
    }
  }

  /** A filter that keeps nothing returns the empty list. */
  lemma {:induction false} FilterNone<T>(s: seq<T>, f: T -> bool)
    requires forall i :: 0 <= i < |s| ==> !f(s[i])
    ensures Filter(s, f) == []
    decreases |s|
  {
    if s != [] {
      FilterNone(s[1..], f);
    }
  }

  predicate NoDups<T(==)>(s: seq<T>) {
    forall i, j :: 0 <= i < j < |s| ==> s[i] != s[j]
  }

  /** The position of the first occurrence of `x` in `s`. */
  function FirstIndex<T(==)>(s: seq<T>, x: T): (k: nat)
    requires x in s
    ensures k < |s| && s[k] == x && x !in s[..k]
    decreases |s|
  {
    if x in s[..|s| - 1] then FirstIndex(s[..|s| - 1], x) else |s| - 1
  }

  /** `[...new Set(s)]`: each value once, in the order of its first occurrence. */
  function Dedup<T(==)>(s: seq<T>): (r: seq<T>)
    ensures NoDups(r)
    ensures forall i :: 0 <= i < |r| ==> r[i] in s
    ensures forall i :: 0 <= i < |s| ==> s[i] in r
    decreases |s|
  {
    if s == [] then []
    else
      var d := Dedup(s[..|s| - 1]);
      if s[|s| - 1] in d then d else d + [s[|s| - 1]]
  }

  lemma {:induction false} DedupFirstOccurrenceOrder<T>(s: seq<T>)
    ensures forall i, j :: 0 <= i < j < |Dedup(s)| ==> FirstIndex(s, Dedup(s)[i]) < FirstIndex(s, Dedup(s)[j])
    decreases |s|
  {
    if s != [] {
      var init := s[..|s| - 1];
      var last := s[|s| - 1];
      DedupFirstOccurrenceOrder(init);
      var d := Dedup(init);
      forall k | 0 <= k < |init|
        ensures FirstIndex(s, init[k]) == FirstIndex(init, init[k])
      {
      }
      if last !in d {
        forall i | 0 <= i < |d|
          ensures FirstIndex(s, d[i]) < FirstIndex(s, last)
        {
          assert FirstIndex(s, last) == |s| - 1;
        }
      }
    }
  }

  /** The values that occur in `s`. */
  function Elements<T>(s: seq<T>): set<T> {
    set x | x in s
  }

  /** A list without repeats has as many elements as values. */
  lemma {:induction false} NoDupsSize<T>(s: seq<T>)
    requires NoDups(s)
    ensures |Elements(s)| == |s|
    decreases |s|
  {
    if s != [] {
      var init := s[..|s| - 1];
      var last := s[|s| - 1];
      assert NoDups(init);
      NoDupsSize(init);
      assert s == init + [last];
      assert Elements(s) == Elements(init) + {last};
      assert forall i :: 0 <= i < |init| ==> init[i] == s[i] != s[|s| - 1];
    }
  }

  /** `new Set(s).size`: the number of distinct values. */
  lemma DedupSize<T>(s: seq<T>)
    ensures |Dedup(s)| == |Elements(s)|
  {
    assert Elements(Dedup(s)) == Elements(s);
    NoDupsSize(Dedup(s));
  }

  /** Filtering by a predicate and by its negation splits the list. */
  lemma {:induction false} FilterSplit<T>(s: seq<T>, f: T -> bool, g: T -> bool)
    requires forall x :: g(x) == !f(x)
    ensures |Filter(s, f)| + |Filter(s, g)| == |s|
    decreases |s|
  {
    if s != [] {
      FilterSplit(s[1..], f, g);
    }
  }

  /** A subset has at most as many elements. */
  lemma SubsetSize<T>(a: set<T>, b: set<T>)
    requires a <= b
    ensures |a| <= |b|
  {
    assert b == (b - a) + a;
  }
}
