/**
 * Sequence shapes shared by the collectors: the list-comprehension filter,
 * tagging each element with the key it was read under, and "is a subsequence of".
 */
module Seqs {

  /** Concatenation regroups freely. */
  lemma AppendAssoc<T>(a: seq<T>, b: seq<T>, c: seq<T>)
    ensures (a + b) + c == a + (b + c)
  {
  }

  /** `[x for x in xs if keep(x)]`. */
  function Filter<T(==,!new)>(keep: T -> bool, xs: seq<T>): (r: seq<T>)
    ensures |r| <= |xs|
    decreases |xs|
  {
    if xs == [] then []
    else
      var init := Filter(keep, xs[..|xs| - 1]);
      if keep(xs[|xs| - 1]) then init + [xs[|xs| - 1]] else init
  }

  /** The filter keeps exactly the elements that pass the test. */
  lemma {:induction false} FilterMembers<T(!new)>(keep: T -> bool, xs: seq<T>)
    ensures forall x :: x in Filter(keep, xs) <==> x in xs && keep(x)
    decreases |xs|
  {
    if xs != [] {
      assert xs == xs[..|xs| - 1] + [xs[|xs| - 1]];
      FilterMembers(keep, xs[..|xs| - 1]);
    }
  }

  lemma FilterSnoc<T(!new)>(keep: T -> bool, xs: seq<T>, x: T)
    ensures Filter(keep, xs + [x]) == Filter(keep, xs) + (if keep(x) then [x] else [])
  {
    assert (xs + [x])[..|xs|] == xs;
  }

  /** Filtering distributes over concatenation: it never looks across the seam. */
  lemma {:induction false} FilterAppend<T(!new)>(keep: T -> bool, xs: seq<T>, ys: seq<T>)
    ensures Filter(keep, xs + ys) == Filter(keep, xs) + Filter(keep, ys)
    decreases |ys|
  {
    if ys == [] {
      assert xs + ys == xs;
    } else {
      var y, ys' := ys[|ys| - 1], ys[..|ys| - 1];
      assert ys == ys' + [y];
      assert xs + ys == (xs + ys') + [y];
      FilterAppend(keep, xs, ys');
      FilterSnoc(keep, xs + ys', y);
      FilterSnoc(keep, ys', y);
    }
  }

  /** Pairs every element with the key it was read under. */
  function Tag<K, T>(key: K, xs: seq<T>): (r: seq<(K, T)>)
    ensures |r| == |xs|
    ensures forall k :: 0 <= k < |xs| ==> r[k] == (key, xs[k])
  {
    seq(|xs|, k requires 0 <= k < |xs| => (key, xs[k]))
  }

  lemma TagAppend<K, T>(key: K, xs: seq<T>, ys: seq<T>)
    ensures Tag(key, xs + ys) == Tag(key, xs) + Tag(key, ys)
  {
  }

  /** `a` can be obtained from `b` by deleting elements. */
  predicate Subseq<T(==)>(a: seq<T>, b: seq<T>)
    decreases |b|
  {
    if a == [] then true
    else if b == [] then false
    else
      || (a[|a| - 1] == b[|b| - 1] && Subseq(a[..|a| - 1], b[..|b| - 1]))
      || Subseq(a, b[..|b| - 1])
  }

  lemma {:induction false} SubseqExtend<T>(a: seq<T>, b: seq<T>, c: seq<T>)
    requires Subseq(a, b)
    ensures Subseq(a, b + c)
    decreases |c|
  {
    if c == [] {
      assert b + c == b;
    } else if a != [] {
      var c' := c[..|c| - 1];
      SubseqExtend(a, b, c');
      assert (b + c)[..|b + c| - 1] == b + c';
    }
  }

  lemma {:induction false} SubseqConcat<T>(a1: seq<T>, b1: seq<T>, a2: seq<T>, b2: seq<T>)
    requires Subseq(a1, b1) && Subseq(a2, b2)
    ensures Subseq(a1 + a2, b1 + b2)
    decreases |b2|
  {
    if a2 == [] {
      assert a1 + a2 == a1;
      SubseqExtend(a1, b1, b2);
    } else {
      var a2', b2' := a2[..|a2| - 1], b2[..|b2| - 1];
      assert (a1 + a2)[..|a1 + a2| - 1] == a1 + a2';
      assert (b1 + b2)[..|b1 + b2| - 1] == b1 + b2';
      if a2[|a2| - 1] == b2[|b2| - 1] && Subseq(a2', b2') {
        SubseqConcat(a1, b1, a2', b2');
      } else {
        SubseqConcat(a1, b1, a2, b2');
      }
    }
  }

  /** What a filter keeps is a subsequence of its input. */
  lemma {:induction false} SubseqFilter<T(!new)>(keep: T -> bool, xs: seq<T>)
    ensures Subseq(Filter(keep, xs), xs)
    decreases |xs|
  {
    if xs != [] {
      var xs' := xs[..|xs| - 1];
      assert xs == xs' + [xs[|xs| - 1]];
      SubseqFilter(keep, xs');
      FilterSnoc(keep, xs', xs[|xs| - 1]);
    }
  }
}
