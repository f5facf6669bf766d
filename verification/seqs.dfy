/** `Array.prototype.filter`, reversal and the subsequence order, with the facts the
    table queries and the page filters use. */
module Seqs {

  /** `s.filter(keep)`: the elements of `s` that satisfy `keep`, in their order in `s`. */
  function Filter<T(==,!new)>(s: seq<T>, keep: T -> bool): (r: seq<T>)
    ensures |r| <= |s|
    ensures forall x :: x in r <==> x in s && keep(x)
    ensures forall k :: 0 <= k < |r| ==> keep(r[k])
  {
    if s == [] then []
    else Filter(s[..|s| - 1], keep) + (if keep(s[|s| - 1]) then [s[|s| - 1]] else [])
  }

  /** Filtering a concatenation filters each part. */
  lemma {:induction false} FilterAppend<T(!new)>(a: seq<T>, b: seq<T>, keep: T -> bool)
    ensures Filter(a + b, keep) == Filter(a, keep) + Filter(b, keep)
    decreases |b|
  {
    if b == [] {
      assert a + b == a;
    } else {
      var last := b[|b| - 1];
      assert (a + b)[..|a + b| - 1] == a + b[..|b| - 1];
      FilterAppend(a, b[..|b| - 1], keep);
    }
  }

  /** A filter keeps everything when every element passes. */
  lemma {:induction false} FilterKeepsAll<T(!new)>(s: seq<T>, keep: T -> bool)
    requires forall k :: 0 <= k < |s| ==> keep(s[k])
    ensures Filter(s, keep) == s
  {
    if s != [] {
      var init := s[..|s| - 1];
      forall k | 0 <= k < |init| ensures keep(init[k]) {
        assert init[k] == s[k];
      }
      FilterKeepsAll(init, keep);
      KeepLast(s, keep);
    }
  }

  /** A kept last element ends the filtered prefix. */
  lemma KeepLast<T(!new)>(s: seq<T>, keep: T -> bool)
    requires s != [] && keep(s[|s| - 1]) && Filter(s[..|s| - 1], keep) == s[..|s| - 1]
    ensures Filter(s, keep) == s
  {
    assert s[..|s| - 1] + [s[|s| - 1]] == s;
  }

  /** A filter keeps nothing when no element passes. */
  lemma {:induction false} FilterKeepsNone<T(!new)>(s: seq<T>, keep: T -> bool)
    requires forall k :: 0 <= k < |s| ==> !keep(s[k])
    ensures Filter(s, keep) == []
  {
    if s != [] {
      FilterKeepsNone(s[..|s| - 1], keep);
    }
  }

  /** Two tests that agree on every element keep the same elements. */
  lemma {:induction false} FilterAgree<T(!new)>(s: seq<T>, keep: T -> bool, keep': T -> bool)
    requires forall k :: 0 <= k < |s| ==> keep(s[k]) == keep'(s[k])
    ensures Filter(s, keep) == Filter(s, keep')
  {
    if s != [] {
      FilterAgree(s[..|s| - 1], keep, keep');
    }
  }

  /** A test and its negation split a sequence: together they keep every element once. */
  lemma {:induction false} FilterPartition<T(!new)>(s: seq<T>, keep: T -> bool, drop: T -> bool)
    requires forall k :: 0 <= k < |s| ==> drop(s[k]) == !keep(s[k])
    ensures multiset(Filter(s, keep)) + multiset(Filter(s, drop)) == multiset(s)
  {
    if s != [] {
      FilterPartition(s[..|s| - 1], keep, drop);
      PartitionStep(s, keep, drop);
      MultisetSnoc(s);
    }
  }

  /** The last element lands in exactly one of the two filters. */
  lemma PartitionStep<T(!new)>(s: seq<T>, keep: T -> bool, drop: T -> bool)
    requires s != [] && drop(s[|s| - 1]) == !keep(s[|s| - 1])
    ensures multiset(Filter(s, keep)) + multiset(Filter(s, drop))
      == multiset(Filter(s[..|s| - 1], keep)) + multiset(Filter(s[..|s| - 1], drop)) + multiset{s[|s| - 1]}
  {
  }

  lemma MultisetSnoc<T>(s: seq<T>)
    requires s != []
    ensures multiset(s) == multiset(s[..|s| - 1]) + multiset{s[|s| - 1]}
  {
    assert s[..|s| - 1] + [s[|s| - 1]] == s;
  }

  /** An element other than the last is in the prefix without the last. */
  lemma InInit<T>(s: seq<T>, x: T)
    requires x in s && x != s[|s| - 1]
    ensures x in s[..|s| - 1]
  {
    var i :| 0 <= i < |s| && s[i] == x;
    assert s[..|s| - 1][i] == x;
  }

  /** `a` can be obtained from `b` by deleting elements: it is an order-preserving
      subsequence of `b`. Matching greedily from the end decides it. */
  predicate Subseq<T(==,!new)>(a: seq<T>, b: seq<T>)
    decreases |b|
  {
    if a == [] then true
    else if b == [] then false
    else if a[|a| - 1] == b[|b| - 1] then Subseq(a[..|a| - 1], b[..|b| - 1])
    else Subseq(a, b[..|b| - 1])
  }

  lemma {:induction false} SubseqDropLast<T(!new)>(a: seq<T>, b: seq<T>)
    requires a != [] && Subseq(a, b)
    ensures Subseq(a[..|a| - 1], b)
    decreases |b|, 1
  {
    var a', b' := a[..|a| - 1], b[..|b| - 1];
    if a[|a| - 1] == b[|b| - 1] {
      SubseqExtend(a', b', b[|b| - 1]);
      assert b' + [b[|b| - 1]] == b;
    } else {
      SubseqDropLast(a, b');
      SubseqExtend(a', b', b[|b| - 1]);
      assert b' + [b[|b| - 1]] == b;
    }
  }

  lemma {:induction false} SubseqExtend<T(!new)>(a: seq<T>, b: seq<T>, x: T)
    requires Subseq(a, b)
    ensures Subseq(a, b + [x])
    decreases |b| + 1, 0
  {
    assert (b + [x])[..|b|] == b;
    if a != [] && a[|a| - 1] == x {
      SubseqDropLast(a, b);
    }
  }

  lemma {:induction false} SubseqRefl<T(!new)>(a: seq<T>)
    ensures Subseq(a, a)
  {
    if a != [] {
      SubseqRefl(a[..|a| - 1]);
    }
  }

  /** A subsequence of a subsequence is a subsequence. */
  lemma {:induction false} SubseqTrans<T(!new)>(a: seq<T>, b: seq<T>, c: seq<T>)
    requires Subseq(a, b) && Subseq(b, c)
    ensures Subseq(a, c)
    decreases |c|
  {
    if a == [] {
    } else {
      var c' := c[..|c| - 1];
      assert c' + [c[|c| - 1]] == c;
      if b[|b| - 1] == c[|c| - 1] {
        var b' := b[..|b| - 1];
        if a[|a| - 1] == b[|b| - 1] {
          SubseqTrans(a[..|a| - 1], b', c');
        } else {
          SubseqTrans(a, b', c');
          SubseqExtend(a, c', c[|c| - 1]);
        }
      } else {
        SubseqTrans(a, b, c');
        SubseqExtend(a, c', c[|c| - 1]);
      }
    }
  }

  /** What `filter` returns keeps the order of its input. */
  lemma {:induction false} FilterIsSubseq<T(!new)>(s: seq<T>, keep: T -> bool)
    ensures Subseq(Filter(s, keep), s)
  {
    if s != [] {
      var s', last := s[..|s| - 1], s[|s| - 1];
      FilterIsSubseq(s', keep);
      assert s' + [last] == s;
      if keep(last) {
        var f := Filter(s', keep);
        assert (f + [last])[..|f|] == f;
      } else {
        var f := Filter(s', keep);
        assert Filter(s, keep) == f + [];
        assert f + [] == f;
        SubseqExtend(f, s', last);
        assert Subseq(f, s' + [last]);
      }
    }
  }

  /** `s` read back to front. */
  function Reverse<T>(s: seq<T>): (r: seq<T>)
    ensures |r| == |s|
    ensures forall k :: 0 <= k < |s| ==> r[k] == s[|s| - 1 - k]
  {
    if s == [] then [] else [s[|s| - 1]] + Reverse(s[..|s| - 1])
  }

  /** Reversal is a permutation. */
  lemma {:induction false} ReverseMultiset<T>(s: seq<T>)
    ensures multiset(Reverse(s)) == multiset(s)
  {
    if s != [] {
      ReverseMultiset(s[..|s| - 1]);
      assert s[..|s| - 1] + [s[|s| - 1]] == s;
    }
  }
}
