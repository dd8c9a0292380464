/**
 * The parts of Python's list semantics that the history buffer relies on:
 * slices with one bound (`xs[start:]`, `xs[:stop]`), including negative and
 * out-of-range bounds, and filtering list comprehensions
 * (`[x for x in xs if p(x)]`). Also the subsequence relation used to state
 * what a filtered, sliced copy of a list is.
 */
module PyList {

  function Min(a: int, b: int): int { if a <= b then a else b }

  function Max(a: int, b: int): int { if a <= b then b else a }

  /**
   * The index Python uses for a slice bound `i` of a list of length `len`
   * (step 1): a negative bound counts from the end, then the result is
   * clamped into 0..len.
   */
  function Bound(i: int, len: nat): (r: nat)
    ensures r <= len
    ensures 0 <= i <= len ==> r == i
    ensures i > len ==> r == len
    ensures i < 0 <= len + i ==> r == len + i
    ensures len + i < 0 ==> r == 0
  {
    if i < 0 then Max(0, len + i) else Min(i, len)
  }

  /**
   * `xs[start:]`. The result is always a suffix of `xs`. A non-negative start
   * drops the first `start` elements (all of them if there are fewer); a
   * negative start keeps the last `-start` elements (all of them if there are
   * fewer). In particular `xs[0:]` (which is also `xs[-0:]`) is all of `xs`.
   */
  function From<T>(xs: seq<T>, start: int): (r: seq<T>)
    ensures |r| <= |xs| && r == xs[|xs| - |r|..]
    ensures 0 <= start ==> |r| == |xs| - Min(start, |xs|)
    ensures start < 0 ==> |r| == Min(-start, |xs|)
  {
    xs[Bound(start, |xs|)..]
  }

  /**
   * `xs[:stop]`. The result is always a prefix of `xs`. A non-negative stop
   * keeps the first `stop` elements (all of them if there are fewer); a
   * negative stop drops the last `-stop` elements (all of them if there are
   * fewer).
   */
  function Upto<T>(xs: seq<T>, stop: int): (r: seq<T>)
    ensures |r| <= |xs| && r == xs[..|r|]
    ensures 0 <= stop ==> |r| == Min(stop, |xs|)
    ensures stop < 0 ==> |r| == |xs| - Min(-stop, |xs|)
  {
    xs[..Bound(stop, |xs|)]
  }

  /**
   * `[x for x in xs if p(x)]`: exactly the elements of `xs` that satisfy `p`,
   * in their original order.
   */
  function Keep<T>(xs: seq<T>, p: T -> bool): (r: seq<T>)
    ensures |r| <= |xs|
    ensures forall i :: 0 <= i < |r| ==> r[i] in xs && p(r[i])
    ensures forall i :: 0 <= i < |xs| && p(xs[i]) ==> xs[i] in r
  {
    if xs == [] then []
    else
      assert xs == [xs[0]] + xs[1..];
      (if p(xs[0]) then [xs[0]] else []) + Keep(xs[1..], p)
  }

  /** `a` is `b` with some elements (possibly none) removed, order preserved. */
  ghost predicate IsSubseq<T>(a: seq<T>, b: seq<T>)
    decreases |b|
  {
    a == [] || (b != [] && ((a[0] == b[0] && IsSubseq(a[1..], b[1..])) || IsSubseq(a, b[1..])))
  }

  lemma {:induction false} SubseqRefl<T>(a: seq<T>)
    ensures IsSubseq(a, a)
    decreases |a|
  {
    if a != [] {
      SubseqRefl(a[1..]);
    }
  }

  lemma {:induction false} SubseqTrans<T>(a: seq<T>, b: seq<T>, c: seq<T>)
    requires IsSubseq(a, b) && IsSubseq(b, c)
    ensures IsSubseq(a, c)
    decreases |c|
  {
    if a != [] {
      assert b != [] && c != [];
      if IsSubseq(b, c[1..]) {
        SubseqTrans(a, b, c[1..]);
      } else {
        assert b[0] == c[0] && IsSubseq(b[1..], c[1..]);
        if a[0] == b[0] && IsSubseq(a[1..], b[1..]) {
          SubseqTrans(a[1..], b[1..], c[1..]);
        } else {
          SubseqTrans(a, b[1..], c[1..]);
        }
      }
    }
  }

  /** Every suffix `xs[i..]` is a subsequence of `xs`. */
  lemma {:induction false} SuffixSubseq<T>(xs: seq<T>, i: nat)
    requires i <= |xs|
    ensures IsSubseq(xs[i..], xs)
    decreases i
  {
    if i == 0 {
      assert xs[0..] == xs;
      SubseqRefl(xs);
    } else {
      assert xs[i..] == xs[1..][i - 1..];
      SuffixSubseq(xs[1..], i - 1);
    }
  }

  /** Every prefix `xs[..j]` is a subsequence of `xs`. */
  lemma {:induction false} PrefixSubseq<T>(xs: seq<T>, j: nat)
    requires j <= |xs|
    ensures IsSubseq(xs[..j], xs)
    decreases j
  {
    if j > 0 {
      assert xs[..j][1..] == xs[1..][..j - 1];
      PrefixSubseq(xs[1..], j - 1);
    }
  }

  /** A filtering comprehension yields a subsequence of its source list. */
  lemma {:induction false} KeepSubseq<T>(xs: seq<T>, p: T -> bool)
    ensures IsSubseq(Keep(xs, p), xs)
    decreases |xs|
  {
    if xs != [] {
      KeepSubseq(xs[1..], p);
      if !p(xs[0]) {
        assert Keep(xs, p) == Keep(xs[1..], p);
      }
    }
  }

  /** Two comprehensions in a row filter by the conjunction of their conditions. */
  lemma {:induction false} KeepKeep<T>(xs: seq<T>, p: T -> bool, q: T -> bool, pq: T -> bool)
    requires forall x :: pq(x) == (p(x) && q(x))
    ensures Keep(Keep(xs, p), q) == Keep(xs, pq)
    decreases |xs|
  {
    if xs != [] {
      KeepKeep(xs[1..], p, q, pq);
      if p(xs[0]) {
        assert Keep(xs, p) == [xs[0]] + Keep(xs[1..], p);
        assert Keep(xs, p)[1..] == Keep(xs[1..], p);
      } else {
        assert Keep(xs, p) == Keep(xs[1..], p);
      }
    }
  }

  /** A condition that every element satisfies leaves the list as it is. */
  lemma {:induction false} KeepAll<T>(xs: seq<T>, p: T -> bool)
    requires forall x :: p(x)
    ensures Keep(xs, p) == xs
    decreases |xs|
  {
    if xs != [] {
      KeepAll(xs[1..], p);
      assert xs == [xs[0]] + xs[1..];
    }
  }

  /**
   * A suffix of a prefix of `xs` is a contiguous window of `xs`, and so a
   * subsequence of it whose every element is an element of `xs`.
   */
  lemma WindowFacts<T>(xs: seq<T>, prefix: seq<T>, r: seq<T>)
    requires |prefix| <= |xs| && prefix == xs[..|prefix|]
    requires |r| <= |prefix| && r == prefix[|prefix| - |r|..]
    ensures exists lo, hi :: 0 <= lo <= hi <= |xs| && r == xs[lo..hi]
    ensures IsSubseq(r, xs)
    ensures forall i :: 0 <= i < |r| ==> r[i] in xs
  {
    var hi := |prefix|;
    var lo := hi - |r|;
    assert r == xs[lo..hi];
    assert forall i :: 0 <= i < |r| ==> r[i] == xs[lo + i];
    SuffixSubseq(prefix, lo);
    PrefixSubseq(xs, hi);
    SubseqTrans(r, prefix, xs);
  }

  /** Every element a filtering comprehension keeps comes from its source and satisfies the condition. */
  lemma KeepMembers<T>(xs: seq<T>, p: T -> bool)
    ensures IsSubseq(Keep(xs, p), xs)
    ensures forall x :: x in Keep(xs, p) ==> x in xs && p(x)
  {
    KeepSubseq(xs, p);
    forall x | x in Keep(xs, p) ensures x in xs && p(x) {
      var i :| 0 <= i < |Keep(xs, p)| && Keep(xs, p)[i] == x;
    }
  }

  /** Two conditions that agree everywhere filter alike. */
  lemma {:induction false} KeepSameCondition<T>(xs: seq<T>, p: T -> bool, q: T -> bool)
    requires forall x :: p(x) == q(x)
    ensures Keep(xs, p) == Keep(xs, q)
    decreases |xs|
  {
    if xs != [] {
      KeepSameCondition(xs[1..], p, q);
    }
  }

  /**
   * A filtering comprehension keeps every copy of an element that satisfies
   * the condition and no copy of one that does not.
   */
  lemma {:induction false} KeepMultiset<T>(xs: seq<T>, p: T -> bool)
    ensures forall x :: multiset(Keep(xs, p))[x] == if p(x) then multiset(xs)[x] else 0
    decreases |xs|
  {
    if xs != [] {
      KeepMultiset(xs[1..], p);
      assert xs == [xs[0]] + xs[1..];
      assert multiset(xs) == multiset{xs[0]} + multiset(xs[1..]);
      var head := if p(xs[0]) then [xs[0]] else [];
      assert multiset(Keep(xs, p)) == multiset(head) + multiset(Keep(xs[1..], p));
    }
  }
}
