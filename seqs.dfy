/** Generic sequence operations: `Array.prototype.filter`, `slice(0, k)` and
    the subsequence relation used to state what they keep. */
module Seqs {

  /** The elements of `xs` that satisfy `p`, in their original order. */
  function Filter<T>(xs: seq<T>, p: T -> bool): (r: seq<T>)
    ensures |r| <= |xs|
    ensures forall i :: 0 <= i < |r| ==> p(r[i])
    ensures forall x :: x in r ==> x in xs
  {
    if xs == [] then []
    else if p(xs[0]) then [xs[0]] + Filter(xs[1..], p)
    else Filter(xs[1..], p)
  }

  /** `xs.slice(0, k)`: the first `k` elements, or all of them when there are fewer. */
  function Take<T>(xs: seq<T>, k: nat): (r: seq<T>)
    ensures |r| == if |xs| < k then |xs| else k
    ensures r <= xs
  {
    if |xs| <= k then xs else xs[..k]
  }

  /** `s` can be obtained from `t` by deleting elements. */
  ghost predicate IsSubsequence<T>(s: seq<T>, t: seq<T>)
    decreases |t|
  {
    s == [] || (t != [] && ((s[0] == t[0] && IsSubsequence(s[1..], t[1..])) || IsSubsequence(s, t[1..])))
  }

  /** Filtering distributes over concatenation. */
  lemma {:induction false} FilterAppend<T>(a: seq<T>, b: seq<T>, p: T -> bool)
    ensures Filter(a + b, p) == Filter(a, p) + Filter(b, p)
  {
    if a != [] {
      assert (a + b)[1..] == a[1..] + b;
      FilterAppend(a[1..], b, p);
    } else {
      assert a + b == b;
    }
  }

  /** Every element of `xs` that satisfies `p` is kept. */
  lemma {:induction false} FilterComplete<T>(xs: seq<T>, p: T -> bool, x: T)
    requires x in xs && p(x)
    ensures x in Filter(xs, p)
  {
    if xs[0] != x {
      FilterComplete(xs[1..], p, x);
    }
  }

  /** A filtered sequence is a subsequence of its source. */
  lemma {:induction false} FilterIsSubsequence<T>(xs: seq<T>, p: T -> bool)
    ensures IsSubsequence(Filter(xs, p), xs)
  {
    if xs != [] {
      FilterIsSubsequence(xs[1..], p);
      var r := Filter(xs, p);
      if !p(xs[0]) && r != [] {
        assert r[0] != xs[0];
      }
    }
  }

  /** Every prefix of a subsequence of `t` is a subsequence of `t`. */
  lemma {:induction false} PrefixOfSubsequence<T>(s: seq<T>, t: seq<T>, k: nat)
    requires IsSubsequence(s, t) && k <= |s|
    ensures IsSubsequence(s[..k], t)
    decreases |t|
  {
    if k > 0 {
      if s[0] == t[0] && IsSubsequence(s[1..], t[1..]) {
        PrefixOfSubsequence(s[1..], t[1..], k - 1);
        assert s[..k][1..] == s[1..][..k - 1];
      } else {
        PrefixOfSubsequence(s, t[1..], k);
      }
    }
  }

  /** `xs.map(f)`. */
  function Map<T, U>(xs: seq<T>, f: T -> U): (r: seq<U>)
    ensures |r| == |xs|
    ensures forall i :: 0 <= i < |xs| ==> r[i] == f(xs[i])
  {
    seq(|xs|, i requires 0 <= i < |xs| => f(xs[i]))
  }

  /** Mapping both sides keeps a subsequence a subsequence. */
  lemma {:induction false} MapSubsequence<T, U>(s: seq<T>, t: seq<T>, f: T -> U)
    requires IsSubsequence(s, t)
    ensures IsSubsequence(Map(s, f), Map(t, f))
    decreases |t|
  {
    if s != [] {
      assert Map(s, f)[1..] == Map(s[1..], f);
      assert Map(t, f)[1..] == Map(t[1..], f);
      if s[0] == t[0] && IsSubsequence(s[1..], t[1..]) {
        MapSubsequence(s[1..], t[1..], f);
      } else {
        MapSubsequence(s, t[1..], f);
      }
    }
  }

  /** `xs.filter(p).slice(0, k)` is the filter of a prefix of `xs`: of all
      of `xs` when it holds fewer than `k` matches, otherwise of a prefix that
      holds exactly `k`. */
  lemma {:induction false} TakeFilterIsFilterOfPrefix<T>(xs: seq<T>, p: T -> bool, k: nat)
    ensures exists m ::
      && 0 <= m <= |xs|
      && Take(Filter(xs, p), k) == Filter(xs[..m], p)
      && (|Take(Filter(xs, p), k)| < k ==> m == |xs|)
  {
    if xs == [] {
      assert xs[..0] == xs;
    } else if k == 0 {
      assert Take(Filter(xs, p), k) == Filter(xs[..0], p);
    } else {
      var rest := xs[1..];
      var k' := if p(xs[0]) then k - 1 else k;
      TakeFilterIsFilterOfPrefix(rest, p, k');
      var m :| 0 <= m <= |rest| && Take(Filter(rest, p), k') == Filter(rest[..m], p)
        && (|Take(Filter(rest, p), k')| < k' ==> m == |rest|);
      assert xs[..m + 1][1..] == rest[..m];
      if p(xs[0]) {
        assert Filter(xs, p) == [xs[0]] + Filter(rest, p);
        assert Take(Filter(xs, p), k) == [xs[0]] + Take(Filter(rest, p), k');
      }
      assert Take(Filter(xs, p), k) == Filter(xs[..m + 1], p);
    }
  }

  /** `xs.filter(p).slice(0, k)` keeps the first `k` matches of `xs`, or all
      of them when there are fewer: at most `k` elements, all satisfying `p`,
      in source order, exactly the matches of a prefix of `xs` that is all of
      `xs` unless `k` were kept. */
  lemma FirstMatches<T>(xs: seq<T>, p: T -> bool, k: nat)
    ensures var r := Take(Filter(xs, p), k);
      && |r| <= k
      && (forall i :: 0 <= i < |r| ==> p(r[i]))
      && IsSubsequence(r, xs)
      && (forall x :: x in xs && p(x) && x !in r ==> |r| == k)
      && (exists m :: 0 <= m <= |xs| && r == Filter(xs[..m], p) && (|r| < k ==> m == |xs|))
  {
    var f := Filter(xs, p);
    FilterIsSubsequence(xs, p);
    PrefixOfSubsequence(f, xs, |Take(f, k)|);
    assert Take(f, k) == f[..|Take(f, k)|];
    forall x | x in xs && p(x) && x !in Take(f, k) ensures |Take(f, k)| == k {
      FilterComplete(xs, p, x);
    }
    TakeFilterIsFilterOfPrefix(xs, p, k);
  }

  /** Once the first part of the list holds `k` matches, what follows it
      cannot change the kept elements. */
  lemma FirstMatchesIgnoreRest<T>(a: seq<T>, b: seq<T>, p: T -> bool, k: nat)
    requires |Filter(a, p)| >= k
    ensures Take(Filter(a + b, p), k) == Take(Filter(a, p), k)
  {
    FilterAppend(a, b, p);
    assert (Filter(a, p) + Filter(b, p))[..k] == Filter(a, p)[..k];
  }

  /** FirstMatches, seen through `map(f)` applied to the kept elements. */
  lemma FirstMatchesMapped<T, U>(xs: seq<T>, p: T -> bool, f: T -> U, k: nat)
    ensures var kept := Take(Filter(xs, p), k);
      var r := Map(kept, f);
      && |r| <= k
      && (forall i :: 0 <= i < |r| ==> r[i] == f(kept[i]) && p(kept[i]))
      && IsSubsequence(r, Map(xs, f))
      && (forall x :: x in xs && p(x) && f(x) !in r ==> |r| == k)
      && (exists m :: 0 <= m <= |xs| && r == Map(Filter(xs[..m], p), f) && (|r| < k ==> m == |xs|))
  {
    var kept := Take(Filter(xs, p), k);
    FirstMatches(xs, p, k);
    MapSubsequence(kept, xs, f);
    forall x | x in xs && p(x) && f(x) !in Map(kept, f) ensures |kept| == k {
      MapMember(kept, f, x);
    }
    var m :| 0 <= m <= |xs| && kept == Filter(xs[..m], p) && (|kept| < k ==> m == |xs|);
    assert Map(kept, f) == Map(Filter(xs[..m], p), f);
  }

  lemma MapMember<T, U>(xs: seq<T>, f: T -> U, x: T)
    ensures x in xs ==> f(x) in Map(xs, f)
  {
    if x in xs {
      var i :| 0 <= i < |xs| && xs[i] == x;
      assert Map(xs, f)[i] == f(x);
    }
  }
}
