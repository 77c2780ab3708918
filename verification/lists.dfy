/**
  The list operations the hooks perform on React state: `Array.prototype.filter`,
  keyed replacement (`map` with an id test) and keyed removal.
*/
module Lists {

  /** `a` is `b` with some elements dropped and the rest kept in their original order. */
  predicate IsSubseq<T(==)>(a: seq<T>, b: seq<T>)
    decreases |b|
  {
    |a| == 0 || (|b| > 0 && ((a[0] == b[0] && IsSubseq(a[1..], b[1..])) || IsSubseq(a, b[1..])))
  }

  /** `[x]` when `keep` holds, otherwise nothing. */
  function Kept<T>(keep: bool, x: T): seq<T> {
    if keep then [x] else []
  }

  /** Putting the same item in front of both sides, and keeping it or not on the left, preserves the order. */
  lemma ConsSubseq<T>(x: T, keep: bool, a: seq<T>, b: seq<T>)
    requires IsSubseq(a, b)
    ensures IsSubseq(Kept(keep, x) + a, [x] + b)
  {
    assert ([x] + b)[1..] == b;
    if keep {
      assert ([x] + a)[1..] == a;
    } else {
      assert [] + a == a;
    }
  }

  /** Keeping any of five items, in their order, gives a subsequence of the five. */
  lemma KeptInOrder<T>(x1: T, x2: T, x3: T, x4: T, x5: T, k1: bool, k2: bool, k3: bool, k4: bool, k5: bool)
    ensures IsSubseq(Kept(k1, x1) + (Kept(k2, x2) + (Kept(k3, x3) + (Kept(k4, x4) + Kept(k5, x5)))),
      [x1, x2, x3, x4, x5])
  {
    ConsSubseq(x5, k5, [], []);
    assert Kept(k5, x5) + [] == Kept(k5, x5);
    ConsSubseq(x4, k4, Kept(k5, x5), [x5]);
    ConsSubseq(x3, k3, Kept(k4, x4) + Kept(k5, x5), [x4] + [x5]);
    ConsSubseq(x2, k2, Kept(k3, x3) + (Kept(k4, x4) + Kept(k5, x5)), [x3] + ([x4] + [x5]));
    ConsSubseq(x1, k1, Kept(k2, x2) + (Kept(k3, x3) + (Kept(k4, x4) + Kept(k5, x5))),
      [x2] + ([x3] + ([x4] + [x5])));
    assert [x1, x2, x3, x4, x5] == [x1] + ([x2] + ([x3] + ([x4] + [x5])));
  }

  lemma {:induction false} IsSubseqRefl<T>(xs: seq<T>)
    ensures IsSubseq(xs, xs)
    decreases |xs|
  {
    if |xs| > 0 {
      IsSubseqRefl(xs[1..]);
    }
  }

  /** `r` holds every element that passes `keep` exactly as often as `xs` does, and nothing else. */
  ghost predicate CountsKept<T(!new)>(r: seq<T>, xs: seq<T>, keep: T -> bool) {
    forall x :: multiset(r)[x] == if keep(x) then multiset(xs)[x] else 0
  }

  /** `xs.filter(keep)`. */
  function Filter<T(!new)>(xs: seq<T>, keep: T -> bool): (r: seq<T>)
    ensures |r| <= |xs|
  {
    if |xs| == 0 then []
    else if keep(xs[0]) then [xs[0]] + Filter(xs[1..], keep)
    else Filter(xs[1..], keep)
  }

  /**
    A filter keeps every copy of each element that passes and no copy of the others;
    with `FilterIsSubseq` this fixes the result.
  */
  lemma {:induction false} FilterCounts<T(!new)>(xs: seq<T>, keep: T -> bool)
    ensures CountsKept(Filter(xs, keep), xs, keep)
    decreases |xs|
  {
    if |xs| > 0 {
      assert xs == [xs[0]] + xs[1..];
      FilterCounts(xs[1..], keep);
    }
  }

  /** A filter keeps exactly the elements that pass its test. */
  lemma {:induction false} FilterMembers<T(!new)>(xs: seq<T>, keep: T -> bool)
    ensures forall x :: x in Filter(xs, keep) <==> x in xs && keep(x)
    decreases |xs|
  {
    if |xs| > 0 {
      FilterMembers(xs[1..], keep);
      assert forall x :: x in xs <==> x == xs[0] || x in xs[1..];
    }
  }

  /** What a filter keeps is an order-preserving subsequence of its input. */
  lemma {:induction false} FilterIsSubseq<T(!new)>(xs: seq<T>, keep: T -> bool)
    ensures IsSubseq(Filter(xs, keep), xs)
    decreases |xs|
  {
    if |xs| > 0 {
      var rest := Filter(xs[1..], keep);
      FilterIsSubseq(xs[1..], keep);
      if keep(xs[0]) {
        assert ([xs[0]] + rest)[1..] == rest;
      }
    }
  }

  lemma ConcatAssoc<T>(a: seq<T>, b: seq<T>, c: seq<T>)
    ensures (a + b) + c == a + (b + c)
  {
  }

  /** Filtering a concatenation filters each part. */
  lemma {:induction false} FilterAppend<T(!new)>(a: seq<T>, b: seq<T>, keep: T -> bool)
    ensures Filter(a + b, keep) == Filter(a, keep) + Filter(b, keep)
    decreases |a|
  {
    if |a| > 0 {
      assert (a + b)[1..] == a[1..] + b;
      FilterAppend(a[1..], b, keep);
    } else {
      assert a + b == b;
    }
  }

  /** A filter that keeps every element returns the list itself. */
  lemma {:induction false} FilterKeepsAll<T(!new)>(xs: seq<T>, keep: T -> bool)
    requires forall i :: 0 <= i < |xs| ==> keep(xs[i])
    ensures Filter(xs, keep) == xs
    decreases |xs|
  {
    if |xs| > 0 {
      FilterKeepsAll(xs[1..], keep);
    }
  }

  /** A filter that keeps no element returns the empty list. */
  lemma {:induction false} FilterKeepsNone<T(!new)>(xs: seq<T>, keep: T -> bool)
    requires forall i :: 0 <= i < |xs| ==> !keep(xs[i])
    ensures Filter(xs, keep) == []
    decreases |xs|
  {
    if |xs| > 0 {
      FilterKeepsNone(xs[1..], keep);
    }
  }

  /** A filter that drops all of `a` and keeps all of `b` returns `b` from `a + b`. */
  lemma FilterDropsPrefix<T(!new)>(a: seq<T>, b: seq<T>, keep: T -> bool)
    requires forall i :: 0 <= i < |a| ==> !keep(a[i])
    requires forall i :: 0 <= i < |b| ==> keep(b[i])
    ensures Filter(a + b, keep) == b
  {
    FilterAppend(a, b, keep);
    FilterKeepsNone(a, keep);
    FilterKeepsAll(b, keep);
  }

  /** Two filters that agree on every element of `xs` give the same result. */
  lemma {:induction false} FilterAgree<T(!new)>(xs: seq<T>, p: T -> bool, q: T -> bool)
    requires forall i :: 0 <= i < |xs| ==> p(xs[i]) == q(xs[i])
    ensures Filter(xs, p) == Filter(xs, q)
    decreases |xs|
  {
    if |xs| > 0 {
      FilterAgree(xs[1..], p, q);
    }
  }

  /** Filtering twice with the same test is filtering once. */
  lemma FilterIdempotent<T(!new)>(xs: seq<T>, keep: T -> bool)
    ensures Filter(Filter(xs, keep), keep) == Filter(xs, keep)
  {
    var r := Filter(xs, keep);
    FilterMembers(xs, keep);
    forall i | 0 <= i < |r|
      ensures keep(r[i])
    {
      assert r[i] in r;
    }
    FilterKeepsAll(r, keep);
  }

  /** `xs.filter(x => x !== v)`: every occurrence of `v` removed, the others kept in order. */
  function RemoveAll<T(==,!new)>(xs: seq<T>, v: T): (r: seq<T>)
    ensures v !in r
    ensures forall x :: x != v ==> (x in r <==> x in xs)
    ensures IsSubseq(r, xs)
    ensures forall x :: multiset(r)[x] == if x == v then 0 else multiset(xs)[x]
    ensures v !in xs ==> r == xs
  {
    FilterIsSubseq(xs, x => x != v);
    FilterMembers(xs, x => x != v);
    FilterCounts(xs, x => x != v);
    var r := Filter(xs, x => x != v);
    if v !in xs then
      FilterKeepsAll(xs, x => x != v);
      r
    else r
  }

  /** Removing an element that was just appended restores the list it was appended to. */
  lemma AppendThenRemove<T(!new)>(xs: seq<T>, v: T)
    requires v !in xs
    ensures RemoveAll(xs + [v], v) == xs
  {
    FilterAppend(xs, [v], x => x != v);
    FilterKeepsAll(xs, x => x != v);
  }

  /** Removal is idempotent. */
  lemma RemoveAllIdempotent<T(!new)>(xs: seq<T>, v: T)
    ensures RemoveAll(RemoveAll(xs, v), v) == RemoveAll(xs, v)
  {
  }

  predicate NoDuplicates<T(==)>(xs: seq<T>) {
    forall i, j :: 0 <= i < j < |xs| ==> xs[i] != xs[j]
  }

  lemma AppendFreshKeepsNoDuplicates<T>(xs: seq<T>, v: T)
    requires NoDuplicates(xs) && v !in xs
    ensures NoDuplicates(xs + [v])
  {
    var ys := xs + [v];
    forall i, j | 0 <= i < j < |ys|
      ensures ys[i] != ys[j]
    {
      if j == |xs| {
        assert ys[i] == xs[i];
      }
    }
  }

  /** A filter of a list without repeated elements has none either. */
  lemma {:induction false} FilterKeepsNoDuplicates<T(!new)>(xs: seq<T>, keep: T -> bool)
    requires NoDuplicates(xs)
    ensures NoDuplicates(Filter(xs, keep))
    decreases |xs|
  {
    if |xs| > 0 {
      var rest := xs[1..];
      assert NoDuplicates(rest) by {
        forall i, j | 0 <= i < j < |rest|
          ensures rest[i] != rest[j]
        {
          assert rest[i] == xs[i + 1] && rest[j] == xs[j + 1];
        }
      }
      FilterKeepsNoDuplicates(rest, keep);
      if keep(xs[0]) {
        FilterMembers(rest, keep);
        assert xs[0] !in rest by {
          forall j | 0 <= j < |rest|
            ensures rest[j] != xs[0]
          {
            assert rest[j] == xs[j + 1];
          }
        }
        var tail := Filter(rest, keep);
        var r := [xs[0]] + tail;
        forall i, j | 0 <= i < j < |r|
          ensures r[i] != r[j]
        {
          if i == 0 {
            assert r[j] == tail[j - 1] && r[j] in tail;
          } else {
            assert r[i] == tail[i - 1] && r[j] == tail[j - 1];
          }
        }
      }
    }
  }

  /** Removal keeps a list free of repeats. */
  lemma RemoveAllKeepsNoDuplicates<T(!new)>(xs: seq<T>, v: T)
    requires NoDuplicates(xs)
    ensures NoDuplicates(RemoveAll(xs, v))
  {
    FilterKeepsNoDuplicates(xs, x => x != v);
  }

  /** `xs.map(f)`. */
  function Map<T, U>(xs: seq<T>, f: T -> U): (r: seq<U>)
    ensures |r| == |xs|
    ensures forall i :: 0 <= i < |xs| ==> r[i] == f(xs[i])
  {
    seq(|xs|, i requires 0 <= i < |xs| => f(xs[i]))
  }

  /** `xs.map(x => key(x) === key(v) ? v : x)`: the elements sharing `v`'s key are replaced by `v`. */
  function ReplaceMatching<T, K(==)>(xs: seq<T>, key: T -> K, v: T): (r: seq<T>)
    ensures |r| == |xs|
    ensures forall i :: 0 <= i < |xs| ==> key(r[i]) == key(xs[i])
    ensures forall i :: 0 <= i < |xs| && key(xs[i]) != key(v) ==> r[i] == xs[i]
    ensures forall i :: 0 <= i < |xs| && key(xs[i]) == key(v) ==> r[i] == v
  {
    seq(|xs|, i requires 0 <= i < |xs| => if key(xs[i]) == key(v) then v else xs[i])
  }

  /** Mapping after appending an element gives the old images followed by its image. */
  lemma MapOfAppend<T, U>(xs: seq<T>, f: T -> U, x: T)
    ensures Map(xs + [x], f) == Map(xs, f) + [f(x)]
  {
    var a := Map(xs + [x], f);
    var b := Map(xs, f) + [f(x)];
    forall i | 0 <= i < |a|
      ensures a[i] == b[i]
    {
      if i < |xs| {
        assert (xs + [x])[i] == xs[i];
      }
    }
  }

  /** Replacing by key leaves the sequence of keys untouched. */
  lemma ReplaceMatchingKeepsKeys<T, K>(xs: seq<T>, key: T -> K, v: T)
    ensures Map(ReplaceMatching(xs, key, v), key) == Map(xs, key)
  {
  }

  /** Replacing by key twice with the same value is replacing once. */
  lemma ReplaceMatchingIdempotent<T, K>(xs: seq<T>, key: T -> K, v: T)
    ensures ReplaceMatching(ReplaceMatching(xs, key, v), key, v) == ReplaceMatching(xs, key, v)
  {
  }

  /** `xs.filter(x => key(x) !== k)`: every element with key `k` removed, the others kept in order. */
  function RemoveMatching<T(==,!new), K(==)>(xs: seq<T>, key: T -> K, k: K): (r: seq<T>)
    ensures forall x :: x in r <==> x in xs && key(x) != k
    ensures forall i :: 0 <= i < |r| ==> key(r[i]) != k
    ensures IsSubseq(r, xs)
    ensures forall x :: multiset(r)[x] == if key(x) == k then 0 else multiset(xs)[x]
  {
    FilterIsSubseq(xs, x => key(x) != k);
    FilterMembers(xs, x => key(x) != k);
    FilterCounts(xs, x => key(x) != k);
    var r := Filter(xs, x => key(x) != k);
    assert forall i :: 0 <= i < |r| ==> r[i] in r;
    r
  }

  /** Every earlier element stands in relation `rel` to every later one. */
  predicate Pairwise<T>(xs: seq<T>, rel: (T, T) -> bool) {
    forall i, j :: 0 <= i < j < |xs| ==> rel(xs[i], xs[j])
  }

  /** A filter keeps every pairwise relation of its input (a sort order, say). */
  lemma {:induction false} FilterKeepsPairwise<T(!new)>(xs: seq<T>, keep: T -> bool, rel: (T, T) -> bool)
    requires Pairwise(xs, rel)
    ensures Pairwise(Filter(xs, keep), rel)
    decreases |xs|
  {
    if |xs| > 0 {
      var rest := xs[1..];
      assert Pairwise(rest, rel) by {
        forall i, j | 0 <= i < j < |rest|
          ensures rel(rest[i], rest[j])
        {
          assert rest[i] == xs[i + 1] && rest[j] == xs[j + 1];
        }
      }
      FilterKeepsPairwise(rest, keep, rel);
      if keep(xs[0]) {
        FilterMembers(rest, keep);
        var tail := Filter(rest, keep);
        var r := [xs[0]] + tail;
        forall i, j | 0 <= i < j < |r|
          ensures rel(r[i], r[j])
        {
          if i == 0 {
            assert r[j] == tail[j - 1] && r[j] in tail;
            var m :| 0 <= m < |rest| && rest[m] == r[j];
            assert xs[m + 1] == r[j];
          } else {
            assert r[i] == tail[i - 1] && r[j] == tail[j - 1];
          }
        }
      }
    }
  }

  /** Removing by key keeps every pairwise relation of the list. */
  lemma RemoveMatchingKeepsPairwise<T(!new), K>(xs: seq<T>, key: T -> K, k: K, rel: (T, T) -> bool)
    requires Pairwise(xs, rel)
    ensures Pairwise(RemoveMatching(xs, key, k), rel)
  {
    FilterKeepsPairwise(xs, x => key(x) != k, rel);
  }

  /** A contiguous run of a list is an order-preserving part of it. */
  lemma {:induction false} RunIsSubseq<T>(xs: seq<T>, s: nat, e: nat)
    requires s <= e <= |xs|
    ensures IsSubseq(xs[s..e], xs)
    decreases |xs|
  {
    if s > 0 {
      RunIsSubseq(xs[1..], s - 1, e - 1);
      assert xs[1..][s - 1..e - 1] == xs[s..e];
    } else if e > 0 {
      RunIsSubseq(xs[1..], 0, e - 1);
      assert xs[1..][0..e - 1] == xs[0..e][1..];
    }
  }

  lemma {:induction false} SubseqMembers<T>(a: seq<T>, b: seq<T>)
    requires IsSubseq(a, b)
    ensures forall x :: x in a ==> x in b
    decreases |b|
  {
    if |a| > 0 {
      if a[0] == b[0] && IsSubseq(a[1..], b[1..]) {
        SubseqMembers(a[1..], b[1..]);
        assert forall x :: x in a ==> x == a[0] || x in a[1..];
      } else {
        SubseqMembers(a, b[1..]);
      }
    }
  }

  /** A subsequence of a subsequence is a subsequence. */
  lemma {:induction false} SubseqTrans<T>(a: seq<T>, b: seq<T>, c: seq<T>)
    requires IsSubseq(a, b) && IsSubseq(b, c)
    ensures IsSubseq(a, c)
    decreases |c|
  {
    if |a| > 0 {
      if b[0] == c[0] && IsSubseq(b[1..], c[1..]) {
        if a[0] == b[0] && IsSubseq(a[1..], b[1..]) {
          SubseqTrans(a[1..], b[1..], c[1..]);
        } else {
          SubseqTrans(a, b[1..], c[1..]);
        }
      } else {
        SubseqTrans(a, b, c[1..]);
      }
    }
  }
}
