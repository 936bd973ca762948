/** Sequence operations behind the store queries: `find(filter)`, `limit`,
    `sort({key: -1})`, and the fact that a filter keeps order. */
module Seqs {
  import opened Wrappers

  /** `s.filter(f)`, or a store `find` with predicate `f`. */
  function Filter<T>(s: seq<T>, f: T -> bool): (r: seq<T>)
    ensures |r| <= |s|
    ensures forall i :: 0 <= i < |r| ==> r[i] in s && f(r[i])
    ensures forall i :: 0 <= i < |s| && f(s[i]) ==> s[i] in r
    decreases |s|
  {
    if s == [] then []
    else (if f(s[0]) then [s[0]] else []) + Filter(s[1..], f)
  }

  /** `countDocuments(filter)`. */
  function Count<T>(s: seq<T>, f: T -> bool): nat {
    |Filter(s, f)|
  }

  /** The elements that pass and the elements that fail a test add up to the whole. */
  lemma {:induction false} FilterSplitsCount<T>(s: seq<T>, f: T -> bool, g: T -> bool)
    requires forall x :: g(x) == !f(x)
    ensures |Filter(s, f)| + |Filter(s, g)| == |s|
    decreases |s|
  {
    if s != [] {
      FilterSplitsCount(s[1..], f, g);
    }
  }

  /** Two tests no element passes at once count at most the whole. */
  lemma {:induction false} DisjointCounts<T>(s: seq<T>, f: T -> bool, g: T -> bool)
    requires forall x :: !(f(x) && g(x))
    ensures |Filter(s, f)| + |Filter(s, g)| <= |s|
    decreases |s|
  {
    if s != [] {
      DisjointCounts(s[1..], f, g);
    }
  }

  /** `a` is `b` with some elements left out and the rest in their order. */
  predicate IsSubseq<T(==)>(a: seq<T>, b: seq<T>)
    decreases |b|
  {
    if a == [] then true
    else if b == [] then false
    else if a[0] == b[0] then IsSubseq(a[1..], b[1..])
    else IsSubseq(a, b[1..])
  }

  lemma {:induction false} SubseqOfSelf<T>(b: seq<T>)
    ensures IsSubseq(b, b)
    decreases |b|
  {
    if b != [] {
      SubseqOfSelf(b[1..]);
    }
  }

  lemma {:induction false} SubseqSkip<T>(a: seq<T>, b: seq<T>)
    requires b != [] && IsSubseq(a, b[1..])
    ensures IsSubseq(a, b)
    decreases |b|, |a|
  {
    if a != [] && a[0] == b[0] {
      SubseqTail(a, b[1..]);
    }
  }

  lemma {:induction false} SubseqTail<T>(a: seq<T>, b: seq<T>)
    requires a != [] && IsSubseq(a, b)
    ensures IsSubseq(a[1..], b)
    decreases |b|, |a|
  {
    if a[0] == b[0] {
      if a[1..] != [] {
        SubseqSkip(a[1..], b);
      }
    } else {
      SubseqTail(a, b[1..]);
      if a[1..] != [] {
        SubseqSkip(a[1..], b);
      }
    }
  }

  /** Subsequences put side by side make a subsequence of the two wholes. */
  lemma {:induction false} SubseqConcat<T>(a1: seq<T>, b1: seq<T>, a2: seq<T>, b2: seq<T>)
    requires IsSubseq(a1, b1) && IsSubseq(a2, b2)
    ensures IsSubseq(a1 + a2, b1 + b2)
    decreases |b1|
  {
    if b1 == [] {
      assert a1 == [];
      assert a1 + a2 == a2 && b1 + b2 == b2;
    } else {
      assert (b1 + b2)[1..] == b1[1..] + b2;
      if a1 != [] && a1[0] == b1[0] {
        SubseqConcat(a1[1..], b1[1..], a2, b2);
        assert (a1 + a2)[1..] == a1[1..] + a2;
      } else {
        SubseqConcat(a1, b1[1..], a2, b2);
        if a1 + a2 != [] {
          SubseqSkip(a1 + a2, b1 + b2);
        }
      }
    }
  }

  /** A filter keeps the order of what it keeps. */
  lemma {:induction false} FilterIsSubseq<T>(s: seq<T>, f: T -> bool)
    ensures IsSubseq(Filter(s, f), s)
    decreases |s|
  {
    if s != [] {
      FilterIsSubseq(s[1..], f);
      var r := Filter(s[1..], f);
      if f(s[0]) {
        assert Filter(s, f) == [s[0]] + r;
        assert (Filter(s, f))[1..] == r;
      } else {
        assert Filter(s, f) == r;
        if r != [] {
          SubseqSkip(r, s);
        }
      }
    }
  }

  /** `.limit(n)`: the first `n` elements, or all when there are fewer. */
  function Take<T>(s: seq<T>, n: nat): (r: seq<T>)
    ensures |r| == if n <= |s| then n else |s|
    ensures r == s[..|r|]
  {
    if n <= |s| then s[..n] else s
  }

  predicate SortedDesc<T>(s: seq<T>, key: T -> int) {
    forall i, j :: 0 <= i < j < |s| ==> key(s[i]) >= key(s[j])
  }

  /** An element no smaller than the head of a sorted sequence can go in front. */
  lemma SortedCons<T>(y: T, t: seq<T>, key: T -> int)
    requires SortedDesc(t, key) && (t == [] || key(y) >= key(t[0]))
    ensures SortedDesc([y] + t, key)
  {
    var r := [y] + t;
    forall i, j | 0 <= i < j < |r| ensures key(r[i]) >= key(r[j]) {
      assert r[j] == t[j - 1];
      if i > 0 {
        assert r[i] == t[i - 1];
      }
    }
  }

  /** Inserts `x` before the first element whose key is not larger, so that
      among equal keys the earlier element stays first. */
  function InsertDesc<T>(x: T, s: seq<T>, key: T -> int): (r: seq<T>)
    requires SortedDesc(s, key)
    ensures |r| == |s| + 1
    ensures multiset(r) == multiset(s) + multiset{x}
    ensures SortedDesc(r, key)
    ensures r[0] == x || (s != [] && r[0] == s[0])
    decreases |s|
  {
    if s == [] || key(s[0]) <= key(x) then
      SortedCons(x, s, key);
      [x] + s
    else
      var rest := InsertDesc(x, s[1..], key);
      assert s == [s[0]] + s[1..];
      SortedCons(s[0], rest, key);
      assert multiset([s[0]] + rest) == multiset{s[0]} + multiset(rest);
      [s[0]] + rest
  }

  /** `.sort({key: -1})`: a permutation of `s`, ordered by non-increasing key
      (stable: equal keys keep their store order). */
  function SortDesc<T>(s: seq<T>, key: T -> int): (r: seq<T>)
    ensures |r| == |s|
    ensures multiset(r) == multiset(s)
    ensures SortedDesc(r, key)
    decreases |s|
  {
    if s == [] then []
    else
      assert s == [s[0]] + s[1..];
      InsertDesc(s[0], SortDesc(s[1..], key), key)
  }

  lemma SortedPrefix<T>(s: seq<T>, key: T -> int, n: nat)
    requires SortedDesc(s, key) && n <= |s|
    ensures SortedDesc(s[..n], key)
  {
  }

  lemma MultisetMember<T>(s: seq<T>, t: seq<T>, x: T)
    requires multiset(s) == multiset(t)
    ensures x in s <==> x in t
  {
    assert x in s <==> x in multiset(s);
    assert x in t <==> x in multiset(t);
  }

  /** `s.find(p)`: the first element that passes, or `None` when none does. */
  function Find<T>(s: seq<T>, p: T -> bool): (r: Option<T>)
    ensures r.None? <==> forall i :: 0 <= i < |s| ==> !p(s[i])
    ensures r.Some? ==> exists i :: 0 <= i < |s| && s[i] == r.value && p(s[i]) &&
                                    forall j :: 0 <= j < i ==> !p(s[j])
    decreases |s|
  {
    if s == [] then None
    else if p(s[0]) then Some(s[0])
    else
      var r := Find(s[1..], p);
      assert r.Some? ==> exists i :: 0 <= i < |s| && s[i] == r.value && p(s[i]) &&
                                     forall j :: 0 <= j < i ==> !p(s[j]) by {
        if r.Some? {
          var i :| 0 <= i < |s[1..]| && s[1..][i] == r.value && p(s[1..][i]) &&
                   forall j :: 0 <= j < i ==> !p(s[1..][j]);
          assert s[i + 1] == r.value;
          assert forall j :: 0 <= j < i + 1 ==> !p(s[j]) by {
            forall j | 0 <= j < i + 1 ensures !p(s[j]) {
              if j > 0 { assert s[j] == s[1..][j - 1]; }
            }
          }
        }
      }
      r
  }

  /** The element `find` returns is the first one that passes. */
  lemma FindIsFirst<T>(s: seq<T>, p: T -> bool, i: int)
    requires 0 <= i < |s| && p(s[i]) && forall j :: 0 <= j < i ==> !p(s[j])
    ensures Find(s, p) == Some(s[i])
  {
    var k :| 0 <= k < |s| && s[k] == Find(s, p).value && p(s[k]) && forall j :: 0 <= j < k ==> !p(s[j]);
    assert k == i;
  }

  /** Narrowing a collection to a subset that keeps every element `p` accepts
      does not change what `find(p)` returns: a prefetch of the referenced
      records followed by a `find` is a `find` over the whole collection. */
  lemma {:induction false} FindAfterFilter<T>(s: seq<T>, f: T -> bool, p: T -> bool)
    requires forall i :: 0 <= i < |s| && p(s[i]) ==> f(s[i])
    ensures Find(Filter(s, f), p) == Find(s, p)
    decreases |s|
  {
    if s != [] {
      FindAfterFilter(s[1..], f, p);
      if f(s[0]) {
        assert Filter(s, f) == [s[0]] + Filter(s[1..], f);
        assert (Filter(s, f))[1..] == Filter(s[1..], f);
      } else {
        assert Filter(s, f) == Filter(s[1..], f);
      }
    }
  }

  /** Two tests that agree on every element select the same elements. */
  lemma {:induction false} FilterEquiv<T>(s: seq<T>, f: T -> bool, g: T -> bool)
    requires forall i :: 0 <= i < |s| ==> f(s[i]) == g(s[i])
    ensures Filter(s, f) == Filter(s, g)
    decreases |s|
  {
    if s != [] {
      FilterEquiv(s[1..], f, g);
    }
  }

  /** What a sorted selection holds was in the collection and passed the test. */
  lemma SortedFilterMember<T>(s: seq<T>, f: T -> bool, key: T -> int, x: T)
    requires x in SortDesc(Filter(s, f), key)
    ensures x in s && f(x)
  {
    var m := SortDesc(Filter(s, f), key);
    assert x in multiset(m);
    MultisetMember(m, Filter(s, f), x);
    var i :| 0 <= i < |Filter(s, f)| && Filter(s, f)[i] == x;
  }

  /** A filter that every element passes keeps the whole sequence. */
  lemma {:induction false} FilterAll<T>(s: seq<T>, f: T -> bool)
    requires forall i :: 0 <= i < |s| ==> f(s[i])
    ensures Filter(s, f) == s
    decreases |s|
  {
    if s != [] {
      FilterAll(s[1..], f);
      assert s == [s[0]] + s[1..];
    }
  }

  /** Sorting only looks at the keys of the elements being sorted. */
  lemma {:induction false} InsertDescEquiv<T>(x: T, s: seq<T>, key: T -> int, key': T -> int)
    requires SortedDesc(s, key) && SortedDesc(s, key')
    requires key(x) == key'(x) && forall i :: 0 <= i < |s| ==> key(s[i]) == key'(s[i])
    ensures InsertDesc(x, s, key) == InsertDesc(x, s, key')
    decreases |s|
  {
    if s != [] && key(s[0]) > key(x) {
      InsertDescEquiv(x, s[1..], key, key');
    }
  }

  lemma {:induction false} SortDescEquiv<T>(s: seq<T>, key: T -> int, key': T -> int)
    requires forall i :: 0 <= i < |s| ==> key(s[i]) == key'(s[i])
    ensures SortDesc(s, key) == SortDesc(s, key')
    decreases |s|
  {
    if s != [] {
      SortDescEquiv(s[1..], key, key');
      var r := SortDesc(s[1..], key);
      assert forall i :: 0 <= i < |r| ==> key(r[i]) == key'(r[i]) by {
        forall i | 0 <= i < |r| ensures key(r[i]) == key'(r[i]) {
          assert r[i] in multiset(r);
          MultisetMember(r, s[1..], r[i]);
        }
      }
      InsertDescEquiv(s[0], r, key, key');
    }
  }
  /** The first `n` of a descending sort are the best `n`: an element left
      out means `n` were kept, and its key is no larger than the last kept. */
  lemma TopBest<T>(s: seq<T>, key: T -> int, n: nat, x: T)
    requires x in s && x !in Take(SortDesc(s, key), n)
    ensures |Take(SortDesc(s, key), n)| == n
    ensures n > 0 ==> key(x) <= key(Take(SortDesc(s, key), n)[n - 1])
  {
    var sorted := SortDesc(s, key);
    var r := Take(sorted, n);
    assert x in multiset(sorted);
    var k :| 0 <= k < |sorted| && sorted[k] == x;
    assert |r| <= k;
    if n > 0 {
      assert r[n - 1] == sorted[n - 1];
    }
  }
}
