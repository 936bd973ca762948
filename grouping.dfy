/** A `$group` stage that counts: one group per distinct key, in the order in
    which the keys first occur, each with the number of its occurrences. */
module Grouping {
  import Seqs

  datatype Group<K> = Group(key: K, count: nat)

  /** How often `k` occurs in `xs`. */
  function Occurrences<K(==)>(xs: seq<K>, k: K): (n: nat)
    ensures n <= |xs|
    ensures n == 0 <==> k !in xs
    decreases |xs|
  {
    if xs == [] then 0
    else
      var init := xs[..|xs| - 1];
      assert xs == init + [xs[|xs| - 1]];
      Occurrences(init, k) + (if xs[|xs| - 1] == k then 1 else 0)
  }

  lemma OccurrencesSnoc<K>(xs: seq<K>, x: K, k: K)
    ensures Occurrences(xs + [x], k) == Occurrences(xs, k) + (if x == k then 1 else 0)
  {
    assert (xs + [x])[..|xs|] == xs;
  }

  predicate Distinct<K(==)>(ks: seq<K>) {
    forall i, j :: 0 <= i < j < |ks| ==> ks[i] != ks[j]
  }

  /** The keys of `xs` without repetition, in order of first occurrence. */
  function DistinctKeys<K(==)>(xs: seq<K>): (ks: seq<K>)
    ensures Distinct(ks)
    ensures forall i :: 0 <= i < |ks| ==> ks[i] in xs
    ensures forall i :: 0 <= i < |xs| ==> xs[i] in ks
    decreases |xs|
  {
    if xs == [] then []
    else
      var init := xs[..|xs| - 1];
      var x := xs[|xs| - 1];
      assert xs == init + [x];
      var ks := DistinctKeys(init);
      if x in ks then ks else ks + [x]
  }

  /** The group of every key of `ks`, counted over `xs`. */
  function Tally<K(==)>(ks: seq<K>, xs: seq<K>): (gs: seq<Group<K>>)
    ensures |gs| == |ks|
    ensures forall i :: 0 <= i < |ks| ==> gs[i] == Group(ks[i], Occurrences(xs, ks[i]))
    decreases |ks|
  {
    if ks == [] then []
    else
      var k := ks[|ks| - 1];
      Tally(ks[..|ks| - 1], xs) + [Group(k, Occurrences(xs, k))]
  }

  function Total<K>(gs: seq<Group<K>>): nat
    decreases |gs|
  {
    if gs == [] then 0 else Total(gs[..|gs| - 1]) + gs[|gs| - 1].count
  }

  /** A group-and-count stage over the keys `xs`: one group per key, with the
      number of its occurrences. */
  function GroupCount<K(==)>(xs: seq<K>): (gs: seq<Group<K>>)
  {
    Tally(DistinctKeys(xs), xs)
  }

  /** Each key of the input appears in exactly one group, no group is empty
      and each count is the number of occurrences of its key. */
  lemma GroupCountGroups<K>(xs: seq<K>)
    ensures var gs := GroupCount(xs);
      (forall i, j :: 0 <= i < j < |gs| ==> gs[i].key != gs[j].key) &&
      (forall i :: 0 <= i < |gs| ==> gs[i].key in xs && gs[i].count == Occurrences(xs, gs[i].key) > 0) &&
      (forall i :: 0 <= i < |xs| ==> exists j :: 0 <= j < |gs| && gs[j].key == xs[i])
  {
    var ks := DistinctKeys(xs);
    var gs := GroupCount(xs);
    forall i | 0 <= i < |xs| ensures exists j :: 0 <= j < |gs| && gs[j].key == xs[i] {
      var j :| 0 <= j < |ks| && ks[j] == xs[i];
      assert gs[j].key == xs[i];
    }
  }

  /** Adding one occurrence of `x` to the counted keys adds one to the group of `x`. */
  lemma {:induction false} TallySnoc<K>(ks: seq<K>, xs: seq<K>, x: K)
    ensures Total(Tally(ks, xs + [x])) == Total(Tally(ks, xs)) + Occurrences(ks, x)
    decreases |ks|
  {
    if ks != [] {
      var init := ks[..|ks| - 1];
      var k := ks[|ks| - 1];
      TallySnoc(init, xs, x);
      OccurrencesSnoc(xs, x, k);
      assert ks == init + [k];
      OccurrencesSnoc(init, k, x);
      var a := Tally(ks, xs + [x]);
      var b := Tally(ks, xs);
      assert a[..|a| - 1] == Tally(init, xs + [x]);
      assert b[..|b| - 1] == Tally(init, xs);
    }
  }

  lemma {:induction false} TallyAppend<K>(ks: seq<K>, k: K, xs: seq<K>)
    ensures Total(Tally(ks + [k], xs)) == Total(Tally(ks, xs)) + Occurrences(xs, k)
  {
    var a := Tally(ks + [k], xs);
    assert (ks + [k])[..|ks|] == ks;
    assert a[..|a| - 1] == Tally(ks, xs);
  }

  lemma {:induction false} OccurrencesDistinct<K>(ks: seq<K>, x: K)
    requires Distinct(ks) && x in ks
    ensures Occurrences(ks, x) == 1
    decreases |ks|
  {
    var init := ks[..|ks| - 1];
    assert ks == init + [ks[|ks| - 1]];
    OccurrencesSnoc(init, ks[|ks| - 1], x);
    if ks[|ks| - 1] != x {
      OccurrencesDistinct(init, x);
    } else {
      assert x !in init;
    }
  }

  /** The counts add up to the number of keys counted. */
  lemma {:induction false} GroupCountTotal<K>(xs: seq<K>)
    ensures Total(GroupCount(xs)) == |xs|
    decreases |xs|
  {
    if xs != [] {
      var init := xs[..|xs| - 1];
      var x := xs[|xs| - 1];
      assert xs == init + [x];
      GroupCountTotal(init);
      var ks := DistinctKeys(init);
      TallySnoc(ks, init, x);
      if x in ks {
        OccurrencesDistinct(ks, x);
      } else {
        TallyAppend(ks, x, xs);
        assert Occurrences(ks, x) == 0;
        assert x !in init;
        OccurrencesSnoc(init, x, x);
        TallySnoc(ks, init, x);
      }
    }
  }

  /** Filtering keeps a sequence duplicate-free. */
  lemma {:induction false} FilterDistinct<K>(s: seq<K>, f: K -> bool)
    requires Distinct(s)
    ensures Distinct(Seqs.Filter(s, f))
    decreases |s|
  {
    if s != [] {
      FilterDistinct(s[1..], f);
      var r := Seqs.Filter(s[1..], f);
      assert forall i :: 0 <= i < |r| ==> r[i] != s[0] by {
        forall i | 0 <= i < |r| ensures r[i] != s[0] {
          assert r[i] in s[1..];
        }
      }
    }
  }

  lemma TwiceInMultiset<K>(r: seq<K>, i: nat, j: nat)
    requires i < j < |r| && r[i] == r[j]
    ensures multiset(r)[r[i]] >= 2
  {
    var x := r[i];
    assert r == r[..i] + [x] + r[i + 1..j] + [x] + r[j + 1..];
  }

  lemma {:induction false} DistinctOnce<K>(s: seq<K>, x: K)
    requires Distinct(s)
    ensures multiset(s)[x] <= 1
    decreases |s|
  {
    if s != [] {
      DistinctOnce(s[1..], x);
      assert s == [s[0]] + s[1..];
      if s[0] == x {
        assert x !in s[1..];
      }
    }
  }

  /** A permutation of a duplicate-free sequence is duplicate-free. */
  lemma PermutationDistinct<K>(s: seq<K>, r: seq<K>)
    requires Distinct(s) && multiset(r) == multiset(s)
    ensures Distinct(r)
  {
    forall i, j | 0 <= i < j < |r| ensures r[i] != r[j] {
      if r[i] == r[j] {
        DistinctOnce(s, r[i]);
        TwiceInMultiset(r, i, j);
      }
    }
  }

  /** One more key: a new group at the end, or none when the key was seen. */
  lemma DistinctKeysSnoc<K>(xs: seq<K>, x: K)
    ensures DistinctKeys(xs + [x]) == if x in xs then DistinctKeys(xs) else DistinctKeys(xs) + [x]
  {
    assert (xs + [x])[..|xs|] == xs;
    var ks := DistinctKeys(xs);
    if x in xs {
      var i :| 0 <= i < |xs| && xs[i] == x;
      assert x in ks;
    }
  }
}
