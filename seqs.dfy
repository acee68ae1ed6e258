/** Sequence vocabulary shared by the other modules: ranges, element-wise maps,
    sortedness and distinctness, with the facts about permutations they need. */
module Seqs {

  /** The integers 0 .. n-1 in increasing order. */
  function Range(n: nat): (r: seq<nat>)
    ensures |r| == n
    ensures forall i :: 0 <= i < n ==> r[i] == i
  {
    seq(n, i => i)
  }

  /** Applies `f` to every element, keeping the order. */
  function MapSeq<A, B>(f: A -> B, s: seq<A>): (r: seq<B>)
    ensures |r| == |s|
    ensures forall k :: 0 <= k < |s| ==> r[k] == f(s[k])
  {
    seq(|s|, k requires 0 <= k < |s| => f(s[k]))
  }

  ghost predicate Sorted(s: seq<int>) {
    forall i, j :: 0 <= i < j < |s| ==> s[i] <= s[j]
  }

  ghost predicate Distinct<T>(s: seq<T>) {
    forall i, j :: 0 <= i < j < |s| ==> s[i] != s[j]
  }

  lemma RemoveAt<T>(t: seq<T>, i: nat)
    requires i < |t|
    ensures multiset(t[..i] + t[i + 1..]) == multiset(t) - multiset{t[i]}
  {
    assert t == t[..i] + [t[i]] + t[i + 1..];
  }

  lemma MapRemoveAt<A, B>(f: A -> B, t: seq<A>, i: nat)
    requires i < |t|
    ensures MapSeq(f, t[..i] + t[i + 1..]) == MapSeq(f, t)[..i] + MapSeq(f, t)[i + 1..]
  {
    var l := MapSeq(f, t[..i] + t[i + 1..]);
    var r := MapSeq(f, t)[..i] + MapSeq(f, t)[i + 1..];
    assert |l| == |r|;
    forall k | 0 <= k < |l| ensures l[k] == r[k] {
      if k < i { assert (t[..i] + t[i + 1..])[k] == t[k]; }
      else { assert (t[..i] + t[i + 1..])[k] == t[k + 1]; }
    }
  }

  lemma TakeSnoc<T>(s: seq<T>, i: nat)
    requires i < |s|
    ensures s[..i + 1] == s[..i] + [s[i]]
  {
  }

  lemma SplitLast<T>(s: seq<T>)
    requires s != []
    ensures s == s[..|s| - 1] + [s[|s| - 1]]
  {
  }

  lemma RemoveHead<T>(t: seq<T>)
    requires t != []
    ensures multiset(t[1..]) == multiset(t) - multiset{t[0]}
  {
    assert t == [t[0]] + t[1..];
  }

  lemma AddBack<T>(m: multiset<T>, y: T)
    requires y in m
    ensures (m - multiset{y}) + multiset{y} == m
  {
  }

  /** Putting one argument back puts its image back. */
  lemma MapPermutationStep<A, B>(f: A -> B, s: seq<A>, t: seq<A>, i: nat)
    requires s != [] && i < |t| && t[i] == s[0]
    requires multiset(MapSeq(f, s[1..])) == multiset(MapSeq(f, t[..i] + t[i + 1..]))
    ensures multiset(MapSeq(f, s)) == multiset(MapSeq(f, t))
  {
    var ft, fs := MapSeq(f, t), MapSeq(f, s);
    RemoveAt(ft, i);
    MapRemoveAt(f, t, i);
    RemoveHead(fs);
    assert MapSeq(f, s[1..]) == fs[1..];
    AddBack(multiset(fs), fs[0]);
    AddBack(multiset(ft), ft[i]);
  }

  /** Mapping commutes with permutation: the multiset of the images depends only
      on the multiset of the arguments. */
  lemma {:induction false} MapPermutation<A, B>(f: A -> B, s: seq<A>, t: seq<A>)
    requires multiset(s) == multiset(t)
    ensures multiset(MapSeq(f, s)) == multiset(MapSeq(f, t))
    decreases |s|
  {
    if s == [] {
      assert |multiset(t)| == 0;
    } else {
      assert s[0] in multiset(t);
      var i :| 0 <= i < |t| && t[i] == s[0];
      RemoveAt(t, i);
      RemoveHead(s);
      MapPermutation(f, s[1..], t[..i] + t[i + 1..]);
      MapPermutationStep(f, s, t, i);
    }
  }

  /** A sorted arrangement of a multiset is unique. */
  lemma {:induction false} SortedUnique(a: seq<int>, b: seq<int>)
    requires Sorted(a) && Sorted(b)
    requires multiset(a) == multiset(b)
    ensures a == b
    decreases |a|
  {
    assert |a| == |multiset(a)| == |multiset(b)| == |b|;
    if a != [] {
      assert a[0] in multiset(b);
      var j :| 0 <= j < |b| && b[j] == a[0];
      assert b[0] in multiset(a);
      var i :| 0 <= i < |a| && a[i] == b[0];
      assert a[0] <= a[i] && b[0] <= b[j];
      assert a[0] == b[0];
      RemoveHead(a);
      RemoveHead(b);
      SortedTail(a);
      SortedTail(b);
      SortedUnique(a[1..], b[1..]);
    }
  }

  lemma SortedTail(s: seq<int>)
    requires Sorted(s) && s != []
    ensures Sorted(s[1..])
  {
  }

  /** The only sorted arrangement of 0 .. n-1 is 0 .. n-1 itself. */
  lemma SortedPermutationOfRange(s: seq<int>, n: nat)
    requires Sorted(s)
    requires multiset(s) == multiset(Range(n))
    ensures forall k :: 0 <= k < |s| ==> s[k] == k
  {
    SortedUnique(s, Range(n));
  }

  /** In a sequence without repeats every element occurs once. */
  lemma {:induction false} DistinctCounts<T>(s: seq<T>)
    requires Distinct(s)
    ensures forall x :: multiset(s)[x] <= 1
  {
    if s != [] {
      DistinctCounts(s[1..]);
      assert s == [s[0]] + s[1..];
      assert s[0] !in s[1..];
      forall x ensures multiset(s)[x] <= 1 {
        assert multiset(s)[x] == multiset{s[0]}[x] + multiset(s[1..])[x];
      }
    }
  }

  lemma RepeatCounts<T>(s: seq<T>, i: nat, j: nat)
    requires i < j < |s| && s[i] == s[j]
    ensures multiset(s)[s[i]] >= 2
  {
    assert s == s[..j] + [s[j]] + s[j + 1..];
    assert s[i] in s[..j];
  }

  /** Having no repeats survives any rearrangement. */
  lemma DistinctPermutation<T>(s: seq<T>, t: seq<T>)
    requires multiset(s) == multiset(t) && Distinct(s)
    ensures Distinct(t)
  {
    DistinctCounts(s);
    forall i, j | 0 <= i < j < |t| ensures t[i] != t[j] {
      if t[i] == t[j] {
        RepeatCounts(t, i, j);
      }
    }
  }
}
