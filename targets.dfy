/** Choosing targets: the shuffled player list rotated left by one, so that
    every player hunts the one after them and the last hunts the first. */
module Targets {
  import opened Seqs

  /** The players from the second on, then the first; undefined on an empty
      list, which the caller reports before getting here. */
  function RotateLeft<T>(s: seq<T>): (r: seq<T>)
    requires |s| > 0
    ensures |r| == |s|
    ensures forall i :: 0 <= i < |s| ==> r[i] == s[(i + 1) % |s|]
  {
    s[1..] + [s[0]]
  }

  /** Every player is the target of exactly one player. */
  lemma RotatePermutation<T>(s: seq<T>)
    requires |s| > 0
    ensures multiset(RotateLeft(s)) == multiset(s)
  {
    assert s == [s[0]] + s[1..];
  }

  /** With two or more distinct players nobody is their own target. */
  lemma RotateNoFixedPoint<T>(s: seq<T>)
    requires |s| >= 2 && Distinct(s)
    ensures forall i :: 0 <= i < |s| ==> RotateLeft(s)[i] != s[i]
  {
    forall i | 0 <= i < |s| ensures RotateLeft(s)[i] != s[i] {
      var j := (i + 1) % |s|;
      assert j == if i + 1 < |s| then i + 1 else 0;
    }
  }

  /** A lone player is their own target: the source does not reject a game of one. */
  lemma RotateSingle<T>(s: seq<T>)
    requires |s| == 1
    ensures RotateLeft(s) == s
  {
  }
}
