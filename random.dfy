/** The three calls into Python's `random` module. Only their contracts are
    modelled: each call may return any value its contract allows, so whatever is
    proved about a caller holds for every outcome of the random draws. */
module Random {
  import opened Wrappers

  /** `random.shuffle`: some rearrangement of the same entries. */
  method Shuffle<T(==)>(xs: seq<T>) returns (ys: seq<T>)
    ensures multiset(ys) == multiset(xs)
  {
    ys :| multiset(ys) == multiset(xs);
  }

  /** `random.sample(population, k)`: k entries drawn from distinct positions of
      the population; `None` is the ValueError raised when k exceeds its size. */
  method Sample<T(==)>(population: seq<T>, k: nat) returns (r: Option<seq<T>>)
    ensures r.None? <==> k > |population|
    ensures r.Some? ==> |r.value| == k && multiset(r.value) <= multiset(population)
  {
    if k > |population| {
      return None;
    }
    assert population == population[..k] + population[k..];
    assert |population[..k]| == k && multiset(population[..k]) <= multiset(population);
    var s :| |s| == k && multiset(s) <= multiset(population);
    r := Some(s);
  }

  /** `random.choices(population, k=k)`: k independent draws with replacement;
      `None` is the IndexError raised when a draw is asked of an empty population. */
  method Choices<T(==)>(population: seq<T>, k: nat) returns (r: Option<seq<T>>)
    ensures r.None? <==> population == [] && k > 0
    ensures r.Some? ==> |r.value| == k && forall x :: x in r.value ==> x in population
  {
    if k == 0 {
      return Some([]);
    }
    if population == [] {
      return None;
    }
    var w := seq(k, _ => population[0]);
    assert |w| == k && forall x :: x in w ==> x in population;
    var s :| |s| == k && forall x :: x in s ==> x in population;
    r := Some(s);
  }
}
