/** Sorting with duplicates removed: `sort_unstable` followed by `dedup`. */
module SortedLists {
  import opened Outcomes

  predicate StrictlyIncreasing(ls: seq<nat>) {
    forall i, j :: 0 <= i < j < |ls| ==> ls[i] < ls[j]
  }

  function Top(ls: seq<nat>): nat { if ls == [] then 0 else ls[|ls| - 1] }

  function InsertSorted(ls: seq<nat>, x: nat): (r: seq<nat>)
    requires StrictlyIncreasing(ls)
    ensures StrictlyIncreasing(r)
    ensures r != [] && r[|r| - 1] == Max(Top(ls), x)
  {
    if ls == [] then [x]
    else
      var last := ls[|ls| - 1];
      if last < x then ls + [x]
      else if last == x then ls
      else InsertSorted(ls[..|ls| - 1], x) + [last]
  }

  function SortDedup(xs: seq<nat>): (r: seq<nat>)
    ensures StrictlyIncreasing(r)
  {
    if xs == [] then [] else InsertSorted(SortDedup(xs[..|xs| - 1]), xs[|xs| - 1])
  }

  lemma {:induction false} InsertSortedMeans(ls: seq<nat>, x: nat, y: nat)
    requires StrictlyIncreasing(ls)
    ensures y in InsertSorted(ls, x) <==> y == x || y in ls
  {
    if ls != [] {
      assert ls == ls[..|ls| - 1] + [ls[|ls| - 1]];
      InsertSortedMeans(ls[..|ls| - 1], x, y);
    }
  }

  /** Sorting keeps exactly the values it was given. */
  lemma {:induction false} SortDedupMeans(xs: seq<nat>, y: nat)
    ensures y in SortDedup(xs) <==> y in xs
  {
    if xs != [] {
      assert xs == xs[..|xs| - 1] + [xs[|xs| - 1]];
      SortDedupMeans(xs[..|xs| - 1], y);
      InsertSortedMeans(SortDedup(xs[..|xs| - 1]), xs[|xs| - 1], y);
    }
  }
}
