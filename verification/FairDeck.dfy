/**
 `Deck::new` over a stream of 64-bit draws (engine/src/deck.rs): rejection sampling picks the
 choices, Fisher-Yates turns them into an order, and every order is equally likely.
 */
module FairDeck {
  import opened Outcomes
  import opened Decks

  // ---- Accepted draws ----

  /** The draws `rng_range(n)` accepts; for one position it draws nothing, written as zero. */
  ghost function Draws(n: nat): set<nat> { if n <= 1 then {0} else Upto(Threshold(n)) }

  /** The accepted draws that select choice `r`. */
  ghost function DrawsFor(n: nat, r: nat): set<nat>
    requires r < n
  {
    if n <= 1 then {0} else AcceptedWith(Threshold(n), n, r)
  }

  /** The choice each accepted draw makes. */
  function ChoicesOf(v: seq<nat>): (c: seq<nat>)
    ensures |c| == |v| && forall k :: 0 <= k < |v| ==> c[k] <= k
  {
    seq(|v|, k requires 0 <= k < |v| => v[k] % (k + 1))
  }

  ghost function Extend(vs: set<seq<nat>>, xs: set<nat>): set<seq<nat>> {
    set v, x | v in vs && x in xs :: v + [x]
  }

  /** Every vector of accepted draws for a deck of `n` cards. */
  ghost function Vectors(n: nat): set<seq<nat>> {
    if n == 0 then {[]} else Extend(Vectors(n - 1), Draws(n))
  }

  /** The vectors that make the choices `c`. */
  ghost function VectorsFor(c: seq<nat>): set<seq<nat>>
    requires forall k :: 0 <= k < |c| ==> c[k] <= k
  {
    if c == [] then {[]} else Extend(VectorsFor(c[..|c| - 1]), DrawsFor(|c|, c[|c| - 1]))
  }

  /** How many vectors each order has. */
  function Weight(n: nat): nat {
    if n <= 1 then 1 else Weight(n - 1) * (U64_MAX / n)
  }

  // ---- Counting ----

  lemma AppendOne(v: seq<nat>, xs: set<nat>, x: nat)
    requires x !in xs
    ensures Extend({v}, xs + {x}) == Extend({v}, xs) + {v + [x]} && v + [x] !in Extend({v}, xs)
  {
    forall y | y in xs ensures v + [y] != v + [x] { assert (v + [y])[|v|] != (v + [x])[|v|]; }
  }

  lemma {:induction false} AppendSize(v: seq<nat>, xs: set<nat>)
    ensures |Extend({v}, xs)| == |xs|
    decreases xs
  {
    if xs == {} {
      assert Extend({v}, xs) == {};
    } else {
      var x :| x in xs;
      AppendSize(v, xs - {x});
      AppendOne(v, xs - {x}, x);
      assert xs == xs - {x} + {x};
    }
  }

  lemma {:induction false} ExtendSize(vs: set<seq<nat>>, xs: set<nat>)
    ensures |Extend(vs, xs)| == |vs| * |xs|
    decreases vs
  {
    if vs == {} {
      assert Extend(vs, xs) == {};
    } else {
      var v :| v in vs;
      ExtendSize(vs - {v}, xs);
      OneMoreVector(vs - {v}, v, xs);
      assert vs - {v} + {v} == vs;
      OneMore(|vs - {v}|, |xs|);
    }
  }

  lemma OneMoreVector(vs: set<seq<nat>>, v: seq<nat>, xs: set<nat>)
    requires v !in vs
    ensures |Extend(vs + {v}, xs)| == |Extend(vs, xs)| + |xs|
  {
    ExtendUnion(vs, {v}, xs);
    ExtendApart(vs, v, xs);
    AppendSize(v, xs);
  }

  lemma OneMore(a: nat, b: nat)
    ensures (a + 1) * b == a * b + b
  {
  }

  lemma ExtendUnion(us: set<seq<nat>>, vs: set<seq<nat>>, xs: set<nat>)
    ensures Extend(us + vs, xs) == Extend(us, xs) + Extend(vs, xs)
  {
  }

  lemma ExtendApart(vs: set<seq<nat>>, v: seq<nat>, xs: set<nat>)
    requires v !in vs
    ensures Extend(vs, xs) !! Extend({v}, xs)
  {
    forall u, x, y | u in vs && x in xs && y in xs ensures u + [x] != v + [y] {
      assert (u + [x])[..|u|] == u;
      assert |u| == |v| ==> (v + [y])[..|u|] == v;
    }
  }

  lemma {:induction false} VectorsForSize(c: seq<nat>)
    requires forall k :: 0 <= k < |c| ==> c[k] <= k
    ensures |VectorsFor(c)| == Weight(|c|)
  {
    if c != [] {
      var front, n := c[..|c| - 1], |c|;
      VectorsForSize(front);
      ExtendSize(VectorsFor(front), DrawsFor(n, c[n - 1]));
      if 1 < n <= U64_MAX { NoModuloBias(n, c[n - 1]); } else if n > U64_MAX { NothingAccepted(n, c[n - 1]); }
    }
  }

  /** More positions than 64-bit values: nothing is accepted. */
  lemma NothingAccepted(n: nat, r: nat)
    requires n > U64_MAX
    ensures AcceptedWith(Threshold(n), n, r) == {} && U64_MAX / n == 0
  {
  }

  lemma SplitLast(v: seq<nat>)
    requires v != []
    ensures v == v[..|v| - 1] + [v[|v| - 1]] && ChoicesOf(v)[..|v| - 1] == ChoicesOf(v[..|v| - 1])
  {
  }

  /** The draws for a choice are the accepted draws that reduce to it. */
  lemma DrawsForMeans(n: nat, r: nat, x: nat)
    requires r < n
    ensures x in DrawsFor(n, r) <==> x in Draws(n) && x % n == r
  {
  }

  lemma ExtendMeans(vs: set<seq<nat>>, xs: set<nat>, v: seq<nat>)
    ensures v in Extend(vs, xs) <==> v != [] && v[..|v| - 1] in vs && v[|v| - 1] in xs
  {
    if v != [] { SplitLast(v); }
    forall u, x | u in vs && x in xs ensures (u + [x])[..|u|] == u && (u + [x])[|u|] == x { }
  }

  lemma VectorsLast(n: nat, v: seq<nat>)
    requires n > 0
    ensures v in Vectors(n) <==> v != [] && v[..|v| - 1] in Vectors(n - 1) && v[|v| - 1] in Draws(n)
  {
    ExtendMeans(Vectors(n - 1), Draws(n), v);
  }

  lemma VectorsForLast(c: seq<nat>, v: seq<nat>)
    requires c != [] && forall k :: 0 <= k < |c| ==> c[k] <= k
    ensures v in VectorsFor(c)
            <==> v != [] && v[..|v| - 1] in VectorsFor(c[..|c| - 1]) && v[|v| - 1] in DrawsFor(|c|, c[|c| - 1])
  {
    ExtendMeans(VectorsFor(c[..|c| - 1]), DrawsFor(|c|, c[|c| - 1]), v);
  }

  ghost predicate Drawn(v: seq<nat>, k: nat) { k < |v| && v[k] in Draws(k + 1) }

  ghost predicate DrawnFor(c: seq<nat>, v: seq<nat>, k: nat) { k < |v| && k < |c| && c[k] <= k && v[k] in DrawsFor(k + 1, c[k]) }

  /** The vectors hold one accepted draw per position. */
  lemma {:induction false} VectorsMeans(n: nat, v: seq<nat>)
    ensures v in Vectors(n) <==> |v| == n && forall k :: 0 <= k < n ==> Drawn(v, k)
  {
    if n > 0 {
      VectorsLast(n, v);
      if v != [] {
        var u := v[..|v| - 1];
        VectorsMeans(n - 1, u);
        if |v| == n {
          assert Drawn(v, n - 1) == (v[n - 1] in Draws(n));
          forall k | 0 <= k < n - 1 ensures Drawn(v, k) == Drawn(u, k) { assert u[k] == v[k]; }
        }
      }
    }
  }

  lemma {:induction false} VectorsForMeans(c: seq<nat>, v: seq<nat>)
    requires forall k :: 0 <= k < |c| ==> c[k] <= k
    ensures v in VectorsFor(c) <==> |v| == |c| && forall k :: 0 <= k < |c| ==> DrawnFor(c, v, k)
  {
    if c != [] {
      VectorsForLast(c, v);
      if v != [] {
        var n, u, d := |c|, v[..|v| - 1], c[..|c| - 1];
        VectorsForMeans(d, u);
        if |v| == n {
          assert DrawnFor(c, v, n - 1) == (v[n - 1] in DrawsFor(n, c[n - 1]));
          forall k | 0 <= k < n - 1 ensures DrawnFor(c, v, k) == DrawnFor(d, u, k) { assert u[k] == v[k] && d[k] == c[k]; }
        }
      }
    }
  }

  ghost predicate Chosen(c: seq<nat>, v: seq<nat>, k: nat) { k < |v| && k < |c| && v[k] % (k + 1) == c[k] }

  lemma DrawnForMeans(c: seq<nat>, v: seq<nat>, k: nat)
    requires k < |v| == |c| && c[k] <= k
    ensures DrawnFor(c, v, k) <==> Drawn(v, k) && Chosen(c, v, k)
  {
    DrawsForMeans(k + 1, c[k], v[k]);
  }

  lemma ChoicesMean(c: seq<nat>, v: seq<nat>)
    ensures ChoicesOf(v) == c <==> |c| == |v| && forall k :: 0 <= k < |c| ==> Chosen(c, v, k)
  {
    if |c| == |v| { forall k | 0 <= k < |c| ensures Chosen(c, v, k) <==> ChoicesOf(v)[k] == c[k] { } }
  }

  lemma VectorsForChoose(c: seq<nat>, v: seq<nat>)
    requires v in Vectors(|c|) && ChoicesOf(v) == c
    ensures v in VectorsFor(c)
  {
    VectorsMeans(|c|, v);
    ChoicesMean(c, v);
    VectorsForMeans(c, v);
    forall k | 0 <= k < |c| ensures DrawnFor(c, v, k) { DrawnForMeans(c, v, k); }
  }

  lemma ChosenVectors(c: seq<nat>, v: seq<nat>)
    requires (forall k :: 0 <= k < |c| ==> c[k] <= k) && v in VectorsFor(c)
    ensures v in Vectors(|c|) && ChoicesOf(v) == c
  {
    VectorsForMeans(c, v);
    forall k | 0 <= k < |c| ensures Drawn(v, k) && Chosen(c, v, k) { DrawnForMeans(c, v, k); }
    VectorsMeans(|c|, v);
    ChoicesMean(c, v);
  }

  // ---- Every order is equally likely ----

  /** The vectors of accepted draws that shuffle `deck` into `t`. */
  ghost function VectorsTo<T>(deck: seq<T>, t: seq<T>): set<seq<nat>> {
    set v | v in Vectors(|deck|) && |v| == |deck| && Shuffle(deck, ChoicesOf(v)) == t
  }

  /** The choices behind an order are the only ones: every vector that leads there makes them. */
  lemma VectorToIsFor<T(!new)>(deck: seq<T>, c: seq<nat>, v: seq<nat>)
    requires Distinct(deck) && Choices(c, |deck|) && v in VectorsTo(deck, Shuffle(deck, c))
    ensures v in VectorsFor(c)
  {
    assert Choices(ChoicesOf(v), |deck|);
    FisherYatesIsBijective(deck);
    VectorsForChoose(c, v);
  }

  /** Each order of a deck of distinct cards comes from the same number of accepted draw vectors. */
  lemma EveryOrderIsEquallyLikely<T(!new)>(deck: seq<T>, t: seq<T>)
    requires Distinct(deck) && Rearranges(deck, t)
    ensures |VectorsTo(deck, t)| == Weight(|deck|)
  {
    FisherYatesIsBijective(deck);
    var c :| Choices(c, |deck|) && Shuffle(deck, c) == t;
    forall v | v in VectorsTo(deck, t) ensures v in VectorsFor(c) { VectorToIsFor(deck, c, v); }
    forall v | v in VectorsFor(c) ensures v in VectorsTo(deck, t) { ChosenVectors(c, v); }
    assert VectorsTo(deck, t) == VectorsFor(c);
    VectorsForSize(c);
  }

  /** Where the first draw accepted by `rng_range(n)` is, from position `from` of the stream on. */
  ghost function FirstAccepted(stream: seq<nat>, from: nat, n: nat): (o: Option<nat>)
    requires n > 0 && from <= |stream|
    ensures o.Some? ==> from <= o.value < |stream| && stream[o.value] < Threshold(n)
    decreases |stream| - from
  {
    if from == |stream| then None
    else if stream[from] < Threshold(n) then Some(from)
    else FirstAccepted(stream, from + 1, n)
  }

  lemma {:induction false} RejectedBefore(stream: seq<nat>, from: nat, n: nat, k: nat)
    requires n > 0 && from <= k < |stream|
    requires FirstAccepted(stream, from, n).Some? ==> k < FirstAccepted(stream, from, n).value
    ensures stream[k] >= Threshold(n)
    decreases |stream| - from
  {
    if from < k { RejectedBefore(stream, from + 1, n, k); }
  }

  /** The first accepted draw for each position from `i` down to 1, and where the stream is left. */
  ghost function Take(stream: seq<nat>, from: nat, i: nat, v: seq<nat>): Option<(seq<nat>, nat)>
    requires (i < |v| || i == 0) && from <= |stream|
    decreases i
  {
    if i == 0 then Some((v, from))
    else
      match FirstAccepted(stream, from, i + 1)
      case None => None
      case Some(k) => Take(stream, k + 1, i - 1, v[i := stream[k]])
  }

  /**
   The loop of `Deck::new` on the draws of its generator: one accepted draw per position, the
   rejected ones skipped, and the shuffle those draws select. `None` when the draws run out.
   */
  method NewFrom<T>(a: array<T>, stream: seq<nat>) returns (used: Option<nat>, ghost v: seq<nat>)
    modifies a
    ensures Take(stream, 0, if a.Length == 0 then 0 else a.Length - 1, seq(a.Length, _ => 0))
            == match used case None => None case Some(u) => Some((v, u))
    ensures used.Some? ==> v in Vectors(a.Length) && |v| == a.Length && a[..] == Shuffle(old(a[..]), ChoicesOf(v))
  {
    var n := a.Length;
    var i: nat := if n == 0 then 0 else n - 1;
    var next: nat := 0;
    v := seq(n, _ => 0);
    ghost var start, taken := a[..], Take(stream, 0, i, v);
    ShuffledStart(start, ChoicesOf(v), i);
    while i > 0
      invariant (i < n || i == 0) && next <= |stream| && Drawing(v, n, i)
      invariant taken == Take(stream, next, i, v)
      invariant Shuffled(start, a[..], ChoicesOf(v), i)
    {
      var after;
      after, v := DrawAndSwap(a, stream, next, i, start, v);
      if after.None? { return None, v; }
      next, i := after.value, i - 1;
    }
    DrawingDone(n, v);
    ShuffledDone(start, a[..], ChoicesOf(v));
    used := Some(next);
  }

  /** One turn of the loop. */
  method DrawAndSwap<T>(a: array<T>, stream: seq<nat>, next: nat, i: nat, ghost start: seq<T>, ghost v: seq<nat>)
    returns (after: Option<nat>, ghost w: seq<nat>)
    requires 0 < i < a.Length && next <= |stream| && Drawing(v, a.Length, i) && Shuffled(start, a[..], ChoicesOf(v), i)
    modifies a
    ensures after.None? ==> Take(stream, next, i, v).None?
    ensures after.Some? ==>
              && after.value <= |stream| && Drawing(w, a.Length, i - 1)
              && Take(stream, next, i, v) == Take(stream, after.value, i - 1, w)
              && Shuffled(start, a[..], ChoicesOf(w), i - 1)
  {
    ghost var before := a[..];
    var choice, end := DrawBelow(stream, next, i + 1);
    w := v;
    if choice.None? { return None, w; }
    w := v[i := stream[end - 1]];
    var j := choice.value;
    a[i], a[j] := a[j], a[i];
    assert a[..] == Swap(before, i, j);
    DrawStep(start, before, v, i, stream[end - 1]);
    after := Some(end);
  }

  /** What one accepted draw `x` for position `i` does to the draws and to the shuffle under way. */
  lemma DrawStep<T>(start: seq<T>, now: seq<T>, v: seq<nat>, i: nat, x: nat)
    requires 0 < i < |now| && Drawing(v, |now|, i) && Shuffled(start, now, ChoicesOf(v), i) && x in Draws(i + 1)
    ensures Drawing(v[i := x], |now|, i - 1)
    ensures Shuffled(start, Swap(now, i, x % (i + 1)), ChoicesOf(v[i := x]), i - 1)
  {
    ShuffledStep(start, now, Swap(now, i, x % (i + 1)), ChoicesOf(v), ChoicesOf(v[i := x]), i);
  }

  lemma FirstAcceptedIs(stream: seq<nat>, from: nat, n: nat, o: Option<nat>)
    requires n > 0 && from <= |stream|
    requires o.Some? ==> from <= o.value < |stream| && stream[o.value] < Threshold(n)
    requires forall k :: from <= k < (if o.Some? then o.value else |stream|) ==> stream[k] >= Threshold(n)
    ensures FirstAccepted(stream, from, n) == o
  {
    var first := FirstAccepted(stream, from, n);
    if o.Some? && (first.None? || o.value < first.value) { RejectedBefore(stream, from, n, o.value); }
  }

  /** `rng_range` from where the stream is. */
  method DrawBelow(stream: seq<nat>, next: nat, n: nat) returns (choice: Option<nat>, after: nat)
    requires n > 1 && next <= |stream|
    ensures choice.None? <==> FirstAccepted(stream, next, n).None?
    ensures choice.Some? ==>
              && FirstAccepted(stream, next, n) == Some(after - 1)
              && next < after <= |stream| && choice.value == stream[after - 1] % n < n
  {
    var used;
    choice, used := RngRange(stream[next..], n);
    after := next + used;
    assert forall k :: next <= k < |stream| ==> stream[next..][k - next] == stream[k];
    FirstAcceptedIs(stream, next, n, if choice.Some? then Some(after - 1) else None);
  }

  /** The positions above `i` have their accepted draws, the others none. */
  ghost predicate Drawing(v: seq<nat>, n: nat, i: nat) {
    |v| == n && forall k :: 0 <= k < n ==> if k <= i then v[k] == 0 else v[k] in Draws(k + 1)
  }

  /** Whatever is still to be chosen for the positions up to `i`, `now` is on its way to the shuffle of `start`. */
  ghost predicate Shuffled<T>(start: seq<T>, now: seq<T>, c: seq<nat>, i: nat) {
    && |now| == |start| == |c| && (i < |start| || i == 0)
    && forall d :: Choices(d, |start|) && AgreeAbove(c, d, i) ==> ShuffleDown(now, d, i) == Shuffle(start, d)
  }

  ghost predicate AgreeAbove(c: seq<nat>, d: seq<nat>, i: nat) {
    |c| == |d| && forall k :: i < k < |c| ==> c[k] == d[k]
  }

  lemma ShuffledStart<T>(start: seq<T>, c: seq<nat>, i: nat)
    requires |c| == |start| && i == if |start| == 0 then 0 else |start| - 1
    ensures Shuffled(start, start, c, i)
  {
  }

  lemma DrawingDone(n: nat, v: seq<nat>)
    requires Drawing(v, n, 0)
    ensures v in Vectors(n) && Choices(ChoicesOf(v), n)
  {
    VectorsMeans(n, v);
  }

  lemma ShuffledStep<T>(start: seq<T>, now: seq<T>, next: seq<T>, c: seq<nat>, e: seq<nat>, i: nat)
    requires Shuffled(start, now, c, i) && 0 < i && |e| == |c| && e[i] <= i
    requires (forall k :: 0 <= k < |c| && k != i ==> e[k] == c[k]) && next == Swap(now, i, e[i])
    ensures Shuffled(start, next, e, i - 1)
  {
    forall d | Choices(d, |start|) && AgreeAbove(e, d, i - 1) ensures ShuffleDown(next, d, i - 1) == Shuffle(start, d) {
      assert AgreeAbove(c, d, i);
    }
  }

  lemma ShuffledDone<T>(start: seq<T>, now: seq<T>, c: seq<nat>)
    requires Shuffled(start, now, c, 0) && Choices(c, |start|)
    ensures now == Shuffle(start, c)
  {
    assert AgreeAbove(c, c, 0);
  }

  /** For a real deck that number is not zero. */
  lemma {:induction false} WeightIsPositive(n: nat)
    requires n <= U64_MAX
    ensures Weight(n) > 0
  {
    if n > 1 {
      WeightIsPositive(n - 1);
      assert U64_MAX / n > 0;
      ProductPositive(Weight(n - 1), U64_MAX / n);
    }
  }

  lemma ProductPositive(a: nat, b: nat)
    requires a > 0 && b > 0
    ensures a * b > 0
  {
  }
}
