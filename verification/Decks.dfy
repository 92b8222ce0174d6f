/**
 Shuffled decks: Fisher-Yates over rejection-sampled choices (engine/src/deck.rs), card ids
 (mental-poker/src/card_id.rs) and the public deal order (mental-poker/src/pf2.rs).
 */
module Decks {
  import opened Outcomes

  // ---- Permutations ----

  ghost predicate Distinct<T>(s: seq<T>) {
    forall i, j :: 0 <= i < j < |s| ==> s[i] != s[j]
  }

  /** `s` lists each of 0..n-1 exactly once. */
  ghost predicate Permutation(s: seq<nat>, n: nat) {
    |s| == n && Distinct(s) && forall i :: 0 <= i < n ==> s[i] < n
  }

  function Upto(n: nat): (s: set<nat>)
    ensures forall x: nat :: x in s <==> x < n
  {
    if n == 0 then {} else Upto(n - 1) + {n - 1}
  }

  lemma {:induction false} UptoSize(n: nat)
    ensures |Upto(n)| == n
  {
    if n > 0 { UptoSize(n - 1); }
  }

  function Elements(s: seq<nat>): set<nat> { set x | x in s }

  lemma {:induction false} DistinctSize(s: seq<nat>)
    requires Distinct(s)
    ensures |Elements(s)| == |s|
  {
    if s != [] {
      var front, last := s[..|s| - 1], s[|s| - 1];
      DistinctSize(front);
      assert s == front + [last];
      assert last !in front;
      assert Elements(s) == Elements(front) + {last};
    }
  }

  lemma SubsetOfSameSize(s: set<nat>, t: set<nat>)
    requires s <= t && |s| == |t|
    ensures s == t
  {
    assert t == s + (t - s);
    assert |t - s| == 0;
  }

  /** A permutation reaches every index. */
  lemma PermutationCovers(s: seq<nat>, n: nat)
    requires Permutation(s, n)
    ensures Elements(s) == Upto(n)
  {
    DistinctSize(s);
    UptoSize(n);
    SubsetOfSameSize(Elements(s), Upto(n));
  }

  lemma CoversMeansPermutation(s: seq<nat>, n: nat)
    requires Distinct(s) && Elements(s) == Upto(n)
    ensures Permutation(s, n)
  {
    DistinctSize(s);
    UptoSize(n);
    forall i | 0 <= i < |s| ensures s[i] < n { assert s[i] in Elements(s); }
  }

  // ---- Fisher-Yates ----

  /** One choice per position: position `i` is swapped with some position up to `i`. */
  ghost predicate Choices(c: seq<nat>, n: nat) {
    |c| == n && forall i :: 0 <= i < n ==> c[i] <= i
  }

  function Swap<T>(s: seq<T>, i: nat, j: nat): seq<T>
    requires i < |s| && j < |s|
  {
    s[i := s[j]][j := s[i]]
  }

  /** The swaps of positions `i` down to 1. */
  function ShuffleDown<T>(s: seq<T>, c: seq<nat>, i: nat): (r: seq<T>)
    requires |c| == |s| && (forall k :: 0 <= k < |s| ==> c[k] <= k) && (i < |s| || i == 0)
    ensures |r| == |s|
    decreases i
  {
    if i == 0 then s else ShuffleDown(Swap(s, i, c[i]), c, i - 1)
  }

  function Shuffle<T>(s: seq<T>, c: seq<nat>): (r: seq<T>)
    requires |c| == |s| && forall k :: 0 <= k < |s| ==> c[k] <= k
    ensures |r| == |s|
  {
    ShuffleDown(s, c, if s == [] then 0 else |s| - 1)
  }

  /** Positions above `i` are final. */
  lemma {:induction false} ShuffleLeavesRest<T>(s: seq<T>, c: seq<nat>, i: nat)
    requires Choices(c, |s|) && (i < |s| || i == 0)
    ensures forall k :: i < k < |s| ==> ShuffleDown(s, c, i)[k] == s[k]
    decreases i
  {
    if i > 0 { ShuffleLeavesRest(Swap(s, i, c[i]), c, i - 1); }
  }

  lemma {:induction false} ShuffleKeepsDistinct<T>(s: seq<T>, c: seq<nat>, i: nat)
    requires Choices(c, |s|) && (i < |s| || i == 0)
    ensures multiset(ShuffleDown(s, c, i)) == multiset(s)
    ensures Distinct(s) ==> Distinct(ShuffleDown(s, c, i))
    decreases i
  {
    if i > 0 {
      SwapKeeps(s, i, c[i]);
      ShuffleKeepsDistinct(Swap(s, i, c[i]), c, i - 1);
    }
  }

  lemma SwapKeeps<T>(s: seq<T>, i: nat, j: nat)
    requires i < |s| && j < |s|
    ensures multiset(Swap(s, i, j)) == multiset(s)
    ensures Distinct(s) ==> Distinct(Swap(s, i, j))
  {
  }

  /** Different choices give different orders. */
  lemma {:induction false} ShuffleInjective<T>(s: seq<T>, c: seq<nat>, d: seq<nat>, i: nat)
    requires Choices(c, |s|) && Choices(d, |s|) && (i < |s| || i == 0) && Distinct(s)
    requires ShuffleDown(s, c, i) == ShuffleDown(s, d, i)
    ensures forall k :: 0 <= k <= i && k < |s| ==> c[k] == d[k]
    decreases i
  {
    if i > 0 {
      ShuffleLeavesRest(Swap(s, i, c[i]), c, i - 1);
      ShuffleLeavesRest(Swap(s, i, d[i]), d, i - 1);
      assert ShuffleDown(s, c, i)[i] == s[c[i]] && ShuffleDown(s, d, i)[i] == s[d[i]];
      SwapKeeps(s, i, c[i]);
      ShuffleInjective(Swap(s, i, c[i]), c, d, i - 1);
    }
  }

  lemma Occurs<T>(s: seq<T>, t: seq<T>, i: nat) returns (j: nat)
    requires i < |s| == |t| && multiset(s) == multiset(t)
    requires Distinct(s) && forall k :: i < k < |s| ==> s[k] == t[k]
    ensures j <= i && s[j] == t[i]
  {
    DistinctTransfers(s, t);
    assert t[i] in multiset(t);
    assert t[i] in multiset(s);
    j :| 0 <= j < |s| && s[j] == t[i];
  }

  lemma TwoOccurrences<T>(t: seq<T>, i: nat, j: nat)
    requires i < j < |t|
    ensures t[i] == t[j] ==> multiset(t)[t[i]] >= 2
  {
    assert t == t[..j] + [t[j]] + t[j + 1..];
    assert t[..j][i] in multiset(t[..j]);
  }

  /** A rearrangement of distinct elements has distinct elements. */
  lemma DistinctTransfers<T>(s: seq<T>, t: seq<T>)
    requires multiset(s) == multiset(t) && Distinct(s)
    ensures Distinct(t)
  {
    OccursOnce(s);
    forall i, j | 0 <= i < j < |t| ensures t[i] != t[j] { TwoOccurrences(t, i, j); }
  }

  lemma {:induction false} OccursOnce<T>(s: seq<T>)
    requires Distinct(s)
    ensures forall x :: multiset(s)[x] <= 1
  {
    if s != [] {
      var front, last := s[..|s| - 1], s[|s| - 1];
      OccursOnce(front);
      assert s == front + [last];
      assert last !in multiset(front);
    }
  }

  ghost predicate Rearranges<T>(s: seq<T>, t: seq<T>) { multiset(t) == multiset(s) }

  lemma SettledAtZero<T>(s: seq<T>, t: seq<T>)
    requires |s| == |t| && multiset(s) == multiset(t) && Distinct(s) && forall k :: 0 < k < |s| ==> s[k] == t[k]
    ensures s == t
  {
    if s != [] { var j := Occurs(s, t, 0); }
  }

  /** One swap puts the right element at position `i` and leaves the rest to rearrange. */
  lemma SwapIntoPlace<T>(s: seq<T>, t: seq<T>, i: nat) returns (j: nat)
    requires i < |s| == |t| && multiset(s) == multiset(t) && Distinct(s) && forall k :: i < k < |s| ==> s[k] == t[k]
    ensures j <= i && multiset(Swap(s, i, j)) == multiset(t) && Distinct(Swap(s, i, j))
    ensures forall k :: i <= k < |s| ==> Swap(s, i, j)[k] == t[k]
  {
    j := Occurs(s, t, i);
    SwapKeeps(s, i, j);
  }

  /** Every order is reached by some choices. */
  lemma {:induction false} ShuffleSurjective<T>(s: seq<T>, t: seq<T>, i: nat) returns (c: seq<nat>)
    requires |s| == |t| && multiset(s) == multiset(t) && Distinct(s) && (i < |s| || i == 0)
    requires forall k :: i < k < |s| ==> s[k] == t[k]
    ensures Choices(c, |s|) && ShuffleDown(s, c, i) == t
    decreases i
  {
    if i == 0 {
      c := seq(|s|, _ => 0);
      SettledAtZero(s, t);
    } else {
      var j := SwapIntoPlace(s, t, i);
      var rest := ShuffleSurjective(Swap(s, i, j), t, i - 1);
      c := rest[i := j];
      SameBelow(Swap(s, i, j), rest, c, i - 1);
    }
  }

  lemma {:induction false} SameBelow<T>(s: seq<T>, c: seq<nat>, d: seq<nat>, i: nat)
    requires Choices(c, |s|) && Choices(d, |s|) && (i < |s| || i == 0)
    requires forall k :: 0 <= k <= i && k < |s| ==> c[k] == d[k]
    ensures ShuffleDown(s, c, i) == ShuffleDown(s, d, i)
    decreases i
  {
    if i > 0 { SameBelow(Swap(s, i, c[i]), c, d, i - 1); }
  }

  /**
   Fisher-Yates is a bijection from choice sequences to orders: every rearrangement of a
   deck of distinct cards comes from exactly one choice sequence.
   */
  lemma FisherYatesIsBijective<T(!new)>(deck: seq<T>)
    requires Distinct(deck)
    ensures forall c :: Choices(c, |deck|) ==> multiset(Shuffle(deck, c)) == multiset(deck) && Distinct(Shuffle(deck, c))
    ensures forall t: seq<T> :: Rearranges(deck, t) ==>
              exists c :: Choices(c, |deck|) && Shuffle(deck, c) == t
    ensures forall c, d :: Choices(c, |deck|) && Choices(d, |deck|) && Shuffle(deck, c) == Shuffle(deck, d) ==> c == d
  {
    var top := if deck == [] then 0 else |deck| - 1;
    forall c | Choices(c, |deck|)
      ensures multiset(Shuffle(deck, c)) == multiset(deck) && Distinct(Shuffle(deck, c))
    {
      ShuffleKeepsDistinct(deck, c, top);
    }
    forall t: seq<T> | Rearranges(deck, t)
      ensures exists c :: Choices(c, |deck|) && Shuffle(deck, c) == t
    {
      assert |t| == |multiset(t)| == |deck|;
      var c := ShuffleSurjective(deck, t, top);
    }
    forall c, d | Choices(c, |deck|) && Choices(d, |deck|) && Shuffle(deck, c) == Shuffle(deck, d)
      ensures c == d
    {
      ShuffleInjective(deck, c, d, top);
    }
  }

  /** The in-place loop of `Deck::new`. */
  method ShuffleInPlace<T>(a: array<T>, c: seq<nat>)
    requires Choices(c, a.Length)
    modifies a
    ensures a[..] == Shuffle(old(a[..]), c)
  {
    var i: nat := if a.Length == 0 then 0 else a.Length - 1;
    while i > 0
      invariant i < a.Length || i == 0
      invariant ShuffleDown(a[..], c, i) == Shuffle(old(a[..]), c)
    {
      ghost var before := a[..];
      var j := c[i];
      a[i], a[j] := a[j], a[i];
      assert a[..] == Swap(before, i, j);
      i := i - 1;
    }
  }

  // ---- Rejection sampling ----

  const U64_MAX: nat := 0xFFFF_FFFF_FFFF_FFFF

  /** The first rejected 64-bit value. */
  function Threshold(n: nat): nat
    requires n > 0
  {
    U64_MAX - U64_MAX % n
  }

  /** The loop of `rng_range` over a stream of 64-bit draws. */
  method RngRange(draws: seq<nat>, n: nat) returns (j: Option<nat>, used: nat)
    ensures used <= |draws|
    ensures n <= 1 ==> j == Some(0) && used == 0
    ensures n > 1 && j.Some? ==> used > 0 && draws[used - 1] < Threshold(n) && j.value == draws[used - 1] % n < n
    ensures n > 1 && j.Some? ==> forall k :: 0 <= k < used - 1 ==> draws[k] >= Threshold(n)
    ensures n > 1 && j.None? ==> forall k :: 0 <= k < |draws| ==> draws[k] >= Threshold(n)
  {
    if n <= 1 { return Some(0), 0; }
    used := 0;
    while used < |draws|
      invariant used <= |draws|
      invariant forall k :: 0 <= k < used ==> draws[k] >= Threshold(n)
    {
      var v := draws[used];
      used := used + 1;
      if v < Threshold(n) { return Some(v % n), used; }
    }
    j := None;
  }

  function AcceptedWith(limit: nat, n: nat, r: nat): set<nat>
    requires n > 0
  {
    set v: nat | v < limit && v % n == r
  }

  lemma Scale(a: nat, b: nat, n: nat)
    requires a <= b
    ensures a * n <= b * n
  {
  }

  lemma ModInBlock(q: nat, n: nat, v: nat)
    requires n > 0 && q * n <= v < q * n + n
    ensures v % n == v - q * n
  {
    var a := v / n;
    assert v == a * n + v % n;
    if a < q { Scale(a + 1, q, n); }
    if q < a { Scale(q + 1, a, n); }
  }

  lemma {:induction false} ResidueCount(q: nat, n: nat, r: nat)
    requires r < n
    ensures |AcceptedWith(q * n, n, r)| == q
  {
    if q == 0 {
      assert AcceptedWith(0 * n, n, r) == {};
    } else {
      var p := q - 1;
      ResidueCount(p, n, r);
      var x := p * n + r;
      assert q * n == p * n + n;
      ModInBlock(p, n, x);
      forall v: nat | v < q * n && v % n == r ensures v < p * n || v == x {
        if v >= p * n { ModInBlock(p, n, v); }
      }
      assert AcceptedWith(q * n, n, r) == AcceptedWith(p * n, n, r) + {x};
    }
  }

  /** `rng_range` accepts exactly as many 64-bit values for each residue, so no residue is favoured. */
  lemma NoModuloBias(n: nat, r: nat)
    requires r < n <= U64_MAX
    ensures |AcceptedWith(Threshold(n), n, r)| == U64_MAX / n > 0
  {
    var q := U64_MAX / n;
    assert Threshold(n) == q * n;
    ResidueCount(q, n, r);
  }

  // ---- Card ids and the public order ----

  datatype Card = Card(rank: nat, suit: nat)   // positions in Rank::ALL and Suit::ALL

  predicate IsCard(c: Card) { c.rank < 13 && c.suit < 4 }

  function CardToId(c: Card): nat { c.rank * 4 + c.suit }

  function IdToCard(id: nat): Option<Card> {
    if id >= 52 then None else Some(Card(id / 4, id % 4))
  }

  /** Ids and cards are two names for the same 52 things. */
  lemma CardIdsRoundTrip(c: Card, id: nat)
    ensures IsCard(c) ==> CardToId(c) < 52 && IdToCard(CardToId(c)) == Some(c)
    ensures IdToCard(id).Some? <==> id < 52
    ensures id < 52 ==> IsCard(IdToCard(id).value) && CardToId(IdToCard(id).value) == id
  {
    ModInBlock4(c.rank, c.suit);
    assert id == id / 4 * 4 + id % 4;
  }

  /** Ids run through the suits of the lowest rank, then of the next one, from zero and without gaps. */
  lemma IdsRunThroughSuits(c: Card, d: Card)
    ensures c.rank == 0 && c.suit == 0 ==> CardToId(c) == 0
    ensures d.rank == c.rank && d.suit == c.suit + 1 ==> CardToId(d) == CardToId(c) + 1
    ensures d.rank == c.rank + 1 && c.suit == 3 && d.suit == 0 ==> CardToId(d) == CardToId(c) + 1
  {
  }

  /** The unshuffled deck lists the cards by id. */
  lemma NewDeckIsInIdOrder(id: nat)
    requires id < 52
    ensures IdToCard(id) == Some(NewDeck()[id]) && Ids(NewDeck())[id] == id
  {
  }

  lemma ModInBlock4(rank: nat, suit: nat)
    ensures suit < 4 ==> (rank * 4 + suit) / 4 == rank && (rank * 4 + suit) % 4 == suit
  {
  }

  /** The deck before shuffling: ranks in order, each in suit order. */
  function NewDeck(): (d: seq<Card>) { seq(52, i requires 0 <= i => Card(i / 4, i % 4)) }

  function Ids(cards: seq<Card>): seq<nat> { seq(|cards|, i requires 0 <= i < |cards| => CardToId(cards[i])) }

  /** `public_order`: the shuffled deck read as ids. */
  function PublicOrder(c: seq<nat>): seq<nat>
    requires |c| == 52 && forall k :: 0 <= k < 52 ==> c[k] <= k
  {
    Ids(Shuffle(NewDeck(), c))
  }

  /** `final_card_ids`: the secret shuffle read in the public order. */
  function FinalCardIds(order: seq<nat>, pi: seq<nat>): seq<nat>
    requires forall i :: 0 <= i < |order| ==> order[i] < |pi|
  {
    seq(|order|, i requires 0 <= i < |order| => pi[order[i]])
  }

  lemma {:induction false} ShuffleTakesFrom<T>(s: seq<T>, c: seq<nat>, i: nat, k: nat)
    requires Choices(c, |s|) && (i < |s| || i == 0) && k < |s|
    ensures ShuffleDown(s, c, i)[k] in s
    decreases i
  {
    if i > 0 {
      var t := Swap(s, i, c[i]);
      ShuffleTakesFrom(t, c, i - 1, k);
      assert forall x :: x in t ==> x in s;
    }
  }

  lemma PublicOrderIsPermutation(c: seq<nat>)
    requires Choices(c, 52)
    ensures Permutation(PublicOrder(c), 52)
  {
    NewDeckHoldsEachCard();
    var deck := NewDeck();
    ShuffleKeepsDistinct(deck, c, 51);
    forall k | 0 <= k < 52 ensures IsCard(Shuffle(deck, c)[k]) {
      ShuffleTakesFrom(deck, c, 51, k);
    }
    DistinctIds(Shuffle(deck, c));
  }

  lemma NewDeckHoldsEachCard()
    ensures Distinct(NewDeck()) && forall c :: c in NewDeck() ==> IsCard(c)
  {
    var deck := NewDeck();
    forall i, j | 0 <= i < j < 52 ensures deck[i] != deck[j] {
      CardIdsRoundTrip(deck[i], i);
      CardIdsRoundTrip(deck[j], j);
    }
  }

  lemma DistinctIds(cards: seq<Card>)
    requires |cards| == 52 && Distinct(cards) && forall k :: 0 <= k < |cards| ==> IsCard(cards[k])
    ensures Permutation(Ids(cards), 52)
  {
    forall i, j | 0 <= i < j < 52 ensures CardToId(cards[i]) != CardToId(cards[j]) {
      CardIdsRoundTrip(cards[i], 0);
      CardIdsRoundTrip(cards[j], 0);
    }
    forall i | 0 <= i < 52 ensures CardToId(cards[i]) < 52 { CardIdsRoundTrip(cards[i], 0); }
  }

  /** Whatever the seeds choose, the final deck deals each of the 52 ids exactly once. */
  lemma FinalDeckIsPermutation(c: seq<nat>, pi: seq<nat>)
    requires Choices(c, 52) && Permutation(pi, 52)
    ensures Permutation(PublicOrder(c), 52)
    ensures Permutation(FinalCardIds(PublicOrder(c), pi), 52)
  {
    PublicOrderIsPermutation(c);
    Composition(PublicOrder(c), pi, 52);
  }

  lemma Composition(order: seq<nat>, pi: seq<nat>, n: nat)
    requires Permutation(order, n) && Permutation(pi, n)
    ensures Permutation(FinalCardIds(order, pi), n)
  {
    forall i, j | 0 <= i < j < n ensures pi[order[i]] != pi[order[j]] {
      assert order[i] != order[j];
      if order[i] < order[j] { assert pi[order[i]] != pi[order[j]]; }
    }
  }

  // ---- Dealing ----

  class Deck {
    var cards: seq<Card>
    var next: nat

    constructor FromCards(order: seq<Card>)
      ensures cards == order && next == 0
    {
      cards, next := order, 0;
    }

    /** Cards leave in order, each once, until none is left. */
    method Deal() returns (card: Option<Card>)
      requires next <= |cards|
      modifies this`next
      ensures next <= |cards|
      ensures old(next) == |cards| ==> card == None && next == old(next)
      ensures old(next) < |cards| ==> card == Some(cards[old(next)]) && next == old(next) + 1
    {
      if next >= |cards| { return None; }
      card := Some(cards[next]);
      next := next + 1;
    }
  }
}
