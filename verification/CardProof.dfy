/**
 Locked decks (mental-poker/src/card_proof.rs): restricting a shuffle to a discard subset,
 rebinding a prepared deck, dealing it in the order the seeds select, and reordering it.
 Encryption and hashing are symbolic.
 */
module CardProof {
  import opened Outcomes
  import opened Decks

  // ---- Contexts ----

  datatype Game = Zjh | Niuniu | Sangong | Shortdeck | Ddz | Guandan | Blackjack | Baccarat | Colorcards
  {
    function Size(): nat {
      match this
      case Shortdeck => 36
      case Ddz => 54
      case Guandan => 108
      case Colorcards => 108
      case Baccarat => 416
      case _ => 52
    }
    function MaxSeats(): nat {
      match this
      case Zjh => 10
      case Colorcards => 10
      case Ddz => 3
      case Guandan => 4
      case Baccarat => 1
      case _ => 6
    }
  }

  type Byte = b: nat | b < 256

  /** `roster` and `previous` are lower-case hexadecimal digests of 64 characters, as bytes. */
  datatype Context = Context(
    game: Game,
    handId: seq<Byte>,
    seats: seq<Byte>,
    roster: seq<Byte>,
    epoch: nat,
    previous: Option<seq<Byte>>,
    subset: Option<seq<nat>>)

  predicate Increasing(s: seq<nat>) { forall i, j :: 0 <= i < j < |s| ==> s[i] < s[j] }

  predicate HexDigit(b: Byte) { 48 <= b <= 57 || 97 <= b <= 102 }
  predicate Hex32(s: seq<Byte>) { |s| == 64 && forall i :: 0 <= i < 64 ==> HexDigit(s[i]) }

  /** `Context::validate`, with the widths of the hand id and epoch fields. */
  predicate Validated(c: Context) {
    && |c.handId| == 16 && c.epoch < 0x1_0000_0000
    && Hex32(c.roster)
    && 0 < |c.seats| <= c.game.MaxSeats()
    && (forall i :: 0 <= i < |c.seats| ==> c.seats[i] < c.game.MaxSeats())
    && Increasing(c.seats)
    && (if c.subset.None? then c.previous.None? && c.epoch == 0
        else
          && c.previous.Some? && Hex32(c.previous.value)
          && c.game.Colorcards? && c.epoch > 0
          && 0 < |c.subset.value| <= c.game.Size()
          && (forall i :: 0 <= i < |c.subset.value| ==> c.subset.value[i] < c.game.Size())
          && Increasing(c.subset.value))
  }

  function Identity(n: nat): (s: seq<nat>)
    ensures |s| == n
  {
    seq(n, i requires 0 <= i => i)
  }

  function Identities(c: Context): seq<nat> {
    match c.subset case Some(cards) => cards case None => Identity(c.game.Size())
  }

  // ---- Shuffles and their witness ----

  /** Ciphertexts: a card in the clear, or a re-encryption under some randomness. */
  datatype Ct = Trivial(card: nat) | Reencrypted(of: Ct, rho: nat)

  datatype ShuffleWitness = ShuffleWitness(input: seq<Ct>, output: seq<Ct>, rho: seq<nat>, pi: seq<nat>)

  function Input(ids: seq<nat>): (cts: seq<Ct>)
    ensures |cts| == |ids|
  {
    seq(|ids|, i requires 0 <= i < |ids| => Trivial(ids[i]))
  }

  /** `pi` permutes, and each output is the re-encryption of the input it names. */
  ghost predicate Witnesses(s: ShuffleWitness, n: nat) {
    && |s.input| == |s.output| == |s.rho| == n
    && Permutation(s.pi, n)
    && forall i :: 0 <= i < n ==> s.output[i] == Reencrypted(s.input[s.pi[i]], s.rho[i])
  }

  /** Where a card sits in a sorted subset (`binary_search`). */
  function Find(subset: seq<nat>, card: nat): (o: Option<nat>)
    ensures o.Some? ==> o.value < |subset| && subset[o.value] == card
    ensures o.None? ==> card !in subset
  {
    if subset == [] then None
    else if subset[|subset| - 1] == card then Some(|subset| - 1)
    else
      assert subset == subset[..|subset| - 1] + [subset[|subset| - 1]];
      Find(subset[..|subset| - 1], card)
  }

  /** Positions of the kept cards, each with its index in the subset. */
  function Chosen(pi: seq<nat>, subset: seq<nat>): seq<(nat, nat)> {
    if pi == [] then []
    else
      var last := |pi| - 1;
      Chosen(pi[..last], subset)
      + match Find(subset, pi[last]) case Some(index) => [(last, index)] case None => []
  }

  /** The full order with the cards outside the subset removed. */
  function Kept(pi: seq<nat>, subset: seq<nat>): seq<nat> {
    if pi == [] then []
    else Kept(pi[..|pi| - 1], subset) + if pi[|pi| - 1] in subset then [pi[|pi| - 1]] else []
  }

  function Restrict(s: ShuffleWitness, c: Context): ShuffleWitness
    requires |s.output| == |s.rho| == |s.pi|
  {
    match c.subset
    case None => s
    case Some(subset) =>
      var chosen := Chosen(s.pi, subset);
      ChosenInRange(s.pi, subset);
      ShuffleWitness(
        Input(subset),
        seq(|chosen|, k requires 0 <= k < |chosen| => s.output[chosen[k].0]),
        seq(|chosen|, k requires 0 <= k < |chosen| => s.rho[chosen[k].0]),
        seq(|chosen|, k requires 0 <= k < |chosen| => chosen[k].1))
  }

  lemma {:induction false} ChosenInRange(pi: seq<nat>, subset: seq<nat>)
    ensures forall k :: 0 <= k < |Chosen(pi, subset)| ==>
              && Chosen(pi, subset)[k].0 < |pi| && Chosen(pi, subset)[k].1 < |subset|
              && subset[Chosen(pi, subset)[k].1] == pi[Chosen(pi, subset)[k].0]
    ensures forall k, m :: 0 <= k < m < |Chosen(pi, subset)| ==> Chosen(pi, subset)[k].0 < Chosen(pi, subset)[m].0
  {
    if pi != [] { ChosenInRange(pi[..|pi| - 1], subset); }
  }

  lemma {:induction false} ChosenIsKept(pi: seq<nat>, subset: seq<nat>)
    ensures |Chosen(pi, subset)| == |Kept(pi, subset)|
    ensures forall k :: 0 <= k < |Chosen(pi, subset)| ==>
              Chosen(pi, subset)[k].0 < |pi| && pi[Chosen(pi, subset)[k].0] == Kept(pi, subset)[k]
  {
    if pi != [] {
      ChosenIsKept(pi[..|pi| - 1], subset);
      ChosenInRange(pi, subset);
    }
  }

  lemma {:induction false} ChosenFinds(pi: seq<nat>, subset: seq<nat>, i: nat) returns (k: nat)
    requires i < |pi| && pi[i] in subset
    ensures k < |Chosen(pi, subset)| && Chosen(pi, subset)[k].0 == i
  {
    if i == |pi| - 1 {
      k := |Chosen(pi, subset)| - 1;
    } else {
      k := ChosenFinds(pi[..|pi| - 1], subset, i);
    }
  }

  lemma RestrictedPiPermutes(pi: seq<nat>, subset: seq<nat>, n: nat)
    requires Permutation(pi, n) && Increasing(subset) && forall i :: 0 <= i < |subset| ==> subset[i] < n
    ensures var chosen := Chosen(pi, subset);
            Permutation(seq(|chosen|, k requires 0 <= k < |chosen| => chosen[k].1), |subset|)
  {
    var chosen := Chosen(pi, subset);
    var q := seq(|chosen|, k requires 0 <= k < |chosen| => chosen[k].1);
    ChosenInRange(pi, subset);
    forall a, b | 0 <= a < b < |q| ensures q[a] != q[b] {
      assert chosen[a].0 < chosen[b].0;
      assert pi[chosen[a].0] != pi[chosen[b].0];
    }
    forall x: nat ensures x in Elements(q) <==> x in Upto(|subset|) {
      if x < |subset| {
        PermutationCovers(pi, n);
        assert subset[x] in Upto(n);
        assert subset[x] in Elements(pi);
        var i :| 0 <= i < |pi| && pi[i] == subset[x];
        var k := ChosenFinds(pi, subset, i);
        SameIndex(subset, q[k], x);
        assert q[k] in q;
      }
    }
    CoversMeansPermutation(q, |subset|);
  }

  lemma SameIndex(subset: seq<nat>, i: nat, j: nat)
    requires Increasing(subset) && i < |subset| && j < |subset| && subset[i] == subset[j]
    ensures i == j
  {
  }

  /**
   Restricting a full-deck shuffle to a discard subset keeps the witness: the new `pi`
   permutes, every kept ciphertext re-encrypts its re-indexed card, and the cards keep the
   order they had in the full shuffle.
   */
  lemma RestrictKeepsWitness(s: ShuffleWitness, c: Context)
    requires Validated(c) && Witnesses(s, c.game.Size()) && s.input == Input(Identity(c.game.Size()))
    ensures Witnesses(Restrict(s, c), |Identities(c)|)
    ensures Restrict(s, c).input == Input(Identities(c))
    ensures var r := Restrict(s, c);
            |r.pi| == |Kept(s.pi, Identities(c))|
            && forall k :: 0 <= k < |r.pi| ==> Identities(c)[r.pi[k]] == Kept(s.pi, Identities(c))[k]
  {
    if c.subset.None? {
      KeepsAll(s.pi, c.game.Size());
    } else {
      var subset := c.subset.value;
      RestrictedPiPermutes(s.pi, subset, c.game.Size());
      ChosenInRange(s.pi, subset);
      ChosenIsKept(s.pi, subset);
    }
  }

  lemma {:induction false} KeepsAll(pi: seq<nat>, n: nat)
    requires forall i :: 0 <= i < |pi| ==> pi[i] < n
    ensures Kept(pi, Identity(n)) == pi
  {
    if pi != [] {
      KeepsAll(pi[..|pi| - 1], n);
      assert Identity(n)[pi[|pi| - 1]] in Identity(n);
    }
  }

  // ---- Locked decks and rebinding ----

  /** Digests by what they bind. */
  datatype Hash = Binding(context: Context) | DeckHash(deck: seq<Ct>) | Commitment(binding: Hash, key: nat, deckHash: Hash)

  function CommitOf(c: Context, key: nat, deck: seq<Ct>): Hash { Commitment(Binding(c), key, DeckHash(deck)) }

  datatype Locked = Locked(context: Context, key: nat, shuffle: ShuffleWitness, commit: Hash, baccarat: Option<Hash>)

  /** `LockedDeck::new` over a full-deck shuffle. */
  function Lock(c: Context, key: nat, full: ShuffleWitness): Option<Locked>
    requires |full.output| == |full.rho| == |full.pi|
  {
    if !Validated(c) then None
    else
      var s := Restrict(full, c);
      var cached := if c.game.Baccarat? then Some(DeckHash(s.output)) else None;
      var commit := match cached
        case Some(hash) => Commitment(Binding(c), key, hash)
        case None => CommitOf(c, key, s.output);
      Some(Locked(c, key, s, commit, cached))
  }

  function Rebind(d: Locked, c: Context): Option<Locked>
    requires |d.shuffle.output| == |d.shuffle.rho| == |d.shuffle.pi|
  {
    if !Validated(c) || c.game != d.context.game || |d.shuffle.input| != c.game.Size() then None
    else
      var s := Restrict(d.shuffle, c);
      var commit := match d.baccarat
        case Some(hash) => Commitment(Binding(c), d.key, hash)
        case None => CommitOf(c, d.key, s.output);
      Some(d.(context := c, shuffle := s, commit := commit))
  }

  /** The stored commit, cached path included, is the one recomputed from scratch. */
  ghost predicate Sound(d: Locked) {
    && Validated(d.context)
    && Witnesses(d.shuffle, |Identities(d.context)|)
    && d.shuffle.input == Input(Identities(d.context))
    && d.commit == CommitOf(d.context, d.key, d.shuffle.output)
    && (d.baccarat.Some? ==> d.context.game.Baccarat? && d.baccarat.value == DeckHash(d.shuffle.output))
  }

  lemma LockIsSound(c: Context, key: nat, full: ShuffleWitness)
    requires Witnesses(full, c.game.Size()) && full.input == Input(Identity(c.game.Size()))
    requires Lock(c, key, full).Some?
    ensures Sound(Lock(c, key, full).value)
  {
    RestrictKeepsWitness(full, c);
  }

  /** An increasing list of n values below n is 0, 1, ..., n-1. */
  lemma {:induction false} IncreasingIsIdentity(s: seq<nat>, n: nat)
    requires Increasing(s) && |s| == n && forall i :: 0 <= i < n ==> s[i] < n
    ensures s == Identity(n)
  {
    forall i | 0 <= i < n ensures s[i] == i {
      AtLeastIndex(s, i);
      AtMostIndex(s, i, n);
    }
  }

  lemma {:induction false} AtLeastIndex(s: seq<nat>, i: nat)
    requires Increasing(s) && i < |s|
    ensures i <= s[i]
  {
    if i > 0 { AtLeastIndex(s, i - 1); }
  }

  lemma {:induction false} AtMostIndex(s: seq<nat>, i: nat, n: nat)
    requires Increasing(s) && i < |s| == n && forall k :: 0 <= k < n ==> s[k] < n
    ensures s[i] <= i
    decreases n - i
  {
    if i < n - 1 { AtMostIndex(s, i + 1, n); }
  }

  lemma FullAgain(c: Context)
    requires Validated(c) && |Identities(c)| == c.game.Size()
    ensures Identities(c) == Identity(c.game.Size())
  {
    if c.subset.Some? { IncreasingIsIdentity(c.subset.value, c.game.Size()); }
  }

  lemma RebindIsSound(d: Locked, c: Context)
    requires Sound(d) && Rebind(d, c).Some?
    ensures Sound(Rebind(d, c).value)
  {
    FullAgain(d.context);
    RestrictKeepsWitness(d.shuffle, c);
  }

  /** A rebind is refused exactly for a context that is invalid or of another game, or once cards were left out. */
  lemma RebindsExactly(d: Locked, c: Context)
    requires Sound(d)
    ensures Rebind(d, c).Some? <==> Validated(c) && c.game == d.context.game && |Identities(d.context)| == c.game.Size()
    ensures Rebind(d, c).Some? ==> Rebind(d, c).value.context == c && Rebind(d, c).value.key == d.key
  {
  }

  /** Rebound to one context after another; `None` once a rebind is refused. */
  function RebindAll(d: Locked, cs: seq<Context>): Option<Locked> {
    if cs == [] then Some(d)
    else
      match RebindAll(d, cs[..|cs| - 1])
      case None => None
      case Some(e) =>
        if |e.shuffle.output| == |e.shuffle.rho| == |e.shuffle.pi| then Rebind(e, cs[|cs| - 1]) else None
  }

  /**
   After locking a full shuffle and any rebinds, the stored commitment, through the cached
   Baccarat hash too, is the one computed from scratch, and the witness is still true.
   */
  lemma {:induction false} RebindsStaySound(c: Context, key: nat, full: ShuffleWitness, cs: seq<Context>)
    requires Witnesses(full, c.game.Size()) && full.input == Input(Identity(c.game.Size()))
    requires Lock(c, key, full).Some? && RebindAll(Lock(c, key, full).value, cs).Some?
    ensures Sound(RebindAll(Lock(c, key, full).value, cs).value)
  {
    if cs == [] {
      LockIsSound(c, key, full);
    } else {
      RebindsStaySound(c, key, full, cs[..|cs| - 1]);
      RebindIsSound(RebindAll(Lock(c, key, full).value, cs[..|cs| - 1]).value, cs[|cs| - 1]);
    }
  }

  class LockedDeck {
    var context: Context
    var key: nat
    var shuffle: ShuffleWitness
    var commit: Hash
    var baccaratDeckHash: Option<Hash>

    ghost function View(): Locked
      reads this
    {
      Locked(context, key, shuffle, commit, baccaratDeckHash)
    }

    /** Bind a prepared deck to its actual hand, or leave it untouched. */
    method RebindTo(c: Context) returns (ok: bool)
      requires Sound(View())
      modifies this
      ensures Sound(View())
      ensures match Rebind(old(View()), c)
              case Some(d) => ok && View() == d
              case None => !ok && View() == old(View())
    {
      if !Validated(c) { return false; }
      if c.game != context.game || |shuffle.input| != c.game.Size() { return false; }
      RebindIsSound(View(), c);
      shuffle := Restrict(shuffle, c);
      commit := match baccaratDeckHash
        case Some(hash) => Commitment(Binding(c), key, hash)
        case None => CommitOf(c, key, shuffle.output);
      context := c;
      ok := true;
    }
  }

  // ---- Dealing and reordering ----

  /** `cards`: the deck in the order selected by the seeds' choices. */
  function Cards(d: Locked, choices: seq<nat>): seq<nat>
    requires |choices| == |d.shuffle.pi| && (forall k :: 0 <= k < |choices| ==> choices[k] <= k)
    requires forall i :: 0 <= i < |d.shuffle.pi| ==> d.shuffle.pi[i] < |Identities(d.context)|
  {
    var order := Shuffle<nat>(Identity(|choices|), choices);
    OrderInRange(choices);
    seq(|order|, i requires 0 <= i < |order| => Identities(d.context)[d.shuffle.pi[order[i]]])
  }

  /** What a ciphertext decrypts to. */
  function Plain(ct: Ct): nat {
    match ct case Trivial(card) => card case Reencrypted(of, _) => Plain(of)
  }

  /** The ciphertext a locked deck publishes at position `i` decrypts to the identity `pi` says it does. */
  lemma OutputDecrypts(s: ShuffleWitness, ids: seq<nat>, i: nat)
    requires Witnesses(s, |ids|) && s.input == Input(ids) && i < |ids|
    ensures Plain(s.output[i]) == ids[s.pi[i]]
  {
  }

  /**
   The card dealt at position `k` is the one that decrypting the public deck at the position the
   order names there yields: what an opening of that position proves.
   */
  lemma DealtCardsDecrypt(d: Locked, choices: seq<nat>, k: nat)
    requires Sound(d) && Choices(choices, |d.shuffle.pi|) && k < |choices|
    ensures var order := Shuffle<nat>(Identity(|choices|), choices);
            |Cards(d, choices)| == |order| == |d.shuffle.output| && order[k] < |order|
            && Cards(d, choices)[k] == Plain(d.shuffle.output[order[k]])
  {
    OrderInRange(choices);
    OutputDecrypts(d.shuffle, Identities(d.context), Shuffle<nat>(Identity(|choices|), choices)[k]);
  }

  /** The same for the poker deck, whose public order is read as card ids. */
  lemma FinalDeckDecrypts(s: ShuffleWitness, choices: seq<nat>, k: nat)
    requires Witnesses(s, 52) && s.input == Input(Identity(52)) && Choices(choices, 52) && k < 52
    ensures Permutation(PublicOrder(choices), 52)
    ensures FinalCardIds(PublicOrder(choices), s.pi)[k] == Plain(s.output[PublicOrder(choices)[k]])
  {
    PublicOrderIsPermutation(choices);
    OutputDecrypts(s, Identity(52), PublicOrder(choices)[k]);
  }

  lemma OrderInRange(choices: seq<nat>)
    requires Choices(choices, |choices|)
    ensures Permutation(Shuffle<nat>(Identity(|choices|), choices), |choices|)
  {
    var n := |choices|;
    var top := if n == 0 then 0 else n - 1;
    ShuffleKeepsDistinct<nat>(Identity(n), choices, top);
    assert forall x :: x in Identity(n) ==> x < n;
    forall k | 0 <= k < n ensures Shuffle<nat>(Identity(n), choices)[k] < n {
      ShuffleTakesFrom<nat>(Identity(n), choices, top, k);
    }
  }

  /**
   `reorder_cards` on a deck of `n` cards: undo the old order through an inverse array, then
   apply the new one. Any other number of cards is refused.
   */
  method ReorderCards(cards: seq<nat>, n: nat, before: seq<nat>, after: seq<nat>) returns (r: Option<seq<nat>>)
    requires Permutation(before, n) && Permutation(after, n)
    ensures r.None? <==> |cards| != n
    ensures r.Some? ==>
              && |r.value| == n
              && forall k, p :: 0 <= k < n && 0 <= p < n && before[p] == after[k] ==> r.value[k] == cards[p]
  {
    if |cards| != n { return None; }
    var inverse := new nat[n](_ => 0);
    for position := 0 to n
      invariant forall p :: 0 <= p < position ==> inverse[before[p]] == p
      invariant forall x :: 0 <= x < n ==> inverse[x] < n
    {
      inverse[before[position]] := position;
    }
    r := Some(seq(n, k requires 0 <= k < n reads inverse => var p := inverse[after[k]]; if p < n then cards[p] else 0));
  }

  lemma PositionOf(order: seq<nat>, x: nat) returns (p: nat)
    requires Permutation(order, |order|) && x < |order|
    ensures p < |order| && order[p] == x
  {
    PermutationCovers(order, |order|);
    assert x in Upto(|order|);
    assert x in Elements(order);
    p :| 0 <= p < |order| && order[p] == x;
  }

  /** Reordering a deck dealt from the old seeds gives exactly the deck dealt from the new ones. */
  method ReorderPrepared(d: Locked, earlier: seq<nat>, later: seq<nat>) returns (r: seq<nat>)
    requires Sound(d)
    requires Choices(earlier, |d.shuffle.pi|) && Choices(later, |d.shuffle.pi|)
    ensures r == Cards(d, later)
  {
    var before, after := Shuffle<nat>(Identity(|earlier|), earlier), Shuffle<nat>(Identity(|later|), later);
    OrderInRange(earlier);
    OrderInRange(later);
    var reordered := ReorderCards(Cards(d, earlier), |before|, before, after);
    r := reordered.value;
    forall k | 0 <= k < |r| ensures r[k] == Cards(d, later)[k] {
      var p := PositionOf(before, after[k]);
    }
  }
}
