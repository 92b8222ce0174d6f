/**
 What a debit may spend while accepted settlements are still on their way to SQL
 (draw-games/src/beans_reservations.rs).
 */
module BeanReservations {
  import opened Outcomes
  import opened Sums

  type Record = nat
  const I64_MAX: int := 0x7FFF_FFFF_FFFF_FFFF
  const I64_MIN: int := -0x8000_0000_0000_0000

  // ---- Reserved beans ----

  function Amount(delta: int): int { delta }

  /** The loss part of an accepted delta: `saturating_neg().max(0)`. */
  function Loss(delta: int): int {
    if delta >= 0 then 0 else Min(-delta, I64_MAX)
  }

  function Gain(delta: int): int { if delta >= 0 then delta else 0 }

  ghost function Total<K(!new)>(m: map<K, int>, f: int -> int): int { Over(m, f, m.Keys) }

  predicate InI64(n: int) { I64_MIN <= n <= I64_MAX }

  /** Some of the amounts, added to `start`, leave the 64-bit range. */
  ghost predicate Overflows<K(!new)>(start: int, m: map<K, int>, f: int -> int) {
    exists some: set<K> :: some <= m.Keys && !InI64(start + Over(m, f, some))
  }

  /** Checked addition of every amount in a map, in whatever order it is walked. */
  method AddAll<K(!new, ==)>(start: int, m: map<K, int>, f: int -> int) returns (total: Option<int>)
    requires InI64(start)
    ensures total.Some? ==> InI64(total.value) && total.value == start + Total(m, f)
    ensures total.None? ==> Overflows(start, m, f)
  {
    var sum, todo := start, m.Keys;
    ghost var done: set<K> := {};
    while todo != {}
      invariant todo + done == m.Keys && todo !! done
      invariant InI64(sum) && sum == start + Over(m, f, done)
      decreases todo
    {
      var x :| x in todo;
      Split(m, f, done + {x}, x);
      assert done + {x} - {x} == done;
      sum := sum + f(m[x]);
      if !InI64(sum) {
        assert sum == start + Over(m, f, done + {x});
        return None;
      }
      todo, done := todo - {x}, done + {x};
    }
    assert done == m.Keys;
    total := Some(sum);
  }

  /** Everything that encumbers one user's beans. */
  datatype Claims = Claims(
    cards: nat,                     // card-room stacks
    poker: map<Record, int>,        // per-session table stacks and unsettled holds
    sicbo: map<Record, int>,        // per-room wagers
    hands: map<Record, int>,        // accepted poker deltas not yet acknowledged
    effects: map<Record, int>)      // accepted lottery effects not yet acknowledged

  /** Stakes are not negative; an accepted delta left a balance of at least zero, so it is not the least integer. */
  ghost predicate WellClaimed(c: Claims) {
    && c.cards <= I64_MAX
    && (forall s :: s in c.poker ==> c.poker[s] >= 0)
    && (forall s :: s in c.sicbo ==> c.sicbo[s] >= 0)
    && c.hands.Keys !! c.effects.Keys
    && Acceptable(c.hands) && Acceptable(c.effects)
  }

  ghost predicate Acceptable(pending: map<Record, int>) {
    forall r :: r in pending ==> I64_MIN < pending[r] <= I64_MAX
  }

  /** `reserved`: table claims, plus the pending losses when a SQL balance is being debited. */
  ghost function Reserved(c: Claims, sqlBalance: bool): int {
    c.cards + Total(c.poker, Amount) + Total(c.sicbo, Amount)
    + if sqlBalance then Total(c.effects, Loss) + Total(c.hands, Loss) else 0
  }

  /** The claims added up; refused exactly when they exceed the 64-bit range. */
  method ComputeReserved(c: Claims, sqlBalance: bool) returns (r: Option<int>)
    requires WellClaimed(c)
    ensures r.Some? ==> r.value == Reserved(c, sqlBalance)
    ensures r.None? <==> Reserved(c, sqlBalance) > I64_MAX
  {
    ClaimsNonNegative(c);
    r := AddAll(c.cards, c.poker, Amount);
    if r.None? { OverflowMeansTotal(c.cards, c.poker, Amount); return; }
    var tables := r.value;
    r := AddAll(tables, c.sicbo, Amount);
    if r.None? { OverflowMeansTotal(tables, c.sicbo, Amount); return; }
    if !sqlBalance { return; }
    var wagers := r.value;
    r := AddAll(wagers, c.effects, Loss);
    if r.None? { OverflowMeansTotal(wagers, c.effects, Loss); return; }
    var events := r.value;
    r := AddAll(events, c.hands, Loss);
    if r.None? { OverflowMeansTotal(events, c.hands, Loss); }
  }

  lemma ClaimsNonNegative(c: Claims)
    requires WellClaimed(c)
    ensures Total(c.poker, Amount) >= 0 && Total(c.sicbo, Amount) >= 0
    ensures Total(c.effects, Loss) >= 0 && Total(c.hands, Loss) >= 0
  {
    NonNegative(c.poker, Amount, c.poker.Keys);
    NonNegative(c.sicbo, Amount, c.sicbo.Keys);
    NonNegative(c.hands, Loss, c.hands.Keys);
    NonNegative(c.effects, Loss, c.effects.Keys);
  }

  /** Some of the amounts never outweigh all of them, when none is negative. */
  lemma PartOfTotal<K(!new)>(m: map<K, int>, f: int -> int, s: set<K>)
    requires s <= m.Keys && forall k :: k in m ==> f(m[k]) >= 0
    ensures 0 <= Over(m, f, s) <= Total(m, f)
  {
    NonNegative(m, f, s);
    NonNegative(m, f, m.Keys - s);
    Union(m, f, s, m.Keys - s);
    assert s + (m.Keys - s) == m.Keys;
  }

  /** Amounts that are never negative overflow together if some of them do. */
  lemma OverflowMeansTotal<K(!new)>(start: nat, m: map<K, int>, f: int -> int)
    requires Overflows(start, m, f) && forall k :: k in m ==> f(m[k]) >= 0
    ensures start + Total(m, f) > I64_MAX
  {
    var some: set<K> :| some <= m.Keys && !InI64(start + Over(m, f, some));
    PartOfTotal(m, f, some);
  }

  /** `available`: never negative. */
  ghost function Available(c: Claims, balance: int, sqlBalance: bool): int {
    Max(0, balance - Reserved(c, sqlBalance))
  }

  // ---- Committing pending settlements ----

  /** Settlements committed one after another; each is refused if it would overdraw or overflow the row. */
  function CommitAll(balance: int, pending: map<Record, int>, order: seq<Record>): Option<int>
    requires forall r :: r in order ==> r in pending
  {
    if order == [] then Some(balance)
    else
      match CommitAll(balance, pending, order[..|order| - 1])
      case None => None
      case Some(b) =>
        var after := b + pending[order[|order| - 1]];
        if 0 <= after <= I64_MAX then Some(after) else None
  }

  ghost predicate Distinct(order: seq<Record>) {
    forall i, j :: 0 <= i < j < |order| ==> order[i] != order[j]
  }

  ghost predicate Selects(order: seq<Record>, pending: map<Record, int>) {
    Distinct(order) && forall r :: r in order ==> r in pending
  }

  /** Every selection of the pending settlements commits, in every order. */
  ghost predicate AnyOrderCommits(balance: int, pending: map<Record, int>) {
    forall order: seq<Record> :: Selects(order, pending) ==> CommitAll(balance, pending, order).Some?
  }

  ghost function Elements(order: seq<Record>): set<Record> { set r | r in order }

  lemma {:induction false} AmountIsGainLessLoss(pending: map<Record, int>, s: set<Record>)
    requires s <= pending.Keys && Acceptable(pending)
    ensures Over(pending, Amount, s) == Over(pending, Gain, s) - Over(pending, Loss, s)
    decreases s
  {
    if s != {} { AmountIsGainLessLoss(pending, s - {Pick(s)}); }
  }

  lemma LastCommitted(pending: map<Record, int>, order: seq<Record>)
    requires Selects(order, pending) && order != []
    ensures var front, last := order[..|order| - 1], order[|order| - 1];
            && Selects(front, pending)
            && Over(pending, Amount, Elements(order)) == Over(pending, Amount, Elements(front)) + pending[last]
  {
    var front, last := order[..|order| - 1], order[|order| - 1];
    assert order == front + [last];
    assert last !in Elements(front);
    assert Elements(order) == Elements(front) + {last};
    Split(pending, Amount, Elements(order), last);
    assert Elements(order) - {last} == Elements(front);
  }

  /** What has committed so far has moved the balance by exactly its deltas. */
  lemma {:induction false} CommittedSum(balance: int, pending: map<Record, int>, order: seq<Record>)
    requires Selects(order, pending) && 0 <= balance <= I64_MAX && CommitAll(balance, pending, order).Some?
    ensures CommitAll(balance, pending, order).value == balance + Over(pending, Amount, Elements(order))
    ensures 0 <= CommitAll(balance, pending, order).value <= I64_MAX
  {
    if order != [] {
      LastCommitted(pending, order);
      CommittedSum(balance, pending, order[..|order| - 1]);
    }
  }

  /** The row can pay all losses first and hold all gains first. */
  ghost predicate Covers(balance: int, pending: map<Record, int>) {
    Total(pending, Loss) <= balance <= I64_MAX - Total(pending, Gain)
  }

  lemma {:induction false} CoveredCommits(balance: int, pending: map<Record, int>, order: seq<Record>)
    requires Selects(order, pending) && Acceptable(pending)
    requires 0 <= balance <= I64_MAX && Covers(balance, pending)
    ensures CommitAll(balance, pending, order).Some?
  {
    if order != [] {
      LastCommitted(pending, order);
      CoveredCommits(balance, pending, order[..|order| - 1]);
      CommittedSum(balance, pending, order[..|order| - 1]);
      AmountIsGainLessLoss(pending, Elements(order));
      PartOfTotal(pending, Loss, Elements(order));
      PartOfTotal(pending, Gain, Elements(order));
    }
  }

  lemma {:induction false} Enumerate(s: set<Record>) returns (order: seq<Record>)
    ensures Distinct(order) && Elements(order) == s
    decreases s
  {
    if s == {} {
      order := [];
    } else {
      var x := Pick(s);
      var front := Enumerate(s - {x});
      order := front + [x];
      assert x !in Elements(front);
      assert forall r :: r in order <==> r in front || r == x;
      assert forall r :: r in front <==> r in Elements(front);
    }
  }

  lemma {:induction false} NoneOver(pending: map<Record, int>, f: int -> int, s: set<Record>)
    requires s <= pending.Keys && forall r :: r in s ==> f(pending[r]) == 0
    ensures Over(pending, f, s) == 0
    decreases s
  {
    if s != {} { NoneOver(pending, f, s - {Pick(s)}); }
  }

  /** Committing the settlements of one sign, and only those. */
  lemma OneSignCommits(balance: int, pending: map<Record, int>, losers: bool)
    requires 0 <= balance <= I64_MAX && Acceptable(pending) && AnyOrderCommits(balance, pending)
    ensures losers ==> balance >= Total(pending, Loss)
    ensures !losers ==> balance + Total(pending, Gain) <= I64_MAX
  {
    var s := set r | r in pending && (pending[r] < 0) == losers;
    var rest := pending.Keys - s;
    var order := Enumerate(s);
    assert forall r :: r in order ==> r in Elements(order);
    assert Selects(order, pending);
    CommittedSum(balance, pending, order);
    AmountIsGainLessLoss(pending, s);
    var f, g := if losers then Loss else Gain, if losers then Gain else Loss;
    NoneOver(pending, g, s);
    NoneOver(pending, f, rest);
    Union(pending, f, s, rest);
    assert s + rest == pending.Keys;
  }

  /**
   A balance survives every commit order of every selection exactly when it covers all the
   pending losses and leaves room for all the pending gains.
   */
  lemma AnyOrderNeedsTheLosses(balance: int, pending: map<Record, int>)
    requires 0 <= balance <= I64_MAX && Acceptable(pending)
    ensures AnyOrderCommits(balance, pending) <==> Covers(balance, pending)
  {
    if Covers(balance, pending) {
      forall order: seq<Record> | Selects(order, pending) ensures CommitAll(balance, pending, order).Some? {
        CoveredCommits(balance, pending, order);
      }
    }
    if AnyOrderCommits(balance, pending) {
      OneSignCommits(balance, pending, true);
      OneSignCommits(balance, pending, false);
    }
  }

  lemma MergedTotal(hands: map<Record, int>, effects: map<Record, int>, f: int -> int)
    requires hands.Keys !! effects.Keys
    ensures Total(hands + effects, f) == Total(hands, f) + Total(effects, f)
  {
    var all := hands + effects;
    assert all.Keys == hands.Keys + effects.Keys;
    Union(all, f, hands.Keys, effects.Keys);
    Agrees(all, hands, f, hands.Keys);
    Agrees(all, effects, f, effects.Keys);
  }

  /**
   A debit of the SQL balance within `available` leaves a row on which all pending poker and
   lottery settlements can still commit, in any order, exactly when it debits something or
   the balance covers the pending losses by itself, and the pending gains fit on top.
   */
  lemma DebitLeavesPendingCommittable(c: Claims, balance: nat, debit: nat)
    requires WellClaimed(c) && balance <= I64_MAX && debit <= Available(c, balance, true)
    ensures debit <= balance
    ensures AnyOrderCommits(balance - debit, c.hands + c.effects)
            <==> && (debit > 0 || balance >= Total(c.hands, Loss) + Total(c.effects, Loss))
                 && balance - debit + Total(c.hands, Gain) + Total(c.effects, Gain) <= I64_MAX
  {
    MergedTotal(c.hands, c.effects, Loss);
    MergedTotal(c.hands, c.effects, Gain);
    ClaimsNonNegative(c);
    AnyOrderNeedsTheLosses(balance - debit, c.hands + c.effects);
  }

  /**
   A debit is within `available` exactly when it is nothing, or what remains covers the card-room
   stacks, every poker stack, every wager and, for a SQL balance, every pending loss together.
   */
  lemma DebitLeavesClaimsCovered(c: Claims, balance: nat, debit: nat, sqlBalance: bool)
    ensures debit <= Available(c, balance, sqlBalance)
            <==> || debit == 0
                 || balance - debit >= c.cards + Total(c.poker, Amount) + Total(c.sicbo, Amount)
                                       + (if sqlBalance then Total(c.hands, Loss) + Total(c.effects, Loss) else 0)
  {
  }

  /** So no single claim is left short, nor any selection of claims. */
  lemma DebitSparesEachClaim(c: Claims, balance: nat, debit: nat, stacks: set<Record>, wagers: set<Record>)
    requires WellClaimed(c) && 0 < debit <= Available(c, balance, false)
    requires stacks <= c.poker.Keys && wagers <= c.sicbo.Keys
    ensures balance - debit >= c.cards + Over(c.poker, Amount, stacks) + Over(c.sicbo, Amount, wagers)
  {
    PartOfTotal(c.poker, Amount, stacks);
    PartOfTotal(c.sicbo, Amount, wagers);
  }

  /** A debit that passes the test and leaves some selection of the pending settlements refused. */
  ghost predicate Strands(c: Claims, balance: nat, debit: nat) {
    && WellClaimed(c) && balance <= I64_MAX && debit <= Available(c, balance, true)
    && !AnyOrderCommits(balance - debit, c.hands + c.effects)
  }

  /** A zero debit proves nothing: a loss may depend on an accepted win that has not committed. */
  lemma NothingAvailableProvesNothing()
    ensures exists c: Claims, balance: nat :: Strands(c, balance, 0)
  {
    var c := Claims(0, map[], map[], map[1 := -50, 2 := 100], map[]);
    var pending := c.hands + c.effects;
    assert pending == c.hands;
    assert CommitAll(0, pending, []) == Some(0);
    assert [1][..0] == [];
    assert CommitAll(0, pending, [1]).None? && Selects([1], pending);
    assert Strands(c, 0, 0);
  }

  /** Nor does a debit make room for gains: on a full row a win cannot commit before a loss. */
  lemma FullRowRefusesGains()
    ensures exists c: Claims, balance: nat, debit: nat :: debit > 0 && Strands(c, balance, debit)
  {
    var c := Claims(0, map[], map[], map[1 := -100, 2 := 100], map[]);
    var pending := c.hands + c.effects;
    assert pending == c.hands;
    assert WellClaimed(c);
    ExampleLosses(c.hands);
    NoneOver(c.effects, Loss, c.effects.Keys);
    NoneOver(c.poker, Amount, c.poker.Keys);
    NoneOver(c.sicbo, Amount, c.sicbo.Keys);
    assert 1 <= Available(c, I64_MAX, true);
    assert CommitAll(I64_MAX - 1, pending, []) == Some(I64_MAX - 1);
    assert [2][..0] == [];
    assert CommitAll(I64_MAX - 1, pending, [2]).None? && Selects([2], pending);
    assert Strands(c, I64_MAX, 1);
  }

  lemma ExampleLosses(hands: map<Record, int>)
    requires hands == map[1 := -100, 2 := 100]
    ensures Total(hands, Loss) == 100
  {
    Split(hands, Loss, hands.Keys, 1);
    NoneOver(hands, Loss, hands.Keys - {1});
  }
}
