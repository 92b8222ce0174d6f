/**
 What every accepted action and forfeit keeps: chip conservation, the cyclic
 order of the players who still owe an action, and the meaning of the
 `actions_remaining` counter.
 */
module BettingInvariant {
  import opened Outcomes
  import opened Betting

  /** Chips, bets and raise sizes are far from the 32-bit edge. */
  const CHIP_LIMIT: nat := 0x7FFF_FFFF

  // ---- Sums ----

  lemma {:induction false} SumUpdate(ps: seq<PlayerState>, i: nat, p: PlayerState, f: PlayerState -> nat)
    requires i < |ps|
    ensures Sum(ps[i := p], f) == Sum(ps, f) - f(ps[i]) + f(p)
  {
    var n := |ps| - 1;
    if i == n {
      assert ps[i := p][..n] == ps[..n];
    } else {
      assert ps[i := p][..n] == ps[..n][i := p];
      SumUpdate(ps[..n], i, p, f);
    }
  }

  lemma {:induction false} SumMonotone(ps: seq<PlayerState>, f: PlayerState -> nat, qs: seq<PlayerState>, g: PlayerState -> nat)
    requires |ps| == |qs|
    requires forall i :: 0 <= i < |ps| ==> f(ps[i]) <= g(qs[i])
    ensures Sum(ps, f) <= Sum(qs, g)
  {
    if ps != [] { SumMonotone(ps[..|ps| - 1], f, qs[..|ps| - 1], g); }
  }

  lemma {:induction false} SumAtLeast(ps: seq<PlayerState>, i: nat, f: PlayerState -> nat)
    requires i < |ps|
    ensures f(ps[i]) <= Sum(ps, f)
  {
    if i < |ps| - 1 { SumAtLeast(ps[..|ps| - 1], i, f); }
  }

  lemma {:induction false} SumAtLeastTwo(ps: seq<PlayerState>, i: nat, j: nat, f: PlayerState -> nat)
    requires i < j < |ps|
    ensures f(ps[i]) + f(ps[j]) <= Sum(ps, f)
  {
    if j == |ps| - 1 {
      SumAtLeast(ps[..j], i, f);
    } else {
      SumAtLeastTwo(ps[..|ps| - 1], i, j, f);
    }
  }

  lemma {:induction false} SumPositive(ps: seq<PlayerState>, f: PlayerState -> nat)
    requires Sum(ps, f) > 0
    ensures exists i :: 0 <= i < |ps| && f(ps[i]) > 0
  {
    if f(ps[|ps| - 1]) == 0 {
      SumPositive(ps[..|ps| - 1], f);
      var i :| 0 <= i < |ps| - 1 && f(ps[..|ps| - 1][i]) > 0;
      assert f(ps[i]) > 0;
    }
  }

  // ---- Cyclic order ----

  /** Steps from seat `from` forward to seat `i` around a table of `n`. */
  function Distance(n: nat, from: nat, i: nat): nat
    requires from < n && i < n
  {
    if i >= from then i - from else i + n - from
  }

  lemma {:induction false} FirstLiveMeaning(ps: seq<PlayerState>, start: nat, k: nat)
    requires start < |ps| && k <= |ps|
    ensures FirstLive(ps, start, k).Some? ==>
              var j := FirstLive(ps, start, k).value;
              && j < |ps| && ps[j].Live()
              && forall i :: 0 <= i < |ps| && ps[i].Live() ==>
                   Distance(|ps|, start, j) <= Distance(|ps|, start, i)
    ensures FirstLive(ps, start, k).None? ==>
              forall i :: 0 <= i < |ps| && ps[i].Live() ==> k <= Distance(|ps|, start, i)
    decreases k
  {
    if k > 0 && !ps[start].Live() {
      FirstLiveMeaning(ps, Next(|ps|, start), k - 1);
    }
  }

  /** Both players are live and `i` comes before `j`, walking from seat `from`. */
  ghost predicate Ahead(ps: seq<PlayerState>, from: nat, i: nat, j: nat)
    requires from < |ps|
  {
    && i < |ps| && j < |ps| && ps[i].Live() && ps[j].Live()
    && Distance(|ps|, from, i) < Distance(|ps|, from, j)
  }

  // ---- The invariant ----

  /** Still owes an action: not acted since the last full raise, or below the bet. */
  ghost predicate Owes(p: PlayerState, bet: nat) {
    p.Live() && (!p.hasActed || p.contributed < bet)
  }

  ghost predicate DistinctIds(ps: seq<PlayerState>) {
    forall i, j :: 0 <= i < j < |ps| ==> ps[i].playerId != ps[j].playerId
  }

  ghost predicate Chips(r: Round) {
    && r.potTotal == Sum(r.players, ContributedW)
    && Sum(r.players, ChipsW) <= CHIP_LIMIT
    && r.currentBet <= CHIP_LIMIT
    && 0 < r.lastRaise <= CHIP_LIMIT
    && r.nCanAct == Sum(r.players, LiveW)
  }

  ghost predicate SeatOk(p: PlayerState, bet: nat) {
    && (p.allIn ==> p.stack == 0)
    && (p.Live() ==> p.stack > 0 && p.contributed <= bet)
  }

  ghost predicate Seats(ps: seq<PlayerState>, bet: nat) {
    && DistinctIds(ps)
    && forall i :: 0 <= i < |ps| ==> SeatOk(ps[i], bet)
  }

  /**
   Walking from seat `from`, the players who have not acted come first, and the
   players who owe an action come first.
   */
  ghost predicate TurnOrder(ps: seq<PlayerState>, from: nat, bet: nat)
    requires from < |ps|
  {
    forall i: nat, j: nat :: Ahead(ps, from, i, j) ==>
      && (!ps[j].hasActed ==> !ps[i].hasActed)
      && (Owes(ps[j], bet) ==> Owes(ps[i], bet))
  }

  /** Every player yet to act still faces a bet. */
  ghost predicate PendingUnder(ps: seq<PlayerState>, bet: nat) {
    forall i :: 0 <= i < |ps| && ps[i].Live() && !ps[i].hasActed ==> ps[i].contributed < bet
  }

  /** Every player who has acted has matched the bet. */
  ghost predicate ActedMatched(ps: seq<PlayerState>, bet: nat) {
    forall i :: 0 <= i < |ps| && ps[i].Live() && ps[i].hasActed ==> ps[i].contributed >= bet
  }

  /** `actions_remaining` counts the players yet to act, unless all of those still face a bet. */
  ghost predicate Counted(ps: seq<PlayerState>, bet: nat, remaining: nat) {
    && remaining <= Sum(ps, PendingW)
    && (PendingUnder(ps, bet) || (remaining == Sum(ps, PendingW) && ActedMatched(ps, bet)))
  }

  /** Everyone still able to bet has acted and matched the bet. */
  ghost predicate Settled(ps: seq<PlayerState>, bet: nat) {
    forall i :: 0 <= i < |ps| && ps[i].Live() ==> ps[i].hasActed && ps[i].contributed == bet
  }

  ghost predicate Inv(r: Round) {
    && (r.players == [] ==> r.done)
    && (r.players != [] ==> r.current < |r.players| && TurnOrder(r.players, r.current, r.currentBet))
    && Chips(r)
    && Seats(r.players, r.currentBet)
    && Counted(r.players, r.currentBet, r.actionsRemaining)
    && (!r.done ==> Owes(r.players[r.current], r.currentBet))
    && (r.players != [] && r.nCanAct >= 1 ==> r.players[r.current].Live())
    && (r.done && r.nCanAct >= 2 ==> Settled(r.players, r.currentBet))
  }

  /** `Inv` before `CheckDone` decides whether the round is over. */
  ghost predicate Unchecked(r: Round) {
    && r.current < |r.players|
    && Chips(r)
    && Seats(r.players, r.currentBet)
    && TurnOrder(r.players, r.current, r.currentBet)
    && Counted(r.players, r.currentBet, r.actionsRemaining)
    && (r.nCanAct >= 1 ==> r.players[r.current].Live())
    && (r.done && r.nCanAct >= 2 ==> Settled(r.players, r.currentBet))
  }

  // ---- CheckDone ----

  lemma LoneLive(ps: seq<PlayerState>, i: nat, j: nat)
    requires Sum(ps, LiveW) == 1
    requires i < |ps| && j < |ps| && ps[i].Live() && ps[j].Live()
    ensures i == j
  {
    if i < j { SumAtLeastTwo(ps, i, j, LiveW); }
    if j < i { SumAtLeastTwo(ps, j, i, LiveW); }
  }

  lemma NoneLive(ps: seq<PlayerState>)
    requires Sum(ps, LiveW) == 0
    ensures forall i :: 0 <= i < |ps| ==> !ps[i].Live()
  {
    forall i | 0 <= i < |ps| ensures !ps[i].Live() { SumAtLeast(ps, i, LiveW); }
  }

  lemma NonePending(ps: seq<PlayerState>)
    ensures Sum(ps, PendingW) == 0 <==> forall i :: 0 <= i < |ps| && ps[i].Live() ==> ps[i].hasActed
  {
    if Sum(ps, PendingW) == 0 {
      forall i | 0 <= i < |ps| && ps[i].Live() ensures ps[i].hasActed { SumAtLeast(ps, i, PendingW); }
    } else {
      SumPositive(ps, PendingW);
    }
  }

  /** If the current live player owes nothing, nobody does. */
  lemma FirstOwes(ps: seq<PlayerState>, from: nat, bet: nat)
    requires from < |ps| && ps[from].Live() && TurnOrder(ps, from, bet)
    requires !Owes(ps[from], bet)
    ensures forall i :: 0 <= i < |ps| ==> !Owes(ps[i], bet)
  {
    forall i | 0 <= i < |ps| ensures !Owes(ps[i], bet) {
      if i != from && ps[i].Live() { assert Ahead(ps, from, from, i); }
    }
  }

  lemma CloseIfMatchedKeepsInv(r: Round)
    requires Unchecked(r) && r.nCanAct >= 1
    ensures Inv(CloseIfMatched(r))
  {
    var ps, bet := r.players, r.currentBet;
    NonePending(ps);
    SumMonotone(ps, LiveW, ps, InHandW);
    if !CloseIfMatched(r).done && !Owes(ps[r.current], bet) {
      FirstOwes(ps, r.current, bet);
      assert forall i :: 0 <= i < |ps| && ps[i].Live() ==> SeatOk(ps[i], bet) && !Owes(ps[i], bet);
      assert AllMatched(r);
      assert false;
    }
  }

  lemma CheckDoneKeepsInv(r: Round)
    requires Unchecked(r)
    ensures Inv(CheckDone(r))
    ensures CheckDone(r) == r.(currentBet := CheckDone(r).currentBet, done := CheckDone(r).done)
    ensures CheckDone(r).currentBet <= r.currentBet
    ensures r.nCanAct >= 2 ==> CheckDone(r).currentBet == r.currentBet
    ensures r.done ==> CheckDone(r).done
  {
    if r.nCanAct == 0 {
      NoneLive(r.players);
    } else if r.nCanAct == 1 {
      LonePlayerKeepsInv(r);
    } else {
      CloseIfMatchedKeepsInv(r);
    }
  }

  lemma LonePlayerKeepsInv(r: Round)
    requires Unchecked(r) && r.nCanAct == 1
    ensures Inv(CheckDone(r))
    ensures CheckDone(r) == r.(currentBet := CheckDone(r).currentBet, done := CheckDone(r).done)
    ensures CheckDone(r).currentBet <= r.currentBet
    ensures r.done ==> CheckDone(r).done
  {
    FirstLiveMeaning(r.players, 0, |r.players|);
    var i := FirstLiveIndex(r.players);
    forall j | 0 <= j < |r.players| && r.players[j].Live() ensures j == i {
      LoneLive(r.players, i, j);
    }
    var opponent := MaxOpponent(r.players, r.players[i].playerId);
    forall a: nat, b: nat ensures !Ahead(r.players, r.current, a, b) { }
    assert forall j :: 0 <= j < |r.players| ==> SeatOk(r.players[j], r.currentBet);
    if r.players[i].contributed < opponent {
      CloseIfMatchedKeepsInv(r.(currentBet := Min(r.currentBet, opponent)));
    }
  }

  // ---- Advance ----

  /** The actor's seat once it owes nothing more: everyone else keeps the cyclic order. */
  ghost predicate Served(r: Round) {
    && r.current < |r.players|
    && Chips(r)
    && Seats(r.players, r.currentBet)
    && Counted(r.players, r.currentBet, r.actionsRemaining)
    && !Owes(r.players[r.current], r.currentBet)
    && OthersInOrder(r.players, r.current, r.currentBet)
    && (r.done && r.nCanAct >= 2 ==> Settled(r.players, r.currentBet))
  }

  ghost predicate OthersInOrder(ps: seq<PlayerState>, from: nat, bet: nat)
    requires from < |ps|
  {
    forall i: nat, j: nat :: Ahead(ps, from, i, j) && i != from && j != from ==>
      && (!ps[j].hasActed ==> !ps[i].hasActed)
      && (Owes(ps[j], bet) ==> Owes(ps[i], bet))
  }

  lemma AdvanceMoves(r: Round)
    requires r.current < |r.players|
    ensures Advance(r) == r.(current := Advance(r).current, done := Advance(r).done)
    ensures Advance(r).current < |r.players|
    ensures forall i :: 0 <= i < |r.players| && r.players[i].Live() ==>
              r.players[Advance(r).current].Live() && Advance(r).done == r.done
    ensures forall i :: 0 <= i < |r.players| && i != r.current && r.players[i].Live() ==>
              && Advance(r).current != r.current
              && Distance(|r.players|, r.current, Advance(r).current) <= Distance(|r.players|, r.current, i)
  {
    var n := |r.players|;
    FirstLiveMeaning(r.players, Next(n, r.current), n);
    assert Distance(n, Next(n, r.current), r.current) == n - 1;
    forall i | 0 <= i < n && i != r.current
      ensures Distance(n, Next(n, r.current), i) + 1 == Distance(n, r.current, i)
    {
    }
  }

  lemma AdvanceKeepsOrder(r: Round)
    requires Served(r)
    ensures Unchecked(Advance(r))
    ensures Advance(r) == r.(current := Advance(r).current, done := Advance(r).done)
    ensures r.done ==> Advance(r).done
  {
    var ps, n, bet, from := r.players, |r.players|, r.currentBet, Advance(r).current;
    AdvanceMoves(r);
    if r.nCanAct == 0 {
      NoneLive(ps);
    } else {
      SumPositive(ps, LiveW);
    }
    forall i: nat, j: nat | Ahead(ps, from, i, j)
      ensures (!ps[j].hasActed ==> !ps[i].hasActed) && (Owes(ps[j], bet) ==> Owes(ps[i], bet))
    {
      if j != r.current {
        assert i != r.current;
        assert Ahead(ps, r.current, i, j);
      }
    }
  }

  // ---- One action ----

  /** What the checks of `apply_action` guarantee of the move they let through. */
  ghost predicate Legal(r: Round, m: Move)
    requires r.current < |r.players|
  {
    var p := r.players[r.current];
    && m.commit <= p.stack
    && m.bet >= r.currentBet
    && m.lastRaise >= r.lastRaise
    && (m.fold ==> m.commit == 0)
    && (m.bet > r.currentBet ==> CanRaise(r, r.current) && m.bet == p.contributed + m.commit && m.commits)
    && (m.aggression <==> m.bet > r.currentBet && m.bet - r.currentBet >= r.lastRaise)
    && m.lastRaise == (if m.aggression then m.bet - r.currentBet else r.lastRaise)
    && (m.bet > r.currentBet && !m.aggression ==> m.commit == p.stack)
    && (!m.fold && m.commit < p.stack ==> m.bet == p.contributed + m.commit)
    && (m.commit == p.stack ==> m.commits)
    && (m.commit == 0 && !m.fold ==> p.contributed == r.currentBet)
  }

  lemma AcceptedIsLegal(r: Round, id: PlayerId, a: Action)
    requires Inv(r) && Apply(r, id, a).Ok?
    ensures Wager(r, r.players[r.current], a).Ok?
    ensures Legal(r, Wager(r, r.players[r.current], a).value)
    ensures BetBounded(Wager(r, r.players[r.current], a).value)
  {
    var p := r.players[r.current];
    assert SeatOk(p, r.currentBet);
    SumAtLeast(r.players, r.current, ChipsW);
  }

  ghost predicate BetBounded(m: Move) { m.bet <= CHIP_LIMIT && m.lastRaise <= CHIP_LIMIT }

  lemma SettleKeepsChips(r: Round, m: Move)
    requires Inv(r) && !r.done && Legal(r, m) && BetBounded(m)
    ensures Chips(Settle(r, m)) && Sum(Settle(r, m).players, ChipsW) == Sum(r.players, ChipsW)
    ensures Sum(Settle(r, m).players, StackW) + m.commit == Sum(r.players, StackW)
    ensures Settle(r, m).nCanAct <= r.nCanAct
    ensures m.fold ==> Settle(r, m).nCanAct < r.nCanAct
  {
    var i, p := r.current, Acted(r.players[r.current], m);
    var others := if m.aggression then Reopen(r.players, i) else r.players;
    assert SeatOk(r.players[i], r.currentBet);
    SumAtLeast(r.players, i, LiveW);
    SumAtLeast(r.players, i, StackW);
    SameSums(r.players, others);
    SumUpdate(others, i, p, ContributedW);
    SumUpdate(others, i, p, ChipsW);
    SumUpdate(others, i, p, StackW);
    SumUpdate(others, i, p, LiveW);
  }

  lemma SameSums(ps: seq<PlayerState>, qs: seq<PlayerState>)
    requires |ps| == |qs|
    requires forall i :: 0 <= i < |ps| ==> ps[i] == qs[i].(hasActed := ps[i].hasActed)
    ensures Sum(ps, ContributedW) == Sum(qs, ContributedW)
    ensures Sum(ps, ChipsW) == Sum(qs, ChipsW)
    ensures Sum(ps, StackW) == Sum(qs, StackW)
    ensures Sum(ps, LiveW) == Sum(qs, LiveW)
    ensures Sum(ps, InHandW) == Sum(qs, InHandW)
  {
    SumMonotone(ps, ContributedW, qs, ContributedW); SumMonotone(qs, ContributedW, ps, ContributedW);
    SumMonotone(ps, ChipsW, qs, ChipsW); SumMonotone(qs, ChipsW, ps, ChipsW);
    SumMonotone(ps, StackW, qs, StackW); SumMonotone(qs, StackW, ps, StackW);
    SumMonotone(ps, LiveW, qs, LiveW); SumMonotone(qs, LiveW, ps, LiveW);
    SumMonotone(ps, InHandW, qs, InHandW); SumMonotone(qs, InHandW, ps, InHandW);
  }

  /** When seat `i` alone has acted, the live players but that one are pending. */
  lemma OthersPending(ps: seq<PlayerState>, i: nat)
    requires i < |ps| && ps[i].hasActed && forall j :: 0 <= j < |ps| && j != i && ps[j].Live() ==> !ps[j].hasActed
    ensures Sum(ps, PendingW) == Sum(ps, LiveW) - LiveW(ps[i])
  {
    var quiet := ps[i := ps[i].(folded := true)];
    SumUpdate(ps, i, quiet[i], PendingW);
    SumUpdate(ps, i, quiet[i], LiveW);
    SumMonotone(quiet, PendingW, quiet, LiveW);
    SumMonotone(quiet, LiveW, quiet, PendingW);
  }

  /** A full raise asks everyone else again. */
  lemma FullRaiseKeepsCount(r: Round, m: Move)
    requires Inv(r) && !r.done && Legal(r, m) && BetBounded(m) && m.aggression
    ensures Counted(Settle(r, m).players, m.bet, Settle(r, m).actionsRemaining)
  {
    var s := Settle(r, m);
    SettleKeepsChips(r, m);
    assert forall j :: 0 <= j < |r.players| ==> SeatOk(r.players[j], r.currentBet);
    OthersPending(s.players, r.current);
  }

  /** Anything else uses up one pending action; a short all-in leaves everyone else below the bet. */
  lemma OtherActionKeepsCount(r: Round, m: Move)
    requires Inv(r) && !r.done && Legal(r, m) && !m.aggression
    ensures Counted(Settle(r, m).players, m.bet, Settle(r, m).actionsRemaining)
  {
    var i, s := r.current, Settle(r, m);
    assert forall j :: 0 <= j < |r.players| ==> SeatOk(r.players[j], r.currentBet);
    SumUpdate(r.players, i, s.players[i], PendingW);
    SumAtLeast(r.players, i, PendingW);
    if r.players[i].hasActed { PendingFirst(r); }
  }

  /** Once the actor has acted before, so has everyone. */
  lemma PendingFirst(r: Round)
    requires Inv(r) && !r.done && r.players[r.current].hasActed
    ensures Sum(r.players, PendingW) == 0
  {
    NonePending(r.players);
    forall i | 0 <= i < |r.players| && r.players[i].Live() ensures r.players[i].hasActed {
      if i != r.current { assert Ahead(r.players, r.current, r.current, i); }
    }
  }

  lemma SettleKeepsSeats(r: Round, m: Move)
    requires r.current < |r.players| && Seats(r.players, r.currentBet) && Legal(r, m) && r.players[r.current].Live()
    ensures Seats(Settle(r, m).players, m.bet) && !Owes(Settle(r, m).players[r.current], m.bet)
  {
    var s := Settle(r, m);
    assert forall j :: 0 <= j < |r.players| ==> SeatOk(r.players[j], r.currentBet);
    assert forall j :: 0 <= j < |r.players| ==> s.players[j].playerId == r.players[j].playerId;
    assert forall j :: 0 <= j < |r.players| ==> SeatOk(s.players[j], m.bet);
  }

  lemma SettleKeepsOthersInOrder(r: Round, m: Move)
    requires Inv(r) && !r.done && Legal(r, m)
    ensures OthersInOrder(Settle(r, m).players, r.current, m.bet)
  {
    var i, s := r.current, Settle(r, m);
    assert forall j :: 0 <= j < |r.players| ==> SeatOk(r.players[j], r.currentBet);
    forall a: nat, b: nat | Ahead(s.players, i, a, b) && a != i && b != i
      ensures && (!s.players[b].hasActed ==> !s.players[a].hasActed)
              && (Owes(s.players[b], m.bet) ==> Owes(s.players[a], m.bet))
    {
      assert Ahead(r.players, i, a, b);
    }
  }

  lemma SettleServes(r: Round, m: Move)
    requires Inv(r) && !r.done && Legal(r, m) && BetBounded(m)
    ensures Served(Settle(r, m))
  {
    SettleKeepsChips(r, m);
    SettleKeepsSeats(r, m);
    SettleKeepsOthersInOrder(r, m);
    if m.aggression { FullRaiseKeepsCount(r, m); } else { OtherActionKeepsCount(r, m); }
  }

  /** An accepted action settles one legal move; advancing and closing leave the seats alone. */
  lemma ActionShape(r: Round, id: PlayerId, a: Action) returns (m: Move)
    requires Inv(r) && Apply(r, id, a).Ok?
    ensures Wager(r, r.players[r.current], a) == Ok(m) && Legal(r, m) && BetBounded(m)
    ensures var s := Apply(r, id, a).value.round;
            && s == Settle(r, m).(current := s.current, currentBet := s.currentBet, done := s.done)
            && s.currentBet <= m.bet
            && (s.nCanAct >= 2 ==> s.currentBet == m.bet)
            && Inv(s)
  {
    AcceptedIsLegal(r, id, a);
    m := Wager(r, r.players[r.current], a).value;
    SettleServes(r, m);
    AdvanceKeepsOrder(Settle(r, m));
    CheckDoneKeepsInv(Advance(Settle(r, m)));
  }

  /** Every accepted action keeps the invariant and conserves chips. */
  lemma ActionKeepsInv(r: Round, id: PlayerId, a: Action)
    requires Inv(r) && Apply(r, id, a).Ok?
    ensures Inv(Apply(r, id, a).value.round)
    ensures Sum(Apply(r, id, a).value.round.players, ChipsW) == Sum(r.players, ChipsW)
    ensures Apply(r, id, a).value.round.potTotal == r.potTotal + Apply(r, id, a).value.moved
    ensures Apply(r, id, a).value.round.lastRaise >= r.lastRaise
  {
    var m := ActionShape(r, id, a);
    SettleKeepsChips(r, m);
  }

  // ---- One forfeit ----

  lemma RetireKeepsSeats(r: Round, i: nat)
    requires i < |r.players| && Seats(r.players, r.currentBet)
    ensures Seats(Retire(r, i).players, r.currentBet)
  {
    var s := Retire(r, i);
    assert forall j :: 0 <= j < |r.players| ==> SeatOk(r.players[j], r.currentBet);
    assert forall j :: 0 <= j < |r.players| ==> SeatOk(s.players[j], r.currentBet);
    assert forall j :: 0 <= j < |r.players| ==> s.players[j].playerId == r.players[j].playerId;
  }

  lemma RetireKeepsChips(r: Round, i: nat)
    requires Chips(r) && Seats(r.players, r.currentBet) && i < |r.players| && !r.players[i].folded
    ensures var s := Retire(r, i);
            && Chips(s) && s.nCanAct <= r.nCanAct
            && Sum(s.players, ChipsW) == Sum(r.players, ChipsW)
            && Sum(s.players, StackW) == Sum(r.players, StackW)
  {
    var p := Retire(r, i).players[i];
    assert SeatOk(r.players[i], r.currentBet);
    SumAtLeast(r.players, i, LiveW);
    SumUpdate(r.players, i, p, LiveW);
    SumUpdate(r.players, i, p, ChipsW);
    SumUpdate(r.players, i, p, StackW);
    SumUpdate(r.players, i, p, ContributedW);
  }

  lemma RetireKeepsCounts(r: Round, i: nat)
    requires Inv(r) && i < |r.players| && !r.players[i].folded
    ensures var s := Retire(r, i);
            && Chips(s) && Seats(s.players, s.currentBet)
            && Counted(s.players, s.currentBet, s.actionsRemaining)
            && Sum(s.players, ChipsW) == Sum(r.players, ChipsW)
            && Sum(s.players, StackW) == Sum(r.players, StackW)
            && s.nCanAct <= r.nCanAct
  {
    RetireKeepsSeats(r, i);
    RetireKeepsChips(r, i);
    SumAtLeast(r.players, i, PendingW);
    SumUpdate(r.players, i, Retire(r, i).players[i], PendingW);
  }

  lemma RetireKeepsOrder(r: Round, i: nat)
    requires Inv(r) && i < |r.players| && !r.players[i].folded
    ensures TurnOrder(Retire(r, i).players, r.current, r.currentBet)
  {
    var s := Retire(r, i);
    forall a: nat, b: nat | Ahead(s.players, r.current, a, b)
      ensures && (!s.players[b].hasActed ==> !s.players[a].hasActed)
              && (Owes(s.players[b], r.currentBet) ==> Owes(s.players[a], r.currentBet))
    {
      assert Ahead(r.players, r.current, a, b);
    }
  }

  /** What closing the round does to a retired seat's table. */
  ghost predicate Retired(r: Round, i: nat, s: Round)
    requires i < |r.players|
  {
    && s == Retire(r, i).(current := s.current, currentBet := s.currentBet, done := s.done)
    && s.currentBet <= r.currentBet
    && (s.nCanAct >= 2 ==> s.currentBet == r.currentBet)
    && (r.done ==> s.done)
    && Inv(s)
  }

  lemma ForfeitInTurn(r: Round, i: nat)
    requires Inv(r) && i < |r.players| && !r.players[i].folded && i == r.current
    ensures Retired(r, i, CheckDone(Advance(Retire(r, i))))
  {
    var s := Retire(r, i);
    RetireKeepsCounts(r, i);
    RetireKeepsOrder(r, i);
    assert Served(s);
    AdvanceKeepsOrder(s);
    CheckDoneKeepsInv(Advance(s));
  }

  lemma ForfeitOutOfTurn(r: Round, i: nat)
    requires Inv(r) && i < |r.players| && !r.players[i].folded && i != r.current
    ensures Retired(r, i, CheckDone(Retire(r, i)))
  {
    RetireKeepsCounts(r, i);
    RetireKeepsOrder(r, i);
    CheckDoneKeepsInv(Retire(r, i));
  }

  /** An accepted forfeit retires one seat and keeps the invariant. */
  lemma ForfeitShape(r: Round, id: PlayerId) returns (i: nat)
    requires Inv(r) && Forfeit(r, id).Ok?
    ensures i < |r.players| && r.players[i].playerId == id && !r.players[i].folded
    ensures Retired(r, i, Forfeit(r, id).value.round)
  {
    i := IndexOf(r.players, id).value;
    if i == r.current { ForfeitInTurn(r, i); } else { ForfeitOutOfTurn(r, i); }
  }

  /** Every accepted forfeit, in or out of turn, keeps the invariant and conserves chips. */
  lemma ForfeitKeepsInv(r: Round, id: PlayerId)
    requires Inv(r) && Forfeit(r, id).Ok?
    ensures Inv(Forfeit(r, id).value.round)
    ensures Sum(Forfeit(r, id).value.round.players, ChipsW) == Sum(r.players, ChipsW)
    ensures Forfeit(r, id).value.round.potTotal == r.potTotal
    ensures Forfeit(r, id).value.round.lastRaise == r.lastRaise
    ensures r.done ==> Forfeit(r, id).value.round.done
  {
    var i := ForfeitShape(r, id);
    RetireKeepsCounts(r, i);
  }
}
