/**
 When a street is over, and who has to act: each stated on the seats alone, for every opening
 and every run.
 */
module BettingClosing {
  import opened Outcomes
  import opened Betting
  import opened BettingInvariant
  import opened BettingTheorems

  // ---- When a round is over ----

  /** No player still in the hand has put in more than `limit`. */
  ghost predicate Covered(ps: seq<PlayerState>, limit: nat) {
    forall j :: 0 <= j < |ps| && !ps[j].folded ==> ps[j].contributed <= limit
  }

  /** Nobody still in the hand has put in more than a live player. */
  ghost predicate Answered(ps: seq<PlayerState>) {
    forall i :: 0 <= i < |ps| && ps[i].Live() ==> Covered(ps, ps[i].contributed)
  }

  /** The live players are below `bet`, which somebody in the hand really put in. */
  ghost predicate Facing(ps: seq<PlayerState>, bet: nat) {
    && (forall i :: 0 <= i < |ps| && ps[i].Live() ==> ps[i].contributed < bet)
    && exists j :: 0 <= j < |ps| && !ps[j].folded && ps[j].contributed == bet
  }

  /** A lone live stack is asked only to answer a larger wager, and then exactly the largest. */
  ghost predicate Closing(r: Round) {
    && Covered(r.players, r.currentBet)
    && (r.nCanAct == 1 ==> if r.done then Answered(r.players) else Facing(r.players, r.currentBet))
  }

  lemma {:induction false} MaxOpponentMeans(ps: seq<PlayerState>, id: PlayerId)
    ensures var m := MaxOpponent(ps, id);
            && (forall j :: 0 <= j < |ps| && ps[j].playerId != id && !ps[j].folded ==> ps[j].contributed <= m)
            && (m > 0 ==> exists j :: 0 <= j < |ps| && ps[j].playerId != id && !ps[j].folded && ps[j].contributed == m)
  {
    if ps != [] {
      MaxOpponentMeans(ps[..|ps| - 1], id);
      if MaxOpponent(ps[..|ps| - 1], id) > 0 {
        var j :| 0 <= j < |ps| - 1 && ps[..|ps| - 1][j].playerId != id && !ps[..|ps| - 1][j].folded
                 && ps[..|ps| - 1][j].contributed == MaxOpponent(ps[..|ps| - 1], id);
        assert ps[j] == ps[..|ps| - 1][j];
      }
    }
  }

  lemma LoneCloses(r: Round)
    requires Unchecked(r) && r.nCanAct == 1 && Covered(r.players, r.currentBet) && (r.done ==> Answered(r.players))
    ensures Closing(CheckDone(r)) && (CheckDone(r).done ==> CheckDone(r).currentBet == r.currentBet)
  {
    var ps := r.players;
    FirstLiveMeaning(ps, 0, |ps|);
    var i := FirstLiveIndex(ps);
    forall j | 0 <= j < |ps| && ps[j].Live() ensures j == i { LoneLive(ps, i, j); }
    var opponent := MaxOpponent(ps, ps[i].playerId);
    MaxOpponentMeans(ps, ps[i].playerId);
    if ps[i].contributed < opponent {
      var j :| 0 <= j < |ps| && ps[j].playerId != ps[i].playerId && !ps[j].folded && ps[j].contributed == opponent;
      if i < j { SumAtLeastTwo(ps, i, j, InHandW); } else { SumAtLeastTwo(ps, j, i, InHandW); }
      assert Facing(ps, opponent);
      assert CheckDone(r) == r.(currentBet := opponent);
    } else {
      assert Covered(ps, ps[i].contributed);
    }
  }

  /** The closing rules decide as `Closing` says, and lower the bet only for a lone live stack that is asked. */
  lemma CheckDoneCloses(r: Round)
    requires Unchecked(r) && Covered(r.players, r.currentBet) && (r.done && r.nCanAct == 1 ==> Answered(r.players))
    ensures Closing(CheckDone(r))
    ensures CheckDone(r).done || r.nCanAct != 1 ==> CheckDone(r).currentBet == r.currentBet
  {
    if r.nCanAct == 1 { LoneCloses(r); } else { CheckDoneKeepsInv(r); }
  }

  // ---- Every run ----

  /** Nobody puts in more than the bet: a wager raises the bet at least to itself. */
  lemma WagerCovers(r: Round, p: PlayerState, a: Action)
    requires Wager(r, p, a).Ok? && p.contributed <= r.currentBet <= CHIP_LIMIT
    ensures p.contributed + Wager(r, p, a).value.commit <= Wager(r, p, a).value.bet
  {
  }

  lemma BetCovers(r: Round, id: PlayerId, a: Action)
    requires Inv(r) && Apply(r, id, a).Ok?
    ensures var m := Wager(r, r.players[r.current], a).value;
            r.players[r.current].contributed + m.commit <= m.bet && (m.bet > r.currentBet ==> m.bet == r.players[r.current].contributed + m.commit)
  {
    AcceptedIsLegal(r, id, a);
    assert SeatOk(r.players[r.current], r.currentBet);
    WagerCovers(r, r.players[r.current], a);
  }

  lemma SettledCovers(r: Round, m: Move)
    requires r.current < |r.players| && Covered(r.players, r.currentBet)
    requires m.commit <= r.players[r.current].stack && r.currentBet <= m.bet
    requires r.players[r.current].contributed + m.commit <= m.bet
    ensures Covered(Settle(r, m).players, m.bet)
  {
    forall j | 0 <= j < |r.players| && j != r.current
      ensures Settle(r, m).players[j].contributed == r.players[j].contributed && Settle(r, m).players[j].folded == r.players[j].folded
    {
    }
  }

  /** An accepted action, up to the closing rules. */
  lemma SettleCovers(r: Round, id: PlayerId, a: Action) returns (m: Move)
    requires Inv(r) && Closing(r) && Apply(r, id, a).Ok?
    ensures Wager(r, r.players[r.current], a) == Ok(m) && Legal(r, m)
    ensures Unchecked(Advance(Settle(r, m))) && Covered(Settle(r, m).players, m.bet)
    ensures Advance(Settle(r, m)).done ==> Settle(r, m).nCanAct == 0
  {
    AcceptedIsLegal(r, id, a);
    m := Wager(r, r.players[r.current], a).value;
    BetCovers(r, id, a);
    SettledCovers(r, m);
    SettleServes(r, m);
    ServedAdvances(Settle(r, m));
  }

  lemma ServedAdvances(r: Round)
    requires Served(r) && !r.done
    ensures Unchecked(Advance(r)) && (Advance(r).done ==> r.nCanAct == 0)
  {
    AdvanceKeepsOrder(r);
    AdvanceMoves(r);
    if r.nCanAct > 0 { SumPositive(r.players, LiveW); }
  }

  lemma ActionKeepsClosing(r: Round, id: PlayerId, a: Action)
    requires Inv(r) && Closing(r) && Apply(r, id, a).Ok?
    ensures Closing(Apply(r, id, a).value.round)
  {
    var m := SettleCovers(r, id, a);
    var t := Advance(Settle(r, m));
    AdvanceMoves(Settle(r, m));
    CheckDoneCloses(t);
  }

  lemma RetireCloses(r: Round, i: nat)
    requires Inv(r) && Closing(r) && i < |r.players| && !r.players[i].folded
    ensures var s := Retire(r, i); Covered(s.players, r.currentBet) && (r.done && s.nCanAct == 1 ==> Answered(s.players))
  {
    var s := Retire(r, i);
    RetireKeepsCounts(r, i);
    if r.done && s.nCanAct == 1 {
      forall k | 0 <= k < |s.players| && s.players[k].Live() ensures Covered(s.players, s.players[k].contributed) {
        assert r.players[k].Live();
        if r.nCanAct == 1 { assert Covered(r.players, r.players[k].contributed); }
      }
    }
  }

  lemma RetireUnchecked(r: Round, i: nat)
    requires Inv(r) && i < |r.players| && !r.players[i].folded
    ensures var s := Retire(r, i);
            var t := if i == r.current then Advance(s) else s;
            && Unchecked(t) && t.players == s.players && t.currentBet == r.currentBet && t.nCanAct == s.nCanAct
            && (t.nCanAct > 0 ==> t.done == r.done)
  {
    var s := Retire(r, i);
    RetireKeepsCounts(r, i);
    RetireKeepsOrder(r, i);
    if i == r.current {
      AdvanceKeepsOrder(s);
      AdvanceMoves(s);
      if s.nCanAct > 0 { SumPositive(s.players, LiveW); }
    }
  }

  lemma ForfeitKeepsClosing(r: Round, id: PlayerId)
    requires Inv(r) && Closing(r) && Forfeit(r, id).Ok?
    ensures Closing(Forfeit(r, id).value.round)
  {
    var i := IndexOf(r.players, id).value;
    RetireCloses(r, i);
    RetireUnchecked(r, i);
    CheckDoneCloses(if i == r.current then Advance(Retire(r, i)) else Retire(r, i));
  }

  // ---- What an event leaves behind ----

  /** The turn is with the next live seat after `from`, if there is another one. */
  ghost predicate PassedOn(ps: seq<PlayerState>, from: nat, current: nat)
    requires from < |ps|
  {
    current < |ps| && forall i :: 0 <= i < |ps| && i != from && ps[i].Live() ==>
      && ps[current].Live() && current != from
      && Distance(|ps|, from, current) <= Distance(|ps|, from, i)
  }

  /** An accepted action passes the turn on and leaves the bet at the largest wager, unless a lone stack is asked for less. */
  lemma ActionPassesTurn(r: Round, id: PlayerId, a: Action)
    requires Inv(r) && Closing(r) && Apply(r, id, a).Ok?
    ensures var s := Apply(r, id, a).value.round;
            && |s.players| == |r.players|
            && PassedOn(s.players, r.current, s.current)
            && (s.done || Sum(s.players, LiveW) != 1 ==>
                  s.currentBet == Max(r.currentBet, s.players[r.current].contributed))
  {
    var m := SettleCovers(r, id, a);
    var t := Settle(r, m);
    AdvanceMoves(t);
    CheckDoneKeepsInv(Advance(t));
    CheckDoneCloses(Advance(t));
    assert t.players[r.current].contributed <= m.bet by { BetCovers(r, id, a); }
  }

  ghost predicate SeatedAt(ps: seq<PlayerState>, i: nat, id: PlayerId) { i < |ps| && ps[i].playerId == id }

  ghost predicate OtherInHand(ps: seq<PlayerState>, i: nat) {
    exists j :: 0 <= j < |ps| && j != i && !ps[j].folded
  }

  lemma OneInHand(ps: seq<PlayerState>, i: nat)
    requires i < |ps| && !ps[i].folded
    ensures OtherInHand(ps, i) <==> Sum(ps, InHandW) > 1
  {
    if OtherInHand(ps, i) {
      var j :| 0 <= j < |ps| && j != i && !ps[j].folded;
      if i < j { SumAtLeastTwo(ps, i, j, InHandW); } else { SumAtLeastTwo(ps, j, i, InHandW); }
    } else {
      var out := ps[i := ps[i].(folded := true)];
      SumUpdate(ps, i, out[i], InHandW);
      if Sum(out, InHandW) > 0 {
        SumPositive(out, InHandW);
        assert false;
      }
    }
  }

  /** A player may leave exactly while in the hand with somebody else in it; the refusals say why not. */
  lemma LeavesExactly(r: Round, id: PlayerId, i: nat)
    requires Inv(r) && SeatedAt(r.players, i, id)
    ensures Forfeit(r, id).Ok? <==> !r.players[i].folded && OtherInHand(r.players, i)
    ensures Forfeit(r, id).Err? ==> Forfeit(r, id).error == if r.players[i].folded then AlreadyFolded else HandFinished
  {
    assert IndexOf(r.players, id) == Some(i);
    if !r.players[i].folded { OneInHand(r.players, i); }
  }

  lemma StrangersCannotLeave(r: Round, id: PlayerId)
    requires Inv(r) && forall i :: 0 <= i < |r.players| ==> r.players[i].playerId != id
    ensures Forfeit(r, id) == Err(NotInHand)
  {
  }

  /** Leaving folds one seat, in turn or out of it, and takes nobody's turn but one's own. */
  lemma LeavingFoldsOneSeat(r: Round, id: PlayerId, i: nat)
    requires Inv(r) && Closing(r) && SeatedAt(r.players, i, id) && Forfeit(r, id).Ok?
    ensures var s := Forfeit(r, id).value.round;
            && Forfeit(r, id).value.moved == 0
            && s.players == r.players[i := r.players[i].(folded := true, hasActed := true)]
            && (if i == r.current then PassedOn(s.players, r.current, s.current) else s.current == r.current)
            && (s.done || Sum(s.players, LiveW) != 1 ==> s.currentBet == r.currentBet)
  {
    assert IndexOf(r.players, id) == Some(i);
    RetireCloses(r, i);
    RetireUnchecked(r, i);
    var t := if i == r.current then Advance(Retire(r, i)) else Retire(r, i);
    if i == r.current { AdvanceMoves(Retire(r, i)); }
    CheckDoneKeepsInv(t);
    CheckDoneCloses(t);
  }

  /** A refused action says whether the round, the turn, the size of the raise or the action was wrong. */
  lemma RefusalsSayWhy(r: Round, id: PlayerId, a: Action)
    requires Inv(r) && Apply(r, id, a).Err?
    ensures var e := Apply(r, id, a).error;
            && (e == HandFinished <==> r.done)
            && (e == NotYourTurn <==> !r.done && r.players[r.current].playerId != id)
            && (e == BelowMinRaise ==> a.Raise?)
            && (!r.done && r.players[r.current].playerId == id && a.Raise? ==>
                  var p := r.players[r.current];
                  (e == BelowMinRaise <==>
                    && a.amount <= p.contributed + p.stack
                    && (a.amount > r.currentBet ==> OtherLive(r.players, r.current))
                    && (!p.hasActed || r.currentBet - p.actedAtBet >= r.lastRaise)))
            && e in {HandFinished, NotYourTurn, BelowMinRaise, InvalidAction}
  {
    if !r.done {
      assert SeatOk(r.players[r.current], r.currentBet);
      SumAtLeast(r.players, r.current, ChipsW);
    }
  }

  /** The actor is told that raising is possible exactly when some action of theirs would raise the bet. */
  lemma CanRaiseExactly(r: Round)
    requires Inv(r) && !r.done
    ensures CanRaise(r, r.current)
            <==> exists a: Action :: Apply(r, r.players[r.current].playerId, a).Ok? && Higher(r, a)
  {
    var p := r.players[r.current];
    assert SeatOk(p, r.currentBet);
    SumAtLeast(r.players, r.current, ChipsW);
    if CanRaise(r, r.current) { AcceptedExactlyWhenAllowed(r, p.playerId, AllIn); assert Higher(r, AllIn); }
    forall a: Action | Apply(r, p.playerId, a).Ok? && Higher(r, a) ensures CanRaise(r, r.current) {
      AcceptedExactlyWhenAllowed(r, p.playerId, a);
    }
  }

  /** The action would put the actor above the current bet. */
  ghost predicate Higher(r: Round, a: Action)
    requires r.current < |r.players|
  {
    match a
    case Raise(to) => to > r.currentBet
    case AllIn => r.players[r.current].contributed + r.players[r.current].stack > r.currentBet
    case _ => false
  }

  // ---- Openings ----

  lemma BeginCloses(ps: seq<PlayerState>, firstActor: nat, bet: nat, bigBlind: nat)
    requires Startable(ps, bet, bigBlind) && Covered(ps, bet)
    ensures var r := Begin(ps, firstActor, bet, bigBlind, Sum(ps, ContributedW));
            && Closing(r) && r.players == ps
            && OpensAt(ps, firstActor % |ps|, r.current)
            && (r.done || r.nCanAct != 1 ==> r.currentBet == bet)
  {
    var r := Unsought(ps, firstActor, bet, bigBlind);
    SeekKeepsOrder(ps, firstActor, bet, bigBlind);
    FirstLiveMeaning(ps, r.current, |ps|);
    if r.nCanAct > 0 { SumPositive(ps, LiveW); }
    CheckDoneCloses(SeekActive(r));
    CheckDoneKeepsInv(SeekActive(r));
  }

  /** The seat to act first is the first live one from `first` on. */
  ghost predicate OpensAt(ps: seq<PlayerState>, first: nat, current: nat)
    requires first < |ps|
  {
    current < |ps| && forall i :: 0 <= i < |ps| && ps[i].Live() ==>
      ps[current].Live() && Distance(|ps|, first, current) <= Distance(|ps|, first, i)
  }

  /** What the blinds ask of one player, in all. */
  function Requested(blinds: seq<(PlayerId, nat)>, id: PlayerId): nat {
    if blinds == [] then 0
    else
      var last := blinds[|blinds| - 1];
      Requested(blinds[..|blinds| - 1], id) + if last.0 == id then last.1 else 0
  }

  /** A player dealt in with `stack`, who posted what was asked, or all of it. */
  function Dealt(id: PlayerId, stack: nat, asked: nat): PlayerState {
    var posted := Min(stack, asked);
    PlayerState(id, stack - posted, posted, false, posted == stack, false, 0)
  }

  function Asked(d: Deal, id: PlayerId): nat {
    if d.Preflop? then Requested(d.blinds, id) else 0
  }

  /** `bet` is the largest contribution. */
  ghost predicate Highest(ps: seq<PlayerState>, bet: nat) {
    && (forall i :: 0 <= i < |ps| ==> ps[i].contributed <= bet)
    && (bet > 0 ==> exists i :: 0 <= i < |ps| && ps[i].contributed == bet)
  }

  /** Everyone has posted what `blinds` asked so far; an empty stack may not be marked yet. */
  ghost predicate PostedSoFar(players: seq<(PlayerId, nat)>, blinds: seq<(PlayerId, nat)>, s: Posted) {
    && |s.players| == |players|
    && Highest(s.players, s.bet)
    && forall i :: 0 <= i < |players| ==> PostedBy(players[i], blinds, s.players[i])
  }

  ghost predicate PostedBy(player: (PlayerId, nat), blinds: seq<(PlayerId, nat)>, p: PlayerState) {
    p == Dealt(player.0, player.1, Requested(blinds, player.0)).(allIn := p.allIn) && (p.allIn ==> p.stack == 0)
  }

  lemma BlindIsPosted(players: seq<(PlayerId, nat)>, blinds: seq<(PlayerId, nat)>, s: Posted, last: (PlayerId, nat))
    requires DistinctIds(Unposted(players).players) && PostedSoFar(players, blinds, s)
    ensures PostedSoFar(players, blinds + [last], PostBlind(s, last.0, last.1))
  {
    var t := PostBlind(s, last.0, last.1);
    assert (blinds + [last])[..|blinds|] == blinds;
    forall i | 0 <= i < |players| ensures PostedBy(players[i], blinds + [last], t.players[i]) {
      assert PostedBy(players[i], blinds, s.players[i]);
      if players[i].0 == last.0 { FoundAt(players, blinds, s, i); }
    }
    BlindKeepsHighest(s, last.0, last.1);
  }

  lemma FoundAt(players: seq<(PlayerId, nat)>, blinds: seq<(PlayerId, nat)>, s: Posted, i: nat)
    requires DistinctIds(Unposted(players).players) && PostedSoFar(players, blinds, s) && i < |players|
    ensures IndexOf(s.players, players[i].0) == Some(i)
  {
    forall j | 0 <= j < |players| ensures s.players[j].playerId == Unposted(players).players[j].playerId {
      assert PostedBy(players[j], blinds, s.players[j]);
    }
  }

  lemma BlindKeepsHighest(s: Posted, id: PlayerId, amount: nat)
    requires Highest(s.players, s.bet)
    ensures Highest(PostBlind(s, id, amount).players, PostBlind(s, id, amount).bet)
  {
    var t := PostBlind(s, id, amount);
    var i := IndexOf(s.players, id);
    if i.Some? && t.bet > 0 {
      if t.bet == t.players[i.value].contributed {
      } else {
        var j :| 0 <= j < |s.players| && s.players[j].contributed == s.bet;
        assert t.players[j].contributed == t.bet;
      }
    }
  }

  lemma {:induction false} BlindsArePosted(players: seq<(PlayerId, nat)>, blinds: seq<(PlayerId, nat)>)
    requires DistinctIds(Unposted(players).players)
    ensures PostedSoFar(players, blinds, PostBlinds(Unposted(players), blinds))
  {
    if blinds != [] {
      var front, last := blinds[..|blinds| - 1], blinds[|blinds| - 1];
      BlindsArePosted(players, front);
      BlindIsPosted(players, front, PostBlinds(Unposted(players), front), last);
      assert blinds == front + [last];
    }
  }

  lemma MarkedIsDealt(d: Deal)
    requires Playable(d) && d.Preflop?
    ensures var s := PostBlinds(Unposted(d.players), d.blinds);
            && |MarkBroke(s.players)| == |d.players|
            && Highest(MarkBroke(s.players), s.bet)
            && forall i :: 0 <= i < |d.players| ==>
                 MarkBroke(s.players)[i] == Dealt(d.players[i].0, d.players[i].1, Asked(d, d.players[i].0))
  {
    var s := PostBlinds(Unposted(d.players), d.blinds);
    BlindsArePosted(d.players, d.blinds);
    forall i | 0 <= i < |d.players|
      ensures MarkBroke(s.players)[i] == Dealt(d.players[i].0, d.players[i].1, Asked(d, d.players[i].0))
    {
      assert PostedBy(d.players[i], d.blinds, s.players[i]);
    }
    forall i | 0 <= i < |s.players| ensures MarkBroke(s.players)[i].contributed == s.players[i].contributed { }
    if s.bet > 0 {
      var i :| 0 <= i < |s.players| && s.players[i].contributed == s.bet;
      assert MarkBroke(s.players)[i].contributed == s.bet;
    }
  }

  /** The bet an opening asks for: the one named, or the largest posting and at least a big blind. */
  ghost predicate OpeningBet(d: Deal, r: Round) {
    if d.Postflop? then r.currentBet == d.openingBet
    else exists posted: nat :: Highest(r.players, posted) && r.currentBet == Max(posted, d.bigBlind)
  }

  ghost predicate SeatsDealt(d: Deal, ps: seq<PlayerState>) {
    |ps| == |d.players| && forall i :: 0 <= i < |d.players| ==>
      ps[i] == Dealt(d.players[i].0, d.players[i].1, Asked(d, d.players[i].0))
  }

  ghost predicate OpenedWith(d: Deal, r: Round)
    requires d.players != []
  {
    && Closing(r)
    && SeatsDealt(d, r.players)
    && OpensAt(r.players, d.firstActor % |d.players|, r.current)
    && (d.Postflop? || r.done || r.nCanAct != 1 ==> OpeningBet(d, r))
  }

  lemma PostflopOpens(d: Deal)
    requires Playable(d) && d.players != [] && d.Postflop?
    ensures OpenedWith(d, Start(d))
  {
    PostflopReady(d);
    BeginCloses(SeatAll(d.players), d.firstActor, d.openingBet, d.bigBlind);
    var r := Start(d);
    assert SeatsDealt(d, r.players);
    if !r.done && r.nCanAct == 1 {
      var j :| 0 <= j < |r.players| && r.players[j].contributed == r.currentBet;
      assert r.players[j] == Dealt(d.players[j].0, d.players[j].1, 0);
      SumPositive(r.players, LiveW);
      assert false;
    }
  }

  lemma PreflopOpens(d: Deal)
    requires Playable(d) && d.players != [] && d.Preflop?
    ensures OpenedWith(d, Start(d))
  {
    PreflopReady(d);
    MarkedIsDealt(d);
    var s := PostBlinds(Unposted(d.players), d.blinds);
    BeginCloses(MarkBroke(s.players), d.firstActor, Max(s.bet, d.bigBlind), d.bigBlind);
  }

  /**
   Every seat of an opening holds what its player was dealt less what it posted, the pot holds
   what was posted, and the first live seat from the starting one is to act. The bet is the
   opening bet, unless a lone live stack faces less and is asked for that.
   */
  lemma StartSeatsEveryone(d: Deal)
    requires Playable(d) && d.players != []
    ensures var r := Start(d);
            && SeatsDealt(d, r.players)
            && r.potTotal == Sum(r.players, ContributedW)
            && OpensAt(r.players, d.firstActor % |d.players|, r.current)
            && (d.Postflop? || r.done || Sum(r.players, LiveW) != 1 ==> OpeningBet(d, r))
    ensures Closing(Start(d))
  {
    StartKeepsInv(d);
    if d.Postflop? { PostflopOpens(d); } else { PreflopOpens(d); }
  }

  // ---- Every run ----

  lemma EventKeepsClosing(r: Round, e: Event)
    requires Inv(r) && Closing(r) && Step(r, e).Ok?
    ensures Closing(Step(r, e).value.round)
  {
    match e
    case Act(id, action) => ActionKeepsClosing(r, id, action);
    case Leave(id) => ForfeitKeepsClosing(r, id);
  }

  lemma {:induction false} PlayKeepsClosing(r: Round, es: seq<Event>)
    requires Inv(r) && Closing(r) && Play(r, es).Some?
    ensures Closing(Play(r, es).value.round)
  {
    if es != [] {
      PlayKeepsClosing(r, es[..|es| - 1]);
      PlayKeepsInv(r, es[..|es| - 1]);
      EventKeepsClosing(Play(r, es[..|es| - 1]).value.round, es[|es| - 1]);
    }
  }

  /**
   Over every run a round is over exactly when nobody can act, or the only live stack has
   nothing larger to answer, or two or more live players have all acted and matched the bet.
   A lone live stack still asked faces the largest contribution anybody in the hand made.
   */
  lemma RunsCloseExactly(d: Deal, es: seq<Event>)
    requires Playable(d) && d.players != [] && Play(Start(d), es).Some?
    ensures var r := Play(Start(d), es).value.round;
            var live := Sum(r.players, LiveW);
            && (r.done <==> if live == 0 then true
                            else if live == 1 then Answered(r.players)
                            else Settled(r.players, r.currentBet))
            && (!r.done && live == 1 ==> Facing(r.players, r.currentBet))
            && Covered(r.players, r.currentBet)
  {
    StartKeepsInv(d);
    StartSeatsEveryone(d);
    PlayKeepsInv(Start(d), es);
    PlayKeepsClosing(Start(d), es);
    var r := Play(Start(d), es).value.round;
    if !r.done { OpenMeansAsked(r); }
  }

  lemma OpenMeansAsked(r: Round)
    requires Inv(r) && Closing(r) && !r.done
    ensures r.nCanAct >= 1 && !Settled(r.players, r.currentBet) && (r.nCanAct == 1 ==> !Answered(r.players))
  {
    SumAtLeast(r.players, r.current, LiveW);
    if r.nCanAct == 1 {
      var j :| 0 <= j < |r.players| && !r.players[j].folded && r.players[j].contributed == r.currentBet;
      assert r.players[r.current].contributed < r.players[j].contributed;
    }
  }
}
