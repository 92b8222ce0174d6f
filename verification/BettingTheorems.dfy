/**
 Theorems over every run of accepted actions and forfeits of one street,
 from any legal opening.
 */
module BettingTheorems {
  import opened Outcomes
  import opened Betting
  import opened BettingInvariant

  // ---- Openings ----

  datatype Deal =
    | Postflop(players: seq<(PlayerId, nat)>, firstActor: nat, openingBet: nat, bigBlind: nat)
    | Preflop(players: seq<(PlayerId, nat)>, firstActor: nat, blinds: seq<(PlayerId, nat)>, bigBlind: nat)

  function Start(d: Deal): Round {
    match d
    case Postflop(players, first, bet, bigBlind) => Open(players, first, bet, bigBlind)
    case Preflop(players, first, blinds, bigBlind) => OpenPreflop(players, first, blinds, bigBlind)
  }

  /** Distinct players, a positive big blind, and chip counts away from the 32-bit edge. */
  ghost predicate Playable(d: Deal) {
    && DistinctIds(Unposted(d.players).players)
    && Sum(Unposted(d.players).players, ChipsW) <= CHIP_LIMIT
    && 0 < d.bigBlind <= CHIP_LIMIT
    && (d.Postflop? ==> d.openingBet <= CHIP_LIMIT)
  }

  ghost predicate Fresh(p: PlayerState) { !p.folded && !p.hasActed }

  /** A table nobody has acted at, before the first live seat is sought. */
  function Unsought(ps: seq<PlayerState>, firstActor: nat, bet: nat, bigBlind: nat): Round
    requires ps != []
  {
    Round(ps, firstActor % |ps|, bet, bigBlind, Sum(ps, ContributedW), false, Sum(ps, LiveW), Sum(ps, LiveW))
  }

  ghost predicate Startable(ps: seq<PlayerState>, bet: nat, bigBlind: nat) {
    && ps != [] && Seats(ps, bet) && bet <= CHIP_LIMIT && 0 < bigBlind <= CHIP_LIMIT
    && Sum(ps, ChipsW) <= CHIP_LIMIT
    && forall i :: 0 <= i < |ps| ==> Fresh(ps[i])
  }

  lemma SeekKeepsOrder(ps: seq<PlayerState>, firstActor: nat, bet: nat, bigBlind: nat)
    requires Startable(ps, bet, bigBlind)
    ensures var r := Unsought(ps, firstActor, bet, bigBlind);
            && Unchecked(SeekActive(r))
            && SeekActive(r) == r.(current := SeekActive(r).current, done := SeekActive(r).done)
  {
    var r := Unsought(ps, firstActor, bet, bigBlind);
    FirstLiveMeaning(ps, r.current, |ps|);
    if r.nCanAct > 0 { SumPositive(ps, LiveW); } else { NoneLive(ps); }
    SumMonotone(ps, LiveW, ps, PendingW);
    SumMonotone(ps, PendingW, ps, LiveW);
  }

  lemma BeginKeepsInv(ps: seq<PlayerState>, firstActor: nat, bet: nat, bigBlind: nat)
    requires Startable(ps, bet, bigBlind)
    ensures Inv(Begin(ps, firstActor, bet, bigBlind, Sum(ps, ContributedW)))
    ensures Begin(ps, firstActor, bet, bigBlind, Sum(ps, ContributedW)).players == ps
    ensures Begin(ps, firstActor, bet, bigBlind, Sum(ps, ContributedW)).lastRaise == bigBlind
  {
    SeekKeepsOrder(ps, firstActor, bet, bigBlind);
    CheckDoneKeepsInv(SeekActive(Unsought(ps, firstActor, bet, bigBlind)));
  }

  /** Players with posted blinds: chips are conserved and nobody is above the bet. */
  ghost predicate Posting(s: Posted, chips: nat) {
    && DistinctIds(s.players)
    && Sum(s.players, ChipsW) == chips
    && s.total == Sum(s.players, ContributedW)
    && forall i :: 0 <= i < |s.players| ==>
         && Fresh(s.players[i])
         && s.players[i].contributed <= s.bet
         && (s.players[i].allIn ==> s.players[i].stack == 0)
  }

  lemma PostBlindKeepsChips(s: Posted, id: PlayerId, amount: nat, chips: nat)
    requires Posting(s, chips)
    ensures Posting(PostBlind(s, id, amount), chips)
    ensures PostBlind(s, id, amount).bet <= Max(s.bet, chips)
  {
    match IndexOf(s.players, id)
    case None =>
    case Some(i) =>
      var t := PostBlind(s, id, amount);
      SumUpdate(s.players, i, t.players[i], ChipsW);
      SumUpdate(s.players, i, t.players[i], ContributedW);
      SumAtLeast(t.players, i, ChipsW);
      assert Fresh(s.players[i]);
      assert forall j :: 0 <= j < |s.players| ==> t.players[j].playerId == s.players[j].playerId;
  }

  lemma {:induction false} PostBlindsKeepsChips(s: Posted, blinds: seq<(PlayerId, nat)>, chips: nat)
    requires Posting(s, chips)
    ensures Posting(PostBlinds(s, blinds), chips)
    ensures PostBlinds(s, blinds).bet <= Max(s.bet, chips)
  {
    if blinds != [] {
      var last := blinds[|blinds| - 1];
      PostBlindsKeepsChips(s, blinds[..|blinds| - 1], chips);
      PostBlindKeepsChips(PostBlinds(s, blinds[..|blinds| - 1]), last.0, last.1, chips);
    }
  }

  lemma {:induction false} UnpostedEmpty(ps: seq<PlayerState>)
    requires forall i :: 0 <= i < |ps| ==> ps[i].contributed == 0
    ensures Sum(ps, ContributedW) == 0
  {
    if ps != [] { UnpostedEmpty(ps[..|ps| - 1]); }
  }

  /** Seats ready for betting against `bet`, holding the chips of `players`. */
  ghost predicate Ready(ps: seq<PlayerState>, players: seq<(PlayerId, nat)>, bet: nat) {
    && |ps| == |players|
    && Seats(ps, bet)
    && Sum(ps, ChipsW) == Sum(Unposted(players).players, ChipsW)
    && forall i :: 0 <= i < |ps| ==> Fresh(ps[i])
  }

  lemma PostflopReady(d: Deal)
    requires Playable(d) && d.Postflop?
    ensures Ready(SeatAll(d.players), d.players, d.openingBet)
    ensures Sum(SeatAll(d.players), ContributedW) == 0
  {
    var ps, us := SeatAll(d.players), Unposted(d.players).players;
    assert forall i :: 0 <= i < |ps| ==> ps[i] == us[i].(allIn := ps[i].allIn);
    UnpostedEmpty(ps);
    SumMonotone(ps, ChipsW, us, ChipsW);
    SumMonotone(us, ChipsW, ps, ChipsW);
  }

  /** Marking broke seats all-in moves no chips. */
  lemma MarkBrokeKeepsChips(qs: seq<PlayerState>)
    ensures |MarkBroke(qs)| == |qs|
    ensures Sum(MarkBroke(qs), ChipsW) == Sum(qs, ChipsW) && Sum(MarkBroke(qs), ContributedW) == Sum(qs, ContributedW)
  {
    var ps := MarkBroke(qs);
    SumMonotone(ps, ChipsW, qs, ChipsW);
    SumMonotone(qs, ChipsW, ps, ChipsW);
    SumMonotone(ps, ContributedW, qs, ContributedW);
    SumMonotone(qs, ContributedW, ps, ContributedW);
  }

  lemma MarkBrokeSeats(s: Posted, chips: nat, bet: nat)
    requires Posting(s, chips) && s.bet <= bet
    ensures Seats(MarkBroke(s.players), bet)
    ensures forall i :: 0 <= i < |s.players| ==> Fresh(MarkBroke(s.players)[i])
  {
    var ps := MarkBroke(s.players);
    assert forall i :: 0 <= i < |ps| ==> ps[i] == s.players[i].(allIn := ps[i].allIn) && Fresh(s.players[i]);
  }

  lemma UnpostedPosting(players: seq<(PlayerId, nat)>)
    requires DistinctIds(Unposted(players).players)
    ensures Posting(Unposted(players), Sum(Unposted(players).players, ChipsW))
  {
    UnpostedEmpty(Unposted(players).players);
  }

  lemma PreflopReady(d: Deal)
    requires Playable(d) && d.Preflop?
    ensures var s := PostBlinds(Unposted(d.players), d.blinds);
            && Ready(MarkBroke(s.players), d.players, Max(s.bet, d.bigBlind))
            && Sum(MarkBroke(s.players), ContributedW) == s.total
            && s.bet <= CHIP_LIMIT
  {
    var u, chips := Unposted(d.players), Sum(Unposted(d.players).players, ChipsW);
    UnpostedPosting(d.players);
    PostBlindsKeepsChips(u, d.blinds, chips);
    PostBlindsKeepsSeats(u, d.blinds);
    var s := PostBlinds(u, d.blinds);
    MarkBrokeKeepsChips(s.players);
    MarkBrokeSeats(s, chips, Max(s.bet, d.bigBlind));
  }

  ghost predicate Opened(d: Deal, r: Round) {
    && Inv(r)
    && |r.players| == |d.players|
    && Sum(r.players, ChipsW) == Sum(Unposted(d.players).players, ChipsW)
    && r.lastRaise == d.bigBlind
    && forall i :: 0 <= i < |r.players| ==> Fresh(r.players[i])
  }

  /** Every legal opening satisfies the invariant and seats everyone, unfolded, with their chips. */
  lemma StartKeepsInv(d: Deal)
    requires Playable(d)
    ensures Opened(d, Start(d))
  {
    if d.players != [] {
      match d
      case Postflop(players, first, bet, bigBlind) =>
        PostflopReady(d);
        BeginKeepsInv(SeatAll(players), first, bet, bigBlind);
      case Preflop(players, first, blinds, bigBlind) =>
        PreflopReady(d);
        var s := PostBlinds(Unposted(players), blinds);
        BeginKeepsInv(MarkBroke(s.players), first, Max(s.bet, bigBlind), bigBlind);
    }
  }

  // ---- Runs ----

  datatype Event = Act(id: PlayerId, action: Action) | Leave(id: PlayerId)

  /** A round reached by accepted events, and the bet each player left behind with their last voluntary action. */
  datatype Trace = Trace(round: Round, acted: map<PlayerId, nat>)

  predicate Placed(r: Round) { r.players != [] ==> r.current < |r.players| }

  function Step(r: Round, e: Event): Result<Applied, ActionError>
    requires Placed(r)
  {
    match e
    case Act(id, action) => Apply(r, id, action)
    case Leave(id) => Forfeit(r, id)
  }

  /** The round after the events, or `None` when one of them is refused. */
  function Play(r: Round, es: seq<Event>): Option<Trace> {
    if es == [] then Some(Trace(r, map[]))
    else
      var e := es[|es| - 1];
      match Play(r, es[..|es| - 1])
      case None => None
      case Some(t) =>
        if !Placed(t.round) then None
        else
          match Step(t.round, e)
          case Err(_) => None
          case Ok(next) => Some(Trace(next.round, if e.Act? then t.acted[e.id := next.round.currentBet] else t.acted))
  }

  lemma StepKeepsInv(r: Round, e: Event)
    requires Inv(r) && Step(r, e).Ok?
    ensures Inv(Step(r, e).value.round)
    ensures Sum(Step(r, e).value.round.players, ChipsW) == Sum(r.players, ChipsW)
    ensures Step(r, e).value.round.potTotal == r.potTotal + Step(r, e).value.moved
    ensures Step(r, e).value.round.lastRaise >= r.lastRaise
  {
    match e
    case Act(id, action) => ActionKeepsInv(r, id, action);
    case Leave(id) => ForfeitKeepsInv(r, id);
  }

  lemma {:induction false} PlayKeepsInv(r: Round, es: seq<Event>)
    requires Inv(r) && Play(r, es).Some?
    ensures Inv(Play(r, es).value.round)
    ensures Sum(Play(r, es).value.round.players, ChipsW) == Sum(r.players, ChipsW)
    ensures Play(r, es).value.round.lastRaise >= r.lastRaise
  {
    if es != [] {
      PlayKeepsInv(r, es[..|es| - 1]);
      StepKeepsInv(Play(r, es[..|es| - 1]).value.round, es[|es| - 1]);
    }
  }

  // ---- What an accepted action does to the table ----

  /** The wager reaches a full raise over the bet it faced. */
  ghost predicate FullRaise(r: Round, after: PlayerState) {
    after.contributed >= r.currentBet + r.lastRaise
  }

  /** The rules of an open round: what the player to act may do. */
  ghost predicate Allowed(r: Round, i: nat, a: Action)
    requires i < |r.players|
  {
    var p := r.players[i];
    var chips := p.contributed + p.stack;
    var mayRaise := OtherLive(r.players, i) && (!p.hasActed || r.currentBet - p.actedAtBet >= r.lastRaise);
    match a
    case Fold => true
    case Check => p.contributed == r.currentBet
    case Call => true
    case Raise(to) =>
      && p.contributed < to <= chips
      && (to >= r.currentBet + r.lastRaise || to == chips)
      && (to > r.currentBet ==> mayRaise)
    case AllIn => chips > r.currentBet ==> mayRaise
    case Blind(_) => false
  }

  /** An action is accepted exactly when the round is open, it is that player's turn and the rules allow it. */
  lemma AcceptedExactlyWhenAllowed(r: Round, id: PlayerId, a: Action)
    requires Inv(r)
    ensures Apply(r, id, a).Ok? <==> !r.done && r.players[r.current].playerId == id && Allowed(r, r.current, a)
  {
    if !r.done {
      assert SeatOk(r.players[r.current], r.currentBet);
      SumAtLeast(r.players, r.current, ChipsW);
    }
  }

  /** The actor's seat after each kind of accepted action. */
  ghost predicate SeatAfter(r: Round, p: PlayerState, a: Action, q: PlayerState) {
    && q.stack + q.contributed == p.stack + p.contributed
    && q.hasActed && q.playerId == p.playerId && q.actedAtBet == Max(r.currentBet, q.contributed)
    && q.folded == a.Fold?
    && (!a.Fold? ==> (q.allIn <==> q.stack == 0))
    && match a
       case Fold => q.contributed == p.contributed
       case Check => q.contributed == p.contributed == r.currentBet
       case Call => q.contributed == Min(r.currentBet, p.contributed + p.stack)
       case Raise(to) => q.contributed == to && (FullRaise(r, q) || q.stack == 0)
       case AllIn => q.stack == 0
       case Blind(_) => false
  }

  /** The actor's chips only move into the pot: to the bet, to the named amount, or all of them. */
  lemma ActionMovesChips(r: Round, id: PlayerId, a: Action)
    requires Inv(r) && Apply(r, id, a).Ok?
    ensures r.current < |r.players| == |Apply(r, id, a).value.round.players|
    ensures var p := r.players[r.current];
            var q := Apply(r, id, a).value.round.players[r.current];
            p.playerId == id && SeatAfter(r, p, a, q) && Apply(r, id, a).value.moved == q.contributed - p.contributed
  {
    var m := ActionShape(r, id, a);
    assert SeatOk(r.players[r.current], r.currentBet);
  }

  /**
   An action raises the minimum raise and clears the others' `hasActed` exactly when it is a
   full raise; a short all-in raises only the bet.
   */
  lemma ActionReopens(r: Round, id: PlayerId, a: Action)
    requires Inv(r) && Apply(r, id, a).Ok?
    ensures r.current < |r.players| == |Apply(r, id, a).value.round.players|
    ensures var s := Apply(r, id, a).value.round;
            var q := s.players[r.current];
            && s.lastRaise == (if FullRaise(r, q) then q.contributed - r.currentBet else r.lastRaise)
            && (s.nCanAct >= 2 ==> s.currentBet == Max(r.currentBet, q.contributed))
            && forall j :: 0 <= j < |r.players| && j != r.current ==>
                 s.players[j] == if FullRaise(r, q) && r.players[j].Live()
                                 then r.players[j].(hasActed := false) else r.players[j]
  {
    var m := ActionShape(r, id, a);
    assert SeatOk(r.players[r.current], r.currentBet);
  }

  /** A full raise asks every other live player again; any other action is one less to wait for. */
  lemma ActionCounts(r: Round, id: PlayerId, a: Action)
    requires Inv(r) && Apply(r, id, a).Ok?
    ensures r.current < |r.players| == |Apply(r, id, a).value.round.players|
    ensures var s := Apply(r, id, a).value.round;
            s.actionsRemaining == if FullRaise(r, s.players[r.current]) then Sum(s.players, PendingW)
                                  else Monus(r.actionsRemaining, 1)
  {
    var m := ActionShape(r, id, a);
    assert SeatOk(r.players[r.current], r.currentBet);
    if m.aggression {
      SettleKeepsChips(r, m);
      OthersPending(Settle(r, m).players, r.current);
    }
  }

  // ---- Turn order and closing ----

  /**
   Over every run, the players who still owe an action form one contiguous cyclic
   run that starts at the current actor, and a round that closes with two or more
   live stacks has every live player matched and acted. Chips are conserved and
   the minimum raise never falls.
   */
  lemma RunsPlayInTurn(d: Deal, es: seq<Event>)
    requires Playable(d) && Play(Start(d), es).Some?
    ensures var r := Play(Start(d), es).value.round;
            && (!r.done ==> && r.current < |r.players|
                            && Owes(r.players[r.current], r.currentBet)
                            && forall i, j :: 0 <= i < |r.players| && 0 <= j < |r.players| ==>
                                 (Owes(r.players[j], r.currentBet) && r.players[i].Live()
                                  && Distance(|r.players|, r.current, i) <= Distance(|r.players|, r.current, j)
                                  ==> Owes(r.players[i], r.currentBet)))
            && (r.done && Sum(r.players, LiveW) >= 2 ==> Settled(r.players, r.currentBet))
            && r.potTotal == Sum(r.players, ContributedW)
            && Sum(r.players, ChipsW) == Sum(Unposted(d.players).players, ChipsW)
            && r.lastRaise >= d.bigBlind
  {
    StartKeepsInv(d);
    PlayKeepsInv(Start(d), es);
    var r := Play(Start(d), es).value.round;
    if !r.done {
      forall i, j | 0 <= i < |r.players| && 0 <= j < |r.players|
        && Owes(r.players[j], r.currentBet) && r.players[i].Live()
        && Distance(|r.players|, r.current, i) <= Distance(|r.players|, r.current, j)
        ensures Owes(r.players[i], r.currentBet)
      {
        if Distance(|r.players|, r.current, i) == Distance(|r.players|, r.current, j) {
          assert i == j;
        } else {
          assert Ahead(r.players, r.current, i, j);
        }
      }
    }
  }

  // ---- Termination ----

  ghost predicate Lexicographic(s: nat, l: nat, a: nat, s': nat, l': nat, a': nat) {
    s' < s || (s' == s && (l' < l || (l' == l && a' < a)))
  }

  /** An actor with nothing to call always sees actions remaining. */
  lemma NothingToCallMeansPending(r: Round)
    requires Inv(r) && !r.done && r.players[r.current].contributed == r.currentBet
    ensures r.actionsRemaining > 0 && !r.players[r.current].hasActed
  {
    SumAtLeast(r.players, r.current, PendingW);
  }

  /** Every accepted action decreases (total stacks, live players, actions remaining). */
  lemma ActionMakesProgress(r: Round, id: PlayerId, a: Action)
    requires Inv(r) && Apply(r, id, a).Ok?
    ensures var s := Apply(r, id, a).value.round;
            Lexicographic(Sum(r.players, StackW), Sum(r.players, LiveW), r.actionsRemaining,
                          Sum(s.players, StackW), Sum(s.players, LiveW), s.actionsRemaining)
    ensures var s := Apply(r, id, a).value.round;
            Lexicographic(Sum(r.players, StackW), Sum(r.players, InHandW), r.actionsRemaining,
                          Sum(s.players, StackW), Sum(s.players, InHandW), s.actionsRemaining)
  {
    var m := ActionShape(r, id, a);
    var t := Settle(r, m);
    SettleKeepsChips(r, m);
    assert SeatOk(r.players[r.current], r.currentBet);
    if m.commit == 0 {
      if !m.fold { NothingToCallMeansPending(r); }
      SumUpdate(r.players, r.current, t.players[r.current], InHandW);
      SumUpdate(r.players, r.current, t.players[r.current], LiveW);
    }
  }

  /** An upper bound on the number of events a round can still accept. */
  function Rank(r: Round): nat {
    var n := |r.players| + 1;
    (Sum(r.players, StackW) * n + Sum(r.players, InHandW)) * n + r.actionsRemaining
  }

  lemma ScaleUp(n: nat, a: nat, b: nat)
    requires a < b
    ensures a * n + n <= b * n
  {
    assert (a + 1) * n <= b * n;
  }

  lemma LexicographicRank(n: nat, s: nat, h: nat, a: nat, s': nat, h': nat, a': nat)
    requires h < n && a < n && h' < n && a' < n
    requires Lexicographic(s, h, a, s', h', a')
    ensures (s' * n + h') * n + a' < (s * n + h) * n + a
  {
    if s' < s { ScaleUp(n, s', s); }
    var x', x := s' * n + h', s * n + h;
    if x' < x { ScaleUp(n, x', x); }
  }

  lemma {:induction false} SumBounded(ps: seq<PlayerState>, f: PlayerState -> nat)
    requires forall p :: f(p) <= 1
    ensures Sum(ps, f) <= |ps|
  {
    if ps != [] { SumBounded(ps[..|ps| - 1], f); }
  }

  lemma CountsFit(r: Round)
    requires Inv(r)
    ensures Sum(r.players, InHandW) <= |r.players| && r.actionsRemaining <= |r.players|
  {
    SumBounded(r.players, PendingW);
    SumBounded(r.players, InHandW);
  }

  lemma EventMakesProgress(r: Round, e: Event)
    requires Inv(r) && Step(r, e).Ok?
    ensures var s := Step(r, e).value.round;
            && Inv(s)
            && |s.players| == |r.players|
            && Lexicographic(Sum(r.players, StackW), Sum(r.players, InHandW), r.actionsRemaining,
                             Sum(s.players, StackW), Sum(s.players, InHandW), s.actionsRemaining)
  {
    match e
    case Act(id, action) =>
      ActionMakesProgress(r, id, action);
      var m := ActionShape(r, id, action);
    case Leave(id) =>
      ForfeitLeaves(r, id);
      ForfeitKeepsInv(r, id);
  }

  lemma EventLowersRank(r: Round, e: Event)
    requires Inv(r) && Step(r, e).Ok?
    ensures Rank(Step(r, e).value.round) < Rank(r)
  {
    EventMakesProgress(r, e);
    RankDrops(r, Step(r, e).value.round);
  }

  lemma RankDrops(r: Round, s: Round)
    requires Inv(r) && Inv(s) && |r.players| == |s.players|
    requires Lexicographic(Sum(r.players, StackW), Sum(r.players, InHandW), r.actionsRemaining,
                           Sum(s.players, StackW), Sum(s.players, InHandW), s.actionsRemaining)
    ensures Rank(s) < Rank(r)
  {
    CountsFit(r);
    CountsFit(s);
    LexicographicRank(|r.players| + 1,
      Sum(r.players, StackW), Sum(r.players, InHandW), r.actionsRemaining,
      Sum(s.players, StackW), Sum(s.players, InHandW), s.actionsRemaining);
  }

  lemma ForfeitLeaves(r: Round, id: PlayerId)
    requires Inv(r) && Forfeit(r, id).Ok?
    ensures var s := Forfeit(r, id).value.round;
            && |s.players| == |r.players|
            && Sum(s.players, StackW) == Sum(r.players, StackW)
            && Sum(s.players, InHandW) < Sum(r.players, InHandW)
  {
    var i := ForfeitShape(r, id);
    RetireKeepsCounts(r, i);
    SumUpdate(r.players, i, Retire(r, i).players[i], InHandW);
  }

  lemma {:induction false} PlayLowersRank(r: Round, es: seq<Event>)
    requires Inv(r) && Play(r, es).Some?
    ensures Rank(Play(r, es).value.round) + |es| <= Rank(r)
  {
    if es != [] {
      PlayLowersRank(r, es[..|es| - 1]);
      PlayKeepsInv(r, es[..|es| - 1]);
      EventLowersRank(Play(r, es[..|es| - 1]).value.round, es[|es| - 1]);
    }
  }

  /** Every betting round ends: no run is longer than the rank of its opening. */
  lemma RunsAreBounded(d: Deal, es: seq<Event>)
    requires Playable(d) && Play(Start(d), es).Some?
    ensures |es| <= Rank(Start(d))
  {
    StartKeepsInv(d);
    PlayLowersRank(Start(d), es);
  }

  // Two players, ids 0 and 1, who keep raising to nothing.

  function ZeroSeat(id: PlayerId, acted: bool): PlayerState {
    PlayerState(id, 1, 0, false, false, acted, 0)
  }

  /** `turn` is to act and has not; the other player has acted if `acted`. */
  function ZeroTable(turn: bool, acted: bool): Round {
    Round([ZeroSeat(0, turn && acted), ZeroSeat(1, !turn && acted)], if turn then 1 else 0, 0, 0, 0, false,
          if acted then 1 else 2, 2)
  }

  lemma TwoLive(ps: seq<PlayerState>)
    requires |ps| == 2 && ps[0].Live() && ps[1].Live()
    ensures Sum(ps, LiveW) == 2 && Sum(ps, InHandW) == 2
  {
    assert ps[..1] == [ps[0]] && ps[..1][..0] == [];
    assert Sum(ps[..1], LiveW) == 1 && Sum(ps[..1], InHandW) == 1;
  }

  /** Raising to nothing moves nothing: the other player is asked again. */
  lemma ZeroSettles(turn: bool, acted: bool)
    ensures var s := Settle(ZeroTable(turn, acted), Move(0, 0, 0, true, false, true));
            s == ZeroTable(!turn, true).(current := if turn then 1 else 0)
  {
    var s := Settle(ZeroTable(turn, acted), Move(0, 0, 0, true, false, true));
    assert s.players == ZeroTable(!turn, true).players;
  }

  lemma ZeroAdvances(turn: bool)
    ensures var r := ZeroTable(!turn, true);
            CheckDone(Advance(r.(current := if turn then 1 else 0))) == r
  {
    var r := ZeroTable(!turn, true);
    assert FirstLive(r.players, if turn then 0 else 1, 2) == Some(if turn then 0 else 1);
    TwoLive(r.players);
    assert CheckDone(r) == CloseIfMatched(r);
  }

  lemma ZeroRaise(turn: bool, acted: bool)
    ensures Apply(ZeroTable(turn, acted), if turn then 1 else 0, Raise(0)) == Ok(Applied(ZeroTable(!turn, true), 0))
  {
    var r := ZeroTable(turn, acted);
    assert Refusal(r, if turn then 1 else 0, Raise(0)) == None;
    assert Wager(r, r.players[r.current], Raise(0)) == Ok(Move(0, 0, 0, true, false, true));
    ZeroSettles(turn, acted);
    ZeroAdvances(turn);
  }

  lemma {:induction false} ZeroRuns(k: nat) returns (es: seq<Event>, turn: bool, acted: bool)
    ensures |es| == k && Play(ZeroTable(false, false), es).Some?
    ensures Play(ZeroTable(false, false), es).value.round == ZeroTable(turn, acted)
  {
    if k == 0 {
      es, turn, acted := [], false, false;
    } else {
      var prefix;
      prefix, turn, acted := ZeroRuns(k - 1);
      es := prefix + [Act(if turn then 1 else 0, Raise(0))];
      assert es[..|es| - 1] == prefix;
      ZeroRaise(turn, acted);
      turn, acted := !turn, true;
    }
  }

  /** Without a positive big blind a round need not end: runs of every length are accepted. */
  lemma ZeroBlindNeverEnds(k: nat)
    ensures exists es :: |es| == k && Play(Start(Postflop([(0, 1), (1, 1)], 0, 0, 0)), es).Some?
  {
    var d := Postflop([(0, 1), (1, 1)], 0, 0, 0);
    assert SeatAll(d.players) == [ZeroSeat(0, false), ZeroSeat(1, false)];
    TwoLive(SeatAll(d.players));
    assert Start(d) == ZeroTable(false, false);
    var es, turn, acted := ZeroRuns(k);
  }

  // ---- Reopening the betting ----

  /**
   For a player who has acted this street, clearing `hasActed` never grants a right that the
   arithmetic test would refuse.
   */
  ghost predicate SeatAgrees(p: PlayerState, acted: map<PlayerId, nat>, bet: nat, lastRaise: nat) {
    && (p.hasActed ==> p.playerId in acted)
    && (p.playerId in acted ==> p.actedAtBet == acted[p.playerId] <= bet)
    && (p.playerId in acted && !p.hasActed ==> bet - acted[p.playerId] >= lastRaise)
  }

  ghost predicate ReopeningAgrees(t: Trace) {
    t.round.nCanAct >= 2 ==>
      forall i :: 0 <= i < |t.round.players| && t.round.players[i].Live() ==>
        SeatAgrees(t.round.players[i], t.acted, t.round.currentBet, t.round.lastRaise)
  }

  /** A player who did not act keeps that, whether or not the action was a full raise. */
  lemma OtherSeatAgrees(r: Round, m: Move, p: PlayerState, acted: map<PlayerId, nat>, id: PlayerId, left: nat)
    requires r.current < |r.players| && Legal(r, m) && p.playerId != id
    requires SeatAgrees(p, acted, r.currentBet, r.lastRaise)
    ensures SeatAgrees(if m.aggression then p.(hasActed := false) else p, acted[id := left], m.bet, m.lastRaise)
  {
  }

  lemma ActionKeepsReopening(t: Trace, id: PlayerId, a: Action)
    requires Inv(t.round) && ReopeningAgrees(t) && Apply(t.round, id, a).Ok?
    ensures var s := Apply(t.round, id, a).value.round; ReopeningAgrees(Trace(s, t.acted[id := s.currentBet]))
  {
    var r := t.round;
    var m := ActionShape(r, id, a);
    var s := Apply(r, id, a).value.round;
    SettleKeepsChips(r, m);
    if s.nCanAct >= 2 {
      forall i | 0 <= i < |s.players| && s.players[i].Live()
        ensures SeatAgrees(s.players[i], t.acted[id := s.currentBet], s.currentBet, s.lastRaise)
      {
        if i != r.current {
          assert r.players[i].playerId != id;
          OtherSeatAgrees(r, m, r.players[i], t.acted, id, s.currentBet);
          assert s.players[i] == if m.aggression then r.players[i].(hasActed := false) else r.players[i];
        }
      }
    }
  }

  lemma ForfeitKeepsReopening(t: Trace, id: PlayerId)
    requires Inv(t.round) && ReopeningAgrees(t) && Forfeit(t.round, id).Ok?
    ensures ReopeningAgrees(Trace(Forfeit(t.round, id).value.round, t.acted))
  {
    var r := t.round;
    var i := ForfeitShape(r, id);
    var s := Retire(r, i);
    RetireKeepsCounts(r, i);
    assert forall j :: 0 <= j < |s.players| && s.players[j].Live() ==> s.players[j] == r.players[j];
  }

  lemma {:induction false} PlayKeepsReopening(r: Round, es: seq<Event>)
    requires Inv(r) && Play(r, es).Some?
    requires forall i :: 0 <= i < |r.players| ==> Fresh(r.players[i])
    ensures ReopeningAgrees(Play(r, es).value)
  {
    if es != [] {
      var t := Play(r, es[..|es| - 1]).value;
      PlayKeepsInv(r, es[..|es| - 1]);
      PlayKeepsReopening(r, es[..|es| - 1]);
      match es[|es| - 1]
      case Act(id, action) => ActionKeepsReopening(t, id, action);
      case Leave(id) => ForfeitKeepsReopening(t, id);
    }
  }

  /**
   A player who already acted this street raises the bet level again only when
   the bet has risen by at least a full raise since they last acted, whatever mix of
   full raises and short all-ins came between.
   */
  lemma RaiseNeedsReopening(d: Deal, es: seq<Event>, id: PlayerId, a: Action)
    requires Playable(d) && Play(Start(d), es).Some?
    requires var t := Play(Start(d), es).value; Placed(t.round) && Apply(t.round, id, a).Ok?
    ensures var t := Play(Start(d), es).value;
            id in t.acted && Apply(t.round, id, a).value.round.currentBet > t.round.currentBet ==>
              t.round.currentBet - t.acted[id] >= t.round.lastRaise
  {
    StartKeepsInv(d);
    PlayKeepsInv(Start(d), es);
    PlayKeepsReopening(Start(d), es);
    var t := Play(Start(d), es).value;
    var m := ActionShape(t.round, id, a);
    if m.bet > t.round.currentBet {
      var j :| 0 <= j < |t.round.players| && j != t.round.current && t.round.players[j].Live();
      if j < t.round.current { SumAtLeastTwo(t.round.players, j, t.round.current, LiveW); }
      else { SumAtLeastTwo(t.round.players, t.round.current, j, LiveW); }
    }
  }

  /** With two live stacks, having the flag cleared and passing the arithmetic test are the same right. */
  lemma FlagAgreesWithArithmetic(d: Deal, es: seq<Event>, i: nat)
    requires Playable(d) && Play(Start(d), es).Some?
    requires var t := Play(Start(d), es).value;
             i < |t.round.players| && t.round.players[i].Live() && t.round.nCanAct >= 2
             && t.round.players[i].playerId in t.acted
    ensures var r := Play(Start(d), es).value.round;
            (!r.players[i].hasActed || ReopenedFor(r, r.players[i]))
            <==> r.currentBet - Play(Start(d), es).value.acted[r.players[i].playerId] >= r.lastRaise
  {
    StartKeepsInv(d);
    PlayKeepsInv(Start(d), es);
    PlayKeepsReopening(Start(d), es);
  }
}
