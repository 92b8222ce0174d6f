/**
 One street of no-limit betting (engine/src/round.rs).

 `Round` is the value of a `BettingRound` object between two calls. The functions
 describe one call each; the class below performs the calls in place, with the
 source's loops, and is proved to compute exactly these functions.
 */
module Betting {
  import opened Outcomes

  const U32_MAX: nat := 0xFFFF_FFFF

  type PlayerId = nat

  datatype PlayerState = PlayerState(
    playerId: PlayerId,
    stack: nat,
    contributed: nat,
    folded: bool,
    allIn: bool,
    hasActed: bool,
    actedAtBet: nat)
  {
    predicate Live() { !folded && !allIn }
  }

  datatype Action = Fold | Check | Call | Raise(amount: nat) | AllIn | Blind(posted: nat)

  datatype ActionError =
    HandFinished | NotYourTurn | AlreadyFolded | InvalidAction | BelowMinRaise | NotInHand

  datatype Round = Round(
    players: seq<PlayerState>,
    current: nat,
    currentBet: nat,
    lastRaise: nat,
    potTotal: nat,
    done: bool,
    actionsRemaining: nat,
    nCanAct: nat)

  /** The round after an accepted call, and the chips that call moved. */
  datatype Applied = Applied(round: Round, moved: nat)

  function SatAdd(a: nat, b: nat): nat { Min(a + b, U32_MAX) }

  // ---- Sums and counts over the players ----

  function Sum(ps: seq<PlayerState>, f: PlayerState -> nat): nat {
    if ps == [] then 0 else Sum(ps[..|ps| - 1], f) + f(ps[|ps| - 1])
  }

  function LiveW(p: PlayerState): nat { if p.Live() then 1 else 0 }
  function PendingW(p: PlayerState): nat { if p.Live() && !p.hasActed then 1 else 0 }
  function InHandW(p: PlayerState): nat { if p.folded then 0 else 1 }
  function StackW(p: PlayerState): nat { p.stack }
  function ContributedW(p: PlayerState): nat { p.contributed }
  function ChipsW(p: PlayerState): nat { p.stack + p.contributed }

  // ---- Turn order ----

  function Next(n: nat, i: nat): nat { if i + 1 < n then i + 1 else 0 }

  /** First live index among the `k` cyclic positions starting at `start`. */
  function FirstLive(ps: seq<PlayerState>, start: nat, k: nat): Option<nat>
    requires start < |ps|
    decreases k
  {
    if k == 0 then None
    else if ps[start].Live() then Some(start)
    else FirstLive(ps, Next(|ps|, start), k - 1)
  }

  function Advance(r: Round): Round
    requires r.current < |r.players|
  {
    match FirstLive(r.players, Next(|r.players|, r.current), |r.players|)
    case Some(j) => r.(current := j)
    case None => r.(done := true)
  }

  function SeekActive(r: Round): Round
    requires r.current < |r.players|
  {
    match FirstLive(r.players, r.current, |r.players|)
    case Some(j) => r.(current := j)
    case None => r.(done := true)
  }

  // ---- Closing a round ----

  /** Largest contribution of a player still in the hand, `id` excepted. */
  function MaxOpponent(ps: seq<PlayerState>, id: PlayerId): nat {
    if ps == [] then 0
    else
      var p := ps[|ps| - 1];
      var m := MaxOpponent(ps[..|ps| - 1], id);
      if p.playerId != id && !p.folded then Max(m, p.contributed) else m
  }

  predicate AllMatched(r: Round) {
    forall i :: 0 <= i < |r.players| && r.players[i].Live() ==> r.players[i].contributed == r.currentBet
  }

  /** The last two closing rules, which never look at the lone-player case. */
  function CloseIfMatched(r: Round): Round {
    if Sum(r.players, InHandW) <= 1 || (AllMatched(r) && r.actionsRemaining == 0)
    then r.(done := true) else r
  }

  function CheckDone(r: Round): Round {
    if r.nCanAct == 0 then r.(done := true)
    else if r.nCanAct == 1 && |r.players| > 0 && FirstLive(r.players, 0, |r.players|).Some? then
      var lone := r.players[FirstLiveIndex(r.players)];
      var opponent := MaxOpponent(r.players, lone.playerId);
      if lone.contributed >= opponent then r.(done := true)
      else CloseIfMatched(r.(currentBet := Min(r.currentBet, opponent)))
    else CloseIfMatched(r)
  }

  function FirstLiveIndex(ps: seq<PlayerState>): (i: nat)
    requires |ps| > 0 && FirstLive(ps, 0, |ps|).Some?
    ensures i < |ps| && ps[i].Live()
  {
    FirstLiveSound(ps, 0, |ps|);
    FirstLive(ps, 0, |ps|).value
  }

  lemma FirstLiveSound(ps: seq<PlayerState>, start: nat, k: nat)
    requires start < |ps|
    ensures FirstLive(ps, start, k).Some? ==>
              FirstLive(ps, start, k).value < |ps| && ps[FirstLive(ps, start, k).value].Live()
    decreases k
  {
    if k > 0 && !ps[start].Live() { FirstLiveSound(ps, Next(|ps|, start), k - 1); }
  }

  // ---- Raise rights ----

  predicate ReopenedFor(r: Round, p: PlayerState) {
    r.lastRaise > 0 && Monus(r.currentBet, p.actedAtBet) >= r.lastRaise
  }

  predicate OtherLive(ps: seq<PlayerState>, i: nat) {
    exists j :: 0 <= j < |ps| && j != i && ps[j].Live()
  }

  predicate CanRaise(r: Round, i: nat) {
    && i < |r.players|
    && r.players[i].Live()
    && SatAdd(r.players[i].contributed, r.players[i].stack) > r.currentBet
    && OtherLive(r.players, i)
    && (!r.players[i].hasActed || ReopenedFor(r, r.players[i]))
  }

  // ---- One action ----

  /** A wager above the current bet, however it is spelled. */
  predicate Aggressive(r: Round, p: PlayerState, a: Action) {
    match a
    case Raise(to) => to > r.currentBet
    case AllIn => SatAdd(p.contributed, p.stack) > r.currentBet
    case _ => false
  }

  /** Refused to a player who has acted and for whom betting was not reopened. */
  predicate RaiseAttempt(r: Round, p: PlayerState, a: Action) {
    match a
    case Raise(to) => !(Monus(to, p.contributed) == p.stack && to <= r.currentBet)
    case AllIn => p.contributed + p.stack > r.currentBet
    case _ => false
  }

  /** What an accepted action does to the bet; `commits` when it may empty the stack. */
  datatype Move = Move(commit: nat, bet: nat, lastRaise: nat, aggression: bool, fold: bool, commits: bool)

  function Wager(r: Round, p: PlayerState, a: Action): Result<Move, ActionError> {
    var toCall := Monus(r.currentBet, p.contributed);
    match a
    case Fold => Ok(Move(0, r.currentBet, r.lastRaise, false, true, false))
    case Check =>
      if toCall > 0 then Err(InvalidAction)
      else Ok(Move(0, r.currentBet, r.lastRaise, false, false, false))
    case Call => Ok(Move(Min(toCall, p.stack), r.currentBet, r.lastRaise, false, false, true))
    case Raise(to) =>
      var commit := Monus(to, p.contributed);
      if commit > p.stack then Err(InvalidAction)
      else if to < SatAdd(r.currentBet, r.lastRaise) then
        if commit == p.stack && p.stack > 0
        then Ok(Move(commit, Max(r.currentBet, to), r.lastRaise, false, false, true))
        else Err(BelowMinRaise)
      else Ok(Move(commit, to, Monus(to, r.currentBet), true, false, true))
    case AllIn =>
      var total := p.contributed + p.stack;
      var delta := Monus(total, r.currentBet);
      if delta > 0 && delta >= r.lastRaise then Ok(Move(p.stack, total, delta, true, false, true))
      else Ok(Move(p.stack, Max(r.currentBet, total), r.lastRaise, false, false, true))
    case Blind(_) => Err(InvalidAction)
  }

  function Acted(p: PlayerState, m: Move): PlayerState
    requires m.commit <= p.stack
  {
    p.(stack := p.stack - m.commit,
       contributed := p.contributed + m.commit,
       folded := p.folded || m.fold,
       allIn := p.allIn || (m.commits && p.stack == m.commit),
       hasActed := true,
       actedAtBet := m.bet)
  }

  /** A full raise clears every other live player's `hasActed`. */
  function Reopen(ps: seq<PlayerState>, i: nat): (qs: seq<PlayerState>)
    ensures |qs| == |ps|
  {
    seq(|ps|, j requires 0 <= j < |ps| =>
      if j != i && ps[j].Live() then ps[j].(hasActed := false) else ps[j])
  }

  function Settle(r: Round, m: Move): Round
    requires r.current < |r.players|
    requires m.commit <= r.players[r.current].stack
  {
    var p := Acted(r.players[r.current], m);
    var others := if m.aggression then Reopen(r.players, r.current) else r.players;
    var broke := m.commits && p.stack == 0;
    var can := if m.fold || broke then Monus(r.nCanAct, 1) else r.nCanAct;
    r.(players := others[r.current := p],
       currentBet := m.bet,
       lastRaise := m.lastRaise,
       potTotal := r.potTotal + m.commit,
       nCanAct := can,
       actionsRemaining :=
         if !m.aggression then Monus(r.actionsRemaining, 1)
         else if p.allIn then can
         else Monus(can, 1))
  }

  /** The turn and raise-right checks made before any chip moves. */
  function Refusal(r: Round, id: PlayerId, a: Action): Option<ActionError>
    requires r.players != [] ==> r.current < |r.players|
  {
    if r.done || r.players == [] then Some(HandFinished)
    else
      var p := r.players[r.current];
      if p.playerId != id then Some(NotYourTurn)
      else if p.folded then Some(AlreadyFolded)
      else if p.allIn then Some(InvalidAction)
      else if Aggressive(r, p, a) && !CanRaise(r, r.current) then Some(InvalidAction)
      else if p.hasActed && !ReopenedFor(r, p) && RaiseAttempt(r, p, a) then Some(InvalidAction)
      else None
  }

  function Apply(r: Round, id: PlayerId, a: Action): Result<Applied, ActionError>
    requires r.players != [] ==> r.current < |r.players|
  {
    match Refusal(r, id, a)
    case Some(e) => Err(e)
    case None =>
      match Wager(r, r.players[r.current], a)
      case Err(e) => Err(e)
      case Ok(m) => Ok(Applied(CheckDone(Advance(Settle(r, m))), m.commit))
  }

  // ---- Forfeits ----

  function IndexOf(ps: seq<PlayerState>, id: PlayerId): (o: Option<nat>)
    ensures o.Some? ==> o.value < |ps| && ps[o.value].playerId == id
    ensures o.Some? ==> forall j :: 0 <= j < o.value ==> ps[j].playerId != id
    ensures o.None? ==> forall j :: 0 <= j < |ps| ==> ps[j].playerId != id
  {
    if ps == [] then None
    else
      match IndexOf(ps[..|ps| - 1], id)
      case Some(j) => Some(j)
      case None => if ps[|ps| - 1].playerId == id then Some(|ps| - 1) else None
  }

  function Retire(r: Round, i: nat): Round
    requires i < |r.players|
  {
    var p := r.players[i];
    var owed := !p.hasActed || p.contributed < r.currentBet;
    r.(players := r.players[i := p.(folded := true, hasActed := true)],
       nCanAct := if p.allIn then r.nCanAct else Monus(r.nCanAct, 1),
       actionsRemaining :=
         if !p.allIn && owed then Monus(r.actionsRemaining, 1) else r.actionsRemaining)
  }

  function Forfeit(r: Round, id: PlayerId): Result<Applied, ActionError>
    requires r.players != [] ==> r.current < |r.players|
  {
    match IndexOf(r.players, id)
    case None => Err(NotInHand)
    case Some(i) =>
      if r.players[i].folded then Err(AlreadyFolded)
      else if Sum(r.players, InHandW) <= 1 then Err(HandFinished)
      else
        var retired := Retire(r, i);
        Ok(Applied(CheckDone(if i == r.current then Advance(retired) else retired), 0))
  }

  // ---- Opening a round ----

  function Seated(id: PlayerId, stack: nat): PlayerState {
    PlayerState(id, stack, 0, false, stack == 0, false, 0)
  }

  function SeatAll(players: seq<(PlayerId, nat)>): seq<PlayerState> {
    seq(|players|, i requires 0 <= i < |players| => Seated(players[i].0, players[i].1))
  }

  function Empty(currentBet: nat, bigBlind: nat): Round {
    Round([], 0, currentBet, bigBlind, 0, true, 0, 0)
  }

  function Begin(ps: seq<PlayerState>, firstActor: nat, currentBet: nat, bigBlind: nat, posted: nat): Round
    requires ps != []
  {
    var n := Sum(ps, LiveW);
    CheckDone(SeekActive(Round(ps, firstActor % |ps|, currentBet, bigBlind, posted, false, n, n)))
  }

  function Open(players: seq<(PlayerId, nat)>, firstActor: nat, currentBet: nat, bigBlind: nat): Round {
    if players == [] then Empty(currentBet, bigBlind)
    else
      Begin(SeatAll(players), firstActor, currentBet, bigBlind, 0)
  }

  /** Players, bet level and pot after the blinds posted so far. */
  datatype Posted = Posted(players: seq<PlayerState>, bet: nat, total: nat)

  function PostBlind(s: Posted, id: PlayerId, amount: nat): Posted {
    match IndexOf(s.players, id)
    case None => s
    case Some(i) =>
      var p := s.players[i];
      var actual := Min(amount, p.stack);
      var q := p.(stack := p.stack - actual,
                  contributed := p.contributed + actual,
                  allIn := p.allIn || p.stack == actual);
      Posted(s.players[i := q], Max(s.bet, q.contributed), s.total + actual)
  }

  function PostBlinds(s: Posted, blinds: seq<(PlayerId, nat)>): Posted {
    if blinds == [] then s
    else
      var last := blinds[|blinds| - 1];
      PostBlind(PostBlinds(s, blinds[..|blinds| - 1]), last.0, last.1)
  }

  /** A seat already empty before the blinds is all-in. */
  function MarkBroke(ps: seq<PlayerState>): seq<PlayerState> {
    seq(|ps|, i requires 0 <= i < |ps| => ps[i].(allIn := ps[i].allIn || ps[i].stack == 0))
  }

  function Unposted(players: seq<(PlayerId, nat)>): Posted {
    Posted(seq(|players|, i requires 0 <= i < |players| =>
                 PlayerState(players[i].0, players[i].1, 0, false, false, false, 0)), 0, 0)
  }

  function OpenPreflop(players: seq<(PlayerId, nat)>, firstActor: nat, blinds: seq<(PlayerId, nat)>, bigBlind: nat): Round
  {
    if players == [] then Empty(0, bigBlind)
    else
      var s := PostBlinds(Unposted(players), blinds);
      PostBlindsKeepsSeats(Unposted(players), blinds);
      Begin(MarkBroke(s.players), firstActor, Max(s.bet, bigBlind), bigBlind, s.total)
  }

  lemma PostBlindsKeepsSeats(s: Posted, blinds: seq<(PlayerId, nat)>)
    ensures |PostBlinds(s, blinds).players| == |s.players|
  {
    if blinds != [] { PostBlindsKeepsSeats(s, blinds[..|blinds| - 1]); }
  }
}
