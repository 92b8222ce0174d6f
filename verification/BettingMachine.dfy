/** The betting round as the mutable object of engine/src/round.rs. */
module BettingMachine {
  import opened Outcomes
  import opened Betting

  lemma WrapsToNext(i: nat, n: nat)
    requires i < n
    ensures (i + 1) % n == Next(n, i)
  {
    if i + 1 == n { assert (i + 1) % n == 0; }
  }

  method PostOne(s: Posted, id: PlayerId, amount: nat) returns (t: Posted)
    ensures t == PostBlind(s, id, amount)
  {
    var found := IndexOf(s.players, id);
    if found.None? { return s; }
    var p := s.players[found.value];
    var actual := Min(amount, p.stack);
    p := p.(stack := p.stack - actual, contributed := p.contributed + actual);
    if p.stack == 0 {
      p := p.(allIn := true);
    }
    var bet := s.bet;
    if p.contributed > bet {
      bet := p.contributed;
    }
    t := Posted(s.players[found.value := p], bet, s.total + actual);
  }

  /** Blinds posted one by one, as `new_preflop` does. */
  method PostAll(seated: Posted, blinds: seq<(PlayerId, nat)>) returns (s: Posted)
    ensures s == PostBlinds(seated, blinds)
  {
    s := seated;
    for k := 0 to |blinds|
      invariant s == PostBlinds(seated, blinds[..k])
    {
      assert blinds[..k + 1][..k] == blinds[..k];
      s := PostOne(s, blinds[k].0, blinds[k].1);
    }
    assert blinds[..|blinds|] == blinds;
  }

  class BettingRound {
    var players: seq<PlayerState>
    var current: nat
    var currentBet: nat
    var lastRaiseAmount: nat
    var potTotal: nat
    var done: bool
    var actionsRemaining: nat
    var nCanAct: nat

    ghost function View(): Round
      reads this
    {
      Round(players, current, currentBet, lastRaiseAmount, potTotal, done, actionsRemaining, nCanAct)
    }

    ghost predicate Placed()
      reads this
    {
      players != [] ==> current < |players|
    }

    constructor New(seats: seq<(PlayerId, nat)>, firstActor: nat, bet: nat, bigBlind: nat)
      ensures View() == Open(seats, firstActor, bet, bigBlind)
    {
      players := SeatAll(seats);
      current := if seats == [] then 0 else firstActor % |seats|;
      currentBet, lastRaiseAmount, potTotal := bet, bigBlind, 0;
      done := seats == [];
      actionsRemaining := Sum(SeatAll(seats), LiveW);
      nCanAct := Sum(SeatAll(seats), LiveW);
      new;
      if seats != [] {
        SeekActive();
        CheckDone();
      }
    }

    constructor NewPreflop(seats: seq<(PlayerId, nat)>, firstActor: nat, blinds: seq<(PlayerId, nat)>, bigBlind: nat)
      ensures View() == OpenPreflop(seats, firstActor, blinds, bigBlind)
    {
      var s := PostAll(Unposted(seats), blinds);
      PostBlindsKeepsSeats(Unposted(seats), blinds);
      var ps := MarkBroke(s.players);
      players := if seats == [] then [] else ps;
      current := if seats == [] then 0 else firstActor % |seats|;
      currentBet := if seats == [] then 0 else Max(s.bet, bigBlind);
      lastRaiseAmount := bigBlind;
      potTotal := if seats == [] then 0 else s.total;
      done := seats == [];
      actionsRemaining := if seats == [] then 0 else Sum(ps, LiveW);
      nCanAct := if seats == [] then 0 else Sum(ps, LiveW);
      new;
      if seats != [] {
        SeekActive();
        CheckDone();
      }
    }

    /** The turn passes to the next live seat after the current one; with none left the round is over. */
    method Advance()
      requires current < |players|
      modifies this`current, this`done
      ensures View() == Betting.Advance(old(View()))
    {
      var n, start := |players|, current;
      ghost var sought := FirstLive(players, Next(n, start), n);
      for k := 0 to n
        invariant current < n && current == (if start + k < n then start + k else start + k - n)
        invariant done == old(done)
        invariant FirstLive(players, Next(n, current), n - k) == sought
      {
        WrapsToNext(current, n);
        current := (current + 1) % n;
        if players[current].Live() {
          return;
        }
      }
      done := true;
    }

    /** The opening turn goes to the first live seat at or after the starting one. */
    method SeekActive()
      requires current < |players|
      modifies this`current, this`done
      ensures View() == Betting.SeekActive(old(View()))
    {
      var n, start := |players|, current;
      var i := 0;
      var idx := start;
      while i < n
        invariant i <= n && idx < n && idx == (if start + i < n then start + i else start + i - n)
        invariant current == start && done == old(done)
        invariant FirstLive(players, idx, n - i) == FirstLive(players, start, n)
      {
        if players[idx].Live() {
          current := idx;
          return;
        }
        WrapsToNext(idx, n);
        idx := (idx + 1) % n;
        i := i + 1;
      }
      done := true;
    }

    /** Close the round, and lower a floored bet, when no decision is left. */
    method CheckDone()
      modifies this`currentBet, this`done
      ensures View() == Betting.CheckDone(old(View()))
    {
      if nCanAct == 0 {
        done := true;
        return;
      }
      if nCanAct == 1 && |players| > 0 {
        var lone := FirstLive(players, 0, |players|);
        if lone.Some? {
          FirstLiveSound(players, 0, |players|);
          var opponent := MaxOpponent(players, players[lone.value].playerId);
          if players[lone.value].contributed >= opponent {
            done := true;
            return;
          }
          if currentBet > opponent {
            currentBet := opponent;
          }
        }
      }
      if Sum(players, InHandW) <= 1 {
        done := true;
        return;
      }
      var allMatched :=
        forall i :: 0 <= i < |players| && players[i].Live() ==> players[i].contributed == currentBet;
      if allMatched && actionsRemaining == 0 {
        done := true;
      }
    }

    method PlayerCanRaise(idx: nat) returns (can: bool)
      ensures can == CanRaise(View(), idx)
    {
      if idx >= |players| || players[idx].folded || players[idx].allIn {
        return false;
      }
      var ps := players[idx];
      if SatAdd(ps.contributed, ps.stack) <= currentBet {
        return false;
      }
      var other := exists j :: 0 <= j < |players| && j != idx && players[j].Live();
      if !other {
        return false;
      }
      can := !ps.hasActed || (lastRaiseAmount > 0 && Monus(currentBet, ps.actedAtBet) >= lastRaiseAmount);
    }

    /** After a full raise the rest of the live table has its turn back. */
    method ClearActed(idx: nat)
      modifies this`players
      ensures players == Reopen(old(players), idx)
    {
      for i := 0 to |players|
        invariant |players| == |old(players)|
        invariant forall j :: 0 <= j < i ==> players[j] == Reopen(old(players), idx)[j]
        invariant forall j :: i <= j < |players| ==> players[j] == old(players)[j]
      {
        if i != idx && players[i].Live() {
          players := players[i := players[i].(hasActed := false)];
        }
      }
    }

    /** Take chips from the actor's stack, going all-in when it empties. */
    method Commit(idx: nat, amount: nat)
      requires idx < |players| && amount <= players[idx].stack
      modifies this`players, this`potTotal, this`nCanAct
      ensures var p := old(players)[idx];
              && players == old(players)[idx := p.(stack := p.stack - amount,
                                                   contributed := p.contributed + amount,
                                                   allIn := p.allIn || p.stack == amount)]
              && potTotal == old(potTotal) + amount
              && nCanAct == if p.stack == amount then Monus(old(nCanAct), 1) else old(nCanAct)
    {
      var p := players[idx];
      p := p.(contributed := p.contributed + amount, stack := p.stack - amount);
      potTotal := potTotal + amount;
      if p.stack == 0 {
        p := p.(allIn := true);
        nCanAct := Monus(nCanAct, 1);
      }
      players := players[idx := p];
    }

    /** The `match` of `apply_action`: move the actor's chips and the bet, or refuse. */
    method PlaceWager(idx: nat, action: Action) returns (res: Result<(nat, bool), ActionError>)
      requires idx < |players|
      modifies this`players, this`currentBet, this`lastRaiseAmount, this`potTotal, this`nCanAct
      ensures var p := old(players)[idx];
              match Wager(old(View()), p, action)
              case Err(e) => res == Err(e) && View() == old(View())
              case Ok(m) =>
                && res == Ok((m.commit, m.aggression))
                && currentBet == m.bet && lastRaiseAmount == m.lastRaise
                && potTotal == old(potTotal) + m.commit
                && m.commit <= p.stack
                && nCanAct == (if m.fold || (m.commits && p.stack == m.commit)
                               then Monus(old(nCanAct), 1) else old(nCanAct))
                && players == old(players)[idx :=
                     p.(stack := p.stack - m.commit,
                        contributed := p.contributed + m.commit,
                        folded := p.folded || m.fold,
                        allIn := p.allIn || (m.commits && p.stack == m.commit))]
    {
      var ps := players[idx];
      var toCall := Monus(currentBet, ps.contributed);
      var aggression := false;
      var moved: nat := 0;
      match action {
        case Fold =>
          players := players[idx := ps.(folded := true)];
          nCanAct := Monus(nCanAct, 1);
        case Check =>
          if toCall > 0 { return Err(InvalidAction); }
        case Call =>
          moved := Min(toCall, ps.stack);
          Commit(idx, moved);
        case Raise(to) =>
          moved := Monus(to, ps.contributed);
          if moved > ps.stack { return Err(InvalidAction); }
          if to < SatAdd(currentBet, lastRaiseAmount) {
            if !(moved == ps.stack && ps.stack > 0) { return Err(BelowMinRaise); }
            if to > currentBet { currentBet := to; }
          } else {
            lastRaiseAmount := Monus(to, currentBet);
            currentBet := to;
            aggression := true;
          }
          Commit(idx, moved);
        case AllIn =>
          moved := ps.stack;
          var total := ps.contributed + moved;
          if total > currentBet {
            var delta := total - currentBet;
            if delta >= lastRaiseAmount {
              lastRaiseAmount := delta;
              aggression := true;
            }
            currentBet := total;
          }
          Commit(idx, moved);
        case Blind(_) => return Err(InvalidAction);
      }
      return Ok((moved, aggression));
    }

    /** Count the action and note the bet level it was taken at. */
    method Record(idx: nat, aggression: bool)
      requires idx < |players|
      modifies this`players, this`actionsRemaining
      ensures players == (if aggression then Reopen(old(players), idx) else old(players))
                         [idx := old(players)[idx].(hasActed := true, actedAtBet := currentBet)]
      ensures actionsRemaining == if !aggression then Monus(old(actionsRemaining), 1)
                                  else if old(players)[idx].allIn then nCanAct
                                  else Monus(nCanAct, 1)
    {
      if aggression {
        actionsRemaining := nCanAct;
        if !players[idx].allIn {
          actionsRemaining := Monus(actionsRemaining, 1);
        }
        ClearActed(idx);
      } else {
        actionsRemaining := Monus(actionsRemaining, 1);
      }
      players := players[idx := players[idx].(hasActed := true, actedAtBet := currentBet)];
    }

    method CheckTurn(playerId: PlayerId, action: Action) returns (refused: Option<ActionError>)
      requires Placed()
      ensures refused == Refusal(View(), playerId, action)
    {
      if done || players == [] { return Some(HandFinished); }
      var ps := players[current];
      if ps.playerId != playerId { return Some(NotYourTurn); }
      if ps.folded { return Some(AlreadyFolded); }
      if ps.allIn { return Some(InvalidAction); }
      var aggressive := (action.Raise? && action.amount > currentBet)
                     || (action.AllIn? && SatAdd(ps.contributed, ps.stack) > currentBet);
      var canRaise := PlayerCanRaise(current);
      if aggressive && !canRaise { return Some(InvalidAction); }
      if ps.hasActed && !(lastRaiseAmount > 0 && Monus(currentBet, ps.actedAtBet) >= lastRaiseAmount) {
        var attempt :=
          (action.Raise?
           && !(Monus(action.amount, ps.contributed) == ps.stack && action.amount <= currentBet))
          || (action.AllIn? && ps.contributed + ps.stack > currentBet);
        if attempt { return Some(InvalidAction); }
      }
      return None;
    }

    /** Apply an action for `playerId`, who must be the current actor. */
    method ApplyAction(playerId: PlayerId, action: Action) returns (res: Result<nat, ActionError>)
      requires Placed()
      modifies this
      ensures match Apply(old(View()), playerId, action)
              case Err(e) => res == Err(e) && View() == old(View())
              case Ok(applied) => res == Ok(applied.moved) && View() == applied.round
    {
      var refused := CheckTurn(playerId, action);
      if refused.Some? { return Err(refused.value); }
      ghost var before := View();
      var idx := current;
      var wager := PlaceWager(idx, action);
      if wager.Err? { return Err(wager.error); }
      var (moved, aggression) := wager.value;
      Record(idx, aggression);
      assert View() == Settle(before, Wager(before, before.players[idx], action).value);
      this.Advance();
      this.CheckDone();
      return Ok(moved);
    }

    /** Retire a player at once, in or out of turn. */
    method ForfeitPlayer(playerId: PlayerId) returns (res: Result<nat, ActionError>)
      requires Placed()
      modifies this
      ensures match Forfeit(old(View()), playerId)
              case Err(e) => res == Err(e) && View() == old(View())
              case Ok(applied) => res == Ok(applied.moved) && View() == applied.round
    {
      var found := IndexOf(players, playerId);
      if found.None? { return Err(NotInHand); }
      var idx := found.value;
      var player := players[idx];
      if player.folded { return Err(AlreadyFolded); }
      if Sum(players, InHandW) <= 1 { return Err(HandFinished); }
      ghost var before := View();
      if !player.allIn {
        nCanAct := Monus(nCanAct, 1);
        if !player.hasActed || player.contributed < currentBet {
          actionsRemaining := Monus(actionsRemaining, 1);
        }
      }
      players := players[idx := player.(folded := true, hasActed := true)];
      assert View() == Retire(before, idx);
      if idx == current {
        this.Advance();
      }
      this.CheckDone();
      return Ok(0);
    }
  }
}
