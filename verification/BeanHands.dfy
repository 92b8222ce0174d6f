/** What accepting and acknowledging one poker hand do to its players, field by field. */
module BeanHands {
  import opened Outcomes
  import opened BeanLedger
  import opened BeanIndex

  /** Every player is known, distinct, and can afford the settlement. */
  predicate Payable(users: map<UserId, User>, players: seq<(UserId, Delta)>) {
    && (forall i, j :: 0 <= i < j < |players| ==> players[i].0 != players[j].0)
    && (forall i :: 0 <= i < |players| ==>
          && players[i].0 in users && users[players[i].0].wallet.Some?
          && Affordable(users[players[i].0].wallet.value, players[i].1))
  }

  predicate Affordable(w: Wallet, d: Delta) { Credit(w, d).balance >= 0 && WalletFits(Credit(w, d)) }

  ghost predicate Plays(players: seq<(UserId, Delta)>, id: UserId) {
    exists k :: 0 <= k < |players| && players[k].0 == id
  }

  /** The wallet gains exactly `d`, field by field, and the overlay holds exactly `d` under `record`. */
  ghost predicate Credited(u: User, v: User, record: Id, d: Delta) {
    && u.wallet.Some? && v.wallet.Some?
    && v.wallet.value.balance == u.wallet.value.balance + d.balance
    && v.wallet.value.netWon == u.wallet.value.netWon + d.net
    && v.wallet.value.handsPlayed == u.wallet.value.handsPlayed + d.played
    && v.wallet.value.handsWon == u.wallet.value.handsWon + d.won
    && v.wallet.value.refills == u.wallet.value.refills
    && v == u.(wallet := v.wallet, poker := u.poker[record := d], generation := v.generation)
  }

  /** Every player of the hand is credited with their own part, under one generation; nobody else changes. */
  ghost predicate HandCredited(b: Book, record: Id, players: seq<(UserId, Delta)>, after: Book, generation: nat) {
    && after.users.Keys == b.users.Keys && after.epoch == b.epoch && after.guards == b.guards
    && (forall k :: 0 <= k < |players| ==>
          && players[k].0 in b.users && after.users[players[k].0].generation == generation
          && Credited(b.users[players[k].0], after.users[players[k].0], record, players[k].1))
    && (forall id :: id in b.users && !Plays(players, id) ==> after.users[id] == b.users[id])
  }

  lemma SettleOneCredits(b: Book, now: Book, record: Id, players: seq<(UserId, Delta)>, last: (UserId, Delta), generation: nat)
    requires HandCredited(b, record, players, now, generation) && !Plays(players, last.0)
    requires last.0 in b.users && b.users[last.0].wallet.Some?
    ensures HandCredited(b, record, players + [last], SettleOne(now, last.0, record, last.1, generation), generation)
  {
    var all, after := players + [last], SettleOne(now, last.0, record, last.1, generation);
    forall k | 0 <= k < |all|
      ensures all[k].0 in b.users && after.users[all[k].0].generation == generation
      ensures Credited(b.users[all[k].0], after.users[all[k].0], record, all[k].1)
    {
      if k < |players| { assert all[k] == players[k] && players[k].0 != last.0; }
    }
    forall id | id in b.users && !Plays(all, id) ensures after.users[id] == b.users[id] {
      PlaysLast(players, last, id);
    }
  }

  lemma PayableFront(users: map<UserId, User>, players: seq<(UserId, Delta)>)
    requires Payable(users, players) && players != []
    ensures var front, last := players[..|players| - 1], players[|players| - 1];
            Payable(users, front) && !Plays(front, last.0) && last.0 in users && users[last.0].wallet.Some?
  {
  }

  lemma {:induction false} SettleAllCredits(b: Book, record: Id, players: seq<(UserId, Delta)>, generation: nat)
    requires Payable(b.users, players)
    ensures HandCredited(b, record, players, SettleAll(b, record, players, generation), generation)
  {
    if players != [] {
      var front, last := players[..|players| - 1], players[|players| - 1];
      PayableFront(b.users, players);
      SettleAllCredits(b, record, front, generation);
      var now := SettleAll(b, record, front, generation);
      assert players == front + [last];
      assert SettleAll(b, record, players, generation) == SettleOne(now, last.0, record, last.1, generation);
      SettleOneCredits(b, now, record, front, last, generation);
    }
  }

  /** An acknowledged hand leaves its players' overlays, and nothing else of anybody changes. */
  ghost predicate HandReleased(b: Book, record: Id, players: seq<(UserId, Delta)>, after: Book, generation: nat) {
    && after.users.Keys == b.users.Keys && after.epoch == b.epoch && after.guards == b.guards
    && forall id :: id in b.users ==>
         after.users[id] == if Plays(players, id)
                            then b.users[id].(poker := b.users[id].poker - {record}, generation := generation)
                            else b.users[id]
  }

  lemma PlaysLast(front: seq<(UserId, Delta)>, last: (UserId, Delta), id: UserId)
    ensures Plays(front + [last], id) <==> Plays(front, id) || last.0 == id
  {
    var all := front + [last];
    assert all[|front|] == last;
    if Plays(front, id) {
      var k :| 0 <= k < |front| && front[k].0 == id;
      assert all[k].0 == id;
    }
    if Plays(all, id) && last.0 != id {
      var k :| 0 <= k < |all| && all[k].0 == id;
      assert front[k].0 == id;
    }
  }

  lemma {:induction false} ReleaseAllReleases(b: Book, record: Id, players: seq<(UserId, Delta)>, generation: nat)
    ensures HandReleased(b, record, players, ReleaseAll(b, record, players, generation), generation)
  {
    if players != [] {
      var front, last := players[..|players| - 1], players[|players| - 1];
      var before := ReleaseAll(b, record, front, generation);
      ReleaseAllReleases(b, record, front, generation);
      assert players == front + [last];
      forall id | id in b.users
        ensures ReleaseAll(b, record, players, generation).users[id]
                == if Plays(players, id) then b.users[id].(poker := b.users[id].poker - {record}, generation := generation)
                   else b.users[id]
      {
        PlaysLast(front, last, id);
        assert b.users[id].poker - {record} - {record} == b.users[id].poker - {record};
      }
    }
  }
}
