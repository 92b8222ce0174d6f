/**
 The mutex-guarded `Inner` state of the bean authority. Each method adjusts the users,
 the two rank indexes, the two counters and the guards by hand, as the source does, and
 is proved to perform one `BeanIndex.Op`. The few that rely on the books being kept ask
 for `Booked`, which `BeanIndex.RunsStayBooked` gives in every reachable state.
 */
module BeanMachine {
  import opened Outcomes
  import opened BeanLedger
  import opened BeanIndex
  import opened BeanHands

  /** The capacity checks of `replace`. */
  predicate HasRoom(b: Book, id: UserId, user: User) {
    && b.count - RowsAt(b.users, id) + Rows(user) <= MAX_ROWS
    && b.bytes - BytesAt(b.users, id) + user.bytes <= MAX_BYTES
    && (id in b.users || |b.users| < MAX_USERS)
  }

  /** What a new lottery effect must pass: an unspent day, the expected balance, funds and capacity. */
  predicate Fundable(u: User, rows: int, size: int, effect: PendingEffect, spend: int, expected: int, reserved: int) {
    && u.wallet.Some? && u.wallet.value.balance == expected
    && (effect.day.Some? ==> effect.day.value !in u.days)
    && 0 <= spend <= expected - reserved
    && rows < MAX_ROWS && size + 256 <= MAX_BYTES
    && Affordable(u.wallet.value, effect.change)
  }

  /** The checks of `accept_effect`, in its order. */
  method CheckEffect(u: User, rows: int, size: int, effect: PendingEffect, spend: int, expected: int, reserved: int) returns (ok: bool)
    ensures ok <==> Fundable(u, rows, size, effect, spend, expected, reserved)
  {
    if u.wallet.None? || u.wallet.value.balance != expected { return false; }
    if effect.day.Some? && effect.day.value in u.days { return false; }
    if spend < 0 || u.wallet.value.balance - reserved < spend { return false; }
    if rows >= MAX_ROWS || size + 256 > MAX_BYTES { return false; }
    ok := Affordable(u.wallet.value, effect.change);
  }

  predicate Owes(b: Book, id: UserId, held: bool) {
    id in b.users && (b.users[id].poker != map[] || b.users[id].effects != map[] || held)
  }

  /** One more claimed day stays within capacity. */
  predicate DayFits(b: Book, guard: Guard, day: Day)
    requires guard in b.guards && b.guards[guard].user in b.users
  {
    var added := if day in b.users[b.guards[guard].user].days then 0 else 1;
    b.count + added <= MAX_ROWS && b.bytes + added * 64 <= MAX_BYTES
  }

  /** A read of this user may be answered, or granted. */
  predicate Granting(ready: bool, b: Book, id: UserId) { ready && (id in b.users ==> b.users[id].available) }

  predicate HasWallet(b: Book, id: UserId) { id in b.users && b.users[id].wallet.Some? }

  predicate GrantFits(b: Book) { |b.users| < MAX_USERS && b.count < MAX_ROWS && b.bytes + 512 <= MAX_BYTES }

  // ---- The table of accepted hands ----

  datatype PokerReceipt = PokerReceipt(players: seq<(UserId, Delta)>, committed: bool)

  /** The accepted hands, and the acknowledged ones from oldest to newest. */
  datatype Hands = Hands(receipts: map<Id, PokerReceipt>, acknowledged: seq<Id>)

  /** An acknowledged hand is remembered for the next `RECENT_POKER_ACKS` acknowledgements. */
  function Acknowledge(h: Hands, record: Id): Hands
    requires record in h.receipts
  {
    var marked := h.receipts[record := h.receipts[record].(committed := true)];
    var queue := h.acknowledged + [record];
    if |queue| > RECENT_POKER_ACKS then Hands(marked - {queue[0]}, queue[1..]) else Hands(marked, queue)
  }

  /** The queue lists exactly the committed hands, once each, and is bounded. */
  ghost predicate Queued(h: Hands) {
    && (forall i, j :: 0 <= i < j < |h.acknowledged| ==> h.acknowledged[i] != h.acknowledged[j])
    && (forall r :: r in h.acknowledged <==> r in h.receipts && h.receipts[r].committed)
    && |h.acknowledged| <= RECENT_POKER_ACKS
  }

  lemma EvictOldest(receipts: map<Id, PokerReceipt>, queue: seq<Id>)
    requires queue != [] && (forall i, j :: 0 <= i < j < |queue| ==> queue[i] != queue[j])
    requires forall r :: r in queue <==> r in receipts && receipts[r].committed
    ensures forall r :: r in queue[1..] <==> r in receipts && receipts[r].committed && r != queue[0]
  {
    assert queue == [queue[0]] + queue[1..];
    assert forall i :: 0 <= i < |queue| - 1 ==> queue[1..][i] == queue[i + 1];
  }

  /** A newly accepted hand is not committed, so the queue is still exact. */
  lemma AcceptanceKeeps(h: Hands, record: Id, players: seq<(UserId, Delta)>)
    requires Queued(h) && record !in h.receipts
    ensures Queued(h.(receipts := h.receipts[record := PokerReceipt(players, false)]))
  {
  }

  /** Only hands already committed are ever evicted. */
  lemma AcknowledgeKeeps(h: Hands, record: Id)
    requires Queued(h) && record in h.receipts && !h.receipts[record].committed
    ensures Queued(Acknowledge(h, record))
    ensures forall r :: r in h.receipts && !h.receipts[r].committed && r != record ==>
              r in Acknowledge(h, record).receipts && Acknowledge(h, record).receipts[r] == h.receipts[r]
  {
    var marked, queue := h.receipts[record := h.receipts[record].(committed := true)], h.acknowledged + [record];
    assert forall r :: r in queue <==> r in h.acknowledged || r == record;
    assert queue[0] in queue;
    if |queue| > RECENT_POKER_ACKS { EvictOldest(marked, queue); }
  }

  /** The newest 4096 acknowledged hands, this one last, are the ones still remembered. */
  lemma RemembersTheNewest(h: Hands, record: Id)
    requires Queued(h) && record in h.receipts && !h.receipts[record].committed
    ensures var all, left := h.acknowledged + [record], Acknowledge(h, record);
            && left.acknowledged == all[|all| - Min(|all|, 4096)..]
            && record in left.receipts && left.receipts[record] == h.receipts[record].(committed := true)
            && forall r :: r in left.acknowledged && r != record ==> r in left.receipts && left.receipts[r] == h.receipts[r]
  {
    AcknowledgeKeeps(h, record);
    var all, left := h.acknowledged + [record], Acknowledge(h, record);
    assert all[0..] == all;
    assert left.acknowledged[|left.acknowledged| - 1] == record;
  }

  lemma SettleIsHand(b: Book, after: Book, record: Id, players: seq<(UserId, Delta)>)
    requires Payable(b.users, players) && after == SettleAll(Bump(b), record, players, b.epoch + 1)
    ensures HandCredited(Bump(b), record, players, after, b.epoch + 1)
  {
    SettleAllCredits(Bump(b), record, players, b.epoch + 1);
  }

  // ---- The authority ----

  class Authority {
    var ready: bool
    var epoch: nat
    var users: map<UserId, User>
    var profit: set<RankKey>
    var balance: set<RankKey>
    var pending: set<UserId>
    var count: int
    var bytes: int
    var guards: map<Guard, Hold>
    var hands: Hands

    ghost function View(): Book
      reads this
    {
      Book(users, profit, balance, count, bytes, epoch, guards)
    }

    constructor (initial: nat)
      ensures View() == Empty(initial) && Booked(View()) && !ready && Queued(hands)
    {
      ready, epoch, users, profit, balance, pending, count, bytes := false, initial, map[], {}, {}, {}, 0, 0;
      guards, hands := map[], Hands(map[], []);
      new;
      RunsStayBooked(initial, []);
    }

    /** `replace`, within capacity. */
    method Replace(id: UserId, user: User) returns (ok: bool)
      modifies this`users, this`profit, this`balance, this`count, this`bytes
      ensures ok <==> HasRoom(old(View()), id, user)
      ensures View() == if ok then Put(old(View()), id, user) else old(View())
    {
      var rows := count - RowsAt(users, id) + Rows(user);
      var size := bytes - BytesAt(users, id) + user.bytes;
      if rows > MAX_ROWS || size > MAX_BYTES || (id !in users && |users| >= MAX_USERS) { return false; }
      if id in users && users[id].available && users[id].wallet.Some? {
        profit := profit - {KeyOf(true, id, users[id].wallet.value)};
        balance := balance - {KeyOf(false, id, users[id].wallet.value)};
      }
      profit, balance := AddKey(profit, true, id, user), AddKey(balance, false, id, user);
      users, count, bytes := users[id := user], rows, size;
      ok := true;
    }

    /** The install at the end of a refresh: not while a guard holds the user, nor over a newer generation. */
    method InstallLoaded(id: UserId, loaded: Loaded, generation: nat) returns (ok: bool)
      modifies this
      ensures guards == old(guards)
      ensures ok <==> && !Watched(old(View()), id) && id in old(users) && old(users)[id].generation == generation
                      && HasRoom(old(View()), id, LoadedUser(loaded, generation))
      ensures View() == if ok then Apply(old(View()), Install(id, loaded, generation)) else old(View())
      ensures pending == if ok then old(pending) - {id} else old(pending)
    {
      if (exists g :: g in guards && guards[g].user == id) || id !in users || users[id].generation != generation {
        return false;
      }
      ok := Replace(id, LoadedUser(loaded, generation));
      if ok { pending := pending - {id}; }
    }

    /** `invalidate_locked`; a full authority stops being ready instead. */
    method Invalidate(id: UserId)
      modifies this
      ensures hands == old(hands) && guards == old(guards)
      ensures ready <==> old(ready) && (id in old(users) || HasRoom(old(View()), id, BlankUser()))
      ensures ready ==> View() == Apply(old(View()), Hide(id))
      ensures !ready ==> View() == Apply(old(View()), Tick)
      ensures pending == if ready then old(pending) + {id} else old(pending)
    {
      epoch := epoch + 1;
      if !ready { return; }
      HideNow(id);
      if ready { pending := pending + {id}; }
    }

    /** The rest of `invalidate_locked`, under the new generation. */
    method HideNow(id: UserId)
      requires ready
      modifies this`users, this`profit, this`balance, this`count, this`bytes, this`ready
      ensures ready <==> id in old(users) || HasRoom(old(View()), id, BlankUser())
      ensures View() == if ready then Put(old(View()), id, Hidden(UserOr(old(View()), id), epoch)) else old(View())
    {
      profit, balance := RemoveKey(profit, true, users, id), RemoveKey(balance, false, users, id);
      if id !in users {
        var ok := Replace(id, BlankUser());
        if !ok {
          ready := false;
          return;
        }
      }
      users := users[id := users[id].(generation := epoch, available := false, retired := false)];
    }

    /** `remove_user`: a user that still owes hands or effects is only retired. */
    method RemoveUser(id: UserId, held: bool)
      modifies this
      ensures pending == old(pending) - {id} && hands == old(hands)
      ensures Owes(old(View()), id, held) ==> View() == Apply(old(View()), Retire(id))
      ensures !Owes(old(View()), id, held) ==> View() == Apply(old(View()), Forget(id))
    {
      var owes := id in users && (users[id].poker != map[] || users[id].effects != map[] || held);
      if owes { RetireUser(id); } else { ForgetUser(id); }
      pending := pending - {id};
    }

    method RetireUser(id: UserId)
      requires id in users
      modifies this`users, this`profit, this`balance, this`epoch
      ensures View() == Apply(old(View()), Retire(id))
    {
      epoch := epoch + 1;
      profit, balance := RemoveKey(profit, true, users, id), RemoveKey(balance, false, users, id);
      users := users[id := users[id].(available := false, retired := true, generation := epoch)];
    }

    method ForgetUser(id: UserId)
      modifies this`users, this`profit, this`balance, this`count, this`bytes, this`epoch
      ensures View() == Apply(old(View()), Forget(id))
    {
      epoch := epoch + 1;
      DropUser(id);
    }

    method DropUser(id: UserId)
      modifies this`users, this`profit, this`balance, this`count, this`bytes
      ensures View() == Drop(old(View()), id)
    {
      if id in users {
        profit, balance := RemoveKey(profit, true, users, id), RemoveKey(balance, false, users, id);
        count, bytes := count - Rows(users[id]), bytes - users[id].bytes;
      }
      users := users - {id};
    }

    /** `accept_poker_effects_with`: every wallet is validated before any is published. */
    method AcceptPoker(record: Id, players: seq<(UserId, Delta)>, enqueued: bool) returns (ok: bool)
      requires Queued(hands)
      modifies this
      ensures Queued(hands)
      ensures ok <==> && old(ready) && 0 < |players| <= 10 && enqueued
                      && (if record in old(hands).receipts then old(hands).receipts[record].players == players
                          else |old(hands).receipts| < MAX_POKER_HANDS && Payable(old(users), players))
      ensures ok && record !in old(hands).receipts ==>
                && View() == Apply(old(View()), Settle(record, players))
                && HandCredited(Bump(old(View())), record, players, View(), epoch)
                && hands == old(hands).(receipts := old(hands).receipts[record := PokerReceipt(players, false)])
      ensures !ok || record in old(hands).receipts ==> View() == old(View()) && hands == old(hands)
    {
      if !ready || players == [] || |players| > 10 { return false; }
      if record in hands.receipts { return hands.receipts[record].players == players && enqueued; }
      if |hands.receipts| >= MAX_POKER_HANDS || !Payable(users, players) || !enqueued { return false; }
      StoreHand(record, players);
      ok := true;
    }

    /** Every wallet of a new hand is published under one generation, and the hand remembered. */
    method StoreHand(record: Id, players: seq<(UserId, Delta)>)
      requires Queued(hands) && record !in hands.receipts && Payable(users, players)
      modifies this
      ensures View() == Apply(old(View()), Settle(record, players))
      ensures HandCredited(Bump(old(View())), record, players, View(), epoch)
      ensures hands == old(hands).(receipts := old(hands).receipts[record := PokerReceipt(players, false)]) && Queued(hands)
    {
      ghost var bumped := Bump(View());
      AcceptanceKeeps(hands, record, players);
      hands := hands.(receipts := hands.receipts[record := PokerReceipt(players, false)]);
      epoch := epoch + 1;
      assert View() == bumped;
      PublishSettled(record, players);
      SettleIsHand(old(View()), View(), record, players);
    }

    /** Each player of the hand, re-ranked with the settled wallet. */
    method PublishSettled(record: Id, players: seq<(UserId, Delta)>)
      modifies this`users, this`profit, this`balance, this`count, this`bytes
      ensures View() == SettleAll(old(View()), record, players, epoch)
    {
      for k := 0 to |players|
        invariant View() == SettleAll(old(View()), record, players[..k], epoch)
      {
        assert players[..k + 1][..k] == players[..k];
        var (id, d) := players[k];
        if id in users { Rerank(id, Settled(users[id], record, d, epoch), 0, 0); }
      }
      assert players[..|players|] == players;
    }

    /** Replaces a known user: the old keys leave both indexes, the new ones enter. */
    method Rerank(id: UserId, next: User, rows: int, size: int)
      requires id in users && Rows(next) == Rows(users[id]) + rows && next.bytes == users[id].bytes + size
      modifies this`users, this`profit, this`balance, this`count, this`bytes
      ensures View() == Put(old(View()), id, next)
    {
      profit, balance := RemoveKey(profit, true, users, id), RemoveKey(balance, false, users, id);
      users, count, bytes := users[id := next], count + rows, bytes + size;
      profit, balance := AddKey(profit, true, id, next), AddKey(balance, false, id, next);
    }

    /** `poker_committed`: the overlays of one hand go, once, and the oldest acknowledged hand is forgotten. */
    method PokerCommitted(record: Id)
      requires Queued(hands)
      modifies this
      ensures Queued(hands)
      ensures var due := record in old(hands).receipts && !old(hands).receipts[record].committed;
              && View() == (if due then Apply(old(View()), Release(record, old(hands).receipts[record].players)) else old(View()))
              && hands == (if due then Acknowledge(old(hands), record) else old(hands))
              && (due ==> HandReleased(Bump(old(View())), record, old(hands).receipts[record].players, View(), epoch))
    {
      if record !in hands.receipts || hands.receipts[record].committed { return; }
      AcknowledgeKeeps(hands, record);
      var players := hands.receipts[record].players;
      ReleaseAllReleases(Bump(View()), record, players, epoch + 1);
      epoch := epoch + 1;
      RemoveOverlays(record, players);
      var marked := hands.receipts[record := hands.receipts[record].(committed := true)];
      var queue := hands.acknowledged + [record];
      if |queue| > RECENT_POKER_ACKS {
        marked, queue := marked - {queue[0]}, queue[1..];
      }
      hands := Hands(marked, queue);
    }

    method RemoveOverlays(record: Id, players: seq<(UserId, Delta)>)
      modifies this`users
      ensures View() == ReleaseAll(old(View()), record, players, epoch)
    {
      for k := 0 to |players|
        invariant View() == ReleaseAll(old(View()), record, players[..k], epoch)
      {
        assert players[..k + 1][..k] == players[..k];
        var id := players[k].0;
        if id in users {
          users := users[id := users[id].(poker := users[id].poker - {record}, generation := epoch)];
        }
      }
      assert players[..|players|] == players;
    }

    /** `accept_effect`: `reserved` beans are not spendable. */
    method AcceptEffect(owner: UserId, record: Id, effect: PendingEffect, spend: int, expected: int,
                        reserved: int, enqueued: bool) returns (ok: bool)
      modifies this
      ensures ok <==> && old(ready) && !Watched(old(View()), owner) && owner in old(users)
                      && old(users)[owner].available && !old(users)[owner].retired
                      && (if record in old(users)[owner].effects
                          then old(users)[owner].effects[record] == effect && old(users)[owner].wallet.Some?
                          else enqueued && Fundable(old(users)[owner], old(count), old(bytes), effect, spend, expected, reserved))
      ensures View() == if ok && record !in old(users)[owner].effects
                        then Apply(old(View()), AddEffect(owner, record, effect)) else old(View())
    {
      if !ready || (exists g :: g in guards && guards[g].user == owner) || owner !in users { return false; }
      var u := users[owner];
      if !u.available || u.retired { return false; }
      if record in u.effects { return u.effects[record] == effect && u.wallet.Some?; }
      var funded := CheckEffect(u, count, bytes, effect, spend, expected, reserved);
      if !funded || !enqueued { return false; }
      epoch := epoch + 1;
      StoreEffect(owner, record, effect);
      ok := true;
    }

    /** A new effect occupies a row, another if it claims a day, and 256 bytes. */
    method StoreEffect(owner: UserId, record: Id, effect: PendingEffect)
      requires owner in users && record !in users[owner].effects
      requires effect.day.Some? ==> effect.day.value !in users[owner].days
      modifies this`users, this`profit, this`balance, this`count, this`bytes
      ensures View() == Put(old(View()), owner, WithEffect(old(users)[owner], record, effect, epoch))
    {
      AddedRows(users[owner], record, effect, epoch);
      Rerank(owner, WithEffect(users[owner], record, effect, epoch), 1 + (if effect.day.Some? then 1 else 0), 256);
    }

    /** `effect_committed`: forget one pending effect that SQL now holds. */
    method EffectCommitted(owner: UserId, record: Id)
      requires Booked(View())
      modifies this
      ensures View() == Apply(old(View()), DropEffect(owner, record))
    {
      epoch := epoch + 1;
      if owner in users && record in users[owner].effects { TakeEffect(owner, record, epoch); }
    }

    /** Removes an effect with its row and its 256 bytes, which every user was charged. */
    method TakeEffect(owner: UserId, record: Id, generation: nat)
      requires owner in users && record in users[owner].effects && SizedUser(users[owner])
      modifies this`users, this`count, this`bytes
      ensures View() == Touch(old(View()), owner, WithoutEffect(old(users)[owner], record, generation))
    {
      var u := users[owner];
      DroppedSizes(u, record, generation);
      DroppedRows(u, record, generation);
      users := users[owner := u.(effects := u.effects - {record}, bytes := u.bytes - 256, generation := generation)];
      count, bytes := count - 1, bytes - 256;
    }

    /**
     `effect_abandoned`: SQL never saw the effect; drop it and hide the wallet until it is
     reloaded. An authority that is not ready only drops it.
     */
    method EffectAbandoned(owner: UserId, record: Id)
      requires Booked(View())
      modifies this
      ensures ready <==> old(ready) && (owner in old(users) || HasRoom(old(View()), owner, BlankUser()))
      ensures ready ==> View() == Apply(old(View()), Abandon(owner, record))
      ensures !ready ==> View() == Apply(old(View()), AbandonWhileDown(owner, record))
    {
      assert owner in users ==> SizedUser(users[owner]);
      AbandonCharged(owner, record);
    }

    method AbandonCharged(owner: UserId, record: Id)
      requires owner in users ==> SizedUser(users[owner])
      modifies this
      ensures ready <==> old(ready) && (owner in old(users) || HasRoom(old(View()), owner, BlankUser()))
      ensures ready ==> View() == HideUser(WithoutPending(old(View()), owner, record), owner)
      ensures !ready ==> View() == Bump(WithoutPending(old(View()), owner, record))
    {
      DropPending(owner, record);
      Invalidate(owner);
    }

    method DropPending(owner: UserId, record: Id)
      requires owner in users ==> SizedUser(users[owner])
      modifies this`users, this`count, this`bytes
      ensures View() == WithoutPending(old(View()), owner, record)
    {
      if owner in users && record in users[owner].effects { TakeEffect(owner, record, users[owner].generation); }
    }

    /** `watch`: a guard on one more user outdates every read of that user in flight. */
    method Watch(guard: Guard, id: UserId)
      requires guard !in guards
      modifies this
      ensures View() == Apply(old(View()), Begin(guard, id))
    {
      guards := guards[guard := Hold(id, None)];
      epoch := epoch + 1;
      if id in users { users := users[id := users[id].(generation := epoch)]; }
    }

    /** `daily_mutation`: remembers the new generation only over a complete projection. */
    method DailyMutation(guard: Guard, id: UserId)
      requires guard !in guards
      modifies this
      ensures ready <==> old(ready) && (id in old(users) || HasRoom(old(View()), id, BlankUser()))
      ensures ready ==> View() == Apply(old(View()), BeginDaily(guard, id, true))
      ensures !ready ==> View() == Apply(old(View()), BeginDaily(guard, id, false))
    {
      var readable := ready && !(exists g :: g in guards && guards[g].user == id) && id in users
        && users[id].available && users[id].wallet.Some? && users[id].poker == map[] && users[id].effects == map[];
      Invalidate(id);
      guards := guards[guard := Hold(id, if readable then Some(epoch) else None)];
    }

    /**
     `publish_daily`: only as the sole writer and while the remembered generation is current.
     The wallet is then complete and hidden, because the books say so of every claim.
     */
    method PublishDaily(guard: Guard, day: Day, after: int) returns (published: bool)
      requires Booked(View()) && guard in guards
      modifies this
      ensures published <==> old(ready) && Publishable(old(View()), guard) && DayFits(old(View()), guard, day)
      ensures View() == if published then Apply(old(View()), PublishDay(guard, day, after)) else old(View())
      ensures pending == if published then old(pending) - {old(guards)[guard].user} else old(pending)
    {
      assert ClaimOk(users, guards[guard]);
      published := PublishClaim(guard, day, after);
    }

    method PublishClaim(guard: Guard, day: Day, after: int) returns (published: bool)
      requires guard in guards && ClaimOk(users, guards[guard])
      modifies this
      ensures published <==> old(ready) && Publishable(old(View()), guard) && DayFits(old(View()), guard, day)
      ensures View() == if published then ShowDay(old(View()), guard, day, after) else old(View())
      ensures pending == if published then old(pending) - {old(guards)[guard].user} else old(pending)
    {
      var id, claim := guards[guard].user, guards[guard].claim;
      if claim.None? || !ready { return false; }
      if exists g :: g in guards && guards[g].user == id && g != guard { return false; }
      if id !in users || users[id].generation != claim.value { return false; }
      var added := if day in users[id].days then 0 else 1;
      if count + added > MAX_ROWS || bytes + added * 64 > MAX_BYTES { return false; }
      ShowWallet(id, day, after, added);
      guards := guards[guard := Hold(id, None)];
      pending := pending - {id};
      published := true;
    }

    method ShowWallet(id: UserId, day: Day, after: int, added: nat)
      requires id in users && users[id].wallet.Some? && added == if day in users[id].days then 0 else 1
      modifies this`users, this`profit, this`balance, this`count, this`bytes
      ensures var u := WithDay(old(users)[id], day, after);
              View() == Touch(old(View()), id, u).(profit := AddKey(old(profit), true, id, u), balance := AddKey(old(balance), false, id, u))
    {
      var u := users[id];
      DayRows(u, day, after);
      var next := u.(wallet := Some(u.wallet.value.(balance := after)), days := u.days + {day},
                     bytes := u.bytes + added * 64, available := true);
      assert next == WithDay(u, day, after);
      users := users[id := next];
      count, bytes := count + added, bytes + added * 64;
      profit, balance := AddKey(profit, true, id, next), AddKey(balance, false, id, next);
    }

    /** The last step of `Mutation::drop`, after its fences. */
    method EndGuard(guard: Guard)
      requires guard in guards
      modifies this
      ensures View() == Apply(old(View()), End(guard))
    {
      var id := guards[guard].user;
      epoch := epoch + 1;
      if id in users { users := users[id := users[id].(generation := epoch)]; }
      guards := guards - {guard};
    }

    /**
     `ensure`: the first-use grant has no completed games, so it touches no index. A grant its
     writer cannot take (`reserved` is false) still starts a new epoch.
     */
    method Grant(id: UserId, accepting: bool, reserved: bool) returns (ok: bool)
      modifies this
      ensures ok <==> Granting(old(ready), old(View()), id) && (HasWallet(old(View()), id) || (accepting && GrantFits(old(View())) && reserved))
      ensures View() == if !Granting(old(ready), old(View()), id) || HasWallet(old(View()), id) || !accepting || !GrantFits(old(View()))
                        then old(View())
                        else Apply(old(View()), if reserved then GrantTo(id) else Tick)
    {
      if !ready || (id in users && !users[id].available) { return false; }
      if id in users && users[id].wallet.Some? { return true; }
      if !accepting || |users| >= MAX_USERS || count >= MAX_ROWS || bytes + 512 > MAX_BYTES { return false; }
      epoch := epoch + 1;
      if !reserved { return false; }
      if id in users {
        users := users[id := users[id].(wallet := Some(Granted(None)), generation := epoch)];
      } else {
        users := users[id := BlankUser().(wallet := Some(Granted(None)), available := true, generation := epoch)];
        count, bytes := count + 1, bytes + 512;
      }
      ok := true;
    }
  }
}
