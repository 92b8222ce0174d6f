/**
 The whole-map bookkeeping of the bean authority (draw-games/src/beans_read_memory.rs,
 beans_pending_effects.rs): both rank indexes and the row and byte counters follow
 every publication, invalidation, acceptance, acknowledgement and removal.
 */
module BeanIndex {
  import opened Outcomes
  import opened BeanLedger
  import opened Sums

  const MAX_USERS: nat := 1_000_000
  const MAX_ROWS: nat := 2_000_000
  const MAX_BYTES: nat := 512 * 1024 * 1024
  const MAX_POKER_HANDS: nat := 131_072
  const RECENT_POKER_ACKS: nat := 4096

  type UserId = nat
  type Day = nat
  type Game = nat
  type Guard = nat

  datatype PendingEffect = PendingEffect(change: Delta, day: Option<Day>)

  datatype User = User(
    wallet: Option<Wallet>,
    days: set<Day>,
    receipts: set<Id>,
    latest: set<Game>,
    available: bool,
    retired: bool,
    generation: nat,
    bytes: nat,
    poker: map<Id, Delta>,
    effects: map<Id, PendingEffect>)

  /** Rank keys sort by score, then hands played, then owner. */
  datatype RankKey = RankKey(score: int, played: int, owner: UserId)

  function BlankUser(): User { User(None, {}, {}, {}, false, false, 0, 512, map[], map[]) }

  /** Rows one user occupies. */
  function Rows(u: User): int { |u.days| + |u.receipts| + |u.latest| + |u.effects| + 1 }
  function Bytes(u: User): int { u.bytes }

  predicate Ranked(u: User) { u.available && u.wallet.Some? && u.wallet.value.handsPlayed > 0 }

  /** The key of a wallet in the profit index or in the balance index. */
  function KeyOf(byProfit: bool, id: UserId, w: Wallet): RankKey {
    RankKey(if byProfit then w.netWon else w.balance, w.handsPlayed, id)
  }

  // ---- Sums over the users ----

  ghost function Total(users: map<UserId, User>, f: User -> int): int { Over(users, f, users.Keys) }

  lemma TotalPut(users: map<UserId, User>, id: UserId, u: User, f: User -> int)
    ensures id in users ==> Total(users[id := u], f) == Total(users, f) - f(users[id]) + f(u)
    ensures id !in users ==> Total(users[id := u], f) == Total(users, f) + f(u)
  {
    var next, rest := users[id := u], users.Keys - {id};
    Split(next, f, next.Keys, id);
    assert next.Keys - {id} == rest;
    Agrees(next, users, f, rest);
    if id in users { Split(users, f, users.Keys, id); } else { assert rest == users.Keys; }
  }

  lemma TotalDrop(users: map<UserId, User>, id: UserId, f: User -> int)
    requires id in users
    ensures Total(users - {id}, f) == Total(users, f) - f(users[id])
  {
    Split(users, f, users.Keys, id);
    assert (users - {id}).Keys == users.Keys - {id};
    Agrees(users - {id}, users, f, users.Keys - {id});
  }

  // ---- The bookkeeping invariant ----

  ghost predicate KeyPresent(users: map<UserId, User>, keys: set<RankKey>, byProfit: bool, id: UserId) {
    id in users && Ranked(users[id]) ==> KeyOf(byProfit, id, users[id].wallet.value) in keys
  }

  ghost predicate KeyBacked(users: map<UserId, User>, keys: set<RankKey>, byProfit: bool, k: RankKey) {
    k in keys ==>
      k.owner in users && Ranked(users[k.owner]) && k == KeyOf(byProfit, k.owner, users[k.owner].wallet.value)
  }

  /** `keys` holds one key for exactly the available wallets with completed games. */
  ghost predicate IndexOf(users: map<UserId, User>, keys: set<RankKey>, byProfit: bool) {
    && (forall id :: KeyPresent(users, keys, byProfit, id))
    && (forall k :: KeyBacked(users, keys, byProfit, k))
  }

  /** `Rankings::remove`: drop the key of the user's current wallet, if it is readable. */
  function RemoveKey(keys: set<RankKey>, byProfit: bool, users: map<UserId, User>, id: UserId): set<RankKey> {
    if id in users && users[id].available && users[id].wallet.Some?
    then keys - {KeyOf(byProfit, id, users[id].wallet.value)} else keys
  }

  /** `Rankings::insert`: only wallets with completed games are ranked. */
  function AddKey(keys: set<RankKey>, byProfit: bool, id: UserId, u: User): set<RankKey> {
    if Ranked(u) then keys + {KeyOf(byProfit, id, u.wallet.value)} else keys
  }

  /** A live guard: the user it holds, and the generation at which a daily claim may publish. */
  datatype Hold = Hold(user: UserId, claim: Option<nat>)

  /** The fields of the authority that must move together; `guards` is `active_users`, one entry per guard. */
  datatype Book = Book(
    users: map<UserId, User>,
    profit: set<RankKey>,
    balance: set<RankKey>,
    count: int,
    bytes: int,
    epoch: nat,
    guards: map<Guard, Hold>)

  /** A user is never charged less than its base and its pending effects. */
  predicate SizedUser(u: User) { u.bytes >= 512 + 256 * |u.effects| }

  /** While the claimed generation is current, the wallet is complete and hidden. */
  ghost predicate ClaimOk(users: map<UserId, User>, h: Hold) {
    h.claim.Some? && h.user in users && users[h.user].generation == h.claim.value ==>
      users[h.user].wallet.Some? && !users[h.user].available
  }

  /** Every claim and every user is stamped with a past generation. */
  ghost predicate Fenced(b: Book) {
    && (forall id :: id in b.users ==> SizedUser(b.users[id]) && b.users[id].generation <= b.epoch)
    && (forall g :: g in b.guards ==> ClaimOk(b.users, b.guards[g]))
    && (forall g :: g in b.guards && b.guards[g].claim.Some? ==> b.guards[g].claim.value <= b.epoch)
  }

  ghost predicate Counted(b: Book) {
    && IndexOf(b.users, b.profit, true)
    && IndexOf(b.users, b.balance, false)
    && b.count == Total(b.users, Rows)
    && b.bytes == Total(b.users, Bytes)
  }

  ghost predicate Booked(b: Book) { Counted(b) && Fenced(b) }

  function RowsAt(users: map<UserId, User>, id: UserId): int { if id in users then Rows(users[id]) else 0 }
  function BytesAt(users: map<UserId, User>, id: UserId): nat { if id in users then users[id].bytes else 0 }

  /** One user replaced, or installed, with both indexes and both counters following. */
  function Put(b: Book, id: UserId, u: User): Book {
    b.(users := b.users[id := u],
       profit := AddKey(RemoveKey(b.profit, true, b.users, id), true, id, u),
       balance := AddKey(RemoveKey(b.balance, false, b.users, id), false, id, u),
       count := b.count - RowsAt(b.users, id) + Rows(u),
       bytes := b.bytes - BytesAt(b.users, id) + u.bytes)
  }

  /** One user replaced without looking at the indexes. */
  function Touch(b: Book, id: UserId, u: User): Book
    requires id in b.users
  {
    b.(users := b.users[id := u],
       count := b.count - Rows(b.users[id]) + Rows(u),
       bytes := b.bytes - b.users[id].bytes + u.bytes)
  }

  function Drop(b: Book, id: UserId): Book {
    b.(users := b.users - {id},
       profit := RemoveKey(b.profit, true, b.users, id),
       balance := RemoveKey(b.balance, false, b.users, id),
       count := b.count - RowsAt(b.users, id),
       bytes := b.bytes - BytesAt(b.users, id))
  }

  lemma IndexPut(users: map<UserId, User>, keys: set<RankKey>, byProfit: bool, id: UserId, u: User)
    requires IndexOf(users, keys, byProfit)
    ensures IndexOf(users[id := u], AddKey(RemoveKey(keys, byProfit, users, id), byProfit, id, u), byProfit)
  {
    var next, after := AddKey(RemoveKey(keys, byProfit, users, id), byProfit, id, u), users[id := u];
    forall x ensures KeyPresent(after, next, byProfit, x) { assert KeyPresent(users, keys, byProfit, x); }
    forall k ensures KeyBacked(after, next, byProfit, k) { assert KeyBacked(users, keys, byProfit, k); }
  }

  lemma IndexDrop(users: map<UserId, User>, keys: set<RankKey>, byProfit: bool, id: UserId)
    requires IndexOf(users, keys, byProfit)
    ensures IndexOf(users - {id}, RemoveKey(keys, byProfit, users, id), byProfit)
  {
    var next, after := RemoveKey(keys, byProfit, users, id), users - {id};
    forall x ensures KeyPresent(after, next, byProfit, x) { assert KeyPresent(users, keys, byProfit, x); }
    forall k ensures KeyBacked(after, next, byProfit, k) { assert KeyBacked(users, keys, byProfit, k); }
  }

  /** A user whose wallet and availability stay keeps its key, or its absence. */
  lemma IndexTouch(users: map<UserId, User>, keys: set<RankKey>, byProfit: bool, id: UserId, u: User)
    requires IndexOf(users, keys, byProfit) && id in users
    requires u.wallet == users[id].wallet && u.available == users[id].available
    ensures IndexOf(users[id := u], keys, byProfit)
  {
    var after := users[id := u];
    forall x ensures KeyPresent(after, keys, byProfit, x) { assert KeyPresent(users, keys, byProfit, x); }
    forall k ensures KeyBacked(after, keys, byProfit, k) { assert KeyBacked(users, keys, byProfit, k); }
  }

  lemma TouchKeepsCounted(b: Book, id: UserId, u: User)
    requires Counted(b) && id in b.users
    requires u.wallet == b.users[id].wallet && u.available == b.users[id].available
    ensures Counted(Touch(b, id, u))
  {
    IndexTouch(b.users, b.profit, true, id, u);
    IndexTouch(b.users, b.balance, false, id, u);
    TotalPut(b.users, id, u, Rows);
    TotalPut(b.users, id, u, Bytes);
  }

  lemma PutKeepsCounted(b: Book, id: UserId, u: User)
    requires Counted(b)
    ensures Counted(Put(b, id, u))
  {
    IndexPut(b.users, b.profit, true, id, u);
    IndexPut(b.users, b.balance, false, id, u);
    TotalPut(b.users, id, u, Rows);
    TotalPut(b.users, id, u, Bytes);
  }

  lemma DropKeepsCounted(b: Book, id: UserId)
    requires Counted(b)
    ensures Counted(Drop(b, id))
  {
    IndexDrop(b.users, b.profit, true, id);
    IndexDrop(b.users, b.balance, false, id);
    if id in b.users {
      TotalDrop(b.users, id, Rows);
      TotalDrop(b.users, id, Bytes);
    } else {
      assert b.users - {id} == b.users;
    }
  }

  // ---- Generations ----

  function Bump(b: Book): Book { b.(epoch := b.epoch + 1) }

  /** Every claim is older than the current generation. */
  ghost predicate Outdated(b: Book) {
    forall g :: g in b.guards && b.guards[g].claim.Some? ==> b.guards[g].claim.value < b.epoch
  }

  lemma BumpKeeps(b: Book)
    requires Booked(b)
    ensures Booked(Bump(b)) && Outdated(Bump(b))
  {
  }

  /** A user stamped with the current generation contradicts no claim. */
  lemma StampKeepsFenced(b: Book, next: Book, id: UserId, u: User)
    requires Fenced(b) && Outdated(b) && SizedUser(u) && u.generation == b.epoch
    requires next.users == b.users[id := u] && next.epoch == b.epoch && next.guards == b.guards
    ensures Fenced(next) && Outdated(next)
  {
  }

  lemma PutKeepsBooked(b: Book, id: UserId, u: User)
    requires Booked(b) && Outdated(b) && SizedUser(u) && u.generation == b.epoch
    ensures Booked(Put(b, id, u)) && Outdated(Put(b, id, u))
  {
    PutKeepsCounted(b, id, u);
    StampKeepsFenced(b, Put(b, id, u), id, u);
  }

  lemma TouchKeepsBooked(b: Book, id: UserId, u: User)
    requires Booked(b) && Outdated(b) && id in b.users && SizedUser(u) && u.generation == b.epoch
    requires u.wallet == b.users[id].wallet && u.available == b.users[id].available
    ensures Booked(Touch(b, id, u)) && Outdated(Touch(b, id, u))
  {
    TouchKeepsCounted(b, id, u);
    StampKeepsFenced(b, Touch(b, id, u), id, u);
  }

  lemma DropKeepsBooked(b: Book, id: UserId)
    requires Booked(b)
    ensures Booked(Drop(b, id))
  {
    DropKeepsCounted(b, id);
  }

  // ---- Operations ----

  /** What a snapshot read returns for one user: `history` is the bytes of its days and receipts. */
  datatype Loaded = Loaded(
    wallet: Option<Wallet>,
    days: set<Day>,
    receipts: set<Id>,
    latest: set<Game>,
    history: nat,
    poker: map<Id, Delta>,
    effects: map<Id, PendingEffect>)

  function LoadedUser(l: Loaded, generation: nat): User {
    User(l.wallet, l.days, l.receipts, l.latest, true, false, generation, 512 + l.history + 256 * |l.effects|, l.poker, l.effects)
  }

  /** The critical sections that change a user or a guard. */
  datatype Op =
    | Hydrate(id: UserId, loaded: Loaded)
    | Install(id: UserId, loaded: Loaded, generation: nat)   // the guarded end of a refresh
    | Register(id: UserId)
    | Hide(id: UserId)                                       // `invalidate_locked`
    | Retire(id: UserId)                                     // `remove_user` while hands or effects are owed
    | Forget(id: UserId)                                     // `remove_user`
    | Settle(record: Id, players: seq<(UserId, Delta)>)
    | Release(record: Id, players: seq<(UserId, Delta)>)
    | AddEffect(id: UserId, record: Id, effect: PendingEffect)
    | DropEffect(id: UserId, record: Id)
    | Abandon(id: UserId, record: Id)
    | AbandonWhileDown(id: UserId, record: Id)               // an authority that is not ready hides nothing
    | Tick                                                   // a new epoch and nothing else
    | Begin(guard: Guard, id: UserId)                        // `watch`
    | BeginDaily(guard: Guard, id: UserId, ready: bool)
    | PublishDay(guard: Guard, day: Day, after: int)
    | End(guard: Guard)                                      // `Mutation::drop`
    | GrantTo(id: UserId)

  function UserOr(b: Book, id: UserId): User { if id in b.users then b.users[id] else BlankUser() }

  predicate Watched(b: Book, id: UserId) { exists g :: g in b.guards && b.guards[g].user == id }

  /** The guard is the only one that holds its user. */
  predicate Sole(b: Book, guard: Guard) {
    guard in b.guards && forall g :: g in b.guards && b.guards[g].user == b.guards[guard].user ==> g == guard
  }

  function Settled(u: User, record: Id, d: Delta, generation: nat): User {
    u.(wallet := match u.wallet case Some(w) => Some(Credit(w, d)) case None => None,
       poker := u.poker[record := d],
       generation := generation)
  }

  function SettleOne(b: Book, id: UserId, record: Id, d: Delta, generation: nat): Book {
    if id in b.users then Put(b, id, Settled(b.users[id], record, d, generation)) else b
  }

  function SettleAll(b: Book, record: Id, players: seq<(UserId, Delta)>, generation: nat): Book {
    if players == [] then b
    else
      var (id, d) := players[|players| - 1];
      SettleOne(SettleAll(b, record, players[..|players| - 1], generation), id, record, d, generation)
  }

  function Released(u: User, record: Id, generation: nat): User {
    u.(poker := u.poker - {record}, generation := generation)
  }

  function ReleaseAll(b: Book, record: Id, players: seq<(UserId, Delta)>, generation: nat): Book {
    if players == [] then b
    else
      var id := players[|players| - 1].0;
      var before := ReleaseAll(b, record, players[..|players| - 1], generation);
      if id in before.users
      then before.(users := before.users[id := Released(before.users[id], record, generation)]) else before
  }

  function WithEffect(u: User, record: Id, effect: PendingEffect, generation: nat): User {
    u.(wallet := match u.wallet case Some(w) => Some(Credit(w, effect.change)) case None => None,
       effects := u.effects[record := effect],
       days := if effect.day.Some? then u.days + {effect.day.value} else u.days,
       bytes := u.bytes + 256,
       generation := generation)
  }

  function WithoutEffect(u: User, record: Id, generation: nat): User {
    u.(effects := u.effects - {record}, bytes := Monus(u.bytes, 256), generation := generation)
  }

  function WithDay(u: User, day: Day, after: int): User {
    u.(wallet := match u.wallet case Some(w) => Some(w.(balance := after)) case None => None,
       days := u.days + {day},
       bytes := u.bytes + (if day in u.days then 0 else 64),
       available := true)
  }

  function Hidden(u: User, generation: nat): User { u.(generation := generation, available := false, retired := false) }

  /** The daily claim may publish only over a complete projection that nobody else holds. */
  predicate DailyReadable(b: Book, id: UserId) {
    && !Watched(b, id)
    && id in b.users
    && b.users[id].available && b.users[id].wallet.Some? && b.users[id].poker == map[] && b.users[id].effects == map[]
  }

  predicate Publishable(b: Book, guard: Guard) {
    && Sole(b, guard) && b.guards[guard].claim.Some?
    && b.guards[guard].user in b.users
    && b.users[b.guards[guard].user].generation == b.guards[guard].claim.value
  }

  /** `publish_daily` only inserts the new rank keys: the fenced wallet has none. */
  function ShowDay(b: Book, guard: Guard, day: Day, after: int): Book
    requires guard in b.guards && b.guards[guard].user in b.users
  {
    var id := b.guards[guard].user;
    var u := WithDay(b.users[id], day, after);
    Touch(b, id, u).(profit := AddKey(b.profit, true, id, u),
                     balance := AddKey(b.balance, false, id, u),
                     guards := b.guards[guard := Hold(id, None)])
  }

  function Stamp(b: Book, id: UserId): Book {
    if id in b.users then Touch(b, id, b.users[id].(generation := b.epoch)) else b
  }

  function Installed(b: Book, id: UserId, loaded: Loaded, generation: nat): Book {
    if Watched(b, id) || id !in b.users || b.users[id].generation != generation then b
    else Put(b, id, LoadedUser(loaded, generation))
  }

  function Registered(b: Book, id: UserId): Book {
    if id in b.users && b.users[id].wallet.Some? then Bump(b)
    else Put(Bump(b), id, BlankUser().(available := true, generation := b.epoch + 1))
  }

  function HideUser(b: Book, id: UserId): Book { Put(Bump(b), id, Hidden(UserOr(b, id), b.epoch + 1)) }

  function RetireUser(b: Book, id: UserId): Book {
    if id in b.users
    then Put(Bump(b), id, b.users[id].(available := false, retired := true, generation := b.epoch + 1)) else Bump(b)
  }

  function EffectAdded(b: Book, id: UserId, record: Id, effect: PendingEffect): Book {
    if id in b.users && record !in b.users[id].effects
    then Put(Bump(b), id, WithEffect(b.users[id], record, effect, b.epoch + 1)) else Bump(b)
  }

  predicate Owned(b: Book, id: UserId, record: Id) { id in b.users && record in b.users[id].effects }

  function EffectDropped(b: Book, id: UserId, record: Id): Book {
    if Owned(b, id, record) then Touch(Bump(b), id, WithoutEffect(b.users[id], record, b.epoch + 1)) else Bump(b)
  }

  /** The book without one pending effect, under the user's old generation. */
  function WithoutPending(b: Book, id: UserId, record: Id): Book {
    if Owned(b, id, record) then Touch(b, id, WithoutEffect(b.users[id], record, b.users[id].generation)) else b
  }

  function GuardBegun(b: Book, guard: Guard, id: UserId): Book {
    if guard in b.guards then b else Stamp(Bump(b), id).(guards := b.guards[guard := Hold(id, None)])
  }

  /** `daily_mutation`: an authority that is not ready hides nothing and remembers nothing. */
  function DailyBegun(b: Book, guard: Guard, id: UserId, ready: bool): Book {
    if guard in b.guards then b
    else if !ready then Bump(b).(guards := b.guards[guard := Hold(id, None)])
    else HideUser(b, id).(guards := b.guards[guard := Hold(id, if DailyReadable(b, id) then Some(b.epoch + 1) else None)])
  }

  function GuardEnded(b: Book, guard: Guard): Book {
    if guard !in b.guards then b else Stamp(Bump(b), b.guards[guard].user).(guards := b.guards - {guard})
  }

  function GrantAdded(b: Book, id: UserId): Book {
    Put(Bump(b), id, UserOr(b, id).(wallet := Some(Granted(None)), generation := b.epoch + 1, available := true))
  }

  function Apply(b: Book, op: Op): Book {
    match op
    case Hydrate(id, loaded) => if id in b.users || b.guards != map[] then b else Put(b, id, LoadedUser(loaded, 0))
    case Install(id, loaded, generation) => Installed(b, id, loaded, generation)
    case Register(id) => Registered(b, id)
    case Hide(id) => HideUser(b, id)
    case Retire(id) => RetireUser(b, id)
    case Forget(id) => Drop(Bump(b), id)
    case Settle(record, players) => SettleAll(Bump(b), record, players, b.epoch + 1)
    case Release(record, players) => ReleaseAll(Bump(b), record, players, b.epoch + 1)
    case AddEffect(id, record, effect) => EffectAdded(b, id, record, effect)
    case DropEffect(id, record) => EffectDropped(b, id, record)
    case Abandon(id, record) => HideUser(WithoutPending(b, id, record), id)
    case AbandonWhileDown(id, record) => Bump(WithoutPending(b, id, record))
    case Tick => Bump(b)
    case Begin(guard, id) => GuardBegun(b, guard, id)
    case BeginDaily(guard, id, ready) => DailyBegun(b, guard, id, ready)
    case PublishDay(guard, day, after) => if Publishable(b, guard) then ShowDay(b, guard, day, after) else b
    case End(guard) => GuardEnded(b, guard)
    case GrantTo(id) => GrantAdded(b, id)
  }

  lemma AddedRows(u: User, record: Id, effect: PendingEffect, generation: nat)
    requires record !in u.effects && (effect.day.Some? ==> effect.day.value !in u.days)
    ensures Rows(WithEffect(u, record, effect, generation)) == Rows(u) + 1 + (if effect.day.Some? then 1 else 0)
  {
  }

  lemma DroppedRows(u: User, record: Id, generation: nat)
    requires record in u.effects
    ensures Rows(WithoutEffect(u, record, generation)) == Rows(u) - 1
  {
    assert u.effects.Keys == (u.effects - {record}).Keys + {record};
  }

  lemma DayRows(u: User, day: Day, after: int)
    ensures Rows(WithDay(u, day, after)) == Rows(u) + (if day in u.days then 0 else 1)
  {
    if day in u.days { assert u.days + {day} == u.days; }
  }

  lemma AddedSizes(u: User, record: Id, effect: PendingEffect, generation: nat)
    requires SizedUser(u) && record !in u.effects
    ensures SizedUser(WithEffect(u, record, effect, generation))
  {
    assert u.effects[record := effect].Keys == u.effects.Keys + {record};
  }

  lemma DroppedSizes(u: User, record: Id, generation: nat)
    requires SizedUser(u) && record in u.effects
    ensures SizedUser(WithoutEffect(u, record, generation)) && u.bytes >= 768
  {
    assert u.effects.Keys == (u.effects - {record}).Keys + {record};
  }

  lemma {:induction false} SettleAllKeepsBooked(b: Book, record: Id, players: seq<(UserId, Delta)>)
    requires Booked(b) && Outdated(b)
    ensures var next := SettleAll(b, record, players, b.epoch);
            Booked(next) && Outdated(next) && next.epoch == b.epoch
  {
    if players != [] {
      var (id, d) := players[|players| - 1];
      SettleAllKeepsBooked(b, record, players[..|players| - 1]);
      var before := SettleAll(b, record, players[..|players| - 1], b.epoch);
      if id in before.users { PutKeepsBooked(before, id, Settled(before.users[id], record, d, b.epoch)); }
    }
  }

  lemma {:induction false} ReleaseAllKeepsBooked(b: Book, record: Id, players: seq<(UserId, Delta)>)
    requires Booked(b) && Outdated(b)
    ensures var next := ReleaseAll(b, record, players, b.epoch);
            Booked(next) && Outdated(next) && next.epoch == b.epoch
  {
    if players != [] {
      var id := players[|players| - 1].0;
      ReleaseAllKeepsBooked(b, record, players[..|players| - 1]);
      var before := ReleaseAll(b, record, players[..|players| - 1], b.epoch);
      if id in before.users {
        var u := Released(before.users[id], record, b.epoch);
        assert Touch(before, id, u) == before.(users := before.users[id := u]);
        TouchKeepsBooked(before, id, u);
      }
    }
  }

  lemma InstallKeepsBooked(b: Book, id: UserId, u: User)
    requires Booked(b) && SizedUser(u) && u.generation <= b.epoch && !Watched(b, id)
    ensures Booked(Put(b, id, u))
  {
    PutKeepsCounted(b, id, u);
    var next := Put(b, id, u);
    forall g | g in b.guards ensures ClaimOk(next.users, b.guards[g]) { assert b.guards[g].user != id; }
  }

  lemma StampKeepsBooked(b: Book, id: UserId)
    requires Booked(b) && Outdated(b)
    ensures Booked(Stamp(b, id)) && Outdated(Stamp(b, id))
  {
    if id in b.users { TouchKeepsBooked(b, id, b.users[id].(generation := b.epoch)); }
  }

  lemma HoldKeepsBooked(b: Book, guard: Guard, h: Hold)
    requires Booked(b) && ClaimOk(b.users, h) && (h.claim.Some? ==> h.claim.value <= b.epoch)
    ensures Booked(b.(guards := b.guards[guard := h])) && Booked(b.(guards := b.guards - {guard}))
  {
  }

  /** Publishing a day finds no old key to remove, and outdates no other claim. */
  lemma ShowDayKeepsBooked(b: Book, guard: Guard, day: Day, after: int)
    requires Booked(b) && Publishable(b, guard)
    ensures Booked(ShowDay(b, guard, day, after))
  {
    var id := b.guards[guard].user;
    var u := WithDay(b.users[id], day, after);
    assert ClaimOk(b.users, b.guards[guard]);
    PutKeepsCounted(b, id, u);
    var next := ShowDay(b, guard, day, after);
    assert next == Put(b, id, u).(guards := next.guards);
    forall g | g in next.guards ensures ClaimOk(next.users, next.guards[g]) {
      if g != guard { assert b.guards[g].user != id && ClaimOk(b.users, b.guards[g]); }
    }
  }

  lemma PutBumped(b: Book, id: UserId, u: User)
    requires Booked(b) && SizedUser(u) && u.generation == b.epoch + 1
    ensures Booked(Put(Bump(b), id, u))
  {
    BumpKeeps(b);
    PutKeepsBooked(Bump(b), id, u);
  }

  lemma TouchBumped(b: Book, id: UserId, u: User)
    requires Booked(b) && id in b.users && SizedUser(u) && u.generation == b.epoch + 1
    requires u.wallet == b.users[id].wallet && u.available == b.users[id].available
    ensures Booked(Touch(Bump(b), id, u))
  {
    BumpKeeps(b);
    TouchKeepsBooked(Bump(b), id, u);
  }

  lemma BumpKeepsBooked(b: Book)
    requires Booked(b)
    ensures Booked(Bump(b))
  {
  }

  lemma AddEffectKeepsBooked(b: Book, id: UserId, record: Id, effect: PendingEffect)
    requires Booked(b)
    ensures Booked(EffectAdded(b, id, record, effect))
  {
    if id in b.users && record !in b.users[id].effects {
      AddedSizes(b.users[id], record, effect, b.epoch + 1);
      PutBumped(b, id, WithEffect(b.users[id], record, effect, b.epoch + 1));
      assert EffectAdded(b, id, record, effect) == Put(Bump(b), id, WithEffect(b.users[id], record, effect, b.epoch + 1));
    } else {
      BumpKeepsBooked(b);
      assert EffectAdded(b, id, record, effect) == Bump(b);
    }
  }

  lemma OwnedDropKeepsBooked(b: Book, id: UserId, record: Id)
    requires Booked(b) && Owned(b, id, record)
    ensures Booked(Touch(Bump(b), id, WithoutEffect(b.users[id], record, b.epoch + 1)))
  {
    DroppedSizes(b.users[id], record, b.epoch + 1);
    TouchBumped(b, id, WithoutEffect(b.users[id], record, b.epoch + 1));
  }

  lemma DropEffectKeepsBooked(b: Book, id: UserId, record: Id)
    requires Booked(b)
    ensures Booked(EffectDropped(b, id, record))
  {
    if Owned(b, id, record) {
      OwnedDropKeepsBooked(b, id, record);
      assert EffectDropped(b, id, record) == Touch(Bump(b), id, WithoutEffect(b.users[id], record, b.epoch + 1));
    } else {
      BumpKeepsBooked(b);
      assert EffectDropped(b, id, record) == Bump(b);
    }
  }

  lemma SameFences(b: Book, next: Book, id: UserId, u: User)
    requires Fenced(b) && id in b.users && SizedUser(u)
    requires u.generation == b.users[id].generation && u.wallet == b.users[id].wallet && u.available == b.users[id].available
    requires next.users == b.users[id := u] && next.epoch == b.epoch && next.guards == b.guards
    ensures Fenced(next)
  {
    forall g | g in next.guards ensures ClaimOk(next.users, next.guards[g]) { assert ClaimOk(b.users, b.guards[g]); }
  }

  lemma AbandonKeepsBooked(b: Book, id: UserId, record: Id)
    requires Booked(b)
    ensures Booked(WithoutPending(b, id, record))
  {
    if Owned(b, id, record) {
      var u := WithoutEffect(b.users[id], record, b.users[id].generation);
      DroppedSizes(b.users[id], record, b.users[id].generation);
      TouchKeepsCounted(b, id, u);
      SameFences(b, Touch(b, id, u), id, u);
    }
  }

  lemma HideKeepsBooked(b: Book, id: UserId)
    requires Booked(b)
    ensures Booked(HideUser(b, id))
  {
    PutBumped(b, id, Hidden(UserOr(b, id), b.epoch + 1));
  }

  lemma RegisterKeepsBooked(b: Book, id: UserId)
    requires Booked(b)
    ensures Booked(Registered(b, id))
  {
    if id in b.users && b.users[id].wallet.Some? {
      BumpKeepsBooked(b);
      assert Registered(b, id) == Bump(b);
    } else {
      PutBumped(b, id, BlankUser().(available := true, generation := b.epoch + 1));
    }
  }

  lemma RetireKeepsBooked(b: Book, id: UserId)
    requires Booked(b)
    ensures Booked(RetireUser(b, id))
  {
    if id in b.users {
      PutBumped(b, id, b.users[id].(available := false, retired := true, generation := b.epoch + 1));
    } else {
      BumpKeepsBooked(b);
    }
  }

  lemma GrantKeepsBooked(b: Book, id: UserId)
    requires Booked(b)
    ensures Booked(GrantAdded(b, id))
  {
    PutBumped(b, id, UserOr(b, id).(wallet := Some(Granted(None)), generation := b.epoch + 1, available := true));
  }

  lemma BeginKeepsBooked(b: Book, guard: Guard, id: UserId)
    requires Booked(b)
    ensures Booked(GuardBegun(b, guard, id))
  {
    BumpKeeps(b);
    StampKeepsBooked(Bump(b), id);
    HoldKeepsBooked(Stamp(Bump(b), id), guard, Hold(id, None));
  }

  lemma BeginDailyKeepsBooked(b: Book, guard: Guard, id: UserId, ready: bool)
    requires Booked(b)
    ensures Booked(DailyBegun(b, guard, id, ready))
  {
    if ready {
      var claim := if DailyReadable(b, id) then Some(b.epoch + 1) else None;
      HideKeepsBooked(b, id);
      HoldKeepsBooked(HideUser(b, id), guard, Hold(id, claim));
    } else {
      BumpKeeps(b);
      HoldKeepsBooked(Bump(b), guard, Hold(id, None));
    }
  }

  lemma EndKeepsBooked(b: Book, guard: Guard)
    requires Booked(b)
    ensures Booked(GuardEnded(b, guard))
  {
    if guard in b.guards {
      var id := b.guards[guard].user;
      BumpKeeps(b);
      StampKeepsBooked(Bump(b), id);
      HoldKeepsBooked(Stamp(Bump(b), id), guard, Hold(id, None));
    }
  }

  lemma LoadKeepsBooked(b: Book, id: UserId, loaded: Loaded, generation: nat)
    requires Booked(b)
    ensures Booked(Installed(b, id, loaded, generation))
    ensures id !in b.users && b.guards == map[] ==> Booked(Put(b, id, LoadedUser(loaded, 0)))
  {
    if !Watched(b, id) && id in b.users && b.users[id].generation == generation {
      InstallKeepsBooked(b, id, LoadedUser(loaded, generation));
    }
    if b.guards == map[] { InstallKeepsBooked(b, id, LoadedUser(loaded, 0)); }
  }

  lemma ForgetKeepsBooked(b: Book, id: UserId)
    requires Booked(b)
    ensures Booked(Drop(Bump(b), id))
  {
    BumpKeeps(b);
    DropKeepsBooked(Bump(b), id);
  }

  lemma HandKeepsBooked(b: Book, record: Id, players: seq<(UserId, Delta)>)
    requires Booked(b)
    ensures Booked(SettleAll(Bump(b), record, players, b.epoch + 1)) && Booked(ReleaseAll(Bump(b), record, players, b.epoch + 1))
  {
    BumpKeeps(b);
    SettleAllKeepsBooked(Bump(b), record, players);
    ReleaseAllKeepsBooked(Bump(b), record, players);
  }

  lemma UserOpKeepsBooked(b: Book, op: Op)
    requires Booked(b)
    requires op.Hydrate? || op.Install? || op.Register? || op.Hide? || op.Retire? || op.Forget? || op.GrantTo?
    ensures Booked(Apply(b, op))
  {
    match op
    case Hydrate(id, loaded) => LoadKeepsBooked(b, id, loaded, 0);
    case Install(id, loaded, generation) => LoadKeepsBooked(b, id, loaded, generation);
    case Register(id) => RegisterKeepsBooked(b, id);
    case Hide(id) => HideKeepsBooked(b, id);
    case Retire(id) => RetireKeepsBooked(b, id);
    case Forget(id) => ForgetKeepsBooked(b, id);
    case GrantTo(id) => GrantKeepsBooked(b, id);
  }

  lemma SettlementOpKeepsBooked(b: Book, op: Op)
    requires Booked(b) && (op.Settle? || op.Release? || op.AddEffect? || op.DropEffect?)
    ensures Booked(Apply(b, op))
  {
    match op
    case Settle(record, players) => HandKeepsBooked(b, record, players);
    case Release(record, players) => HandKeepsBooked(b, record, players);
    case AddEffect(id, record, effect) => AddEffectKeepsBooked(b, id, record, effect);
    case DropEffect(id, record) => DropEffectKeepsBooked(b, id, record);
  }

  lemma AbandonOpKeepsBooked(b: Book, op: Op)
    requires Booked(b) && (op.Abandon? || op.AbandonWhileDown? || op.Tick?)
    ensures Booked(Apply(b, op))
  {
    match op
    case Abandon(id, record) =>
      AbandonKeepsBooked(b, id, record);
      HideKeepsBooked(WithoutPending(b, id, record), id);
    case AbandonWhileDown(id, record) =>
      AbandonKeepsBooked(b, id, record);
      BumpKeeps(WithoutPending(b, id, record));
    case Tick => BumpKeeps(b);
  }

  lemma GuardOpKeepsBooked(b: Book, op: Op)
    requires Booked(b) && (op.Begin? || op.End?)
    ensures Booked(Apply(b, op))
  {
    match op
    case Begin(guard, id) => BeginKeepsBooked(b, guard, id);
    case End(guard) => EndKeepsBooked(b, guard);
  }

  lemma PublishDayKeepsBooked(b: Book, guard: Guard, day: Day, after: int)
    requires Booked(b)
    ensures Booked(Apply(b, PublishDay(guard, day, after)))
  {
    if Publishable(b, guard) { ShowDayKeepsBooked(b, guard, day, after); }
  }

  lemma DailyOpKeepsBooked(b: Book, op: Op)
    requires Booked(b) && (op.BeginDaily? || op.PublishDay?)
    ensures Booked(Apply(b, op))
  {
    match op
    case BeginDaily(guard, id, ready) => BeginDailyKeepsBooked(b, guard, id, ready);
    case PublishDay(guard, day, after) => PublishDayKeepsBooked(b, guard, day, after);
  }

  /** Every critical section keeps the indexes, the counters and the fences. */
  lemma ApplyKeepsBooked(b: Book, op: Op)
    requires Booked(b)
    ensures Booked(Apply(b, op))
  {
    if op.Begin? || op.End? { GuardOpKeepsBooked(b, op); }
    else if op.BeginDaily? || op.PublishDay? { DailyOpKeepsBooked(b, op); }
    else if op.Settle? || op.Release? || op.AddEffect? || op.DropEffect? { SettlementOpKeepsBooked(b, op); }
    else if op.Abandon? || op.AbandonWhileDown? || op.Tick? { AbandonOpKeepsBooked(b, op); }
    else { UserOpKeepsBooked(b, op); }
  }

  function ApplyAll(b: Book, ops: seq<Op>): Book {
    if ops == [] then b else Apply(ApplyAll(b, ops[..|ops| - 1]), ops[|ops| - 1])
  }

  function Empty(epoch: nat): Book { Book(map[], {}, {}, 0, 0, epoch, map[]) }

  /**
   After any sequence of critical sections, both rank indexes hold exactly the keys of the
   available wallets with completed games, both counters are the sums over users, every
   user is charged for its pending effects, and a daily claim whose generation is current
   finds its wallet complete and hidden.
   */
  lemma {:induction false} RunsStayBooked(epoch: nat, ops: seq<Op>)
    ensures Booked(ApplyAll(Empty(epoch), ops))
  {
    if ops != [] {
      RunsStayBooked(epoch, ops[..|ops| - 1]);
      ApplyKeepsBooked(ApplyAll(Empty(epoch), ops[..|ops| - 1]), ops[|ops| - 1]);
    }
  }

  /**
   In every reachable state the profit ranking holds a key with the winnings, the balance ranking
   one with the balance, for exactly the visible wallets that have played, and no other key.
   */
  lemma RankingsAreExact(epoch: nat, ops: seq<Op>)
    ensures var b := ApplyAll(Empty(epoch), ops);
            && (forall id, score, played :: RankKey(score, played, id) in b.profit <==>
                  && id in b.users && b.users[id].available && b.users[id].wallet.Some? && b.users[id].wallet.value.handsPlayed > 0
                  && score == b.users[id].wallet.value.netWon && played == b.users[id].wallet.value.handsPlayed)
            && (forall id, score, played :: RankKey(score, played, id) in b.balance <==>
                  && id in b.users && b.users[id].available && b.users[id].wallet.Some? && b.users[id].wallet.value.handsPlayed > 0
                  && score == b.users[id].wallet.value.balance && played == b.users[id].wallet.value.handsPlayed)
  {
    RunsStayBooked(epoch, ops);
    var b := ApplyAll(Empty(epoch), ops);
    RankedExactly(b.users, b.profit, true);
    RankedExactly(b.users, b.balance, false);
  }

  lemma RankedExactly(users: map<UserId, User>, keys: set<RankKey>, byProfit: bool)
    requires IndexOf(users, keys, byProfit)
    ensures forall id, score, played :: RankKey(score, played, id) in keys <==>
              && id in users && users[id].available && users[id].wallet.Some? && users[id].wallet.value.handsPlayed > 0
              && score == (if byProfit then users[id].wallet.value.netWon else users[id].wallet.value.balance)
              && played == users[id].wallet.value.handsPlayed
  {
    forall id, score, played
      ensures RankKey(score, played, id) in keys <==>
                && id in users && users[id].available && users[id].wallet.Some? && users[id].wallet.value.handsPlayed > 0
                && score == (if byProfit then users[id].wallet.value.netWon else users[id].wallet.value.balance)
                && played == users[id].wallet.value.handsPlayed
    {
      assert KeyBacked(users, keys, byProfit, RankKey(score, played, id));
      assert KeyPresent(users, keys, byProfit, id);
    }
  }
}
