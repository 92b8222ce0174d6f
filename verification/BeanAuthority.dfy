/**
 The in-memory bean authority over a lagging SQL wallet, for one user
 (draw-games/src/beans_read_memory.rs, beans_pending_effects.rs).

 Every event is one critical section of the authority's mutex, one SQL commit, or
 one step of the refresh loop. They interleave freely, also inside a guard that
 takes the mutex several times.
 */
module BeanAuthority {
  import opened Outcomes
  import opened BeanLedger

  /** A money transaction and the guard that opened it. */
  type Tx = nat

  datatype User = User(
    wallet: Option<Wallet>,
    available: bool,
    retired: bool,
    generation: nat,
    poker: map<Id, Effect>,
    effects: map<Id, Effect>)

  datatype Sql = Sql(wallet: Option<Wallet>, ledger: map<Id, Row>)

  /**
   A live `Mutation` guard: counted but not fenced yet, fencing, granting, claiming a day,
   or being dropped, perhaps while its transaction is still running.
   */
  datatype Writer =
    | Watching
    | Fenced
    | Dropping(running: bool)
    | Granting
    | Daily(open: bool, readable: Option<nat>, result: Option<int>, published: bool)

  datatype Phase = Captured | Sampled(waiting: set<Tx>) | Loaded(wallet: Option<Wallet>)

  /** One pass of the refresh loop: the generation and overlays it captured, and how far it got. */
  datatype Reader = Reader(generation: nat, poker: map<Id, Effect>, effects: map<Id, Effect>, phase: Phase)

  /** An accepted poker hand: this user's part of it, and whether it was acknowledged. */
  datatype Receipt = Receipt(effect: Effect, committed: bool)

  datatype State = State(
    account: bool,              // the account is active
    purged: bool,               // a deleted account was claimed for purging: its row is no longer read
    user: Option<User>,
    epoch: nat,
    writers: map<Tx, Writer>,   // `active_users`, one entry per guard
    orphans: set<Tx>,           // transactions still running after their guard was dropped
    receipts: map<Id, Receipt>, // accepted poker hands
    accepted: map<Id, Effect>,  // every effect handed to the durable writers and not abandoned
    reader: Option<Reader>,
    sql: Sql)

  datatype Event =
    | AcceptPoker(id: Id, effect: Effect)
    | AcceptEffect(id: Id, effect: Effect)
    | SqlCommit(id: Id)
    | AckPoker(id: Id)
    | AckEffect(id: Id)
    | AbandonEffect(id: Id, tx: Option<Tx>)
    | EvictHand(id: Id)
    | BeginWatch(w: Tx)
    | BeginFence(w: Tx, active: bool, held: bool)
    | BeginGrant(w: Tx)
    | BeginDaily(w: Tx)
    | WriterCommit(w: Tx, wallet: Wallet, rows: map<Id, Row>)
    | OrphanCommit(t: Tx, wallet: Wallet, rows: map<Id, Row>)
    | OrphanAbort(t: Tx)
    | DailyCommit(w: Tx, balance: int)
    | DailyRollback(w: Tx)
    | PublishDaily(w: Tx)
    | DropFence(w: Tx, running: bool, active: bool, held: bool)
    | End(w: Tx)
    | Grant
    | GrantCommit
    | Capture
    | Sample
    | Load
    | Install
    | DropRead
    | DeleteAccount
    | PurgeAccount
    | Remove(held: bool)
    | HideUser(active: bool, held: bool)
    | Register
    | OtherUser

  // ---- The authority's operations ----

  function NoUser(): User { User(None, false, false, 0, map[], map[]) }

  predicate Idle(u: User) { u.poker == map[] && u.effects == map[] }

  function Pending(u: User): set<Id> { u.poker.Keys + u.effects.Keys }

  /** `invalidate_locked`: hide the wallet until the next publication. */
  function Invalidate(s: State): State {
    var u := match s.user case Some(u) => u case None => NoUser();
    s.(epoch := s.epoch + 1, user := Some(u.(generation := s.epoch + 1, available := false, retired := false)))
  }

  /** `remove_user`: forget the user, or retire it while hands or effects are owed. */
  function RemoveUser(s: State, held: bool): State {
    match s.user
    case None => s.(epoch := s.epoch + 1)
    case Some(u) =>
      if !Idle(u) || held
      then s.(epoch := s.epoch + 1,
              user := Some(u.(available := false, retired := true, generation := s.epoch + 1)))
      else s.(epoch := s.epoch + 1, user := None)
  }

  /**
   `invalidate_user`, after the directory answered whether the account is active. The
   answer may be out of date by the time the mutex is taken, but only as `Answers` says.
   */
  function Fence(s: State, active: bool, held: bool): State {
    if active then Invalidate(s) else RemoveUser(s, held)
  }

  /** An account is deleted for good: it may have been active when the directory was asked. */
  predicate Answers(s: State, active: bool) { s.account ==> active }

  /** A new generation for the user, if there is one. */
  function Touch(s: State): State {
    s.(epoch := s.epoch + 1,
       user := match s.user case Some(u) => Some(u.(generation := s.epoch + 1)) case None => None)
  }

  /** The daily claim may publish only over a complete projection with nothing pending. */
  predicate DailyReadable(s: State) {
    && s.writers == map[]
    && s.user.Some?
    && s.user.value.available && s.user.value.wallet.Some? && Idle(s.user.value)
  }

  /** One overlay laid over a wallet row; a pending effect needs a row, and never overdraws it. */
  ghost function Laid(w: Option<Wallet>, ledger: map<Id, Row>, m: map<Id, Effect>): Option<Option<Wallet>> {
    if m == map[] then Some(w)
    else if w.None? then None
    else
      var v := Credit(w.value, SumOver(m, Uncommitted(ledger, m.Keys)));
      if v.balance < 0 then None else Some(Some(v))
  }

  /** The wallet `read_user` loads: the SQL row with the uncommitted effects laid over it. */
  ghost function Overlay(sql: Sql, poker: map<Id, Effect>, effects: map<Id, Effect>): Option<Option<Wallet>> {
    match Laid(sql.wallet, sql.ledger, poker)
    case None => None
    case Some(w) => Laid(w, sql.ledger, effects)
  }

  /** What `read_user` sees: its join hides the wallet row of a purged account. */
  ghost function Visible(s: State): Sql {
    if s.purged then s.sql.(wallet := None) else s.sql
  }

  /** Rows another writer may add: under ids of its own. */
  ghost predicate ForeignRows(s: State, rows: map<Id, Row>) {
    && rows.Keys !! s.sql.ledger.Keys
    && rows.Keys !! ReceiptIds(s.accepted.Keys)
  }

  // ---- One event ----

  ghost function Step(s: State, e: Event): Option<State> {
    match e
    case AcceptPoker(id, effect) => StepAcceptPoker(s, id, effect)
    case AcceptEffect(id, effect) => StepAcceptEffect(s, id, effect)
    case SqlCommit(id) => StepSqlCommit(s, id)
    case AckPoker(id) => StepAckPoker(s, id)
    case AckEffect(id) => StepAckEffect(s, id)
    case AbandonEffect(id, tx) => StepAbandon(s, id, tx)
    case EvictHand(id) => StepEvictHand(s, id)
    case BeginWatch(w) => StepBeginWatch(s, w)
    case BeginFence(w, active, held) => StepBeginFence(s, w, active, held)
    case BeginGrant(w) => StepBeginGrant(s, w)
    case BeginDaily(w) => StepBeginDaily(s, w)
    case WriterCommit(w, wallet, rows) =>
      if w in s.writers && Writing(s.writers[w]) then StepForeign(s, wallet, rows, s.orphans) else None
    case OrphanCommit(t, wallet, rows) =>
      if t in s.orphans then StepForeign(s, wallet, rows, s.orphans - {t}) else None
    case OrphanAbort(t) => Some(s.(orphans := s.orphans - {t}))
    case DailyCommit(w, balance) => StepDaily(s, w, Some(balance))
    case DailyRollback(w) => StepDaily(s, w, None)
    case PublishDaily(w) => StepPublishDaily(s, w)
    case DropFence(w, running, active, held) => StepDropFence(s, w, running, active, held)
    case End(w) => StepEnd(s, w)
    case Grant => StepGrant(s)
    case GrantCommit => Some(s.(sql := s.sql.(wallet := Some(Granted(s.sql.wallet)))))
    case Capture => StepCapture(s)
    case Sample => StepSample(s)
    case Load => StepLoad(s)
    case Install => StepInstall(s)
    case DropRead => Some(s.(reader := None))
    case DeleteAccount => Some(s.(account := false))
    case PurgeAccount => if s.account then None else Some(s.(purged := true))
    case Remove(held) => if s.account then None else Some(RemoveUser(s, held))
    case HideUser(active, held) => if Answers(s, active) then Some(Fence(s, active, held)) else None
    case Register => StepRegister(s)
    // a critical section about somebody else starts a new epoch
    case OtherUser => Some(s.(epoch := s.epoch + 1))
  }

  /** A guard whose transaction may commit. */
  predicate Writing(w: Writer) { w.Fenced? || (w.Dropping? && w.running) }

  /** The first half of `watch`: count the guard, under a new generation. */
  ghost function StepBeginWatch(s: State, w: Tx): Option<State> {
    if w in s.writers || w in s.orphans then None
    else Some(Touch(s).(writers := s.writers[w := Watching]))
  }

  /** The second half of `watch`: hide the wallet before the transaction begins. */
  ghost function StepBeginFence(s: State, w: Tx, active: bool, held: bool): Option<State> {
    if w !in s.writers || !s.writers[w].Watching? || !Answers(s, active) then None
    else Some(Fence(s, active, held).(writers := s.writers[w := Fenced]))
  }

  ghost function StepBeginGrant(s: State, w: Tx): Option<State> {
    if w in s.writers || w in s.orphans then None
    else Some(Touch(s).(writers := s.writers[w := Granting]))
  }

  /** `daily_mutation` */
  ghost function StepBeginDaily(s: State, w: Tx): Option<State> {
    if w in s.writers || w in s.orphans then None
    else
      var next := Invalidate(s);
      Some(next.(writers := s.writers[w := Daily(true, if DailyReadable(s) then Some(next.epoch) else None, None, false)]))
  }

  /** Another writer's commit, or one its guard no longer watches. */
  ghost function StepForeign(s: State, wallet: Wallet, rows: map<Id, Row>, orphans: set<Tx>): Option<State> {
    if ForeignRows(s, rows) then Some(s.(sql := Sql(Some(wallet), s.sql.ledger + rows), orphans := orphans)) else None
  }

  /** The daily transaction ends: with a new balance, or as a no-op. */
  ghost function StepDaily(s: State, w: Tx, balance: Option<int>): Option<State> {
    if !(w in s.writers && s.writers[w].Daily? && s.writers[w].open) then None
    else
      var wallet := match balance case Some(b) => Some(Granted(s.sql.wallet).(balance := b)) case None => s.sql.wallet;
      Some(s.(sql := s.sql.(wallet := wallet),
              writers := s.writers[w := s.writers[w].(open := false, result := Some(Granted(wallet).balance))]))
  }

  /** The refresh loop copies a user's generation and overlays, unless a writer holds the user. */
  ghost function StepCapture(s: State): Option<State> {
    if s.reader.None? && s.user.Some? && !s.user.value.retired && s.writers == map[]
    then
      var u := s.user.value;
      Some(s.(reader := Some(Reader(u.generation, u.poker, u.effects, Captured))))
    else None
  }

  /** `OpenTransactions::sample` */
  ghost function StepSample(s: State): Option<State> {
    if s.reader.Some? && s.reader.value.phase.Captured?
    then Some(s.(reader := Some(s.reader.value.(phase := Sampled(s.orphans))))) else None
  }

  /** The snapshot read, once every sampled transaction has ended. */
  ghost function StepLoad(s: State): Option<State> {
    if s.reader.Some? && s.reader.value.phase.Sampled? && s.reader.value.phase.waiting !! s.orphans
    then
      match Overlay(Visible(s), s.reader.value.poker, s.reader.value.effects)
      case Some(w) => Some(s.(reader := Some(s.reader.value.(phase := Loaded(w)))))
      case None => Some(s.(reader := None))
    else None
  }

  ghost function StepAcceptPoker(s: State, id: Id, effect: Effect): Option<State> {
    if id in s.receipts then (if s.receipts[id].effect == effect then Some(s) else None)
    else if s.user.None? || s.user.value.wallet.None? then None
    else
      var u := s.user.value;
      var w := Credit(u.wallet.value, effect.change);
      if w.balance < 0 then None
      else
        Some(s.(epoch := s.epoch + 1,
                receipts := s.receipts[id := Receipt(effect, false)],
                accepted := s.accepted[id := effect],
                user := Some(u.(wallet := Some(w), poker := u.poker[id := effect], generation := s.epoch + 1))))
  }

  ghost function StepAcceptEffect(s: State, id: Id, effect: Effect): Option<State> {
    if s.writers != map[] || s.user.None? || !s.user.value.available || s.user.value.retired then None
    else
      var u := s.user.value;
      if u.wallet.None? then None
      else if id in u.effects then (if u.effects[id] == effect then Some(s) else None)
      else
        var w := Credit(u.wallet.value, effect.change);
        if w.balance < 0 then None
        else
          Some(s.(epoch := s.epoch + 1,
                  accepted := s.accepted[id := effect],
                  user := Some(u.(wallet := Some(w), effects := u.effects[id := effect], generation := s.epoch + 1))))
  }

  /** A durable writer settles one effect it was handed, and its receipt, in one transaction. */
  ghost function StepSqlCommit(s: State, id: Id): Option<State> {
    if id !in s.accepted || Committed(s.sql.ledger, id) then None
    else
      var effect := s.accepted[id];
      var w := Credit(Granted(s.sql.wallet), effect.change);
      match WriteReceipt(s.sql.ledger, id, effect.ledgerDelta)
      case None => None
      case Some(ledger) => if w.balance < 0 then None else Some(s.(sql := Sql(Some(w), ledger)))
  }

  /** `poker_committed`: once its hand is durable, the overlay of that hand goes and the wallet stays. */
  ghost function StepAckPoker(s: State, id: Id): Option<State> {
    if !Committed(s.sql.ledger, id) then None
    else if id !in s.receipts || s.receipts[id].committed then Some(s)
    else
      Some(s.(epoch := s.epoch + 1,
              receipts := s.receipts[id := s.receipts[id].(committed := true)],
              user := match s.user
                      case Some(u) => Some(u.(poker := u.poker - {id}, generation := s.epoch + 1))
                      case None => None))
  }

  /** Beyond the newest 4096 acknowledged hands the authority forgets the oldest. */
  ghost function StepEvictHand(s: State, id: Id): Option<State> {
    if id in s.receipts && s.receipts[id].committed then Some(s.(receipts := s.receipts - {id})) else None
  }

  /** `effect_committed` */
  ghost function StepAckEffect(s: State, id: Id): Option<State> {
    if !Committed(s.sql.ledger, id) then None
    else if s.user.Some? && id in s.user.value.effects then
      var u := s.user.value;
      Some(s.(epoch := s.epoch + 1, user := Some(u.(effects := u.effects - {id}, generation := s.epoch + 1))))
    else Some(s.(epoch := s.epoch + 1))
  }

  /** `effect_abandoned`: the lottery writer stopped; its last transaction may still be running. */
  ghost function StepAbandon(s: State, id: Id, running: Option<Tx>): Option<State> {
    if id in s.receipts || (running.Some? && running.value in s.writers) then None
    else
      var t := s.(accepted := s.accepted - {id},
                  user := match s.user
                          case Some(u) => Some(u.(effects := u.effects - {id}))
                          case None => None);
      Some(Invalidate(t).(orphans := if running.Some? then s.orphans + {running.value} else s.orphans))
  }

  ghost function StepPublishDaily(s: State, w: Tx): Option<State> {
    if w !in s.writers || !s.writers[w].Daily? || s.writers[w].result.None? || s.writers[w].published then None
    else
      var d := s.writers[w];
      if d.readable.None? || s.writers.Keys != {w} || s.user.None? || s.user.value.generation != d.readable.value
         || s.user.value.wallet.None?
      then Some(s)
      else
        var u := s.user.value;
        Some(s.(user := Some(u.(wallet := Some(u.wallet.value.(balance := d.result.value)), available := true)),
                writers := s.writers[w := d.(published := true)]))
  }

  /** A guard that leaves the wallet as it is: nothing has been, or will be, written behind it. */
  predicate QuietWriter(w: Writer) {
    w.Granting? || w.Watching? || (w.Daily? && w.published)
  }

  /** The first half of `Mutation::drop`: hide the wallet, also on cancellation while the transaction runs. */
  ghost function StepDropFence(s: State, w: Tx, running: bool, active: bool, held: bool): Option<State> {
    if w !in s.writers || QuietWriter(s.writers[w]) || s.writers[w].Dropping? || !Answers(s, active) then None
    else if running && s.writers[w].Daily? && !s.writers[w].open then None
    else Some(Fence(s, active, held).(writers := s.writers[w := Dropping(running)]))
  }

  /** The second half of `Mutation::drop`: the guard no longer counts, its transaction may still run. */
  ghost function StepEnd(s: State, w: Tx): Option<State> {
    if w !in s.writers || s.writers[w].Watching? || !(QuietWriter(s.writers[w]) || s.writers[w].Dropping?) then None
    else
      Some(Touch(s).(writers := s.writers - {w},
                     orphans := if Writing(s.writers[w]) then s.orphans + {w} else s.orphans))
  }

  /** `ensure`: a first use is granted in memory before its row is durable. */
  ghost function StepGrant(s: State): Option<State> {
    if !s.account then None
    else
      match s.user
      case None =>
        Some(s.(epoch := s.epoch + 1, user := Some(User(Some(Granted(None)), true, false, s.epoch + 1, map[], map[]))))
      case Some(u) =>
        if !u.available then None
        else if u.wallet.Some? then Some(s)
        else Some(s.(epoch := s.epoch + 1, user := Some(u.(wallet := Some(Granted(None)), generation := s.epoch + 1))))
  }

  /** `register_user`: a newly committed account has no wallet row yet. */
  ghost function StepRegister(s: State): Option<State> {
    if !s.account then None
    else
      match s.user
      case None => Some(s.(epoch := s.epoch + 1, user := Some(User(None, true, false, s.epoch + 1, map[], map[]))))
      case Some(u) => if u.wallet.Some? then Some(s.(epoch := s.epoch + 1)) else None
  }

  /** The guarded install at the end of a refresh. */
  ghost function StepInstall(s: State): Option<State> {
    if s.reader.None? || !s.reader.value.phase.Loaded? then None
    else
      var r := s.reader.value;
      if s.writers != map[] || s.user.None? || s.user.value.generation != r.generation then Some(s.(reader := None))
      else
        Some(s.(reader := None, user := Some(User(r.phase.wallet, true, false, r.generation, r.poker, r.effects))))
  }

  /** The effects a run of accepted events has accepted, less those it abandoned. */
  ghost function AcceptedBy(es: seq<Event>): map<Id, Effect> {
    if es == [] then map[]
    else
      Recall(AcceptedBy(es[..|es| - 1]), es[|es| - 1])
  }

  ghost function Recall(accepted: map<Id, Effect>, e: Event): map<Id, Effect> {
    match e
    case AcceptPoker(id, effect) => accepted[id := effect]
    case AcceptEffect(id, effect) => accepted[id := effect]
    case AbandonEffect(id, _) => accepted - {id}
    case _ => accepted
  }

  ghost function Run(s: State, es: seq<Event>): Option<State> {
    if es == [] then Some(s)
    else
      match Run(s, es[..|es| - 1])
      case None => None
      case Some(t) => Step(t, es[|es| - 1])
  }
}
