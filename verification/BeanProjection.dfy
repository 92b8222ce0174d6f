/**
 What the whole-map operations do to one user: exactly the events of the one-user protocol.
 `BeanMachine` proves the authority's methods perform these operations, and `BeanOverlay`
 proves what the events keep.
 */
module BeanProjection {
  import opened Outcomes
  import opened BeanLedger
  import opened BeanIndex
  import opened BeanHands
  import opened BeanMachine
  import A = BeanAuthority

  // ---- One user of the book, as the protocol sees it ----

  ghost predicate SameHands(mine: map<Id, Delta>, theirs: map<Id, Effect>) {
    mine.Keys == theirs.Keys && forall x :: x in mine ==> theirs[x].change == mine[x]
  }

  ghost predicate SameEffects(mine: map<Id, PendingEffect>, theirs: map<Id, Effect>) {
    mine.Keys == theirs.Keys && forall x :: x in mine ==> theirs[x].change == mine[x].change
  }

  ghost predicate SameUser(u: User, v: A.User) {
    && u.wallet == v.wallet && u.available == v.available && u.retired == v.retired && u.generation == v.generation
    && SameHands(u.poker, v.poker) && SameEffects(u.effects, v.effects)
  }

  /** The generation under which a guard may still publish a daily claim. */
  function ClaimOf(w: A.Writer): Option<nat> { if w.Daily? && !w.published then w.readable else None }

  ghost predicate SameGuards(guards: map<Guard, Hold>, id: UserId, writers: map<A.Tx, A.Writer>) {
    && (forall g :: g in writers <==> g in guards && guards[g].user == id)
    && (forall g :: g in writers ==> guards[g].claim == ClaimOf(writers[g]))
  }

  /** `s` is user `id` of the book. */
  ghost predicate Projects(b: Book, id: UserId, s: A.State) {
    && s.epoch == b.epoch
    && (id in b.users <==> s.user.Some?)
    && (id in b.users ==> SameUser(b.users[id], s.user.value))
    && SameGuards(b.guards, id, s.writers)
  }

  lemma HandPut(mine: map<Id, Delta>, theirs: map<Id, Effect>, x: Id, e: Effect)
    requires SameHands(mine, theirs)
    ensures SameHands(mine[x := e.change], theirs[x := e]) && SameHands(mine - {x}, theirs - {x})
  {
  }

  lemma EffectPut(mine: map<Id, PendingEffect>, theirs: map<Id, Effect>, x: Id, p: PendingEffect, e: Effect)
    requires SameEffects(mine, theirs) && e.change == p.change
    ensures SameEffects(mine[x := p], theirs[x := e]) && SameEffects(mine - {x}, theirs - {x})
  {
  }

  lemma EmptyTogether(u: User, v: A.User)
    requires SameUser(u, v)
    ensures A.Idle(v) <==> u.poker == map[] && u.effects == map[]
  {
    assert u.poker == map[] <==> u.poker.Keys == {};
    assert v.poker == map[] <==> v.poker.Keys == {};
    assert u.effects == map[] <==> u.effects.Keys == {};
    assert v.effects == map[] <==> v.effects.Keys == {};
  }

  /** An operation and an event that treat the user alike, and no guard. */
  lemma UserStep(b: Book, next: Book, id: UserId, s: A.State, t: A.State)
    requires Projects(b, id, s) && next.epoch == t.epoch && next.guards == b.guards && t.writers == s.writers
    requires id in next.users <==> t.user.Some?
    requires id in next.users ==> SameUser(next.users[id], t.user.value)
    ensures Projects(next, id, t)
  {
  }

  /** The same for an operation that puts `u` in place of the user, where the event puts `v`. */
  lemma UserPut(b: Book, id: UserId, s: A.State, u: User, v: A.User, epoch: nat)
    requires Projects(b, id, s) && SameUser(u, v) && epoch >= b.epoch
    ensures Projects(Put(b.(epoch := epoch), id, u), id, s.(epoch := epoch, user := Some(v)))
  {
    UserStep(b, Put(b.(epoch := epoch), id, u), id, s, s.(epoch := epoch, user := Some(v)));
  }

  lemma WatchedHasWriters(b: Book, id: UserId, s: A.State)
    requires Projects(b, id, s)
    ensures Watched(b, id) <==> s.writers != map[]
  {
    if s.writers != map[] {
      var g :| g in s.writers;
      assert g in b.guards && b.guards[g].user == id;
    }
  }

  // ---- Somebody else ----

  /** The user or the guard that an operation is about is `id`, or `id`'s. */
  ghost predicate About(b: Book, op: Op, id: UserId) {
    match op
    case Settle(_, players) => Plays(players, id)
    case Release(_, players) => Plays(players, id)
    case Begin(_, x) => x == id
    case BeginDaily(_, x, _) => x == id
    case PublishDay(guard, _, _) => guard in b.guards && b.guards[guard].user == id
    case End(guard) => guard in b.guards && b.guards[guard].user == id
    case Tick => false
    case _ => op.id == id
  }

  /** Nothing of the user, nor of its guards, is different in `next`. */
  ghost predicate Elsewhere(b: Book, next: Book, id: UserId) {
    && b.epoch <= next.epoch <= b.epoch + 1
    && (id in b.users <==> id in next.users) && (id in b.users ==> next.users[id] == b.users[id])
    && (forall g :: (g in b.guards && b.guards[g].user == id) <==> (g in next.guards && next.guards[g].user == id))
    && (forall g :: g in b.guards && b.guards[g].user == id ==> next.guards[g] == b.guards[g])
  }

  lemma {:induction false} SettleAllElsewhere(b: Book, record: Id, players: seq<(UserId, Delta)>, generation: nat, id: UserId)
    requires !Plays(players, id)
    ensures Elsewhere(b, SettleAll(b, record, players, generation), id) && SettleAll(b, record, players, generation).epoch == b.epoch
    ensures Elsewhere(b, ReleaseAll(b, record, players, generation), id) && ReleaseAll(b, record, players, generation).epoch == b.epoch
  {
    if players != [] {
      var front, last := players[..|players| - 1], players[|players| - 1];
      assert players == front + [last];
      PlaysLast(front, last, id);
      SettleAllElsewhere(b, record, front, generation, id);
    }
  }

  lemma HandElsewhere(b: Book, op: Op, id: UserId)
    requires (op.Settle? || op.Release?) && !About(b, op, id)
    ensures Elsewhere(b, Apply(b, op), id)
  {
    SettleAllElsewhere(Bump(b), op.record, op.players, b.epoch + 1, id);
  }

  ghost predicate GuardOp(op: Op) { op.Begin? || op.BeginDaily? || op.PublishDay? || op.End? }

  lemma GuardElsewhere(b: Book, op: Op, id: UserId)
    requires GuardOp(op) && !About(b, op, id) && ((op.Begin? || op.BeginDaily?) ==> op.guard !in b.guards)
    ensures Elsewhere(b, Apply(b, op), id)
  {
  }

  ghost predicate EffectOp(op: Op) { op.AddEffect? || op.DropEffect? || op.Abandon? || op.AbandonWhileDown? || op.Tick? }

  lemma EffectElsewhere(b: Book, op: Op, id: UserId)
    requires EffectOp(op) && !About(b, op, id)
    ensures Elsewhere(b, Apply(b, op), id)
  {
  }

  lemma UserElsewhere(b: Book, op: Op, id: UserId)
    requires !GuardOp(op) && !EffectOp(op) && !op.Settle? && !op.Release? && !About(b, op, id)
    ensures Elsewhere(b, Apply(b, op), id)
  {
  }

  /** A critical section about somebody else starts at most a new epoch: the protocol's `OtherUser`, or no event. */
  lemma OthersProject(b: Book, op: Op, id: UserId, s: A.State)
    requires Projects(b, id, s) && !About(b, op, id) && ((op.Begin? || op.BeginDaily?) ==> op.guard !in b.guards)
    ensures var next := Apply(b, op);
            && (next.epoch == b.epoch || next.epoch == b.epoch + 1)
            && Projects(next, id, s.(epoch := next.epoch))
  {
    if op.Settle? || op.Release? { HandElsewhere(b, op, id); }
    else if GuardOp(op) { GuardElsewhere(b, op, id); }
    else if EffectOp(op) { EffectElsewhere(b, op, id); }
    else { UserElsewhere(b, op, id); }
    ElsewhereProjects(b, Apply(b, op), id, s);
  }

  lemma ElsewhereProjects(b: Book, next: Book, id: UserId, s: A.State)
    requires Projects(b, id, s) && Elsewhere(b, next, id)
    ensures Projects(next, id, s.(epoch := next.epoch))
  {
  }

  // ---- Settlements ----

  /** Accepting a hand the user plays in is the user's `AcceptPoker`. */
  lemma HandProjects(b: Book, id: UserId, s: A.State, record: Id, players: seq<(UserId, Delta)>, k: nat, effect: Effect)
    requires Projects(b, id, s) && Payable(b.users, players) && record !in s.receipts
    requires k < |players| && players[k].0 == id && effect.change == players[k].1
    ensures A.StepAcceptPoker(s, record, effect).Some?
    ensures Projects(Apply(b, Settle(record, players)), id, A.StepAcceptPoker(s, record, effect).value)
  {
    HandCreditsOne(b, record, players, k);
    CreditProjects(b, Apply(b, Settle(record, players)), id, s, record, effect);
  }

  lemma HandCreditsOne(b: Book, record: Id, players: seq<(UserId, Delta)>, k: nat)
    requires Payable(b.users, players) && k < |players|
    ensures var next, id := Apply(b, Settle(record, players)), players[k].0;
            && id in b.users && id in next.users
            && Credited(b.users[id], next.users[id], record, players[k].1) && Affordable(b.users[id].wallet.value, players[k].1)
            && next.epoch == b.epoch + 1 == next.users[id].generation && next.guards == b.guards
  {
    var next := SettleAll(Bump(b), record, players, b.epoch + 1);
    assert Apply(b, Settle(record, players)) == next;
    SettleAllCredits(Bump(b), record, players, b.epoch + 1);
    assert players[k].0 in b.users && Credited(b.users[players[k].0], next.users[players[k].0], record, players[k].1);
  }

  lemma CreditProjects(b: Book, next: Book, id: UserId, s: A.State, record: Id, effect: Effect)
    requires Projects(b, id, s) && record !in s.receipts && id in b.users && id in next.users
    requires Credited(b.users[id], next.users[id], record, effect.change) && Affordable(b.users[id].wallet.value, effect.change)
    requires next.epoch == b.epoch + 1 == next.users[id].generation && next.guards == b.guards
    ensures A.StepAcceptPoker(s, record, effect).Some?
    ensures Projects(next, id, A.StepAcceptPoker(s, record, effect).value)
  {
    HandPut(b.users[id].poker, s.user.value.poker, record, effect);
    UserStep(b, next, id, s, A.StepAcceptPoker(s, record, effect).value);
  }

  /** Acknowledging one, once SQL holds it, is the user's `AckPoker`. */
  lemma ReleaseProjects(b: Book, id: UserId, s: A.State, record: Id, players: seq<(UserId, Delta)>)
    requires Projects(b, id, s) && Plays(players, id)
    requires Committed(s.sql.ledger, record) && record in s.receipts && !s.receipts[record].committed
    ensures A.StepAckPoker(s, record).Some?
    ensures Projects(Apply(b, Release(record, players)), id, A.StepAckPoker(s, record).value)
  {
    ReleaseAllReleases(Bump(b), record, players, b.epoch + 1);
    if id in b.users { HandPut(b.users[id].poker, s.user.value.poker, record, Effect(ZERO, 0)); }
    UserStep(b, Apply(b, Release(record, players)), id, s, A.StepAckPoker(s, record).value);
  }

  /** What `accept_effect` asks of the user before it accepts a new effect. */
  ghost predicate Acceptable(b: Book, id: UserId, record: Id, effect: PendingEffect) {
    && !Watched(b, id) && id in b.users
    && b.users[id].available && !b.users[id].retired && record !in b.users[id].effects
    && b.users[id].wallet.Some? && Affordable(b.users[id].wallet.value, effect.change)
  }

  lemma EffectProjects(b: Book, id: UserId, s: A.State, record: Id, pending: PendingEffect, effect: Effect)
    requires Projects(b, id, s) && Acceptable(b, id, record, pending) && effect.change == pending.change
    ensures A.StepAcceptEffect(s, record, effect).Some?
    ensures Projects(Apply(b, AddEffect(id, record, pending)), id, A.StepAcceptEffect(s, record, effect).value)
  {
    WatchedHasWriters(b, id, s);
    EffectPut(b.users[id].effects, s.user.value.effects, record, pending, effect);
    UserStep(b, Apply(b, AddEffect(id, record, pending)), id, s, A.StepAcceptEffect(s, record, effect).value);
  }

  /** The protocol accepts a new effect or hand exactly when the authority may, up to the integer widths. */
  lemma AcceptsTogether(b: Book, id: UserId, s: A.State, record: Id, effect: Effect)
    requires Projects(b, id, s)
    ensures record !in s.receipts ==>
              (A.StepAcceptPoker(s, record, effect).Some?
               <==> id in b.users && b.users[id].wallet.Some? && Credit(b.users[id].wallet.value, effect.change).balance >= 0)
    ensures (id in b.users ==> record !in b.users[id].effects) ==>
              (A.StepAcceptEffect(s, record, effect).Some?
               <==> && !Watched(b, id) && id in b.users && b.users[id].available && !b.users[id].retired
                    && b.users[id].wallet.Some? && Credit(b.users[id].wallet.value, effect.change).balance >= 0)
  {
    WatchedHasWriters(b, id, s);
  }

  /** A new effect also claims its day, and 256 bytes for itself. */
  lemma EffectIsCharged(b: Book, id: UserId, record: Id, effect: PendingEffect)
    requires Acceptable(b, id, record, effect)
    ensures var u, v := b.users[id], Apply(b, AddEffect(id, record, effect)).users[id];
            && v.effects == u.effects[record := effect]
            && v.bytes == u.bytes + 256
            && (forall day :: day in v.days <==> day in u.days || effect.day == Some(day))
            && v.receipts == u.receipts && v.latest == u.latest && v.poker == u.poker
  {
  }

  lemma DropProjects(b: Book, id: UserId, s: A.State, record: Id)
    requires Projects(b, id, s) && Committed(s.sql.ledger, record)
    ensures A.StepAckEffect(s, record).Some?
    ensures Projects(Apply(b, DropEffect(id, record)), id, A.StepAckEffect(s, record).value)
  {
    if Owned(b, id, record) { OwnedProjects(b, id, s, record); }
    else { ElsewhereProjects(b, Bump(b), id, s); }
  }

  lemma OwnedProjects(b: Book, id: UserId, s: A.State, record: Id)
    requires Projects(b, id, s) && Owned(b, id, record) && Committed(s.sql.ledger, record)
    ensures Projects(EffectDropped(b, id, record), id, A.StepAckEffect(s, record).value)
  {
    WithoutProjects(b.users[id], s.user.value, record);
    var v := s.user.value.(effects := s.user.value.effects - {record}, generation := s.epoch + 1);
    assert A.StepAckEffect(s, record) == Some(s.(epoch := s.epoch + 1, user := Some(v)));
    UserStep(b, EffectDropped(b, id, record), id, s, s.(epoch := s.epoch + 1, user := Some(v)));
  }

  lemma WithoutProjects(u: User, v: A.User, record: Id)
    requires SameUser(u, v)
    ensures SameEffects(u.effects - {record}, v.effects - {record}) && (record in u.effects <==> record in v.effects)
    ensures record !in u.effects ==> u.effects - {record} == u.effects
  {
  }

  /** An abandoned effect leaves the overlay and the wallet is hidden. */
  lemma AbandonProjects(b: Book, id: UserId, s: A.State, record: Id, running: Option<A.Tx>)
    requires Projects(b, id, s) && A.StepAbandon(s, record, running).Some?
    ensures Projects(Apply(b, Abandon(id, record)), id, A.StepAbandon(s, record, running).value)
  {
    var next := Apply(b, Abandon(id, record));
    AbandonHides(b, id, record);
    if id in b.users { WithoutProjects(b.users[id], s.user.value, record); }
    UserStep(b, next, id, s, A.StepAbandon(s, record, running).value);
  }

  lemma AbandonHides(b: Book, id: UserId, record: Id)
    ensures var next, u := Apply(b, Abandon(id, record)), UserOr(b, id);
            && next.epoch == b.epoch + 1 && next.guards == b.guards && id in next.users
            && var v := next.users[id];
               && v == u.(effects := u.effects - {record}, bytes := v.bytes, generation := b.epoch + 1, available := false, retired := false)
               && v.bytes == if record in u.effects then Monus(u.bytes, 256) else u.bytes
  {
    var kept := WithoutPending(b, id, record);
    assert Apply(b, Abandon(id, record)) == HideUser(kept, id);
    if Owned(b, id, record) {
      assert kept.users[id] == WithoutEffect(b.users[id], record, b.users[id].generation);
    } else {
      assert kept == b && UserOr(b, id).effects - {record} == UserOr(b, id).effects;
    }
  }

  // ---- Users ----

  lemma HideProjects(b: Book, id: UserId, s: A.State)
    requires Projects(b, id, s)
    ensures Projects(Apply(b, Hide(id)), id, A.Fence(s, true, false))
  {
    UserStep(b, Apply(b, Hide(id)), id, s, A.Fence(s, true, false));
  }

  /** `remove_user` retires a user that owes something, as the protocol does, and forgets any other. */
  lemma RetireProjects(b: Book, id: UserId, s: A.State, held: bool)
    requires Projects(b, id, s) && Owes(b, id, held)
    ensures Projects(Apply(b, Retire(id)), id, A.RemoveUser(s, held))
  {
    var v := s.user.value.(available := false, retired := true, generation := s.epoch + 1);
    EmptyTogether(b.users[id], s.user.value);
    assert A.RemoveUser(s, held) == s.(epoch := s.epoch + 1, user := Some(v));
    UserPut(b, id, s, b.users[id].(available := false, retired := true, generation := b.epoch + 1), v, b.epoch + 1);
  }

  lemma ForgetProjects(b: Book, id: UserId, s: A.State, held: bool)
    requires Projects(b, id, s) && !Owes(b, id, held)
    ensures Projects(Apply(b, Forget(id)), id, A.RemoveUser(s, held))
  {
    if id in b.users { EmptyTogether(b.users[id], s.user.value); }
    assert A.RemoveUser(s, held) == s.(epoch := s.epoch + 1, user := None);
    UserStep(b, Drop(Bump(b), id), id, s, s.(epoch := s.epoch + 1, user := None));
  }

  /** `register_user`, for an account that has no entry yet, or a complete one. */
  lemma RegisterProjects(b: Book, id: UserId, s: A.State)
    requires Projects(b, id, s) && s.account && (id in b.users ==> b.users[id].wallet.Some?)
    ensures A.StepRegister(s).Some?
    ensures Projects(Apply(b, Register(id)), id, A.StepRegister(s).value)
  {
    UserStep(b, Apply(b, Register(id)), id, s, A.StepRegister(s).value);
  }

  lemma GrantProjects(b: Book, id: UserId, s: A.State)
    requires Projects(b, id, s) && s.account && Granting(true, b, id) && !HasWallet(b, id)
    ensures A.StepGrant(s).Some?
    ensures Projects(Apply(b, GrantTo(id)), id, A.StepGrant(s).value)
  {
    var v := (if s.user.Some? then s.user.value else A.NoUser()).(
      wallet := Some(Granted(None)), available := true, generation := s.epoch + 1);
    assert A.StepGrant(s) == Some(s.(epoch := s.epoch + 1, user := Some(v)));
    UserPut(b, id, s, UserOr(b, id).(wallet := Some(Granted(None)), generation := b.epoch + 1, available := true), v, b.epoch + 1);
  }

  /** What a finished refresh read is what the reader of the protocol loaded. */
  ghost predicate ReadBy(loaded: Loaded, generation: nat, reader: Option<A.Reader>) {
    && reader.Some? && reader.value.phase.Loaded?
    && loaded.wallet == reader.value.phase.wallet && generation == reader.value.generation
    && SameHands(loaded.poker, reader.value.poker) && SameEffects(loaded.effects, reader.value.effects)
  }

  /** The guarded install: the same refusals, and otherwise the wallet and overlays that were read. */
  lemma InstallProjects(b: Book, id: UserId, s: A.State, loaded: Loaded, generation: nat)
    requires Projects(b, id, s) && ReadBy(loaded, generation, s.reader)
    ensures A.StepInstall(s).Some?
    ensures Projects(Apply(b, Install(id, loaded, generation)), id, A.StepInstall(s).value)
  {
    WatchedHasWriters(b, id, s);
    var t := A.StepInstall(s).value;
    if s.writers != map[] || s.user.None? || s.user.value.generation != generation {
      assert Apply(b, Install(id, loaded, generation)) == b;
      UserStep(b, b, id, s, t);
    } else {
      LoadedProjects(b, id, s, loaded, generation);
    }
  }

  lemma LoadedProjects(b: Book, id: UserId, s: A.State, loaded: Loaded, generation: nat)
    requires Projects(b, id, s) && ReadBy(loaded, generation, s.reader) && s.writers == map[] && s.user.Some?
    requires s.user.value.generation == generation
    ensures Projects(Put(b, id, LoadedUser(loaded, generation)), id, A.StepInstall(s).value)
  {
    var r := s.reader.value;
    var v := A.User(r.phase.wallet, true, false, generation, r.poker, r.effects);
    assert SameUser(LoadedUser(loaded, generation), v);
    assert A.StepInstall(s) == Some(s.(reader := None, user := Some(v)));
    UserPut(b, id, s, LoadedUser(loaded, generation), v, b.epoch);
  }

  /** It shows the history that was read, too, and is charged a row for each part of it and for the wallet. */
  lemma InstallIsCharged(b: Book, id: UserId, loaded: Loaded, generation: nat)
    requires id in b.users && !Watched(b, id) && b.users[id].generation == generation
    ensures var next, u := Apply(b, Install(id, loaded, generation)), b.users[id];
            && id in next.users
            && var v := next.users[id];
               && v.days == loaded.days && v.receipts == loaded.receipts && v.latest == loaded.latest
               && v.poker == loaded.poker && v.effects == loaded.effects
               && v.bytes == 512 + loaded.history + 256 * |loaded.effects|
               && next.count - b.count ==
                    |v.days| + |v.receipts| + |v.latest| + |v.effects| - |u.days| - |u.receipts| - |u.latest| - |u.effects|
               && next.bytes - b.bytes == v.bytes - u.bytes
  {
  }

  // ---- Guards ----

  lemma GuardStep(b: Book, next: Book, id: UserId, s: A.State, t: A.State, guard: Guard)
    requires Projects(b, id, s) && next.epoch == t.epoch && guard !in b.guards
    requires guard in next.guards && next.guards == b.guards[guard := next.guards[guard]] && next.guards[guard].user == id
    requires guard in t.writers && t.writers == s.writers[guard := t.writers[guard]]
    requires next.guards[guard].claim == ClaimOf(t.writers[guard])
    requires id in next.users <==> t.user.Some?
    requires id in next.users ==> SameUser(next.users[id], t.user.value)
    ensures Projects(next, id, t)
  {
    forall g ensures g in t.writers <==> g in next.guards && next.guards[g].user == id { }
    forall g | g in t.writers ensures next.guards[g].claim == ClaimOf(t.writers[g]) { }
  }

  lemma WatchProjects(b: Book, id: UserId, s: A.State, guard: Guard)
    requires Projects(b, id, s) && guard !in b.guards && guard !in s.orphans
    ensures A.StepBeginWatch(s, guard).Some?
    ensures Projects(Apply(b, Begin(guard, id)), id, A.StepBeginWatch(s, guard).value)
  {
    GuardStep(b, Apply(b, Begin(guard, id)), id, s, A.StepBeginWatch(s, guard).value, guard);
  }

  lemma BeginGrantProjects(b: Book, id: UserId, s: A.State, guard: Guard)
    requires Projects(b, id, s) && guard !in b.guards && guard !in s.orphans
    ensures A.StepBeginGrant(s, guard).Some?
    ensures Projects(Apply(b, Begin(guard, id)), id, A.StepBeginGrant(s, guard).value)
  {
    GuardStep(b, Apply(b, Begin(guard, id)), id, s, A.StepBeginGrant(s, guard).value, guard);
  }

  lemma ReadableTogether(b: Book, id: UserId, s: A.State)
    requires Projects(b, id, s)
    ensures DailyReadable(b, id) <==> A.DailyReadable(s)
  {
    WatchedHasWriters(b, id, s);
    if id in b.users { EmptyTogether(b.users[id], s.user.value); }
  }

  lemma BeginDailyProjects(b: Book, id: UserId, s: A.State, guard: Guard)
    requires Projects(b, id, s) && guard !in b.guards && guard !in s.orphans
    ensures A.StepBeginDaily(s, guard).Some?
    ensures Projects(Apply(b, BeginDaily(guard, id, true)), id, A.StepBeginDaily(s, guard).value)
  {
    ReadableTogether(b, id, s);
    GuardStep(b, Apply(b, BeginDaily(guard, id, true)), id, s, A.StepBeginDaily(s, guard).value, guard);
  }

  /** A day may be published exactly when the protocol publishes it. */
  lemma PublishableTogether(b: Book, id: UserId, s: A.State, guard: Guard)
    requires Projects(b, id, s) && guard in s.writers && s.writers[guard].Daily? && !s.writers[guard].published
    ensures Publishable(b, guard)
            <==> && s.writers[guard].readable.Some? && s.writers.Keys == {guard}
                 && s.user.Some? && s.user.value.generation == s.writers[guard].readable.value
  {
    if s.writers.Keys == {guard} {
      forall g | g in b.guards && b.guards[g].user == id ensures g == guard { assert g in s.writers.Keys; }
    }
    if Sole(b, guard) {
      forall g | g in s.writers.Keys ensures g == guard { }
      assert s.writers.Keys == {guard};
    }
  }

  /** A published day shows the balance its transaction reported, and nothing else changes. */
  lemma PublishProjects(b: Book, id: UserId, s: A.State, guard: Guard, day: Day, after: int)
    requires Booked(b) && Projects(b, id, s)
    requires guard in s.writers && s.writers[guard].Daily? && s.writers[guard].result == Some(after) && !s.writers[guard].published
    ensures A.StepPublishDaily(s, guard).Some?
    ensures Projects(Apply(b, PublishDay(guard, day, after)), id, A.StepPublishDaily(s, guard).value)
  {
    PublishableTogether(b, id, s, guard);
    assert ClaimOk(b.users, b.guards[guard]);
    if Publishable(b, guard) { ShownProjects(b, id, s, guard, day, after); }
  }

  lemma ShownProjects(b: Book, id: UserId, s: A.State, guard: Guard, day: Day, after: int)
    requires Projects(b, id, s) && guard in s.writers && s.writers.Keys == {guard} && guard in b.guards && b.guards[guard].user == id
    requires s.writers[guard].Daily? && s.writers[guard].result == Some(after) && !s.writers[guard].published
    requires s.writers[guard].readable.Some? && s.user.Some? && s.user.value.generation == s.writers[guard].readable.value
    requires s.user.value.wallet.Some?
    ensures Projects(ShowDay(b, guard, day, after), id, A.StepPublishDaily(s, guard).value)
  {
    var next, t := ShowDay(b, guard, day, after), A.StepPublishDaily(s, guard).value;
    assert SameUser(next.users[id], t.user.value);
    forall g ensures g in t.writers <==> g in next.guards && next.guards[g].user == id { }
    forall g | g in t.writers ensures next.guards[g].claim == ClaimOf(t.writers[g]) { assert g in s.writers.Keys; }
  }

  lemma EndProjects(b: Book, id: UserId, s: A.State, guard: Guard)
    requires Projects(b, id, s) && guard in s.writers && A.StepEnd(s, guard).Some?
    ensures Projects(Apply(b, End(guard)), id, A.StepEnd(s, guard).value)
  {
    var next, t := Apply(b, End(guard)), A.StepEnd(s, guard).value;
    assert id in next.users <==> t.user.Some?;
    assert id in next.users ==> SameUser(next.users[id], t.user.value);
  }
}
