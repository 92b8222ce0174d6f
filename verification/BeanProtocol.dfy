/**
 What every event of the bean authority keeps, given what is owed before and after it.
 The amounts owed are parameters here; `BeanOverlay` ties them to the accepted effects.
 */
module BeanProtocol {
  import opened Outcomes
  import opened BeanLedger
  import opened BeanAuthority

  // ---- The invariant ----

  /** `Granted(w) == Credit(Granted(sql.wallet), owed)`, field by field. */
  ghost predicate Reconciled(w: Option<Wallet>, sql: Sql, owed: Delta) {
    var memory, durable := Granted(w), Granted(sql.wallet);
    && memory.balance == durable.balance + owed.balance
    && memory.netWon == durable.netWon + owed.net
    && memory.handsPlayed == durable.handsPlayed + owed.played
    && memory.handsWon == durable.handsWon + owed.won
    && memory.refills == durable.refills
  }

  function PokerOf(s: State): map<Id, Effect> { match s.user case Some(u) => u.poker case None => map[] }
  function EffectsOf(s: State): map<Id, Effect> { match s.user case Some(u) => u.effects case None => map[] }

  /** Only guards that write nothing, or have published what they wrote, are alive. */
  ghost predicate Quiet(writers: map<Tx, Writer>) {
    forall w :: w in writers ==> QuietWriter(writers[w])
  }

  /** `owed` stands for the accepted effects SQL does not hold yet. */
  ghost predicate UserOk(s: State, owed: Delta) {
    s.user.Some? ==>
      var u := s.user.value;
      && u.generation <= s.epoch
      && (u.available ==> s.orphans == {} && Quiet(s.writers) && Reconciled(u.wallet, s.sql, owed))
  }

  /** A refresh that may still install has missed nothing. */
  ghost predicate ReaderOk(s: State, owed: Delta) {
    s.reader.Some? ==>
      var r := s.reader.value;
      && r.generation <= s.epoch
      && (s.user.Some? && s.user.value.generation == r.generation ==>
            && s.writers == map[]
            && r.poker == s.user.value.poker && r.effects == s.user.value.effects
            && (r.phase.Sampled? ==> s.orphans <= r.phase.waiting)
            && (r.phase.Loaded? ==> s.orphans == {} && Reconciled(r.phase.wallet, s.sql, owed)))
  }

  /** A daily claim that may still publish is the only change since it began. */
  ghost predicate DailyOk(s: State, w: Tx, d: Writer) {
    d.Daily? ==>
      && (d.result.Some? <==> !d.open)
      && (d.published ==> !d.open)
      && (d.readable.Some? ==>
            && d.readable.value <= s.epoch
            && (s.user.Some? && s.user.value.generation == d.readable.value ==>
                  && s.writers.Keys == {w} && s.orphans == {} && Idle(s.user.value)
                  && (!d.published ==> !s.user.value.available)
                  && s.user.value.wallet.Some?
                  && s.user.value.wallet.value.(balance := 0) == Granted(s.sql.wallet).(balance := 0)
                  && (d.result.Some? ==> d.result.value == Granted(s.sql.wallet).balance)))
  }

  ghost predicate DailiesOk(s: State) { forall w :: w in s.writers ==> DailyOk(s, w, s.writers[w]) }

  /** An active account without an entry has no wallet row to miss. */
  ghost predicate AbsentOk(s: State) {
    s.account && s.user.None? ==> Quiet(s.writers) && s.orphans == {} && Granted(s.sql.wallet) == Granted(None)
  }

  ghost predicate InvWith(s: State, owed: Delta) {
    UserOk(s, owed) && ReaderOk(s, owed) && DailiesOk(s) && AbsentOk(s)
  }

  ghost predicate NobodyOwes(s: State) { PokerOf(s) == map[] && EffectsOf(s) == map[] }

  /** A snapshot read of the current overlays finds the SQL wallet with what is owed on top. */
  ghost predicate LoadsOwed(s: State, owed: Delta) {
    s.reader.Some? && s.reader.value.poker == PokerOf(s) && s.reader.value.effects == EffectsOf(s) ==>
      forall w :: Overlay(s.sql, PokerOf(s), EffectsOf(s)) == Some(w) ==> Reconciled(w, s.sql, owed)
  }

  /** How the amount owed moves when `e` happens. */
  ghost predicate OwedMoves(s: State, e: Event, owed: Delta, after: Delta) {
    && (NobodyOwes(s) ==> owed == ZERO)
    && match e
       case AcceptPoker(id, effect) => after == if id in s.receipts then owed else Plus(effect.change, owed)
       case AcceptEffect(id, effect) => after == if id in EffectsOf(s) then owed else Plus(effect.change, owed)
       case SqlCommit(id) => id in s.accepted && !NobodyOwes(s) && owed == Plus(s.accepted[id].change, after)
       case AbandonEffect(_, _) => true
       case Load => after == owed && LoadsOwed(s, owed)
       case _ => after == owed
  }

  // ---- Settlements ----

  lemma AcceptPokerKeeps(s: State, id: Id, effect: Effect, owed: Delta)
    requires InvWith(s, owed) && id !in s.receipts && StepAcceptPoker(s, id, effect).Some?
    ensures InvWith(StepAcceptPoker(s, id, effect).value, Plus(effect.change, owed))
  {
  }

  lemma AcceptEffectKeeps(s: State, id: Id, effect: Effect, owed: Delta)
    requires InvWith(s, owed) && StepAcceptEffect(s, id, effect).Some? && id !in s.user.value.effects
    ensures InvWith(StepAcceptEffect(s, id, effect).value, Plus(effect.change, owed))
  {
  }

  lemma SqlCommitKeeps(s: State, id: Id, owed: Delta, left: Delta)
    requires InvWith(s, owed) && StepSqlCommit(s, id).Some? && owed == Plus(s.accepted[id].change, left)
    requires s.user.Some? && !Idle(s.user.value)
    ensures InvWith(StepSqlCommit(s, id).value, left)
  {
  }

  /** A new generation, and no daily claim that was not there before. */
  lemma MovedDailies(s: State, t: State)
    requires DailiesOk(s) && t.epoch > s.epoch
    requires t.user.Some? ==> t.user.value.generation > s.epoch
    requires forall w :: w in t.writers && t.writers[w].Daily? ==> w in s.writers && s.writers[w] == t.writers[w]
    ensures DailiesOk(t)
  {
    forall w | w in t.writers && t.writers[w].Daily? ensures DailyOk(t, w, t.writers[w]) {
      assert DailyOk(s, w, s.writers[w]);
    }
  }

  lemma AckPokerKeeps(s: State, id: Id, owed: Delta)
    requires InvWith(s, owed) && StepAckPoker(s, id).Some?
    ensures InvWith(StepAckPoker(s, id).value, owed)
  {
    if id in s.receipts && !s.receipts[id].committed { MovedDailies(s, StepAckPoker(s, id).value); }
  }

  lemma AckEffectKeeps(s: State, id: Id, owed: Delta)
    requires InvWith(s, owed) && StepAckEffect(s, id).Some?
    ensures InvWith(StepAckEffect(s, id).value, owed)
  {
    if s.user.Some? && id in s.user.value.effects { MovedDailies(s, StepAckEffect(s, id).value); }
  }

  lemma AbandonKeeps(s: State, id: Id, tx: Option<Tx>, owed: Delta, left: Delta)
    requires InvWith(s, owed) && StepAbandon(s, id, tx).Some?
    ensures InvWith(StepAbandon(s, id, tx).value, left)
  {
  }

  lemma EvictHandKeeps(s: State, id: Id, owed: Delta)
    requires InvWith(s, owed) && StepEvictHand(s, id).Some?
    ensures InvWith(StepEvictHand(s, id).value, owed)
  {
    SameDailies(s, StepEvictHand(s, id).value);
  }

  ghost predicate SettlementEvent(e: Event) {
    || e.AcceptPoker? || e.AcceptEffect? || e.SqlCommit? || e.AckPoker? || e.AckEffect? || e.AbandonEffect?
    || e.EvictHand?
  }

  lemma SettlementKeeps(s: State, e: Event, owed: Delta, after: Delta)
    requires InvWith(s, owed) && Step(s, e).Some? && SettlementEvent(e) && OwedMoves(s, e, owed, after)
    ensures InvWith(Step(s, e).value, after)
  {
    match e
    case AcceptPoker(id, effect) => if id !in s.receipts { AcceptPokerKeeps(s, id, effect, owed); }
    case AcceptEffect(id, effect) => if id !in EffectsOf(s) { AcceptEffectKeeps(s, id, effect, owed); }
    case SqlCommit(id) => SqlCommitKeeps(s, id, owed, after);
    case AckPoker(id) => AckPokerKeeps(s, id, owed);
    case AckEffect(id) => AckEffectKeeps(s, id, owed);
    case EvictHand(id) => EvictHandKeeps(s, id, owed);
    case AbandonEffect(id, tx) => AbandonKeeps(s, id, tx, owed, after);
  }

  // ---- Other writers ----

  lemma ForeignCommitKeeps(s: State, wallet: Wallet, rows: map<Id, Row>, orphans: set<Tx>, owed: Delta)
    requires InvWith(s, owed) && StepForeign(s, wallet, rows, orphans).Some? && orphans <= s.orphans
    requires s.orphans != {} || exists w :: w in s.writers && Writing(s.writers[w])
    ensures InvWith(StepForeign(s, wallet, rows, orphans).value, owed)
  {
  }

  /** The user of `t` is hidden, or gone, under a generation no refresh has captured. */
  ghost predicate Hidden(s: State, t: State) {
    && t.epoch == s.epoch + 1
    && (t.user.Some? ==> !t.user.value.available && t.user.value.generation == t.epoch)
    && (t.user.None? ==> !s.account)
    && t == s.(epoch := t.epoch, user := t.user)
  }

  lemma InvalidateHides(s: State)
    ensures Hidden(s, Invalidate(s))
  {
  }

  lemma RemoveHides(s: State, held: bool)
    requires !s.account
    ensures Hidden(s, RemoveUser(s, held))
  {
  }

  lemma FenceHides(s: State, active: bool, held: bool)
    requires Answers(s, active)
    ensures Hidden(s, Fence(s, active, held))
  {
    if active { InvalidateHides(s); } else { RemoveHides(s, held); }
  }

  lemma BeginWatchKeeps(s: State, w: Tx, owed: Delta)
    requires InvWith(s, owed) && StepBeginWatch(s, w).Some?
    ensures InvWith(StepBeginWatch(s, w).value, owed)
  {
    MovedDailies(s, StepBeginWatch(s, w).value);
  }

  lemma BeginFenceKeeps(s: State, w: Tx, active: bool, held: bool, owed: Delta)
    requires InvWith(s, owed) && StepBeginFence(s, w, active, held).Some?
    ensures InvWith(StepBeginFence(s, w, active, held).value, owed)
  {
    FenceHides(s, active, held);
    MovedDailies(s, StepBeginFence(s, w, active, held).value);
  }

  lemma BeginGrantKeeps(s: State, w: Tx, owed: Delta)
    requires InvWith(s, owed) && StepBeginGrant(s, w).Some?
    ensures InvWith(StepBeginGrant(s, w).value, owed)
  {
    MovedDailies(s, StepBeginGrant(s, w).value);
  }

  lemma BeginDailyKeeps(s: State, w: Tx, owed: Delta)
    requires InvWith(s, owed) && StepBeginDaily(s, w).Some?
    requires DailyReadable(s) ==> owed == ZERO
    ensures InvWith(StepBeginDaily(s, w).value, owed)
  {
  }

  lemma DailyTransactionKeeps(s: State, w: Tx, balance: Option<int>, owed: Delta)
    requires InvWith(s, owed) && StepDaily(s, w, balance).Some?
    ensures InvWith(StepDaily(s, w, balance).value, owed)
  {
    assert DailyOk(s, w, s.writers[w]);
  }

  lemma PublishDailyKeeps(s: State, w: Tx, owed: Delta)
    requires InvWith(s, owed) && StepPublishDaily(s, w).Some?
    requires s.user.Some? && Idle(s.user.value) ==> owed == ZERO
    ensures InvWith(StepPublishDaily(s, w).value, owed)
  {
    assert DailyOk(s, w, s.writers[w]);
  }

  lemma DropFenceKeeps(s: State, w: Tx, running: bool, active: bool, held: bool, owed: Delta)
    requires InvWith(s, owed) && StepDropFence(s, w, running, active, held).Some?
    ensures InvWith(StepDropFence(s, w, running, active, held).value, owed)
  {
    FenceHides(s, active, held);
    MovedDailies(s, StepDropFence(s, w, running, active, held).value);
  }

  /** An invalidation on its own, outside every guard. */
  lemma HideUserKeeps(s: State, active: bool, held: bool, owed: Delta)
    requires InvWith(s, owed) && Answers(s, active)
    ensures InvWith(Fence(s, active, held), owed)
  {
    FenceHides(s, active, held);
    MovedDailies(s, Fence(s, active, held));
  }

  lemma EndKeeps(s: State, w: Tx, owed: Delta)
    requires InvWith(s, owed) && StepEnd(s, w).Some?
    ensures InvWith(StepEnd(s, w).value, owed)
  {
    MovedDailies(s, StepEnd(s, w).value);
  }

  ghost predicate GuardEvent(e: Event) {
    e.BeginWatch? || e.BeginFence? || e.BeginGrant? || e.DropFence? || e.End? || e.HideUser?
  }

  lemma GuardKeeps(s: State, e: Event, owed: Delta)
    requires InvWith(s, owed) && Step(s, e).Some? && GuardEvent(e)
    ensures InvWith(Step(s, e).value, owed)
  {
    match e
    case BeginWatch(w) => BeginWatchKeeps(s, w, owed);
    case BeginFence(w, active, held) => BeginFenceKeeps(s, w, active, held, owed);
    case BeginGrant(w) => BeginGrantKeeps(s, w, owed);
    case DropFence(w, running, active, held) => DropFenceKeeps(s, w, running, active, held, owed);
    case End(w) => EndKeeps(s, w, owed);
    case HideUser(active, held) => HideUserKeeps(s, active, held, owed);
  }

  ghost predicate DailyEvent(e: Event) { e.BeginDaily? || e.DailyCommit? || e.DailyRollback? || e.PublishDaily? }

  lemma DailyKeeps(s: State, e: Event, owed: Delta)
    requires InvWith(s, owed) && Step(s, e).Some? && DailyEvent(e) && (NobodyOwes(s) ==> owed == ZERO)
    ensures InvWith(Step(s, e).value, owed)
  {
    match e
    case BeginDaily(w) => BeginDailyKeeps(s, w, owed);
    case DailyCommit(w, balance) => DailyTransactionKeeps(s, w, Some(balance), owed);
    case DailyRollback(w) => DailyTransactionKeeps(s, w, None, owed);
    case PublishDaily(w) => PublishDailyKeeps(s, w, owed);
  }

  ghost predicate ForeignEvent(e: Event) { e.WriterCommit? || e.OrphanCommit? }

  ghost predicate WriterEvent(e: Event) { GuardEvent(e) || DailyEvent(e) || ForeignEvent(e) }

  lemma WriterKeeps(s: State, e: Event, owed: Delta)
    requires InvWith(s, owed) && Step(s, e).Some? && WriterEvent(e) && (NobodyOwes(s) ==> owed == ZERO)
    ensures InvWith(Step(s, e).value, owed)
  {
    if GuardEvent(e) { GuardKeeps(s, e, owed); }
    else if DailyEvent(e) { DailyKeeps(s, e, owed); }
    else if e.WriterCommit? { ForeignCommitKeeps(s, e.wallet, e.rows, s.orphans, owed); }
    else { ForeignCommitKeeps(s, e.wallet, e.rows, s.orphans - {e.t}, owed); }
  }

  // ---- Grants, refreshes and the account ----

  lemma FirstGrantQuiet(s: State)
    requires AbsentOk(s) && s.account && s.user.None?
    ensures var t := StepGrant(s).value; t.orphans == {} && Quiet(t.writers) && t.user.value.generation <= t.epoch
  {
  }

  lemma FirstGrantKeeps(s: State)
    requires InvWith(s, ZERO) && s.account && s.user.None?
    ensures InvWith(StepGrant(s).value, ZERO)
  {
    FirstGrantQuiet(s);
    MovedDailies(s, StepGrant(s).value);
  }

  lemma GrantKeeps(s: State, owed: Delta)
    requires InvWith(s, owed) && StepGrant(s).Some? && (s.user.None? ==> owed == ZERO)
    ensures InvWith(StepGrant(s).value, owed)
  {
    if s.user.None? {
      FirstGrantKeeps(s);
    } else if s.user.value.wallet.None? {
      var t := StepGrant(s).value;
      assert DailiesOk(t) by {
        forall w | w in t.writers ensures DailyOk(t, w, t.writers[w]) { assert DailyOk(s, w, s.writers[w]); }
      }
    }
  }

  lemma LoadKeeps(s: State, owed: Delta)
    requires !s.purged && InvWith(s, owed) && StepLoad(s).Some? && LoadsOwed(s, owed)
    ensures InvWith(StepLoad(s).value, owed)
  {
    SameDailies(s, StepLoad(s).value);
  }

  lemma InstallKeeps(s: State, owed: Delta)
    requires InvWith(s, owed) && StepInstall(s).Some?
    ensures InvWith(StepInstall(s).value, owed)
  {
  }

  lemma RemoveKeeps(s: State, held: bool, owed: Delta)
    requires InvWith(s, owed) && !s.account
    ensures InvWith(RemoveUser(s, held), owed)
  {
    if s.user.Some? { MovedDailies(s, RemoveUser(s, held)); }
  }

  lemma CaptureKeeps(s: State, owed: Delta)
    requires InvWith(s, owed) && StepCapture(s).Some?
    ensures InvWith(StepCapture(s).value, owed)
  {
    SameDailies(s, StepCapture(s).value);
  }

  lemma SampleKeeps(s: State, owed: Delta)
    requires InvWith(s, owed) && StepSample(s).Some?
    ensures InvWith(StepSample(s).value, owed)
  {
    SameDailies(s, StepSample(s).value);
  }

  lemma SameDailies(s: State, t: State)
    requires DailiesOk(s) && t.writers == s.writers && t.user == s.user && t.epoch == s.epoch
    requires t.orphans <= s.orphans && t.sql.ledger == s.sql.ledger && Granted(t.sql.wallet) == Granted(s.sql.wallet)
    ensures DailiesOk(t)
  {
    forall w | w in t.writers ensures DailyOk(t, w, t.writers[w]) { assert DailyOk(s, w, s.writers[w]); }
  }

  lemma AccountKeeps(s: State, t: Tx, owed: Delta)
    requires InvWith(s, owed)
    ensures InvWith(s.(reader := None), owed) && InvWith(s.(account := false), owed)
    ensures InvWith(s.(orphans := s.orphans - {t}), owed)
  {
    SameDailies(s, s.(reader := None));
    SameDailies(s, s.(account := false));
    SameDailies(s, s.(orphans := s.orphans - {t}));
  }

  lemma GrantCommitKeeps(s: State, owed: Delta)
    requires InvWith(s, owed)
    ensures InvWith(s.(sql := s.sql.(wallet := Some(Granted(s.sql.wallet)))), owed)
  {
    SameDailies(s, s.(sql := s.sql.(wallet := Some(Granted(s.sql.wallet)))));
  }

  lemma RegisterKeeps(s: State, owed: Delta)
    requires InvWith(s, owed) && StepRegister(s).Some? && (s.user.None? ==> owed == ZERO)
    ensures InvWith(StepRegister(s).value, owed)
  {
    if s.user.None? { MovedDailies(s, StepRegister(s).value); } else { OtherUserKeeps(s, owed); }
  }

  lemma OtherUserKeeps(s: State, owed: Delta)
    requires InvWith(s, owed)
    ensures InvWith(s.(epoch := s.epoch + 1), owed)
  {
    var t := s.(epoch := s.epoch + 1);
    forall w | w in t.writers ensures DailyOk(t, w, t.writers[w]) { assert DailyOk(s, w, s.writers[w]); }
  }

  lemma OtherKeeps(s: State, e: Event, owed: Delta)
    requires !s.purged && InvWith(s, owed) && Step(s, e).Some? && OwedMoves(s, e, owed, owed)
    requires !SettlementEvent(e) && !WriterEvent(e) && !e.PurgeAccount?
    ensures InvWith(Step(s, e).value, owed)
  {
    match e
    case Grant => GrantKeeps(s, owed);
    case GrantCommit => GrantCommitKeeps(s, owed);
    case Capture => CaptureKeeps(s, owed);
    case Sample => SampleKeeps(s, owed);
    case Load => LoadKeeps(s, owed);
    case Install => InstallKeeps(s, owed);
    case Remove(held) => RemoveKeeps(s, held, owed);
    case Register => RegisterKeeps(s, owed);
    case OtherUser => OtherUserKeeps(s, owed);
    case OrphanAbort(t) => AccountKeeps(s, t, owed);
    case DropRead => AccountKeeps(s, 0, owed);
    case DeleteAccount => AccountKeeps(s, 0, owed);
  }

  // ---- Every event ----

  lemma StepKeeps(s: State, e: Event, owed: Delta, after: Delta)
    requires !s.purged && InvWith(s, owed) && Step(s, e).Some? && !e.PurgeAccount? && OwedMoves(s, e, owed, after)
    ensures InvWith(Step(s, e).value, after)
  {
    if SettlementEvent(e) { SettlementKeeps(s, e, owed, after); }
    else if WriterEvent(e) { WriterKeeps(s, e, owed); }
    else { OtherKeeps(s, e, owed); }
  }
}
