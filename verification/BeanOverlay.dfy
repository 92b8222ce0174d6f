/**
 Under every interleaving, an available wallet in memory is the SQL wallet plus
 exactly the accepted effects whose receipt SQL does not hold yet.
 */
module BeanOverlay {
  import opened Outcomes
  import opened BeanLedger
  import opened BeanHistory
  import opened BeanAuthority
  import opened BeanProtocol

  ghost predicate Remembered(accepted: map<Id, Effect>, receipts: map<Id, Receipt>) {
    forall x :: x in receipts ==> x in accepted && accepted[x] == receipts[x].effect
  }

  /** A hand stays laid over the wallet until it is acknowledged. */
  ghost predicate Unacknowledged(poker: map<Id, Effect>, receipts: map<Id, Receipt>) {
    forall x :: x in poker ==> x in receipts && !receipts[x].committed
  }

  ghost predicate Kept(s: State) {
    && KeptIn(s.accepted, s.sql.ledger, PokerOf(s), EffectsOf(s))
    && Remembered(s.accepted, s.receipts)
    && Unacknowledged(PokerOf(s), s.receipts)
  }

  ghost function OwedBy(s: State): Delta { Owed(s.accepted, s.sql.ledger) }

  ghost predicate Inv(s: State) { InvWith(s, OwedBy(s)) && Kept(s) }

  lemma NothingPending(s: State)
    requires Kept(s) && NobodyOwes(s)
    ensures OwedBy(s) == ZERO
  {
    NothingOwed(s.accepted, s.sql.ledger, PokerOf(s), EffectsOf(s));
  }

  lemma LaidAdds(w: Option<Wallet>, ledger: map<Id, Row>, m: map<Id, Effect>, sql: Sql, owed: Delta)
    requires Laid(w, ledger, m).Some? && Reconciled(w, sql, owed)
    ensures Reconciled(Laid(w, ledger, m).value, sql, Plus(owed, SumOver(m, Uncommitted(ledger, m.Keys))))
  {
    if m == map[] { assert Uncommitted(ledger, m.Keys) == {}; }
  }

  /** What `read_user` loads is the SQL wallet with the uncommitted effects on top. */
  lemma OverlayReconciles(sql: Sql, poker: map<Id, Effect>, effects: map<Id, Effect>)
    requires Overlay(sql, poker, effects).Some?
    ensures Reconciled(Overlay(sql, poker, effects).value, sql,
                       Plus(SumOver(poker, Uncommitted(sql.ledger, poker.Keys)),
                            SumOver(effects, Uncommitted(sql.ledger, effects.Keys))))
  {
    var hands := SumOver(poker, Uncommitted(sql.ledger, poker.Keys));
    LaidAdds(sql.wallet, sql.ledger, poker, sql, ZERO);
    assert Plus(ZERO, hands) == hands;
    LaidAdds(Laid(sql.wallet, sql.ledger, poker).value, sql.ledger, effects, sql, hands);
  }

  // ---- Record ids ----

  /** A record id that no other record, receipt or quarantine id collides with. */
  ghost predicate FreshRecord(s: State, id: Id) {
    && id !in PokerOf(s) && id !in EffectsOf(s)
    && id.derived == 0
    && Quarantine(id) !in s.sql.ledger
    && (id in s.sql.ledger ==> s.sql.ledger[id].details.LegacySolo?)
  }

  /** What is accepted is a new record, or a repeat of one the authority still remembers. */
  ghost predicate Fresh(s: State, e: Event) {
    match e
    case AcceptPoker(id, _) => id in s.receipts || FreshRecord(s, id)
    case AcceptEffect(id, _) => id in EffectsOf(s) || FreshRecord(s, id)
    case _ => true
  }

  ghost predicate Orderly(s: State, es: seq<Event>) {
    es == [] ||
    (var front := es[..|es| - 1];
     Orderly(s, front) && (Run(s, front).Some? ==> Fresh(Run(s, front).value, es[|es| - 1])))
  }

  // ---- No event loses an accepted effect ----

  /** A fresh record is held by the overlay it enters. */
  lemma FreshRecordKept(s: State, id: Id, effect: Effect)
    requires Kept(s) && s.user.Some? && FreshRecord(s, id)
    ensures id !in s.accepted
    ensures var u := s.user.value;
            && KeptIn(s.accepted[id := effect], s.sql.ledger, u.poker[id := effect], u.effects)
            && KeptIn(s.accepted[id := effect], s.sql.ledger, u.poker, u.effects[id := effect])
  {
    var u := s.user.value;
    FreshIsNew(s.accepted, s.sql.ledger, u.poker, u.effects, id);
    AcceptKeepsReceipts(s.accepted, s.sql.ledger, id, effect);
    HandKept(s.accepted, s.sql.ledger, u.poker, u.effects, id, effect);
    EventKept(s.accepted, s.sql.ledger, u.poker, u.effects, id, effect);
  }

  lemma AcceptPokerKept(s: State, id: Id, effect: Effect)
    requires Kept(s) && StepAcceptPoker(s, id, effect).Some? && Fresh(s, AcceptPoker(id, effect))
    ensures Kept(StepAcceptPoker(s, id, effect).value)
  {
    if id !in s.receipts { FreshRecordKept(s, id, effect); }
  }

  lemma AcceptEffectKept(s: State, id: Id, effect: Effect)
    requires Kept(s) && StepAcceptEffect(s, id, effect).Some? && Fresh(s, AcceptEffect(id, effect))
    ensures Kept(StepAcceptEffect(s, id, effect).value)
  {
    if id !in EffectsOf(s) { FreshRecordKept(s, id, effect); }
  }

  lemma SqlCommitKept(s: State, id: Id)
    requires Kept(s) && StepSqlCommit(s, id).Some?
    ensures Kept(StepSqlCommit(s, id).value)
  {
    CommitKeepsReceipts(s.accepted, s.sql.ledger, id);
  }

  lemma AckPokerKept(s: State, id: Id)
    requires Kept(s) && StepAckPoker(s, id).Some?
    ensures Kept(StepAckPoker(s, id).value)
  {
    HandAcknowledged(s.accepted, s.sql.ledger, PokerOf(s), EffectsOf(s), id);
  }

  lemma AckEffectKept(s: State, id: Id)
    requires Kept(s) && StepAckEffect(s, id).Some?
    ensures Kept(StepAckEffect(s, id).value)
  {
    if s.user.Some? && id in s.user.value.effects {
      EventAcknowledged(s.accepted, s.sql.ledger, s.user.value.poker, s.user.value.effects, id);
    }
  }

  /** A forgotten receipt was acknowledged, so its hand is no longer laid over the wallet. */
  lemma EvictHandKept(s: State, id: Id)
    requires Kept(s) && StepEvictHand(s, id).Some?
    ensures Kept(StepEvictHand(s, id).value)
  {
  }

  /** An abandoned effect takes no other accepted effect with it. */
  lemma AbandonKept(s: State, id: Id, tx: Option<Tx>)
    requires Kept(s) && StepAbandon(s, id, tx).Some?
    ensures Kept(StepAbandon(s, id, tx).value)
  {
    AbandonedKept(s.accepted, s.sql.ledger, PokerOf(s), EffectsOf(s), id);
  }

  lemma ForeignCommitKept(s: State, wallet: Wallet, rows: map<Id, Row>, orphans: set<Tx>)
    requires Kept(s) && StepForeign(s, wallet, rows, orphans).Some?
    ensures Kept(StepForeign(s, wallet, rows, orphans).value)
  {
    ForeignRowsUntouching(s.accepted, s.sql.ledger, rows);
  }

  /** The user's overlays stay; a user that comes or goes has none. */
  ghost predicate SameOverlays(before: Option<User>, after: Option<User>) {
    match (before, after)
    case (Some(u), Some(v)) => v == u.(wallet := v.wallet, available := v.available, retired := v.retired, generation := v.generation)
    case (Some(u), None) => Idle(u)
    case (None, Some(v)) => Idle(v)
    case (None, None) => true
  }

  /** The accepted effects, the ledger and the overlays stay as they are. */
  ghost predicate Unmoved(s: State, t: State) {
    && t == s.(account := t.account, user := t.user, epoch := t.epoch, writers := t.writers, orphans := t.orphans,
               reader := t.reader, sql := s.sql.(wallet := t.sql.wallet))
    && SameOverlays(s.user, t.user)
  }

  lemma TouchUnmoved(s: State)
    ensures Unmoved(s, Touch(s)) && Unmoved(s, Invalidate(s))
  {
  }

  lemma RemoveUnmoved(s: State, held: bool)
    ensures Unmoved(s, RemoveUser(s, held))
  {
  }

  lemma FenceUnmoved(s: State, active: bool, held: bool)
    ensures Unmoved(s, Fence(s, active, held))
  {
    TouchUnmoved(s);
    RemoveUnmoved(s, held);
  }

  lemma FencedUnmoved(s: State, w: Tx, running: bool, active: bool, held: bool)
    ensures StepBeginFence(s, w, active, held).Some? ==> Unmoved(s, StepBeginFence(s, w, active, held).value)
    ensures StepDropFence(s, w, running, active, held).Some? ==> Unmoved(s, StepDropFence(s, w, running, active, held).value)
  {
    FenceUnmoved(s, active, held);
  }

  lemma BeginUnmoved(s: State, w: Tx)
    ensures StepBeginWatch(s, w).Some? ==> Unmoved(s, StepBeginWatch(s, w).value)
    ensures StepBeginGrant(s, w).Some? ==> Unmoved(s, StepBeginGrant(s, w).value)
    ensures StepBeginDaily(s, w).Some? ==> Unmoved(s, StepBeginDaily(s, w).value)
  {
    TouchUnmoved(s);
  }

  lemma EndUnmoved(s: State, w: Tx)
    requires StepEnd(s, w).Some?
    ensures Unmoved(s, StepEnd(s, w).value)
  {
    TouchUnmoved(s);
  }

  lemma DailyUnmoved(s: State, w: Tx, balance: Option<int>)
    ensures StepDaily(s, w, balance).Some? ==> Unmoved(s, StepDaily(s, w, balance).value)
    ensures StepPublishDaily(s, w).Some? ==> Unmoved(s, StepPublishDaily(s, w).value)
  {
  }

  lemma GuardUnmoved(s: State, e: Event)
    requires Step(s, e).Some? && GuardEvent(e)
    ensures Unmoved(s, Step(s, e).value)
  {
    match e
    case BeginWatch(w) => BeginUnmoved(s, w);
    case BeginFence(w, active, held) => FencedUnmoved(s, w, false, active, held);
    case BeginGrant(w) => BeginUnmoved(s, w);
    case DropFence(w, running, active, held) => FencedUnmoved(s, w, running, active, held);
    case End(w) => EndUnmoved(s, w);
    case HideUser(active, held) => FenceUnmoved(s, active, held);
  }

  lemma WriterUnmoved(s: State, e: Event)
    requires Step(s, e).Some? && WriterEvent(e) && !ForeignEvent(e)
    ensures Unmoved(s, Step(s, e).value)
  {
    match e
    case BeginDaily(w) => BeginUnmoved(s, w);
    case DailyCommit(w, balance) => DailyUnmoved(s, w, Some(balance));
    case DailyRollback(w) => DailyUnmoved(s, w, None);
    case PublishDaily(w) => DailyUnmoved(s, w, None);
    case _ => GuardUnmoved(s, e);
  }

  lemma InstallUnmoved(s: State, owed: Delta)
    requires ReaderOk(s, owed) && StepInstall(s).Some?
    ensures Unmoved(s, StepInstall(s).value)
  {
  }

  lemma LoadUnmoved(s: State)
    requires StepLoad(s).Some?
    ensures Unmoved(s, StepLoad(s).value)
  {
  }

  lemma GrantUnmoved(s: State)
    requires StepGrant(s).Some?
    ensures Unmoved(s, StepGrant(s).value)
  {
  }

  lemma OtherUnmoved(s: State, e: Event, owed: Delta)
    requires Step(s, e).Some? && ReaderOk(s, owed)
    requires !SettlementEvent(e) && !WriterEvent(e) && !e.PurgeAccount?
    ensures Unmoved(s, Step(s, e).value)
  {
    match e
    case Grant => GrantUnmoved(s);
    case Load => LoadUnmoved(s);
    case Install => InstallUnmoved(s, owed);
    case Remove(held) => RemoveUnmoved(s, held);
    case _ =>
  }

  ghost predicate LedgerEvent(e: Event) { SettlementEvent(e) || ForeignEvent(e) }

  lemma StepUnmoved(s: State, e: Event, owed: Delta)
    requires Step(s, e).Some? && ReaderOk(s, owed) && !LedgerEvent(e) && !e.PurgeAccount?
    ensures Unmoved(s, Step(s, e).value)
  {
    if WriterEvent(e) { WriterUnmoved(s, e); } else { OtherUnmoved(s, e, owed); }
  }

  lemma UnmovedKept(s: State, t: State)
    requires Kept(s) && Unmoved(s, t)
    ensures Kept(t)
  {
    assert PokerOf(t) == PokerOf(s) && EffectsOf(t) == EffectsOf(s);
  }

  lemma LedgerKept(s: State, e: Event)
    requires Kept(s) && Step(s, e).Some? && LedgerEvent(e) && Fresh(s, e)
    ensures Kept(Step(s, e).value)
  {
    match e
    case AcceptPoker(id, effect) => AcceptPokerKept(s, id, effect);
    case AcceptEffect(id, effect) => AcceptEffectKept(s, id, effect);
    case SqlCommit(id) => SqlCommitKept(s, id);
    case AckPoker(id) => AckPokerKept(s, id);
    case AckEffect(id) => AckEffectKept(s, id);
    case EvictHand(id) => EvictHandKept(s, id);
    case AbandonEffect(id, tx) => AbandonKept(s, id, tx);
    case WriterCommit(w, wallet, rows) => ForeignCommitKept(s, wallet, rows, s.orphans);
    case OrphanCommit(t, wallet, rows) => ForeignCommitKept(s, wallet, rows, s.orphans - {t});
  }

  lemma StepKept(s: State, e: Event, owed: Delta)
    requires Kept(s) && ReaderOk(s, owed) && Step(s, e).Some? && !e.PurgeAccount? && Fresh(s, e)
    ensures Kept(Step(s, e).value)
  {
    if LedgerEvent(e) {
      LedgerKept(s, e);
    } else {
      StepUnmoved(s, e, owed);
      UnmovedKept(s, Step(s, e).value);
    }
  }

  // ---- What each event does to what is owed ----

  lemma AcceptPokerOwes(s: State, id: Id, effect: Effect)
    requires Kept(s) && StepAcceptPoker(s, id, effect).Some? && Fresh(s, AcceptPoker(id, effect))
    ensures OwedBy(StepAcceptPoker(s, id, effect).value) == if id in s.receipts then OwedBy(s) else Plus(effect.change, OwedBy(s))
  {
    if id !in s.receipts {
      FreshIsNew(s.accepted, s.sql.ledger, s.user.value.poker, s.user.value.effects, id);
      SumInsert(s.sql.ledger, s.accepted, id, effect);
    }
  }

  lemma AcceptEffectOwes(s: State, id: Id, effect: Effect)
    requires Kept(s) && StepAcceptEffect(s, id, effect).Some? && Fresh(s, AcceptEffect(id, effect))
    ensures OwedBy(StepAcceptEffect(s, id, effect).value) == if id in EffectsOf(s) then OwedBy(s) else Plus(effect.change, OwedBy(s))
  {
    if id !in EffectsOf(s) {
      FreshIsNew(s.accepted, s.sql.ledger, s.user.value.poker, s.user.value.effects, id);
      SumInsert(s.sql.ledger, s.accepted, id, effect);
    }
  }

  lemma CommitOwes(s: State, id: Id)
    requires Kept(s) && StepSqlCommit(s, id).Some?
    ensures id in s.accepted && !NobodyOwes(s)
    ensures OwedBy(s) == Plus(s.accepted[id].change, OwedBy(StepSqlCommit(s, id).value))
  {
    CommitMovesEffect(s.accepted, s.sql.ledger, id);
  }

  lemma AckOwes(s: State, id: Id)
    ensures StepEvictHand(s, id).Some? ==> OwedBy(StepEvictHand(s, id).value) == OwedBy(s)
    ensures StepAckPoker(s, id).Some? ==> OwedBy(StepAckPoker(s, id).value) == OwedBy(s)
    ensures StepAckEffect(s, id).Some? ==> OwedBy(StepAckEffect(s, id).value) == OwedBy(s)
  {
  }

  lemma ForeignCommitOwes(s: State, wallet: Wallet, rows: map<Id, Row>, orphans: set<Tx>)
    requires Kept(s) && StepForeign(s, wallet, rows, orphans).Some?
    ensures OwedBy(StepForeign(s, wallet, rows, orphans).value) == OwedBy(s)
  {
    ForeignRowsUntouching(s.accepted, s.sql.ledger, rows);
    SumUnmoved(s.sql.ledger, s.sql.ledger + rows, s.accepted);
  }

  lemma LoadOwes(s: State)
    requires Kept(s)
    ensures LoadsOwed(s, OwedBy(s))
  {
    OwedIsOverlaid(s.accepted, s.sql.ledger, PokerOf(s), EffectsOf(s));
    if Overlay(s.sql, PokerOf(s), EffectsOf(s)).Some? { OverlayReconciles(s.sql, PokerOf(s), EffectsOf(s)); }
  }

  /** `OwedMoves` for one event, from the amounts alone. */
  lemma LedgerMoves(s: State, e: Event, owed: Delta, after: Delta)
    requires LedgerEvent(e) && (NobodyOwes(s) ==> owed == ZERO)
    requires e.AcceptPoker? ==> after == if e.id in s.receipts then owed else Plus(e.effect.change, owed)
    requires e.AcceptEffect? ==> after == if e.id in EffectsOf(s) then owed else Plus(e.effect.change, owed)
    requires e.SqlCommit? ==> e.id in s.accepted && !NobodyOwes(s) && owed == Plus(s.accepted[e.id].change, after)
    requires e.AckPoker? || e.AckEffect? || e.EvictHand? || ForeignEvent(e) ==> after == owed
    ensures OwedMoves(s, e, owed, after)
  {
  }

  lemma AcceptOwes(s: State, e: Event)
    requires Kept(s) && Step(s, e).Some? && (e.AcceptPoker? || e.AcceptEffect?) && Fresh(s, e)
    requires NobodyOwes(s) ==> OwedBy(s) == ZERO
    ensures OwedMoves(s, e, OwedBy(s), OwedBy(Step(s, e).value))
  {
    if e.AcceptPoker? { AcceptPokerOwes(s, e.id, e.effect); } else { AcceptEffectOwes(s, e.id, e.effect); }
    LedgerMoves(s, e, OwedBy(s), OwedBy(Step(s, e).value));
  }

  lemma SettlementOwes(s: State, e: Event)
    requires Kept(s) && Step(s, e).Some? && SettlementEvent(e) && Fresh(s, e) && (NobodyOwes(s) ==> OwedBy(s) == ZERO)
    ensures OwedMoves(s, e, OwedBy(s), OwedBy(Step(s, e).value))
  {
    if e.AcceptPoker? || e.AcceptEffect? {
      AcceptOwes(s, e);
    } else {
      if e.SqlCommit? { CommitOwes(s, e.id); } else { AckOwes(s, e.id); }
      LedgerMoves(s, e, OwedBy(s), OwedBy(Step(s, e).value));
    }
  }

  lemma ForeignOwes(s: State, e: Event)
    requires Kept(s) && Step(s, e).Some? && ForeignEvent(e) && (NobodyOwes(s) ==> OwedBy(s) == ZERO)
    ensures OwedMoves(s, e, OwedBy(s), OwedBy(Step(s, e).value))
  {
    if e.WriterCommit? { ForeignCommitOwes(s, e.wallet, e.rows, s.orphans); }
    else { ForeignCommitOwes(s, e.wallet, e.rows, s.orphans - {e.t}); }
    LedgerMoves(s, e, OwedBy(s), OwedBy(Step(s, e).value));
  }

  lemma StepOwes(s: State, e: Event, owed: Delta)
    requires Kept(s) && ReaderOk(s, owed) && Step(s, e).Some? && !e.PurgeAccount? && Fresh(s, e)
    ensures OwedMoves(s, e, OwedBy(s), OwedBy(Step(s, e).value))
  {
    if NobodyOwes(s) { NothingPending(s); }
    if SettlementEvent(e) {
      SettlementOwes(s, e);
    } else if ForeignEvent(e) {
      ForeignOwes(s, e);
    } else {
      StepUnmoved(s, e, owed);
      LoadOwes(s);
    }
  }

  lemma StepKeepsInv(s: State, e: Event)
    requires !s.purged && Inv(s) && Step(s, e).Some? && !e.PurgeAccount? && Fresh(s, e)
    ensures Inv(Step(s, e).value)
  {
    StepOwes(s, e, OwedBy(s));
    StepKept(s, e, OwedBy(s));
    StepKeeps(s, e, OwedBy(s), OwedBy(Step(s, e).value));
  }

  // ---- Repeated acceptances ----

  /** A repeat of a record the authority still remembers changes nothing. */
  lemma RepeatIsHarmless(s: State, id: Id, effect: Effect)
    ensures id in s.receipts && StepAcceptPoker(s, id, effect).Some? ==> StepAcceptPoker(s, id, effect) == Some(s)
    ensures id in EffectsOf(s) && StepAcceptEffect(s, id, effect).Some? ==> StepAcceptEffect(s, id, effect) == Some(s)
  {
  }

  /** What accepting a record the authority does not remember adds to what is owed. */
  lemma UnrememberedOwes(s: State, t: State, id: Id, effect: Effect)
    requires Kept(s) && id !in PokerOf(s) && id !in EffectsOf(s)
    requires t.accepted == s.accepted[id := effect] && t.sql == s.sql
    ensures OwedBy(t) == if Committed(s.sql.ledger, id) then OwedBy(s) else Plus(effect.change, OwedBy(s))
  {
    if Committed(s.sql.ledger, id) {
      var owing := Uncommitted(s.sql.ledger, s.accepted.Keys);
      assert Uncommitted(t.sql.ledger, t.accepted.Keys) == owing;
      SumAgrees(s.accepted, t.accepted, owing);
    } else {
      FreshIsNew(s.accepted, s.sql.ledger, PokerOf(s), EffectsOf(s), id);
      SumInsert(s.sql.ledger, s.accepted, id, effect);
    }
  }

  /** A wallet raised by a change agrees with a debt raised by it, and with the old debt only when it is nothing. */
  lemma RaisedReconciles(w: Wallet, sql: Sql, owed: Delta, change: Delta)
    requires Reconciled(Some(w), sql, owed)
    ensures Reconciled(Some(Credit(w, change)), sql, Plus(change, owed))
    ensures Reconciled(Some(Credit(w, change)), sql, owed) <==> change == ZERO
  {
  }

  /**
   The authority does not ask SQL whether a record it no longer remembers was settled. Accepting
   one leaves the visible wallet right exactly when SQL holds no receipt of it, or it moves nothing;
   otherwise its change is counted twice.
   */
  lemma HandCountsOnceExactly(s: State, id: Id, effect: Effect)
    requires Inv(s) && s.user.Some? && s.user.value.available
    requires id !in s.receipts && id !in EffectsOf(s) && StepAcceptPoker(s, id, effect).Some?
    ensures var t := StepAcceptPoker(s, id, effect).value;
            && t.user.value.wallet == Some(Credit(s.user.value.wallet.value, effect.change))
            && (Reconciled(t.user.value.wallet, t.sql, OwedBy(t)) <==> !Committed(s.sql.ledger, id) || effect.change == ZERO)
  {
    UnrememberedOwes(s, StepAcceptPoker(s, id, effect).value, id, effect);
    RaisedReconciles(s.user.value.wallet.value, s.sql, OwedBy(s), effect.change);
  }

  lemma EffectCountsOnceExactly(s: State, id: Id, effect: Effect)
    requires Inv(s) && s.user.Some? && s.user.value.available
    requires id !in EffectsOf(s) && id !in PokerOf(s) && StepAcceptEffect(s, id, effect).Some?
    ensures var t := StepAcceptEffect(s, id, effect).value;
            && t.user.value.wallet == Some(Credit(s.user.value.wallet.value, effect.change))
            && (Reconciled(t.user.value.wallet, t.sql, OwedBy(t)) <==> !Committed(s.sql.ledger, id) || effect.change == ZERO)
  {
    UnrememberedOwes(s, StepAcceptEffect(s, id, effect).value, id, effect);
    RaisedReconciles(s.user.value.wallet.value, s.sql, OwedBy(s), effect.change);
  }

  // ---- Every run ----

  /** After hydration: every wallet row is in memory and nothing is in flight. */
  ghost predicate Hydrated(s: State) {
    && s.writers == map[] && s.orphans == {} && s.reader == None && s.receipts == map[] && s.accepted == map[]
    && (s.user.Some? ==>
          && s.user.value == User(s.sql.wallet, true, false, s.user.value.generation, map[], map[])
          && s.user.value.generation <= s.epoch)
    && (s.user.None? ==> s.sql.wallet == None)
  }

  lemma HydratedKeeps(s: State)
    requires Hydrated(s)
    ensures Inv(s)
  {
    assert InvWith(s, ZERO);
    assert Kept(s);
    NothingPending(s);
  }

  lemma PurgedStays(s: State, e: Event)
    requires s.purged && Step(s, e).Some?
    ensures Step(s, e).value.purged
  {
    if WriterEvent(e) && !ForeignEvent(e) { WriterUnmoved(s, e); }
    else if e.Remove? { RemoveUnmoved(s, e.held); }
  }

  lemma {:induction false} RunKeeps(s: State, es: seq<Event>)
    requires Inv(s) && Run(s, es).Some? && Orderly(s, es) && !Run(s, es).value.purged
    ensures Inv(Run(s, es).value)
  {
    if es != [] {
      var front, e := es[..|es| - 1], es[|es| - 1];
      var before := Run(s, front).value;
      if before.purged { PurgedStays(before, e); }
      RunKeeps(s, front);
      StepKeepsInv(before, e);
    }
  }

  /** The state remembers exactly the effects that the events accepted and did not abandon. */
  lemma {:induction false} RunRemembers(s: State, es: seq<Event>)
    requires Hydrated(s) && Run(s, es).Some? && Orderly(s, es) && !Run(s, es).value.purged
    ensures Run(s, es).value.accepted == AcceptedBy(es)
  {
    if es != [] {
      var front, e := es[..|es| - 1], es[|es| - 1];
      var before := Run(s, front).value;
      if before.purged { PurgedStays(before, e); }
      HydratedKeeps(s);
      RunKeeps(s, front);
      RunRemembers(s, front);
      StepRemembers(before, e, OwedBy(before));
    }
  }

  lemma AcceptRemembers(s: State, id: Id, effect: Effect)
    requires Kept(s)
    ensures StepAcceptPoker(s, id, effect).Some? ==> StepAcceptPoker(s, id, effect).value.accepted == s.accepted[id := effect]
    ensures StepAcceptEffect(s, id, effect).Some? ==> StepAcceptEffect(s, id, effect).value.accepted == s.accepted[id := effect]
  {
    if id in s.accepted && s.accepted[id] == effect { assert s.accepted[id := effect] == s.accepted; }
  }

  /** Commits and acknowledgements leave the history alone. */
  lemma CommitRemembers(s: State, id: Id, wallet: Wallet, rows: map<Id, Row>, orphans: set<Tx>)
    ensures StepSqlCommit(s, id).Some? ==> StepSqlCommit(s, id).value.accepted == s.accepted
    ensures StepForeign(s, wallet, rows, orphans).Some? ==> StepForeign(s, wallet, rows, orphans).value.accepted == s.accepted
  {
  }

  lemma AckRemembers(s: State, id: Id)
    ensures StepEvictHand(s, id).Some? ==> StepEvictHand(s, id).value.accepted == s.accepted
    ensures StepAckPoker(s, id).Some? ==> StepAckPoker(s, id).value.accepted == s.accepted
    ensures StepAckEffect(s, id).Some? ==> StepAckEffect(s, id).value.accepted == s.accepted
  {
  }

  lemma AbandonRemembers(s: State, id: Id, tx: Option<Tx>)
    ensures StepAbandon(s, id, tx).Some? ==> StepAbandon(s, id, tx).value.accepted == s.accepted - {id}
  {
  }

  lemma SettlementRemembers(s: State, e: Event)
    requires Kept(s) && Step(s, e).Some? && SettlementEvent(e)
    ensures Step(s, e).value.accepted == Recall(s.accepted, e)
  {
    match e
    case AcceptPoker(id, effect) => AcceptRemembers(s, id, effect);
    case AcceptEffect(id, effect) => AcceptRemembers(s, id, effect);
    case SqlCommit(id) => CommitRemembers(s, id, Granted(None), map[], {});
    case AckPoker(id) => AckRemembers(s, id);
    case AckEffect(id) => AckRemembers(s, id);
    case EvictHand(id) => AckRemembers(s, id);
    case AbandonEffect(id, tx) => AbandonRemembers(s, id, tx);
  }

  lemma StepRemembers(s: State, e: Event, owed: Delta)
    requires Kept(s) && ReaderOk(s, owed) && Step(s, e).Some? && !e.PurgeAccount? && Fresh(s, e)
    ensures Step(s, e).value.accepted == Recall(s.accepted, e)
  {
    if SettlementEvent(e) { SettlementRemembers(s, e); }
    else if e.WriterCommit? { CommitRemembers(s, Id(0, 0), e.wallet, e.rows, s.orphans); }
    else if e.OrphanCommit? { CommitRemembers(s, Id(0, 0), e.wallet, e.rows, s.orphans - {e.t}); }
    else { StepUnmoved(s, e, owed); }
  }

  /** No accepted effect is lost: until SQL commits it, it is laid over the wallet unchanged. */
  lemma AcceptedIsNeverLost(s: State, es: seq<Event>, id: Id)
    requires Hydrated(s) && Run(s, es).Some? && Orderly(s, es) && !Run(s, es).value.purged && id in AcceptedBy(es)
    ensures var t := Run(s, es).value;
            || Committed(t.sql.ledger, id)
            || (id in PokerOf(t) && PokerOf(t)[id] == AcceptedBy(es)[id])
            || (id in EffectsOf(t) && EffectsOf(t)[id] == AcceptedBy(es)[id])
  {
    HydratedKeeps(s);
    RunKeeps(s, es);
    RunRemembers(s, es);
  }

  /**
   From hydration, through every interleaving: an available wallet equals the SQL
   wallet plus exactly the effects the run accepted, and did not abandon, whose
   receipt, own or quarantined, SQL does not hold. None is lost, none counted twice.
   */
  lemma AvailableIsReconciled(s: State, es: seq<Event>)
    requires Hydrated(s) && Run(s, es).Some? && Orderly(s, es) && !Run(s, es).value.purged
    ensures var t := Run(s, es).value;
            t.user.Some? && t.user.value.available ==>
              Granted(t.user.value.wallet) ==
                Credit(Granted(t.sql.wallet),
                       SumOver(AcceptedBy(es), Uncommitted(t.sql.ledger, AcceptedBy(es).Keys)))
  {
    HydratedKeeps(s);
    RunKeeps(s, es);
    RunRemembers(s, es);
    var t := Run(s, es).value;
    ReconciledMeans(t, OwedBy(t));
  }

  /** The states a run passes through determine where it ends. */
  lemma {:induction false} PathIsRun(s: State, es: seq<Event>, path: seq<State>)
    requires |path| == |es| + 1 && path[0] == s
    requires forall i :: 0 <= i < |es| ==> Step(path[i], es[i]) == Some(path[i + 1])
    ensures Run(s, es) == Some(path[|es|])
  {
    if es != [] { PathIsRun(s, es[..|es| - 1], path[..|es|]); }
  }

  ghost predicate FirstWin(s: State, id: Id, effect: Effect) {
    && Hydrated(s) && s.user.Some? && s.sql.wallet == Some(Granted(None)) && s.sql.ledger == map[]
    && id.derived == 0 && effect.change.balance > 0
  }

  /** The hand is accepted and committed. */
  lemma HandIsSettled(s: State, id: Id, effect: Effect) returns (t: State, next: State)
    requires FirstWin(s, id, effect)
    ensures Step(s, AcceptPoker(id, effect)) == Some(t) && Step(t, SqlCommit(id)) == Some(next)
    ensures next.receipts == map[id := Receipt(effect, false)] && Committed(next.sql.ledger, id)
    ensures next.sql.wallet == Some(Credit(Granted(None), effect.change))
    ensures next.user.Some? && next.user.value.available && next.user.value.wallet == next.sql.wallet
  {
    t := StepAcceptPoker(s, id, effect).value;
    next := StepSqlCommit(t, id).value;
  }

  /** A won hand accepted again after it was committed, acknowledged and forgotten is paid twice in memory. */
  lemma ForgottenHandCountsTwice(s: State, id: Id, effect: Effect)
    requires FirstWin(s, id, effect)
    ensures var win := AcceptPoker(id, effect);
            var end := Run(s, [win, SqlCommit(id), AckPoker(id), EvictHand(id), win]);
            && end.Some? && end.value.user.Some? && end.value.user.value.available
            && end.value.sql.wallet == Some(Credit(Granted(None), effect.change))
            && end.value.user.value.wallet == Some(Credit(end.value.sql.wallet.value, effect.change))
  {
    var win := AcceptPoker(id, effect);
    var t1, t2 := HandIsSettled(s, id, effect);
    var t3 := StepAckPoker(t2, id).value;
    var t4 := StepEvictHand(t3, id).value;
    var t5 := StepAcceptPoker(t4, id, effect).value;
    PathIsRun(s, [win, SqlCommit(id), AckPoker(id), EvictHand(id), win], [s, t1, t2, t3, t4, t5]);
  }

  lemma ReconciledMeans(s: State, owed: Delta)
    requires UserOk(s, owed)
    ensures s.user.Some? && s.user.value.available ==>
              Granted(s.user.value.wallet) == Credit(Granted(s.sql.wallet), owed)
  {
  }
}
