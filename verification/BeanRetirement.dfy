/** A deleted account's hidden wallet: no refresh, grant or daily claim shows it again. */
module BeanRetirement {
  import opened Outcomes
  import opened BeanLedger
  import opened BeanAuthority
  import opened BeanProtocol
  import opened BeanOverlay

  /** A retired user is hidden, and neither a refresh nor a daily claim in flight may publish it. */
  ghost predicate RetiredHidden(s: State) {
    s.user.Some? && s.user.value.retired ==>
      && !s.user.value.available
      && (s.reader.Some? ==> s.reader.value.generation != s.user.value.generation)
      && (forall w :: w in s.writers ==> !Claims(s.writers[w], s.user.value.generation))
  }

  /** A daily claim may still publish under this generation. */
  ghost predicate Claims(w: Writer, generation: nat) { w.Daily? && w.readable == Some(generation) }

  /** Every generation a refresh or a claim remembers is past, or current. */
  ghost predicate Dated(s: State) {
    && (s.reader.Some? ==> s.reader.value.generation <= s.epoch)
    && (forall w :: w in s.writers ==> Timely(s.writers[w], s.epoch))
  }

  ghost predicate Timely(w: Writer, epoch: nat) { w.Daily? && w.readable.Some? ==> w.readable.value <= epoch }

  lemma InvIsDated(s: State, owed: Delta)
    requires InvWith(s, owed)
    ensures Dated(s)
  {
    forall w | w in s.writers ensures Timely(s.writers[w], s.epoch) { assert DailyOk(s, w, s.writers[w]); }
  }

  /** No claim of `t` may publish under a generation that none of `s` could. */
  ghost predicate FewerClaims(s: State, t: State) {
    forall w, g :: w in t.writers && Claims(t.writers[w], g) ==> w in s.writers && Claims(s.writers[w], g)
  }

  /** A new generation for a user that is hidden, or not retired. */
  lemma Outdated(s: State, t: State)
    requires Dated(s) && t.reader == s.reader && FewerClaims(s, t)
    requires t.user.Some? && t.user.value.retired ==> !t.user.value.available && t.user.value.generation > s.epoch
    ensures RetiredHidden(t)
  {
    if t.user.Some? && t.user.value.retired {
      forall w | w in t.writers ensures !Claims(t.writers[w], t.user.value.generation) {
        assert w in s.writers ==> Timely(s.writers[w], s.epoch);
      }
    }
  }

  /** The same generation, with no new claim and no refresh of it. */
  lemma StillHidden(s: State, t: State)
    requires RetiredHidden(s) && FewerClaims(s, t)
    requires t.user.Some? && t.user.value.retired ==>
               && s.user.Some? && s.user.value.retired && t.user.value.generation == s.user.value.generation
               && !t.user.value.available
               && (t.reader.Some? ==> s.reader.Some? && t.reader.value.generation == s.reader.value.generation)
    ensures RetiredHidden(t)
  {
  }

  /** Events that hide the wallet until it is reloaded, for an account that may be active. */
  ghost predicate Invalidates(e: Event) {
    || e.BeginDaily? || e.AbandonEffect?
    || ((e.HideUser? || e.BeginFence? || e.DropFence?) && e.active)
  }

  ghost predicate Retired(s: State) { s.user.Some? && s.user.value.retired }

  lemma AcceptHidden(s: State, id: Id, effect: Effect)
    requires RetiredHidden(s) && Dated(s)
    ensures StepAcceptPoker(s, id, effect).Some? ==>
              var t := StepAcceptPoker(s, id, effect).value; RetiredHidden(t) && (Retired(s) ==> Retired(t))
    ensures StepAcceptEffect(s, id, effect).Some? ==>
              var t := StepAcceptEffect(s, id, effect).value; RetiredHidden(t) && (Retired(s) ==> Retired(t))
  {
    if StepAcceptPoker(s, id, effect).Some? && id !in s.receipts { Outdated(s, StepAcceptPoker(s, id, effect).value); }
  }

  lemma AckPokerHidden(s: State, id: Id)
    requires RetiredHidden(s) && Dated(s) && StepAckPoker(s, id).Some?
    ensures RetiredHidden(StepAckPoker(s, id).value) && (Retired(s) ==> Retired(StepAckPoker(s, id).value))
  {
    if id in s.receipts && !s.receipts[id].committed { Outdated(s, StepAckPoker(s, id).value); }
  }

  lemma AckEffectHidden(s: State, id: Id)
    requires RetiredHidden(s) && Dated(s) && StepAckEffect(s, id).Some?
    ensures RetiredHidden(StepAckEffect(s, id).value) && (Retired(s) ==> Retired(StepAckEffect(s, id).value))
  {
    var t := StepAckEffect(s, id).value;
    if s.user.Some? && id in s.user.value.effects { Outdated(s, t); } else { StillHidden(s, t); }
  }

  lemma LedgerHidden(s: State, id: Id)
    requires RetiredHidden(s)
    ensures StepSqlCommit(s, id).Some? ==>
              var t := StepSqlCommit(s, id).value; RetiredHidden(t) && (Retired(s) ==> Retired(t))
    ensures StepEvictHand(s, id).Some? ==>
              var t := StepEvictHand(s, id).value; RetiredHidden(t) && (Retired(s) ==> Retired(t))
  {
    if StepSqlCommit(s, id).Some? { StillHidden(s, StepSqlCommit(s, id).value); }
    if StepEvictHand(s, id).Some? { StillHidden(s, StepEvictHand(s, id).value); }
  }

  lemma SettlementHidden(s: State, e: Event)
    requires RetiredHidden(s) && Dated(s) && Step(s, e).Some? && SettlementEvent(e)
    ensures RetiredHidden(Step(s, e).value)
    ensures Retired(s) && !Invalidates(e) ==> Retired(Step(s, e).value)
  {
    match e
    case AcceptPoker(id, effect) => AcceptHidden(s, id, effect);
    case AcceptEffect(id, effect) => AcceptHidden(s, id, effect);
    case AbandonEffect(id, tx) => assert !Retired(StepAbandon(s, id, tx).value);
    case AckPoker(id) => AckPokerHidden(s, id);
    case AckEffect(id) => AckEffectHidden(s, id);
    case SqlCommit(id) => LedgerHidden(s, id);
    case EvictHand(id) => LedgerHidden(s, id);
  }

  ghost predicate FenceEvent(e: Event) { e.HideUser? || e.BeginFence? || e.DropFence? }

  /** What removal leaves of the user: a retired one, or none. */
  lemma RemovedUser(s: State, held: bool)
    ensures var t := RemoveUser(s, held);
            && (t.user.Some? ==> t.user.value.retired && !t.user.value.available && t.user.value.generation == s.epoch + 1)
            && t.reader == s.reader && t.writers == s.writers
  {
    match s.user case None => case Some(u) =>
  }

  lemma RemoveHidden(s: State, held: bool)
    requires Dated(s)
    ensures RetiredHidden(RemoveUser(s, held)) && (RemoveUser(s, held).user.None? || Retired(RemoveUser(s, held)))
  {
    RemovedUser(s, held);
    Outdated(s, RemoveUser(s, held));
  }

  lemma FenceHidden(s: State, t: State, active: bool, held: bool)
    requires Dated(s) && FewerClaims(s, t) && t.reader == s.reader && t.user == Fence(s, active, held).user
    ensures RetiredHidden(t) && (!active ==> t.user.None? || Retired(t))
  {
    if active {
      assert !Retired(Invalidate(s));
    } else {
      RemovedUser(s, held);
      Outdated(s, t);
    }
  }

  lemma FenceEventHidden(s: State, e: Event)
    requires Dated(s) && Step(s, e).Some? && FenceEvent(e)
    ensures RetiredHidden(Step(s, e).value)
    ensures !Invalidates(e) ==> Step(s, e).value.user.None? || Retired(Step(s, e).value)
  {
    FenceKeepsRest(s, e.active, e.held);
    FenceHidden(s, Step(s, e).value, e.active, e.held);
  }

  lemma FenceKeepsRest(s: State, active: bool, held: bool)
    ensures Fence(s, active, held).writers == s.writers && Fence(s, active, held).reader == s.reader
  {
    if !active { RemovedUser(s, held); }
  }

  lemma TouchHidden(s: State, e: Event)
    requires RetiredHidden(s) && Dated(s) && Step(s, e).Some? && (e.BeginWatch? || e.BeginGrant? || e.End?)
    ensures RetiredHidden(Step(s, e).value)
    ensures Retired(s) ==> Retired(Step(s, e).value)
  {
    Outdated(s, Step(s, e).value);
  }

  lemma DailyHidden(s: State, e: Event)
    requires RetiredHidden(s) && Dated(s) && Step(s, e).Some? && DailyEvent(e)
    ensures RetiredHidden(Step(s, e).value)
    ensures Retired(s) && !Invalidates(e) ==> Retired(Step(s, e).value)
  {
    var t := Step(s, e).value;
    if e.BeginDaily? {
      assert !Retired(t);
    } else {
      if e.PublishDaily? { assert Retired(s) ==> !Claims(s.writers[e.w], s.user.value.generation); }
      StillHidden(s, t);
    }
  }

  lemma WalletHidden(s: State, e: Event)
    requires RetiredHidden(s) && Step(s, e).Some? && (e.Grant? || e.Register?)
    ensures RetiredHidden(Step(s, e).value)
    ensures Retired(s) ==> Retired(Step(s, e).value)
  {
    var t := Step(s, e).value;
    if Retired(s) { StillHidden(s, t); } else { assert !Retired(t); }
  }

  lemma CaptureHidden(s: State)
    requires StepCapture(s).Some?
    ensures !Retired(s) && !Retired(StepCapture(s).value)
  {
  }

  /** An install of a retired user's generation is impossible, so a retired user stays as it is. */
  lemma InstallHidden(s: State)
    requires RetiredHidden(s) && StepInstall(s).Some?
    ensures RetiredHidden(StepInstall(s).value) && (Retired(s) ==> Retired(StepInstall(s).value))
  {
    var t := StepInstall(s).value;
    if Retired(s) {
      assert t == s.(reader := None);
      StillHidden(s, t);
    } else {
      assert !Retired(t);
    }
  }

  lemma ReadHidden(s: State)
    requires RetiredHidden(s)
    ensures StepSample(s).Some? ==>
              var t := StepSample(s).value; RetiredHidden(t) && (Retired(s) ==> Retired(t))
    ensures StepLoad(s).Some? ==>
              var t := StepLoad(s).value; RetiredHidden(t) && (Retired(s) ==> Retired(t))
  {
    if StepSample(s).Some? { StillHidden(s, StepSample(s).value); }
    if StepLoad(s).Some? { StillHidden(s, StepLoad(s).value); }
  }

  lemma RefreshHidden(s: State, e: Event)
    requires RetiredHidden(s) && Step(s, e).Some? && (e.Capture? || e.Sample? || e.Load? || e.Install? || e.DropRead?)
    ensures RetiredHidden(Step(s, e).value)
    ensures Retired(s) ==> Retired(Step(s, e).value)
  {
    match e
    case Capture => CaptureHidden(s);
    case Install => InstallHidden(s);
    case DropRead => StillHidden(s, s.(reader := None));
    case _ => ReadHidden(s);
  }

  lemma ElsewhereHidden(s: State, e: Event)
    requires RetiredHidden(s) && Step(s, e).Some?
    requires ForeignEvent(e) || e.OrphanAbort? || e.GrantCommit? || e.DeleteAccount? || e.PurgeAccount? || e.OtherUser?
    ensures RetiredHidden(Step(s, e).value)
    ensures Retired(s) ==> Retired(Step(s, e).value)
  {
    StillHidden(s, Step(s, e).value);
  }

  /**
   A retired user stays retired, and so hidden, until it is forgotten or invalidated: no refresh,
   grant, settlement or daily claim shows it again.
   */
  lemma RetirementLasts(s: State, e: Event, owed: Delta)
    requires RetiredHidden(s) && InvWith(s, owed) && Step(s, e).Some?
    ensures RetiredHidden(Step(s, e).value)
    ensures Retired(s) && !Invalidates(e) ==> Step(s, e).value.user.None? || Retired(Step(s, e).value)
  {
    InvIsDated(s, owed);
    if SettlementEvent(e) { SettlementHidden(s, e); }
    else if FenceEvent(e) { FenceEventHidden(s, e); }
    else if GuardEvent(e) { TouchHidden(s, e); }
    else if DailyEvent(e) { DailyHidden(s, e); }
    else if e.Remove? { RemoveHidden(s, e.held); }
    else if e.Grant? || e.Register? { WalletHidden(s, e); }
    else if e.Capture? || e.Sample? || e.Load? || e.Install? || e.DropRead? { RefreshHidden(s, e); }
    else { ElsewhereHidden(s, e); }
  }

  /** Over every run a retired user is hidden, and nothing in flight may show it. */
  lemma {:induction false} RetiredIsHidden(s: State, es: seq<Event>)
    requires Hydrated(s) && Run(s, es).Some? && Orderly(s, es) && !Run(s, es).value.purged
    ensures RetiredHidden(Run(s, es).value)
  {
    if es != [] {
      var front, e := es[..|es| - 1], es[|es| - 1];
      var before := Run(s, front).value;
      if before.purged { PurgedStays(before, e); }
      RetiredIsHidden(s, front);
      HydratedKeeps(s);
      RunKeeps(s, front);
      RetirementLasts(before, e, OwedBy(before));
    }
  }
}
