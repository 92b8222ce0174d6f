/** `read_user`: the loops that rebuild one wallet from a SQL snapshot. */
module BeanReader {
  import opened Outcomes
  import opened BeanLedger
  import opened BeanAuthority
  import opened BeanHistory
  import opened BeanProtocol
  import opened BeanOverlay

  predicate Fits(d: Delta) {
    && -I64_MAX - 1 <= d.balance <= I64_MAX && -I64_MAX - 1 <= d.net <= I64_MAX
    && -I32_MAX - 1 <= d.played <= I32_MAX && -I32_MAX - 1 <= d.won <= I32_MAX
  }

  /** Overlays as the protocol keeps them: distinct settlements, each with at most its own receipt. */
  ghost predicate PendingOk(ledger: map<Id, Row>, poker: map<Id, Effect>, effects: map<Id, Effect>) {
    && poker.Keys !! effects.Keys
    && Originals(poker.Keys) && Originals(effects.Keys)
    && (forall x :: x in poker ==> ReceiptOk(ledger, x, poker[x].ledgerDelta))
    && (forall x :: x in effects ==> ReceiptOk(ledger, x, effects[x].ledgerDelta))
  }

  /** In every run the overlays a current refresh has captured meet what `ReadUser` asks for. */
  lemma CapturedIsReadable(s: State, es: seq<Event>)
    requires Hydrated(s) && Run(s, es).Some? && Orderly(s, es) && !Run(s, es).value.purged
    ensures var t := Run(s, es).value;
            PendingOk(t.sql.ledger, PokerOf(t), EffectsOf(t))
  {
    HydratedKeeps(s);
    RunKeeps(s, es);
    var t := Run(s, es).value;
    KeptIsPendingOk(t.accepted, t.sql.ledger, PokerOf(t), EffectsOf(t));
  }

  lemma KeptIsPendingOk(accepted: map<Id, Effect>, ledger: map<Id, Row>, poker: map<Id, Effect>, effects: map<Id, Effect>)
    requires KeptIn(accepted, ledger, poker, effects)
    ensures PendingOk(ledger, poker, effects)
  {
  }

  /** Some of the effects `ids`, added up, leave the integer widths. */
  ghost predicate Overflows(m: map<Id, Effect>, ids: set<Id>) {
    exists some: set<Id> :: some <= ids && some <= m.Keys && !Fits(SumOver(m, some))
  }

  /** Adds up the pending effects not yet `seen` in SQL, in map order, refusing an overflow. */
  method PendingTotal(m: map<Id, Effect>, seen: set<Id>) returns (total: Option<Delta>)
    ensures total.Some? ==> total.value == SumOver(m, m.Keys - seen)
    ensures total.None? ==> Overflows(m, m.Keys - seen)
  {
    var todo := m.Keys - seen;
    ghost var done: set<Id> := {};
    var sum := ZERO;
    while todo != {}
      invariant todo + done == m.Keys - seen && todo !! done
      invariant sum == SumOver(m, done)
      decreases todo
    {
      var x :| x in todo;
      SumSplit(m, done + {x}, x);
      assert done + {x} - {x} == done;
      sum := Plus(m[x].change, sum);
      if !Fits(sum) {
        assert sum == SumOver(m, done + {x});
        return None;
      }
      todo, done := todo - {x}, done + {x};
    }
    assert done == m.Keys - seen;
    total := Some(sum);
  }

  /** The overlay cannot be represented: a partial sum or the resulting wallet is too large. */
  ghost predicate OutOfRange(w: Option<Wallet>, ledger: map<Id, Row>, pending: map<Id, Effect>) {
    && w.Some?
    && (|| Overflows(pending, Uncommitted(ledger, pending.Keys))
        || !WalletFits(Credit(w.value, SumOver(pending, Uncommitted(ledger, pending.Keys)))))
  }

  /** One overlay: find its committed settlements, then lay the rest over the wallet. */
  method LayOver(w: Option<Wallet>, pending: map<Id, Effect>, ledger: map<Id, Row>) returns (r: Option<Option<Wallet>>)
    requires Originals(pending.Keys)
    requires forall x :: x in pending ==> ReceiptOk(ledger, x, pending[x].ledgerDelta)
    ensures r.Some? ==> r == Laid(w, ledger, pending)
    ensures r.None? ==> Laid(w, ledger, pending).None? || OutOfRange(w, ledger, pending)
  {
    if pending == map[] { return Some(w); }
    if w.None? { return None; }
    ReceiptsFindCommitted(pending, ledger);
    var seen := CommittedReceipts(pending, ledger);
    if seen.None? { return None; }
    assert pending.Keys - seen.value == Uncommitted(ledger, pending.Keys);
    var total := PendingTotal(pending, seen.value);
    if total.None? { return None; }
    var after := Credit(w.value, total.value);
    if after.balance < 0 || !WalletFits(after) { return None; }
    r := Some(Some(after));
  }

  /**
   Whatever it loads is the SQL wallet with exactly the uncommitted effects on top, and it
   gives up only when there is no such wallet or its numbers leave the integer widths.
   */
  method ReadUser(sql: Sql, poker: map<Id, Effect>, effects: map<Id, Effect>) returns (r: Option<Option<Wallet>>)
    requires PendingOk(sql.ledger, poker, effects)
    ensures r.Some? ==> r == Overlay(sql, poker, effects)
    ensures r.None? ==>
              || Overlay(sql, poker, effects).None?
              || OutOfRange(sql.wallet, sql.ledger, poker)
              || OutOfRange(Laid(sql.wallet, sql.ledger, poker).value, sql.ledger, effects)
  {
    var wallet := LayOver(sql.wallet, poker, sql.ledger);
    if wallet.None? { return None; }
    r := LayOver(wallet.value, effects, sql.ledger);
  }
}
