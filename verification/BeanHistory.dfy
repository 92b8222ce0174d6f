/**
 The effects accepted in memory against the ledger that commits them: what is still owed,
 and what acceptance, commit and foreign rows do to it.
 */
module BeanHistory {
  import opened Outcomes
  import opened BeanLedger

  /** Every accepted effect is committed, or still laid over the wallet as it was accepted. */
  ghost predicate Held(accepted: map<Id, Effect>, ledger: map<Id, Row>, poker: map<Id, Effect>, effects: map<Id, Effect>) {
    forall x :: x in accepted ==>
      || Committed(ledger, x)
      || (x in poker && poker[x] == accepted[x])
      || (x in effects && effects[x] == accepted[x])
  }

  /** Nothing is laid over the wallet that was not accepted. */
  ghost predicate Backed(accepted: map<Id, Effect>, overlay: map<Id, Effect>) {
    forall x :: x in overlay ==> x in accepted && accepted[x] == overlay[x]
  }

  ghost predicate Receipted(accepted: map<Id, Effect>, ledger: map<Id, Row>) {
    && Originals(accepted.Keys)
    && forall x :: x in accepted ==> ReceiptOk(ledger, x, accepted[x].ledgerDelta)
  }

  /** No accepted effect is lost between the overlays and the ledger, and none is invented. */
  ghost predicate KeptIn(accepted: map<Id, Effect>, ledger: map<Id, Row>, poker: map<Id, Effect>, effects: map<Id, Effect>) {
    && Receipted(accepted, ledger)
    && Held(accepted, ledger, poker, effects)
    && Backed(accepted, poker) && Backed(accepted, effects)
    && poker.Keys !! effects.Keys
  }

  // ---- What is owed ----

  /** The accepted effects whose receipt SQL does not hold. */
  ghost function Owed(accepted: map<Id, Effect>, ledger: map<Id, Row>): Delta {
    SumOver(accepted, Uncommitted(ledger, accepted.Keys))
  }

  /** With nothing laid over the wallet, everything accepted has been committed. */
  lemma NothingOwed(accepted: map<Id, Effect>, ledger: map<Id, Row>, poker: map<Id, Effect>, effects: map<Id, Effect>)
    requires KeptIn(accepted, ledger, poker, effects) && poker == map[] && effects == map[]
    ensures Owed(accepted, ledger) == ZERO
  {
    assert Uncommitted(ledger, accepted.Keys) == {};
  }

  /** What is owed is what both overlays hold and SQL does not. */
  lemma OwedIsOverlaid(accepted: map<Id, Effect>, ledger: map<Id, Row>, poker: map<Id, Effect>, effects: map<Id, Effect>)
    requires KeptIn(accepted, ledger, poker, effects)
    ensures Owed(accepted, ledger)
            == Plus(SumOver(poker, Uncommitted(ledger, poker.Keys)), SumOver(effects, Uncommitted(ledger, effects.Keys)))
  {
    var hands, events := Uncommitted(ledger, poker.Keys), Uncommitted(ledger, effects.Keys);
    assert Uncommitted(ledger, accepted.Keys) == hands + events;
    SumUnion(accepted, hands, events);
    SumAgrees(accepted, poker, hands);
    SumAgrees(accepted, effects, events);
  }

  lemma SumInsert(ledger: map<Id, Row>, m: map<Id, Effect>, id: Id, e: Effect)
    requires id !in m && !Committed(ledger, id)
    ensures var n := m[id := e];
            SumOver(n, Uncommitted(ledger, n.Keys)) == Plus(e.change, SumOver(m, Uncommitted(ledger, m.Keys)))
  {
    var n := m[id := e];
    var s := Uncommitted(ledger, n.Keys);
    SumSplit(n, s, id);
    assert s - {id} == Uncommitted(ledger, m.Keys);
    SumAgrees(n, m, s - {id});
  }

  /** A ledger under which the same settlements are committed leaves the same sum. */
  lemma SumUnmoved(ledger: map<Id, Row>, next: map<Id, Row>, m: map<Id, Effect>)
    requires forall x :: x in m ==> Committed(ledger, x) == Committed(next, x)
    ensures SumOver(m, Uncommitted(next, m.Keys)) == SumOver(m, Uncommitted(ledger, m.Keys))
  {
    assert Uncommitted(ledger, m.Keys) == Uncommitted(next, m.Keys);
  }

  lemma SumMoved(ledger: map<Id, Row>, next: map<Id, Row>, m: map<Id, Effect>, id: Id)
    requires id in m && !Committed(ledger, id) && Committed(next, id)
    requires forall x :: x in m && x != id ==> Committed(ledger, x) == Committed(next, x)
    ensures SumOver(m, Uncommitted(ledger, m.Keys)) == Plus(m[id].change, SumOver(m, Uncommitted(next, m.Keys)))
  {
    SumSplit(m, Uncommitted(ledger, m.Keys), id);
    assert Uncommitted(next, m.Keys) == Uncommitted(ledger, m.Keys) - {id};
  }

  /** A commit moves exactly one effect from what is owed into SQL, and loses none. */
  lemma CommitMovesEffect(accepted: map<Id, Effect>, ledger: map<Id, Row>, id: Id)
    requires Receipted(accepted, ledger) && id in accepted && !Committed(ledger, id)
    ensures var next := WriteReceipt(ledger, id, accepted[id].ledgerDelta);
            && next.Some?
            && Owed(accepted, ledger) == Plus(accepted[id].change, Owed(accepted, next.value))
  {
    ReceiptCommits(ledger, accepted.Keys, id, accepted[id].ledgerDelta);
    SumMoved(ledger, WriteReceipt(ledger, id, accepted[id].ledgerDelta).value, accepted, id);
  }

  lemma CommitKeepsReceipts(accepted: map<Id, Effect>, ledger: map<Id, Row>, id: Id)
    requires Receipted(accepted, ledger) && id in accepted && !Committed(ledger, id)
    ensures var next := WriteReceipt(ledger, id, accepted[id].ledgerDelta);
            && next.Some? && Receipted(accepted, next.value)
            && forall x :: x in accepted && Committed(ledger, x) ==> Committed(next.value, x)
  {
    ReceiptCommits(ledger, accepted.Keys, id, accepted[id].ledgerDelta);
  }

  lemma ForeignRowsUntouching(accepted: map<Id, Effect>, ledger: map<Id, Row>, rows: map<Id, Row>)
    requires rows.Keys !! ledger.Keys && rows.Keys !! ReceiptIds(accepted.Keys) && Receipted(accepted, ledger)
    ensures Receipted(accepted, ledger + rows)
    ensures forall x :: x in accepted ==> Committed(ledger + rows, x) == Committed(ledger, x)
  {
    forall x | x in accepted ensures x !in rows && Quarantine(x) !in rows {
      assert x in ReceiptIds(accepted.Keys) && Quarantine(x) in ReceiptIds(accepted.Keys);
    }
  }

  // ---- What keeps the accepted effects ----

  /** A record id with no receipt and no overlay was never accepted. */
  lemma FreshIsNew(accepted: map<Id, Effect>, ledger: map<Id, Row>, poker: map<Id, Effect>, effects: map<Id, Effect>, id: Id)
    requires KeptIn(accepted, ledger, poker, effects)
    requires id !in poker && id !in effects && !Committed(ledger, id)
    ensures id !in accepted
  {
  }

  lemma AcceptKeepsReceipts(accepted: map<Id, Effect>, ledger: map<Id, Row>, id: Id, e: Effect)
    requires Receipted(accepted, ledger) && id.derived == 0
    requires Quarantine(id) !in ledger && (id in ledger ==> ledger[id].details.LegacySolo?)
    ensures Receipted(accepted[id := e], ledger)
  {
  }

  lemma HandKept(accepted: map<Id, Effect>, ledger: map<Id, Row>, poker: map<Id, Effect>, effects: map<Id, Effect>, id: Id, e: Effect)
    requires KeptIn(accepted, ledger, poker, effects) && id !in accepted && Receipted(accepted[id := e], ledger)
    ensures KeptIn(accepted[id := e], ledger, poker[id := e], effects)
  {
  }

  lemma EventKept(accepted: map<Id, Effect>, ledger: map<Id, Row>, poker: map<Id, Effect>, effects: map<Id, Effect>, id: Id, e: Effect)
    requires KeptIn(accepted, ledger, poker, effects) && id !in accepted && Receipted(accepted[id := e], ledger)
    ensures KeptIn(accepted[id := e], ledger, poker, effects[id := e])
  {
  }

  /** An overlay is dropped only once its effect is committed. */
  lemma HandAcknowledged(accepted: map<Id, Effect>, ledger: map<Id, Row>, poker: map<Id, Effect>, effects: map<Id, Effect>, id: Id)
    requires KeptIn(accepted, ledger, poker, effects) && Committed(ledger, id)
    ensures KeptIn(accepted, ledger, poker - {id}, effects)
  {
  }

  lemma EventAcknowledged(accepted: map<Id, Effect>, ledger: map<Id, Row>, poker: map<Id, Effect>, effects: map<Id, Effect>, id: Id)
    requires KeptIn(accepted, ledger, poker, effects) && Committed(ledger, id)
    ensures KeptIn(accepted, ledger, poker, effects - {id})
  {
  }

  /** Abandoning one effect leaves every other accepted effect held. */
  lemma AbandonedKept(accepted: map<Id, Effect>, ledger: map<Id, Row>, poker: map<Id, Effect>, effects: map<Id, Effect>, id: Id)
    requires KeptIn(accepted, ledger, poker, effects) && id !in poker
    ensures KeptIn(accepted - {id}, ledger, poker, effects - {id})
  {
  }
}
