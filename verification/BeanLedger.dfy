/**
 Gold-bean wallets, accepted effects and ledger receipts
 (draw-games/src/wallet.rs, beans.rs, beans_pending_effects.rs).
 */
module BeanLedger {
  import opened Outcomes
  import opened Sums

  /**
   A record id: a random UUID, derived zero or more times into a quarantine id.
   Version-5 UUIDs are taken never to collide.
   */
  datatype Id = Id(uuid: nat, derived: nat)

  function Quarantine(id: Id): Id { id.(derived := id.derived + 1) }

  /** The first-use grant a wallet starts from. */
  const GRANT: int := 2000

  datatype Wallet = Wallet(balance: int, netWon: int, handsPlayed: int, handsWon: int, refills: int)

  /** What one accepted settlement does to a wallet. */
  datatype Delta = Delta(balance: int, net: int, played: int, won: int)

  /** A poker or lottery settlement: its wallet change and the delta its ledger row carries. */
  datatype Effect = Effect(change: Delta, ledgerDelta: int)

  const ZERO := Delta(0, 0, 0, 0)

  function Plus(a: Delta, b: Delta): Delta {
    Delta(a.balance + b.balance, a.net + b.net, a.played + b.played, a.won + b.won)
  }

  function Credit(w: Wallet, d: Delta): Wallet {
    w.(balance := w.balance + d.balance,
       netWon := w.netWon + d.net,
       handsPlayed := w.handsPlayed + d.played,
       handsWon := w.handsWon + d.won)
  }

  const I64_MAX: int := 0x7FFF_FFFF_FFFF_FFFF
  const I32_MAX: int := 0x7FFF_FFFF

  /** Within the columns' widths; the checked additions refuse anything else. */
  predicate WalletFits(w: Wallet) {
    && -I64_MAX - 1 <= w.balance <= I64_MAX && -I64_MAX - 1 <= w.netWon <= I64_MAX
    && -I32_MAX - 1 <= w.handsPlayed <= I32_MAX && -I32_MAX - 1 <= w.handsWon <= I32_MAX
  }

  /** A missing wallet row counts as the grant that its first use inserts. */
  function Granted(w: Option<Wallet>): Wallet {
    match w
    case Some(wallet) => wallet
    case None => Wallet(GRANT, 0, 0, 0, 0)
  }

  // ---- Sums over accepted effects ----

  function BalanceOf(e: Effect): int { e.change.balance }
  function NetOf(e: Effect): int { e.change.net }
  function PlayedOf(e: Effect): int { e.change.played }
  function WonOf(e: Effect): int { e.change.won }

  /** What the effects `s` change together. */
  ghost function SumOver(m: map<Id, Effect>, s: set<Id>): Delta
    requires s <= m.Keys
  {
    Delta(Over(m, BalanceOf, s), Over(m, NetOf, s), Over(m, PlayedOf, s), Over(m, WonOf, s))
  }

  lemma SumSplit(m: map<Id, Effect>, s: set<Id>, y: Id)
    requires s <= m.Keys && y in s
    ensures SumOver(m, s) == Plus(m[y].change, SumOver(m, s - {y}))
  {
    Split(m, BalanceOf, s, y);
    Split(m, NetOf, s, y);
    Split(m, PlayedOf, s, y);
    Split(m, WonOf, s, y);
  }

  lemma SumAgrees(m: map<Id, Effect>, n: map<Id, Effect>, s: set<Id>)
    requires s <= m.Keys && s <= n.Keys && forall x :: x in s ==> m[x] == n[x]
    ensures SumOver(m, s) == SumOver(n, s)
  {
    Agrees(m, n, BalanceOf, s);
    Agrees(m, n, NetOf, s);
    Agrees(m, n, PlayedOf, s);
    Agrees(m, n, WonOf, s);
  }

  lemma SumUnion(m: map<Id, Effect>, s: set<Id>, t: set<Id>)
    requires s + t <= m.Keys && s !! t
    ensures SumOver(m, s + t) == Plus(SumOver(m, s), SumOver(m, t))
  {
    Union(m, BalanceOf, s, t);
    Union(m, NetOf, s, t);
    Union(m, PlayedOf, s, t);
    Union(m, WonOf, s, t);
  }

  // ---- Ledger receipts ----

  /** What a ledger row says about itself. */
  datatype Details = Settlement | LegacySolo | Quarantined(original: Id)
  datatype Row = Row(delta: int, details: Details)

  /** The ledger keys to look up for `ids`: their own, and their quarantine keys. */
  function ReceiptIds(ids: set<Id>): set<Id> {
    ids + set x | x in ids :: Quarantine(x)
  }

  /** A settlement is committed under its own id, or under the quarantine id naming it. */
  predicate Committed(ledger: map<Id, Row>, id: Id) {
    || (id in ledger && !ledger[id].details.LegacySolo?)
    || (Quarantine(id) in ledger && ledger[Quarantine(id)].details == Quarantined(id))
  }

  function Uncommitted(ledger: map<Id, Row>, ids: set<Id>): set<Id> {
    set x | x in ids && !Committed(ledger, x)
  }

  /** The row a settlement writes: under its own id, or its quarantine id when a legacy receipt holds that. */
  function WriteReceipt(ledger: map<Id, Row>, id: Id, delta: int): Option<map<Id, Row>> {
    if id !in ledger then Some(ledger[id := Row(delta, Settlement)])
    else if ledger[id].details.LegacySolo? && Quarantine(id) !in ledger then
      Some(ledger[Quarantine(id) := Row(delta, Quarantined(id))])
    else None
  }

  /** Settlements carry random ids of their own, never a quarantine id. */
  ghost predicate Originals(ids: set<Id>) { forall x :: x in ids ==> x.derived == 0 }

  /** The ledger rows of one pending settlement: none of its own yet, or exactly one with its delta. */
  ghost predicate ReceiptOk(ledger: map<Id, Row>, id: Id, delta: int) {
    || (id !in ledger && Quarantine(id) !in ledger)
    || (id in ledger && ledger[id].details.LegacySolo?
        && (Quarantine(id) in ledger ==> ledger[Quarantine(id)] == Row(delta, Quarantined(id))))
    || (id in ledger && ledger[id] == Row(delta, Settlement) && Quarantine(id) !in ledger)
  }

  /**
   `committed_receipts`: the settlement among `ids`, if any, that one ledger row is a
   receipt for. Rows under a quarantine key must say whom they stand for.
   */
  function Evidence(ids: set<Id>, record: Id, row: Row): Option<Id> {
    if record.derived > 0 && record.(derived := record.derived - 1) in ids then
      var original := record.(derived := record.derived - 1);
      if row.details == Quarantined(original) then Some(original) else None
    else if row.details.LegacySolo? then None
    else Some(record)
  }

  /** `record` is among the rows fetched for the pending ids and proves `x` committed. */
  ghost predicate Proves(ids: set<Id>, ledger: map<Id, Row>, record: Id, x: Id) {
    record in ReceiptIds(ids) && record in ledger && Evidence(ids, record, ledger[record]) == Some(x)
  }

  ghost predicate Proven(ids: set<Id>, ledger: map<Id, Row>, x: Id) {
    exists record :: Proves(ids, ledger, record, x)
  }

  /** Why the receipt pass refuses a snapshot: a foreign or altered settlement, or one settled twice. */
  ghost predicate Inconsistent(pending: map<Id, Effect>, ledger: map<Id, Row>) {
    || (exists r: Id, x: Id :: Proves(pending.Keys, ledger, r, x)
          && (x in pending ==> pending[x].ledgerDelta != ledger[r].delta))
    || (exists r: Id, s: Id, x: Id :: r != s && Proves(pending.Keys, ledger, r, x) && Proves(pending.Keys, ledger, s, x))
  }

  /**
   The receipt pass of `read_user`: walk the rows fetched for the pending ids and
   collect the settlements they prove, refusing a mismatched delta or a repeat.
   */
  method CommittedReceipts(pending: map<Id, Effect>, ledger: map<Id, Row>)
    returns (seen: Option<set<Id>>)
    ensures seen.Some? ==> forall x :: x in seen.value <==> Proven(pending.Keys, ledger, x)
    ensures seen.None? ==> Inconsistent(pending, ledger)
  {
    var todo := ReceiptIds(pending.Keys) * ledger.Keys;
    ghost var done: set<Id> := {};
    var found: set<Id> := {};
    while todo != {}
      invariant todo + done == ReceiptIds(pending.Keys) * ledger.Keys && todo !! done
      invariant forall x :: x in found ==> exists r :: r in done && Proves(pending.Keys, ledger, r, x)
      invariant forall r, x :: r in done && Proves(pending.Keys, ledger, r, x) ==> x in found
      decreases todo
    {
      var record :| record in todo;
      var proof := Evidence(pending.Keys, record, ledger[record]);
      if proof.Some? {
        assert Proves(pending.Keys, ledger, record, proof.value);
        if proof.value !in pending
           || pending[proof.value].ledgerDelta != ledger[record].delta
           || proof.value in found
        {
          return None;
        }
        found := found + {proof.value};
      }
      todo, done := todo - {record}, done + {record};
    }
    seen := Some(found);
  }

  /**
   On a ledger written only by `WriteReceipt` for these settlements, the receipt
   pass never refuses and finds exactly the committed ones.
   */
  lemma ReceiptsFindCommitted(pending: map<Id, Effect>, ledger: map<Id, Row>)
    requires Originals(pending.Keys)
    requires forall x :: x in pending ==> ReceiptOk(ledger, x, pending[x].ledgerDelta)
    ensures !Inconsistent(pending, ledger)
    ensures forall x :: Proven(pending.Keys, ledger, x) <==> x in pending && Committed(ledger, x)
  {
    forall r: Id, x: Id | Proves(pending.Keys, ledger, r, x)
      ensures x in pending && Committed(ledger, x) && pending[x].ledgerDelta == ledger[r].delta
      ensures r == if x in ledger && !ledger[x].details.LegacySolo? then x else Quarantine(x)
    {
      ProofIsExact(pending, ledger, r, x);
    }
    forall x | x in pending && Committed(ledger, x) ensures Proven(pending.Keys, ledger, x) {
      var r := if x in ledger && !ledger[x].details.LegacySolo? then x else Quarantine(x);
      assert ReceiptOk(ledger, x, pending[x].ledgerDelta);
      assert Proves(pending.Keys, ledger, r, x);
    }
  }

  lemma ProofIsExact(pending: map<Id, Effect>, ledger: map<Id, Row>, r: Id, x: Id)
    requires Originals(pending.Keys)
    requires forall y :: y in pending ==> ReceiptOk(ledger, y, pending[y].ledgerDelta)
    requires Proves(pending.Keys, ledger, r, x)
    ensures x in pending && Committed(ledger, x) && pending[x].ledgerDelta == ledger[r].delta
    ensures r == if x in ledger && !ledger[x].details.LegacySolo? then x else Quarantine(x)
  {
    assert x in pending ==> ReceiptOk(ledger, x, pending[x].ledgerDelta);
  }

  /** Writing a receipt commits its settlement and touches no other pending one. */
  lemma ReceiptCommits(ledger: map<Id, Row>, ids: set<Id>, id: Id, delta: int)
    requires Originals(ids) && id in ids
    requires ReceiptOk(ledger, id, delta) && !Committed(ledger, id)
    ensures var next := WriteReceipt(ledger, id, delta);
            && next.Some?
            && Committed(next.value, id) && ReceiptOk(next.value, id, delta)
            && (forall y :: y in ids && y != id ==> Committed(next.value, y) == Committed(ledger, y))
            && (forall y: Id, d: int :: y in ids && y != id && ReceiptOk(ledger, y, d) ==>
                  ReceiptOk(next.value, y, d))
  {
    var next := WriteReceipt(ledger, id, delta).value;
    forall y: Id, d: int | y in ids && y != id && ReceiptOk(ledger, y, d)
      ensures ReceiptOk(next, y, d)
    {
    }
  }
}
