/**
 Revision-fenced settlement of a dealer room through its ordered writer
 (draw-games/src/casino_room.rs, `accept_change`, `persist` and `writer`).
 */
module RoomPersistence {
  import opened Outcomes
  import opened WriteBehind

  type UserId = nat

  /** One accepted change: its revision and the wallet deltas of the round it settles, if any. */
  datatype Snapshot = Snapshot(revision: nat, deltas: seq<(UserId, int)>)

  /** The room row's stored revision, the durable wallets, and every settlement ever applied. */
  datatype Db = Db(row: Option<nat>, wallets: map<UserId, int>, applied: seq<Snapshot>)

  /** How one attempt to persist ends: committed and acknowledged, committed but reported as an error, or failed. */
  datatype Ending = Acknowledged | AcknowledgementLost | NotCommitted

  /**
   The settlement statements of one round, in order: a player without a wallet is passed over,
   and a balance below zero fails the whole transaction.
   */
  function Settle(wallets: map<UserId, int>, deltas: seq<(UserId, int)>): Option<map<UserId, int>> {
    if deltas == [] then Some(wallets)
    else
      match Settle(wallets, deltas[..|deltas| - 1])
      case None => None
      case Some(before) =>
        var (user, delta) := deltas[|deltas| - 1];
        if user !in before then Some(before)
        else if before[user] + delta < 0 then None
        else Some(before[user := before[user] + delta])
  }

  /** The transaction of `persist`: the stored revision decides whether this change is still due. */
  predicate Due(db: Db, snap: Snapshot) { db.row.Some? && db.row.value < snap.revision }

  /** Still due, but some balance would go below zero. */
  predicate Overdrawn(db: Db, snap: Snapshot) { Due(db, snap) && Settle(db.wallets, snap.deltas).None? }

  function Transact(db: Db, snap: Snapshot): Db {
    if !Due(db, snap) then db
    else
      match Settle(db.wallets, snap.deltas)
      case None => db
      case Some(after) => Db(Some(snap.revision), after, db.applied + [snap])
  }

  class Database {
    var row: Option<nat>
    var wallets: map<UserId, int>
    ghost var applied: seq<Snapshot>

    ghost function View(): Db
      reads this
    {
      Db(row, wallets, applied)
    }

    /** One accepted change, exactly once: a retry whose first attempt committed finds its revision stored. */
    method Persist(snap: Snapshot, ending: Ending) returns (ok: bool)
      modifies this
      ensures View() == if ending.NotCommitted? then old(View()) else Transact(old(View()), snap)
      ensures ok <==> ending.Acknowledged? && !Overdrawn(old(View()), snap)
    {
      if ending.NotCommitted? { return false; }
      if row.None? || row.value >= snap.revision { return ending.Acknowledged?; }
      var after := wallets;
      for k := 0 to |snap.deltas|
        invariant View() == old(View())
        invariant Settle(wallets, snap.deltas[..k]) == Some(after)
      {
        assert snap.deltas[..k + 1][..k] == snap.deltas[..k];
        var (user, delta) := snap.deltas[k];
        if user in after {
          if after[user] + delta < 0 {
            StaysRefused(wallets, snap.deltas, k + 1);
            return false;
          }
          after := after[user := after[user] + delta];
        }
      }
      assert snap.deltas[..|snap.deltas|] == snap.deltas;
      row, wallets, applied := Some(snap.revision), after, applied + [snap];
      ok := ending.Acknowledged?;
    }
  }

  lemma {:induction false} StaysRefused(wallets: map<UserId, int>, deltas: seq<(UserId, int)>, k: nat)
    requires k <= |deltas| && Settle(wallets, deltas[..k]).None?
    ensures Settle(wallets, deltas).None?
  {
    if k < |deltas| {
      assert deltas[..|deltas| - 1][..k] == deltas[..k];
      StaysRefused(wallets, deltas[..|deltas| - 1], k);
    } else {
      assert deltas[..k] == deltas;
    }
  }

  // ---- What a settlement pays ----

  /** What a round pays one player: the sum of the deltas that name them. */
  function Paid(deltas: seq<(UserId, int)>, user: UserId): int {
    if deltas == [] then 0
    else Paid(deltas[..|deltas| - 1], user) + if deltas[|deltas| - 1].0 == user then deltas[|deltas| - 1].1 else 0
  }

  function PaidByAll(snaps: seq<Snapshot>, user: UserId): int {
    if snaps == [] then 0 else PaidByAll(snaps[..|snaps| - 1], user) + Paid(snaps[|snaps| - 1].deltas, user)
  }

  /** Nobody's balance goes below zero at any point of the settlement. */
  ghost predicate NeverBelowZero(wallets: map<UserId, int>, deltas: seq<(UserId, int)>) {
    forall k: nat :: 0 < k <= |deltas| ==> Affordable(wallets, deltas, k)
  }

  /** After `k` statements the player just settled is not below zero. */
  ghost predicate Affordable(wallets: map<UserId, int>, deltas: seq<(UserId, int)>, k: nat)
    requires 0 < k <= |deltas|
  {
    var user := deltas[k - 1].0;
    user in wallets ==> wallets[user] + Paid(deltas[..k], user) >= 0
  }

  /** A round is settled exactly if nobody goes below zero on the way, and then everybody with a wallet has their deltas added. */
  lemma {:induction false} SettlePays(wallets: map<UserId, int>, deltas: seq<(UserId, int)>)
    ensures Settle(wallets, deltas).Some? <==> NeverBelowZero(wallets, deltas)
    ensures Settle(wallets, deltas).Some? ==>
              var after := Settle(wallets, deltas).value;
              after.Keys == wallets.Keys && forall u :: u in wallets ==> after[u] == wallets[u] + Paid(deltas, u)
  {
    if deltas != [] {
      var n, front := |deltas|, deltas[..|deltas| - 1];
      SettlePays(wallets, front);
      assert deltas[..n] == deltas;
      forall k: nat | 0 < k < n ensures Affordable(wallets, deltas, k) == Affordable(wallets, front, k) {
        assert deltas[..k] == front[..k];
      }
      if Settle(wallets, front).Some? {
        assert Affordable(wallets, deltas, n) <==> Settle(wallets, deltas).Some?;
      }
    }
  }

  /** The durable wallets hold what every player started with and all they were paid. */
  ghost predicate Holds(wallets: map<UserId, int>, snaps: seq<Snapshot>, now: map<UserId, int>) {
    now.Keys == wallets.Keys && forall u :: u in wallets ==> now[u] == wallets[u] + PaidByAll(snaps, u)
  }

  ghost predicate Solvent(wallets: map<UserId, int>) { forall u :: u in wallets ==> wallets[u] >= 0 }

  lemma SettleHolds(wallets: map<UserId, int>, snaps: seq<Snapshot>, now: map<UserId, int>, snap: Snapshot)
    requires Holds(wallets, snaps, now) && Settle(now, snap.deltas).Some?
    ensures Holds(wallets, snaps + [snap], Settle(now, snap.deltas).value)
  {
    SettlePays(now, snap.deltas);
    assert (snaps + [snap])[..|snaps|] == snaps;
  }

  lemma {:induction false} SettleStaysSolvent(wallets: map<UserId, int>, deltas: seq<(UserId, int)>)
    requires Solvent(wallets) && Settle(wallets, deltas).Some?
    ensures Solvent(Settle(wallets, deltas).value)
  {
    if deltas != [] { SettleStaysSolvent(wallets, deltas[..|deltas| - 1]); }
  }

  // ---- A room, its writer and the database ----

  datatype Room = Room(revision: nat, writer: Writer<Snapshot>, db: Db)

  datatype Event =
    | Change(deltas: seq<(UserId, int)>)
    | TakeHead
    | Attempt(ending: Ending)
    | DeleteRow

  function OpenRoom(revision: nat, wallets: map<UserId, int>): Room {
    Room(revision, Open(Snapshot(revision, [])), Db(Some(revision), wallets, []))
  }

  function StepRoom(r: Room, e: Event): Option<Room> {
    match e
    case Change(deltas) =>
      // queued first: a writer that refuses leaves the room as it was
      var snap := Snapshot(r.revision + 1, deltas);
      (match Accept(r.writer, snap)
       case None => None
       case Some(w) => Some(r.(revision := snap.revision, writer := w)))
    case TakeHead =>
      (match TakeNext(r.writer)
       case None => None
       case Some(w) => Some(r.(writer := w)))
    case Attempt(ending) =>
      if r.writer.head.None? || r.writer.fenced then None
      else
        var db := if ending.NotCommitted? then r.db else Transact(r.db, r.writer.head.value.batch.value);
        // the writer's closure returns the snapshot it was given
        var snap := r.writer.head.value.batch.value;
        var outcome := if ending.Acknowledged? && !Overdrawn(r.db, snap) then Saved(snap) else Failed;
        Some(r.(writer := Step(r.writer, outcome).value, db := db))
    case DeleteRow => Some(r.(db := r.db.(row := None)))
  }

  function RunRoom(r: Room, es: seq<Event>): Option<Room> {
    if es == [] then Some(r)
    else
      match RunRoom(r, es[..|es| - 1])
      case None => None
      case Some(s) => StepRoom(s, es[|es| - 1])
  }

  // ---- Exactly once, in revision order ----

  ghost predicate Numbered(base: nat, snaps: seq<Snapshot>) {
    forall i :: 0 <= i < |snaps| ==> snaps[i].revision == base + 1 + i
  }

  /** The writer never folds items, so its head is the next accepted change itself. */
  ghost predicate Unmerged(w: Writer<Snapshot>) {
    && w.carry.None?
    && (w.head.Some? ==>
          && |w.head.value.batch.parts| == 1
          && w.head.value.batch.value == w.head.value.batch.parts[0])
  }

  /**
   While the row exists, exactly the changes up to its revision have been applied, each once
   and in order. At most the change being written is ahead of what was acknowledged.
   */
  ghost predicate Exact(base: nat, wallets: map<UserId, int>, accepted: seq<Snapshot>, progress: nat, writing: bool, db: Db) {
    db.row.Some? ==>
      && base + progress <= db.row.value <= base + progress + (if writing then 1 else 0)
      && db.row.value - base <= |accepted|
      && db.applied == accepted[..db.row.value - base]
      && Holds(wallets, db.applied, db.wallets)
      && (Solvent(wallets) ==> Solvent(db.wallets))
  }

  lemma ExactAfterAccept(base: nat, wallets: map<UserId, int>, accepted: seq<Snapshot>, snap: Snapshot, progress: nat, writing: bool, db: Db)
    requires Exact(base, wallets, accepted, progress, writing, db)
    ensures Exact(base, wallets, accepted + [snap], progress, writing, db)
  {
    if db.row.Some? {
      assert (accepted + [snap])[..db.row.value - base] == accepted[..db.row.value - base];
    }
  }

  /** A first attempt applies the change, if it is covered; a retry after a lost acknowledgement finds it applied. */
  lemma ExactAfterTransact(base: nat, wallets: map<UserId, int>, accepted: seq<Snapshot>, progress: nat, db: Db)
    requires Exact(base, wallets, accepted, progress, true, db)
    requires progress < |accepted| && accepted[progress].revision == base + 1 + progress
    ensures Exact(base, wallets, accepted, progress, true, Transact(db, accepted[progress]))
    ensures !Overdrawn(db, accepted[progress]) ==> Exact(base, wallets, accepted, progress + 1, false, Transact(db, accepted[progress]))
  {
    var snap := accepted[progress];
    if Due(db, snap) && Settle(db.wallets, snap.deltas).Some? {
      assert accepted[..progress + 1] == accepted[..progress] + [snap];
      SettleHolds(wallets, db.applied, db.wallets, snap);
      if Solvent(wallets) { SettleStaysSolvent(db.wallets, snap.deltas); }
    }
  }

  /** The head is the change whose sequence follows everything saved. */
  lemma HeadIsNext(w: Writer<Snapshot>)
    requires Valid(w) && Unmerged(w) && w.head.Some?
    ensures w.progress < |w.accepted| && w.head.value.batch.value == w.accepted[w.progress]
    ensures w.head.value.sequence == w.progress + 1
  {
    assert w.accepted[w.progress] == HeadParts(w)[0];
  }

  ghost predicate Inv(base: nat, wallets: map<UserId, int>, r: Room) {
    && Valid(r.writer) && Unmerged(r.writer)
    && Numbered(base, r.writer.accepted)
    && r.revision == base + |r.writer.accepted|
    && Exact(base, wallets, r.writer.accepted, r.writer.progress, r.writer.head.Some?, r.db)
  }

  lemma NumberedAppend(base: nat, snaps: seq<Snapshot>, snap: Snapshot)
    requires Numbered(base, snaps) && snap.revision == base + 1 + |snaps|
    ensures Numbered(base, snaps + [snap])
  {
  }

  lemma AcceptUnmerged(w: Writer<Snapshot>, snap: Snapshot)
    requires Unmerged(w) && Accept(w, snap).Some?
    ensures var next := Accept(w, snap).value;
            && Unmerged(next) && next.accepted == w.accepted + [snap]
            && next.progress == w.progress && next.head == w.head
  {
  }

  lemma ChangeKeeps(base: nat, wallets: map<UserId, int>, r: Room, deltas: seq<(UserId, int)>)
    requires Inv(base, wallets, r) && StepRoom(r, Change(deltas)).Some?
    ensures Inv(base, wallets, StepRoom(r, Change(deltas)).value)
  {
    ChangeQueues(r, deltas);
    SnapshotKeeps(base, wallets, r, Snapshot(r.revision + 1, deltas));
  }

  lemma ChangeQueues(r: Room, deltas: seq<(UserId, int)>)
    requires StepRoom(r, Change(deltas)).Some?
    ensures var snap := Snapshot(r.revision + 1, deltas);
            && Accept(r.writer, snap).Some?
            && StepRoom(r, Change(deltas)).value == r.(revision := snap.revision, writer := Accept(r.writer, snap).value)
  {
  }

  lemma SnapshotKeeps(base: nat, wallets: map<UserId, int>, r: Room, snap: Snapshot)
    requires Inv(base, wallets, r) && snap.revision == r.revision + 1 && Accept(r.writer, snap).Some?
    ensures Inv(base, wallets, r.(revision := snap.revision, writer := Accept(r.writer, snap).value))
  {
    AcceptKeeps(r.writer, snap);
    AcceptUnmerged(r.writer, snap);
    AcceptedInv(base, wallets, r, snap, Accept(r.writer, snap).value);
  }

  lemma AcceptedInv(base: nat, wallets: map<UserId, int>, r: Room, snap: Snapshot, w: Writer<Snapshot>)
    requires Inv(base, wallets, r) && snap.revision == r.revision + 1 && Valid(w) && Unmerged(w)
    requires w.accepted == r.writer.accepted + [snap] && w.progress == r.writer.progress && w.head == r.writer.head
    ensures Inv(base, wallets, r.(revision := snap.revision, writer := w))
  {
    NumberedAppend(base, r.writer.accepted, snap);
    ExactAfterAccept(base, wallets, r.writer.accepted, snap, r.writer.progress, r.writer.head.Some?, r.db);
  }

  lemma AttemptKeeps(base: nat, wallets: map<UserId, int>, r: Room, ending: Ending)
    requires Inv(base, wallets, r) && StepRoom(r, Attempt(ending)).Some?
    ensures Inv(base, wallets, StepRoom(r, Attempt(ending)).value)
  {
    HeadIsNext(r.writer);
    var snap := r.writer.head.value.batch.value;
    StepKeeps(r.writer, if ending.Acknowledged? && !Overdrawn(r.db, snap) then Saved(snap) else Failed);
    ExactAfterTransact(base, wallets, r.writer.accepted, r.writer.progress, r.db);
  }

  lemma StepRoomKeeps(base: nat, wallets: map<UserId, int>, r: Room, e: Event)
    requires Inv(base, wallets, r) && StepRoom(r, e).Some?
    ensures Inv(base, wallets, StepRoom(r, e).value)
  {
    match e
    case Change(deltas) => ChangeKeeps(base, wallets, r, deltas);
    case TakeHead => TakeKeeps(r.writer);
    case Attempt(ending) => AttemptKeeps(base, wallets, r, ending);
    case DeleteRow =>
  }

  /** A room whose writer has accepted nothing, over a row at its own revision. */
  lemma FreshRoomInv(base: nat, wallets: map<UserId, int>, r: Room)
    requires Valid(r.writer) && r.writer.accepted == [] && r.writer.progress == 0
    requires r.writer.head.None? && r.writer.carry.None?
    requires r.revision == base && r.db.row == Some(base) && r.db.applied == [] && r.db.wallets == wallets
    ensures Inv(base, wallets, r)
  {
    assert Holds(wallets, [], wallets);
  }

  lemma OpenRoomInv(base: nat, wallets: map<UserId, int>)
    ensures Inv(base, wallets, OpenRoom(base, wallets))
  {
    var r := OpenRoom(base, wallets);
    OpenIsValid(Snapshot(base, []));
    FreshRoomInv(base, wallets, r);
  }

  lemma {:induction false} RunRoomKeeps(base: nat, wallets: map<UserId, int>, es: seq<Event>)
    requires RunRoom(OpenRoom(base, wallets), es).Some?
    ensures Inv(base, wallets, RunRoom(OpenRoom(base, wallets), es).value)
  {
    if es == [] {
      OpenRoomInv(base, wallets);
    } else {
      RunRoomKeeps(base, wallets, es[..|es| - 1]);
      StepRoomKeeps(base, wallets, RunRoom(OpenRoom(base, wallets), es[..|es| - 1]).value, es[|es| - 1]);
    }
  }

  /**
   Under arbitrary failures, lost acknowledgements and retries, while the room row exists:
   the settlements applied to the durable wallets are exactly the accepted changes up to
   the stored revision, each once and in revision order; everything reported saved is among
   them; and once the queue is drained, they are all of the accepted changes. Every player's
   durable balance is what it was plus the sum of what those changes pay them, never below zero.
   */
  lemma SettledExactlyOnce(base: nat, wallets: map<UserId, int>, es: seq<Event>)
    requires RunRoom(OpenRoom(base, wallets), es).Some?
    requires RunRoom(OpenRoom(base, wallets), es).value.db.row.Some?
    ensures var r := RunRoom(OpenRoom(base, wallets), es).value;
            && r.db.applied <= r.writer.accepted
            && |r.db.applied| == r.db.row.value - base
            && (forall i :: 0 <= i < |r.db.applied| ==> r.db.applied[i].revision == base + 1 + i)
            && r.db.wallets.Keys == wallets.Keys
            && (forall u :: u in wallets ==>
                  r.db.wallets[u] == wallets[u] + PaidByAll(r.writer.accepted[..r.db.row.value - base], u))
            && (Solvent(wallets) ==> Solvent(r.db.wallets))
            && r.writer.progress <= |r.db.applied| <= r.writer.progress + 1
            && (r.writer.progress == |r.writer.accepted| ==> r.db.applied == r.writer.accepted)
  {
    RunRoomKeeps(base, wallets, es);
    var r := RunRoom(OpenRoom(base, wallets), es).value;
    assert forall i :: 0 <= i < |r.db.applied| ==> r.db.applied[i] == r.writer.accepted[i];
  }
}
