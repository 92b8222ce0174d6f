/**
 Wager reservations of one table between acceptance and commit
 (draw-games/src/beans_reservations.rs, `sicbo_accepted` and `sicbo_commit`).
 */
module SicboReservations {
  import opened Outcomes

  type UserId = nat

  /** The part of a room snapshot that reserves beans: open bean wagers, none once it has a result. */
  datatype Snapshot = Snapshot(revision: nat, bets: map<UserId, nat>)

  /** The reservation entry of the room: the latest accepted revision and the amount held per user. */
  type Entry = Option<(nat, map<UserId, nat>)>

  function Stake(bets: map<UserId, nat>, user: UserId): nat { if user in bets then bets[user] else 0 }

  function Held(e: Entry, user: UserId): nat { if e.Some? then Stake(e.value.1, user) else 0 }

  /** The larger of the held and the new wager, user by user. */
  function Larger(held: map<UserId, nat>, bets: map<UserId, nat>): map<UserId, nat> {
    map u | u in held.Keys + bets.Keys :: Max(Stake(held, u), Stake(bets, u))
  }

  function Accepted(e: Entry, s: Snapshot): Entry {
    Some((s.revision, Larger(if e.Some? then e.value.1 else map[], s.bets)))
  }

  function Committed(e: Entry, s: Snapshot): Entry {
    if e.Some? && e.value.0 > s.revision then e
    else if s.bets == map[] then None
    else Some((s.revision, s.bets))
  }

  class Reservation {
    var entry: Entry

    constructor ()
      ensures entry == None
    {
      entry := None;
    }

    /** Until the snapshot commits, retain the larger old or new wager. */
    method SicboAccepted(s: Snapshot)
      modifies this
      ensures entry == Accepted(old(entry), s)
    {
      var held: map<UserId, nat> := if entry.Some? then entry.value.1 else map[];
      ghost var before := held;
      var todo := s.bets.Keys;
      while todo != {}
        invariant todo <= s.bets.Keys
        invariant held.Keys == before.Keys + (s.bets.Keys - todo)
        invariant forall u :: u in held ==>
                    held[u] == if u in todo then Stake(before, u) else Max(Stake(before, u), Stake(s.bets, u))
        decreases todo
      {
        var user :| user in todo;
        var amount := if user in held then held[user] else 0;
        held := held[user := Max(amount, s.bets[user])];
        todo := todo - {user};
      }
      assert held == Larger(before, s.bets);
      entry := Some((s.revision, held));
    }

    method SicboCommit(s: Snapshot)
      modifies this
      ensures entry == Committed(old(entry), s)
    {
      if entry.Some? && entry.value.0 > s.revision { return; }
      entry := if s.bets == map[] then None else Some((s.revision, s.bets));
    }
  }

  // ---- Runs of one room ----

  /**
   The durable snapshot, the accepted ones the writer has not finished with, whether the first
   of those is already durable, and the reservation entry.
   */
  datatype Room = Room(durable: Snapshot, queue: seq<Snapshot>, committed: bool, entry: Entry)

  /** A commit may lose its acknowledgement; the retry finds it done, and only then is it reported. */
  datatype Event = Accept(snapshot: Snapshot) | SqlCommit | Report | ReportAgain

  function LatestRevision(r: Room): nat {
    if r.queue == [] then r.durable.revision else r.queue[|r.queue| - 1].revision
  }

  /** Acceptance in increasing revision order; commits and their reports from the front. */
  function Step(r: Room, e: Event): Option<Room> {
    match e
    case Accept(s) =>
      if s.revision <= LatestRevision(r) then None
      else Some(r.(queue := r.queue + [s], entry := Accepted(r.entry, s)))
    case SqlCommit =>
      if r.queue == [] then None else Some(r.(durable := r.queue[0], committed := true))
    case Report =>
      if r.queue == [] || !r.committed then None
      else Some(Room(r.durable, r.queue[1..], false, Committed(r.entry, r.queue[0])))
    case ReportAgain => Some(r.(entry := Committed(r.entry, r.durable)))
  }

  function Hydrated(durable: Snapshot): Room { Room(durable, [], false, Committed(None, durable)) }

  function Run(r: Room, es: seq<Event>): Option<Room> {
    if es == [] then Some(r)
    else
      match Run(r, es[..|es| - 1])
      case None => None
      case Some(s) => Step(s, es[|es| - 1])
  }

  /** The snapshots accepted and not yet durable. */
  function Waiting(r: Room): seq<Snapshot> { if r.committed && r.queue != [] then r.queue[1..] else r.queue }

  ghost predicate Ascending(r: Room) {
    && (r.committed ==> r.queue != [] && r.durable == r.queue[0])
    && (!r.committed ==> forall i :: 0 <= i < |r.queue| ==> r.durable.revision < r.queue[i].revision)
    && (forall i, j :: 0 <= i < j < |r.queue| ==> r.queue[i].revision < r.queue[j].revision)
  }

  /** The entry holds every durable and pending wager, and nothing more once all is reported. */
  ghost predicate Covered(r: Room) {
    && (forall u :: Stake(r.durable.bets, u) <= Held(r.entry, u))
    && (forall i, u :: 0 <= i < |r.queue| ==> Stake(r.queue[i].bets, u) <= Held(r.entry, u))
    && (r.entry.Some? ==> r.entry.value.0 == LatestRevision(r))
    && (|Waiting(r)| > 0 ==> r.entry.Some?)
    && (r.queue == [] ==> forall u :: Held(r.entry, u) == Stake(r.durable.bets, u))
  }

  lemma AcceptRaises(e: Entry, s: Snapshot, user: UserId)
    ensures Held(e, user) <= Held(Accepted(e, s), user) && Stake(s.bets, user) <= Held(Accepted(e, s), user)
  {
  }

  lemma AcceptAscends(r: Room, s: Snapshot)
    requires Ascending(r) && LatestRevision(r) < s.revision
    ensures Ascending(Step(r, Accept(s)).value)
  {
    if !r.committed && r.queue != [] { assert r.durable.revision < r.queue[|r.queue| - 1].revision; }
  }

  lemma AcceptKeeps(r: Room, s: Snapshot)
    requires Ascending(r) && Covered(r) && LatestRevision(r) < s.revision
    ensures Ascending(Step(r, Accept(s)).value) && Covered(Step(r, Accept(s)).value)
  {
    AcceptAscends(r, s);
    forall u ensures Held(r.entry, u) <= Held(Accepted(r.entry, s), u) && Stake(s.bets, u) <= Held(Accepted(r.entry, s), u) {
      AcceptRaises(r.entry, s, u);
    }
  }

  lemma SqlCommitKeeps(r: Room)
    requires Ascending(r) && Covered(r) && r.queue != []
    ensures Ascending(Step(r, SqlCommit).value) && Covered(Step(r, SqlCommit).value)
  {
  }

  lemma ReportKeeps(r: Room)
    requires Ascending(r) && Covered(r) && r.committed
    ensures Ascending(Step(r, Report).value) && Covered(Step(r, Report).value)
  {
    var t := Step(r, Report).value;
    assert forall i :: 0 <= i < |t.queue| ==> t.queue[i] == r.queue[i + 1];
    if |r.queue| > 1 {
      assert r.queue[0].revision < r.queue[|r.queue| - 1].revision;
      assert Waiting(r)[0] == r.queue[1];
    }
  }

  lemma ReportAgainKeeps(r: Room)
    requires Ascending(r) && Covered(r)
    ensures Ascending(Step(r, ReportAgain).value) && Covered(Step(r, ReportAgain).value)
  {
    if r.queue != [] { assert !r.committed ==> r.durable.revision < r.queue[|r.queue| - 1].revision; }
    if |r.queue| > 1 { assert r.queue[0].revision < r.queue[|r.queue| - 1].revision; }
  }

  lemma {:induction false} RunKeeps(r: Room, es: seq<Event>)
    requires Ascending(r) && Covered(r) && Run(r, es).Some?
    ensures Ascending(Run(r, es).value) && Covered(Run(r, es).value)
  {
    if es != [] {
      RunKeeps(r, es[..|es| - 1]);
      var s := Run(r, es[..|es| - 1]).value;
      match es[|es| - 1]
      case Accept(snapshot) => AcceptKeeps(s, snapshot);
      case SqlCommit => SqlCommitKeeps(s);
      case Report => ReportKeeps(s);
      case ReportAgain => ReportAgainKeeps(s);
    }
  }

  /**
   Over every run, a user's reservation covers the wager in the durable snapshot and in
   every accepted snapshot that is not durable yet, and equals the durable wager once
   every commit has been reported.
   */
  lemma WagersStayReserved(durable: Snapshot, es: seq<Event>, user: UserId)
    requires Run(Hydrated(durable), es).Some?
    ensures var r := Run(Hydrated(durable), es).value;
            && Stake(r.durable.bets, user) <= Held(r.entry, user)
            && (forall i :: 0 <= i < |Waiting(r)| ==> Stake(Waiting(r)[i].bets, user) <= Held(r.entry, user))
            && (r.queue == [] ==> Held(r.entry, user) == Stake(r.durable.bets, user))
  {
    RunKeeps(Hydrated(durable), es);
  }

  /**
   A reservation shrinks only on the report of a commit, when nothing newer waits, and then to
   the wager of a snapshot that was durable before the report came.
   */
  lemma ReleasedOnlyByCommit(durable: Snapshot, es: seq<Event>, e: Event, user: UserId)
    requires Run(Hydrated(durable), es).Some? && Step(Run(Hydrated(durable), es).value, e).Some?
    ensures var r := Run(Hydrated(durable), es).value;
            var t := Step(r, e).value;
            Held(t.entry, user) < Held(r.entry, user) ==>
              && (e.Report? || e.ReportAgain?) && Waiting(r) == []
              && Held(t.entry, user) == Stake(r.durable.bets, user)
  {
    RunKeeps(Hydrated(durable), es);
    var r := Run(Hydrated(durable), es).value;
    match e
    case Accept(s) =>
      assert Held(r.entry, user) <= Held(Step(r, e).value.entry, user);
    case SqlCommit =>
    case Report =>
      if |r.queue| > 1 { assert r.queue[0].revision < r.queue[|r.queue| - 1].revision; }
    case ReportAgain =>
      if r.queue != [] { assert !r.committed ==> r.durable.revision < r.queue[|r.queue| - 1].revision; }
      if |r.queue| > 1 { assert r.queue[0].revision < r.queue[|r.queue| - 1].revision; }
  }

  // ---- What a reservation is made of ----

  /** Nothing accepted is newer than the snapshot whose commit is reported. */
  predicate NothingNewer(r: Room) { Waiting(r) == [] }

  /**
   The snapshots a reservation answers for: the last one released to, and those accepted since.
   A report releases everything before its snapshot once nothing newer waits.
   */
  function Backing(durable: Snapshot, es: seq<Event>): seq<Snapshot> {
    if es == [] then [durable]
    else
      var before, r := Backing(durable, es[..|es| - 1]), Run(Hydrated(durable), es[..|es| - 1]);
      match es[|es| - 1]
      case Accept(s) => before + [s]
      case SqlCommit => before
      case _ => if r.Some? && NothingNewer(r.value) then [r.value.durable] else before
  }

  function LargestStake(snaps: seq<Snapshot>, user: UserId): nat {
    if snaps == [] then 0
    else Max(LargestStake(snaps[..|snaps| - 1], user), Stake(snaps[|snaps| - 1].bets, user))
  }

  lemma AcceptedHolds(e: Entry, s: Snapshot, user: UserId)
    ensures Held(Accepted(e, s), user) == Max(Held(e, user), Stake(s.bets, user))
  {
  }

  lemma ReleasedHolds(e: Entry, s: Snapshot, user: UserId)
    ensures (e.None? || e.value.0 <= s.revision) ==> Held(Committed(e, s), user) == Stake(s.bets, user)
    ensures e.Some? && e.value.0 > s.revision ==> Committed(e, s) == e
  {
  }

  lemma OnlyOne(s: Snapshot, user: UserId)
    ensures LargestStake([s], user) == Stake(s.bets, user)
  {
    assert [s][..0] == [];
    assert LargestStake([s][..0], user) == 0;
  }

  /** Reports release exactly when nothing newer waits. */
  lemma ReportReleases(r: Room, e: Event, user: UserId)
    requires Ascending(r) && Covered(r) && (e.Report? || e.ReportAgain?) && Step(r, e).Some?
    ensures Held(Step(r, e).value.entry, user) == if NothingNewer(r) then Stake(r.durable.bets, user) else Held(r.entry, user)
  {
    var s := if e.Report? then r.queue[0] else r.durable;
    assert s == r.durable;
    if NothingNewer(r) {
      assert LatestRevision(r) == r.durable.revision;
    } else {
      assert r.queue[|r.queue| - 1].revision > r.durable.revision;
      assert r.entry.Some?;
    }
    ReleasedHolds(r.entry, s, user);
  }

  /**
   Over every run a user's reservation is exactly the largest wager among the snapshots it
   answers for: never less, and never more.
   */
  lemma {:induction false} ReservedExactly(durable: Snapshot, es: seq<Event>, user: UserId)
    requires Run(Hydrated(durable), es).Some?
    ensures Held(Run(Hydrated(durable), es).value.entry, user) == LargestStake(Backing(durable, es), user)
  {
    if es == [] {
      OnlyOne(durable, user);
      ReleasedHolds(None, durable, user);
    } else {
      var front, e := es[..|es| - 1], es[|es| - 1];
      var r := Run(Hydrated(durable), front).value;
      ReservedExactly(durable, front, user);
      RunKeeps(Hydrated(durable), front);
      match e
      case Accept(s) =>
        var before := Backing(durable, front);
        assert (before + [s])[..|before|] == before;
        AcceptedHolds(r.entry, s, user);
      case SqlCommit =>
      case _ =>
        ReportReleases(r, e, user);
        OnlyOne(r.durable, user);
    }
  }
}
