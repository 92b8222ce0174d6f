/** Side-pot layering (engine/src/round.rs, `side_pots`) against its declarative meaning. */
module SidePots {
  import opened Outcomes
  import opened Betting
  import opened BettingInvariant
  import opened SortedLists

  datatype SidePot = SidePot(cap: nat, amount: nat, eligible: seq<PlayerId>, refundTo: seq<PlayerId>)

  // ---- The declarative specification ----

  /** Chips of all players up to a cap: the sum of min(c_q, cap). */
  function Capped(ps: seq<PlayerState>, cap: nat): nat {
    if ps == [] then 0 else Capped(ps[..|ps| - 1], cap) + Min(ps[|ps| - 1].contributed, cap)
  }

  /** Largest contribution of anyone but seat `i`, folded players included. */
  function MaxOther(ps: seq<PlayerState>, i: int): nat {
    if ps == [] then 0
    else
      var m := MaxOther(ps[..|ps| - 1], i);
      if i == |ps| - 1 then m else Max(m, ps[|ps| - 1].contributed)
  }

  function Total(pots: seq<SidePot>): nat {
    if pots == [] then 0 else Total(pots[..|pots| - 1]) + pots[|pots| - 1].amount
  }

  /** What a player can win: the pots that list them as eligible. */
  function Winnable(pots: seq<SidePot>, id: PlayerId): nat {
    if pots == [] then 0
    else
      var last := pots[|pots| - 1];
      Winnable(pots[..|pots| - 1], id) + if id in last.eligible then last.amount else 0
  }

  function Refunded(pots: seq<SidePot>, id: PlayerId): nat {
    if pots == [] then 0
    else
      var last := pots[|pots| - 1];
      Refunded(pots[..|pots| - 1], id) + if id in last.refundTo then last.amount else 0
  }

  // ---- The layering ----

  function Contributions(ps: seq<PlayerState>): seq<nat> {
    seq(|ps|, i requires 0 <= i < |ps| => ps[i].contributed)
  }

  /** The distinct contributions in increasing order. */
  function Levels(ps: seq<PlayerState>): (r: seq<nat>)
    ensures StrictlyIncreasing(r)
  {
    SortDedup(Contributions(ps))
  }

  /** Ids of the players who put in at least `level`, in seat order. */
  function Reaching(ps: seq<PlayerState>, level: nat, liveOnly: bool): seq<PlayerId> {
    if ps == [] then []
    else
      var p := ps[|ps| - 1];
      Reaching(ps[..|ps| - 1], level, liveOnly)
      + if p.contributed >= level && (liveOnly ==> !p.folded) then [p.playerId] else []
  }

  /** Chips between two levels. */
  function SliceAmount(ps: seq<PlayerState>, prev: nat, level: nat): nat {
    if ps == [] then 0
    else
      var c := ps[|ps| - 1].contributed;
      SliceAmount(ps[..|ps| - 1], prev, level) + if c <= prev then 0 else Min(Monus(level, prev), c - prev)
  }

  /** The pot, if any, of a level with this amount, these unfolded players who reached it and these contributors. */
  function PotOf(level: nat, amount: nat, eligible: seq<PlayerId>, contributors: seq<PlayerId>): seq<SidePot> {
    if level == 0 || amount == 0 then []
    else if eligible != [] then
      [SidePot(level, amount, eligible, if |eligible| == 1 && contributors == eligible then eligible else [])]
    else if contributors != [] then [SidePot(level, amount, [], contributors)]
    else []
  }

  /** The pot, if any, between two consecutive levels. */
  function Layer(ps: seq<PlayerState>, prev: nat, level: nat): seq<SidePot> {
    PotOf(level, SliceAmount(ps, prev, level), Reaching(ps, level, true), Reaching(ps, prev + 1, false))
  }

  function Layers(ps: seq<PlayerState>, ls: seq<nat>): seq<SidePot> {
    if ls == [] then []
    else
      var below := ls[..|ls| - 1];
      Layers(ps, below) + Layer(ps, Top(below), Top(ls))
  }

  function Pots(ps: seq<PlayerState>): seq<SidePot> {
    if Sum(ps, InHandW) == 0 then [] else Layers(ps, Levels(ps))
  }

  /** The loop of `side_pots` over the sorted, deduplicated levels. */
  method ComputeSidePots(ps: seq<PlayerState>) returns (pots: seq<SidePot>)
    ensures pots == Pots(ps)
  {
    pots := [];
    if Sum(ps, InHandW) == 0 { return; }
    var levels := Levels(ps);
    if levels == [] || levels == [0] {
      if levels == [0] { LayersStep(ps, levels, 0); }
      return;
    }
    var prev: nat := 0;
    for k := 0 to |levels|
      invariant prev == Top(levels[..k])
      invariant pots == Layers(ps, levels[..k])
    {
      LayersStep(ps, levels, k);
      var level := levels[k];
      var layer := BuildLayer(ps, prev, level);
      pots := pots + layer;
      prev := level;
    }
    assert levels[..|levels|] == levels;
  }

  /** One turn of the loop: nothing, or the pot between two neighbouring levels. */
  method BuildLayer(ps: seq<PlayerState>, prev: nat, level: nat) returns (layer: seq<SidePot>)
    ensures layer == Layer(ps, prev, level)
  {
    layer := [];
    if level == 0 { return; }
    var amount := SliceAmount(ps, prev, level);
    var eligible := Reaching(ps, level, true);
    if amount == 0 { return; }
    var contributors := Reaching(ps, prev + 1, false);
    if eligible != [] {
      var refundTo := if |eligible| == 1 && contributors == eligible then eligible else [];
      layer := [SidePot(level, amount, eligible, refundTo)];
    } else if contributors != [] {
      layer := [SidePot(level, amount, [], contributors)];
    }
  }

  lemma LayersStep(ps: seq<PlayerState>, ls: seq<nat>, k: nat)
    requires k < |ls|
    ensures ls[k] == Top(ls[..k + 1])
    ensures Layers(ps, ls[..k + 1]) == Layers(ps, ls[..k]) + Layer(ps, Top(ls[..k]), ls[k])
  {
    assert ls[..k + 1][..k] == ls[..k];
  }

  // ---- Refinement ----

  lemma {:induction false} SliceIsDifference(ps: seq<PlayerState>, prev: nat, level: nat)
    requires prev <= level
    ensures SliceAmount(ps, prev, level) == Capped(ps, level) - Capped(ps, prev)
  {
    if ps != [] { SliceIsDifference(ps[..|ps| - 1], prev, level); }
  }

  /** No contribution lies strictly between the two levels. */
  ghost predicate Neighbours(ps: seq<PlayerState>, prev: nat, level: nat) {
    prev < level && forall i :: 0 <= i < |ps| ==> ps[i].contributed <= prev || level <= ps[i].contributed
  }

  /** A layer is the slice times the number of its contributors. */
  lemma {:induction false} SliceIsProduct(ps: seq<PlayerState>, prev: nat, level: nat)
    requires Neighbours(ps, prev, level)
    ensures SliceAmount(ps, prev, level) == (level - prev) * |Reaching(ps, prev + 1, false)|
  {
    if ps != [] {
      SliceIsProduct(ps[..|ps| - 1], prev, level);
      var n := |Reaching(ps[..|ps| - 1], prev + 1, false)|;
      assert (level - prev) * (n + 1) == (level - prev) * n + (level - prev);
    }
  }

  lemma {:induction false} SliceAtLeast(ps: seq<PlayerState>, prev: nat, level: nat, i: nat)
    requires prev <= level && i < |ps| && ps[i].contributed >= level
    ensures SliceAmount(ps, prev, level) >= level - prev
  {
    if i < |ps| - 1 { SliceAtLeast(ps[..|ps| - 1], prev, level, i); }
  }

  lemma {:induction false} SliceOfOne(ps: seq<PlayerState>, prev: nat, level: nat, i: nat)
    requires prev <= level && i < |ps| && ps[i].contributed >= level
    requires forall j :: 0 <= j < |ps| && j != i ==> ps[j].contributed <= prev
    ensures SliceAmount(ps, prev, level) == level - prev
  {
    if i < |ps| - 1 {
      SliceOfOne(ps[..|ps| - 1], prev, level, i);
    } else {
      EmptySlice(ps[..|ps| - 1], prev, level);
    }
  }

  lemma {:induction false} EmptySlice(ps: seq<PlayerState>, prev: nat, level: nat)
    requires prev <= level && forall j :: 0 <= j < |ps| ==> ps[j].contributed <= prev
    ensures SliceAmount(ps, prev, level) == 0
  {
    if ps != [] { EmptySlice(ps[..|ps| - 1], prev, level); }
  }

  ghost predicate Reaches(p: PlayerState, id: PlayerId, level: nat, liveOnly: bool) {
    p.playerId == id && p.contributed >= level && (liveOnly ==> !p.folded)
  }

  lemma {:induction false} ReachingMeans(ps: seq<PlayerState>, level: nat, liveOnly: bool, id: PlayerId)
    ensures id in Reaching(ps, level, liveOnly) <==> exists i :: 0 <= i < |ps| && Reaches(ps[i], id, level, liveOnly)
  {
    if ps != [] {
      var front := ps[..|ps| - 1];
      ReachingMeans(front, level, liveOnly, id);
      if exists i :: 0 <= i < |front| && Reaches(front[i], id, level, liveOnly) {
        var i :| 0 <= i < |front| && Reaches(front[i], id, level, liveOnly);
        assert Reaches(ps[i], id, level, liveOnly);
      }
      if exists i :: 0 <= i < |ps| && Reaches(ps[i], id, level, liveOnly) {
        var i :| 0 <= i < |ps| && Reaches(ps[i], id, level, liveOnly);
        assert i < |front| ==> Reaches(front[i], id, level, liveOnly);
      }
    }
  }

  lemma LevelsMean(ps: seq<PlayerState>, y: nat)
    ensures y in Levels(ps) <==> Reached(ps, y)
  {
    var cs := Contributions(ps);
    SortDedupMeans(cs, y);
    if y in cs {
      var i :| 0 <= i < |cs| && cs[i] == y;
      assert ps[i].contributed == y;
    }
    if Reached(ps, y) {
      var i :| 0 <= i < |ps| && ps[i].contributed == y;
      assert cs[i] == y;
    }
  }

  ghost predicate Reached(ps: seq<PlayerState>, y: nat) {
    exists i :: 0 <= i < |ps| && ps[i].contributed == y
  }

  lemma {:induction false} CappedSaturates(ps: seq<PlayerState>, cap: nat)
    requires forall i :: 0 <= i < |ps| ==> ps[i].contributed <= cap
    ensures Capped(ps, cap) == Sum(ps, ContributedW)
  {
    if ps != [] { CappedSaturates(ps[..|ps| - 1], cap); }
  }

  lemma {:induction false} CappedAtZero(ps: seq<PlayerState>)
    ensures Capped(ps, 0) == 0
  {
    if ps != [] { CappedAtZero(ps[..|ps| - 1]); }
  }

  /** `ls` holds every contribution up to its top, so no contribution falls between neighbours. */
  ghost predicate LevelsOf(ps: seq<PlayerState>, ls: seq<nat>) {
    && StrictlyIncreasing(ls)
    && (forall y :: y in ls ==> Reached(ps, y))
    && (forall i :: 0 <= i < |ps| ==> Listed(ps[i], ls))
  }

  ghost predicate Listed(p: PlayerState, ls: seq<nat>) { 0 < p.contributed <= Top(ls) ==> p.contributed in ls }

  /**
   Each level is a contribution, and none lies between it and the level before; the levels
   below it are layered in the same way.
   */
  ghost predicate Layered(ps: seq<PlayerState>, ls: seq<nat>) {
    ls == [] ||
    var below, top := ls[..|ls| - 1], Top(ls);
    && Layered(ps, below)
    && (if top == 0 then below == [] else Neighbours(ps, Top(below), top) && Reached(ps, top))
  }

  lemma {:induction false} LevelsAreLayered(ps: seq<PlayerState>, ls: seq<nat>)
    requires LevelsOf(ps, ls)
    ensures Layered(ps, ls)
  {
    if ls != [] {
      LevelsPrefix(ps, ls);
      LevelsAreLayered(ps, ls[..|ls| - 1]);
    }
  }

  lemma BelowTop(ls: seq<nat>, y: nat)
    requires StrictlyIncreasing(ls) && ls != [] && y in ls
    ensures y <= Top(ls)
    ensures y < Top(ls) ==> y in ls[..|ls| - 1] && y <= Top(ls[..|ls| - 1])
  {
    var k :| 0 <= k < |ls| && ls[k] == y;
    if k < |ls| - 1 { assert ls[..|ls| - 1][k] == y; }
  }

  lemma LevelsPrefix(ps: seq<PlayerState>, ls: seq<nat>)
    requires LevelsOf(ps, ls) && ls != []
    ensures LevelsOf(ps, ls[..|ls| - 1])
    ensures Top(ls) > 0 ==> Neighbours(ps, Top(ls[..|ls| - 1]), Top(ls)) && Reached(ps, Top(ls))
    ensures Top(ls) == 0 ==> ls == [0]
  {
    assert Top(ls) in ls;
    assert |ls| > 1 ==> ls[|ls| - 2] < Top(ls);
    assert |ls| == 1 ==> ls == [Top(ls)];
    forall i | 0 <= i < |ps| && 0 < ps[i].contributed < Top(ls)
      ensures ps[i].contributed in ls[..|ls| - 1] && ps[i].contributed <= Top(ls[..|ls| - 1])
    {
      assert Listed(ps[i], ls);
      BelowTop(ls, ps[i].contributed);
    }
  }

  lemma LevelsComplete(ps: seq<PlayerState>)
    ensures Layered(ps, Levels(ps))
    ensures forall i :: 0 <= i < |ps| ==> ps[i].contributed <= Top(Levels(ps))
  {
    var ls := Levels(ps);
    forall y: nat ensures y in ls <==> Reached(ps, y) { LevelsMean(ps, y); }
    forall i | 0 <= i < |ps| ensures ps[i].contributed in ls && ps[i].contributed <= Top(ls) {
      assert Reached(ps, ps[i].contributed);
      BelowTop(ls, ps[i].contributed);
    }
    LevelsAreLayered(ps, ls);
  }

  /** A layer above level zero holds chips, and somebody is entitled to them. */
  lemma LayerIsPot(ps: seq<PlayerState>, prev: nat, level: nat)
    requires Neighbours(ps, prev, level) && Reached(ps, level)
    ensures |Layer(ps, prev, level)| == 1
    ensures var pot := Layer(ps, prev, level)[0];
            && pot.cap == level
            && pot.amount == SliceAmount(ps, prev, level) > 0
            && pot.eligible == Reaching(ps, level, true)
            && (pot.eligible == [] ==> pot.refundTo == Reaching(ps, prev + 1, false) != [])
  {
    var i :| 0 <= i < |ps| && ps[i].contributed == level;
    SliceAtLeast(ps, prev, level, i);
    SomebodyReaches(ps, prev + 1, i);
    PotOfMeans(level, SliceAmount(ps, prev, level), Reaching(ps, level, true), Reaching(ps, prev + 1, false));
  }

  lemma PotOfMeans(level: nat, amount: nat, eligible: seq<PlayerId>, contributors: seq<PlayerId>)
    requires level > 0 && amount > 0 && contributors != []
    ensures |PotOf(level, amount, eligible, contributors)| == 1
    ensures var pot := PotOf(level, amount, eligible, contributors)[0];
            && pot.cap == level && pot.amount == amount && pot.eligible == eligible
            && (eligible == [] ==> pot.refundTo == contributors)
  {
  }

  lemma {:induction false} SomebodyReaches(ps: seq<PlayerState>, level: nat, i: nat)
    requires i < |ps| && ps[i].contributed >= level
    ensures Reaching(ps, level, false) != []
  {
    if i < |ps| - 1 { SomebodyReaches(ps[..|ps| - 1], level, i); }
  }

  lemma AppendPot(pots: seq<SidePot>, pot: SidePot, id: PlayerId)
    ensures Total(pots + [pot]) == Total(pots) + pot.amount
    ensures Winnable(pots + [pot], id) == Winnable(pots, id) + if id in pot.eligible then pot.amount else 0
    ensures Refunded(pots + [pot], id) == Refunded(pots, id) + if id in pot.refundTo then pot.amount else 0
  {
    assert (pots + [pot])[..|pots|] == pots;
  }

  lemma EligibleMeans(ps: seq<PlayerState>, i: nat, level: nat, liveOnly: bool)
    requires DistinctIds(ps) && i < |ps| && (liveOnly ==> !ps[i].folded)
    ensures ps[i].playerId in Reaching(ps, level, liveOnly) <==> ps[i].contributed >= level
  {
    ReachingMeans(ps, level, liveOnly, ps[i].playerId);
    if ps[i].contributed >= level { assert Reaches(ps[i], ps[i].playerId, level, liveOnly); }
  }

  lemma {:induction false} NobodyReaches(ps: seq<PlayerState>, level: nat, liveOnly: bool)
    requires forall j :: 0 <= j < |ps| ==> ps[j].contributed < level
    ensures Reaching(ps, level, liveOnly) == []
  {
    if ps != [] { NobodyReaches(ps[..|ps| - 1], level, liveOnly); }
  }

  lemma {:induction false} SoleReaching(ps: seq<PlayerState>, i: nat, level: nat, liveOnly: bool)
    requires i < |ps| && ps[i].contributed >= level && (liveOnly ==> !ps[i].folded)
    requires forall j :: 0 <= j < |ps| && j != i ==> ps[j].contributed < level
    ensures Reaching(ps, level, liveOnly) == [ps[i].playerId]
  {
    if i == |ps| - 1 {
      NobodyReaches(ps[..|ps| - 1], level, liveOnly);
    } else {
      SoleReaching(ps[..|ps| - 1], i, level, liveOnly);
    }
  }

  /** `m` is the largest contribution of anyone but seat `i`. */
  ghost predicate LargestOther(ps: seq<PlayerState>, i: int, m: nat) {
    && (forall j :: 0 <= j < |ps| && j != i ==> ps[j].contributed <= m)
    && (m == 0 || exists j :: 0 <= j < |ps| && j != i && ps[j].contributed == m)
  }

  lemma {:induction false} MaxOtherMeans(ps: seq<PlayerState>, i: int)
    ensures LargestOther(ps, i, MaxOther(ps, i))
  {
    if ps != [] { MaxOtherMeans(ps[..|ps| - 1], i); }
  }

  /** Nobody but seat `i` put in more than `prev`. */
  ghost predicate Alone(ps: seq<PlayerState>, i: nat, prev: nat) {
    forall j :: 0 <= j < |ps| && j != i ==> ps[j].contributed <= prev
  }

  /** Neighbouring levels see the largest other contribution below or above, never between. */
  lemma AloneMeans(ps: seq<PlayerState>, i: nat, prev: nat, level: nat, m: nat)
    requires LargestOther(ps, i, m) && Neighbours(ps, prev, level)
    ensures Alone(ps, i, prev) <==> m <= prev
    ensures m <= prev || level <= m
  {
  }

  lemma RefundIfAlone(ps: seq<PlayerState>, i: nat, prev: nat, level: nat)
    requires i < |ps| && !ps[i].folded && prev < level <= ps[i].contributed && Alone(ps, i, prev)
    ensures |Layer(ps, prev, level)| == 1
    ensures Layer(ps, prev, level)[0].refundTo == [ps[i].playerId]
    ensures Layer(ps, prev, level)[0].amount == level - prev
  {
    SoleReaching(ps, i, level, true);
    SoleReaching(ps, i, prev + 1, false);
    SliceOfOne(ps, prev, level, i);
  }

  lemma RefundOnlyIfAlone(ps: seq<PlayerState>, i: nat, prev: nat, level: nat)
    requires DistinctIds(ps) && i < |ps| && !ps[i].folded && Neighbours(ps, prev, level)
    requires |Layer(ps, prev, level)| == 1 && ps[i].playerId in Layer(ps, prev, level)[0].refundTo
    ensures ps[i].contributed >= level && Alone(ps, i, prev)
  {
    EligibleMeans(ps, i, level, true);
    EligibleMeans(ps, i, prev + 1, false);
    forall j | 0 <= j < |ps| && j != i ensures ps[j].contributed <= prev {
      EligibleMeans(ps, j, prev + 1, false);
    }
  }

  lemma {:induction false} LayersTotal(ps: seq<PlayerState>, ls: seq<nat>)
    requires Layered(ps, ls)
    ensures Total(Layers(ps, ls)) == Capped(ps, Top(ls))
  {
    if ls == [] {
      CappedAtZero(ps);
    } else {
      var below := ls[..|ls| - 1];
      LayersTotal(ps, below);
      SliceIsDifference(ps, Top(below), Top(ls));
      if Top(ls) > 0 {
        LayerIsPot(ps, Top(below), Top(ls));
        AppendPot(Layers(ps, below), Layer(ps, Top(below), Top(ls))[0], 0);
        assert Layers(ps, ls) == Layers(ps, below) + [Layer(ps, Top(below), Top(ls))[0]];
      }
    }
  }

  lemma {:induction false} LayersWinnable(ps: seq<PlayerState>, ls: seq<nat>, i: nat)
    requires DistinctIds(ps) && Layered(ps, ls) && i < |ps| && !ps[i].folded
    ensures Winnable(Layers(ps, ls), ps[i].playerId) == Capped(ps, Min(ps[i].contributed, Top(ls)))
  {
    if ls == [] {
      CappedAtZero(ps);
    } else {
      var below := ls[..|ls| - 1];
      LayersWinnable(ps, below, i);
      if Top(ls) > 0 { LayerWinnable(ps, Layers(ps, below), Top(below), Top(ls), i); }
    }
  }

  lemma LayerWinnable(ps: seq<PlayerState>, lower: seq<SidePot>, prev: nat, top: nat, i: nat)
    requires DistinctIds(ps) && i < |ps| && !ps[i].folded && Neighbours(ps, prev, top) && Reached(ps, top)
    requires Winnable(lower, ps[i].playerId) == Capped(ps, Min(ps[i].contributed, prev))
    ensures Winnable(lower + Layer(ps, prev, top), ps[i].playerId) == Capped(ps, Min(ps[i].contributed, top))
  {
    LayerIsPot(ps, prev, top);
    var pot := Layer(ps, prev, top)[0];
    assert Layer(ps, prev, top) == [pot];
    SliceIsDifference(ps, prev, top);
    EligibleMeans(ps, i, top, true);
    AppendPot(lower, pot, ps[i].playerId);
  }

  lemma {:induction false} LayersRefunded(ps: seq<PlayerState>, ls: seq<nat>, i: nat, m: nat)
    requires DistinctIds(ps) && Layered(ps, ls) && i < |ps| && !ps[i].folded && LargestOther(ps, i, m)
    ensures RefundUpTo(Layers(ps, ls), ps[i].playerId, Min(ps[i].contributed, Top(ls)), m)
  {
    if ls != [] {
      var below := ls[..|ls| - 1];
      LayersRefunded(ps, below, i, m);
      if Top(ls) > 0 { LayerRefund(ps, Layers(ps, below), Top(below), Top(ls), i, m); }
    }
  }

  ghost predicate RefundUpTo(pots: seq<SidePot>, id: PlayerId, cap: nat, m: nat) {
    Refunded(pots, id) == Max(0, cap - m)
  }

  /** What one layer refunds to a player still in the hand: all of it, or nothing. */
  lemma LayerRefundsAlone(ps: seq<PlayerState>, prev: nat, top: nat, i: nat, m: nat) returns (pot: SidePot)
    requires DistinctIds(ps) && i < |ps| && !ps[i].folded && LargestOther(ps, i, m)
    requires Neighbours(ps, prev, top) && Reached(ps, top)
    ensures Layer(ps, prev, top) == [pot]
    ensures ps[i].playerId in pot.refundTo <==> ps[i].contributed >= top && m <= prev
    ensures ps[i].playerId in pot.refundTo ==> pot.amount == top - prev
    ensures m <= prev || top <= m
  {
    LayerIsPot(ps, prev, top);
    pot := Layer(ps, prev, top)[0];
    AloneMeans(ps, i, prev, top, m);
    if ps[i].contributed >= top && Alone(ps, i, prev) { RefundIfAlone(ps, i, prev, top); }
    else if ps[i].playerId in pot.refundTo { RefundOnlyIfAlone(ps, i, prev, top); }
  }

  lemma LayerRefund(ps: seq<PlayerState>, lower: seq<SidePot>, prev: nat, top: nat, i: nat, m: nat)
    requires DistinctIds(ps) && i < |ps| && !ps[i].folded && LargestOther(ps, i, m)
    requires Neighbours(ps, prev, top) && Reached(ps, top)
    requires RefundUpTo(lower, ps[i].playerId, Min(ps[i].contributed, prev), m)
    ensures RefundUpTo(lower + Layer(ps, prev, top), ps[i].playerId, Min(ps[i].contributed, top), m)
  {
    var pot := LayerRefundsAlone(ps, prev, top, i, m);
    AppendPot(lower, pot, ps[i].playerId);
  }

  /** The pots a player still in the hand can win hold the sum of min(c_q, c_p) over all players. */
  lemma PotsWinnable(ps: seq<PlayerState>, i: nat)
    requires DistinctIds(ps) && i < |ps| && !ps[i].folded
    ensures Winnable(Pots(ps), ps[i].playerId) == Capped(ps, ps[i].contributed)
  {
    var ls := PotLevels(ps, i);
    LayersWinnable(ps, ls, i);
  }

  /** A player still in the hand is refunded exactly what nobody else matched. */
  lemma PotsRefunded(ps: seq<PlayerState>, i: nat)
    requires DistinctIds(ps) && i < |ps| && !ps[i].folded
    ensures Refunded(Pots(ps), ps[i].playerId) == Max(0, ps[i].contributed - MaxOther(ps, i))
  {
    PotsRefundUpTo(ps, i, Pots(ps));
    RefundMeans(Pots(ps), ps[i].playerId, ps[i].contributed, MaxOther(ps, i));
  }

  lemma PotsRefundUpTo(ps: seq<PlayerState>, i: nat, pots: seq<SidePot>)
    requires DistinctIds(ps) && i < |ps| && !ps[i].folded && pots == Pots(ps)
    ensures RefundUpTo(pots, ps[i].playerId, ps[i].contributed, MaxOther(ps, i))
  {
    var ls := PotLevels(ps, i);
    LevelsRefunded(ps, ls, pots, i);
  }

  lemma LevelsRefunded(ps: seq<PlayerState>, ls: seq<nat>, pots: seq<SidePot>, i: nat)
    requires DistinctIds(ps) && i < |ps| && !ps[i].folded && PotsOver(ps, ls, pots, i)
    ensures RefundUpTo(pots, ps[i].playerId, ps[i].contributed, MaxOther(ps, i))
  {
    assert Min(ps[i].contributed, Top(ls)) == ps[i].contributed;
    MaxOtherMeans(ps, i);
    LayersRefunded(ps, ls, i, MaxOther(ps, i));
  }

  lemma RefundMeans(pots: seq<SidePot>, id: PlayerId, cap: nat, m: nat)
    requires RefundUpTo(pots, id, cap, m)
    ensures Refunded(pots, id) == Max(0, cap - m)
  {
  }

  /** The pots are the layers of `ls`, and player `i` is below their top. */
  ghost predicate PotsOver(ps: seq<PlayerState>, ls: seq<nat>, pots: seq<SidePot>, i: nat) {
    i < |ps| && pots == Layers(ps, ls) && Layered(ps, ls) && ps[i].contributed <= Top(ls)
  }

  /** The levels behind the pots, without how they were sorted. */
  lemma PotLevels(ps: seq<PlayerState>, i: nat) returns (ls: seq<nat>)
    requires i < |ps| && !ps[i].folded
    ensures PotsOver(ps, ls, Pots(ps), i)
  {
    ls := Levels(ps);
    SumAtLeast(ps, i, InHandW);
    LevelsComplete(ps);
  }

  /** While someone has not folded, the pots together hold every contribution. */
  lemma PotsTotal(ps: seq<PlayerState>, i: nat)
    requires i < |ps| && !ps[i].folded
    ensures Total(Pots(ps)) == Sum(ps, ContributedW)
  {
    SumAtLeast(ps, i, InHandW);
    LevelsComplete(ps);
    LayersTotal(ps, Levels(ps));
    CappedSaturates(ps, Top(Levels(ps)));
  }

  /** The levels that hold chips. */
  function Positive(ls: seq<nat>): seq<nat> { if ls != [] && ls[0] == 0 then ls[1..] else ls }

  /** One pot per level, in order. */
  ghost predicate PotsMatch(ps: seq<PlayerState>, ls: seq<nat>, pots: seq<SidePot>) {
    |pots| == |ls| && forall k :: 0 <= k < |ls| ==> PotAt(ps, Top(ls[..k]), ls[k], pots[k])
  }

  lemma MatchAppend(ps: seq<PlayerState>, ls: seq<nat>, pots: seq<SidePot>, level: nat, pot: SidePot)
    requires PotsMatch(ps, ls, pots) && PotAt(ps, Top(ls), level, pot)
    ensures PotsMatch(ps, ls + [level], pots + [pot])
  {
    var longer := ls + [level];
    forall k | 0 <= k < |longer| ensures PotAt(ps, Top(longer[..k]), longer[k], (pots + [pot])[k]) {
      assert longer[..k] == ls[..k];
      if k == |ls| { assert ls[..k] == ls; }
    }
  }

  /** Those who reached a higher level, or did not fold, are among those who reached a lower one. */
  lemma {:induction false} HigherReachFewer(ps: seq<PlayerState>, low: nat, level: nat)
    requires low <= level
    ensures |Reaching(ps, level, true)| <= |Reaching(ps, low, false)|
    ensures |Reaching(ps, level, true)| == |Reaching(ps, low, false)| ==> Reaching(ps, level, true) == Reaching(ps, low, false)
  {
    if ps != [] { HigherReachFewer(ps[..|ps| - 1], low, level); }
  }

  /** Ids come out in seat order. */
  lemma {:induction false} ReachingInSeatOrder(ps: seq<PlayerState>, level: nat, liveOnly: bool, i: nat, j: nat)
    requires i < j < |ps|
    requires Reaches(ps[i], ps[i].playerId, level, liveOnly) && Reaches(ps[j], ps[j].playerId, level, liveOnly)
    ensures exists a, b :: 0 <= a < b < |Reaching(ps, level, liveOnly)|
              && Reaching(ps, level, liveOnly)[a] == ps[i].playerId && Reaching(ps, level, liveOnly)[b] == ps[j].playerId
  {
    var front := ps[..|ps| - 1];
    var ids, below := Reaching(ps, level, liveOnly), Reaching(front, level, liveOnly);
    if j == |ps| - 1 {
      ReachingMeans(front, level, liveOnly, ps[i].playerId);
      assert front[i] == ps[i];
      var a :| 0 <= a < |below| && below[a] == ps[i].playerId;
      assert ids[a] == ps[i].playerId && ids[|below|] == ps[j].playerId;
    } else {
      ReachingInSeatOrder(front, level, liveOnly, i, j);
      var a, b :| 0 <= a < b < |below| && below[a] == ps[i].playerId && below[b] == ps[j].playerId;
      assert ids[a] == below[a] && ids[b] == below[b];
    }
  }

  lemma LayerMatches(ps: seq<PlayerState>, prev: nat, level: nat) returns (pot: SidePot)
    requires Neighbours(ps, prev, level) && Reached(ps, level)
    ensures Layer(ps, prev, level) == [pot] && PotAt(ps, prev, level, pot)
  {
    LayerIsPot(ps, prev, level);
    SliceIsProduct(ps, prev, level);
    HigherReachFewer(ps, prev + 1, level);
    pot := Layer(ps, prev, level)[0];
  }

  lemma PositiveAppend(below: seq<nat>, top: nat)
    requires top > 0 && (below != [] && below[0] == 0 && |below| > 1 ==> Top(below) > 0)
    ensures Positive(below + [top]) == Positive(below) + [top] && Top(Positive(below)) == Top(below)
  {
  }

  lemma LevelMatches(ps: seq<PlayerState>, below: seq<nat>, top: nat, lower: seq<SidePot>)
    requires PotsMatch(ps, Positive(below), lower) && top > 0
    requires below != [] && below[0] == 0 && |below| > 1 ==> Top(below) > 0
    requires Neighbours(ps, Top(below), top) && Reached(ps, top)
    ensures PotsMatch(ps, Positive(below + [top]), lower + Layer(ps, Top(below), top))
  {
    var pot := LayerMatches(ps, Top(below), top);
    PositiveAppend(below, top);
    MatchAppend(ps, Positive(below), lower, top, pot);
  }

  lemma LayeredLast(ps: seq<PlayerState>, below: seq<nat>, top: nat)
    requires Layered(ps, below + [top])
    ensures Layered(ps, below) && Layers(ps, below + [top]) == Layers(ps, below) + Layer(ps, Top(below), top)
    ensures if top == 0 then below == [] else Neighbours(ps, Top(below), top) && Reached(ps, top)
  {
    assert (below + [top])[..|below|] == below;
  }

  lemma LayeredTop(ps: seq<PlayerState>, ls: seq<nat>)
    requires Layered(ps, ls) && |ls| > 1
    ensures Top(ls) > 0
  {
  }

  lemma ZeroLevel(ps: seq<PlayerState>)
    ensures PotsMatch(ps, Positive([0]), Layers(ps, []) + Layer(ps, 0, 0))
  {
  }

  lemma {:induction false} LayersAreLevels(ps: seq<PlayerState>, ls: seq<nat>)
    requires Layered(ps, ls)
    ensures PotsMatch(ps, Positive(ls), Layers(ps, ls))
  {
    if ls != [] {
      var below, top := ls[..|ls| - 1], ls[|ls| - 1];
      assert ls == below + [top];
      LayeredLast(ps, below, top);
      LayersAreLevels(ps, below);
      if |below| > 1 { LayeredTop(ps, below); }
      if top == 0 { ZeroLevel(ps); } else { LevelMatches(ps, below, top, Layers(ps, below)); }
    }
  }

  /**
   While someone has not folded there is exactly one pot per positive level, in order: its
   size is the slice times the number of contributors, its winners are the unfolded players
   who reached it, and it is returned to those who paid into it exactly if it has no winners
   or only one player, folded ones counted, paid into it.
   */
  lemma PotsAreTheLevels(ps: seq<PlayerState>, i: nat)
    requires i < |ps| && !ps[i].folded
    ensures PotsMatch(ps, Positive(Levels(ps)), Pots(ps))
  {
    SumAtLeast(ps, i, InHandW);
    LevelsComplete(ps);
    LayersAreLevels(ps, Levels(ps));
  }

  ghost predicate PotAt(ps: seq<PlayerState>, prev: nat, level: nat, pot: SidePot) {
    && pot.cap == level
    && pot.amount == (level - prev) * |Reaching(ps, prev + 1, false)|
    && pot.amount > 0
    && pot.eligible == Reaching(ps, level, true)
    && pot.refundTo == RefundedAt(Reaching(ps, prev + 1, false), pot.eligible)
  }

  /** A layer nobody can win, or that one player alone paid into, goes back; any other is contested. */
  function RefundedAt(contributors: seq<PlayerId>, winners: seq<PlayerId>): seq<PlayerId> {
    if winners == [] || |contributors| == 1 then contributors else []
  }
}
