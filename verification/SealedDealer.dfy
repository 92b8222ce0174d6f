/**
 A hand held by the sealed dealer (server-integration/sealed_dealer.rs): staged disclosures
 with replayable requests, and the settlement guard.
 */
module SealedDealer {
  import opened Outcomes
  import opened SortedLists

  datatype Street = Preflop | Flop | Turn | River

  /** Preflop 0, Flop 1, Turn 2, River 3, Showdown 4, Settled 5. */
  type Stage = s: nat | s <= 5
  const RIVER: Stage := 3
  const SHOWDOWN: Stage := 4
  const SETTLED: Stage := 5

  datatype Hand = Hand(
    seats: seq<nat>,
    deck: seq<nat>,
    stage: Stage,
    showdownSeats: Option<seq<nat>>,
    secondRunFrom: Option<Street>)

  /** `SealedHand::with_deck` */
  function DealHand(seats: seq<nat>, deck: seq<nat>): Option<Hand> {
    var sorted := SortDedup(seats);
    if |sorted| < 2 || |sorted| > 9 || |deck| != 52 then None
    else Some(Hand(sorted, deck, 0, None, None))
  }

  // ---- Deck positions ----

  function SeatIndex(seats: seq<nat>, seat: nat): (o: Option<nat>)
    ensures o.Some? ==> o.value < |seats| && seats[o.value] == seat
    ensures o.None? ==> seat !in seats
  {
    if seats == [] then None
    else
      assert seats == seats[..|seats| - 1] + [seats[|seats| - 1]];
      match SeatIndex(seats[..|seats| - 1], seat)
      case Some(i) => Some(i)
      case None => if seats[|seats| - 1] == seat then Some(|seats| - 1) else None
  }

  /** Positions `lo..hi` of the deck. */
  datatype Range = Range(lo: nat, hi: nat)

  function BoardRange(n: nat, street: Street): Range {
    match street
    case Preflop => Range(2 * n, 2 * n)
    case Flop => Range(2 * n, 2 * n + 3)
    case Turn => Range(2 * n + 3, 2 * n + 4)
    case River => Range(2 * n + 4, 2 * n + 5)
  }

  function SecondRunRange(n: nat, from: Street): Range {
    Range(2 * n + 5, 2 * n + 5 + match from case Preflop => 0 case Flop => 5 case Turn => 2 case River => 1)
  }

  // ---- Requests ----

  datatype Request =
    | Hole(seat: nat)
    | Board(street: Street)
    | SecondRun(from: Street)
    | Showdown(shown: seq<nat>)
    | Settle

  datatype Reply =
    | Pair(hole: (nat, nat))
    | Cards(cards: seq<nat>)
    | Seats(holes: seq<(nat, (nat, nat))>)
    | Done

  /** The two hole cards of a dealt seat: one from each round of the deal. */
  function HoleCards(seats: seq<nat>, deck: seq<nat>, seat: nat): Option<(nat, nat)>
    requires 2 * |seats| <= |deck|
  {
    match SeatIndex(seats, seat)
    case None => None
    case Some(p) => Some((deck[p], deck[|seats| + p]))
  }

  /** The hole cards of the shown seats, in order. */
  function Holes(seats: seq<nat>, deck: seq<nat>, shown: seq<nat>): seq<(nat, (nat, nat))>
    requires 2 * |seats| <= |deck|
  {
    if shown == [] then []
    else
      var seat := shown[|shown| - 1];
      Holes(seats, deck, shown[..|shown| - 1])
      + match HoleCards(seats, deck, seat) case Some(cards) => [(seat, cards)] case None => []
  }

  lemma {:induction false} HolesAreHoleCards(seats: seq<nat>, deck: seq<nat>, shown: seq<nat>, hole: (nat, (nat, nat)))
    requires 2 * |seats| <= |deck| && hole in Holes(seats, deck, shown)
    ensures HoleCards(seats, deck, hole.0) == Some(hole.1)
  {
    var front := shown[..|shown| - 1];
    if hole in Holes(seats, deck, front) { HolesAreHoleCards(seats, deck, front, hole); }
  }

  function Slice(deck: seq<nat>, r: Range): seq<nat>
    requires r.lo <= r.hi <= |deck|
  {
    deck[r.lo..r.hi]
  }

  predicate AllIn(shown: seq<nat>, seats: seq<nat>) { forall s :: s in shown ==> s in seats }

  /** The stage a board street needs before it can be shown, and the stage it leads to. */
  function Gate(street: Street): (nat, Stage) {
    match street
    case Preflop => (6, 0)
    case Flop => (0, 1)
    case Turn => (1, 2)
    case River => (2, 3)
  }

  /** The hand after an accepted request, and the reply; `None` when it is refused. */
  function Ask(h: Hand, r: Request): Option<(Hand, Reply)>
    requires |h.seats| <= 9 && |h.deck| == 52
  {
    var n := |h.seats|;
    match r
    case Hole(seat) =>
      (match HoleCards(h.seats, h.deck, seat)
       case None => None
       case Some(cards) => Some((h, Pair(cards))))
    case Board(street) =>
      if h.stage < Gate(street).0 then None
      else Some((h.(stage := Max(h.stage, Gate(street).1)), Cards(Slice(h.deck, BoardRange(n, street)))))
    case SecondRun(from) =>
      if h.stage < RIVER || h.stage >= SETTLED || from.Preflop? then None
      else if h.secondRunFrom.Some? && h.secondRunFrom.value != from then None
      else Some((h.(secondRunFrom := Some(from)), Cards(Slice(h.deck, SecondRunRange(n, from)))))
    case Showdown(shown) =>
      var seats := SortDedup(shown);
      if h.stage < RIVER || |seats| < 2 || !AllIn(seats, h.seats) then None
      else if h.showdownSeats.Some? && h.showdownSeats.value != seats then None
      else Some((h.(showdownSeats := Some(seats), stage := Max(h.stage, SHOWDOWN)), Seats(Holes(h.seats, h.deck, seats))))
    case Settle => Some((h.(stage := SETTLED), Done))
  }

  class SealedHand {
    var seats: seq<nat>
    var deck: seq<nat>
    var stage: Stage
    var showdownSeats: Option<seq<nat>>
    var secondRunFrom: Option<Street>

    ghost function View(): Hand
      reads this
    {
      Hand(seats, deck, stage, showdownSeats, secondRunFrom)
    }

    method RevealBoard(street: Street) returns (cards: Option<seq<nat>>)
      requires |seats| <= 9 && |deck| == 52
      modifies this`stage
      ensures match Ask(old(View()), Board(street))
              case Some((h, reply)) => cards.Some? && reply == Cards(cards.value) && View() == h
              case None => cards.None? && View() == old(View())
    {
      var n := |seats|;
      var want: Stage := 0;
      var range := Range(0, 0);
      match street {
        case Flop => want, range := 1, Range(2 * n, 2 * n + 3);
        case Turn =>
          if stage < 1 { return None; }
          want, range := 2, Range(2 * n + 3, 2 * n + 4);
        case River =>
          if stage < 2 { return None; }
          want, range := 3, Range(2 * n + 4, 2 * n + 5);
        case Preflop => return None;
      }
      // A street asked for again keeps the later stage.
      stage := Max(stage, want);
      cards := Some(deck[range.lo..range.hi]);
    }

    method RevealSecondRun(from: Street) returns (cards: Option<seq<nat>>)
      requires |seats| <= 9 && |deck| == 52
      modifies this`secondRunFrom
      ensures match Ask(old(View()), SecondRun(from))
              case Some((h, reply)) => cards.Some? && reply == Cards(cards.value) && View() == h
              case None => cards.None? && View() == old(View())
    {
      if stage < RIVER || stage >= SETTLED { return None; }
      if from == Preflop { return None; }
      if secondRunFrom.Some? && secondRunFrom.value != from { return None; }
      secondRunFrom := Some(from);
      var range := SecondRunRange(|seats|, from);
      cards := Some(deck[range.lo..range.hi]);
    }

    method CollectHoles(shown: seq<nat>) returns (holes: seq<(nat, (nat, nat))>)
      requires |seats| <= 9 && |deck| == 52
      requires AllIn(shown, seats)
      ensures holes == Holes(seats, deck, shown)
    {
      holes := [];
      for k := 0 to |shown|
        invariant holes == Holes(seats, deck, shown[..k])
      {
        var p := SeatIndex(seats, shown[k]);
        assert p.Some? by { assert shown[k] in shown; }
        holes := holes + [(shown[k], (deck[p.value], deck[|seats| + p.value]))];
        assert shown[..k + 1][..k] == shown[..k];
      }
      assert shown[..|shown|] == shown;
    }

    method RevealShowdown(shown: seq<nat>) returns (holes: Option<seq<(nat, (nat, nat))>>)
      requires |seats| <= 9 && |deck| == 52
      modifies this`showdownSeats, this`stage
      ensures match Ask(old(View()), Showdown(shown))
              case Some((h, reply)) => holes.Some? && reply == Seats(holes.value) && View() == h
              case None => holes.None? && View() == old(View())
    {
      if stage < RIVER { return None; }
      var sorted := SortDedup(shown);
      if |sorted| < 2 || !AllIn(sorted, seats) { return None; }
      if showdownSeats.Some? && showdownSeats.value != sorted { return None; }
      showdownSeats := Some(sorted);
      var out := CollectHoles(sorted);
      stage := Max(stage, SHOWDOWN);
      holes := Some(out);
    }
  }

  // ---- Runs ----

  /** The hand after any requests; a refused one leaves it as it was. */
  function Run(h: Hand, rs: seq<Request>): (g: Hand)
    requires |h.seats| <= 9 && |h.deck| == 52
    ensures g.seats == h.seats && g.deck == h.deck
  {
    if rs == [] then h
    else
      var g := Run(h, rs[..|rs| - 1]);
      match Ask(g, rs[|rs| - 1]) case None => g case Some((next, _)) => next
  }

  lemma AskIsMonotone(h: Hand, r: Request)
    requires |h.seats| <= 9 && |h.deck| == 52 && Ask(h, r).Some?
    ensures Ask(h, r).value.0.stage >= h.stage
    ensures h.secondRunFrom.Some? ==> Ask(h, r).value.0.secondRunFrom == h.secondRunFrom
    ensures h.showdownSeats.Some? ==> Ask(h, r).value.0.showdownSeats == h.showdownSeats
  {
  }

  /** Over any continuation the stage never regresses and a disclosed choice never changes. */
  lemma {:induction false} RunIsMonotone(h: Hand, rs: seq<Request>)
    requires |h.seats| <= 9 && |h.deck| == 52
    ensures Run(h, rs).stage >= h.stage
    ensures h.secondRunFrom.Some? ==> Run(h, rs).secondRunFrom == h.secondRunFrom
    ensures h.showdownSeats.Some? ==> Run(h, rs).showdownSeats == h.showdownSeats
  {
    if rs != [] {
      var g := Run(h, rs[..|rs| - 1]);
      RunIsMonotone(h, rs[..|rs| - 1]);
      if Ask(g, rs[|rs| - 1]).Some? { AskIsMonotone(g, rs[|rs| - 1]); }
    }
  }

  /** What a request is answered with, whenever it is accepted. */
  ghost function Answer(h: Hand, r: Request): Reply
    requires |h.seats| <= 9 && |h.deck| == 52
  {
    var n := |h.seats|;
    match r
    case Hole(seat) =>
      (match HoleCards(h.seats, h.deck, seat) case Some(cards) => Pair(cards) case None => Done)
    case Board(street) => Cards(Slice(h.deck, BoardRange(n, street)))
    case SecondRun(from) => Cards(Slice(h.deck, SecondRunRange(n, from)))
    case Showdown(shown) => Seats(Holes(h.seats, h.deck, SortDedup(shown)))
    case Settle => Done
  }

  /** What the run `rs` answered, in order. */
  ghost function Transcript(h: Hand, rs: seq<Request>): seq<(Request, Reply)>
    requires |h.seats| <= 9 && |h.deck| == 52
  {
    if rs == [] then []
    else
      var front, last := rs[..|rs| - 1], rs[|rs| - 1];
      Transcript(h, front)
      + match Ask(Run(h, front), last) case None => [] case Some((_, reply)) => [(last, reply)]
  }

  /** Every reply in the transcript is the one the dealt deck fixes. */
  ghost predicate Faithful(h: Hand, told: seq<(Request, Reply)>)
    requires |h.seats| <= 9 && |h.deck| == 52
  {
    forall i :: 0 <= i < |told| ==> told[i].1 == Answer(h, told[i].0)
  }

  lemma AskAnswers(g: Hand, h: Hand, r: Request)
    requires |h.seats| <= 9 && |h.deck| == 52 && g.seats == h.seats && g.deck == h.deck
    ensures Ask(g, r).Some? ==> Ask(g, r).value.1 == Answer(h, r)
  {
  }

  lemma {:induction false} RunIsFaithful(h: Hand, rs: seq<Request>)
    requires |h.seats| <= 9 && |h.deck| == 52
    ensures Faithful(h, Transcript(h, rs))
  {
    if rs != [] {
      var front, last := rs[..|rs| - 1], rs[|rs| - 1];
      RunIsFaithful(h, front);
      AskAnswers(Run(h, front), h, last);
    }
  }

  /** Over any run, a request that is answered twice gets the same cards both times. */
  lemma RepeatsAreIdentical(h: Hand, rs: seq<Request>, i: nat, j: nat)
    requires |h.seats| <= 9 && |h.deck| == 52
    requires i < |Transcript(h, rs)| && j < |Transcript(h, rs)|
    requires Transcript(h, rs)[i].0 == Transcript(h, rs)[j].0
    ensures Transcript(h, rs)[i].1 == Transcript(h, rs)[j].1
  {
    RunIsFaithful(h, rs);
  }

  ghost predicate Answered(told: seq<(Request, Reply)>, r: Request) {
    exists i :: 0 <= i < |told| && told[i].0 == r
  }

  /** What each stage owes to earlier disclosures, while the hand is not settled. */
  ghost predicate Staged(h: Hand, told: seq<(Request, Reply)>) {
    !Answered(told, Settle) ==>
      && h.stage < SETTLED
      && (h.stage >= 1 ==> Answered(told, Board(Flop)))
      && (h.stage >= 2 ==> Answered(told, Board(Turn)))
      && (h.stage >= 3 ==> Answered(told, Board(River)))
  }

  lemma AnsweredAppend(told: seq<(Request, Reply)>, r: Request, reply: Reply, q: Request)
    ensures Answered(told + [(r, reply)], q) <==> Answered(told, q) || q == r
  {
    var all := told + [(r, reply)];
    assert all[|told|] == (r, reply);
    if Answered(told, q) {
      var i :| 0 <= i < |told| && told[i].0 == q;
      assert all[i] == told[i];
    }
  }

  lemma AskIsStaged(h: Hand, told: seq<(Request, Reply)>, r: Request)
    requires |h.seats| <= 9 && |h.deck| == 52 && Staged(h, told) && Ask(h, r).Some?
    ensures Staged(Ask(h, r).value.0, told + [(r, Ask(h, r).value.1)])
  {
    var reply := Ask(h, r).value.1;
    AnsweredAppend(told, r, reply, Settle);
    AnsweredAppend(told, r, reply, Board(Flop));
    AnsweredAppend(told, r, reply, Board(Turn));
    AnsweredAppend(told, r, reply, Board(River));
  }

  lemma {:induction false} RunIsStaged(h: Hand, rs: seq<Request>)
    requires |h.seats| <= 9 && |h.deck| == 52 && h.stage == 0
    ensures Staged(Run(h, rs), Transcript(h, rs))
  {
    if rs != [] {
      var front, last := rs[..|rs| - 1], rs[|rs| - 1];
      RunIsStaged(h, front);
      var told, asked := Transcript(h, front), Ask(Run(h, front), last);
      if asked.Some? {
        AskIsStaged(Run(h, front), told, last);
        assert Transcript(h, rs) == told + [(last, asked.value.1)];
      } else {
        assert Transcript(h, rs) == told;
      }
    }
  }

  /**
   Without settlement, the turn is shown only after the flop, the river only after the turn,
   and a second run or a showdown only after the river.
   */
  lemma StreetsInOrder(h: Hand, rs: seq<Request>, r: Request)
    requires |h.seats| <= 9 && |h.deck| == 52 && h.stage == 0
    requires Ask(Run(h, rs), r).Some? && !Answered(Transcript(h, rs), Settle)
    ensures var told := Transcript(h, rs);
            && (r == Board(Turn) || r == Board(River) || r.SecondRun? || r.Showdown? ==> Answered(told, Board(Flop)))
            && (r == Board(River) || r.SecondRun? || r.Showdown? ==> Answered(told, Board(Turn)))
            && (r.SecondRun? || r.Showdown? ==> Answered(told, Board(River)))
  {
    RunIsStaged(h, rs);
  }

  // ---- Disjoint disclosures ----

  ghost function Between(r: Range): (s: set<nat>)
    ensures forall i: nat :: i in s <==> r.lo <= i < r.hi
    decreases r.hi
  {
    if r.hi <= r.lo then {} else Between(Range(r.lo, r.hi - 1)) + {r.hi - 1}
  }

  ghost function HolePositions(seats: seq<nat>, seat: nat): set<nat> {
    match SeatIndex(seats, seat) case Some(p) => {p, |seats| + p} case None => {}
  }

  ghost function ShownPositions(seats: seq<nat>, shown: seq<nat>): set<nat> {
    if shown == [] then {}
    else ShownPositions(seats, shown[..|shown| - 1]) + HolePositions(seats, shown[|shown| - 1])
  }

  /** The deck positions a request discloses. */
  ghost function Positions(h: Hand, r: Request): set<nat> {
    var n := |h.seats|;
    match r
    case Hole(seat) => HolePositions(h.seats, seat)
    case Board(street) => Between(BoardRange(n, street))
    case SecondRun(from) => Between(SecondRunRange(n, from))
    case Showdown(shown) => ShownPositions(h.seats, SortDedup(shown))
    case Settle => {}
  }

  /** The cards at some deck positions. */
  ghost function At(deck: seq<nat>, positions: set<nat>): set<nat> {
    set i: nat | i in positions && i < |deck| :: deck[i]
  }

  /** The cards a reply shows. */
  ghost function CardsOf(reply: Reply): set<nat> {
    match reply
    case Pair(hole) => {hole.0, hole.1}
    case Cards(cards) => set c | c in cards
    case Seats(holes) => CardsOfSeats(holes)
    case Done => {}
  }

  ghost function CardsOfSeats(holes: seq<(nat, (nat, nat))>): set<nat> {
    if holes == [] then {}
    else CardsOfSeats(holes[..|holes| - 1]) + {holes[|holes| - 1].1.0, holes[|holes| - 1].1.1}
  }

  lemma SliceShows(deck: seq<nat>, r: Range, c: nat)
    requires r.lo <= r.hi <= |deck|
    ensures c in Slice(deck, r) ==> c in At(deck, Between(r))
  {
    var cards := Slice(deck, r);
    if c in cards {
      var k :| 0 <= k < |cards| && cards[k] == c;
      assert deck[r.lo + k] == c && r.lo + k in Between(r);
    }
  }

  lemma SliceAt(deck: seq<nat>, r: Range, i: nat)
    requires r.lo <= i < r.hi <= |deck|
    ensures deck[i] in Slice(deck, r)
  {
    assert Slice(deck, r)[i - r.lo] == deck[i];
  }

  lemma SliceHolds(deck: seq<nat>, r: Range, c: nat)
    requires r.lo <= r.hi <= |deck|
    ensures c in At(deck, Between(r)) ==> c in Slice(deck, r)
  {
    forall i: nat | r.lo <= i < r.hi ensures deck[i] in Slice(deck, r) { SliceAt(deck, r, i); }
  }

  lemma SliceDiscloses(deck: seq<nat>, r: Range)
    requires r.lo <= r.hi <= |deck|
    ensures CardsOf(Cards(Slice(deck, r))) == At(deck, Between(r))
  {
    forall c: nat ensures c in Slice(deck, r) <==> c in At(deck, Between(r)) {
      SliceShows(deck, r, c);
      SliceHolds(deck, r, c);
    }
  }

  lemma HoleDiscloses(seats: seq<nat>, deck: seq<nat>, seat: nat)
    requires 2 * |seats| <= |deck|
    ensures At(deck, HolePositions(seats, seat)) ==
              match HoleCards(seats, deck, seat) case Some(cards) => {cards.0, cards.1} case None => {}
  {
    match SeatIndex(seats, seat)
    case None =>
    case Some(p) => assert p in HolePositions(seats, seat) && |seats| + p in HolePositions(seats, seat);
  }

  lemma AtUnion(deck: seq<nat>, s: set<nat>, t: set<nat>)
    ensures At(deck, s + t) == At(deck, s) + At(deck, t)
  {
  }

  lemma {:induction false} ShowdownDiscloses(seats: seq<nat>, deck: seq<nat>, shown: seq<nat>)
    requires 2 * |seats| <= |deck|
    ensures CardsOfSeats(Holes(seats, deck, shown)) == At(deck, ShownPositions(seats, shown))
  {
    if shown != [] {
      var front, seat := shown[..|shown| - 1], shown[|shown| - 1];
      ShowdownDiscloses(seats, deck, front);
      HoleDiscloses(seats, deck, seat);
      AtUnion(deck, ShownPositions(seats, front), HolePositions(seats, seat));
      var holes := Holes(seats, deck, shown);
      match HoleCards(seats, deck, seat)
      case None => assert holes == Holes(seats, deck, front);
      case Some(cards) => assert holes == Holes(seats, deck, front) + [(seat, cards)] && holes[..|holes| - 1] == Holes(seats, deck, front);
    }
  }

  /** A reply shows exactly the cards at the positions of its request. */
  lemma AnswerDiscloses(h: Hand, r: Request)
    requires |h.seats| <= 9 && |h.deck| == 52
    ensures CardsOf(Answer(h, r)) == At(h.deck, Positions(h, r))
  {
    match r
    case Hole(seat) => HoleDiscloses(h.seats, h.deck, seat);
    case Board(street) => SliceDiscloses(h.deck, BoardRange(|h.seats|, street));
    case SecondRun(from) => SliceDiscloses(h.deck, SecondRunRange(|h.seats|, from));
    case Showdown(shown) => ShowdownDiscloses(h.seats, h.deck, SortDedup(shown));
    case Settle =>
  }

  lemma {:induction false} ShownBelow(seats: seq<nat>, shown: seq<nat>)
    ensures forall i :: i in ShownPositions(seats, shown) ==> i < 2 * |seats|
  {
    if shown != [] { ShownBelow(seats, shown[..|shown| - 1]); }
  }

  /** Where in the deck each kind of request looks. */
  lemma PositionsBound(h: Hand, r: Request)
    requires |h.seats| <= 9
    ensures r.Hole? || r.Showdown? ==> forall i :: i in Positions(h, r) ==> i < 2 * |h.seats|
    ensures r.Board? ==> forall i :: i in Positions(h, r) ==>
      BoardRange(|h.seats|, r.street).lo <= i < BoardRange(|h.seats|, r.street).hi
    ensures r.SecondRun? ==> forall i :: i in Positions(h, r) ==> 2 * |h.seats| + 5 <= i < 52
  {
    if r.Showdown? { ShownBelow(h.seats, SortDedup(r.shown)); }
  }

  /** Two second runs overlap in the deck; only the dealer's refusal keeps them apart. */
  ghost predicate Overlapping(a: Request, b: Request) {
    || (a.SecondRun? && b.SecondRun?)
    || (a.Showdown? && (b.Showdown? || b.Hole?))
    || (b.Showdown? && a.Hole?)
  }

  lemma HolesDisjoint(seats: seq<nat>, a: nat, b: nat)
    requires a != b
    ensures HolePositions(seats, a) !! HolePositions(seats, b)
  {
    assert SeatIndex(seats, a).Some? && SeatIndex(seats, b).Some? ==> SeatIndex(seats, a) != SeatIndex(seats, b);
  }

  /** The block of the deck a request looks at: the hole cards, one street, or the second run. */
  ghost function Block(h: Hand, r: Request): Range {
    var n := |h.seats|;
    match r
    case Board(street) => BoardRange(n, street)
    case SecondRun(_) => Range(2 * n + 5, 52)
    case _ => Range(0, 2 * n)
  }

  lemma PositionsInBlock(h: Hand, r: Request)
    requires |h.seats| <= 9
    ensures forall i :: i in Positions(h, r) ==> Block(h, r).lo <= i < Block(h, r).hi
  {
    PositionsBound(h, r);
  }

  lemma PositionsDisjoint(h: Hand, a: Request, b: Request)
    requires |h.seats| <= 9 && a != b && !Overlapping(a, b)
    ensures Positions(h, a) !! Positions(h, b)
  {
    if a.Hole? && b.Hole? {
      HolesDisjoint(h.seats, a.seat, b.seat);
    } else if !a.Settle? && !b.Settle? {
      PositionsInBlock(h, a);
      PositionsInBlock(h, b);
      assert Block(h, a).hi <= Block(h, b).lo || Block(h, b).hi <= Block(h, a).lo;
    }
  }

  /** Every second run answered in a run diverges at the street the hand remembers. */
  ghost predicate SecondRunsFrom(told: seq<(Request, Reply)>, from: Option<Street>) {
    forall i :: 0 <= i < |told| && told[i].0.SecondRun? ==> Some(told[i].0.from) == from
  }

  lemma SecondRunFixes(h: Hand, r: Request)
    requires |h.seats| <= 9 && |h.deck| == 52 && Ask(h, r).Some?
    ensures var next := Ask(h, r).value.0;
            && (h.secondRunFrom.Some? ==> next.secondRunFrom == h.secondRunFrom)
            && (r.SecondRun? ==> next.secondRunFrom == Some(r.from))
  {
  }

  lemma {:induction false} OneSecondRun(h: Hand, rs: seq<Request>)
    requires |h.seats| <= 9 && |h.deck| == 52
    ensures SecondRunsFrom(Transcript(h, rs), Run(h, rs).secondRunFrom)
  {
    if rs != [] {
      var front, last := rs[..|rs| - 1], rs[|rs| - 1];
      OneSecondRun(h, front);
      if Ask(Run(h, front), last).Some? { SecondRunFixes(Run(h, front), last); }
    }
  }

  /** The requests answered in a run, apart from repeats and from hole cards shown again. */
  ghost predicate Distinguished(told: seq<(Request, Reply)>, i: nat, j: nat)
    requires i < |told| && j < |told|
  {
    var a, b := told[i].0, told[j].0;
    a != b && !(a.Showdown? && (b.Showdown? || b.Hole?)) && !(b.Showdown? && a.Hole?)
  }

  /**
   Over any run, two different requests that were answered disclose disjoint deck positions:
   hole cards, board streets and the second run, of which only one is ever answered.
   */
  lemma DisclosuresAreDisjoint(h: Hand, rs: seq<Request>, i: nat, j: nat)
    requires |h.seats| <= 9 && |h.deck| == 52
    requires i < |Transcript(h, rs)| && j < |Transcript(h, rs)| && Distinguished(Transcript(h, rs), i, j)
    ensures Positions(h, Transcript(h, rs)[i].0) !! Positions(h, Transcript(h, rs)[j].0)
  {
    var told := Transcript(h, rs);
    OneSecondRun(h, rs);
    assert !(told[i].0.SecondRun? && told[j].0.SecondRun?);
    PositionsDisjoint(h, told[i].0, told[j].0);
  }

  ghost predicate DuplicateFree(deck: seq<nat>) { forall x, y :: 0 <= x < y < |deck| ==> deck[x] != deck[y] }

  lemma DisjointCards(deck: seq<nat>, s: set<nat>, t: set<nat>)
    requires DuplicateFree(deck) && s !! t
    ensures At(deck, s) !! At(deck, t)
  {
    forall i: nat, j: nat | i in s && j in t && i < |deck| && j < |deck| ensures deck[i] != deck[j] {
      assert i != j;
    }
  }

  /** Over any run on a duplicate-free deck, the replies to two such requests share no card. */
  lemma DisclosedCardsDiffer(h: Hand, rs: seq<Request>, i: nat, j: nat)
    requires |h.seats| <= 9 && |h.deck| == 52 && DuplicateFree(h.deck)
    requires i < |Transcript(h, rs)| && j < |Transcript(h, rs)| && Distinguished(Transcript(h, rs), i, j)
    ensures CardsOf(Transcript(h, rs)[i].1) !! CardsOf(Transcript(h, rs)[j].1)
  {
    var told := Transcript(h, rs);
    RunIsFaithful(h, rs);
    DisclosuresAreDisjoint(h, rs, i, j);
    AnswerDiscloses(h, told[i].0);
    AnswerDiscloses(h, told[j].0);
    DisjointCards(h.deck, Positions(h, told[i].0), Positions(h, told[j].0));
  }

  lemma {:induction false} ShownContains(seats: seq<nat>, shown: seq<nat>, seat: nat)
    ensures seat in shown ==> HolePositions(seats, seat) <= ShownPositions(seats, shown)
    ensures seat !in shown ==> HolePositions(seats, seat) !! ShownPositions(seats, shown)
  {
    if shown != [] {
      var front, last := shown[..|shown| - 1], shown[|shown| - 1];
      assert shown == front + [last];
      ShownContains(seats, front, seat);
    }
  }

  /** A showdown discloses the hole positions of exactly its seats, and nothing new. */
  lemma ShowdownShowsItsSeats(h: Hand, shown: seq<nat>, seat: nat)
    ensures seat in shown ==> Positions(h, Hole(seat)) <= Positions(h, Showdown(shown))
    ensures seat !in shown ==> Positions(h, Hole(seat)) !! Positions(h, Showdown(shown))
  {
    SortDedupMeans(shown, seat);
    ShownContains(h.seats, SortDedup(shown), seat);
  }

  // ---- The settlement guard ----

  datatype RunTwice = RunTwice(from: Street, secondBoard: seq<nat>)
  datatype Entry = Entry(player: nat, card1: nat, card2: nat)
  datatype HandResult = HandResult(board: seq<nat>, runTwice: Option<RunTwice>, showdown: seq<Entry>)

  predicate CardAt(deck: seq<nat>, position: nat, card: nat) {
    position < |deck| && deck[position] == card
  }

  ghost predicate BoardMatches(n: nat, deck: seq<nat>, board: seq<nat>) {
    forall i :: 0 <= i < |board| ==> CardAt(deck, 2 * n + i, board[i])
  }

  ghost predicate SecondMatches(n: nat, deck: seq<nat>, board: seq<nat>, run: RunTwice) {
    var range := SecondRunRange(n, run.from);
    var shared := 5 - (range.hi - range.lo);
    && |run.secondBoard| == 5 && |board| == 5
    && run.secondBoard[..shared] == board[..shared]
    && forall i :: shared <= i < 5 ==> CardAt(deck, range.lo + i - shared, run.secondBoard[i])
  }

  /** The player was dealt, and holds in either order the cards at the seat's two positions. */
  predicate EntryMatches(seats: seq<nat>, deck: seq<nat>, e: Entry, seatOf: nat -> Option<nat>) {
    var seat := seatOf(e.player);
    seat.Some? && SeatIndex(seats, seat.value).Some? &&
      var p := SeatIndex(seats, seat.value).value;
      || (CardAt(deck, p, e.card1) && CardAt(deck, |seats| + p, e.card2))
      || (CardAt(deck, p, e.card2) && CardAt(deck, |seats| + p, e.card1))
  }

  /** The deck ends before the player's second card, where the source indexes it unchecked. */
  predicate EntryOutOfDeck(seats: seq<nat>, deck: seq<nat>, e: Entry, seatOf: nat -> Option<nat>) {
    var seat := seatOf(e.player);
    seat.Some? && SeatIndex(seats, seat.value).Some? && |seats| + SeatIndex(seats, seat.value).value >= |deck|
  }

  ghost predicate BoardsMatch(seats: seq<nat>, deck: seq<nat>, r: HandResult) {
    && BoardMatches(|seats|, deck, r.board)
    && (r.runTwice.Some? ==> SecondMatches(|seats|, deck, r.board, r.runTwice.value))
  }

  ghost predicate EntriesMatch(seats: seq<nat>, deck: seq<nat>, entries: seq<Entry>, seatOf: nat -> Option<nat>) {
    forall i :: 0 <= i < |entries| ==> EntryMatches(seats, deck, entries[i], seatOf)
  }

  ghost predicate ResultMatches(seats: seq<nat>, deck: seq<nat>, r: HandResult, seatOf: nat -> Option<nat>) {
    BoardsMatch(seats, deck, r) && EntriesMatch(seats, deck, r.showdown, seatOf)
  }

  /** After matching boards, the first entry that does not match lies beyond the deck. */
  ghost predicate RunsOffDeck(seats: seq<nat>, deck: seq<nat>, r: HandResult, seatOf: nat -> Option<nat>) {
    && BoardsMatch(seats, deck, r)
    && exists i :: 0 <= i < |r.showdown| && EntryOutOfDeck(seats, deck, r.showdown[i], seatOf)
         && EntriesMatch(seats, deck, r.showdown[..i], seatOf)
  }

  lemma FullDeckIsEnough(seats: seq<nat>, deck: seq<nat>, r: HandResult, seatOf: nat -> Option<nat>)
    requires 2 * |seats| <= |deck|
    ensures !RunsOffDeck(seats, deck, r, seatOf)
  {
  }

  method BoardAgrees(n: nat, deck: seq<nat>, board: seq<nat>) returns (ok: bool)
    ensures ok <==> BoardMatches(n, deck, board)
  {
    for i := 0 to |board|
      invariant forall k :: 0 <= k < i ==> CardAt(deck, 2 * n + k, board[k])
    {
      if !CardAt(deck, 2 * n + i, board[i]) { return false; }
    }
    ok := true;
  }

  method SecondAgrees(n: nat, deck: seq<nat>, board: seq<nat>, run: RunTwice) returns (ok: bool)
    ensures ok <==> SecondMatches(n, deck, board, run)
  {
    var range := SecondRunRange(n, run.from);
    var shared := 5 - (range.hi - range.lo);
    if |run.secondBoard| != 5 || |board| != 5 || run.secondBoard[..shared] != board[..shared] { return false; }
    for i := shared to 5
      invariant forall k :: shared <= k < i ==> CardAt(deck, range.lo + k - shared, run.secondBoard[k])
    {
      if !CardAt(deck, range.lo + i - shared, run.secondBoard[i]) { return false; }
    }
    ok := true;
  }

  datatype Verdict = Accepted | Refused | Panicked

  /** `check_settled_cards`: accepts exactly the results whose cards sit at their deck positions. */
  method CheckSettledCards(seats: seq<nat>, deck: seq<nat>, r: HandResult, seatOf: nat -> Option<nat>) returns (v: Verdict)
    ensures v == Accepted <==> ResultMatches(seats, deck, r, seatOf)
    ensures v == Panicked <==> RunsOffDeck(seats, deck, r, seatOf)
  {
    var ok := BoardAgrees(|seats|, deck, r.board);
    if !ok { return Refused; }
    if r.runTwice.Some? {
      ok := SecondAgrees(|seats|, deck, r.board, r.runTwice.value);
      if !ok { return Refused; }
    }
    for i := 0 to |r.showdown|
      invariant forall k :: 0 <= k < i ==> EntryMatches(seats, deck, r.showdown[k], seatOf)
    {
      if EntryOutOfDeck(seats, deck, r.showdown[i], seatOf) {
        assert EntriesMatch(seats, deck, r.showdown[..i], seatOf);
        return Panicked;
      }
      if !EntryMatches(seats, deck, r.showdown[i], seatOf) { return Refused; }
    }
    v := Accepted;
  }

  /** The board is what the dealer told of the flop, the turn and the river, as far as the hand went. */
  ghost predicate HonestBoard(told: seq<(Request, Reply)>, board: seq<nat>) {
    && (|board| == 0 || 3 <= |board| <= 5)
    && (|board| >= 3 ==> (Board(Flop), Cards(board[..3])) in told)
    && (|board| >= 4 ==> (Board(Turn), Cards(board[3..4])) in told)
    && (|board| == 5 ==> (Board(River), Cards(board[4..])) in told)
  }

  /** The second board keeps the head of a full first board and ends with the told second run. */
  ghost predicate HonestSecond(told: seq<(Request, Reply)>, board: seq<nat>, run: RunTwice) {
    exists tail :: (SecondRun(run.from), Cards(tail)) in told
      && |board| == 5 && |tail| <= 5 && run.secondBoard == board[..5 - |tail|] + tail
  }

  /** A showdown entry holds, in either order, the cards told for that player's seat. */
  ghost predicate HonestEntry(told: seq<(Request, Reply)>, e: Entry, seatOf: nat -> Option<nat>) {
    exists shown: seq<nat>, holes: seq<(nat, (nat, nat))>, hole: (nat, (nat, nat)) ::
      && (Showdown(shown), Seats(holes)) in told && hole in holes
      && seatOf(e.player) == Some(hole.0)
      && (hole.1 == (e.card1, e.card2) || hole.1 == (e.card2, e.card1))
  }

  /** A result put together from what the dealer told. */
  ghost predicate Honest(told: seq<(Request, Reply)>, r: HandResult, seatOf: nat -> Option<nat>) {
    && HonestBoard(told, r.board)
    && (r.runTwice.Some? ==> HonestSecond(told, r.board, r.runTwice.value))
    && forall i :: 0 <= i < |r.showdown| ==> HonestEntry(told, r.showdown[i], seatOf)
  }

  lemma ToldStreet(h: Hand, told: seq<(Request, Reply)>, street: Street, cards: seq<nat>)
    requires |h.seats| <= 9 && |h.deck| == 52 && Faithful(h, told) && (Board(street), Cards(cards)) in told
    ensures cards == h.deck[BoardRange(|h.seats|, street).lo..BoardRange(|h.seats|, street).hi]
  {
  }

  /** The board check pins the settled board to the deck after the hole cards. */
  lemma BoardMatchesIsSlice(n: nat, deck: seq<nat>, board: seq<nat>)
    requires 2 * n <= |deck|
    ensures BoardMatches(n, deck, board)
            <==> 2 * n + |board| <= |deck| && board == deck[2 * n..2 * n + |board|]
  {
    if BoardMatches(n, deck, board) && board != [] {
      assert CardAt(deck, 2 * n + |board| - 1, board[|board| - 1]);
    }
  }

  lemma HonestBoardMatches(h: Hand, told: seq<(Request, Reply)>, board: seq<nat>)
    requires |h.seats| <= 9 && |h.deck| == 52 && Faithful(h, told) && HonestBoard(told, board)
    ensures BoardMatches(|h.seats|, h.deck, board)
  {
    if |board| >= 3 { ToldStreet(h, told, Flop, board[..3]); }
    if |board| >= 4 { ToldStreet(h, told, Turn, board[3..4]); }
    if |board| == 5 { ToldStreet(h, told, River, board[4..]); }
    SlicesMatch(|h.seats|, h.deck, board);
  }

  lemma SlicesMatch(n: nat, deck: seq<nat>, board: seq<nat>)
    requires n <= 9 && |deck| == 52 && (|board| == 0 || 3 <= |board| <= 5)
    requires |board| >= 3 ==> board[..3] == deck[2 * n..2 * n + 3]
    requires |board| >= 4 ==> board[3..4] == deck[2 * n + 3..2 * n + 4]
    requires |board| == 5 ==> board[4..] == deck[2 * n + 4..2 * n + 5]
    ensures BoardMatches(n, deck, board)
  {
    forall i | 0 <= i < |board| ensures CardAt(deck, 2 * n + i, board[i]) {
      if i < 3 { assert board[..3][i] == board[i]; }
      else if i == 3 { assert board[3..4][0] == board[3]; }
      else { assert board[4..][0] == board[4]; }
    }
  }

  lemma ToldSecondRun(h: Hand, told: seq<(Request, Reply)>, from: Street, cards: seq<nat>)
    requires |h.seats| <= 9 && |h.deck| == 52 && Faithful(h, told) && (SecondRun(from), Cards(cards)) in told
    ensures cards == h.deck[SecondRunRange(|h.seats|, from).lo..SecondRunRange(|h.seats|, from).hi]
  {
  }

  lemma TailMatches(n: nat, deck: seq<nat>, board: seq<nat>, run: RunTwice, tail: seq<nat>)
    requires n <= 9 && |deck| == 52 && |board| == 5
    requires tail == deck[SecondRunRange(n, run.from).lo..SecondRunRange(n, run.from).hi]
    requires run.secondBoard == board[..5 - |tail|] + tail
    ensures SecondMatches(n, deck, board, run)
  {
    var range := SecondRunRange(n, run.from);
    SecondBoardEnds(board, tail, run.secondBoard);
    TailSits(deck, range.lo, range.hi, run.secondBoard);
  }

  lemma TailSits(deck: seq<nat>, lo: nat, hi: nat, second: seq<nat>)
    requires lo <= hi <= lo + 5 && hi <= |deck| && |second| == 5
    requires forall i :: 5 - (hi - lo) <= i < 5 ==> second[i] == deck[lo..hi][i - (5 - (hi - lo))]
    ensures forall i :: 5 - (hi - lo) <= i < 5 ==> CardAt(deck, lo + i - (5 - (hi - lo)), second[i])
  {
  }

  lemma SecondBoardEnds(board: seq<nat>, tail: seq<nat>, second: seq<nat>)
    requires |board| == 5 && |tail| <= 5 && second == board[..5 - |tail|] + tail
    ensures |second| == 5 && second[..5 - |tail|] == board[..5 - |tail|]
    ensures forall i :: 5 - |tail| <= i < 5 ==> second[i] == tail[i - (5 - |tail|)]
  {
  }

  lemma HonestSecondMatches(h: Hand, told: seq<(Request, Reply)>, board: seq<nat>, run: RunTwice)
    requires |h.seats| <= 9 && |h.deck| == 52 && Faithful(h, told) && HonestSecond(told, board, run)
    ensures SecondMatches(|h.seats|, h.deck, board, run)
  {
    var tail :| (SecondRun(run.from), Cards(tail)) in told
      && |board| == 5 && |tail| <= 5 && run.secondBoard == board[..5 - |tail|] + tail;
    ToldSecondRun(h, told, run.from, tail);
    TailMatches(|h.seats|, h.deck, board, run, tail);
  }

  lemma HonestEntryMatches(h: Hand, told: seq<(Request, Reply)>, e: Entry, seatOf: nat -> Option<nat>)
    requires |h.seats| <= 9 && |h.deck| == 52 && Faithful(h, told) && HonestEntry(told, e, seatOf)
    ensures EntryMatches(h.seats, h.deck, e, seatOf)
  {
    var shown: seq<nat>, holes: seq<(nat, (nat, nat))>, hole: (nat, (nat, nat)) :|
      && (Showdown(shown), Seats(holes)) in told && hole in holes
      && seatOf(e.player) == Some(hole.0)
      && (hole.1 == (e.card1, e.card2) || hole.1 == (e.card2, e.card1));
    ToldHole(h, told, shown, holes, hole);
    EntryFromHole(h.seats, h.deck, e, seatOf, hole);
  }

  lemma EntryFromHole(seats: seq<nat>, deck: seq<nat>, e: Entry, seatOf: nat -> Option<nat>, hole: (nat, (nat, nat)))
    requires 2 * |seats| <= |deck| && seatOf(e.player) == Some(hole.0) && HoleCards(seats, deck, hole.0) == Some(hole.1)
    requires hole.1 == (e.card1, e.card2) || hole.1 == (e.card2, e.card1)
    ensures EntryMatches(seats, deck, e, seatOf)
  {
  }

  lemma ToldHole(h: Hand, told: seq<(Request, Reply)>, shown: seq<nat>, holes: seq<(nat, (nat, nat))>, hole: (nat, (nat, nat)))
    requires |h.seats| <= 9 && |h.deck| == 52 && Faithful(h, told)
    requires (Showdown(shown), Seats(holes)) in told && hole in holes
    ensures HoleCards(h.seats, h.deck, hole.0) == Some(hole.1)
  {
    var i :| 0 <= i < |told| && told[i] == (Showdown(shown), Seats(holes));
    assert told[i].1 == Answer(h, told[i].0);
    HolesAreHoleCards(h.seats, h.deck, SortDedup(shown), hole);
  }

  /** The guard accepts every result built from what the dealer disclosed, on any run. */
  lemma HonestResultsPass(seats: seq<nat>, deck: seq<nat>, rs: seq<Request>, r: HandResult, seatOf: nat -> Option<nat>)
    requires DealHand(seats, deck).Some?
    requires Honest(Transcript(DealHand(seats, deck).value, rs), r, seatOf)
    ensures ResultMatches(DealHand(seats, deck).value.seats, deck, r, seatOf)
  {
    var h := DealHand(seats, deck).value;
    var told := Transcript(h, rs);
    RunIsFaithful(h, rs);
    HonestBoardMatches(h, told, r.board);
    if r.runTwice.Some? { HonestSecondMatches(h, told, r.board, r.runTwice.value); }
    forall i | 0 <= i < |r.showdown| ensures EntryMatches(h.seats, deck, r.showdown[i], seatOf) {
      HonestEntryMatches(h, told, r.showdown[i], seatOf);
    }
  }
}
