/**
 Which requests the sealed dealer answers, said of what it has answered so far, and how the deck
 is laid out.
 */
module SealedHistory {
  import opened Outcomes
  import opened SortedLists
  import opened SealedDealer
  import Decks

  // ---- Dealing a hand ----

  /** A hand is dealt exactly for two to nine different seats and a full deck, to each of them once. */
  lemma DealtExactly(seats: seq<nat>, deck: seq<nat>)
    ensures DealHand(seats, deck).Some? <==> 2 <= |Decks.Elements(seats)| <= 9 && |deck| == 52
    ensures DealHand(seats, deck).Some? ==>
              var h := DealHand(seats, deck).value;
              && h.deck == deck && Decks.Elements(h.seats) == Decks.Elements(seats) && StrictlyIncreasing(h.seats)
              && h.stage == 0 && h.secondRunFrom.None? && h.showdownSeats.None?
  {
    var sorted := SortDedup(seats);
    forall s: nat ensures s in Decks.Elements(sorted) <==> s in Decks.Elements(seats) { SortDedupMeans(seats, s); }
    assert Decks.Elements(sorted) == Decks.Elements(seats);
    Decks.DistinctSize(sorted);
  }

  // ---- The layout of the deck ----

  /** How many cards of a five-card board are dealt from street `from` on. */
  function CardsFrom(n: nat, from: Street): nat { BoardRange(n, River).hi - BoardRange(n, from).lo }

  /**
   Hole cards, flop, turn, river and second run follow each other without gap or overlap, and a
   second run replaces exactly the board cards dealt from the street where it diverges.
   */
  lemma DeckIsLaidOut(n: nat, from: Street)
    requires !from.Preflop?
    ensures BoardRange(n, Flop).lo == 2 * n && BoardRange(n, Turn).lo == BoardRange(n, Flop).hi
    ensures BoardRange(n, River).lo == BoardRange(n, Turn).hi && SecondRunRange(n, from).lo == BoardRange(n, River).hi
    ensures BoardRange(n, River).hi - BoardRange(n, Flop).lo == 5
    ensures BoardRange(n, Turn).hi - BoardRange(n, Turn).lo == 1 && BoardRange(n, River).hi - BoardRange(n, River).lo == 1
    ensures SecondRunRange(n, from).hi - SecondRunRange(n, from).lo == CardsFrom(n, from)
    ensures n <= 9 ==> SecondRunRange(n, from).hi <= 52
  {
  }

  /** Replies show cards in the order they were dealt: a street from left to right, a hole one card per round of the deal. */
  lemma RepliesInDealOrder(h: Hand, r: Request)
    requires |h.seats| <= 9 && |h.deck| == 52 && Ask(h, r).Some?
    ensures var reply := Ask(h, r).value.1;
            && (r.Board? && !r.street.Preflop? ==>
                  && reply.Cards? && |reply.cards| == (if r.street.Flop? then 3 else 1)
                  && forall k :: 0 <= k < |reply.cards| ==> reply.cards[k] == h.deck[BoardRange(|h.seats|, r.street).lo + k])
            && (r.SecondRun? ==>
                  && reply.Cards? && |reply.cards| == CardsFrom(|h.seats|, r.from)
                  && forall k :: 0 <= k < |reply.cards| ==> reply.cards[k] == h.deck[2 * |h.seats| + 5 + k])
            && (r.Hole? ==>
                  reply.Pair? && exists p :: 0 <= p < |h.seats| && h.seats[p] == r.seat
                                   && reply.hole == (h.deck[p], h.deck[|h.seats| + p]))
  {
  }

  // ---- What has been answered ----

  /** Some showdown of exactly these seats was answered. */
  ghost predicate ShownSeats(told: seq<(Request, Reply)>, seats: seq<nat>) {
    exists i :: 0 <= i < |told| && told[i].0.Showdown? && SortDedup(told[i].0.shown) == seats
  }

  ghost predicate AnsweredFrom(told: seq<(Request, Reply)>, reached: bool, r: Request) {
    reached <==> Answered(told, r) || Answered(told, Settle)
  }

  /** The fields of a hand are what its answers made of it. */
  ghost predicate Recorded(h: Hand, told: seq<(Request, Reply)>) {
    && (h.stage == SETTLED <==> Answered(told, Settle))
    && AnsweredFrom(told, h.stage >= 1, Board(Flop))
    && AnsweredFrom(told, h.stage >= 2, Board(Turn))
    && AnsweredFrom(told, h.stage >= 3, Board(River))
    && (forall from :: h.secondRunFrom == Some(from) <==> Answered(told, SecondRun(from)))
    && (forall seats :: h.showdownSeats == Some(seats) <==> ShownSeats(told, seats))
  }

  lemma ShownAppend(told: seq<(Request, Reply)>, r: Request, reply: Reply, seats: seq<nat>)
    ensures ShownSeats(told + [(r, reply)], seats)
            <==> ShownSeats(told, seats) || (r.Showdown? && SortDedup(r.shown) == seats)
  {
    var all := told + [(r, reply)];
    assert all[|told|] == (r, reply);
    if ShownSeats(told, seats) {
      var i :| 0 <= i < |told| && told[i].0.Showdown? && SortDedup(told[i].0.shown) == seats;
      assert all[i] == told[i];
    }
  }

  lemma AskRecordsStage(h: Hand, told: seq<(Request, Reply)>, r: Request)
    requires |h.seats| <= 9 && |h.deck| == 52 && Recorded(h, told) && Ask(h, r).Some?
    ensures var g, all := Ask(h, r).value.0, told + [(r, Ask(h, r).value.1)];
            && (g.stage == SETTLED <==> Answered(all, Settle))
            && AnsweredFrom(all, g.stage >= 1, Board(Flop))
            && AnsweredFrom(all, g.stage >= 2, Board(Turn))
            && AnsweredFrom(all, g.stage >= 3, Board(River))
  {
    var reply := Ask(h, r).value.1;
    AnsweredAppend(told, r, reply, Settle);
    AnsweredAppend(told, r, reply, Board(Flop));
    AnsweredAppend(told, r, reply, Board(Turn));
    AnsweredAppend(told, r, reply, Board(River));
  }

  lemma AskRecordsChoices(h: Hand, told: seq<(Request, Reply)>, r: Request)
    requires |h.seats| <= 9 && |h.deck| == 52 && Recorded(h, told) && Ask(h, r).Some?
    ensures var g, all := Ask(h, r).value.0, told + [(r, Ask(h, r).value.1)];
            && (forall from :: g.secondRunFrom == Some(from) <==> Answered(all, SecondRun(from)))
            && (forall seats :: g.showdownSeats == Some(seats) <==> ShownSeats(all, seats))
  {
    var g, reply := Ask(h, r).value.0, Ask(h, r).value.1;
    forall from ensures g.secondRunFrom == Some(from) <==> Answered(told + [(r, reply)], SecondRun(from)) {
      AnsweredAppend(told, r, reply, SecondRun(from));
      assert h.secondRunFrom == Some(from) <==> Answered(told, SecondRun(from));
    }
    forall seats ensures g.showdownSeats == Some(seats) <==> ShownSeats(told + [(r, reply)], seats) {
      ShownAppend(told, r, reply, seats);
      assert h.showdownSeats == Some(seats) <==> ShownSeats(told, seats);
    }
  }

  lemma {:induction false} RunIsRecorded(h: Hand, rs: seq<Request>)
    requires |h.seats| <= 9 && |h.deck| == 52 && h.stage == 0 && h.secondRunFrom.None? && h.showdownSeats.None?
    ensures Recorded(Run(h, rs), Transcript(h, rs))
  {
    if rs != [] {
      var front, last := rs[..|rs| - 1], rs[|rs| - 1];
      var told, asked := Transcript(h, front), Ask(Run(h, front), last);
      RunIsRecorded(h, front);
      if asked.Some? {
        AskRecordsStage(Run(h, front), told, last);
        AskRecordsChoices(Run(h, front), told, last);
        assert Transcript(h, rs) == told + [(last, asked.value.1)];
      } else {
        assert Transcript(h, rs) == told;
      }
    }
  }

  // ---- Which requests are answered ----

  /** At least two different seats, all of them dealt. */
  ghost predicate TwoDealtSeats(seats: seq<nat>, shown: seq<nat>) {
    && (forall s :: s in shown ==> s in seats)
    && exists s, t :: s in shown && t in shown && s != t
  }

  /** The rules, said of what was answered before. A settled hand shows every street and seat, but no second run. */
  ghost predicate May(h: Hand, told: seq<(Request, Reply)>, r: Request) {
    var settled := Answered(told, Settle);
    match r
    case Hole(seat) => seat in h.seats
    case Board(Preflop) => false
    case Board(Flop) => true
    case Board(Turn) => settled || Answered(told, Board(Flop))
    case Board(River) => settled || Answered(told, Board(Turn))
    case SecondRun(from) =>
      && !settled && Answered(told, Board(River)) && !from.Preflop?
      && forall f :: Answered(told, SecondRun(f)) ==> f == from
    case Showdown(shown) =>
      && (settled || Answered(told, Board(River)))
      && TwoDealtSeats(h.seats, shown)
      && forall seats :: ShownSeats(told, seats) ==> seats == SortDedup(shown)
    case Settle => true
  }

  lemma TwoDealtSorted(seats: seq<nat>, shown: seq<nat>)
    ensures |SortDedup(shown)| >= 2 && AllIn(SortDedup(shown), seats) <==> TwoDealtSeats(seats, shown)
  {
    var sorted := SortDedup(shown);
    forall s ensures s in sorted <==> s in shown { SortDedupMeans(shown, s); }
    if |sorted| >= 2 {
      assert sorted[0] in sorted && sorted[1] in sorted;
    }
  }

  /** Over any run from a fresh hand, a request is answered if and only if the rules allow it. */
  lemma AnsweredExactlyWhenAllowed(h: Hand, rs: seq<Request>, r: Request)
    requires |h.seats| <= 9 && |h.deck| == 52 && h.stage == 0 && h.secondRunFrom.None? && h.showdownSeats.None?
    ensures Ask(Run(h, rs), r).Some? <==> May(h, Transcript(h, rs), r)
  {
    var g, told := Run(h, rs), Transcript(h, rs);
    RunIsRecorded(h, rs);
    match r
    case SecondRun(from) =>
      if g.secondRunFrom.Some? { assert Answered(told, SecondRun(g.secondRunFrom.value)); }
      forall f | Answered(told, SecondRun(f)) ensures g.secondRunFrom == Some(f) { }
    case Showdown(shown) =>
      TwoDealtSorted(h.seats, shown);
      if g.showdownSeats.Some? { assert ShownSeats(told, g.showdownSeats.value); }
      forall seats | ShownSeats(told, seats) ensures g.showdownSeats == Some(seats) { }
    case _ =>
  }
}
