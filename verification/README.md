# Bluffking verification

A Dafny model of the parts of Bluffking where chips, beans and cards can go wrong, with proofs over
every run. `dafny verify dfyconfig.toml` checks the whole project.

| area | files | what is proved |
|---|---|---|
| No-limit betting round | `BettingRound`, `BettingMachine`, `BettingInvariant`, `BettingTheorems`, `BettingClosing` | exact legality of actions and forfeits, who is to act, exactly when a round is over, what an opening seats and posts, chip conservation, termination, reopening of the betting |
| Side pots | `SidePots`, `SortedLists` | the layered algorithm against sums of min(c_p, c_q) and uncalled bets |
| Gold-bean authority | `BeanLedger`, `BeanHistory`, `BeanAuthority`, `BeanProtocol`, `BeanOverlay`, `BeanRetirement`, `BeanReader`, `BeanIndex`, `BeanHands`, `BeanMachine`, `BeanProjection`, `Sums` | memory = SQL + exactly the accepted, uncommitted effects, under every interleaving, and no accepted effect is lost; rank indexes, counters and fences; every section of a ready authority is, for each user, one event of that protocol |
| Bean reservations | `BeanReservations`, `SicboReservations` | which debits leave pending settlements committable; wagers stay reserved until durable |
| Ordered write-behind | `WriteBehind`, `RoomPersistence` | contiguous unsaved sequences, the meaning of `durable()`, written values hold what was accepted, settlement exactly once down to every balance |
| Decks | `Decks`, `FairDeck`, `CardProof`, `HashPreimage` | Fisher-Yates as a bijection, every order from equally many accepted draws, shuffle witnesses, rebinding, injective pre-images |
| Solver | `SolveCache`, `CfrLoop` | cache bookkeeping and precedence, stop reasons and deadline of the CFR loop |
| Sealed dealer | `SealedDealer`, `SealedHistory` | staged, repeatable, disjoint disclosures, answered exactly when allowed; the settlement guard accepts honest results |

Code that updates state in place is a class or a method with loops, proved equal to a function on
the value of that state (`View()`); theorems about runs are lemmas about those functions. A run is a
sequence of events, each of which the step function accepts or refuses.

Assumptions, all visible in the model:

- Chips: player ids are distinct, all stacks together, the opening bet and the big blind are at most
  0x7FFF_FFFF, so 32-bit saturation (modelled by `SatAdd`) is never reached, and the big blind is
  positive. `ZeroBlindNeverEnds` shows that the last condition is needed for termination.
- Beans: epochs do not wrap, version-5 UUIDs do not collide, other writers use record ids of their own,
  and a deleted account is not revived. Runs are `Orderly`: an accepted record is new, or a repeat the
  authority still remembers. A purged account's row is hidden from reads, so the theorems about its
  wallet stop at the purge. A missing wallet row counts as the first-use grant that any settlement
  inserts before it. Hydration is the initial state; a refresh may start, stall or be dropped at any
  time. A guard takes the mutex more than once, and other events may come in between; dropped, it may
  leave its transaction running. The snapshot waits for the transactions it sampled.
- Rooms: one owner per room row and the `persist` path only. Commit, lost acknowledgement and failure
  are chosen freely, and a round names each player once. A player without a wallet is passed over, as
  by `persist_round` (draw-games/src/sicbo_room/store.rs:585).
- Cards: hashes and encryption are symbolic, so equal means equal inputs. The random choices of a
  shuffle are a parameter; `card_proof.rs` uses the `rand` crate's slice shuffle, taken to be the same
  Fisher-Yates form.
- Solver: exploitability is a real number (no NaN), and only the three kinds of pass take time.

Where the code and a stated property disagree, the code is followed:

- A debit of nothing always passes `available`, which is never negative, even when pending losses
  depend on an uncommitted win; and no debit makes room for pending gains on a row near the 64-bit
  limit. `DebitLeavesPendingCommittable` gives the exact condition.
- The authority does not ask SQL about a record it no longer remembers. A hand accepted again after it
  was committed, acknowledged and forgotten is counted twice in memory (`ForgottenHandCountsTwice`);
  `HandCountsOnceExactly` and `EffectCountsOnceExactly` give the exact condition.
- The context binding is ambiguous on contexts that were not validated (`UnvalidatedBindingCollides`),
  which `reorder_cards` (mental-poker/src/card_proof.rs:524) does not ask for. `BindingAgreesExactly`
  says which contexts share a binding; on validated ones it is injective.

## Model

| member | source | states |
|---|---|---|
| `BettingMachine.BettingRound.New` | engine/src/round.rs:116-157 | the opened object is the opening function of its inputs, which `StartSeatsEveryone` describes: broke seats all-in, the first live seat from the starting one to act, closing rules applied |
| `BettingMachine.BettingRound.NewPreflop` | engine/src/round.rs:160-224 | the same with blinds posted one by one, capped by each stack, and the bet floored at the big blind |
| `BettingMachine.PostAll` | engine/src/round.rs:176-192 | the blind loop computes the posted players, bet level and pot |
| `BettingMachine.BettingRound.Advance` | engine/src/round.rs:755-769 | moves to the next live seat in cyclic order, or closes the round when there is none |
| `BettingMachine.BettingRound.SeekActive` | engine/src/round.rs:772-787 | stays on the first live seat from the starting one, or closes the round |
| `BettingMachine.BettingRound.CheckDone` | engine/src/round.rs:790-869 | the closing rules, with the lone live stack compared to the largest actual opponent contribution and the floored bet lowered to it |
| `BettingMachine.BettingRound.PlayerCanRaise` | engine/src/round.rs:288-313 | raise rights need chips beyond the call, another live stack, and a fresh or reopened turn |
| `BettingMachine.BettingRound.PlaceWager` | engine/src/round.rs:395-520 | chips, bet level, minimum raise and counters after each kind of wager, or its refusal with nothing changed |
| `BettingMachine.BettingRound.ApplyAction` | engine/src/round.rs:328-556 | an accepted action leaves the round of the step function and returns the chips moved; a refused one returns its error and changes nothing |
| `BettingMachine.BettingRound.ForfeitPlayer` | engine/src/round.rs:560-586 | a player leaves in or out of turn; unknown, folded and last players are refused with nothing changed |
| `BettingInvariant.ActionKeepsInv` | engine/src/round.rs:328-556 | every accepted action keeps the turn-order, counter and chip invariant, conserves chips, adds what moved to the pot, and never lowers the minimum raise |
| `BettingInvariant.ForfeitKeepsInv` | engine/src/round.rs:560-586 | every accepted forfeit keeps the same invariant, the chips, the pot and the minimum raise |
| `BettingInvariant.CheckDoneKeepsInv` | engine/src/round.rs:790-869 | the closing rules restore the invariant: a round left open has an actor who owes an action, a closed one with two live stacks is matched; only the bet of a lone live stack is lowered |
| `BettingTheorems.StartKeepsInv` | engine/src/round.rs:116-224 | every legal opening, with any blinds, satisfies the invariant and conserves the chips |
| `BettingClosing.StartSeatsEveryone` | engine/src/round.rs:116-224 | every seat of an opening holds its stack less what it posted, which is all that was asked of it or all it had; the pot holds what was posted; the first live seat from the starting one is to act; the bet is the one named, or the largest posting and at least the big blind, unless a lone live stack faces less |
| `BettingTheorems.AcceptedExactlyWhenAllowed` | engine/src/round.rs:328-556 | an action is accepted if and only if the round is open, it is that player's turn and the betting rules allow it |
| `BettingClosing.RefusalsSayWhy` | engine/src/round.rs:328-480 | the error of a refused action: finished, out of turn, below the minimum raise exactly for a raise the player could afford and has the right to make, invalid otherwise |
| `BettingClosing.CanRaiseExactly` | engine/src/round.rs:288-313 | the actor may raise if and only if some action of theirs would be accepted and raise the bet |
| `BettingTheorems.ActionMovesChips` | engine/src/round.rs:400-520 | a call goes to the bet or all-in, a raise to exactly its amount, an all-in empties the stack, a check and a fold move nothing; the seat remembers the bet it left |
| `BettingTheorems.ActionReopens` | engine/src/round.rs:432-550 | minimum raise and the others' `has_acted` change exactly on a full raise; the bet is the largest wager; nobody else's chips move |
| `BettingTheorems.ActionCounts` | engine/src/round.rs:522-550 | a full raise makes `actions_remaining` the number of other live players, any other action lowers it by one |
| `BettingClosing.ActionPassesTurn` | engine/src/round.rs:552-556 | the turn goes to the next live seat and the bet is the largest wager, unless a lone live stack is asked for less |
| `BettingClosing.LeavesExactly` | engine/src/round.rs:560-575 | a player may leave if and only if they are in the hand and somebody else is; the error says which failed |
| `BettingClosing.LeavingFoldsOneSeat` | engine/src/round.rs:560-586 | leaving folds that seat, moves no chips and passes the turn only if it was theirs |
| `BettingTheorems.RunsPlayInTurn` | engine/src/round.rs:328-586 | over every run, live players who owe an action form one contiguous cyclic run from the current actor; a round closed with two live stacks has everyone matched and acted; chips are conserved; the minimum raise never falls below the big blind |
| `BettingClosing.RunsCloseExactly` | engine/src/round.rs:790-869 | over every run a round is over if and only if nobody is live, or a lone live stack has nothing larger to answer, or two or more live players have all acted and matched the bet; a lone live stack still asked faces exactly the largest contribution made by anyone in the hand |
| `BettingTheorems.NothingToCallMeansPending` | engine/src/round.rs:522-550 | an actor with nothing to call always sees actions remaining |
| `BettingTheorems.ActionMakesProgress` | engine/src/round.rs:400-556 | every accepted action lowers (total stacks, live players, actions remaining) lexicographically |
| `BettingTheorems.EventLowersRank` | engine/src/round.rs:328-586 | every accepted action or forfeit lowers one natural number |
| `BettingTheorems.RunsAreBounded` | engine/src/round.rs:328-586 | every betting round ends: no run is longer than the rank of its opening |
| `BettingTheorems.ZeroBlindNeverEnds` | engine/src/round.rs:432-484 | with a zero big blind, runs of every length are accepted |
| `BettingTheorems.RaiseNeedsReopening` | engine/src/round.rs:288-393 | a player who already acted raises the bet again only if it rose by at least a full raise since their last action in the run, for any mix of raises and short all-ins |
| `BettingTheorems.FlagAgreesWithArithmetic` | engine/src/round.rs:288-325 | with two live stacks, a cleared `has_acted` and the arithmetic reopening test grant the same right |
| `SidePots.ComputeSidePots` | engine/src/round.rs:589-692 | the loop over sorted levels computes the layered pots |
| `SidePots.BuildLayer` | engine/src/round.rs:627-689 | one level yields at most one pot, with its refund rule |
| `SidePots.PotsWinnable` | engine/src/round.rs:589-692 | the pots a live player is eligible for total the sum over everyone of min(c_q, c_p) |
| `SidePots.PotsRefunded` | engine/src/round.rs:645-670 | a live player's refund is exactly what nobody else matched: max(0, c_p minus the largest other contribution) |
| `SidePots.PotsTotal` | engine/src/round.rs:589-692 | no chip is lost while someone has not folded, even a folded player's uncalled overage |
| `SidePots.PotsAreTheLevels` | engine/src/round.rs:627-689 | there is exactly one pot per positive level, in order: slice times contributors, won by the unfolded players who reached it, and returned to its contributors exactly if it has no winners or one player alone, folded ones counted, paid into it |
| `SidePots.ReachingInSeatOrder` | engine/src/round.rs:640-655 | winners and contributors are listed in seat order |
| `SidePots.SliceIsProduct` | engine/src/round.rs:632-643 | between neighbouring levels the chips are the slice times the number of contributors |
| `BeanLedger.CommittedReceipts` | draw-games/src/wallet.rs:888-907 | the receipt pass finds exactly the settlements some row proves, and refuses only on a mismatched or repeated settlement |
| `BeanLedger.ReceiptsFindCommitted` | draw-games/src/wallet.rs:878-907 | on a ledger written by settlements the pass never refuses and finds exactly the committed ones, under their own or quarantine id |
| `BeanLedger.ReceiptCommits` | draw-games/src/beans.rs:484-505 | writing a receipt, quarantined if a legacy one is in the way, commits that settlement and no other pending one |
| `BeanReader.PendingTotal` | draw-games/src/beans_read_memory.rs:979-989 | the sum of the effects not seen in SQL, whatever the map order; refused only on overflow |
| `BeanReader.ReadUser` | draw-games/src/beans_read_memory.rs:923-1022 | the loaded wallet is the SQL wallet plus exactly the uncommitted effects; refused only if there is none or it overflows |
| `BeanReader.CapturedIsReadable` | draw-games/src/beans_read_memory.rs:1025-1090 | over every run the current overlays meet what the reader asks of them |
| `BeanHistory.CommitMovesEffect` | draw-games/src/beans.rs:425-509 | a SQL commit moves exactly one accepted effect out of what is owed |
| `BeanHistory.OwedIsOverlaid` | draw-games/src/beans_read_memory.rs:979-1015 | what is owed is the sum over both overlays of what SQL does not hold |
| `BeanOverlay.OverlayReconciles` | draw-games/src/beans_read_memory.rs:962-1019 | what a snapshot read loads reconciles with that snapshot |
| `BeanProtocol.AcceptPokerKeeps` | draw-games/src/beans_read_memory.rs:485-553 | accepting a hand keeps the invariant, with its effect added to what is owed |
| `BeanProtocol.AcceptEffectKeeps` | draw-games/src/beans_pending_effects.rs:37-107 | accepting a lottery effect keeps the invariant, with its effect added to what is owed |
| `BeanProtocol.AckPokerKeeps` | draw-games/src/beans_read_memory.rs:566-595 | a hand's acknowledgement removes its overlay without changing what is owed |
| `BeanProtocol.AckEffectKeeps` | draw-games/src/beans_pending_effects.rs:109-126 | the same for a lottery effect |
| `BeanOverlay.EvictHandKept` | draw-games/src/beans_read_memory.rs:588-593 | forgetting an acknowledged hand loses no accepted effect |
| `BeanProtocol.AbandonKeeps` | draw-games/src/beans_pending_effects.rs:130-147 | an abandoned effect hides the wallet until it is reloaded, even if its transaction is still running |
| `BeanOverlay.AbandonKept` | draw-games/src/beans_pending_effects.rs:130-147 | abandoning one effect leaves every other accepted effect committed or overlaid unchanged |
| `BeanProtocol.BeginWatchKeeps` | draw-games/src/beans_read_memory.rs:263-277 | counting a guard outdates every read in flight; the wallet may stay visible, since nothing is written yet |
| `BeanProtocol.BeginFenceKeeps` | draw-games/src/beans_read_memory.rs:278-280 | the fence that follows, in a critical section of its own, hides the wallet before the transaction, whatever happened in between and even on an outdated answer of the directory |
| `BeanProtocol.BeginDailyKeeps` | draw-games/src/beans_read_memory.rs:207-227 | a daily claim remembers a generation only over a complete projection with no other writer |
| `BeanProtocol.PublishDailyKeeps` | draw-games/src/beans_read_memory.rs:231-261 | a daily publication happens only when nothing else changed, so the published balance is the SQL one |
| `BeanProtocol.DropFenceKeeps` | draw-games/src/beans_read_memory.rs:285-295 | the cancellation fence of a dropped guard hides the wallet while the guard still counts, even with its transaction running |
| `BeanProtocol.EndKeeps` | draw-games/src/beans_read_memory.rs:296-311 | the release that follows, in a critical section of its own, keeps the invariant; a transaction still running outlives its guard |
| `BeanProtocol.GrantKeeps` | draw-games/src/beans_read_memory.rs:1145-1218 | the first-use grant is readable at once and equals what its durable row will hold |
| `BeanProtocol.InstallKeeps` | draw-games/src/beans_read_memory.rs:1095-1119 | the generation- and writer-guarded install publishes only a wallet that still reconciles |
| `BeanProtocol.RemoveKeeps` | draw-games/src/beans_read_memory.rs:889-922 | removing or retiring a deleted account's user keeps the invariant |
| `BeanProtocol.StepKeeps` | draw-games/src/beans_read_memory.rs:155-1218 | every event keeps availability, refreshes and daily claims consistent with what is owed before and after it |
| `BeanOverlay.StepKeepsInv` | draw-games/src/beans_read_memory.rs:155-1218 | every event keeps the reconciliation invariant, with what is owed taken from the accepted effects themselves, provided an accepted record is new or still remembered |
| `BeanOverlay.RepeatIsHarmless` | draw-games/src/beans_read_memory.rs:498-505 | repeating a record the authority still remembers changes nothing |
| `BeanOverlay.HandCountsOnceExactly` | draw-games/src/beans_read_memory.rs:485-553 | accepting a hand that is not remembered leaves a visible wallet reconciled if and only if SQL holds no receipt of it or it changes nothing; otherwise the wallet is off by its change |
| `BeanOverlay.EffectCountsOnceExactly` | draw-games/src/beans_pending_effects.rs:37-107 | the same for a lottery effect |
| `BeanOverlay.ForgottenHandCountsTwice` | draw-games/src/beans_read_memory.rs:566-595 | a run in which a won hand is accepted, committed, acknowledged, forgotten and accepted again, after which the visible wallet is the SQL one plus the win once more |
| `BeanOverlay.AcceptedIsNeverLost` | draw-games/src/beans_read_memory.rs:485-595 | over every run each effect the events accepted and did not abandon is committed, or laid over the wallet exactly as accepted |
| `BeanOverlay.AvailableIsReconciled` | draw-games/src/beans_read_memory.rs:155-1128 | from hydration, through every interleaving, an available wallet equals the SQL wallet plus exactly the effects the run accepted, and did not abandon, that have no receipt: none lost, none counted twice |
| `BeanRetirement.RetirementLasts` | draw-games/src/beans_read_memory.rs:889-909 | a retired user stays retired and hidden until it is forgotten or invalidated: no refresh, grant, settlement or daily claim shows it |
| `BeanRetirement.RetiredIsHidden` | draw-games/src/beans_read_memory.rs:1025-1119 | over every run a retired user is hidden and nothing in flight may show it |
| `BeanMachine.Authority.Replace` | draw-games/src/beans_read_memory.rs:669-686 | installs a user exactly when capacity allows, with indexes and counters following |
| `BeanMachine.Authority.InstallLoaded` | draw-games/src/beans_read_memory.rs:1095-1119 | a refresh installs exactly when no guard holds the user, the generation is current and capacity allows |
| `BeanMachine.Authority.Invalidate` | draw-games/src/beans_read_memory.rs:809-838 | hides a wallet under a new generation and queues its refresh; a full authority stops being ready, and one that is not ready only takes a new epoch |
| `BeanMachine.Authority.RemoveUser` | draw-games/src/beans_read_memory.rs:889-922 | forgets a user, or retires one that still owes hands or effects |
| `BeanMachine.Authority.AcceptPoker` | draw-games/src/beans_read_memory.rs:485-553 | accepts a hand exactly when every wallet can afford it and the write was queued; then each player's balance, winnings, hands played and hands won grow by exactly their part, which their overlay holds under the record, and nobody else changes; a repeat changes nothing |
| `BeanMachine.Authority.PokerCommitted` | draw-games/src/beans_read_memory.rs:566-595 | removes the hand from its players' overlays, once, and changes nothing else of anybody; queues the acknowledgement and evicts the oldest one beyond the limit |
| `BeanMachine.AcknowledgeKeeps` | draw-games/src/beans_read_memory.rs:588-593 | the queue lists exactly the committed hands, once each and bounded, so no uncommitted hand is evicted; accepting and acknowledging keep this |
| `BeanMachine.RemembersTheNewest` | draw-games/src/beans_read_memory.rs:588-593 | exactly the newest 4096 acknowledged hands are remembered |
| `BeanMachine.Authority.AcceptEffect` | draw-games/src/beans_pending_effects.rs:37-107 | accepts an effect exactly when the balance, day, reservation and capacity checks pass; an identical repeat succeeds and changes nothing |
| `BeanMachine.Authority.EffectCommitted` | draw-games/src/beans_pending_effects.rs:109-126 | forgets one pending effect and its row and bytes |
| `BeanMachine.Authority.EffectAbandoned` | draw-games/src/beans_pending_effects.rs:130-147 | drops the effect and hides the wallet |
| `BeanMachine.Authority.Watch` | draw-games/src/beans_read_memory.rs:263-281 | a guard on one more user outdates every read of that user in flight |
| `BeanMachine.Authority.DailyMutation` | draw-games/src/beans_read_memory.rs:207-227 | hides the wallet, and remembers the generation exactly over a complete projection nobody else holds |
| `BeanMachine.Authority.PublishDaily` | draw-games/src/beans_read_memory.rs:231-261 | publishes the daily balance exactly under the remembered generation, as the sole writer, within capacity, inserting rank keys without removing any |
| `BeanMachine.Authority.EndGuard` | draw-games/src/beans_read_memory.rs:296-311 | dropping a guard stamps a new generation and releases the user |
| `BeanMachine.Authority.Grant` | draw-games/src/beans_read_memory.rs:1145-1218 | grants a missing wallet exactly when it is readable, within capacity and taken by the writer, touching no index; a grant the writer refuses still takes a new epoch |
| `BeanIndex.ShowDayKeepsBooked` | draw-games/src/beans_read_memory.rs:243-258 | publishing a day finds no old rank key to remove, because its claim proves the wallet hidden |
| `BeanIndex.ApplyKeepsBooked` | draw-games/src/beans_read_memory.rs:57-73 | each critical section keeps indexes, counters, sizes and fences in step with the users |
| `BeanIndex.RunsStayBooked` | draw-games/src/beans_read_memory.rs:411-440 | after any sequence of critical sections, those of an authority that is not ready included, both indexes hold exactly the keys of available wallets with hands played, both counters are the sums over users, every user is charged for its pending effects, and a current daily claim finds its wallet complete and hidden |
| `BeanIndex.RankingsAreExact` | draw-games/src/beans_read_memory.rs:418-440 | in every reachable state the profit ranking holds the winnings, and the balance ranking the balance, of exactly the visible wallets that have played |
| `BeanHands.SettleAllCredits` | draw-games/src/beans_read_memory.rs:441-464 | the settlement of a hand credits each player field by field and nobody else |
| `BeanProjection.HandProjects` | draw-games/src/beans_read_memory.rs:485-553 | for a player of it, accepting a hand is the `AcceptPoker` event of the one-user protocol |
| `BeanProjection.EffectProjects` | draw-games/src/beans_pending_effects.rs:37-107 | accepting a lottery effect is its `AcceptEffect` event |
| `BeanProjection.AcceptsTogether` | draw-games/src/beans_read_memory.rs:518-532 | the protocol accepts a new hand or effect if and only if the authority may, up to the integer widths |
| `BeanProjection.EffectIsCharged` | draw-games/src/beans_pending_effects.rs:85-103 | a new effect claims its day and 256 bytes |
| `BeanProjection.ReleaseProjects` | draw-games/src/beans_read_memory.rs:566-595 | acknowledging a hand SQL holds is the `AckPoker` event |
| `BeanProjection.DropProjects` | draw-games/src/beans_pending_effects.rs:109-126 | acknowledging an effect is the `AckEffect` event |
| `BeanProjection.AbandonProjects` | draw-games/src/beans_pending_effects.rs:130-147 | abandoning an effect is the `AbandonEffect` event |
| `BeanProjection.HideProjects` | draw-games/src/beans_read_memory.rs:809-838 | hiding a wallet is the protocol's invalidation |
| `BeanProjection.RetireProjects` | draw-games/src/beans_read_memory.rs:889-909 | removing a user that owes something is the protocol's retirement |
| `BeanProjection.ForgetProjects` | draw-games/src/beans_read_memory.rs:912-922 | removing any other user forgets it there too |
| `BeanProjection.RegisterProjects` | draw-games/src/beans_read_memory.rs:858-887 | registering a new account is the `Register` event |
| `BeanProjection.GrantProjects` | draw-games/src/beans_read_memory.rs:1145-1218 | a grant is the `Grant` event |
| `BeanProjection.InstallProjects` | draw-games/src/beans_read_memory.rs:1095-1119 | the guarded install is the `Install` event, refusals included |
| `BeanProjection.InstallIsCharged` | draw-games/src/beans_read_memory.rs:669-686 | an install shows the history read and is charged a row for each part of it |
| `BeanProjection.WatchProjects` | draw-games/src/beans_read_memory.rs:263-277 | counting a guard is the `BeginWatch` event |
| `BeanProjection.BeginDailyProjects` | draw-games/src/beans_read_memory.rs:207-227 | a daily claim is the `BeginDaily` event and remembers the same generation |
| `BeanProjection.PublishProjects` | draw-games/src/beans_read_memory.rs:231-261 | a daily publication is the `PublishDaily` event, refusals included |
| `BeanProjection.EndProjects` | draw-games/src/beans_read_memory.rs:296-311 | releasing a guard is the `End` event |
| `BeanProjection.OthersProject` | draw-games/src/beans_read_memory.rs:155-1218 | every section about somebody else is at most a new epoch for the user |
| `BeanReservations.AddAll` | draw-games/src/beans_reservations.rs:236-248 | checked addition over a map in any order; refused only when a partial sum leaves 64 bits |
| `BeanReservations.ComputeReserved` | draw-games/src/beans_reservations.rs:236-274 | the reservation is the sum of table claims and, for a SQL debit, of pending losses; refused exactly when that exceeds 64 bits |
| `BeanReservations.DebitLeavesClaimsCovered` | draw-games/src/beans_reservations.rs:297-337 | a debit is within `available` if and only if it is nothing, or the rest covers all stacks, wagers and, for a SQL balance, pending losses |
| `BeanReservations.DebitSparesEachClaim` | draw-games/src/beans_reservations.rs:236-248 | no selection of stacks and wagers is left short |
| `BeanReservations.AnyOrderNeedsTheLosses` | draw-games/src/beans.rs:446-456 | a balance survives every commit order of every selection of pending settlements if and only if it covers all pending losses and leaves room for all pending gains |
| `BeanReservations.DebitLeavesPendingCommittable` | draw-games/src/beans_reservations.rs:297-337 | after a debit within `available`, pending settlements commit in any order if and only if the debit is positive or the balance covers the pending losses, and the pending gains still fit 64 bits |
| `BeanReservations.NothingAvailableProvesNothing` | draw-games/src/beans_reservations.rs:327-336 | a concrete state where a zero debit passes and a pending loss cannot commit first |
| `BeanReservations.FullRowRefusesGains` | draw-games/src/beans.rs:450-456 | a concrete state where a positive debit passes and a pending gain cannot commit first |
| `SicboReservations.Reservation.SicboAccepted` | draw-games/src/beans_reservations.rs:81-113 | an accepted snapshot raises each held wager to the larger of old and new |
| `SicboReservations.Reservation.SicboCommit` | draw-games/src/beans_reservations.rs:47-64 | a commit replaces the held wagers unless a newer snapshot was accepted |
| `SicboReservations.WagersStayReserved` | draw-games/src/beans_reservations.rs:47-122 | over every run, with commits and their reports apart, a reservation covers the wager in the durable snapshot and in every accepted one that is not durable, and equals the durable wager once all is reported |
| `SicboReservations.ReservedExactly` | draw-games/src/beans_reservations.rs:47-122 | over every run a reservation is exactly the largest wager among the snapshot last released to and those accepted since |
| `SicboReservations.ReleasedOnlyByCommit` | draw-games/src/beans_reservations.rs:47-122 | a reservation shrinks only on the report of a commit with nothing newer waiting, to the wager of a snapshot already durable |
| `WriteBehind.Ordered.Enqueue` | draw-games/src/write_behind.rs:321-329 | an item gets the next sequence, or is refused by a full or closed queue with nothing changed |
| `WriteBehind.Ordered.Receive` | draw-games/src/write_behind.rs:215-222 | the worker takes the carried item before the queue |
| `WriteBehind.Ordered.CoalesceQueued` | draw-games/src/write_behind.rs:223-233 | folds queued items exactly as `merge` answers, until the queue is empty or an item is handed back |
| `WriteBehind.Ordered.MergeOne` | draw-games/src/write_behind.rs:224-232 | one fold extends the batch and its sequence; whatever `merge` hands back becomes the carry under the item's sequence |
| `WriteBehind.CoalesceAllKeeps` | draw-games/src/write_behind.rs:223-233 | a whole round of folding loses, repeats and reorders nothing, whatever `merge` does |
| `WriteBehind.Ordered.Attempted` | draw-games/src/write_behind.rs:234-273 | a saved batch advances progress to its last sequence and remembers what `persist` returned, a failure retries it, a fence stops the worker |
| `WriteBehind.StepKeeps` | draw-games/src/write_behind.rs:194-282 | every step keeps saved + head + carry + queue equal to everything accepted, in order |
| `WriteBehind.UnsavedIsContiguous` | draw-games/src/write_behind.rs:194-282 | over every run the unsaved items carry exactly the sequences from progress + 1 to the number accepted, and what is saved is a prefix of what was accepted |
| `WriteBehind.DurableMeansSaved` | draw-games/src/write_behind.rs:334-350 | if `durable()` succeeds, every item accepted before the call was saved, itself or folded into a saved batch |
| `WriteBehind.DurableExactly` | draw-games/src/write_behind.rs:334-350 | over every run `durable()` succeeds if and only if that many items were saved, and fails if and only if a fence came first |
| `WriteBehind.RefusesExactly` | draw-games/src/write_behind.rs:321-329 | an item is refused exactly by a closed writer or one with 64 items queued |
| `WriteBehind.FailingExactly` | draw-games/src/write_behind.rs:234-299 | the writer reports an error exactly while its latest attempt has failed |
| `WriteBehind.WrittenIsAccepted` | draw-games/src/write_behind.rs:215-250 | if every merge keeps what it is given, the values written hold, one after another, exactly what the accepted items up to the last saved one hold |
| `WriteBehind.AbandonedNeverDurable` | draw-games/src/write_behind.rs:334-350 | items abandoned by a fence are never reported durable |
| `WriteBehind.DrainedMeansAllSaved` | draw-games/src/write_behind.rs:352-362 | when `drain()` returns, everything accepted was saved in order, nothing waits, and the result is what the last `persist` returned |
| `RoomPersistence.Database.Persist` | draw-games/src/casino_room.rs:472-551 | one attempt applies the change only if the row exists, its revision is older and no balance goes below zero; otherwise nothing changes |
| `RoomPersistence.SettlePays` | draw-games/src/wallet.rs:974-997 | a round is settled if and only if no player goes below zero on the way; then every player's balance grows by the sum of the deltas that name them, and players without a wallet get none |
| `RoomPersistence.ExactAfterTransact` | draw-games/src/casino_room.rs:495-541 | a first attempt applies the change if it is covered, a retry after a lost acknowledgement does not apply it again |
| `RoomPersistence.StepRoomKeeps` | draw-games/src/casino_room.rs:403-628 | accepting, taking, every ending of an attempt and row deletion keep the exactly-once invariant |
| `RoomPersistence.SettledExactlyOnce` | draw-games/src/casino_room.rs:472-628 | under any failures, lost acknowledgements and retries, while the row exists the applied settlements are the accepted changes up to its revision, each once and in order, and every durable balance is the initial one plus the sum of what those changes pay that player, never below zero |
| `Decks.ShuffleInPlace` | engine/src/deck.rs:33-38 | the in-place swap loop computes the shuffle of its choices |
| `Decks.FisherYatesIsBijective` | engine/src/deck.rs:27-41 | every rearrangement of distinct cards comes from exactly one choice sequence, and every choice sequence gives a rearrangement |
| `Decks.RngRange` | engine/src/deck.rs:84-100 | returns the residue of the first draw below the threshold |
| `Decks.NoModuloBias` | engine/src/deck.rs:91-99 | each residue is accepted for exactly the same positive number of 64-bit values |
| `FairDeck.DrawBelow` | engine/src/deck.rs:84-100 | on a stream of draws, takes the first accepted one after the current position |
| `FairDeck.NewFrom` | engine/src/deck.rs:27-41 | takes one accepted draw per position, skipping the rejected ones, and leaves the deck in the order those draws select |
| `FairDeck.EveryOrderIsEquallyLikely` | engine/src/deck.rs:27-41 | each order of a deck of distinct cards comes from the same number of vectors of accepted draws |
| `FairDeck.WeightIsPositive` | engine/src/deck.rs:91-99 | that number is positive for every deck size a 64-bit draw can serve |
| `Decks.CardIdsRoundTrip` | mental-poker/src/card_id.rs:21-37 | cards and ids below 52 are inverse to each other; other ids are refused |
| `Decks.IdsRunThroughSuits` | mental-poker/src/card_id.rs:21-25 | ids run through the suits of the lowest rank, then of the next, from zero and without gaps |
| `Decks.NewDeckIsInIdOrder` | engine/src/deck.rs:27-32 | the unshuffled deck lists the cards by id |
| `Decks.PublicOrderIsPermutation` | mental-poker/src/pf2.rs:221-241 | the public order is a permutation of 0..51 for any choices |
| `Decks.FinalDeckIsPermutation` | mental-poker/src/pf2.rs:148-153 | with a permutation as witness the final deck holds each id once |
| `CardProof.FinalDeckDecrypts` | mental-poker/src/pf2.rs:147-153 | each card of the final deck is what the public deck decrypts to at the position the order names |
| `Decks.Deck.Deal` | engine/src/deck.rs:68-75 | cards leave in order, each once, until none is left |
| `CardProof.RestrictKeepsWitness` | mental-poker/src/card_proof.rs:255-274 | restricting a shuffle to a subset keeps a true witness: `pi` permutes, each kept ciphertext re-encrypts its re-indexed card, and the order is the full order filtered |
| `CardProof.LockIsSound` | mental-poker/src/card_proof.rs:316-349 | a locked deck carries a true witness and the commitment computed from scratch |
| `CardProof.RebindIsSound` | mental-poker/src/card_proof.rs:350-362 | a rebind keeps that, including the cached Baccarat hash path |
| `CardProof.RebindsStaySound` | mental-poker/src/card_proof.rs:316-362 | so do any number of rebinds |
| `CardProof.RebindsExactly` | mental-poker/src/card_proof.rs:350-362 | a rebind is refused exactly for an invalid context, another game, or a deck already restricted |
| `CardProof.DealtCardsDecrypt` | mental-poker/src/card_proof.rs:370-376 | each card dealt is what the locked deck decrypts to at the position the seeds' order names |
| `CardProof.LockedDeck.RebindTo` | mental-poker/src/card_proof.rs:350-362 | rebinds in place, or refuses and leaves the deck untouched |
| `CardProof.ReorderCards` | mental-poker/src/card_proof.rs:524-544 | the inverse-array loop undoes the old order and applies the new one; a deck of another size is refused |
| `CardProof.ReorderPrepared` | mental-poker/src/card_proof.rs:370-376 | reordering a deck dealt from old seeds gives exactly the deck dealt from the new seeds |
| `HashPreimage.Feed` | mental-poker/src/hash.rs:18-28 | the updates spell the length-prefixed layout |
| `HashPreimage.PreimageReads` | mental-poker/src/hash.rs:15-28 | a reader of little-endian eight-byte lengths gets back the domain and the parts from every pre-image |
| `HashPreimage.PreimageInjective` | mental-poker/src/hash.rs:15-28 | different domains or parts never share a pre-image |
| `HashPreimage.ContextBindingInjective` | mental-poker/src/card_proof.rs:107-165 | on validated contexts the binding pre-image determines the context |
| `HashPreimage.BindingAgreesExactly` | mental-poker/src/card_proof.rs:147-165 | two contexts share a binding pre-image if and only if they agree on game, hand, seats, roster, epoch, previous hash or none, and the card identities in play |
| `HashPreimage.UnvalidatedBindingCollides` | mental-poker/src/card_proof.rs:139-165 | every validated first deal shares its binding with a context validation would refuse, the one whose subset lists the whole deck |
| `SolveCache.Store.CacheInsert` | server-integration/gto_solve.rs:501-572 | the insert performs the precedence, eviction and accounting of the specification; the cost is the kept entry's when one is kept, the new one's otherwise |
| `SolveCache.Store.Evict` | server-integration/gto_solve.rs:551-564 | oldest entries leave until the new one fits; the loop ends |
| `SolveCache.EvictKeeps` | server-integration/gto_solve.rs:551-564 | eviction drops a prefix of the queue, alters no survivor and makes room |
| `SolveCache.EvictIsMinimal` | server-integration/gto_solve.rs:551-564 | without its last victim, eviction would not have made room |
| `SolveCache.CacheStaysInStep` | server-integration/gto_solve.rs:501-572 | over any inserts the queue lists the map's keys once each and the accountant is the sum of entry bytes, within the budget |
| `SolveCache.FinalIsNeverDemoted` | server-integration/gto_solve.rs:392-404 | a final entry is never overwritten by a provisional one for the same spot |
| `SolveCache.InsertStores` | server-integration/gto_solve.rs:518-572 | a final result, or the first for its spot, is stored as it is and queued last, unless it exceeds the whole budget |
| `SolveCache.InsertIsServed` | server-integration/gto_solve.rs:501-572 | what was inserted within budget is served right afterwards, or the better result it met |
| `SolveCache.ProvisionalImproves` | server-integration/gto_solve.rs:392-404 | among provisional results the lower exploitability stays, with a fresh cooldown |
| `SolveCache.HitsAreForTheSpot` | server-integration/gto_solve.rs:1417-1429 | a hit returns a body solved for the requested spot, even when hashes collide, within its cooldown |
| `CfrLoop.Iterate` | gto-solver/src/lib.rs:727-743 | one iteration, measured exactly every tenth time, with clock and slowest costs tracked |
| `CfrLoop.RunCfr` | gto-solver/src/lib.rs:699-763 | makes exactly the iterations after which target, deadline or cap first stop it, none of them after a cancellation; reports the exploitability of the strategy returned, the exact reason and finishing time |
| `CfrLoop.StopsOnce` | gto-solver/src/lib.rs:714-743 | that number of iterations is unique |
| `CfrLoop.EndsByDeadline` | gto-solver/src/lib.rs:717-725 | if the last iteration, one measurement and `finalize` fit the estimate made before it, the run ends by the deadline |
| `CfrLoop.NeedIsScaled` | gto-solver/src/lib.rs:717-722 | the reserve is five quarters of two iterations and a measurement at the slowest so far |
| `CfrLoop.SlowestSoFar` | gto-solver/src/lib.rs:726-737 | the costs it uses are not below any observed one |
| `SealedHistory.DealtExactly` | server-integration/sealed_dealer.rs:389-402 | a hand is dealt exactly for two to nine different seats and a full deck |
| `SealedDealer.SealedHand.RevealBoard` | server-integration/sealed_dealer.rs:450-466 | a street is shown from its deck positions once the previous one was; asked again, it keeps the later stage |
| `SealedDealer.SealedHand.RevealSecondRun` | server-integration/sealed_dealer.rs:468-487 | a second run is shown between the river and settlement, and its start cannot change |
| `SealedDealer.SealedHand.RevealShowdown` | server-integration/sealed_dealer.rs:489-513 | the hole cards of at least two distinct dealt seats are shown after the river, and the seats cannot change |
| `SealedDealer.RunIsMonotone` | server-integration/sealed_dealer.rs:444-513 | over every run the stage never regresses and a disclosed choice never changes |
| `SealedDealer.RepeatsAreIdentical` | server-integration/sealed_dealer.rs:444-513 | over every run a repeated request gets the same cards |
| `SealedDealer.StreetsInOrder` | server-integration/sealed_dealer.rs:450-497 | without settlement the turn follows the flop, the river the turn, and second run and showdown the river |
| `SealedHistory.AnsweredExactlyWhenAllowed` | server-integration/sealed_dealer.rs:444-513 | over any run a request is answered if and only if what was answered before allows it: streets in order, one second run before settlement, one showdown of at least two dealt seats |
| `SealedDealer.AnswerDiscloses` | server-integration/sealed_dealer.rs:444-513 | a reply shows exactly the cards at the deck positions of its request |
| `SealedHistory.DeckIsLaidOut` | server-integration/sealed_dealer.rs:131-141 | hole cards, streets and second run follow each other without gap, and a second run replaces exactly the board cards dealt from the street where it diverges |
| `SealedHistory.RepliesInDealOrder` | server-integration/sealed_dealer.rs:444-487 | replies show cards in the order they were dealt |
| `SealedDealer.OneSecondRun` | server-integration/sealed_dealer.rs:468-487 | over any run all second runs answered diverge at the same street |
| `SealedDealer.DisclosuresAreDisjoint` | server-integration/sealed_dealer.rs:133-141 | over any run, different hole, street and second-run requests that were answered disclose disjoint deck positions |
| `SealedDealer.ShowdownShowsItsSeats` | server-integration/sealed_dealer.rs:489-513 | a showdown discloses the hole positions of exactly its seats |
| `SealedDealer.DisclosedCardsDiffer` | server-integration/sealed_dealer.rs:444-487 | over any run on a duplicate-free deck the replies to two such requests share no card |
| `SealedDealer.CheckSettledCards` | server-integration/sealed_dealer.rs:192-232 | the guard accepts exactly the results whose cards sit at their deck positions, and panics exactly when the first entry that does not match lies beyond the deck |
| `SealedDealer.FullDeckIsEnough` | server-integration/sealed_dealer.rs:218-223 | with two cards per seat it never panics |
| `SealedDealer.BoardMatchesIsSlice` | server-integration/sealed_dealer.rs:200-204 | an accepted board is exactly the deck after the hole cards |
| `SealedDealer.HonestResultsPass` | server-integration/sealed_dealer.rs:192-513 | a result built from what the dealer told in any run always passes the guard |

## Left out

- Soundness of the cryptography: SHA-256, Ristretto, Ed25519, shuffle and decryption proofs, `bundle` and `verify` of decks.
- Payout distribution and street orchestration (`engine/src/game.rs`), hand evaluation and positions.
- The rules of the draw-game verifiers, HTTP, WebSocket, spectators, diagnostics, metrics and request timing.
- Room registry, membership reconciliation and release handoff of casino rooms.
- The memory-lifecycle (Baccarat) persistence path through `game_checkpoint`, and buy-in refills inside a room change.
- Poker checkpoints in the reservations and `reserve_poker_stack`: the table claims are inputs of `ComputeReserved`.
- An authority that is not ready in the one-user protocol; its sections are operations of the whole-map model.
- Day sets and ledger history in the one-user protocol; they are part of the whole-map bookkeeping only.
- The order of the leaderboard, and waiting readers.
- `try_reserve` and `publish` of the writer, which accept an item as `enqueue` does once the writer is healthy.
- `drain_all` at shutdown, which reports every queue as completed.
- `create_hand` and `commit_hand` of the sealed dealer, tickets and delivery of hole cards.
- The refusal of seeds from seats outside the context in `order`; the seeds enter the model as the choices they select.
- Canonical JSON in `mental-poker/src/hash.rs`.
- The per-address registry of solves in flight and the HTTP side of the solver.
- Game records, the catalogue, room clocks, bots and the browser wrappers.
- BeanOverlay.AvailableIsReconciled: epochs are unbounded, so the wrap-around of the 64-bit counter is not modelled.
