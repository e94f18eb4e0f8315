# The rummy engine, its lobby and its statistics outbox: a verified model

This Dafny project models the rules engine of a two-deck rummy game (`backend/internal/game`), the browser's own
scoring of drafts, and the parts of the server that make commands transactional and deliver finished-game statistics.
`dafny verify dfyconfig.toml` checks all of it.

How the files fit together:

- **Compositions.** `RunSpec` says what a set and a run are without any algorithm. `RunFitting` and `RunFilling` hold
  the validity algorithms, `RunLayout` and `RunOrdering` the search for the closest layout, `RunScoring` the points,
  `Compositions` and `CompositionObjects` the constructor, joker assignment and reclaims, `JokerMeaning` what a joker
  stands for in terms of the cards that complete its composition, `DraftScoring` the TypeScript functions. `Relaying`
  lays a run out a second time and shows that it may move; `LayoutStability` says of the cards alone when it does.
- **Table plays and the discard search.** `TablePlay` specifies a play phase by phase, `TableExecutor` is the
  executor's loops, `WaitingReclaims` follows deferred reclaims, `PlayedCards` what a play uses, `PlayOutcomes` what a
  play comes to without the executor's bookkeeping. `Masks`, `SearchPlays`, `PlayValidation`, `SearchChoices` and
  `DiscardSearch` are the backtracking search and its validator. `DiscardComplete` and `OpeningSearch` (on
  `SearchSelections`) say which plays the search finds after and before the player has opened; `DiscardTrap` is a
  position in which it promises too much, `TwoReclaims` and `SharedBuffer` are positions in which it misses a play.
  `RelaidTables` carries plays over to a table whose runs were laid out anew.
- **The game.** `GameModel` gives each operation as a function on values. `GameObjects` are players with their hands
  and compositions as objects; `GameStates` is the class whose methods update those objects and the piles in place and
  are proved equal to the functions. `GameInvariants` and `GameRounds` prove what each operation keeps, `GameRuns`
  what holds in every run, `Obligations` that nobody is left with a discard that cannot be used, `TurnOrder` that
  everybody moves, `PlayAndDiscard` what the combined request does. `RoundStarts`, `TurnResults`, `RoundResults` and
  `Departures` state the effect of dealing, of a turn, of a finished round and of a forfeit by themselves. `Rotation`,
  `SpecialHands`, `RoundScoring` and `Dealing` are parts.
- **Saving.** `Persistence` is the snapshot and its restore, `RestoreChecks` what is read back and when, `BuiltTables`
  says which restarts give back the same game.
- **Statistics and lobby.** `Streaks`, `Placements`, `PlayerRecords`, `DealtWins`, `Outbox`, `Rooms`, `RoomResults`,
  `RoomObjects`, `Lobbies`, `Elo`.

Positions 1 to 14 stand for the ranks of a suit with the ace at both ends. Shuffles are parameters: any order of the
same cards. Masks are natural numbers; the search never needs more than fourteen bits. A write to the store ends in
one of three ways: done, refused, or done although an error is reported. Go's maps that can be shared are objects, its
slices are sequences.

Where code and promise part, the code is kept and the difference is stated as a theorem:

- Normalising a run is not idempotent (`Relaying.LayingOutAgainMoves`), so a restart may rearrange a run on the table
  (`BuiltTables.RestartRearranges`). `LayoutStability.LayoutLastsIff` and `BuiltTables.RemadeSameIff` say exactly when
  it does not, by counting ranks; a run with an ace or at most one spare joker never moves
  (`LayoutStability.FewPlacementsLast`). What a restart moves never offered a joker
  (`BuiltTables.UnrecognisedOffersNothing`), so it takes no play away (`RelaidTables.PlayCarries`).
- The discard search may let a player who has not opened take a discard no play can use
  (`DiscardTrap.TakenAndTrapped`). `SearchPlays.AcceptedPlayExecutes` says exactly which accepted plays the executor
  carries out, and `Obligations.NeverTrapped` that it takes a joker reclaimable with the cards held before the draw to
  get there.
- The search makes at most one reclaim, and that at once, so it may refuse a discard that two reclaims make usable
  (`TwoReclaims.KingIsRefused`). For a player who has opened that is all it misses (`DiscardComplete.TakeableIff`).
- Before opening, the filters read a buffer that validation and the search for further parts overwrite. The first use
  of each selection is filtered on its own cards, so plays made of first uses are found
  (`OpeningSearch.PlainOpeningsAreFound`); later uses may be filtered on other cards, and a play that needs one may be
  missed (`SharedBuffer.SevenIsRefused`, `SharedBuffer.SevenCouldOpen`).
- A winning hand dealt in round two or later is scored before the round number goes up, so the win is not counted if
  the round before has a result, while the special win is. `PlayerRecords.RecordsAcceptedIff` and
  `PlayerRecords.NextRoundWonFromDeal` say exactly when the store refuses the record,
  `DealtWins.TwoDealtWinsAreRefused` is a game in which it does.
- A `StartNextRound` whose deal fails leaves the reset lobby state behind; the invariant still holds
  (`GameRounds.StartNextRoundKeeps`).

## Model

| member | source | states |
|---|---|---|
| Cards.DoubleDeckCounts | backend/internal/game/deck.go:5-28 | the game deck holds each natural card twice and four jokers, 108 cards in all |
| Cards.NewGameDeck | backend/internal/game/deck.go:20-28 | the nested loops build exactly the double deck |
| RunFitting.SetIffShape | backend/internal/game/composition.go:360-383 | three or four cards can be completed to one rank in distinct suits (jokers replaced) exactly when the naturals among them share a rank and differ in suit |
| RunFitting.IsValidSet | backend/internal/game/composition.go:360-383 | the set scan says yes exactly for cards whose jokers can be replaced to give one rank in distinct suits |
| RunFitting.NaturalRunIsValid | backend/internal/game/composition.go:423-464 | the counting check for joker-free cards accepts exactly the lists that fill some window of positions 1 to 14 |
| RunFilling.TryFitSequenceRanks | backend/internal/game/composition.go:603-655 | sort-and-fill succeeds exactly when some window admits the naturals under the given ace reading; the replacement ranks then fill the highest such window, every position once |
| RunFilling.RunIffFits | backend/internal/game/composition.go:385-421 | a list is a run exactly when its naturals share a suit and fit under the high or the low ace reading |
| RunFilling.IsValidRun | backend/internal/game/composition.go:385-421 | for all cards: valid iff there is an arrangement of the cards on 3 to 14 consecutive positions of one suit, the ace at 1 or 14, jokers anywhere; covers the counting path and both sort-and-fill passes |
| RunSpec.RunIffAdmitted | backend/internal/game/composition.go:385-421 | an arrangement exists iff the card multiset fits some window of positions: naturals of one suit, no rank twice, no more aces than the window has ends for |
| RunLayout.SameRun | backend/internal/game/composition.go:385-421 | being a run depends on the multiset of cards only |
| RunOrdering.BestRunOrderOf | backend/internal/game/composition.go:680-789 | on 3 to 14 cards whose naturals share a suit the nested loops compute the scan over all placements, high reading first: first exact match wins, otherwise the unique closest placement, otherwise nothing on a tie; cards that are no run give nothing |
| RunLayout.BestRunOrderLaysOut | backend/internal/game/composition.go:680-789 | whenever bestRunOrder succeeds on a run (on other cards it gives nothing) its result is a permutation of the input standing on consecutive positions, the representation keys are exactly the joker places, each naming the card that belongs there, and the match flag says the input already stood that way |
| RunLayout.SubstitutedIsNaturalRun | backend/internal/game/composition.go:423-464 | replacing every joker of such a layout by its representation gives a joker-free run on the same window |
| RunLayout.SomeOrderIsRecognised | backend/internal/game/composition.go:680-789 | every run multiset has an order that bestRunOrder recognises as it stands |
| Compositions.NormalizedKeepsCards | backend/internal/game/composition.go:534-553 | normalising a run permutes its cards and leaves it a run |
| Relaying.LayingOutAgainMoves | backend/internal/game/composition.go:775-780 | normalisation is not idempotent: a concrete run whose normal form ties when laid out again and then moves |
| Relaying.AdditionMakesItMove | backend/internal/game/composition.go:68-79 | such a layout arises on the table: adding two cards to a recognised run of four gives it |
| Relaying.NormalizedFacesForward | backend/internal/game/composition.go:815-819 | what normalisation produces is recognised forwards if it is recognised in either direction |
| LayoutStability.BestOrderIsRace | backend/internal/game/composition.go:680-789 | for a run without aces, in any order: list its placements from the lowest window up and count the cards each has in common with the input; bestRunOrder gives the placement that holds the strict lead when all are counted, and nothing iff some placement equals the lead it meets |
| LayoutStability.PlacementRecognisedIff | backend/internal/game/composition.go:775-789 | a run without aces standing in its window is recognised iff, counting its ranks that have a partner d ranks higher, for d from the distance to its lowest window down to 1, no count equals the largest before it |
| LayoutStability.PlacementStaysIff | backend/internal/game/composition.go:534-553 | normalising leaves such a run where it stands iff it is recognised there, or the scan of its reversal is drawn or won by its own window, both said in rank counts |
| LayoutStability.AceStays | backend/internal/game/composition.go:680-789 | a run with an ace that stands in some window is recognised |
| LayoutStability.LayoutLastsIff | backend/internal/game/composition.go:534-553 | for every run, laying out its normal form again changes nothing iff those counts say so; runs with an ace and runs of jokers alone always qualify |
| LayoutStability.FewPlacementsLast | backend/internal/game/composition.go:534-553 | with an ace, or with at most one joker more than the gaps between its naturals need, the normal form of a run is final |
| RunScoring.BestTotalIsMaximum | backend/internal/game/composition.go:280-302 | the best total is reached by some placement of the run and no placement is worth more |
| RunScoring.BestTotalIgnoresOrder | backend/internal/game/composition.go:280-302 | the best total does not depend on the order of the cards |
| RunScoring.RunPoints | backend/internal/game/composition.go:280-302 | trying both ace readings yields the best total over all admissible windows (runs of jokers alone: the first ranks with a high ace) |
| Compositions.PointsIgnoreOrder | backend/internal/game/composition.go:176-185 | validity and points of a composition depend on its multiset of cards only |
| CompositionObjects.Composition.PointTotal | backend/internal/game/composition.go:176-185 | the object's points are the specified ones, set or run |
| CompositionObjects.IsCompleteRun | backend/internal/game/composition.go:218-246 | the counting test for a complete run means fourteen naturals that are a run |
| CompositionObjects.IsCompleteSet | backend/internal/game/composition.go:198-216 | the completeness test for sets means a set of four naturals |
| CompositionObjects.NewComposition | backend/internal/game/composition.go:25-42 | the constructor returns the specified composition or fails: validity, optional order requirement, normalisation, joker assignment |
| CompositionObjects.Composition.NormalizeRunCards | backend/internal/game/composition.go:534-553 | the cards are replaced by the closest layout, that of the reversed cards after a tie, or stay |
| CompositionObjects.Composition.AssignSetJokers | backend/internal/game/composition.go:482-513 | every joker of a set gets the missing suits of its rank, all natural cards if there is no natural |
| CompositionObjects.Composition.AssignRunJokers | backend/internal/game/composition.go:515-532 | the jokers of a run get the representations of its layout |
| Compositions.MakeCompOk | backend/internal/game/composition.go:25-42 | a constructed composition is valid, holds exactly the given cards, and its jokers stand for cards that some arrangement has in their place |
| Compositions.ReclaimSucceeds | backend/internal/game/composition.go:81-117 | canReclaimJoker holds iff ReclaimJoker succeeds; the result is in order and has one joker less and exactly the replacement more |
| Compositions.InsertionAdds | backend/internal/game/composition.go:68-79 | a successful insertion keeps the composition in order and adds exactly the inserted cards |
| JokerMeaning.SetJokersMean | backend/internal/game/composition.go:482-513 | the joker at a place of a table set stands for exactly the natural cards that complete the set there, each listed once |
| JokerMeaning.SetReclaimIff | backend/internal/game/composition.go:81-117 | a joker of a set can be reclaimed at once exactly by the only card that completes the set in its place; the reclaim is ambiguous exactly when another card completes it too |
| JokerMeaning.RunJokersMean | backend/internal/game/composition.go:515-532 | a joker of a recognised run stands for the one card that belongs in its place and can be reclaimed for that card and no other |
| JokerMeaning.SetPointsAreWorth | backend/internal/game/composition.go:248-278 | a set is worth what its cards are worth with the jokers replaced, in whatever way; a set of jokers is worth the most any replacement gives |
| DraftScoring.DraftSetPointTotal | frontend/src/components/game/game-card-utils.ts:83-104 | the browser's set total is given exactly for sets and equals the server's points |
| DraftScoring.GreedyFits | frontend/src/components/game/game-card-utils.ts:125-147 | placing cards greedily in a window succeeds exactly when the window admits them |
| DraftScoring.DraftRunPointTotal | frontend/src/components/game/game-card-utils.ts:106-158 | the browser's run total is given exactly for runs and is the best total over all windows |
| DraftScoring.DraftCompositionPointTotal | frontend/src/components/game/game-card-utils.ts:160-191 | a draft with a natural card shows exactly the points the server would give it; one that is no composition shows its face value if it has no joker |
| DraftScoring.IsValidDraftComposition | frontend/src/components/game/game-card-utils.ts:193-203 | the browser accepts a draft exactly when the server's constructor would find it valid |
| DraftScoring.IsCompleteDraftComposition | frontend/src/components/game/game-card-utils.ts:205-218 | the browser marks a draft complete exactly when the server would clear it off the table |
| Piles.RemoveEachSubtracts | backend/internal/game/hand.go:47-69 | removing cards one by one is multiset subtraction and fails iff a card is missing |
| Piles.Hand.RemoveCards | backend/internal/game/hand.go:47-69 | all given cards leave the hand, or the hand is unchanged |
| Piles.Hand.RemoveAt | backend/internal/game/hand.go:37-45 | the card at a valid index leaves, the rest keeps its order |
| Piles.Hand.Draw | backend/internal/game/hand.go:13-21 | the top card of the pile moves to the end of the hand |
| Piles.CardPile.AddToTop | backend/internal/game/card_pile.go:22-26 | growing and shifting in place puts the card on top of the unchanged pile |
| Piles.CardPile.DrawOne | backend/internal/game/card_pile.go:12-20 | the top card is taken off, nothing from an empty pile |
| TableExecutor.ApplyTablePlayState | backend/internal/game/state.go:1309-1440 | the five phases of the executor compute the specified play or its error, in the source's order of checks |
| PlayOutcomes.PlayAnswer | backend/internal/game/state.go:1309-1440 | the executor's answer in terms of cards and points: first what does not go through on the table, then for an unopened player a new composition held in hand and 40 points, counted as the points of the new compositions plus what the additions add to the points of the table after the immediate reclaims, then cards not in hand, then no card left; otherwise success, with exactly the hand, plus a joker per reclaim, minus the cards named |
| PlayOutcomes.TableAfterPlay | backend/internal/game/state.go:1309-1440 | after a successful play every old composition is in its place with its variant, its old cards and those added to it, a joker less for each card that replaces one; the new ones follow |
| PlayOutcomes.AdditionPoints | backend/internal/game/state.go:1363-1398 | what a list of additions scores is the difference of the points on the table |
| PlayOutcomes.AdditionIff | backend/internal/game/state.go:1363-1398 | an addition goes through exactly when it names cards, a composition and a place in it, and the cards make a valid composition there |
| PlayOutcomes.ReclaimIff | backend/internal/game/state.go:1338-1361 | a reclaim is made at once when its joker stands for the replacement only, waits when its set has other cards too, and fails otherwise |
| PlayOutcomes.WaitingIff | backend/internal/game/state.go:1400-1410 | a waiting reclaim goes through exactly when by then its joker stands for the replacement only |
| TablePlay.PlayConservesCards | backend/internal/game/state.go:1309-1440 | a successful play moves cards between hand and table and neither makes nor loses any; the table stays in order, the hand is not empty |
| TablePlay.ReclaimAllKeeps | backend/internal/game/state.go:1338-1361 | immediate reclaims keep all compositions in order and trade one joker per replacement; what does not go through waits |
| PlayedCards.PlayTakesNamed | backend/internal/game/state.go:1309-1440 | the cards taken from the hand are exactly those named in compositions, additions and replacements |
| PlayedCards.TablePlayUsesCard | backend/internal/game/state.go:1263-1290 | the three scans find a card exactly when the play names it |
| PlayedCards.UsesCardIff | backend/internal/game/state.go:1263-1290 | a play uses a card iff the card is in the multiset of cards it names |
| WaitingReclaims.IndexFollowsItsJoker | backend/internal/game/state.go:1376-1385 | whatever is inserted where, the adjusted index of a waiting reclaim points at the place its joker was carried to |
| WaitingReclaims.OriginsAreTrue | backend/internal/game/state.go:1363-1398 | in a set every card that was there before the additions is still there, at the place the labels give |
| WaitingReclaims.WaitingReclaimsTakeTheirJoker | backend/internal/game/state.go:1338-1410 | in every successful play each waiting set reclaim puts its replacement exactly where the joker it named ended up |
| GameInvariants.PlayNeverEnlargesHand | backend/internal/game/state.go:1309-1440 | each reclaimed joker costs its replacement, so a play never enlarges the hand |
| Masks.CardsForMask | backend/internal/game/state.go:937-946 | the shared buffer is filled with exactly the selected cards, in hand order |
| Masks.DisjointMasksAdd | backend/internal/game/state.go:937-946 | disjoint masks select disjoint cards: the union selects the sum |
| PlayValidation.Overlay.Store | backend/internal/game/state.go:1143-1166 | the fixed overlay of 32 changed compositions always stands for one table |
| PlayValidation.ValidateTablePlay | backend/internal/game/state.go:1125-1244 | the allocation-free validator accepts exactly the plays whose reclaims, additions and waiting reclaims the executor's phases would carry out on the table, with valid masks, enough points to open and a card left over |
| SearchPlays.AcceptedPlayExecutes | backend/internal/game/state.go:871-935 | a play the search accepts can be submitted in recognised order, uses the discard, and the executor carries it out iff the player has opened or some new composition needs no joker reclaimed in the same play |
| SearchPlays.PlainPlayOpens | backend/internal/game/state.go:881-919 | without a joker counted in advance that condition always holds |
| Obligations.BackedAndUnhindered | backend/internal/game/state.go:881-919 | on any state that satisfies the invariant: if the drawn discard must be used, the search's promise holds, and the player has opened or the cards held before the draw can reclaim no joker of the table, then some play of compositions the server can build succeeds and discharges the obligation |
| DiscardSearch.SearchSupportCandidates | backend/internal/game/state.go:1022-1075 | whatever the backtracking returns as found was accepted by the validator and extends the play it started from; if it finds nothing, no disjoint selections of the cards left, each put to the first use it has, complete the play to a valid one |
| DiscardSearch.HasLegalPlayWithDiscard | backend/internal/game/state.go:948-1020 | found means an accepted play using the discard; not found means: for an opened player no new composition with the discard and no addition of it is a valid play, for any other no plain choice of parts around the discard is |
| DiscardSearch.CanTakeDiscardNow | backend/internal/game/state.go:871-935 | yes comes with an accepted play on hand plus discard that uses the discard, with at most one reclaim, made at once; no means that no composition, addition or reclaim with the discard is a valid play, with or without one reclaim made first, and before opening that no plain choice of further parts makes it one |
| DiscardComplete.TakeableIff | backend/internal/game/state.go:871-935 | for a player who has opened the search says yes if and only if some table play that makes at most one reclaim, and that at once, uses the discard and succeeds, whatever else it lays and adds |
| OpeningSearch.PlainOpeningsAreFound | backend/internal/game/state.go:948-1075 | for a player who has not opened the search says yes whenever some opening play with at most one reclaim, made at once, uses the discard and puts each selection of cards to the first use it has, however many compositions and additions it takes |
| SharedBuffer.SevenIsRefused | backend/internal/game/state.go:976-991 | a hand of twelve for which the search refuses the discard because the filter for a run reads the buffer left behind by the search for support |
| SharedBuffer.SevenCouldOpen | backend/internal/game/state.go:1309-1440 | there the executor would carry out an opening play that uses the discard and reclaims nothing |
| TwoReclaims.KingIsRefused | backend/internal/game/state.go:889-930 | a position in which the search refuses the discard to an opened player, no play with one reclaim using it |
| TwoReclaims.TwoReclaimsDo | backend/internal/game/state.go:1309-1440 | there a play with two reclaims succeeds and uses it |
| DiscardTrap.PositionHolds | backend/internal/game/state.go:912-920 | a concrete state, twelve cards in the hand of a player who has not opened, satisfies the whole game invariant |
| DiscardTrap.EverythingFails | backend/internal/game/state.go:1415-1418 | once the discard is taken there, every draw, play, discard and play-and-discard is refused and leaves the game as it is, and a restart changes nothing |
| DiscardTrap.TakenAndTrapped | backend/internal/game/state.go:912-920 | the search lets the player take that discard, and what follows is the state in which everything fails |
| Rotation.NextActiveIndex | backend/internal/game/state.go:826-837 | the loop finds the nearest active seat after the given one |
| Rotation.PreviousActiveIndex | backend/internal/game/state.go:839-850 | the loop finds the nearest active seat before the given one |
| Rotation.PreviousUndoesNext | backend/internal/game/state.go:826-850 | on active seats next and previous are inverse to each other |
| Rotation.EveryoneTakesATurn | backend/internal/game/state.go:708-714 | as many consecutive turns as there are active players visit each exactly once, and the next one is the first again, whoever has left before |
| TurnOrder.MovesGoRound | backend/internal/game/state.go:708-714 | in every run, as long as the round goes on and nobody leaves, whatever the operations: each keeps the turn or passes it to the next active seat, so the moves go round the active seats |
| TurnOrder.EveryoneMoves | backend/internal/game/state.go:708-714 | there, in as many turns as there are active players each of them moves exactly once |
| SpecialHands.HasSameSuitCollection | backend/internal/game/state.go:480-502 | the scan means: the naturals share one suit |
| SpecialHands.PairsIffJokersCover | backend/internal/game/state.go:504-527 | an even number of cards falls into pairs of equal cards, jokers pairing with anything, iff the jokers cover the cards held an odd number of times |
| SpecialHands.HasSixIdenticalPairs | backend/internal/game/state.go:504-527 | the counting test means: twelve cards that fall into pairs |
| RoundScoring.ScoringBalances | backend/internal/game/state.go:385-438 | scoring adds as many penalty points as it credits to the winner as inflicted |
| RoundScoring.AdjustmentRestoresLimit | backend/internal/game/state.go:453-474 | if the winner is within the limit, after the adjustment every active total is within 0 to 100 again |
| RoundResults.TotalsAfterRound | backend/internal/game/state.go:385-474 | the winner and players who have left keep their totals; every other active player ends with the old total plus the cost of the hand, or, if that is above 100 and the game goes on, with the largest active sum within 100 |
| RoundResults.RoundEndsGameIff | backend/internal/game/state.go:385-451 | a round ends the game exactly if it is a quick game or the sums of all other active players exceed 100 |
| RoundResults.CountersAfterRound | backend/internal/game/state.go:385-438 | the winner is credited the points the others are left with, and with a special win if the hand is one; the round counts as won for the winner only, once |
| RoundResults.HandCosts | backend/internal/game/hand.go:23-35 | a hand costs what its cards cost one by one, a single ace costs 1 |
| Dealing.DealInitialHands | backend/internal/game/state.go:1442-1555 | round-robin and block dealing, with the cut and every error case, give the specified hands and pile |
| Dealing.DealConserves | backend/internal/game/state.go:1442-1555 | a successful deal gives each active player twelve cards, none to others, and loses no card |
| Dealing.TargetsAreFull | backend/internal/game/state.go:1475-1534 | both orders of dealing serve every active seat exactly twelve times |
| Dealing.OrderCovers | backend/internal/game/state.go:1536-1555 | a validated order of distinct active seats names every active seat |
| RoundStarts.DealIff | backend/internal/game/state.go:1442-1555 | a deal succeeds exactly for one of the two kinds, with its seats in order and a cut that leaves enough cards |
| RoundStarts.DealServes | backend/internal/game/state.go:1442-1534 | round robin gives each active seat every nth card from the cut on, counted from the seat after the dealer; in blocks each seat of the order takes the next twelve; nobody else gets a card and the cards above the cut come last |
| RoundStarts.CircleInTurn | backend/internal/game/state.go:1475-1503 | round robin begins with the active seat after the dealer, goes on from each to the next, and ends with the dealer |
| RoundStarts.RoundBeginsIff | backend/internal/game/state.go:598-634 | a round begins exactly with two active players, an active dealer, the active player before the dealer as chooser, a card more than the hands take, and a deal that succeeds |
| RoundStarts.RoundBegins | backend/internal/game/state.go:598-634 | the top of the pile starts the discard pile, active players have played one round more, the seat after the dealer is to move unless somebody is dealt a winning hand; then the first such player has won |
| RoundStarts.GameBegins | backend/internal/game/state.go:562-574 | a game starts from the lobby in a known mode with a round on the cleared table |
| RoundStarts.NextRoundBegins | backend/internal/game/state.go:580-596 | the deal passes to the next active player, the one before chooses; hands, table and discards are cleared, totals and statistics stay, the round number goes up if the round begins |
| TurnResults.DrawIff | backend/internal/game/state.go:159-181 | a draw succeeds exactly if it is due and a card can be had without the top discard |
| TurnResults.DrawTakes | backend/internal/game/state.go:857-869 | the top of the draw pile comes to the hand; if that pile was empty, the top discard stays and the other discards are the draw pile, turned over |
| TurnResults.TakeTakes | backend/internal/game/state.go:183-209 | the top discard comes to the hand and must be used |
| TurnResults.PlayIff | backend/internal/game/state.go:219-284 | a table play succeeds exactly if it is due, names something, the executor carries it out, and it uses the discard that must be used |
| TurnResults.PlayOpens | backend/internal/game/state.go:219-284 | the player has opened, counted once with the turn it took, and owes no discard; the piles stay |
| TurnResults.MatchIsAskedFor | backend/internal/game/state.go:334-349 | the card that leaves is the one asked for: at the index if it is there, else the first like it |
| TurnResults.DiscardIff | backend/internal/game/state.go:320-369 | a discard succeeds exactly if it is due, no discard is owed and the card asked for is in hand |
| TurnResults.DiscardEndsTurn | backend/internal/game/state.go:320-383 | the card asked for leaves the hand; an emptied or special hand wins the round for the player who discarded, otherwise the next active player is to move |
| TurnResults.DiscardClears | backend/internal/game/state.go:529-556 | complete compositions leave the table and their cards lie between the discard and the old discards |
| TurnResults.WhyRefused | backend/internal/game/state.go:159-369 | a refused action names the first thing that stands in its way and leaves the game as it is |
| Departures.ForfeitIff | backend/internal/game/state.go:719-778 | a forfeit succeeds exactly if a round is on or over and the player is still in the game |
| Departures.ForfeitResult | backend/internal/game/state.go:719-778 | the leaver is out with an empty hand and the highest forfeit order, the hand goes into the draw pile; the last one left has won, otherwise the others play on and a turn under way passes to the next |
| Departures.LastOneCounted | backend/internal/game/state.go:745-768 | the round of a game ended by forfeit counts for those who played in it, as won for the last one left |
| GameInvariants.DrawFromDeckKeeps | backend/internal/game/state.go:159-181 | drawing keeps the invariant and always succeeds when a draw is due, recycling if need be |
| GameInvariants.DrawFromDiscardKeeps | backend/internal/game/state.go:183-209 | taking the discard on a positive answer of the search keeps the invariant and sets an obligation with a play behind it |
| GameInvariants.PlayTableKeeps | backend/internal/game/state.go:219-284 | a table play keeps the invariant, whatever its outcome |
| GameInvariants.RecycledKeeps | backend/internal/game/state.go:857-869 | recycling keeps all cards and refills the draw pile whenever two cards are left in the piles |
| GameRounds.DiscardKeeps | backend/internal/game/state.go:320-369 | discarding keeps the invariant: completed compositions are cleared, the round is won or the turn passes to another active player |
| GameRounds.RemoveCompletedKeeps | backend/internal/game/state.go:529-556 | cleared compositions go to the discard pile card for card, the others stay |
| GameRounds.FinishRoundKeeps | backend/internal/game/state.go:385-438 | a finished round moves no card and balances penalty against inflicted points |
| GameRounds.StartGameKeeps | backend/internal/game/state.go:562-574 | starting a game keeps the invariant, whether the deal succeeds, fails or is won at once |
| GameRounds.StartNextRoundKeeps | backend/internal/game/state.go:580-596 | starting the next round keeps the invariant, even when a failed deal leaves the reset state behind |
| GameRounds.ForfeitKeeps | backend/internal/game/state.go:719-778 | a forfeit returns the hand to the draw pile and keeps the invariant; the last active player wins, a turn under way passes on |
| GameRounds.EndKeeps | backend/internal/game/state.go:780-789 | ending without a winner keeps the invariant |
| GameRounds.AddPlayerKeeps | backend/internal/game/state.go:675-692 | seating a player keeps the invariant |
| GameRuns.EveryRunKeepsTheInvariant | backend/internal/game/state.go:159-789 | in every state of every run, whatever operations with whatever outcome: the piles, hands and table are exactly the double deck, active hands hold 1 to 12 cards (13 after a draw), cards in play are bounded by twelve per player plus a draw, two players are active and the current one is, totals are within 0 to 100, penalties balance |
| GameRuns.DeckNeverRunsOut | backend/internal/game/state.go:159-181 | in every reachable running state a draw that is due succeeds |
| GameRuns.MasksStaySmall | backend/internal/game/state.go:881-919 | in every reachable state the search works on at most fourteen mask bits |
| RelaidTables.PlayCarries | backend/internal/game/state.go:1309-1440 | a play one table takes is taken by any table whose unrecognised runs, which offer no joker, are laid out anew; the hand is the same and the tables differ in layout only |
| RelaidTables.AcceptedCarries | backend/internal/game/state.go:1125-1244 | a play the search accepted on one table it would accept on the other |
| Obligations.ObligationAlwaysBacked | backend/internal/game/state.go:183-209 | in every state of every run, restarts included, an obligation to use the discard has an accepted play behind it; submitted compositions are those the server's constructor builds |
| Obligations.NeverTrapped | backend/internal/game/state.go:183-209 | in every state of every such run a player who must use the discard and has opened, or could reclaim no joker with the cards held before, has a table play that succeeds and clears the obligation |
| PlayAndDiscard.PlayThenDiscardIsBoth | backend/internal/game/state.go:298-312 | play-and-discard equals playing and then discarding, or leaves the game untouched, when every run on the table keeps its layout |
| PlayAndDiscard.OneRequestFollows | backend/internal/game/state.go:298-312 | on every table of built compositions: if playing and then discarding succeeds, so does the one request, with the same result but for the layout of runs |
| PlayAndDiscard.CompleteIsSame | backend/internal/game/composition.go:187-246 | a complete composition has only one layout, so clearing the table does not depend on layout |
| GameStates.GameState.DrawFromDeck | backend/internal/game/state.go:159-181 | the method on the object does what the model says, to state and error |
| GameStates.GameState.DrawFromDiscard | backend/internal/game/state.go:183-209 | the method answers by the search; when it accepts, a play using the discard exists; a player who has opened to whom a draw is due gets the discard if and only if some play with at most one reclaim uses it, one who has not gets it whenever a plain opening does |
| GameStates.GameState.PlayTable | backend/internal/game/state.go:219-284 | the method equals the model: phase, draw, emptiness, current player, executor and obligation checks in order, opening statistics |
| GameStates.GameState.DiscardFromHandMatching | backend/internal/game/state.go:320-369 | the method equals the model, including the stale-index correction, cleanup, special wins and turn change |
| GameStates.GameState.FinishRound | backend/internal/game/state.go:385-438 | the loops over players, the credit to the winner, the end test and the adjustment give the specified state, whose totals and end RoundResults states without it |
| GameStates.GameState.ApplyOverHundredAdjustment | backend/internal/game/state.go:453-474 | totals over 100 fall to the highest remaining active total |
| GameStates.GameState.RemoveCompletedCompositionsToDiscard | backend/internal/game/state.go:529-556 | complete compositions leave the table and lie on the discard pile in order |
| GameStates.GameState.StartRound | backend/internal/game/state.go:598-634 | dealer and chooser checks, deal, round counts, first discard and a hand won at the deal, as specified |
| GameStates.GameState.StartNextRound | backend/internal/game/state.go:580-596 | the next dealer deals from a fresh deck; the round number goes up only on success |
| GameStates.GameState.ForfeitPlayer | backend/internal/game/state.go:719-778 | the method equals the model of a forfeit, including forfeit order, early end and turn change |
| GameStates.GameState.EndWithoutWinner | backend/internal/game/state.go:780-789 | a running game is over without a winner, any other is refused |
| GameStates.GameState.RecycleDiscardIntoDrawPileIfNeeded | backend/internal/game/state.go:857-869 | an empty draw pile is refilled with the discards below the top one, turned over |
| GameStates.GameState.PlayTableAndDiscardMatching | backend/internal/game/state.go:298-312 | both parts are done on a restored copy that replaces the game only if both succeed |
| Persistence.TakeSnapshot | backend/internal/game/persistence.go:50-121 | the loops write the specified snapshot: joker representations are not saved, a drawn discard only while it must be used |
| Persistence.RestoreGameState | backend/internal/game/persistence.go:123-221 | the loops and checks compute the specified game or the first error in order |
| RestoreChecks.RestoreIff | backend/internal/game/persistence.go:123-272 | a snapshot is read back exactly if it passes every check (version, limits, phase, mode, ids, cards, compositions, turn, dealer, winner), and then it is the game that was saved, card for card and player for player, only layout and joker meanings being found anew |
| Persistence.RestoreAccepts | backend/internal/game/persistence.go:123-221 | the snapshot of a game in order is never refused, and what comes back is the game with its compositions rebuilt |
| Persistence.RemadeOk | backend/internal/game/persistence.go:176-187 | a rebuilt composition is in order and keeps variant and cards |
| Persistence.RecognisedKeepsLayout | backend/internal/game/persistence.go:176-187 | a recognised run comes back in its layout with the jokers of that layout |
| Persistence.RestoredKeeps | backend/internal/game/persistence.go:123-221 | a restored game satisfies the invariant: no card, point or seat is lost |
| BuiltTables.RemadeSameIff | backend/internal/game/persistence.go:176-187 | a composition as the constructor left it is rebuilt the same iff it is a set or its cards pass the rank counts of LayoutLasts |
| BuiltTables.UnrecognisedOffersNothing | backend/internal/game/composition.go:515-532 | a built run that is not recognised as it lies has no joker representation, so none of its jokers can be reclaimed |
| BuiltTables.RestoredSameIff | backend/internal/game/persistence.go:50-221 | a restored game of built compositions is the same, up to a stale drawn discard, iff every run on its table passes |
| BuiltTables.PlayBuilds | backend/internal/game/state.go:1309-1440 | after any play of constructed compositions the table again holds constructed compositions, new ones exactly as submitted |
| BuiltTables.EveryTableIsBuilt | backend/internal/game/state.go:159-789 | in every run whose submitted compositions are constructed by the server, every composition on the table is as its constructor left it |
| BuiltTables.EveryRestartSucceeds | backend/internal/game/persistence.go:50-221 | in every state of such a run the snapshot is read back without error, and unchanged (up to a stale drawn discard) iff every run on the table keeps its layout, a condition on rank counts of its cards |
| BuiltTables.RestartRearranges | backend/internal/game/persistence.go:176-187 | a concrete table run the game accepts and a restart lays out differently |
| Streaks.CountersAreStreaks | backend/internal/game/statistics.go:145-161 | feeding results one by one yields rounds won, current, longest and starting streak of the history |
| Streaks.LongestIsMaximum | backend/internal/game/statistics.go:145-161 | the longest streak is the maximum length of a winning stretch |
| Streaks.MergeExtends | backend/internal/database/statistics.go:437-438 | merging a game's summary into the stored row gives the current and longest streak of the joined history |
| Streaks.LifetimeIsWholeHistory | backend/internal/database/statistics.go:437-438 | after any number of games of at least one round the stored streaks are those of the whole history of rounds |
| Placements.FinalPlacements | backend/internal/game/statistics.go:94-143 | the sorts and loops place the winner first, other active players by points with ties sharing a place, forfeited players last with later forfeits in front |
| PlayerRecords.RunsKeepCounters | backend/internal/game/statistics.go:145-161 | in every run of commands, a failed one leaving no trace, all counters stay consistent with the rounds played, but perhaps special wins against rounds won |
| PlayerRecords.RecordsAcceptedIff | backend/internal/database/statistics.go:223-306 | in every such run, once a round has started, the store's validator accepts the record iff nobody has more special wins of a kind than rounds won |
| PlayerRecords.OnlyDealtWinsUncover | backend/internal/database/statistics.go:276-306 | only a round after the first that its own deal decides can turn an accepted record into a refused one |
| PlayerRecords.RecordsAreAccepted | backend/internal/database/statistics.go:223-306 | up to the first such round every record is accepted |
| PlayerRecords.CompletedGamesAreAccepted | backend/internal/database/statistics.go:157-174 | in every such run a finished game's placements are within range, the first place is exactly the winner's, and the winner has not forfeited |
| PlayerRecords.NextRoundWonFromDeal | backend/internal/game/state.go:580-596 | whenever StartNextRound deals a winning hand, from any state of such a run, the store accepts the game's record iff the others' special wins were covered before and the winner's, one more now, still are; the win itself counts only if the round before has no result for the winner |
| DealtWins.TwoDealtWinsAreRefused | backend/internal/game/state.go:598-634 | a whole game of four commands whose record the store refuses: on the printed deck the first player is dealt twelve hearts twice and wins both rounds, one round counted, two special wins |
| DealtWins.PrintedDeal | backend/internal/game/state.go:1505-1534 | block dealing from the uncut printed deck gives the first player its first twelve cards and the second the next twelve |
| Outbox.GameStore.SaveTerminal | backend/internal/database/statistics.go:187-198 | a terminal status is written once, with a lifetime update exactly for a completed game; repeating it has no effect; the reported error says nothing about what was stored |
| Outbox.Lobby.RecordFinished | backend/cmd/server/lobby_server.go:1479-1541 | a finished game gets the next sequence number once; a game without registered players is closed without a record |
| Outbox.TerminalJobs | backend/cmd/server/lobby_server.go:1545-1565 | the queue holds exactly the pending records in sequence order |
| Outbox.Lobby.SaveStatisticsJobs | backend/cmd/server/lobby_server.go:1568-1637 | the loop delivers in order, skips records of blocked players and blocks their other players, whatever errors occur |
| Outbox.PersistKeeps | backend/cmd/server/lobby_server.go:1344-1391 | a command's save, in all its outcomes, keeps the delivery invariant |
| Outbox.DeliverKeeps | backend/cmd/server/lobby_server.go:1568-1637 | delivering one record, in all outcomes of the write, keeps it |
| Outbox.CrashKeeps | backend/cmd/server/lobby_server.go:1198-1342 | losing memory and restarting from the saved lobby keeps it |
| Outbox.PassKeepsPromises | backend/cmd/server/lobby_server.go:1568-1637 | a whole pass over the queue, with any faults, keeps all promises |
| Outbox.PromiseHolds | backend/cmd/server/lobby_server.go:1344-1637 | for every pattern of failed saves, errors reported after the commit and crashes: a game's lifetime update is made exactly if the game has its terminal status and was completed, and then once, no committed record is lost, and every player's games are applied in the order they were recorded |
| Outbox.FaultFreePassDelivers | backend/cmd/server/lobby_server.go:1568-1637 | one pass without faults delivers every committed record: its status is terminal, and its lifetime update is made exactly if it was completed |
| Outbox.OnlyTheirOwnWait | backend/cmd/server/lobby_server.go:1568-1637 | in a pass with whatever faults a record stays behind exactly if its own write fails or an earlier record of one of its players stays behind; nobody else waits |
| Outbox.FaultFreePassEmpties | backend/cmd/server/lobby_server.go:1568-1637 | after such a pass nothing is pending any more |
| Outbox.FinishedGameIsCounted | backend/cmd/server/lobby_server.go:1479-1637 | from the end of a game to the database: a save and a pass without faults leave the game terminal with the players it had, and in the lifetime updates exactly if it was completed |
| GameObjects.SeatedPlayer.Clone | backend/internal/game/clone.go:43-53 | the copied player has the same value and a hand of its own |
| CompositionObjects.Composition.Clone | backend/internal/game/clone.go:21-32 | the copied composition has the same value and a joker map of its own |
| GameObjects.ClonePlayers | backend/internal/game/clone.go:16-19 | the loop copies every player; all copies and their hands are new and different |
| GameObjects.CloneCompositions | backend/internal/game/clone.go:21-32 | the loop copies every composition; all copies and their maps are new and different |
| GameStates.GameState.Clone | backend/internal/game/clone.go:10-40 | the copied game has the same value; its players, hands, compositions, joker maps and piles are new objects and nothing is shared |
| RoomObjects.Room.Clone | backend/cmd/server/lobby_transaction.go:29-52 | cloning a room with its members, proposal and game gives an equal value made of new objects only |
| RoomObjects.Room.ForfeitGame | backend/cmd/server/lobby_server.go:720-754 | on objects: the game lets the player go, the member, the host and the proposal change, and the game is concluded for a winner or by agreement, as specified |
| RoomObjects.Room.Vote | backend/cmd/server/lobby_server.go:910-932 | a vote on the object has the specified result; an agreed end that the game refuses is an error, after the vote was noted |
| RoomObjects.Room.RemovePlayerFromProposal | backend/cmd/server/lobby_server.go:2106-2121 | a leaving player is taken off the proposal, which is dropped if it was theirs or fewer than two remain |
| Rooms.EligibleAfterLeaving | backend/cmd/server/lobby_server.go:2106-2121 | the players asked after a departure are those asked before without the one who left |
| Rooms.VoteKeeps | backend/cmd/server/lobby_server.go:898-932 | a vote keeps the room in order and ends the game only when everyone still in it has agreed |
| Rooms.ForfeitKeepsRoom | backend/cmd/server/lobby_server.go:708-766 | a forfeit keeps the room in order; if it ends the game without a winner all remaining players had agreed |
| Rooms.EndingAfterForfeitSucceeds | backend/cmd/server/lobby_server.go:728-754 | the ignored result of ending the game after a forfeit is always success |
| Rooms.RoomsStayInOrder | backend/cmd/server/lobby_server.go:857-945 | in every run of room commands the players asked are exactly those still in a running game, and those who agreed are among them |
| Rooms.AgreementIsUnanimous | backend/cmd/server/lobby_server.go:898-932 | in every run a game ends without a winner only when every player still in it has agreed |
| RoomResults.ProposeResult | backend/cmd/server/lobby_server.go:857-896 | a proposal is accepted exactly from a player still in a running game in which none is pending; everybody still in is asked, the proposer has agreed |
| RoomResults.VoteResult | backend/cmd/server/lobby_server.go:898-932 | a vote counts exactly from a player still in; a refusal drops the proposal, an approval is noted, and the one that makes it unanimous ends the game without a winner and with that conclusion |
| RoomResults.LeaveResult | backend/cmd/server/lobby_server.go:708-754 | exactly a player still in a running game can leave; the seat is out, the first one still in is host if the host left, the last one left wins, a proposal goes with its proposer or for want of voters, and one that all remaining had agreed to ends the game |
| Lobbies.LobbyServer.CopyLobby | backend/cmd/server/lobby_transaction.go:18-54 | the copy of sessions, rooms and pending records has the same value, and no object down to hands, piles and joker maps is shared |
| Lobbies.LobbyServer.LockMutation | backend/cmd/server/lobby_transaction.go:16-55 | the copies are fresh, the lobby is unchanged |
| Lobbies.LobbyServer.Unlock | backend/cmd/server/lobby_transaction.go:56-67 | an exit that was not saved restores the value before the command, any other keeps the value |
| Lobbies.LobbyServer.Persist | backend/cmd/server/lobby_server.go:1362-1410 | readers admitted during the save see the value before the command; success keeps the new value, failure leaves the rollback in place |
| Lobbies.LobbyServer.SessionRoom | backend/cmd/server/lobby_server.go:2005-2017 | a session whose room or seat is gone forgets the room, even though the command then fails |
| Lobbies.LobbyServer.VoteEndGame | backend/cmd/server/lobby_server.go:898-945 | the whole command succeeds iff session, room, seat and vote are valid and the save succeeds; then the lobby is the voted-on one and that is what was saved, otherwise it is as before, whatever objects had changed |
| Lobbies.LobbyServer.ForfeitGame | backend/cmd/server/lobby_server.go:708-766 | the same for the command that changes the session, the member, the host, the proposal, the players with their hands and the draw pile |
| GameStates.GameState.StartGameWithMode | backend/internal/game/state.go:562-574 | the method equals the model: phase and mode checks, reset, deal |
| Elo.Calculate | backend/internal/rating/elo.go:23-54 | the double loop computes each new rating from the pairwise gains, scaled, rounded and floored; bad rules or players are refused |
| Elo.ChangesBalance | backend/internal/rating/elo.go:23-54 | the unrounded changes sum to zero and the rounded ones to at most half a point per player |
| Elo.ChangeBounded | backend/internal/rating/elo.go:23-54 | no rating moves by more than the K factor |
| Elo.PlacementOrderKept | backend/internal/rating/elo.go:23-54 | of two players with equal ratings the better placed one does not end up below the other |
| Elo.StrongerGainsLess | backend/internal/rating/elo.go:23-54 | had a player been rated higher, the same placements would change that rating no more and everybody else's no less |
| Elo.DuelFavoursUpsets | backend/internal/rating/elo.go:23-54 | in a game of two the winner does not lose and the loser does not gain; they exchange at most half the K factor for a favourite's win and at least half of it for an upset |

## Left out

- DiscardSearch.CanTakeDiscardNow: before opening, what is missed is stated for plays that put a selection to a later use than its first, or play a joker the discard itself reclaims, by one input only; whether such a play is found depends on what the buffer holds by then, not on the position
- DiscardSearch.HasLegalPlayWithDiscard: before opening, likewise
- DiscardSearch.SearchSupportCandidates: likewise, finding nothing excludes first uses only
- OpeningSearch.PlainOpeningsAreFound: goes one way; a yes comes with the play found, and SearchPlays.AcceptedPlayExecutes says when that one can be carried out
- Obligations.NeverTrapped: for a player who has not opened and could reclaim a joker with the cards held before, whether a play exists is not decided from the state; SearchPlays.AcceptedPlayExecutes decides it for the play found
- RunOrdering.BestRunOrderOf: takes 3 to 14 cards whose naturals share a suit, as its callers make sure; what the loops would make of other lists is not modelled
- GameStates.GameState.PlayTable: the counters of compositions, additions, reclaims and cards played only go up and are not modelled; it takes compositions that are valid with consistent jokers, which the constructors guarantee, and that a refused play leaves the submitted objects normalised is not modelled, submitted compositions being values
- GameStates.GameState.FinishRound: the recorded hands of a round and the largest penalty and largest points inflicted are not modelled
- GameStates.GameState.ForfeitPlayer: the recorded hand of the round is not modelled
- GameStates.GameState.DrawFromDiscard: requires a hand of at most 28 cards, which every reachable state has
- GameStates.GameState.StartRound: the deal works on the players' values and is then written back into their hands
- PlayerRecords.RecordsAcceptedIff: the counters that only go up from zero, which the store checks for sign and the bound of 2^31 only, are not modelled, nor are the record's ids, start time and playtime
- PlayerRecords.RecordsAreAccepted: likewise without the checks on those counters, ids and times
- Outbox.PromiseHolds: checkpoints of unfinished games, the legacy records without sequence number and the grouping of jobs by scope are not part of it
- Outbox.Lobby.SaveStatisticsJobs: delivers the records of finished games; the checkpoint jobs of the same loop are not modelled
- Outbox.CrashKeeps: the records that restoring a lobby adds for games finished before are made by the next save in the model
- RoomObjects.Room.Vote: the proposal's id and expiry, the cooldown after a refusal, a pending deal choice and turn tracking are not modelled
- RoomObjects.Room.ForfeitGame: emotes, turn tracking, a pending deal choice and the host flag kept with each member are not modelled; the host is the room's host id
- RoomObjects.Room.Clone: a member names its player by id, not by a reference of its own; turn baselines, turn activity and report cooldowns are not copied because they are not modelled
- Lobbies.LobbyServer.CopyLobby: the copy is as deep as the room and session objects modelled
- Lobbies.LobbyServer.Persist: playtime, revisions, and recording and delivering statistics within the save are not part of it; Outbox has them
- Lobbies.LobbyServer.VoteEndGame: the proposal's id and expiry are not checked; VoteEndGame and ForfeitGame are the commands modelled in full on objects, the others share the copy, the rollback and the save
- Elo.Calculate: the expected score is any function into (0, 1) in which opponents' shares add up to one; the floating-point power and with it the scale are not modelled
- Nil compositions, players and clone receivers
- The layout of fourteen jokers, whose last representation the source names rank 14; the model names the ace
- Unused helpers for points of added cards and reclaimed jokers, joker lists for display, and public snapshots
- Counters that only go up: cards drawn, turns taken, jokers played, compositions completed
- The library sort is modelled by insertion, which gives the same list
- HTTP, websockets, sign-in, rate limits, spectators, emotes, presence, cooldowns, proposal expiry times, playtime and turn activity
- SQL, leaderboards, analytics and rating history; each save is one atomic guarded update
- React components, drag and drop, translations and draft staging
