# Verification of the CFR poker solver's core

A Dafny model of the solver's hardest parts, and proofs about them.

- **Hands** (`Hands`, `Betting`, `HandRuns`, `Rules`, `Showdown`, `Payouts`, `LegalActions`, `RaiseSizes`, `History`,
  `ActionRecords`, `Engine`, `Ascending`, `Chips`). The six-seat betting state machine from the deal to the side pots.
  `Hands` and `Showdown` describe each operation as a function of the hand; `Engine.HandState` is the object with its
  arrays, and each of its methods ends in exactly the state its function gives. `Rules`, `Payouts`, `RaiseSizes` and
  `ActionRecords` tell the same game a second time, in seats, chips and cards, and prove both agree. The theorems are
  about every deal and every sequence of moves: the rules decide each move, chips are conserved, payouts are exact,
  hands end, only a full raise reopens the betting, and the history buffer reads back.
- **The infoset store** (`Arenas`, `Stores`, `Accesses`, `Saves`, `KeyIndexes`, `Blueprints`, `Touched`). A node table over
  two bump arenas, an open-addressed index, lazily applied discounts, and an overlay that reads through to a base. Over
  any run an overlay and its base stand for two plain maps.
- **Parallel training** (`Partitions`, `Interleaving`, `Merges`, `Deltas`, `Overlays`, `RoundTrips`, `Training`,
  `WorkerProtocol`). Workers train on overlays, subtract the base, and shard threads add the differences back at the
  same time. Every interleaving gives the single-threaded result; the round trip is stated key by key for any pending
  discount; the start and done events are a transition system of their own.
- **Lazy discounting** (`Discounts`, `LazySums`, `LazyRegrets`). The schedule of discount events, and stamps with sync
  on access against discounting everything at every event: equal for sums, within a proved distance for regrets.
- **The runtime artifact** (`Quantise`, `RuntimeArtifacts`). Largest-remainder quantisation, the sharded sorted layout,
  and lookups through a direct-mapped cache.
- **Small protocols** (`OnceInit`, `SubgameLists`). The one-time initialiser, and the action limiter and injector of
  subgame search. `Sequences` and `Options` are shared helpers.

Four properties are false of the code as it stands. Each is stated with the exact condition under which it holds and
with a run of the code's own operations on which it fails.

- A worker's difference is taken from the discounted base but added to the raw one. A regret only one worker touched
  therefore ends at that worker's value if and only if the change fits 32 bits and, besides, the pending discount did
  not alter the base's regret or the merge saturates on that value (`Overlays.SoleWorkerWins`). It fails on
  `RoundTrips.PendingDiscountLosesRegret` and, for the width alone, on `RoundTrips.WrappedChangeLosesRegret`.
- A strategy sum only one worker touched ends at that worker's value if and only if no discount was pending on it or it
  was zero, and reads as that value if and only if none was pending or the worker had not changed it
  (`Overlays.SoleSumIsExact`). It fails on `RoundTrips.PendingDiscountLosesSum`.
- Sums discounted lazily are the sums discounted eagerly until the running scale falls below 1e-12. The scale then
  starts over while the stamps keep the old one, and a sum reads right if and only if it is zero
  (`LazySums.RescaleBreaks`). It fails on `LazySums.RescaleReached`, and with scale 1 from the event numbered 10^12
  (`Discounts.LinearScale`).
- The all-in is the last entry of the menu if and only if the menu was not cut at sixteen entries
  (`LegalActions.MenuRaises`). It is missing on the hand of `LegalActions.AllInIsCut`.

Regrets are integers and each sync rounds them, so where a run of discounts leaves them depends on when they were read
(`LazyRegrets.LookingChangesRegrets`). They stay within half a unit per operation of exact discounting
(`LazyRegrets.RegretsStayNear`).

Hand scores, hash mixing, random draws, card order, a node's average policy and the success of the hand indexer's own
initialisation are parameters: the theorems hold for all of them. Strategy sums and policies are exact reals, except
that the merge theorems hold for any addition of two sums, rounded or not. Regrets are integers with the 32-bit
clamping and wrapping written out. The objects the source updates in place are classes (`Engine.HandState`,
`KeyIndexes.KeyIndex`, `Blueprints.Blueprint`, `Touched.TouchedSet`, `Discounts.Schedule`, `RuntimeArtifacts.Reader`).

`dafny verify dfyconfig.toml` checks everything.

## Model

| member | source | states |
|---|---|---|
| `Betting.RunKeeps` | src/poker_state.c:765-869 | From every deal, after any moves: the betting invariant holds (some live seat leads every contribution, live seats off the bet still have to act), the pot is the sum of contributions, pot and stacks sum to 1200, the board fits the street and the deck position, and a running hand is always on a seat that can act |
| `Betting.StepKeeps` | src/poker_state.c:1496-1559 | One move by the seat whose turn it is keeps that whole invariant |
| `Betting.ActKeepsBets` | src/poker_state.c:1408-1494 | Folding, calling and raising, short all-ins included, keep the betting part of the invariant |
| `Betting.RaiseKeepsBets` | src/poker_state.c:1432-1494 | A raise to any target does: lifting the bet puts every other live seat with chips back on turn |
| `Betting.NextStreetKeepsBets` | src/poker_state.c:749-763 | Opening a street keeps it, because nobody owed a call when the last one closed |
| `Betting.AutoAdvanceKeeps` | src/poker_state.c:765-806 | Advancing through finished streets keeps the betting and card invariants and ends on a seat that can act or on a finished hand |
| `Betting.FindNextActorComplete` | src/poker_state.c:682-696 | The search around the table finds a seat whenever one must act |
| `Betting.NextActorFinds` | src/poker_state.c:682-696 | It finds the nearest such seat |
| `Betting.InitKeeps` | src/poker_state.c:808-869 | A fresh hand, blinds posted, satisfies the invariant for every dealer number and deck |
| `Rules.DealIs` | src/poker_state.c:808-869 | A fresh hand, for every dealer number and deck, seat by seat: the k-th seat left of the dealer has cards k and 6+k, one and two chips are in for the blinds, everyone has to act and the third seat is on turn |
| `Rules.RulesDecide` | src/poker_state.c:1496-1559 | On every run the rules of play, told in seats, chips and flags, hold of a hand and a successor if and only if the successor is the next move's result, the buffer of past actions aside: what is paid, who must answer, who is next (the nearest such seat left of the one that moved, or left of the dealer on a new street), when the street and the hand end, which cards are on the board |
| `Rules.OnePlay` | src/poker_state.c:1496-1559 | The rules leave no choice: two successors differ at most in that buffer |
| `Rules.StepPlays` | src/poker_state.c:1408-1559 | Every move from a reachable state follows the rules |
| `Rules.StreetEnds` | src/poker_state.c:765-806 | A finished street opens the next one on the seat left of the dealer that can act, or with nobody able to bet runs out to the river |
| `Rules.NextActorIsNearest` | src/poker_state.c:682-696 | The search ends at the nearest seat to the left that must act, and reports none if there is none |
| `Rules.FirstToAct` | src/poker_state.c:698-712 | In any state, the first seat to act is the nearest to the left of the big blind before the flop, and of the dealer after it |
| `Rules.BoardFromDeck` | src/poker_state.c:725-747 | Board cards come off the deck in order, card 0 once it is used up |
| `HandRuns.StepDescends` | src/poker_state.c:1496-1559 | Every move lowers the rank built from streets left, chips in stacks and seats that must act |
| `HandRuns.HandEnds` | src/poker_state.c:765-806 | No hand can go on for more than a fixed number of moves |
| `HandRuns.StepRecords` | src/poker_state.c:749-763 | Who has acted and on which full raise survives a move unchanged, or starts afresh with the street |
| `HandRuns.RecordsHold` | src/poker_state.c:1470-1546 | Over every run the recorded sequence numbers say exactly whether a full raise came after a seat last acted on this street |
| `HandRuns.OnlyFullRaiseReopens` | src/poker_state.c:905-916 | On every run, a seat that has acted this street may raise if and only if a raise of at least the last full raise came since and its stack exceeds the call; short all-ins reopen nothing |
| `Showdown.LayerIsCapDifference` | src/poker_state.c:1683-1704 | A side-pot layer, counted by seats reaching the level, is what capping contributions at the level adds |
| `Showdown.SplitConserves` | src/poker_state.c:1738-1748 | A split pays out exactly the amount |
| `Showdown.SplitIsFair` | src/poker_state.c:1738-1748 | Each winner gets the share or the share plus one, a lone winner all, anyone else nothing |
| `Showdown.LayerPaid` | src/poker_state.c:1672-1757 | On a reachable state no layer is clipped by the remaining pot and none lacks a winner |
| `Showdown.ShowdownExact` | src/poker_state.c:1670-1808 | The layers take the whole pot and leave nothing for the fallback split; no seat gets more than the chips played against it; a strictly best hand gets exactly that; folded seats and seats beaten by one with at least as much in get nothing |
| `Showdown.HandPaysExactly` | src/poker_state.c:1561-1813 | For every deal, every sequence of moves and every seat: resolving pays a seat no more than the chips played against it, exactly that if it is strictly best or alone, and nothing if it folded or a better hand has at least as much in |
| `Showdown.TiesWithinOneChip` | src/poker_state.c:1714-1749 | Two winners of one layer are paid within one chip of each other |
| `Payouts.HandPays` | src/poker_state.c:1561-1813 | For every deal, every sequence of moves and every seat, what resolving pays: the pot to a seat left alone; else, for each stretch between two contributions, its part of those chips among the best of the seats that reached the upper one, each judged by its own two cards and the board |
| `Payouts.SplitGives` | src/poker_state.c:1738-1748 | Equal shares, and one odd chip each to the lowest winners |
| `Payouts.RestIsPaid` | src/poker_state.c:1759-1801 | Chips no layer took, in states whose pot is not the contributions, are split the same way among the best of all seats still in |
| `Payouts.StrengthDecides` | src/poker_state.c:1613-1757 | On every run the strongest hand wins all it played for, and a folded seat or one beaten by a hand with at least as much in wins nothing |
| `Payouts.StrengthIsDealt` | src/poker_state.c:1613-1622 | On every run the k-th seat left of the dealer is judged by cards k, 6+k and 12 to 16 of the deck |
| `Showdown.ResolveConserves` | src/poker_state.c:1561-1813 | Resolving a hand, shown down or not, empties the pot and keeps pot plus stacks |
| `Showdown.HandConservesChips` | src/poker_state.c:1561-1813 | Playing any moves from any deal and resolving leaves 1200 chips in the stacks and none in the pot |
| `Showdown.NoCardDealtTwice` | src/poker_state.c:842-852 | At every point of every run, hole cards and board, also once completed for the showdown, are distinct cards of the deck |
| `Showdown.BetsArePayable` | src/poker_state.c:1733-1751 | The betting invariant is what makes every layer payable: a live seat leads every contribution |
| `LegalActions.MenuIs` | src/poker_state.c:1026-1136 | The menu is a fold if there is a bet, the call, and the first raises of a strictly increasing list |
| `LegalActions.AllInCanBeCut` | src/poker_state.c:1120-1131 | In every hand with this pot, bet and stack before the flop the menu is cut and offers no all-in |
| `LegalActions.AllInIsCut` | src/poker_state.c:1026-1136 | Such a hand is reached: from any deck, after a raise to four and three calls, the seat on turn may raise but is not offered its all-in |
| `LegalActions.MenuRaises` | src/poker_state.c:1060-1132 | On a reachable state raises are offered if and only if the seat may raise and can exceed the bet; offered targets strictly increase above the bet and up to the stack, each a full raise or all-in; the all-in is last if and only if the list was not cut |
| `RaiseSizes.TargetsAreWanted` | src/poker_state.c:918-1103 | The raises considered are exactly: the smallest full raise, the all-in, and each usual size still on offer that is no smaller; told in hundredths of the pot rounded to chips |
| `RaiseSizes.MenuOffersWanted` | src/poker_state.c:1026-1136 | The menu offers only those, and one is missing only if the menu is full, of smaller raises |
| `RaiseSizes.NothingCut` | src/poker_state.c:1120-1131 | From the flop on none is ever missing |
| `RaiseSizes.TurnAndRiver` | src/poker_state.c:949-980 | On the turn and the river half the pot and the pot are offered until somebody raised, only the pot after that, and only the first of them with a stack no larger than the bet and a full raise |
| `RaiseSizes.MenuStarts` | src/poker_state.c:1034-1056 | The menu starts with a fold if there is something to call, then the call |
| `RaiseSizes.RunsMayRaise` | src/poker_state.c:905-916 | On every run the guard that offers raises holds exactly where these results apply |
| `Ascending.ExchangeSort` | src/poker_state.c:1655-1668 | The in-place exchange sort leaves the members ascending and the rest of the array alone |
| `Ascending.IncreasingUnique` | src/poker_state.c:1655-1668 | An ascending list is determined by its members |
| `Engine.HandState.constructor` | src/poker_state.c:808-830 | A hand object with its seat arrays |
| `Engine.HandState.AddHistory` | src/poker_state.c:624-630 | Appends a code while the buffer has room |
| `Engine.HandState.PlayersInHand` | src/poker_state.c:592-606 | Counts the seats still in |
| `Engine.HandState.PlayersNeedingAction` | src/poker_state.c:608-622 | Counts the seats that can and must act |
| `Engine.HandState.NextActor` | src/poker_state.c:682-696 | Walks the table to the next seat that must act, or reports none |
| `Engine.HandState.FirstActorForStreet` | src/poker_state.c:698-712 | First seat to act on a street |
| `Engine.HandState.PostBlind` | src/poker_state.c:714-723 | Pays an amount, or what the stack has, into the pot and both contribution counters |
| `Engine.HandState.DealCards` | src/poker_state.c:725-747 | Deals board cards while the board has room |
| `Engine.HandState.ResetStreet` | src/poker_state.c:749-763 | Clears the per-street counters of every seat |
| `Engine.HandState.StartStreet` | src/poker_state.c:794-804 | Opens the next street: separator, cards, counters, flags, first actor |
| `Engine.HandState.AutoAdvanceRounds` | src/poker_state.c:765-806 | The loop equals the recursive advance that the invariant is proved about |
| `Engine.HandState.Call` | src/poker_state.c:1408-1430 | Pays the call or what is left of the stack |
| `Engine.HandState.AskOthers` | src/poker_state.c:1485-1491 | Puts every other live seat with chips back on turn |
| `Engine.HandState.LiftBet` | src/poker_state.c:1475-1493 | Lifts the bet and, only for a full raise, the raise size; reports whether it was one |
| `Engine.HandState.RaiseTo` | src/poker_state.c:1432-1494 | Clamps the target, pays and lifts the bet; a target at or below the bet is a call |
| `Engine.HandState.TakeAction` | src/poker_state.c:1496-1559 | One applied action in place is the step of the model that all run theorems are about |
| `Engine.HandState.InitHand` | src/poker_state.c:808-869 | A shuffled, dealt hand with blinds posted and the first seat on turn |
| `Engine.HandState.CollectLevels` | src/poker_state.c:1626-1668 | The distinct positive contributions in ascending order |
| `Engine.HandState.BestSeats` | src/poker_state.c:1714-1731 | One pass collects exactly the eligible seats with the lowest score |
| `Engine.HandState.SplitAmong` | src/poker_state.c:1738-1748 | Shares and odd chips are paid into the stacks as the split function says |
| `Engine.HandState.PayOneLayer` | src/poker_state.c:1683-1751 | One side-pot layer in place |
| `Engine.HandState.PayAllLayers` | src/poker_state.c:1670-1757 | All layers in turn, stopping when the pot is used up |
| `Engine.HandState.PayLeftOver` | src/poker_state.c:1759-1801 | The fallback split of what the layers left |
| `Engine.HandState.TakeWholePot` | src/poker_state.c:1568-1593 | The last seat standing takes the pot |
| `Engine.HandState.FillBoard` | src/poker_state.c:1595-1598 | Completes the board from the deck |
| `Engine.HandState.ResolveTerminal` | src/poker_state.c:1561-1813 | Resolves a hand once; the payout theorems are about the function it equals |
| `Engine.HandState.CollectTargets` | src/poker_state.c:1065-1103 | The candidate raise targets, each once |
| `Engine.HandState.OfferActions` | src/poker_state.c:1026-1136 | Fills the action and target arrays with exactly the menu |
| `Engine.HandState.DrawCard` | src/core.c:962-969 | Draws the next card, or card 0 from an exhausted deck |
| `Engine.HandState.ShuffleDeck` | src/core.c:942-960 | Whatever the random draws, the shuffled deck holds the 52 cards once each |
| `History.SegmentBounds` | src/commands.c:2742-2819 | Finds the segment after the separator of a street in any code list, and what is returned when there is none |
| `History.DecodeSegment` | src/commands.c:3136-3173 | The loop yields the action and bucket pairs of the segment |
| `History.DecodeEncodes` | src/commands.c:3136-3207 | Decoding an encoded move list gives the moves back; a size marker is never taken for a move |
| `History.ExtendKeepsFrame` | src/poker_state.c:1496-1559 | One move keeps the frame: earlier streets and their separators, then exactly the codes of this street's moves |
| `History.SegmentUnique` | src/commands.c:2742-2819 | With as many separators as streets passed there is one place the current segment can be |
| `History.HistoryRoundTrip` | src/commands.c:2742-2819 | For every run from a deal whose codes fit the 128-byte buffer, the segment of the current street exists, is the only one, and decodes to exactly that street's moves and raise buckets in order; the size class of an all-in is not read back |
| `History.ReadStreet` | src/commands.c:3136-3207 | Searching the buffer of such a run for the current street and decoding what was found gives that street's moves |
| `ActionRecords.BufferTells` | src/commands.c:2742-2819 | On every run whose codes fit 128 bytes, what is read back for the current street are the moves made on it, all of them and in order: the kind of each, and for a sized raise the class of its lift |
| `ActionRecords.EventsTell` | src/poker_state.c:1496-1546 | The entries of a street stand for exactly the moves made on it |
| `ActionRecords.BucketIsClass` | src/poker_state.c:632-650 | Class 0 is no lift, class 1 one or two chips, class b more than 2^(b-1) and up to 2^b chips, class 8 more than 128 |
| `ActionRecords.ClassesAscend` | src/poker_state.c:632-643 | A larger raise never gets a smaller class |
| `ActionRecords.RunsNumberStreets` | src/poker_state.c:794-795 | On every run the separators written are 241, 242 and so on, one for each street opened |
| `Arenas.GrowModel` | src/core.c:1458-1511 | Growing a node changes one key's payload, by zeros at its end |
| `Arenas.SetRegretModel` | src/core.c:1219-1271 | Writing a regret changes that entry of that key and no other node |
| `Arenas.SetStrategyModel` | src/core.c:1219-1271 | The same for strategy sums |
| `Arenas.MapCellsReplaces` | src/core.c:2222-2243 | A loop that rewrites a node's actions one by one in the arenas changes that node's payload, each entry once, and no other node's |
| `Arenas.SyncModel` | src/core.c:2190-2246 | Applying a node's pending discount scales one key's regrets and sums, rounds the regrets half away from zero, and touches no other key |
| `Arenas.SyncAllModel` | src/core.c:2248-2263 | Doing so for every node brings every key up to date |
| `Arenas.UnsetReadsAsOne` | src/core.c:2207-2212 | A scale or a stamp that is not positive reads as 1 |
| `Arenas.RoundIsNearest` | src/core.c:2224-2237 | The rounded value is the nearest integer, of two equally near the one farther from zero, and the only such |
| `Arenas.RoundIsOdd` | src/core.c:2224-2237 | Rounding a negated value negates the result |
| `Arenas.SyncRounds` | src/core.c:2190-2246 | Each regret cell of a synced node holds that nearest integer to the exact product |
| `Arenas.SyncNegated` | src/core.c:2190-2246 | Negating a node's regrets before a sync is negating them after it |
| `Stores.TouchFlat` | src/core.c:2657-2749 | Find-or-create is an insertion, an extension and a sync in the plain map, whatever moved in the arenas, and keeps regions disjoint and keys unique |
| `Stores.DiscountedFlat` | src/cfr_trainer.c:729-756 | A discount event lowers the scale and nothing else, until the scale is too small: then every entry is brought up to date and the scale starts over |
| `Stores.EventSetsScale` | src/cfr_trainer.c:741-756 | An event multiplies the scale by its factor, or makes it 1 once that falls below 1e-12, and does nothing for a factor outside 0 to 1 |
| `Stores.ApplyRefines` | src/core.c:2657-2749 | One operation on an overlay or through it, resets and attachments included, acts on two plain maps |
| `Stores.RunsRefine` | src/core.c:2657-2749 | Over any sequence of lookups, find-or-creates, writes, discounts, resets and attachments the overlay and its base stand for what the two plain maps hold; none can get stuck |
| `Stores.ReadsRefine` | src/core.c:2657-2749 | A read is a lookup in the overlay's map, or in the base's where the overlay has no copy, with what is pending applied |
| `Stores.TouchReads` | src/core.c:2498-2625 | The first write access copies what a read saw, a discount pending on the base applied, extended with zeros; every other key reads as before |
| `Stores.LookReads` | src/core.c:2190-2246 | Looking a key up changes what is stored, never what any key reads |
| `Stores.BaseReadsAsBefore` | src/core.c:2657-2749 | Until the overlay is reset or attached elsewhere, nothing done to it changes what its base reads |
| `Stores.RunsKeepLinks` | src/core.c:2613 | Over every run an overlay's nodes remember the base node of their own key |
| `Accesses.NewKeyIsZero` | src/core.c:2498-2625 | A key that store and base lack gets zeros, the asked number of actions kept within 1 to 16, its street or 255, sums unless the store leaves out those of later streets, and neither base link nor mark |
| `Accesses.OldKeyWidens` | src/core.c:2498-2625 | A key that was there keeps every entry it read, with zeros for new actions |
| `Accesses.RunsKeepMode` | src/core.c:1552-1567 | Over every run a key reads with sums unless sums of later streets are left out and its node is on one; an overlay does as its base |
| `Saves.LoadStep` | src/poker_state.c:243-318 | Loading one record appends it right after the last, kept apart from those before |
| `Saves.SaveThenLoad` | src/poker_state.c:12-336 | Saving applies every pending discount; loading the file never exceeds the capacities from its header and gives a store where every key reads as it did before the save, every region right after the last |
| `Saves.LoadsWhatFits` | src/poker_state.c:243-318 | Any file, damaged or not, loads if and only if its records fit the room allotted |
| `KeyIndexes.FreeSlotEndsProbe` | src/core.c:1131-1167 | A probe that reaches a free slot has passed every slot the key could be in |
| `KeyIndexes.KeyIndex.constructor` | src/core.c:1674-1736 | An empty table of a given capacity |
| `KeyIndexes.KeyIndex.FindSlot` | src/core.c:1131-1167 | Linear probing ends and finds exactly the keys entered, or the free slot where the key belongs |
| `KeyIndexes.KeyIndex.Insert` | src/core.c:2657-2749 | Filling that slot adds one key, keeps every other reachable and lists the slot as used |
| `KeyIndexes.KeyIndex.ClearSparse` | src/core.c:1193-1217 | Zeroing the listed slots empties the whole table |
| `KeyIndexes.KeyIndex.Rehash` | src/core.c:1674-1736 | A larger table holds the same keys at the same node numbers |
| `KeyIndexes.KeyIndex.EnsureRoom` | src/core.c:1738-1766 | Afterwards one more entry keeps the table at most seven tenths full |
| `KeyIndexes.SlotsBound` | src/core.c:1738-1766 | Distinct slots below the capacity are no more than it, so the load rule leaves one free |
| `Blueprints.Blueprint.constructor` | src/core.c:1768-1816 | An empty store |
| `Blueprints.Blueprint.FindOwn` | src/core.c:2627-2655 | The index answers what a search of the node table would |
| `Blueprints.Blueprint.Lookup` | src/core.c:2657-2749 | A read falls through to the base until there is a local copy, and applies a pending discount to the node it ends at, the base's included |
| `Blueprints.Blueprint.Sync` | src/core.c:2190-2246 | A node's pending discount is applied to its cells, each regret becoming the nearest integer to the exact product, halves away from zero, and its stamp moves to the present scale |
| `Blueprints.Blueprint.LookOwn` | src/core.c:2627-2655 | Looking up a key of this store alone |
| `Blueprints.Blueprint.ApplyDiscount` | src/cfr_trainer.c:729-756 | One discount event in place, the materialisation included |
| `Blueprints.Blueprint.CopyOut` | src/core.c:2565-2609 | What a base hands to an overlay: its payload as it reads now, extended with zeros |
| `Blueprints.Blueprint.AttachTo` | src/cfr_trainer.c:1529-1531 | How a worker starts a task: emptied, and attached to the base with its storage mode |
| `Blueprints.Blueprint.AppendNode` | src/core.c:2498-2625 | A new node, stamped, with its payload at the end of the arenas, found by the index |
| `Blueprints.Blueprint.StartPayload` | src/core.c:2528-2611 | A new node starts from what the base's payload reads now, extended with zeros and stamped with the overlay's scale, or from zeros |
| `Blueprints.Blueprint.GetForWrite` | src/core.c:2657-2749 | Find-or-create as a whole: growing and syncing a found node, or copying from the base, which is only read |
| `Blueprints.Blueprint.Allocate` | src/core.c:1364-1456 | Both bump arenas grow by the payload and nothing in them moves |
| `Blueprints.Blueprint.GrowNode` | src/core.c:1458-1511 | Growing moves the payload to the end of the arenas, zeros after the copied part |
| `Blueprints.Blueprint.ResetSparse` | src/core.c:2160-2188 | Clears the index through its used slots, empties the arenas and lets go of the base |
| `Blueprints.IndexFinds` | src/core.c:2627-2655 | Looking a key up in the index is searching the nodes |
| `Touched.MarkedUpdate` | src/core.c:615-655 | Changing one mark leaves all others alone, those in the same word included |
| `Touched.DistinctBound` | src/cfr_trainer.c:200-223 | Distinct node numbers are no more than there are nodes: the touched list cannot overflow |
| `Touched.TouchedSet.Test` | src/core.c:615-627 | A mark is set exactly for the listed nodes |
| `Touched.TouchedSet.Touch` | src/cfr_trainer.c:200-223 | Records a node once, in order, and always has room |
| `Touched.TouchedSet.Reset` | src/cfr_trainer.c:177-198 | Clears exactly the listed marks |
| `Touched.TouchedSet.Grow` | src/core.c:1569-1672 | Growing keeps the list and its marks |
| `Partitions.CountShards` | src/cfr_trainer.c:1022-1047 | First pass: how many entries each shard has |
| `Partitions.FillOffsets` | src/cfr_trainer.c:1049-1054 | Where each shard starts |
| `Partitions.DealOut` | src/cfr_trainer.c:1064-1086 | Second pass: every shard's entries in its own segment, in list order |
| `Partitions.Partition` | src/cfr_trainer.c:1002-1088 | The counting partition: segment s is the touched list filtered by shard s, stale entries left out |
| `Partitions.CursorInSegment` | src/cfr_trainer.c:1064-1086 | A shard's cursor never leaves its segment |
| `Partitions.StartTotal` | src/cfr_trainer.c:1049-1062 | The segments together fit the list |
| `Interleaving.ExecAtCell` | src/cfr_trainer.c:1304-1353 | What a program leaves in a cell depends only on the operations on that cell, in order |
| `Interleaving.StepKeepsInvariant` | src/cfr_trainer.c:1449-1465 | A read or a write of one thread keeps: every thread's cells are as if its done part had run alone |
| `Interleaving.EveryScheduleAgrees` | src/cfr_trainer.c:1449-1465 | If every cell has one owner, every interleaving of reads and writes ends in what one sequential program leaves |
| `Merges.ClampedSumsDoNotAssociate` | src/cfr_trainer.c:411-425 | Saturating addition depends on grouping |
| `Merges.ClampIsNearest` | src/cfr_trainer.c:411-425 | Saturation gives the 32-bit number nearest to the exact sum |
| `Merges.SharesShard` | src/cfr_trainer.c:957-964 | Two keys share a shard if and only if their mixes agree modulo the number of shards |
| `Merges.OneNode` | src/core.c:1364-1456 | No memory cell belongs to two nodes |
| `Merges.EntryCells` | src/cfr_trainer.c:1304-1353 | Merging an entry touches only its key's node |
| `Merges.ListAtCell` | src/cfr_trainer.c:957-964 | Only entries of a cell's own key shard act on it |
| `Merges.ListStep` | src/cfr_trainer.c:1304-1353 | The memory operations of a list compute the merge of the list |
| `Merges.WorkersStep` | src/cfr_trainer.c:1743-1760 | The operations of all workers in turn compute the single-threaded merge |
| `Merges.ThreadsAreOwned` | src/cfr_trainer.c:1449-1465 | Shard threads touch disjoint cells |
| `Merges.ShardedMergeIsSequential` | src/cfr_trainer.c:1409-1465 | Under every interleaving of the shard threads, one step per read or write, the sharded merge leaves exactly the memory of the single-threaded worker-by-worker merge, for any rounding of the float additions |
| `Deltas.PlusActionsAt` | src/cfr_trainer.c:1340-1351 | Per action: the saturated sum, and the strategy sum where both sides have one |
| `Deltas.MergeEntryAtKey` | src/cfr_trainer.c:1304-1353 | A merged entry adds to its key's payload, if the destination has the key, and touches no other key |
| `Deltas.MergeListAtKey` | src/cfr_trainer.c:1304-1353 | A duplicate-free list adds what it brings for each key, once |
| `Deltas.MergeWorkersAtKey` | src/cfr_trainer.c:1743-1760 | The merged store holds, for every key, the fold in worker order of what the workers bring |
| `Deltas.MergeAddsNoKey` | src/cfr_trainer.c:1327-1331 | Merging creates no key |
| `Deltas.KnownStreetStays` | src/cfr_trainer.c:1332-1335 | A known street survives the merge |
| `Deltas.FirstStreetTold` | src/cfr_trainer.c:1332-1335 | An unknown street becomes that of the first worker that knows it |
| `Training.HintNode` | src/cfr_trainer.c:1332-1335 | Fills in a street only where it is unknown |
| `Training.AddRegret` | src/cfr_trainer.c:411-425 | One regret is added to, saturating, at its place in the arena |
| `Training.AddActions` | src/cfr_trainer.c:1336-1343 | The per-action loop of the merge |
| `Training.AddEntry` | src/cfr_trainer.c:1304-1353 | One touched entry, merged in place |
| `Training.MergeSegment` | src/cfr_trainer.c:1409-1447 | The fast path: a shard's segment of the partition gives the merge of the entries of that shard |
| `Training.MergeShard` | src/cfr_trainer.c:1355-1407 | The scanning path gives the same |
| `Training.OneShardIsAll` | src/cfr_trainer.c:957-964 | Scanning for shard 0 of 1 merges the whole list |
| `Training.MergeDeterministic` | src/cfr_trainer.c:1743-1760 | The single-threaded mode is the worker-by-worker merge that the sharded mode is proved equal to |
| `Training.SubtractBase` | src/cfr_trainer.c:1172-1282 | The touched nodes of a worker become their differences from the base |
| `Training.Precreate` | src/cfr_trainer.c:1128-1170 | Every key marked new is created in the base with room for the worker's actions |
| `Overlays.RegretShareIsRead` | src/cfr_trainer.c:1227-1270 | What is subtracted from a regret is what reading the base gives now, a pending discount applied and rounded |
| `Overlays.SumShareIsRead` | src/cfr_trainer.c:1227-1270 | What is subtracted from a sum is what reading the base gives now |
| `Overlays.WrapIs` | src/cfr_trainer.c:1275 | Subtraction of regrets wraps to the one 32-bit number equal modulo 2^32 |
| `Overlays.DeltaListAtKey` | src/cfr_trainer.c:1172-1282 | Exactly the touched keys are turned into differences |
| `Overlays.DeltaListMarks` | src/cfr_trainer.c:1204-1225 | A touched node is marked new if and only if the base lacks its key |
| `Overlays.PrecreateListPrepares` | src/cfr_trainer.c:1128-1170 | Creation leaves the base's own keys as they were; created keys hold zeros |
| `Overlays.RoomForAll` | src/cfr_trainer.c:1284-1302 | Once the missing keys are created every difference has room |
| `Overlays.RoundTripKeys` | src/cfr_trainer.c:1773-1856 | After a parallel round the store has the base's keys and those some worker touched |
| `Overlays.OverlayRoundTrip` | src/cfr_trainer.c:1773-1856 | Each regret afterwards is the saturated fold, in worker order, of the base's and every toucher's change |
| `Overlays.SoleWorkerWins` | src/cfr_trainer.c:1172-1282 | Whatever discount is pending: a regret one worker touched ends in the merged base at exactly that worker's value if and only if its change from the base's discounted regret fits 32 bits and, besides, the base's raw regret equals the discounted one or the merge saturates on the worker's value |
| `Overlays.NothingPendingReturns` | src/cfr_trainer.c:1227-1276 | With no discount pending that condition says that the change fits 32 bits |
| `Overlays.SharedInRange` | src/cfr_trainer.c:1256-1267 | A discount never takes the base's regret out of 32 bits |
| `Overlays.OverlaySumsRoundTrip` | src/cfr_trainer.c:1773-1856 | The same fold for strategy sums, for any rounding |
| `Overlays.SoleSumIsExact` | src/cfr_trainer.c:1172-1282 | Whatever discount is pending: a sum one worker touched ends at its value if and only if no discount was pending on it in the base or it was zero there, and reads as its value if and only if none was pending or the worker left it as it read it |
| `RoundTrips.TrainedByRuns` | src/cfr_trainer.c:1526-1540 | A worker reset, attached to the base and trained by any operations is as the round trip theorems want it |
| `RoundTrips.BaseReached` | src/cfr_trainer.c:729-750 | The base of the failures below is what four operations on an empty store leave |
| `RoundTrips.WorkerReached` | src/cfr_trainer.c:1526-1540 | So is its worker, attached to that base |
| `RoundTrips.PendingDiscountLosesRegret` | src/cfr_trainer.c:1172-1282 | A base regret of 100 with a discount of one half pending, read as 50 and trained to 60, ends at 110 |
| `RoundTrips.PendingDiscountLosesSum` | src/cfr_trainer.c:1172-1282 | A base sum of 4 with the same discount, read as 2 and trained to 3, ends at 5 |
| `RoundTrips.PendingDiscountReadsOff` | src/core.c:2190-2246 | And it then reads 2.5 |
| `RoundTrips.WrappedChangeLosesRegret` | src/cfr_trainer.c:1275 | With no discount pending, a change from the least to the greatest 32-bit regret is lost |
| `WorkerProtocol.CoordinatorKeeps` | src/cfr_trainer.c:1673-1741 | Every coordinator step keeps the protocol invariant |
| `WorkerProtocol.WorkerKeeps` | src/cfr_trainer.c:1491-1559 | Every worker step keeps it |
| `WorkerProtocol.OneTaskPerSignal` | src/cfr_trainer.c:1491-1559 | Over every schedule the orders carried out are the orders signalled, in order, at most one behind |
| `WorkerProtocol.NobodyWorksUnawaited` | src/cfr_trainer.c:1773-1842 | While the coordinator checks, creates nodes or prepares a context, the workers concerned are idle |
| `WorkerProtocol.MergeAfterTraining` | src/cfr_trainer.c:1811-1842 | When any worker merges, every worker has finished all its training |
| `WorkerProtocol.CreatesAfterSuccess` | src/cfr_trainer.c:1818-1829 | Nodes are created only after all training ended without a failure |
| `WorkerProtocol.ChecksTheRound` | src/cfr_trainer.c:1811-1821 | After a round of training the coordinator goes on if and only if no worker's training failed in that round; a failure of an earlier round does not count |
| `WorkerProtocol.MergesByChoice` | src/cfr_trainer.c:1823-1836 | Workers merge only when the coordinator chose the sharded merge |
| `WorkerProtocol.NeverStuck` | src/cfr_trainer.c:1653-1741 | Until the pool has halted someone can move: no wait is for an event that cannot come |
| `Quantise.RoundDown` | src/runtime_blueprint.c:152-173 | Whole parts and remainders of the scaled shares |
| `Quantise.Pick` | src/runtime_blueprint.c:177-184 | The scan ends at a remainder no other exceeds by more than the tolerance |
| `Quantise.HandOut` | src/runtime_blueprint.c:175-188 | The leftover loop ends; on a distribution it bumps different shares, largest remainders first, up to the exact scale |
| `Quantise.LeftOver` | src/runtime_blueprint.c:152-188 | A distribution leaves fewer units than it has shares |
| `Quantise.Quantise` | src/runtime_blueprint.c:132-200 | The quanta of a distribution sum to exactly 255 or 65535 |
| `Quantise.QuantaFit` | src/runtime_blueprint.c:190-199 | The final clamp never changes a quantum |
| `Quantise.DecodeIsClose` | src/runtime_blueprint.c:202-252 | Decoding is off by at most one unit of the scale in every action |
| `Quantise.DecodeIsDistribution` | src/runtime_blueprint.c:202-252 | Decoding gives a distribution |
| `Quantise.AnyDecodeIsDistribution` | src/runtime_blueprint.c:202-252 | Any quanta read decode to a distribution in their proportions, an even one if all are zero |
| `Quantise.Requantises` | src/runtime_blueprint.c:132-252 | Quantising a decoded policy gives the same quanta |
| `RuntimeArtifacts.ShardStreet` | src/runtime_blueprint.c:60-72 | Two streets share no shard, and every shard number is in the table |
| `RuntimeArtifacts.ShardPlace` | src/runtime_blueprint.c:60-72 | Each street has its own run of buckets in street order, a street out of range counting as the first; the bucket is the mixed key modulo their number |
| `RuntimeArtifacts.RegionsTile` | src/runtime_blueprint.c:366-386 | Node regions follow each other without gap or overlap and end the file |
| `RuntimeArtifacts.OffsetIs` | src/runtime_blueprint.c:366-386 | A record lies eight bytes for each one before it and one or two for each of their actions after the start of the data |
| `RuntimeArtifacts.SortAscends` | src/runtime_blueprint.c:347-353 | A shard's entries end up in strictly ascending key order |
| `RuntimeArtifacts.SortShards` | src/runtime_blueprint.c:300-353 | Every shard's nodes form one sorted run |
| `RuntimeArtifacts.LayOut` | src/runtime_blueprint.c:355-390 | Every index entry points at the record written for its node |
| `RuntimeArtifacts.Save` | src/runtime_blueprint.c:254-539 | The artifact holds exactly the given nodes: order, index, shard table, records and quanta |
| `RuntimeArtifacts.LowerBound` | src/runtime_blueprint.c:752-770 | Binary search for the first key not below the wanted one |
| `RuntimeArtifacts.ReadRecord` | src/runtime_blueprint.c:772-790 | Reads the record at an offset; the size checks never reject one that was written |
| `RuntimeArtifacts.Find` | src/runtime_blueprint.c:747-820 | An uncached lookup by key, street and action count succeeds exactly when the store has such a node, and returns its decoded policy |
| `RuntimeArtifacts.Reader.constructor` | src/runtime_blueprint.c:574-710 | An opened artifact with an empty cache |
| `RuntimeArtifacts.Reader.Lookup` | src/runtime_blueprint.c:712-820 | At any point of any sequence of lookups, cache on or off, the answer is the uncached one |
| `RuntimeArtifacts.AnswerIsClose` | src/runtime_blueprint.c:202-252 | The policy looked up is the stored average policy to within one unit of the scale |
| `OnceInit.StepKeeps` | src/cfr_isomorphism.c:50-90 | Every atomic step keeps: one builder at most, and a settled word tells the outcome |
| `OnceInit.InitialisedOnce` | src/cfr_isomorphism.c:50-90 | Over every interleaving the constructor runs at most once, no call returns before it has completed, and all returning calls agree |
| `OnceInit.SpinnersHaveABuilder` | src/cfr_isomorphism.c:78-89 | A spinning call always has another call at work on the result |
| `Discounts.LinearScale` | src/cfr_trainer.c:729-756 | With scale 1 the running scale after n events is exactly 1/(n+1) if and only if n is below 10^12, where the scale starts over |
| `Discounts.WholeScale` | src/cfr_trainer.c:729-756 | With a whole discount scale c the running scale after n events is one over the number of orders of n events and c others, if and only if that number is at most 10^12 |
| `Discounts.Schedule.constructor` | src/commands.c:643-657 | A schedule with no event yet |
| `Discounts.Schedule.ApplyEvents` | src/commands.c:675-707 | However elapsed time up to T is cut into contiguous chunks, the events so far number min(T, stop)/every, the overflow reset included |
| `LazySums.StepAgrees` | src/core.c:2190-2246 | A discount, an access, a write, a new node, a reset or an attachment changes the sums a lazy reader sees as discounting all of them at once would |
| `LazySums.LazyIsEager` | src/core.c:2190-2263 | Over every run on an overlay that keeps the scale at or above its limit and writes a sum only after looking its key up, sums read lazily are the sums of eager discounting |
| `LazySums.ReadsAreEager` | src/core.c:2190-2263 | So is what the store in its arenas reads, key by key |
| `LazySums.RescaleBreaks` | src/cfr_trainer.c:752-756 | When the scale falls below 1e-12 a sum reads right afterwards if and only if it is zero: the scale starts over but the stamps do not |
| `LazySums.RescaleReached` | src/cfr_trainer.c:729-756 | It happens: an empty store, one sum of 1, one event with a discount scale of 2e12 |
| `LazyRegrets.RegretsStayNear` | src/core.c:2224-2240 | Over every such run of n operations a regret reads within (n+1)/2 of what exact discounting at every event gives |
| `LazyRegrets.LookingChangesRegrets` | src/core.c:2224-2240 | Regrets are rounded at each sync, so how they end depends on when they were read: 1 halved twice reads 0, or 1 if read in between |
| `SubgameLists.RanksSpread` | src/search_engine.c:592-609 | The five picks are different and run from the first raise to the last |
| `SubgameLists.LimitedKeeps` | src/search_engine.c:548-632 | The limited list keeps every non-raise and min(m, 5) raises in order, the smallest and the largest included |
| `SubgameLists.LimitedEvenly` | src/search_engine.c:595-609 | Of more than five raises the five kept are those nearest to the quarters of the list, halves rounded up |
| `SubgameLists.KindsSplit` | src/search_engine.c:486-493 | Actions 2 to 5 are raises, all others are kept |
| `SubgameLists.Limit` | src/search_engine.c:548-632 | The in-place limiter leaves exactly that list |
| `SubgameLists.InjectedAreOffered` | src/search_engine.c:677-716 | Every observed target in range is on the list unless it is full |
| `SubgameLists.OnlyInjectedAdded` | src/search_engine.c:677-716 | Nothing else is added, the all-in as an all-in and other targets as raises, and no raise is listed twice |
| `SubgameLists.SortRaises` | src/search_engine.c:718-742 | The exchange sort orders the raises and leaves other entries in place |
| `SubgameLists.Inject` | src/search_engine.c:634-745 | The injector adds the observed sizes in range and leaves the raises in order; otherwise it changes nothing |
| `SubgameLists.AscendStrictly` | src/search_engine.c:718-742 | Ordered raises with different targets are strictly increasing |

## Left out

- File reading and writing, memory mapping, command lines, printing, the clock and operating-system handles: files are sequences of records, events are flags.
- The hand evaluator, the hand indexer and the abstraction buckets: a score function is a parameter, the infoset key is given.
- The quality of hashing and random numbers: only their range is used.
- Float rounding of policies, quantisation and discounts, and the 1e-12 tolerance of the sync test, which counts as equality.
- Capacities: the node table and the arenas are sequences, so doubling them, failed allocations and rounding the index capacity up to a power of two are not modelled; an index that a lookup rehashes before it finds its key is rehashed only for a new key here.
- Bit packing: a touched word is its 32 flags, and the base link and new mark packed into a node's flag word are two fields.
- Hands built from known hole cards or for a search root: they do not keep the pot equal to the contributions, so hand theorems start from the deal.
- The dense preflop block store, snapshots, self-play, tree traversal, pruning, rollouts and belief updates.
- The search engine's own overlay merge, which repeats the training merge on another pool.
- Overlays.OverlayRoundTrip: requires that under a key the base already has no worker has more actions than the base, because the merge writes the worker's actions without growing the node.
- Merges.ShardedMergeIsSequential: requires that every destination node has room for the worker's actions, for the same reason.
- LazySums.LazyIsEager: strategy sums only; regrets are rounded at each sync, and LazyRegrets states how far that takes them.
- LazyRegrets.RegretsStayNear: regrets are unbounded integers here; the cast of a scaled regret back to 32 bits is not modelled, and a regret only shrinks while the scale does.
- Stores.DiscountedFlat: when the scale starts over, the option that clamps every regret to a floor is not modelled.
- Overlays.SoleWorkerWins: requires the base's regret, its discounted value and the worker's value to fit 32 bits, which is the range of the arrays; SharedInRange derives the second from the first for a scale that went down.
- LegalActions.MenuRaises: raise fractions and the raise sizes computed from them are exact decimals rather than doubles.
- History.DecodeSegment: does not model the replay that the loop drives, so not its early exits (hand over, street left, buffer of decisions full, unusable raise) nor its choice of a raise target from a bucket.
- Saves.SaveThenLoad: on the value of a store; the loader's own rebuilding of the index is the rehash proved of the index.
- Training.AddEntry: the worker's store, which the merge only reads, is a value and not an object.
- SubgameLists.Limit: the parallel action and target arrays are one array of pairs.
- RuntimeArtifacts.Save: the library sort of a shard is an insertion sort on values; keys of a shard differ, so any sort gives the same order. Records are read by byte offset, their fields are not laid out in bytes.
- RuntimeArtifacts.ShardPlace: the remainder by the number of buckets stands for the source's mask, which is the same because that number is a power of two.
- WorkerProtocol.NeverStuck: no fairness: that a worker which can move does move is up to the scheduler.
