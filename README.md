# Storage yard, strategies and log checker

A model of a container storage yard and the two strategies that drive it.

- **The yard** (`Store`) holds `width` columns. Each column is a stack of containers, bottom to top. It also keeps an index from identifier to location (height, leftmost column), the list of containers in insertion order, and a cash counter.
  - A container of size `s` added at column `p` is pushed onto columns `p .. p+s-1`. The surface there must be flat.
  - Removing a container deletes it at its recorded height from every column it spans.
- **The two strategies** each keep a clock that advances by one per logged action:
  - the greedy *expert* strategy;
  - the round-robin *simple* strategy.
  Both put size-`k` containers only on the two piles that start at `k*(k-1)` and `k*k`.
- **The log checker** replays a log of timestamped ADD / REMOVE / MOVE / CASH events on a fresh store, against the container definitions.

## Modules

- `containers.dfy` (`Containers`):
  - the container record and its time windows;
  - the tests `Expired`, `DeliverableAt` and `Sellable`.
- `yard.dfy` (`Yards`): the store's state as a value, `Yard`, and the effect of each store operation as a function of it:
  - `CheckAdd`, `Added`, `CanRemove`, `RemoveSafe`, `Removed`, `Credited`, `Moved`;
  - `EmptyAt`, `TopContainer`, `LocationOf`, `Height`, `ValidPosition`;
  - `Removables`.
- `store.dfy` (`Stores`): the `Store` class.
  - Its fields are the source's fields, updated in place.
  - Each method is proved to leave `Model()` equal to the matching `Yards` function of the old state.
- `replay.dfy` (`Replay`): the replay of `check_and_show`.
  - `Step` and `Run` state it as a fold of the yard functions.
  - `CheckLog` is the source's loop over a `Store` object. It is proved to return the verdict of `Run`.
- `bands.dfy` (`Bands`): the pile layout and the invariant `Banded`.
  - `Banded` says that the columns of a pile hold one and the same stack of containers of the pile's size, and that the index and the list agree with the columns.
  - The lemmas show that add, remove and move keep `Banded`. Under `Banded`, every `can_add` on a pile succeeds and every pile top can be removed. The source calls `can_add` before each addition (simple.py:150, simple.py:215, expert.py:485), but nothing in it establishes this layout as an invariant; its comments take it for granted.
- `actions.dfy` (`Actions`): the state both strategies keep.
  - The stored containers are the definitions the replay will look up, and the action log replays to exactly the current store.
  - One lemma per logged action shows that the action keeps this state.
- `expert.dfy` (`Expert`): the expert strategy.
  - The read-only queries are functions of the yard and the clock. Those the source writes as accumulator loops are methods proved equal to those functions.
  - The mutators are methods of a `Strategy` class with fields for the store, the clock and a ghost log. Each keeps `Inv()`: the shared state above, plus a clock equal to the log's length, with every event stamped with its position.
- `simple.dfy` (`Simple`): the simple strategy over the same state. Its clock may also tick without logging, on an empty store.

Where the documentation describes intent and the code does otherwise, the model follows the code:
- `sort_by_cost` discards the result of `sorted`, so the valid containers keep their input order. They are not sorted by value.
- The pile scans read `storage[p][d-1-i]`, that is the bottom `d` entries of a taller pile.
- The remaining time of `money_from_pile` is `depth - height`, not clipped at 0.
- `treat_removables` walks the list in that partition order.

## Model

| member | source | states |
|---|---|---|
| Containers.Sellable | expert.py:53-78 | `valid_container` and `expired_container` are never both true, and `valid_container` at the clock is `valid_container_h` at the clock |
| Yards.Initial | store.py:52-68 | a new store has `width` empty columns, an empty index and list, and cash 0 |
| Yards.CheckAdd | store.py:247-262 | `can_add` is true exactly when `p` is a column of the store, `p+size` is at most the width, and every column in `[p, p+size)` has the height of column `p`; it is false exactly when `p` is a column and some column from `p` on, inside both the store and the footprint, differs in height from `p`; an assertion failure is reported only when `p`, or a column reached before any mismatch, lies outside the store |
| Yards.Added | store.py:131-148 | `add` records location (old height of `p`, `p`), appends `c` to the list, grows exactly columns `p..p+size-1` by one, keeps every other index entry, and, when `c` has size at least 1, leaves it removable |
| Yards.Delete | store.py:165-166 | deleting an entry from a column shortens it by one |
| Yards.FirstIndex | store.py:163 | the first index holding `x`, with no earlier occurrence |
| Yards.RemoveFirst | store.py:163 | `list.remove` takes exactly one occurrence of a present `x` out of the multiset, and leaves a list without `x` unchanged |
| Yards.RemoveFirstAt | store.py:163 | `list.remove` deletes exactly the entry at the first index of `x` |
| Yards.Removed | store.py:150-166 | `remove` drops exactly `c`'s index entry, keeps all other locations, takes `c` once out of the list, shortens exactly the spanned columns by one, and keeps cash |
| Yards.Credited | store.py:122-129 | `add_cash` raises cash by exactly `amount` and changes nothing else |
| Yards.CreditCommutesWithRemove | expert.py:115-128 | crediting and then removing, as `sell_container` does, gives the store that removing and then crediting gives, as the replay does |
| Yards.Moved | store.py:169-195 | `move` changes the store only when `can_remove` and `can_add` hold in the state before the removal, keeps the width and the cash, and a container without an index entry always fails; `MovedCases` states each outcome |
| Yards.MovedCases | store.py:169-195 | when `can_move` answers false (not on top, or target not flat) `move` leaves the store exactly as it is; a failure means an unknown container or a raise (target off the store, or the lifted container no longer fits); a move that goes through is `remove` then `add` at `p` |
| Yards.FilterRemovableMembers | store.py:204-213 | the removable list holds exactly the listed containers that `can_remove` accepts, none more often than listed |
| Yards.FilterRemovableStep | store.py:210-212 | one round of the `removable_containers` loop: the entry is kept exactly when `can_remove` accepts it |
| Yards.AddThenRemove | store.py:131-166 | round trip: adding a container the store does not hold, then removing it, restores columns, index, list and cash exactly |
| Stores.Store.constructor | store.py:52-68 | the fields after `__init__` are the fresh yard |
| Stores.Store.AddCash | store.py:122-129 | the new fields are `Credited` of the old ones |
| Stores.Store.CanAdd | store.py:247-262 | the loop over the columns returns `CheckAdd` |
| Stores.Store.Add | store.py:131-148 | the loop pushing `c` onto each spanned column leaves the fields equal to `Added` of the old ones |
| Stores.Store.Remove | store.py:150-166 | the loop deleting the entry from each spanned column leaves the fields equal to `Removed` of the old ones |
| Stores.Store.Move | store.py:181-195 | the result is false exactly where the source raises; otherwise the fields are `Moved` of the old ones; when `can_move` answers false the result is true and no field of the store changes |
| Stores.Store.RemovableContainers | store.py:204-213 | returns exactly the listed containers that `can_remove` accepts, in insertion order |
| Replay.ContainerMap | store.py:356 | every identifier of the file has a definition, filed under its own identifier |
| Replay.ContainerMapLastWins | store.py:356 | the definition kept for an identifier is its last one in the file |
| Replay.ContainerMapFromFile | store.py:356 | every kept definition comes from the file |
| Replay.Step | store.py:380-400 | CASH passes only on the running cash; ADD needs a definition and a flat target; REMOVE credits the value exactly when `delivery.start <= t < delivery.end` and changes cash in no other case |
| Replay.Run | store.py:373-400 | an accepted replay ends in a valid store of the logged width; a rejection names an event of the log |
| Replay.RunSplit | store.py:373-400 | replaying a log is replaying a prefix and then, from where it ended, the rest |
| Replay.ReplayAppend | store.py:373-400 | one more event extends an accepted log exactly when its time is not before the last one and its step succeeds |
| Replay.ReplayAccepts | store.py:373-400 | an event on time whose step succeeds extends an accepted log to one accepted at the step's store |
| Replay.AcceptedIsOrdered | store.py:377-378 | in an accepted replay every timestamp is at least the one before it, the first at least the starting time |
| Replay.RejectedAtFirstBadEvent | store.py:373-400 | a rejected log is rejected at its first bad event: the events before it are accepted, and that event alone makes the replay fail |
| Replay.CashLinesMatch | store.py:380-382 | in an accepted log every CASH event gives the cash produced by the events before it |
| Replay.ApplyEvent | store.py:380-400 | one event applied to the `Store` object fails exactly where `Step` fails, and otherwise leaves the store at `Step`'s result |
| Replay.CheckLog | store.py:360-400 | the source's loop over a fresh `Store` returns the verdict of the replay `Run` |
| Bands.StackPositionsArePiles | expert.py:80-99 | the two piles of size `k` are distinct piles of that size, and no other pile has that size |
| Bands.PilesPackContiguously | expert.py:91-99 | `stack_position(1,k)+k == stack_position(2,k)` and `stack_position(2,k)+k == stack_position(1,k+1)` |
| Bands.PilesDisjoint | expert.py:91-99 | the eight piles of sizes 1..4 occupy disjoint ranges of columns inside `[0, 20)` |
| Bands.StartsAreStackPositions | simple.py:70-89 | every pile start is `stack_position(1|2, k)` for its size `k` in 1..4 |
| Bands.Twin | expert.py:223-233 | the other pile of a pile start's size: a different pile start of the same size, one of its two stack positions |
| Bands.InitialBanded | store.py:52-68 | a fresh store of width at least 20 has the band layout |
| Bands.BandedFlat | simple.py:223-226 | under the band layout `can_add` succeeds on either pile of a container's size |
| Bands.TopOfPile | simple.py:173-175 | the top of a non-empty pile is a listed container of the pile's size, recorded there, and can be removed |
| Bands.BandedRemoveSafe | store.py:150-166 | under the band layout a container that `can_remove` accepts is on top of every column it spans, so `remove` runs to completion |
| Bands.BandedAdd | store.py:131-148 | adding a new container to a pile of its size keeps the band layout |
| Bands.BandedRemove | store.py:150-166 | removing a removable container keeps the band layout |
| Bands.RemovedAtHome | store.py:150-166 | after a removal every listed container is still found at its recorded location |
| Bands.BandedMove | store.py:181-195 | moving a pile top to a pile of its size goes through: it lifts the container, adds it at the target and keeps the band layout |
| Bands.ShiftHeights | expert.py:439-443 | moving the top of one pile onto the other pile of its size shortens the first by one, grows the second by one and leaves every other pile as it is |
| Bands.DropHeights | expert.py:101-128 | taking the top of a pile away shortens that pile by one and leaves every other pile as it is |
| Bands.RemoveKeepsOthersRemovable | expert.py:456-464 | removing one removable container leaves every other removable container listed, indexed and removable |
| Bands.BandedIndexed | store.py:204-213 | under the band layout every listed container has a location, so `can_remove` can be asked of it |
| Bands.NonEmptyStoreHasPile | expert.py:487 | a store holding containers has a non-empty pile |
| Bands.StackedAreListed | simple.py:132-137 | every stacked container is listed, so an empty list means empty columns |
| Bands.StoredOnStackPositions | simple.py:218-222 | a store holding containers has a non-empty pile among the eight the sweep visits |
| Bands.BandedIgnoresCash | store.py:122-129 | crediting cash keeps the band layout |
| Actions.InitialConsistent | expert.py:39-51 | a fresh store and an empty log are consistent |
| Actions.AddLogged | expert.py:196-211 | logging `ADD c p` after adding a new container to one of its piles keeps the store consistent with the log |
| Actions.RemovedKeepsKnown | store.py:150-166 | a removal keeps only containers whose definition the replay will find |
| Actions.RemoveLogged | expert.py:101-128 | logging `REMOVE c` after removing a pile top keeps the store consistent with the log; the replay credits the value exactly when `c` is sellable at that time |
| Actions.MovedKeepsKnown | store.py:181-195 | a move keeps only containers whose definition the replay will find |
| Actions.MoveLogged | expert.py:130-140 | logging `MOVE c p` after moving a pile top to a pile of its size keeps the store consistent with the log |
| Actions.MoveStep | store.py:395-397 | the replay of `MOVE c p` moves `c` exactly as the strategy did |
| Actions.Evaluated | expert.py:149-166 | `evaluate_container` on the top of a pile, aimed at the other pile of its size, keeps the band layout and the width; that pile loses exactly one container, the target gains at most one, and no other pile changes |
| Actions.IntakeBetween | expert.py:482-486 | removals, then one ADD of `c` on one of its piles, then more non-ADD events, contain at most one ADD; that ADD is exactly the inserted event, found right after the removals |
| Expert.OrderAt | expert.py:361-363 | round `i` of `best_pile` visits columns `i*i` and `i*(i-1)`; all eight visited columns are pile starts |
| Expert.Scan | expert.py:248-253 | a pile scan reads `min(depth, height)` entries, `storage[p][d-1-i]` at step `i`, that is the bottom `d` entries |
| Expert.Ripe | expert.py:251-256 | the count of ripe entries is at most the scan length |
| Expert.MoneyBounds | expert.py:273-278 | with non-negative values the pile money is between 0 and the total value scanned |
| Expert.PileScore | expert.py:292-307 | the score is `3*money + count`, the source's `(3*money+count)/4` scaled by 4; the remaining time is `depth - height`; an empty pile scores 0; non-negative values give a non-negative score |
| Expert.ScaledScoreIsExact | expert.py:481-483 | comparing scaled scores is exact: `/4 <= 0.3` is `<= 1`, order is kept, the initial `-1` is `-4` |
| Expert.BetterPile | expert.py:344-349 | the pile at `pos` replaces the best exactly when it scores strictly higher or the best's column is empty; otherwise the best stays |
| Expert.BetterPileLeads | expert.py:344-349 | with non-negative values one `better_pile` step keeps the highest score seen so far |
| Expert.BestOf | expert.py:360-364 | the fold of `better_pile` over the first `n` visited columns 1, 0, 4, 2, 9, 6, 16, 12 is the start value or one of those columns with its own score |
| Expert.RoundColumns | expert.py:361-363 | the two columns of round `i` of `best_pile` are `i*(i-1) < i*i`, both below 20 |
| Expert.BestOfRound | expert.py:361-363 | round `i` of the loop extends the fold by `better_pile(i*i)` and then `better_pile(i*(i-1))` |
| Expert.BestOfLeads | expert.py:344-364 | with non-negative values the fold over the first `n` columns scores at least as high as each of them |
| Expert.BestOfOrder | expert.py:351-364 | the full fold is the start value or a visited pile with its own score; with non-negative values it is a visited pile scoring highest of the eight; a score above the threshold comes from a non-empty pile, with remaining time below the depth |
| Expert.BestOfDig | expert.py:490-495 | a full fold scoring above the threshold names a non-empty pile start inside the store, with remaining time below the depth, so `dig_pile` may run on it |
| Expert.LeastFullPile | expert.py:366-376 | `least_full_pile` is one of the two piles of the size, the lower one, and it is pile 2 exactly when pile 1 is strictly taller |
| Expert.AdjacentStack | expert.py:223-233 | `adjacent_stack` is a pile of `c`'s size, and not the one `c` is on |
| Expert.PartitionMembers | expert.py:414-420 | the first group holds exactly the valid entries, the second exactly the others |
| Expert.PartitionIsPermutation | expert.py:414-422 | `sell + remove` is a permutation of the input |
| Expert.PartitionSplitsTotal | expert.py:414-422 | the two groups split the total value of the input |
| Expert.Positions | expert.py:414-420 | each group is a subsequence of the input at strictly increasing positions, so it keeps the input order |
| Expert.WalkStart | expert.py:456 | the sorted removables are stored, removable and distinct before the walk |
| Expert.TakenIn | expert.py:485-486 | the store after the intake step: `c` appended to the list and indexed when its delivery window is still open, otherwise the store as it was; it stays valid and indexed |
| Expert.WalkOrder | expert.py:456 | the list `treat_removables` walks, `sort_by_cost` of the removable containers, is a permutation of them |
| Expert.PricierFrom | expert.py:459 | the stopping index of the `before_add` test lies between the start and the end of the list |
| Expert.PricierFromStops | expert.py:459 | the entry at the stopping index, if any, is worth at most `c` |
| Expert.PricierFromIsPricier | expert.py:459 | every entry before the stopping index is worth more than `c` |
| Expert.PricierFromBound | expert.py:459 | the stopping index is the first entry not worth more than `c`, or the end |
| Expert.Treated | expert.py:460-463 | a walked entry is lost when expired, sold when valid, and left otherwise |
| Expert.WalkStep | expert.py:459-464 | one round of the walk keeps the walk invariant: later entries stay removable, and only walked entries have left |
| Expert.WalkEnd | expert.py:448-472 | after the walk only removables left the store, each worth more than `c` in the `before_add` walk; every walked entry whose delivery window had opened at the start has left; a walk that reached the end removed every removable whose delivery window had opened |
| Expert.StampedIsPositions | expert.py:168-174 | a stamped log has entry `i` logged at clock `i` |
| Expert.ClockedAppend | expert.py:168-174 | logging at the clock, which then advances, keeps the log stamped |
| Expert.Dug | expert.py:322-325 | the rounds of `dig_pile` as a fold over the store, each evaluating the top of `p` with the other pile of its size as target; it keeps the band layout and the width |
| Expert.DugHeights | expert.py:322-325 | the dig takes exactly `min(depth, height)` containers off `p`, none for a depth of 0 or less, and every pile of another size keeps its height |
| Expert.Shifted | expert.py:440-442 | one round of `equilibrate_piles` on a non-empty `big`: its top moves onto `small`; the band layout and the width are kept |
| Expert.ShiftedMoves | expert.py:440-442 | that round is exactly what `move` makes of the top of `big` with `small` as target, and the move goes through |
| Expert.ShiftRound | expert.py:440-443 | a round of the loop: `Shifted` when `big` has a top, the store unchanged otherwise; the band layout is kept |
| Expert.Balanced | expert.py:439-443 | the loop of `equilibrate_piles` as a fold over the store and the remaining time: it stops with no time left or `big` shorter than `small`; a round on two empty piles only spends time; it keeps the band layout and the width |
| Expert.Equilibrated | expert.py:439-446 | `equilibrate_piles` as a whole: the fold `Balanced`, then the remaining time forced to 0 on an empty store; an empty store always gives 0 |
| Expert.BalancedStep | expert.py:439-443 | a round taken with time left and `big` at least as tall as `small` leads to a store from which the fold, with one unit less, ends in the same place |
| Expert.BalancedDone | expert.py:439 | where the loop guard fails, the fold ends at once, with the store and time as they are |
| Expert.LevelingStep | expert.py:439-443 | a round keeps the height invariant of the loop: the two piles keep their total, a non-empty `big` gives one container to `small`, and while `big` started non-empty and not shorter every round has moved one container |
| Expert.LevelingDone | expert.py:439-443 | where the loop stops, the time left is in `[0, rem]` and below `rem` when a round ran, a difference in `big`'s favour ends at most 2 in `small`'s favour, and the containers moved number `min(rem, (hb - hs) / 2 + 1)` for heights `hb >= hs` with `hb > 0`, none otherwise |
| Expert.Strategy.constructor | expert.py:39-51 | an empty store of the given width, clock 0, empty log |
| Expert.Strategy.AddContainer | expert.py:196-211 | adds `c` at `p`, logs `ADD` at the clock, and advances the clock by exactly one |
| Expert.Strategy.LoseContainer | expert.py:101-113 | removes `c` with no cash, logs `REMOVE` at the clock, and advances the clock by exactly one |
| Expert.Strategy.SellContainer | expert.py:115-128 | removes `c` and credits exactly its value, logs `REMOVE` at the clock, and advances the clock by exactly one |
| Expert.Strategy.MoveContainer | expert.py:130-140 | moves `c` to `p`, logs `MOVE` at the clock, and advances the clock by exactly one |
| Expert.Strategy.EvaluateContainer | expert.py:149-166 | does nothing unless `can_add(c,p2)` and `can_remove(c)`; then exactly one of lose (expired), sell (valid) or move; an expired container is never sold |
| Expert.Strategy.ContainersFromPile | expert.py:235-256 | the count of valid or expired scanned entries, at most `min(depth, height)` |
| Expert.Strategy.MoneyFromPile | expert.py:258-278 | the money of the scan at clock `t + i` for entry `i`, and the unclipped `depth - height`, negative exactly when the pile is taller than `depth` |
| Expert.Strategy.ScorePile | expert.py:292-307 | `pile_score` is `PileScore` |
| Expert.Strategy.BetterPileAt | expert.py:327-349 | `better_pile` is `BetterPile` |
| Expert.Strategy.BestPile | expert.py:351-364 | the loop returns exactly the fold `BestOf` of `better_pile` over the eight visited columns, whose properties `BestOfOrder` states |
| Expert.Strategy.VisitRound | expert.py:361-363 | one round of the loop, `better_pile` at `i*i` and then at `i*(i-1)`, takes the fold `BestOf` from the first `2i-2` visited columns to the first `2i` (the two columns are those of `BestOfRound`) |
| Expert.Strategy.LeastEquilibratedPile | expert.py:378-397 | the two piles of the first size with the largest height difference, the taller first; pile 2 is first exactly when it is strictly taller |
| Expert.Strategy.MoneyFromRemovables | expert.py:280-290 | the total value of the removables valid now |
| Expert.Strategy.SumValid | expert.py:286-290 | the loop sums the values of the valid entries |
| Expert.Strategy.SortByCost | expert.py:407-422 | the valid entries then the others, each in input order, a permutation of the input |
| Expert.Strategy.TreatRemovables | expert.py:448-472 | only listed removables leave; with `before_add` only those worth more than `c`, and with time left every entry of the walk order `WalkOrder` before the first one not worth more than `c` whose delivery window had opened leaves; without `before_add` and with time left every removable whose window had opened leaves; a container that, at the final clock, has neither expired nor had its delivery window opened stays; no ADD is logged; the clock stays within `c`'s delivery window |
| Expert.Strategy.TreatPricier | expert.py:457-464 | the `before_add` walk stops at the first entry not worth more than `c`, or when the delivery window of `c` closes |
| Expert.Strategy.TreatAll | expert.py:465-472 | the other walk covers the whole list unless the delivery window of `c` closes |
| Expert.Strategy.TreatEntry | expert.py:460-463 | lose if expired, sell if valid, otherwise nothing; one time unit per action |
| Expert.Strategy.TreatNext | expert.py:459-464 | one round of a walk keeps the walk invariant and takes at most one time unit; whatever has left was expired or had its window opened |
| Expert.TreatedLeftOpened | expert.py:459-464 | treating one entry keeps "every container that left was expired or had its delivery window opened", on a clock that only advances |
| Expert.Strategy.DigPile | expert.py:310-325 | the new store is the fold `Dug` of the old one, whose heights `DugHeights` states; exactly `min(depth, height)` rounds, each logging one action and taking one container off the pile |
| Expert.Strategy.DigTop | expert.py:322-325 | one round of `dig_pile` takes the top `c` off the pile in one time unit; `adjacent_stack(c)` is the other pile of the size and the new store is `Evaluated` of the old one: `c` is lost when expired, sold (credited by its value) when valid, or else moved onto `adjacent_stack(c)`, where `can_add` holds after the lift |
| Expert.Strategy.ShiftTop | expert.py:440-442 | the new store is `ShiftRound` of the old one: the top of `big`, if any, is moved onto `small` exactly as `move` does, one time unit is spent, `big` loses one container and `small` gains one; with `big` empty nothing changes; no other pile changes |
| Expert.Strategy.EquilibratePiles | expert.py:424-446 | the new store and the result are `Equilibrated` of the old store and `rem`; the result is in `[0, rem]`, below `rem` when there is time and `big` is at least as tall as `small`, and 0 once the store is empty; the time taken equals the containers moved off `big`, which number `min(rem, (hb - hs) / 2 + 1)` for heights `hb >= hs` with `hb > 0` and none otherwise; the two piles keep their total height, the difference ends at most 2, and no other pile changes |
| Expert.Strategy.EquilibrateRounds | expert.py:439-443 | the while loop ends where the fold `Balanced` ends, with the piles where `Leveling` says it can stop, one time unit per container moved, and no other pile changed |
| Expert.Strategy.BalanceRound | expert.py:440-443 | one round of that loop, `ShiftTop`, keeps the loop invariant with one unit less |
| Expert.Strategy.SpendArrival | expert.py:488-496 | the closing loop of `exec` logs no ADD and ends the clock by the end of the arrival window; it returns a remaining time that is at most 0, or leaves the store empty; a positive remaining time fits before the end of the arrival window |
| Expert.Strategy.TakeIn | expert.py:482-486 | returns the log, store and clock after the `before_add` walk: that log is a prefix of the new one, replays to that store, and has the clock as its length; then `c` is added at `least_full_pile(c)` of that store exactly when the delivery window of `c` is still open, and the new store is that addition, or else the walk's store; only removables worth more than `c` left in the walk |
| Expert.Strategy.Exec | expert.py:474-496 | the new log holds an ADD exactly when the clock after the first walk is before the end of `c`'s delivery window, and that ADD is `c` at `least_full_pile(c)` of the store after the first walk, at that clock; the returned logs after the first and after the second walk are prefixes of the new log, in that order, replay to the returned stores and have the returned clocks as their lengths; the first walk removed only removables worth more than `c`, and, when `c` was taken in, every pricier entry of the walk order whose window had opened; the second walk, from the store `TakenIn` after the intake, removed only removables of that store, and with time left every one of them whose delivery window had opened; no ADD follows the second walk; the clock does not pass the later end of `c`'s two windows |
| Simple.Strategy.constructor | simple.py:31-43 | an empty store of the given width, clock 0, empty log |
| Simple.Strategy.AddContainer | simple.py:193-203 | adds `c` at `p`, logs `ADD` at the clock, and advances the clock by exactly one |
| Simple.Strategy.LoseContainer | simple.py:91-103 | removes `c` with no cash, logs `REMOVE` at the clock, and advances the clock by exactly one |
| Simple.Strategy.SoldContainer | simple.py:105-118 | removes `c` and credits exactly its value, logs `REMOVE` at the clock, and advances the clock by exactly one |
| Simple.Strategy.MoveContainer | simple.py:120-130 | moves `c` to `p`, logs `MOVE` at the clock, and advances the clock by exactly one |
| Simple.Strategy.EvaluateContainer | simple.py:139-156 | does nothing unless `can_add(c,p2)` and `can_remove(c)`; then exactly one of lose (expired), sell (valid) or move |
| Simple.Strategy.TransferTop | simple.py:173-175 | one round of `transfer` treats the top of `p1` in one time unit: the new store is `Evaluated` of the old one, that is, the top is lost when expired, sold when valid and moved onto `p2` otherwise; `p1` loses it, `p2` gains at most it, no other pile changes |
| Simple.Strategy.Transfer | simple.py:159-175 | the new store and clock are the fold `Transferred` of the old ones; an empty store takes one time unit and nothing else; otherwise rounds go on until `p1` is empty or the clock reaches the limit, one container off `p1` per unit |
| Simple.Strategy.SweepSize | simple.py:219-222 | the new store and clock are `SweptSize` of the old ones; the two transfers of one size take at most two units beyond the limit |
| Simple.Strategy.Pass | simple.py:218-222 | the new store and clock are `Passed` of the old ones; a pass started before the limit always takes time, and ends at most 7 units past the limit |
| Simple.Strategy.Exec | simple.py:205-222 | the new store and clock are `Executed` of the old ones; the first new log entry is the ADD of `c` at `stack_position(1, size)` exactly when `c` has not expired; at most one ADD, of `c` on its pile; the clock ends at or after the end of the arrival window and at most 7 units past it |
| Simple.Strategy.TakeIn | simple.py:214-216 | `c` goes on pile 1 of its size exactly when it has not expired, and the store and log are then the addition of `c` there; under the band layout `can_add` holds on that pile |
| Simple.Strategy.SweepUntil | simple.py:217-222 | the `while` loop ends in the fold `Passes` from the store and clock it started at |
| Simple.Strategy.SweepSizes | simple.py:218-222 | the `for` loop over sizes 1..4 carries the fold `PassedFrom` from size 1 to the end of the pass |
| Simple.IntakeOrNone | simple.py:214-221 | the log of `exec` holds at most the one ADD of `c`, first exactly when it was taken in |
| Simple.TransferRounds | simple.py:173-175 | the rounds of `transfer` as a fold over the store and the clock, each evaluating the top of `p1` aimed at `p2`; it keeps the band layout and the width |
| Simple.TransferRoundsClock | simple.py:173-175 | the rounds never wind the clock back; when they take no time they change nothing, and before the limit that happens only when `p1` is empty |
| Simple.Transferred | simple.py:171-175 | `transfer` as a fold: one tick on an empty store, then the rounds; it keeps the band layout and the width |
| Simple.TransferredClock | simple.py:171-175 | `transfer` never winds the clock back; when it takes no time it changes nothing and found a non-empty store, and before the limit `p1` was empty |
| Simple.SweptSize | simple.py:219-222 | the two transfers of one size, pile 1 onto pile 2 and back, as a fold; it keeps the band layout and the width |
| Simple.SweptSizeClock | simple.py:219-222 | the two transfers never wind the clock back; taking no time they change nothing and found a non-empty store, and before the limit both piles of the size were empty |
| Simple.PassedFrom | simple.py:218-222 | the sizes `k` to 4 of a pass as a fold; it keeps the band layout and the width |
| Simple.PassedFromClock | simple.py:218-222 | sizes `k` to 4 never wind the clock back; taking no time they change nothing, and before the limit they found a non-empty store with both piles of every size from `k` on empty |
| Simple.Passed | simple.py:218-222 | one pass of the `for` loop as a fold; it keeps the band layout and the width |
| Simple.PassedClock | simple.py:217-222 | a pass started before the limit always takes time, which is why the `while` loop of `exec` ends |
| Simple.Passes | simple.py:217-222 | the `while` loop of `exec` as a fold of passes; it keeps the band layout and ends at or after `end` |
| Simple.Executed | simple.py:214-222 | `exec` as a fold: the intake of `c` on pile 1 of its size unless it has expired, then the passes; it keeps the band layout and ends at or after the end of the arrival window |

## Left out

- Curses rendering (`Store.write`, `init_curses`, `main`) is user interface only.
- The log file is modelled by a ghost sequence of events, not written. Reading the container file and tokenising the log file are not modelled: the replay starts at the events, with a definition map built by `ContainerMap`.
- The START line of the log and its checks are not modelled; the replay takes the logged width as a parameter.
- `pile_score` uses true division, and `exec` compares it with the threshold 0.3. The model uses the integer score `3*money + count`, and `Expert.ScaledScoreIsExact` shows that the comparisons agree.
- `isinstance` checks and their `TypeError`s are left out, because Dafny's types make them moot.
- `Store.empty_store`, `Strategy.cash` (which returns a bound method in the expert file) and `Logger.cash` are left out: they are unused or broken.
- When a source operation raises part way through, the partial updates are not modelled. The store methods promise their results only where the source completes.
- Expert.Strategy.constructor and Simple.Strategy.constructor require `width >= 20`, so that the eight piles exist.
- Expert.Strategy.Exec and Simple.Strategy.Exec require a container of size 1..4 that is new to the store and is its own definition in the replay map. This assumes unique identifiers and sizes 1..4, which the container file is expected to meet and which `execute_strategy` (expert.py:514-515, simple.py:244-245) does not check.
- Expert.Strategy.LoseContainer and Simple.Strategy.LoseContainer require `c` not to be valid, and Expert.Strategy.SellContainer and Simple.Strategy.SoldContainer require it to be valid. Every call the strategies make meets these requirements, and without them the replay's credit would not match the cash.
- Expert.Strategy.AddContainer, MoveContainer and EvaluateContainer, and their Simple counterparts, require the target to be a pile of the container's size. Every call the strategies make meets this, and it keeps the band layout.
- Expert.Strategy.DigPile requires a pile start. `best_pile` only returns one of the eight pile starts.
- Simple.Strategy.Transfer requires the two piles of one size. Those are the only calls `exec` makes.
- Expert.BestOfOrder: the highest-score claim is proved only when no stacked container has a negative value. With negative values the source can replace an empty column's candidate with a lower score, and the model does the same.
- Expert.Strategy.TreatPricier computes the value test of the loop guard through `PricierFrom`: the loop runs while the index is below the first entry not worth more than `c`. It stops at the same entry as the source's guard `c.value < removables[i].value`.
- The loops of `treat_removables`, `transfer`, `dig_pile`, `equilibrate_piles`, `best_pile` and `exec` have their bodies in their own methods, for example `TreatNext`, `TransferTop`, `DigTop`, `ShiftTop`, `VisitRound` and `SweepSize`; the intake step of `exec` is `TakeIn`. The `for` and `while` loops of the simple `exec` are the methods `SweepSizes` and `SweepUntil`, and the loop of `equilibrate_piles` is `EquilibrateRounds` with its round `BalanceRound`. Their invariants are the predicates `Sweeping`, `Digging` (for `dig_pile`) and `Equilibrating` (for `equilibrate_piles`, whose pile heights follow the plain-integer predicate `Leveling`). The loops themselves keep the source's conditions.
- Expert.Strategy.SpendArrival: the contract does not record, round by round, whether the loop dug the best pile or equilibrated the least balanced one; those rounds are stated by `DigPile` and `EquilibratePiles`. It is not tied to a fold of the rounds, so it also admits a run of zero rounds that returns 0.
- Replay.Step, Replay.Action and every column position and container size in the model are `nat`. Python also accepts negative positions, where `storage[-1]` reads the last column, and negative sizes. The replay of such a log line, and any call with a negative position, is not modelled.
- The bookkeeping lemmas Actions.NoIntakeTrans, Actions.NoIntakeExtend, Actions.NoIntakeIsOneIntake and Expert.ClockBound combine the stages of `exec`; they model no source line of their own. So do the one-step lemmas of the folds (Simple.TransferRoundsStep, Simple.PassedFromStep, Simple.PassesStep, Simple.ExecutedAfterIntake, Simple.ClockChained, Expert.DugStep, Expert.HeightsChained), which hand a loop invariant on from one round to the next.
- Simple.Strategy.Exec: the clock can end up to 7 units past the end of the arrival window. The transfers that run after the clock reached the limit still tick on an empty store, as the source does. This is stated as a bound, not corrected.
- The store-level queries `empty`, `top_container`, `location`, `height_column`, `valid_position`, `containers` and `can_move` are plain functions of the yard (`EmptyAt`, `TopContainer`, `LocationOf`, `Height`, `ValidPosition`, `items`, `CanMove`). Their effect shows in the contracts of the operations that use them.
