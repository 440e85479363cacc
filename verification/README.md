# Torna, verified

Torna is an ordered key/value index on Solana: a B+ tree with one account per node, an engine that
re-validates every account a client supplies, off-chain planners that resolve which accounts those
are, and an escrow order book built on two such trees. This project models the engine, the planner
and the order book in Dafny and proves what they are for.

`dafny verify dfyconfig.toml` checks everything.

## How it is built

**Keys.** A 32-byte key stands for its big-endian number; `Bytes` proves that the engine's byte loop
compares exactly those numbers. A node is identified by its index within one tree, and a supplied
account by the index it holds.

**The specification of the engine.** `NodeViews` and `Engine` describe each instruction as a function
from states to new states or errors, branch by branch in the order of the handlers. A handler that
fails after it has written something is rolled back by the runtime, so an error leaves no state.

**The engine as it runs.** `Memory` and `NodeOps` are the in-place operations of `src/node.h` on
arrays of F+1 keys, F+1 values and F+2 children. `Accounts` holds the live nodes, header fields and
the allocator's mark. `HotProgram`, `BatchProgram`, `ScanProgram`, `InsertProgram` and
`DeleteProgram` are the handlers with their loops, `Entrypoint` the dispatch. Each is proved to do
what the specification says, errors included, without ever leaving a node's slots, on every
well-formed state; and those are all the states a run can reach.

**What the engine guarantees.** `Shapes` and `Represent` say when a store of nodes holds a
well-formed B+ tree: equal leaf depth, separators, sorted nodes, occupancy, every live account in the
tree once, a leaf chain threading the leaves. The least occupancy of a leaf (`leafMin`) is 0 in
general, because DeleteFast leaves leaves under-full or empty on purpose, and F/2 for runs without
it. Each instruction has its theorem (`InsertTheorem`, `DeleteTheorem`, `CompactTheorem`,
`HotTheorems`, `BatchTheorems`, `MultiLeafTheorem`, `Scans`, `ScanAdmission`, `Answers`); `Runs`, `Histories`, `Epochs`,
`Heights` and `Parallel` lift them to whole runs.

**The planner.** `Planner`, `InsertPlanned` and `DeletePlanned` prove that what the client resolves
is what the engine accepts and that it always suffices; `Staleness` says how long it stays good, and
how the engine refuses it afterwards. The Rust and the TypeScript planners are the same algorithms;
where they differ (Delete's null returns), the TypeScript form is modelled and its extra exits are
shown never to be taken.

**The order book.** `OrderKeys` is the key encoding. `Tokens` and `Orders` say what moves and what is
owed. `Markets` specifies the instructions, `BookProgram` runs them over mutable balances and books,
with the matcher's fixed arrays and nested loops. `Sweep` and `Settlement` prove the two-phase
matcher equal to a greedy reference, `Solvency` and `MarketRuns` that the vaults always hold what the
orders are owed, and that every order gets back exactly what it escrowed; `Admission` and `Takers`
say exactly when a placement, a cancel and a match are accepted, `Setup` which markets are, and
`Amounts` what fills, keys and values come to. `Priority` proves price-time priority over whole runs,
and `Quotes` relates the client's preview to the match. Anything else that happens to token accounts
is one more instruction, which may do whatever does not need the book's signature.

## Where the code and its documentation differ

- The planner's documentation says that the structure epoch moves only on a structural change
  (`sdk/src/lib.rs:72-74`). Delete moves it on every success (`sbf/src/torna/torna.c:690`), so the
  promise fails of a Delete whose leaf can spare the key: one with more than F/2 entries, or a leaf
  root with more than one. `Epochs.PromiseIff` proves that these are all the cases, for every
  well-formed tree, and `Epochs.EpochMovesAlone` names two such Deletes, on trees of height 1 and 2
  that runs reach. The structure here is header, internal nodes and leaf links, so a borrow counts as
  a change of it: it moves a separator, and with it the search paths of keys. The documentation's
  parenthesis lists splits, merges and root changes only; `Epochs.KeepsNodesIff` gives the condition
  for that reading, in which a borrow is one more case the promise fails of. What clients rely on is
  the converse, and holds: an epoch that did not move means an unchanged structure
  (`Histories.SameEpoch`), and a plan or path resolved before is still good (`Planner.StalePlanHolds`,
  `Staleness.StaleMeansMoved`).
- The client's documentation says that a path gone stale is answered with ERR_BAD_PATH
  (`sdk/src/lib.rs:29`, `sdk/src/lib.rs:369`, `sdk/src/lib.rs:375-378`). If the first account off the
  search path has been closed in a tree of unchanged height, the engine answers ERR_NODE_TOO_SMALL,
  because it looks at the size first (`sbf/src/torna/torna.c:225`). `Staleness.BadPathIff` proves when
  the documented answer is given, and `Staleness.StaleNotBadPath` names a run after which it is not.

## Model

| member | source | states |
|---|---|---|
| Bytes.KeyCmp | src/node.h:112-117 | the byte loop is negative, zero or positive exactly as the big-endian number of the first key is below, equal to or above that of the second |
| Bytes.Cmp | ts-sdk/src/index.ts:116-122 | the client's comparison is dictionary order on byte strings of any length, and agrees with the engine's on keys |
| Bytes.BeforeIsNumeric | src/node.h:112-117 | dictionary order of two strings of one length is the order of their numbers; it is a strict total order because that is |
| Bytes.KeysAreNumbers | src/node.h:112-117 | the 32-byte keys and the numbers below 2^256 are the same ordered set, so the engine's model may use numbers as keys |
| Memory.Memmove | src/node.h:32-37 | overlapping blocks are moved intact whichever way they overlap, and nothing else changes |
| NodeOps.Node.FindLowerBound | src/node.h:120-128 | the first index whose key is not below the searched one |
| NodeOps.LowerBoundUnique | src/node.h:120-128 | there is only one such index, so the binary search computes the specification's |
| NodeOps.Node.LeafInsert | src/node.h:134-153 | a present key changes nothing and is reported; an absent one goes in at its sorted place with its value, within the F+1 slots |
| NodeOps.Node.LeafDelete | src/node.h:156-172 | a present key goes with its value, which is returned; an absent one changes nothing |
| NodeOps.Node.LeafUpdate | src/node.h:177-186 | only the value of a present key changes |
| NodeOps.Node.LeafSplit | src/node.h:191-205 | lower half stays, upper half moves, and the separator is the first key of the upper half |
| NodeOps.Node.InternalInsertAt | src/node.h:210-224 | separator and right child go in side by side at the given place |
| NodeOps.Node.InternalSplit | src/node.h:228-243 | the middle key leaves both halves, and keys and children are divided around it |
| NodeOps.Node.InternalRemoveAt | src/node.h:246-254 | the separator and the child behind it go |
| NodeOps.Node.InternalRemoveFirst | src/node.h:259-266 | the first child and its separator go |
| NodeOps.Node.LeafBorrowFromRight | src/node.h:271-283 | one entry moves over and the parent's separator becomes the neighbour's new first key |
| NodeOps.Node.LeafBorrowFromLeft | src/node.h:286-298 | one entry moves over and becomes the parent's separator |
| NodeOps.Node.LeafMerge | src/node.h:302-312 | the right leaf's entries follow the left one's, and the left leaf takes over the right one's link |
| NodeOps.Node.InternalBorrowFromRight | src/node.h:318-332 | one child moves over through the parent's separator |
| NodeOps.Node.InternalBorrowFromLeft | src/node.h:337-350 | one child moves over through the parent's separator, from the other side |
| NodeOps.Node.InternalMergeRight | src/node.h:354-367 | the parent's separator and everything of the right node follow the left node's own |
| Accounts.Torna.constructor | sbf/src/torna/torna.c:383-400 | a new tree is empty: no root, no height, no ends, epoch and high-water mark 0 |
| Accounts.Torna.CheckAccount | sbf/src/torna/torna.c:223-234 | a supplied account passes exactly when it is the live node expected there |
| Accounts.Torna.TakeSpare | sbf/src/torna/torna.c:299-327 | the next index above the high-water mark becomes a live empty node, if the spare supplied is the account of that index; nothing else changes |
| Accounts.Torna.CloseAccount | sbf/src/torna/torna.c:551-555 | exactly one live account disappears |
| HotProgram.DescendTo | sbf/src/torna/torna.c:800-821 | the level-by-level walk over the accounts computes the specified descent, with the same errors |
| HotProgram.DoInsertFast | sbf/src/torna/torna.c:846-868 | the handler on the accounts does what the specified InsertFast does to the state, or returns the same error |
| HotProgram.DoUpdateFast | sbf/src/torna/torna.c:877-898 | the same for UpdateFast |
| HotProgram.DoDeleteFast | sbf/src/torna/torna.c:904-933 | the same for DeleteFast, including the value it returns |
| HotProgram.DoFind | sbf/src/torna/torna.c:747-787 | Find reads without writing and returns what is specified |
| BatchProgram.CheckRoute | sbf/src/torna/torna.c:827-838 | whether a key is routed to the path's leaf |
| BatchProgram.DoBulkInsertFast | sbf/src/torna/torna.c:1072-1110 | the handler does what the specified BulkInsertFast does, or returns the same error |
| BatchProgram.DoMultiLeafInsertFast | sbf/src/torna/torna.c:1227-1313 | both phases together do what the specified MultiLeafInsertFast does, or return the same error; no write goes past a leaf's slots |
| ScanProgram.DoRangeScan | sbf/src/torna/torna.c:967-1064 | the scratch account receives exactly the specified results, within its capacity, and the tree is only read |
| InsertProgram.Cascade | sbf/src/torna/torna.c:492-528 | leaf split and separator propagation in place, level by level, reach the specified state or error |
| InsertProgram.DoInsert | sbf/src/torna/torna.c:411-547 | the cold Insert handler does what the specified Insert does, or returns the same error |
| InsertProgram.DoCompactLeaf | sbf/src/torna/torna.c:702-741 | the CompactLeaf handler does what is specified, or returns the same error |
| DeleteProgram.RepairNode | sbf/src/torna/torna.c:637-667 | one borrow or merge, from either side, on leaves or internal nodes, is the specified repair |
| DeleteProgram.Cascade | sbf/src/torna/torna.c:609-669 | the bottom-up loop over the levels reaches the specified state or error |
| DeleteProgram.DoDelete | sbf/src/torna/torna.c:564-692 | the cold Delete handler does what the specified Delete does, or returns the same error |
| Entrypoint.Process | sbf/src/torna/torna.c:1317-1343 | every instruction, within the 40-account limit, does to the accounts what it does to the model's state; accepted, it leaves a well-formed tree holding the promised map |
| Answers.InsertFastAnswers | sbf/src/torna/torna.c:846-868 | on the search path: a full leaf is answered NeedSplitSlot, otherwise a present key DuplicateKey, and nothing else is refused |
| Answers.UpdateFastAnswers | sbf/src/torna/torna.c:877-898 | on the search path a missing key is answered KeyNotFound, and nothing else is refused |
| Answers.DeleteAnswers | sbf/src/torna/torna.c:564-692 | on the search path a Delete of a missing key is answered KeyNotFound whatever its siblings |
| Search.DescendIff | sbf/src/torna/torna.c:800-821 | on a well-formed subtree the descent accepts the search path of the key and nothing else |
| HotTheorems.PathSound | sbf/src/torna/torna.c:800-821 | whatever accounts a client supplies, the only accepted path is the key's one search path, and the leaf reached is the one that covers the key |
| HotTheorems.InsertFastCorrect | sbf/src/torna/torna.c:846-868 | accepted exactly on the search path of an absent key whose leaf has room; then the map gains exactly that binding and the tree stays well formed |
| HotTheorems.UpdateFastCorrect | sbf/src/torna/torna.c:877-898 | accepted exactly on the search path of a present key; then only its value changes |
| HotTheorems.DeleteFastCorrect | sbf/src/torna/torna.c:904-933 | accepted exactly on a search path; a present key is removed and its value returned, a missing one is a successful no-op |
| HotTheorems.FindCorrect | sbf/src/torna/torna.c:747-787 | accepted exactly on a search path, or on the empty tree; the answer is map lookup |
| InsertTheorem.InsertCorrect | sbf/src/torna/torna.c:411-547 | an accepted Insert adds exactly one absent binding and keeps every invariant, through leaf split, any number of internal splits and root growth, whatever path and spares were supplied |
| InsertPlanned.InsertPlannedIff | sbf/src/torna/torna.c:492-545 | on the search path with the next spares in order, more than height of them, Insert succeeds exactly when the key is absent, except that a tree of height 32 refuses a split of its root |
| InsertPlanned.InsertDuplicate | sbf/src/torna/torna.c:492-493 | a present key is refused as a duplicate |
| DeleteTheorem.DeleteCorrect | sbf/src/torna/torna.c:564-692 | an accepted Delete removes exactly one present binding and keeps every invariant, through any cascade of borrows and merges, root collapse and emptying, also where DeleteFast has left leaves under-full or empty |
| CompactTheorem.CompactCorrect | sbf/src/torna/torna.c:702-741 | accepted exactly for the leftmost path of an empty first leaf whose parent has slack; the map is unchanged and the chain loses just that leaf |
| BatchTheorems.BulkIsSingles | sbf/src/torna/torna.c:1072-1110 | accepted exactly when the keys ascend and InsertFast on the same path would accept each in turn, and then the result is that of the single inserts |
| BatchTheorems.SearchPathBetween | sbf/src/torna/torna.c:827-838 | a key between two keys of one search path has that search path too |
| BatchTheorems.BulkCorrect | sbf/src/torna/torna.c:1072-1110 | an accepted batch adds exactly its bindings, none of which was there |
| MultiLeafTheorem.MultiLeafIsSingles | sbf/src/torna/torna.c:1227-1313 | for requests of at most 8 blocks with at most 12 entries each: accepted exactly when the blocks ascend over adjacent leaves and the single inserts would be accepted one by one, and then the result is theirs: phase 1's capacity and adjacency checks still hold in phase 2 |
| MultiLeafTheorem.MultiLeafIff | sbf/src/torna/torna.c:1227-1313 | accepted exactly when there is no block at all, or at most 8 of them with 1 to 12 entries each, in order over adjacent leaves, and the single inserts would be accepted |
| MultiLeafTheorem.MultiLeafCorrect | sbf/src/torna/torna.c:1227-1313 | an accepted request adds exactly the entries of its blocks and keeps the tree well formed |
| Scans.RangeScanCorrect | sbf/src/torna/torna.c:967-1064 | an accepted scan returns, of the in-range entries of the leaves supplied, the first max, and of those as many as the scratch account holds: ascending forward, descending in reverse |
| ScanAdmission.RangeScanIff | sbf/src/torna/torna.c:1012-1058 | accepted exactly if the tree is empty, nothing is asked for or there is no room, or on the search path of the start with each further account it looks at being the neighbour in scan direction; what is supplied behind the leaf that ends the scan does not matter, and a reverse scan that reaches the first leaf with room left refuses any further account |
| ScanAdmission.RangeScanAccepts | sbf/src/torna/torna.c:967-1064 | so the right path and the neighbouring leaves in scan order are accepted, with the first in-range entries as the answer |
| Scans.ScanComplete | sbf/src/torna/torna.c:967-1064 | when the supplied leaves reach past the bound, those entries are all the tree's entries in range |
| Scans.PredecessorUnique | sbf/src/torna/torna.c:1047-1057 | a leaf whose link names the current leaf is its one predecessor, so reverse scans need no back pointer |
| Runs.FitsDecides | sbf/src/torna/torna.c:1316-1323 | exactly the instructions with more than 40 accounts, counted out instruction by instruction, are refused before their handler |
| Runs.StepCorrect | sbf/src/torna/torna.c:1317-1343 | every instruction keeps a state well formed and changes the map exactly as it promises; a refused one changes nothing |
| Runs.ReachableValid | integration/src/difftest.rs:157-225 | every state any run reaches from InitTree is a well-formed tree (equal depth, sorted nodes, separators, occupancy, leaf chain, only reachable accounts live); runs without DeleteFast keep every non-root leaf at F/2 or more as well |
| Runs.RunContents | integration/src/difftest.rs:167-173 | after any run the map is what the accepted instructions made of it, one after the other |
| Search.RepresentsShaped | integration/src/difftest.rs:195-222 | no node holds more than F keys, and children outnumber keys by one |
| LeafChain.LeavesChain | integration/src/difftest.rs:175-191 | the chain from leftmost visits exactly the live leaves, once each, in key order, holds all entries in order, and ends at rightmost with next 0 |
| MapModel.StateSorted | integration/src/difftest.rs:167-173 | the entries are strictly sorted and list exactly the map |
| Histories.NeverReused | sbf/src/torna/torna.c:299-327 | an index that was in use and is free again is never handed out a second time |
| Histories.SameEpoch | sdk/src/lib.rs:72-74 | two states of a run with one structure epoch have the same header, internal nodes and links, and the same search path for every key |
| Epochs.DeleteStructureIff | sbf/src/torna/torna.c:595-692 | an accepted Delete always moves the epoch, and leaves the structure as it was exactly when its leaf can spare the key: more than F/2 entries below the root, more than one in a leaf root |
| Epochs.KeepsNodesIff | sbf/src/torna/torna.c:609-692 | no account comes or goes, and root and height stand, exactly when the leaf can spare the key or its sibling lends an entry |
| Epochs.EpochOnlyIff | sdk/src/lib.rs:72-74 | an accepted instruction moves the epoch and changes no structure exactly when it is a Delete from a leaf that can spare the key |
| Epochs.PromiseIff | sdk/src/lib.rs:72-74 | that the epoch moves exactly on structural changes is true of an accepted instruction if and only if it is no such Delete |
| Epochs.EpochMovesAlone | sbf/src/torna/torna.c:690 | two trees that runs from InitTree reach, of height 1 and 2, and accepted Deletes there that move the epoch alone; and a third that borrows |
| Parallel.OrderDoesNotMatter | sbf/src/torna/torna.c:840-845 | hot instructions on pairwise different leaf accounts end in the same state and give each caller the same answer in every order |
| Parallel.StoreIsOwn | sbf/src/torna/torna.c:840-845 | each of them writes what it would have written alone, and nothing else is written |
| Heights.HeightBounds | sbf/src/torna/torna.c:495-544 | a tree of height h has at least 2*(F/2+1)^(h-2) leaves |
| Heights.ReachableHeight | sbf/src/torna/torna.c:495-544 | the same for every reachable tree; without DeleteFast it holds at least F/2 times that many keys |
| Planner.Path | sdk/src/lib.rs:127-150 | the client's walk returns the search path |
| Planner.InsertPlan | sdk/src/lib.rs:207-230 | search path and height + 2 spares above the high-water mark |
| Planner.DeletePlan | ts-sdk/src/index.ts:346-395 | a tree of height 0 has no plan; otherwise search path and the right neighbour of each level, or the left one of a last child: the null returns never happen on a well-formed state |
| DeletePlanned.SiblingsThere | sdk/src/lib.rs:243-253 | every node below the root on a search path has the sibling the plan names |
| DeletePlanned.DeletePlannedIff | sdk/src/lib.rs:236-265 | with the siblings planned before the Delete, it succeeds exactly when the key is present, however far the cascade goes |
| Planner.InsertPlanLands | sdk/src/lib.rs:207-230 | the planned Insert succeeds exactly when the key is absent and the height is at most 17, beyond which path and spares exceed the 40 accounts |
| Planner.DeletePlanLands | sdk/src/lib.rs:236-265 | the planned Delete succeeds exactly when the key is present and the height is at most 19, beyond which path and siblings exceed the 40 accounts |
| Planner.StalePlanHolds | sdk/src/lib.rs:72-74 | while the epoch stays the same, a plan resolved earlier (path, spares, siblings) is the plan that would be resolved now |
| Planner.StaleInsertLands | sdk/src/lib.rs:72-74 | so an Insert planned earlier succeeds now exactly when its key is absent now and the height is at most 17 |
| Planner.StaleDeleteLands | sdk/src/lib.rs:72-74 | and a Delete planned earlier exactly when its key is present now and the height is at most 19 |
| Planner.Scan | sdk/src/lib.rs:303-321 | the first max entries of the tree in key order, also past empty leaves |
| Planner.Best | sdk/src/lib.rs:324-326 | the smallest entry, if there is one |
| Planner.Get | sdk/src/lib.rs:329-345 | map lookup |
| Planner.ScanLeaves | sdk/src/lib.rs:351-363 | a prefix of the leaf chain that holds max entries or is all of it, and no leaf more than needed |
| Planner.Retry | sdk/src/lib.rs:379-386 | the first attempt that is not stale decides; nothing only if all were stale |
| Staleness.WalkAnswers | sbf/src/torna/torna.c:800-821 | the answer to any path whatever: no path, a path of another length, or else the first account off the search path decides, a wrong path if it is live and no node if it is closed |
| Staleness.StaleMeansMoved | sdk/src/lib.rs:366-378 | a path resolved earlier, not on the empty tree, is taken exactly if it still is the search path; else it is refused as a wrong path or, if the first account off the search path has been closed, as no node, and only where the structure epoch has moved |
| Staleness.BadPathIff | sdk/src/lib.rs:369 | a path that is no longer the search path is refused as a wrong path exactly if the height has changed or the first account off the search path is still live |
| Staleness.StaleNotBadPath | sbf/src/torna/torna.c:223-233 | a run after which a path resolved before is refused, in a tree of the same height, as an account that holds no node |
| Staleness.StaleAttempts | sdk/src/lib.rs:372-386 | a client that resolves anew before each attempt and finds all of them stale has seen the structure change at least once per attempt |
| OrderKeys.BuildOrderKey | orderbook/src/lib.rs:65-73 | the buffer holds the four fields in their places |
| OrderKeys.OrderKeyFields | orderbook/src/lib.rs:65-83 | price, slot, maker prefix and nonce are read back from the key |
| OrderKeys.OrderKeyOfFields | sdk/src/lib.rs:403-416 | every 32-byte string is the order key of the fields read from it |
| OrderKeys.PriceTimePriority | orderbook/src/lib.rs:65-73 | byte order of two keys of a side is the better price first (lower for asks, higher for bids), then the earlier slot, then maker prefix and nonce |
| OrderKeys.PricesWorsen | orderbook/src/lib.rs:80-83 | along a sorted book the price never gets better |
| OrderKeys.AheadIsBefore | orderbook/src/lib.rs:65-83 | a better price, or the same price and an earlier slot, means an earlier place in the book |
| OrderKeys.OrderKeyChecked | ts-sdk/src/keys.ts:41-58 | the TypeScript port refuses exactly the inputs that are no u64, and otherwise builds the same key |
| OrderKeys.WriteU64BE | ts-sdk/src/keys.ts:31-34 | eight big-endian bytes of the value modulo 2^64, at the offset and nowhere else |
| OrderKeys.PriceOfBuffer | ts-sdk/src/keys.ts:60-64 | a key of another length is refused; otherwise the price |
| OrderKeys.SlotOfBuffer | ts-sdk/src/keys.ts:66-69 | a key of another length is refused; otherwise the slot |
| OrderKeys.LandedKey | demo/src/lib/orderbook.ts:192-198 | the key of the same order with the slot it landed in |
| Tokens.TransferMoves | orderbook/src/lib.rs:269-284 | a transfer takes from the source what it gives to the destination, changes no owner or mint, and needs the source owner's authority |
| Tokens.AllMoved | orderbook/src/lib.rs:269-284 | after any sequence of transfers every account has what it had, plus inflow, minus outflow |
| BookProgram.OrderBook.Init | orderbook/src/lib.rs:149-213 | the checks of minimum size, vaults and clean trees, whose outcome is Setup.InitIff; accepted over two well-formed trees, it leaves a sound market that owes nothing |
| BookProgram.OrderBook.CheckClean | orderbook/src/lib.rs:193-213 | at most one node, in the right account, and every size 0 |
| BookProgram.OrderBook.Place | orderbook/src/lib.rs:304-342 | escrow, then insert: an ask's size moves from the maker's account into the base vault, a bid's price times size into the quote vault, and no other balance changes; the order rests with maker and size under a key that was free, which is returned and holds price, slot, maker prefix and nonce; or the specified error is returned |
| BookProgram.OrderBook.PlaceCold | orderbook/src/lib.rs:359-404 | the same through the cold Insert, splits included, with the signing book counted as one more account of that call (cpi/src/lib.rs:139-147) |
| BookProgram.OrderBook.OrderInLeaf | orderbook/src/lib.rs:444-463 | size and maker of the first entry under the key |
| BookProgram.OrderBook.Cancel | orderbook/src/lib.rs:410-441 | refund, then remove: the caller's order leaves the book, and an account of the caller receives an ask's size from the base vault or a bid's price times size from the quote vault, no other balance changing; or the specified error |
| BookProgram.OrderBook.SweepLeaf | orderbook/src/lib.rs:534-548 | within a leaf the loop picks the greedy fills and stops at the first order that does not cross |
| BookProgram.OrderBook.SweepChain | orderbook/src/lib.rs:519-550 | the first phase over six fixed arrays notes exactly the specified fills, with the leaf group of each, or returns the same error |
| BookProgram.OrderBook.SettleFill | orderbook/src/lib.rs:554-578 | one fill: of an ask, the base vault gives its size to the taker and the taker pays price times size in quote to the maker; of a bid, the quote vault gives price times size and the taker pays the size; no other balance changes, the order goes or keeps its remainder, and the other side stays; or the specified error |
| BookProgram.OrderBook.Match | orderbook/src/lib.rs:470-589 | the two phases together settle the greedy fills of the leaves offered, change balances by sizes and prices times sizes alone, and report every fill; or return the specified error |
| Sweep.GreedyMeaning | orderbook/src/lib.rs:534-548 | the greedy fills are of the first tradable orders in book order, all of each but perhaps the last, none worse than the limit, and they stop only for want of orders, of slots or of size |
| Sweep.SweepIsGreedy | orderbook/src/lib.rs:519-550 | whatever leaves are supplied, an accepted sweep is the greedy sweep of as many leaves of the chain; the right leaves are accepted, so the duplicate check never refuses them |
| Sweep.SweepIff | orderbook/src/lib.rs:519-550 | a sweep is accepted exactly when every leaf it reaches before it is finished is the chain's next; what is supplied behind that does not matter |
| Settlement.MatchCorrect | orderbook/src/lib.rs:470-589 | an accepted match fills greedily the part of the book its leaves cover, keeps the market sound, and leaves the other side alone |
| Settlement.MatchPays | orderbook/src/lib.rs:554-568 | for every account: taking asks, the taker receives the fills' sizes from the base vault and pays each maker price times size in quote; taking bids, it receives price times size from the quote vault and pays each maker the size in base; each maker's account is its own; no other balance changes |
| Amounts.MatchFills | orderbook/src/lib.rs:470-550 | at most 8 fills and at most as many as asked, within the size wanted, each within the limit at its order's price; if fewer, and size is left, every order within the limit in the leaves offered is among them |
| Settlement.OthersUntouched | orderbook/src/lib.rs:569-577 | orders that no fill names keep key and value |
| Settlement.FilledOrders | orderbook/src/lib.rs:569-577 | a filled order is gone, or rests with exactly what is left of it under the same maker |
| Settlement.MatchProductsFit | orderbook/src/lib.rs:565 | the overflow check of the second phase never fires on a reachable market |
| Priority.MatchKeepsPriority | orderbook/src/lib.rs:534-577 | a match changes or removes an order only if it fills up and removes every order of a size on that side with a better price, or the same price and an earlier slot |
| Priority.PriorityHolds | orderbook/src/lib.rs:534-577 | that holds of every match after any run from InitMarket |
| Priority.AheadIsTerms | orderbook/src/lib.rs:65-83 | of two orders as they were placed, the one with the better price, or the same price and the earlier landed slot, comes ahead |
| Amounts.KeysCollide | orderbook/src/lib.rs:65-73 | two placements of a side come to the same key exactly if price, slot, maker prefix and nonce agree |
| Amounts.LandedIs | demo/src/lib/orderbook.ts:192-198 | the key an order rests under is the planned key with the landed slot written into it |
| Solvency.PlaceStep | orderbook/src/lib.rs:330-340 | an accepted placement locks in the vault exactly what its order adds to the book, an ask its size and a bid its price times size, under a key that was free |
| Solvency.CancelReadsOrder | orderbook/src/lib.rs:425-429 | what cancel reads from an accepted path is the order itself, whatever other account could have been passed |
| Solvency.CancelStep | orderbook/src/lib.rs:410-441 | an accepted cancel removes the caller's own order and pays an account of the caller what it still held: an ask's size from the base vault, a bid's price times size from the quote vault |
| Solvency.CancelProductFits | orderbook/src/lib.rs:433-435 | the overflow check of cancel never fires on an order of the book |
| Setup.InitIff | orderbook/src/lib.rs:149-213 | over well-formed trees, InitMarket is accepted exactly when the smallest order size is positive, both vaults are the book's accounts of their mints, and each tree is empty or a single leaf, supplied as the root, of order values of size 0 |
| Setup.SampleAccepted | integration/src/obtest.rs:103-125 | a market over two trees that hold only their sentinel, as a run leaves them, is accepted |
| MarketRuns.InitSound | orderbook/src/lib.rs:193-213 | an accepted InitMarket leaves nothing owed to anyone |
| MarketRuns.StepAccounted | orderbook/src/lib.rs:286-296 | every instruction changes each order's escrow by what its events lock and release, and each vault by the same amounts and gifts alone |
| MarketRuns.SurplusIsGifts | orderbook/src/lib.rs:286-296 | over any run a vault's surplus over what the resting orders are owed changes by gifts alone |
| MarketRuns.AlwaysSolvent | orderbook/src/lib.rs:286-296 | after any run from InitMarket the base vault holds at least the sizes of the resting asks and the quote vault at least price times size of the resting bids, and exactly that beyond its first balance and gifts |
| MarketRuns.NoGifts | orderbook/src/lib.rs:565-568 | without outside payments, and without takers who have the vault itself paid, there are no gifts |
| MarketRuns.OrderConserved | orderbook/src/lib.rs:543-578 | over any history of partial fills and cancels an order's escrow pays out exactly what was locked for it, less what it still holds |
| Admission.CancelIff | orderbook/src/lib.rs:410-441 | on a solvent market cancel is accepted exactly for the order's own maker, on the order's search path, with an own account of the right mint that has room for the refund: neither the vault's balance nor an overflow can keep a maker from its escrow |
| Admission.SolventAfterRun | orderbook/src/lib.rs:286-296 | every run from InitMarket leaves such a market |
| Admission.PlaceIff | orderbook/src/lib.rs:304-342 | place is accepted exactly when the terms and balances fit, the path is the search path of the key that holds price, slot, maker prefix and nonce, that key is free and its leaf has room |
| Admission.PlaceColdIff | orderbook/src/lib.rs:359-404 | with the planned path and spares, place_cold is accepted exactly when the terms and balances fit, the key that holds the order's fields is free and the height is at most 16: path, spares and the appended signing book are 2h + 7 accounts, one more than a plain Insert has |
| Answers.PlaceAnswers | orderbook/src/lib.rs:304-342 | a placement in order on the search path is answered NeedSplitSlot if its leaf is full and DuplicateKey if its key is taken, and is accepted otherwise |
| Answers.CancelAnswers | orderbook/src/lib.rs:425-430 | a cancel on the search path is answered InvalidArgument if there is no such order and IllegalOwner if it is another maker's |
| Takers.SettleIff | orderbook/src/lib.rs:554-578 | on a solvent market the second phase goes through exactly when each fill is payable after those before it and its group is the search path of its order |
| Takers.MatchIff | orderbook/src/lib.rs:470-589 | on a solvent market match is accepted exactly when there are 1 to 64 leaf groups of the stated height and as many maker accounts as fills asked for, at most 8, the taker's accounts have the right mints, every leaf reached is the chain's next, each fill's path is its order's search path, each maker's account is the maker's own, the taker can pay, and every receiver has room: neither the vault nor an overflow stands in the way |
| Quotes.ComputeFills | demo/src/lib/orderbook.ts:225-258 | the preview is the greedy sweep of the whole book |
| Quotes.MatchFollowsPreview | demo/src/lib/orderbook.ts:222-258 | what a match on the same book fills is a prefix of the preview, and all of it unless the supplied leaves ran out first |

## Left out

- Program-derived addresses, signatures, account owners, rent, writability flags and raw byte layout: an account is identified with the node index it holds, creation and closing with joining and leaving the live nodes.
- Tree uid, tree id, magic numbers and versions: one tree is modelled, and an account of another tree counts as no node of this one.
- Value size: values are byte strings of any length; only the order book fixes 40.
- Instruction data shorter than its fields: the model's instructions are already parsed.
- Delegates, TransferAuthority, Stats and Find's return-data format: they add only easy members.
- The node level field: it is written as 0 everywhere.
- Wrap-around of the 64-bit counters (epoch, high-water mark): it takes 2^64 instructions.
- RangeScan's scratch header and its 16-bit result count: the scratch account is an array of entries whose length is its capacity.
- Reads of a planner that are torn across several states: each call reads one state, and staleness is stated between states of a run.
- The leaf list computeFills returns beside the fills: it is not the swept prefix of the chain, and the matcher does not use it as one.
- A minimum size for resting orders: partial fills may go below it, so it is a check at placement only.
- Delegates, close authorities and freezing of token accounts: only an account's owner moves its tokens, and a transfer from or to a frozen account, which the token program refuses, is not modelled. The exact conditions of place, cancel and match are for accounts that are not frozen.
- InitMarket's checks of addresses, header magic, version, open flag and authority: the market is given its two trees and vaults, and nobody else writes the trees.
- The market configuration account and its bindings: the model's market carries the configured mints, vaults and trees.
- The slot clock: the slot an order lands in is a parameter.
- User interface, RPC caches, market maker, faucet, benchmarks and the thin instruction wrappers: nothing to prove.
- Entrypoint.Process: takes one instruction at a time; the rollback of a refused one is the runtime's and appears in Runs.StepCorrect.
- BookProgram.OrderBook.Init: does not model the checks of addresses, associated token accounts, header magic, version, open flag, authority and value size, because accounts have no addresses or raw bytes here.
- Planner.Retry: the attempts are a function of their number; when an attempt on a tree goes stale is Staleness.StaleMeansMoved and Staleness.StaleAttempts.
