# A verified model of the HNSW index and its column store

The repository stores vectors in an HNSW graph (`src/index/hnsw`) whose records live in a column
store of fixed-slot pages (`src/storage`). This project models both in Dafny and proves what they
keep. `dafny verify dfyconfig.toml` checks all of it.

**The index.**
- `LayerSpec`, `Selection`, `LayerOps`: the best-first search of one layer and the selection of
  diverse neighbours, as a class with the source's heaps and buffers. The specification speaks of
  reachable nodes and distances only, so it says what a result is worth to a caller: local
  optimality, when it is exact, and exactly when it is exhaustive.
- `KnnSearch`: the search of a whole index, level by level, on top of it.
- `LinkProtocol`, `LinkSteps`, `LinkRuns`, `LinkChains`, `LinkResults`, `LinkUnlinks`: the bidirectional-link
  protocol of one level, each mini-transaction one atomic step of any number of threads; what overflow
  chains record, what linking and replacing leave, and whom an unlinking leaves to be repaired.
- `SlotLists`, `SlotRefinement`: the primary neighbour list slot by slot, compacted in place in
  scratch buffers and written back, refining the protocol's steps on sets.
- `OverflowChains`, `OverflowOps`: the chains of overflow records.
- `Repair`: the repair of neighbours orphaned by a removal, which calls the layer search.
- `Descent`, `DescentSteps`, `DescentLocks`, `DescentRuns`, `DescentProgress`, `DescentEntry`, `DescentWalks`,
  `DescentGap`: whole operations over all levels with graph, level and operation locks, hand-over-hand
  descent, what bounds a job, and the entry point.

**The store.**
- `FreeLists`, `StoreInvariant`, `ColumnStore`: the doubly linked free lists headed in the root page,
  and insert, fetch, mark_delete and purge as the sections that run under uninterrupted latches; the
  store as a refinement of a map from references to records.
- `Capacity`: the loop that decides how many records a page takes.
- `DataPage`, `DataPageOps`: the status bits and records of a page, byte by byte, as a refinement of
  a map from slots to records.
- `ColumnUpdate`, `LevelRecord`, `OverflowRecord`, `Nid`, `BigEndian`: chunked updates, the layout of a
  node's record and of its overflow records, and their ids.
- `StorageMeta`: the metadata of a root page and its two decoders.

**Where the code gives less than its comments or assertions say**, the model keeps the code and
states the exact condition:
- A search that stops early can miss visible nodes behind hidden ones although it has room
  (`LayerSpec.InvisibleNodeCutsSearch`, `LayerSpec.ExhaustiveIffNoBarrier`).
- A removal does not recognise its element as the entry point if that is registered below the
  element's top level, and then leaves it registered; the entry point dangles in exactly the runs with
  such a removal, and the next search reads a freed record (`DescentEntry.LeftRegisteredIff`,
  `DescentEntry.EntryDanglesIff`, `DescentEntry.FreedEntryIsRead`, `DescentGap.RegisteredEntryCanBeFreed`).
- An unlinking that is run again forgets the orphans it made before, so nothing repairs them
  (`LinkUnlinks.OrphanSurvivesRestartIff`, `LinkUnlinks.RerunLosesOrphan`).
- Growing the free slot array can find it full (`ColumnStore.GrowRace`).
- A page keeps its free slot number after it has left its list, so a page that was full once is never
  filled again (`ColumnStore.FullOnceIsLost`, `StoreInvariant.ListedIffOnList`).
- The capacity loop need not settle: 16 KiB pages with records of 1255 bytes keep 13 records and a
  bitmap for 12 (`Capacity.AlternatingLayoutOverlaps`, `Capacity.AlternatesIffFilled`).
- The free slot search can name a slot the page does not have (`DataPageOps.FindsEveryFreeSlotIff`).

## Model

| member | source | states |
|---|---|---|
| LayerOps.LayerOperations.Search | src/index/hnsw/layer_ops_impl.h:51-79 | the search ends with a settled result: local optimality, what was evaluated and expanded, and how many are kept; it fails only if a node it can reach has been freed |
| LayerOps.LayerOperations.TakeNearest | src/index/hnsw/layer_ops_impl.h:61-75 | one round: it either stops with a settled result, fails on a freed node, or keeps the frontier invariant and comes nearer to its end |
| LayerOps.LayerOperations.Expand | src/index/hnsw/layer_ops_impl.h:357-395 | opening a node visits and evaluates exactly the neighbours not visited before, opens nothing new if there are none, keeps the frontier invariant the stop test rests on, and fails exactly on a freed node |
| LayerOps.LayerOperations.Rebind | src/index/hnsw/layer_ops_impl.h:135-156 | a reset to another query leaves nothing of the search before it |
| LayerOps.LayerOperations.Seed | src/index/hnsw/layer_ops_impl.h:82-93 | without a traversal the result is the visible seeds other than the query node, all of them: seeds are not cut down to ef |
| LayerOps.LayerOperations.ConsumeAll | src/index/hnsw/layer_ops_impl.h:96-101 | hands back the whole result, each node once, nearest first |
| LayerOps.LayerOperations.ConsumeSimple | src/index/hnsw/layer_ops_impl.h:103-117 | hands back the M nearest of the result, nearest first, all of them if there are fewer |
| LayerOps.LayerOperations.ConsumeHeuristic | src/index/hnsw/layer_ops_impl.h:159-248 | selects exactly what the recursive specification selects from the candidates taken nearest first, back-fills when asked, hands back the pool ConsumeAll would have returned, and leaves the caller's list alone on failure |
| LayerOps.LayerOperations.ExtendWithNeighbours | src/index/hnsw/layer_ops_impl.h:252-273 | the working set becomes the result and all its neighbours not visited before |
| LayerOps.IsDominated | src/index/hnsw/layer_ops_impl.h:276-292 | a candidate is turned down exactly when its distance to some selected node is less than its distance to the query |
| LayerSpec.LocallyOptimal | src/index/hnsw/layer_ops_impl.h:58-75 | each visible neighbour of a result node is in the result or no nearer than its worst member |
| LayerSpec.ExactWhenBallConnected | src/index/hnsw/layer_ops_impl.h:58-75 | the result is the true nearest set whenever everything within its radius can be reached without leaving the radius |
| LayerSpec.ExhaustiveWhenAllVisible | src/index/hnsw/layer_ops_impl.h:51-79 | with every reachable node visible and room for all of them, the result is exactly the reachable nodes other than the query node |
| LayerSpec.ExhaustiveIffNoBarrier | src/index/hnsw/layer_ops_impl.h:66-71 | started from a visible seed and with room for all, the result holds all reachable visible nodes if and only if no distance cuts some of them off |
| LayerSpec.EmptyMeansNothingVisible | src/index/hnsw/layer_ops_impl.h:66-71 | an empty result means that no visible node can be reached |
| LayerSpec.InvisibleNodeCutsSearch | src/index/hnsw/layer_ops_impl.h:66-71 | a layer of three nodes on which the stop test misses a visible node behind a hidden one, with room left |
| LayerOps.ExhaustiveListing | src/index/hnsw/layer_ops_impl.h:51-132 | search and then consume_all list exactly the reachable nodes, each once, in ascending distance |
| LayerOps.WorkYieldsNearest | src/index/hnsw/layer_ops_impl.h:207-233 | a non-empty working set always yields a neighbour, and the first is the nearest of the set |
| Selection.ChosenIsDiverse | src/index/hnsw/layer_ops_impl.h:207-233 | no selected node is nearer to one selected before it than to the query |
| Selection.ChosenIsAscending | src/index/hnsw/layer_ops_impl.h:207-233 | selected nodes come nearest first |
| Selection.LeftOutIsDominated | src/index/hnsw/layer_ops_impl.h:207-233 | a candidate is left out only if M were selected before it, or its distance to one selected before it is less than its distance to the query |
| LayerOps.TakenSelects | src/index/hnsw/layer_ops_impl.h:159-248 | what the loop takes off the heap is a selection stated by distances alone: at most M nodes of the working set, nearest first, diverse, and each node left out is nearer to a selected one that is no farther from the query, or M are selected and none is farther |
| Selection.SelectionIsUnique | src/index/hnsw/layer_ops_impl.h:207-233 | with no two candidates at the same distance there is only one such selection, so the statement leaves nothing open |
| Selection.NearestIsSelected | src/index/hnsw/layer_ops_impl.h:207-233 | a selection from a non-empty set begins with the nearest of it |
| Selection.ChosenAndDiscardedAreAll | src/index/hnsw/layer_ops_impl.h:198-248 | when fewer than M are selected, selected and discarded candidates together are everything that was looked at |
| KnnSearch.SearchKnn | src/index/hnsw/graph_ops_impl.h:456-522 | the greedy descent hands down exactly one node per level, a local minimum no farther than the one before and always with a live record below; the answer is the k nearest of a settled bottom-level result, nearest first; an empty index answers nothing |
| KnnSearch.GreedyResult | src/index/hnsw/graph_ops_impl.h:494-506 | a search with ef = 1 from one node settles on exactly one node, a local minimum of its level |
| KnnSearch.KnnIsExact | src/index/hnsw/graph_ops_impl.h:508-520 | with all nodes visible and ef large enough the answer is the k nearest of everything reachable from where the descent ends |
| LinkSteps.StepKeeps | src/index/hnsw/graph.h:98-125 | every mini-transaction of create, link, replace, unlink and drop, under any interleaving the locks allow, keeps the invariant of the level |
| LinkRuns.LinksAreRecorded | src/index/hnsw/graph.h:98-107 | at every boundary of every run a confirmed outgoing link leads to a live node that is not retired, and that node records its source |
| LinkRuns.TraversalMeetsLive | src/index/hnsw/layer_ops_impl.h:357-374 | a thread that enters a level at a node or follows an outgoing link to it is handed a live record that has been linked, and all it holds is live |
| LinkRuns.RecordsAreTidy | src/index/hnsw/graph.cc:834-1069 | at every boundary the primary list fits, no name stands in it twice or is the node itself, and a settled node records each neighbour in one place |
| LinkRuns.SettledRecordsAreMutual | src/index/hnsw/graph.cc:650-766 | between settled nodes u records v exactly when v records u |
| LinkRuns.VisitsAreSound | src/index/hnsw/graph.cc:650-1222 | whatever a linking, dropping or severing step visits is a live node of the level |
| LinkRuns.UnlinkSeversEverything | src/index/hnsw/graph.cc:1223-1398 | after unlinking, however often it was run again without giving up its locks, no other node of the level names the node in any form |
| LinkUnlinks.UnlinkLeavesOrphans | src/index/hnsw/graph.cc:1223-1398 | when unlinking ends, what is left on the node is exactly the nodes that named it when the operation, or its last rerun, began and that have no outgoing link now; the thread goes on with all of them and, as far as a list takes them, with the others that named it then |
| LinkUnlinks.OrphanSurvivesRestartIff | src/index/hnsw/graph.cc:1186-1207 | after reruns, a former linker without an outgoing link is still on record if and only if it still named the node when the last rerun began |
| LinkUnlinks.RerunLosesOrphan | src/index/hnsw/graph.cc:1186-1207 | a run in which an orphan severed before a rerun ends neither on record nor in the hands of the thread that would repair it |
| LinkChains.StepKeepsBacked | src/index/hnsw/graph.cc:650-1069 | no step leaves an entry in an overflow chain without the link it stands for, or a confirmed link without its record on the other side |
| LinkChains.ChainIsOneWayLinks | src/index/hnsw/graph.cc:940-999 | the chain of a settled node records exactly the settled nodes that link to it without being linked back |
| LinkChains.ReplacementLinksBack | src/index/hnsw/graph.cc:1063-1068 | when a replacement is confirmed, each neighbour it newly names links back, or has a full list and the node in its chain |
| LinkResults.InsertionLinks | src/index/hnsw/graph.cc:286-370 | from create_node to the confirmation of its linking, in every run: the new node ends with an outgoing link to every node it was created with, and each of them links back or has a full list and the new node in its chain |
| LinkResults.ReplacementInstalls | src/index/hnsw/graph.cc:834-1069 | from its beginning to its confirmation, in every run: a replacement ends with the outgoing links being exactly the nodes that were asked for |
| LinkRuns.ReplaceInstallsList | src/index/hnsw/graph.cc:1063-1068 | a replacement ends with the primary list naming exactly the requested nodes, all confirmed |
| LinkRuns.ReplaceSparesOthers | src/index/hnsw/graph.cc:834-1069 | no step of a replacement takes an outgoing link from another node |
| LinkRuns.DroppedIsForgotten | src/index/hnsw/graph.cc:461-497 | a node is dropped only when nothing links to it, nothing names it and no thread holds on to it |
| SlotLists.ReadIncoming | src/index/hnsw/graph.cc:668-690 | the flagged links are compacted in place, unflagged, with the slots they came from |
| SlotLists.ConfirmIncoming | src/index/hnsw/graph.cc:752-765 | writing them back confirms each flagged link in its own slot; links that others have landed in the list since it was read stay |
| SlotLists.DemoteDropped | src/index/hnsw/graph.cc:901-927 | step A flags exactly the outgoing links that the new list does not name |
| SlotLists.StageTargets | src/index/hnsw/graph.cc:964-999 | step C stages exactly the wanted names the list does not have, each once, flagged unless the overflow chain records them |
| SlotLists.AlwaysRoom | src/index/hnsw/graph.cc:1028-1030 | kept and staged links together never exceed the slots: the pigeonhole behind the assertion |
| SlotLists.WriteNewList | src/index/hnsw/graph.cc:1001-1042 | step D keeps kept links where they stand, places every staged link once, and clears what is left over |
| SlotLists.ReplaceOwnList | src/index/hnsw/graph.cc:901-1068 | a node's own list ends with exactly the wanted links, each once and confirmed, kept ones in their slots |
| SlotLists.DemoteAll | src/index/hnsw/graph.cc:1261-1290 | the first step of unlinking flags every link |
| SlotLists.FreeSevered | src/index/hnsw/graph.cc:1305-1333 | the last step of unlinking frees every slot but those of orphaned neighbours |
| SlotRefinement.ConfirmRefines | src/index/hnsw/graph.cc:752-765 | the confirming update does to the sets of links what the protocol step does |
| SlotRefinement.DemoteRefines | src/index/hnsw/graph.cc:901-927 | step A on slots does to the sets of links what the protocol step does |
| SlotRefinement.WriteRefines | src/index/hnsw/graph.cc:964-1042 | steps C and D on slots do to the sets of links what the protocol step does |
| SlotRefinement.DemoteAllRefines | src/index/hnsw/graph.cc:1276-1290 | the demotion before unlinking does to the sets of links what the protocol step does |
| SlotRefinement.FreeRefines | src/index/hnsw/graph.cc:1319-1333 | freeing slots after unlinking does to the sets of links what the protocol step does |
| SlotRefinement.RoomIffFree | src/index/hnsw/graph.cc:720-724 | a tidy list names fewer nodes than it has slots exactly when a slot is free |
| SlotRefinement.Land | src/index/hnsw/graph.cc:720-745 | a link back goes into the first free slot, and is reported as withheld exactly if there is none; either way it does what the protocol step does, and a link another thread is about to confirm in the list stays as it was read |
| OverflowOps.Level.AddIncoming | src/index/hnsw/graph.cc:539-635 | the chain then records exactly one more link, in a place that was empty or in a new last record committed before it is linked; every other place of every chain is as before |
| OverflowOps.Level.FindLink | src/index/hnsw/graph.cc:1103-1137 | finds a place of the chain that records the target exactly when there is one |
| OverflowOps.Level.ClearLink | src/index/hnsw/graph.cc:1071-1101 | empties one place and no other |
| OverflowOps.Level.LinkRecord | src/index/hnsw/graph.cc:615-634 | linking a committed record in keeps every chain well-formed and makes it the last of its own |
| OverflowOps.Level.DropLast | src/index/hnsw/graph.cc:426-459 | taking out the last record keeps every chain well-formed and frees that record only |
| OverflowOps.Level.DropChain | src/index/hnsw/graph.cc:372-424 | tail-to-head dropping frees exactly the chain's records; no other record loses a link |
| OverflowOps.AddedRecords | src/index/hnsw/graph.cc:539-635 | adding a link grows what the chain records by exactly its source |
| OverflowOps.AddedOnce | src/index/hnsw/graph.cc:539-635 | a chain that records every link once still does after one is added |
| OverflowOps.ClearedRecords | src/index/hnsw/graph.cc:1071-1101 | clearing the place of a link recorded once takes exactly that link away |
| Repair.Level.RepairOrphans | src/index/hnsw/graph_ops_impl.h:344-394 | after the loop every former neighbour has a link and none that had one has lost its last, unless there was a single orphan and no survivor, where nothing changes; the level is what the repairs of the orphans make of it one after another, each searched for from the survivors and the orphans before it |
| Repair.Level.RepairOne | src/index/hnsw/graph_ops_impl.h:364-391 | the orphan's new list is a selection from the settled result of a search from the pool, it is linked back, and those without room choose anew: the level afterwards is determined by these steps |
| Repair.Level.SelectNeighbours | src/index/hnsw/graph_ops_impl.h:364-381 | at least one live neighbour other than the orphan, and together a selection of at most M from the settled result of a search from the seeds: the nearest of it first, and a result is left out only for a selected one that is nearer to it |
| Repair.Level.ReplaceNeighbours | src/index/hnsw/graph_ops_impl.h:382-391 | the list becomes the selected one; a neighbour found in the node's chain links to it already, any other new one links back or has a full list; those without room are reported in order, no other list changes, and all chains again record exactly the one-way links |
| Repair.Level.ShrinkNeighbours | src/index/hnsw/graph_ops_impl.h:551-590 | one after another, each neighbour without room ends with a selection of at most Mmax from its old links and the node, by their distances to it, and nobody is left without a link |
| DescentSteps.StepKeeps | src/index/hnsw/graph_ops_impl.h:44-522 | every step of insert, search, mark_delete and remove by any number of threads keeps the multi-level invariant, unless it is the decision of a remover that fails to recognise its element as the entry point |
| DescentRuns.DropIsSafe | src/index/hnsw/graph_ops_impl.h:417-440 | as long as removers have recognised the entry point, a record is freed only when no thread holds any record of its element and no link at any level touches it |
| DescentRuns.UnlinkIsAlone | src/index/hnsw/graph_ops_impl.h:318-340 | as long as removers have recognised the entry point, a level is unlinked while no other thread holds the removed record there: a remover never overtakes a traversal |
| DescentRuns.LinkedReachesBottom | src/index/hnsw/graph.cc:286-370 | as long as removers have recognised the entry point, at every step both ends of every link, and the entry point unless its remover has the graph to itself, have live records at every level below |
| DescentRuns.AdvanceFindsRecord | src/index/hnsw/graph_ops_impl.h:524-536 | as long as removers have recognised the entry point, following LowerLevel during a descent finds a live record |
| DescentRuns.CandidatesExist | src/index/hnsw/graph_ops_impl.h:118-207 | as long as removers have recognised the entry point, every candidate or neighbour a thread holds is a live record |
| DescentRuns.EntryReadIsLive | src/index/hnsw/graph.cc:259-268 | as long as removers have recognised the entry point, whoever reads the entry point under the graph lock gets a live record |
| DescentEntry.LeftRegisteredIff | src/index/hnsw/graph_ops_impl.h:280-297 | in every run, a removal leaves the entry point on the element it has freed if and only if the entry point stood on it at another level than its top when the remover decided |
| DescentEntry.RemovalHasDecision | src/index/hnsw/graph_ops_impl.h:280-301 | every finished removal has such a decision |
| DescentEntry.EntryDanglesIff | src/index/hnsw/graph_ops_impl.h:442-452 | in every run, the registered element is gone at some point if and only if some removal decided in that situation has been finished |
| DescentEntry.FreedEntryIsRead | src/index/hnsw/graph_ops_impl.h:442-470 | without that, once such a removal has been finished the next search to read the entry point holds a freed record |
| DescentEntry.DropOfReadEntry | src/index/hnsw/graph_ops_impl.h:417-440 | and while the remover shares the graph lock, an idle thread can read the entry point just before a record of that element is dropped |
| DescentEntry.ReplacementIsTopmost | src/index/hnsw/graph_ops_impl.h:311-450 | when the entry point is removed, none is registered if and only if it had no neighbour at any level as that level was unlinked, and all were; otherwise the new one is a neighbour lost at the topmost level at which it had one |
| DescentEntry.EntryIsRegisteredAtTop | src/index/hnsw/graph_ops_impl.h:442-452 | if every replacement is registered at its top level, the entry point is always the top record of a present element, and leads down to level 0 unless its remover has the graph to itself |
| DescentWalks.InsertionRegisters | src/index/hnsw/graph_ops_impl.h:60-205 | in every run, an insertion of e at level l leaves the top record of e registered if no entry point, or one below l, was registered when its thread decided, and otherwise the entry point as it was then; e ends with a record at each level from l down |
| DescentWalks.WalksEveryLevel | src/index/hnsw/graph_ops_impl.h:96-198 | in every run, a search, insertion, removal or marking visits exactly the levels from its topmost one down to 0: the entry point's for a search, the higher of the entry point's and its own for an insertion, its own otherwise; a search of an empty index visits none |
| DescentWalks.DescentHasDecision | src/index/hnsw/graph_ops_impl.h:60-83 | every descent that ends was begun with a decision on the entry point |
| DescentGap.RegisteredEntryCanBeFreed | src/index/hnsw/graph_ops_impl.h:280-283 | a run of five inserts and four removals from the empty index that ends at rest with an element left in the index and an entry point whose records are freed |
| DescentGap.TheHeuristicSelects | src/index/hnsw/layer_ops_impl.h:207-233 | the links of that run are those the heuristic selects, with M = 2, for five points of the plane |
| DescentLocks.StepKeepsLocks | src/index/hnsw/graph.cc:1411-1499 | every step keeps the locks compatible, each thread in its phase and each element with its owner, whatever is registered as entry point |
| DescentProgress.LocksTakenInRankOrder | src/index/hnsw/graph.cc:1411-1499 | in every run: graph lock, then levels strictly downwards, then one operation lock; a traversal never holds zero level locks |
| DescentProgress.SomeThreadCanStep | src/index/hnsw/graph.cc:1411-1499 | no deadlock in any run: while any thread has a job, some thread can take a step of its job |
| DescentProgress.StepsComeNearer | src/index/hnsw/graph_ops_impl.h:44-522 | in every run, each step but reading and relinking brings its thread strictly nearer to the end of its job, and no step of any thread sets another back |
| DescentProgress.JobsAreBounded | src/index/hnsw/graph_ops_impl.h:44-522 | where inserts reach no level above L, a job takes at most 36 L + 17 of those steps |
| ColumnStore.Store.GrowFreeSlots | src/storage/root_page.cc:190-219 | the slot array doubles, by 16 at most and up to its maximum; lists and pages stay, and new slots are empty |
| ColumnStore.Store.PageSelect | src/storage/root_page.cc:221-259 | the head of the remembered slot, or of a random one if that belongs to another root page or lies beyond the array; a switch resets the hint |
| ColumnStore.Store.AddFreePage | src/storage/root_page.cc:261-305 | the page becomes the first of its list; all lists stay well-formed and the total is their length |
| ColumnStore.Store.RemoveFreePage | src/storage/root_page.cc:307-381 | the page leaves its list from any position and keeps its slot number; all lists stay well-formed |
| ColumnStore.Store.AddDataPage | src/storage/root_page.cc:383-424 | the page becomes the first of the list of all pages |
| ColumnStore.Store.GetFreeSlot | src/storage/root_page.cc:496-519 | the first empty slot if there is one |
| ColumnStore.Store.InsertRecord | src/storage/data_page.cc:492-532 | one free slot takes the record, nothing else on any page changes, and the hint stays below the capacity |
| ColumnStore.Store.TryInsert | src/storage/storage.cc:367-438 | the path under the shared root latch stores one record and leaves the lists alone, or changes no page and says exactly why; bad arguments are refused |
| ColumnStore.Store.InsertUnderRoot | src/storage/storage.cc:439-571 | the path under the exclusive root latch stores one record, on the head of the thread's list or a new page; the page is on a free list afterwards exactly if it still has a free record |
| ColumnStore.Store.TryPurge | src/storage/storage.cc:782-838 | asks for the root page exactly if the pre-check says so, which is only for a full page of one record that was never listed; otherwise the purged page does not need listing |
| ColumnStore.Store.PurgeUnderRoot | src/storage/storage.cc:806-857 | frees exactly the transaction's own record, and lists the page if it was never listed |
| ColumnStore.Store.MarkDelete | src/storage/storage.cc:743-780 | changes the mark and transaction of one record and nothing else |
| ColumnStore.FullOnceIsLost | src/storage/root_page.cc:371-373 | a page that was full twice has every record purged and still belongs to no list, though its slot number names one; the next insert takes a new page |
| ColumnStore.GrowRace | src/storage/root_page.cc:190-197 | two inserts that decide to grow the array under the shared latch: the second finds it full, which the assertion in grow_free_slots excludes |
| StoreInvariant.PreCheckIsEnough | src/storage/data_page.cc:214-253 | the check before the purge and the check after it always agree |
| StoreInvariant.ListedIffOnList | src/storage/root_page.cc:261-381 | a page is on the list of a slot if and only if it has a previous link and carries that slot's number |
| StoreInvariant.NeverListed | src/storage/data_page.cc:214-253 | only a full page of a one-record store can carry no slot number |
| ColumnStore.Store.Serve | src/storage/storage.cc:367-571 | an insert stores its record in a slot that was free whenever the data has the column's length and a page can be had, and is refused otherwise; a purge takes away exactly the record it names if that belongs to the transaction; a mark changes mark and transaction of one record, a fetch reads one; nothing else changes |
| ColumnStore.Store.ServeAll | src/storage/storage.cc:367-857 | any sequence of inserts, purges, marks and fetches does to the store what its answers say to a map from references to records: a new reference is never one in use, and each answer is what the map says; a page that has been full once is on no list afterwards and has taken no record |
| FreeLists.PushKeepsList | src/storage/root_page.cc:261-305 | linking in at the front gives a well-formed doubly linked list with the page before the others |
| FreeLists.UnlinkKeepsList | src/storage/root_page.cc:307-381 | unlinking the k-th page gives a well-formed doubly linked list of the others |
| FreeLists.SlotsKeepListsApart | src/storage/root_page.cc:261-381 | free lists of different slots have no page in common |
| Capacity.Init | src/storage/data_page.cc:39-99 | the layout of every page of up to 64 KiB and every column of at least one byte: the most records that fit, or one more with a short bitmap, decided by one remainder |
| Capacity.Refine | src/storage/data_page.cc:55-77 | the loop settles within its ten rounds, or alternates up to the last one, and the count and bitmap it leaves with in both cases |
| Capacity.MostIsMost | src/storage/data_page.cc:60-77 | the closed form is the maximum: exactly the counts up to it fit |
| Capacity.SettledLayoutFits | src/storage/data_page.cc:86-98 | bitmap, records and trailer fit, and one more record would not |
| Capacity.AlternatingLayoutOverlaps | src/storage/data_page.cc:65-77 | in the alternating case the page is filled to the last byte and the last slot's status bits lie in the first record |
| Capacity.AlternatesIffFilled | src/storage/data_page.cc:65-77 | the loop alternates if and only if the space is n records and (n-1)/4 bytes for some n = 1 mod 4 |
| DataPageOps.Page.FindFreeSlot | src/storage/data_page.cc:441-490 | finds the free slot that comes first in its order, names the first unused pair behind the last slot, or says that nothing is free, each exactly when it should |
| DataPageOps.Page.FreePairInByte | src/storage/data_page.cc:418-439 | the least free pair of a byte, if it has one |
| DataPageOps.Page.Insert | src/storage/data_page.cc:492-532 | the page as a map gains one record in a slot that was free; the free count drops by one |
| DataPageOps.Page.Purge | src/storage/data_page.cc:534-581 | the page as a map loses exactly the transaction's own record, or nothing; the free count follows |
| DataPageOps.Page.MarkDelete | src/storage/data_page.cc:282-352 | the page as a map changes in the mark and transaction of one record |
| DataPageOps.FindsEveryFreeSlotIff | src/storage/data_page.cc:459-489 | from every hint the search finds a free slot of every page that has one, if and only if the capacity is a multiple of 4 or less than 4 |
| DataPageOps.MissesFirstSlot | src/storage/data_page.cc:466-474 | for every other capacity a page and a hint where it misses the only free slot |
| DataPage.SlotChanged | src/storage/data_page.cc:255-416 | a change of one slot's bits and bytes changes the map at that slot only, moves the free count accordingly, and keeps the padding clear |
| DataPage.PairTaken | src/storage/data_page.cc:386-416 | allocating a slot leaves the three others of its byte alone |
| DataPage.FullByte | src/storage/data_page.cc:418-427 | the mask test says that all four slots are taken exactly when they are |
| ColumnUpdate.Update | src/storage/storage.cc:624-741 | chosen chunks are taken from the data and all else is kept; whatever is wrong with the arguments is found before the first write |
| ColumnUpdate.WriteRuns | src/storage/storage.cc:716-738 | writing runs of consecutive chunks equals writing the chunks one by one |
| LevelRecord.Format | src/index/hnsw/storage.cc:230-265 | the sequential encoding puts every field where the chunk layout looks for it, padded with invalid links |
| LevelRecord.UpdateNode | src/index/hnsw/storage.cc:308-355 | the stored record afterwards is the old one with exactly the selected fields replaced |
| LevelRecord.PatchesAscend | src/index/hnsw/storage.h:171-183 | the chunk ids go up strictly, stay in the record and fit the scratch array for every level, M and mask |
| LevelRecord.FetchNode | src/index/hnsw/storage.cc:396-463 | reads exactly the selected fields: aligned with the slots for an update, valid links compacted for a lookup, and their number |
| LevelRecord.OverlayAt | src/index/hnsw/storage.cc:332-344 | after an update each slot holds its new link if it was named and its old one if not |
| OverflowRecord.Format | src/index/hnsw/storage.cc:268-299 | the sequential encoding of an overflow record puts every field where the chunk layout looks for it, padded with invalid ids |
| OverflowRecord.UpdateOverflow | src/index/hnsw/storage.cc:357-394 | the stored overflow record afterwards is the old one with exactly the selected fields replaced |
| OverflowRecord.ChangesAscend | src/index/hnsw/storage.h:176-183 | its chunk ids go up strictly, stay in the record and fit the scratch array sized for node records |
| OverflowRecord.FetchOverflow | src/index/hnsw/storage.cc:465-515 | reads exactly the selected fields: aligned with the slots for an update, valid ids compacted for a lookup, and their number |
| BigEndian.Write | src/index/hnsw/storage.cc:57-62 | byte by byte from the most significant gives the big-endian bytes |
| BigEndian.Read | src/index/hnsw/storage.cc:64-69 | folding the bytes gives the value they stand for |
| BigEndian.BytesOfValue | src/index/hnsw/storage.cc:57-69 | writing what was read gives the same bytes |
| BigEndian.ValueOfBytes | src/index/hnsw/storage.cc:57-69 | reading what was written gives the same number if it fits |
| Nid.ReferenceRoundTrip | src/index/hnsw/hnsw.h:131-154 | a reference leaves bit 46 clear, and page and slot come back with the incoming flag set or not |
| Nid.ReferencesAreUnique | src/storage/data_page.cc:133-149 | different places never share a reference |
| StorageMeta.Decode | src/index/hnsw/storage.cc:88-134 | reads back exactly what the data holds, and fails exactly when it holds nothing |
| StorageMeta.Parse | src/storage/tools/hnsw_layout.cc:49-110 | the second decoder does the same, and each of its errors says where the data ends or goes wrong |
| StorageMeta.DecodersAgree | src/storage/tools/hnsw_layout.cc:49-110 | the two decoders accept the same inputs and give the same metadata |
| StorageMeta.RoundTrip | src/index/hnsw/storage.cc:71-134 | decoding undoes encoding, with anything behind it |
| StorageMeta.HoldsOne | src/index/hnsw/storage.cc:71-134 | no data begins with encodings of two different metadata |
| StorageMeta.SetEntryPoint | src/index/hnsw/storage.cc:591-616 | the rewritten metadata is the old one with another entry level and entry point, and is refused exactly when its length differs |
| StorageMeta.OneEntryPointIsEnough | src/storage/root_page.cc:138-151 | metadata with one entry point always keeps its length, so the root page never refuses the update |

## Left out

- The page, latch and redo layer below the store: a page is a value, a mini-transaction is one atomic step, and page loads succeed except for a freed record. Failing reads and writes in the middle of an operation, and what is left behind by them, are not modelled; only for unlinking is it shown what a rerun completes and what it loses.
- Distances: an arbitrary table of reals takes the place of the distance helpers, so rounding, NaN and failing evaluations do not occur.
- The random insertion level and the random free slot are arbitrary values in range.
- LinkSteps.StepKeeps: mini-transactions that fail are not steps, and a thread enters a level only at nodes that are live and linked.
- Composition of the two protocols: LinkProtocol treats one level with the records as sets, Descent treats all levels with the links of one level as a set of edges and unlinking of a level as one step; that unlinking severs everything is LinkRuns.UnlinkSeversEverything, and whom it leaves to be repaired LinkUnlinks.UnlinkLeavesOrphans. That the seeds a thread brings into a level are live is assumed in LinkProtocol and proved in Descent. The outgoing links a new record holds before its reciprocal links are added are not edges in Descent: nobody can read the record then.
- LayerSpec.ExhaustiveIffNoBarrier: says nothing about a search all of whose seeds are hidden; such a search does not stop before it has met a visible node, and no condition on distances is given for what it misses afterwards.
- LinkRuns.UnlinkSeversEverything: a rerun is the step RestartUnlink, which keeps the locks. In the code it is a new removal, and between the failure and it others may link to the half-unlinked node or give it a new list; that is not part of the model. The failing read or write itself is no step.
- Repair.Level.RepairOrphans: links are sequences without slots or flags, and no other operation runs meanwhile; that chains record exactly the one-way links, which is assumed when a level is given, is LinkChains.ChainIsOneWayLinks.
- DescentEntry.ReplacementIsTopmost: in the code the replacement is the first survivor of the level; the model lets it be any neighbour of that level, so it covers more runs than the code has.
- DescentGap.RegisteredEntryCanBeFreed: the order in which a level is searched is left out; a search may meet more nodes than the run uses.
- ColumnStore.Store.InsertRecord: takes any free slot. Which slot the bitmap search names is in DataPageOps, where it can be one the page does not have if the capacity is no multiple of 4.
- DataPageOps.Page.Insert: requires that the search finds a slot of the page, as the source asserts.
- ColumnStore.Store.Serve: the two sections of an operation follow each other with no section of another thread between; each section by itself is proved without that. An insert that needs the root page stops with `NoPage` if `added` is no page the segment can give, also where the list still has a page.
- ColumnStore.Store.GrowFreeSlots: also called with a full array, which the source's assertion excludes but its callers do not, since another thread may grow the array between the two root latches (ColumnStore.GrowRace).
- DataPageOps.Page: the counters and links of the page header are fields, not bytes; the SDK decides their byte order.
- Capacity.Init: the width of the SDK's page offset type is not known, so offsets are unbounded; the 16-bit record count is truncated as in the source. The comment on the page format counts one bitmap byte more than the code does; the model follows the code.
- remove_data_page, the multi-column store's create, drop and load, ensure_levels and the options: nothing calls the first, and load does not restore a secondary store's segment index while ensure_levels skips initialised stores, so no claim about reloading is made.
- KnnSearch.SearchKnn: on an index that does not change meanwhile; that a concurrent descent never meets a missing record is DescentRuns.AdvanceFindsRecord.
- mark_delete of a vector takes part in Descent only with its locks, since it changes no link.
- ef = 0 in a search, which the session variable's bounds exclude.
