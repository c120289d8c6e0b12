# Verified model of foreactor

foreactor runs the system calls of an application ahead of time.  A plugin describes a function of the
application as a graph of syscall and branch nodes; the library follows the application through the graph,
peeks ahead, and hands calls it can already foresee to an asynchronous engine.  The repository also holds
a B+ tree that uses it and a lock-free queue that its thread-pool engine is built on.  This project models
the three and proves what each of them promises.

**The B+ tree** (`Page`, `Pager`, `TreeShape`, `Splits`, `Cascades`, `Lookups`, `Ranges`, `Loads`,
`Sizes`, `BPTree`).  Pages are edited in place in a buffer with a content array; the file is a sequence of page
images.  The invariant labels every page of the tree with a level and a key interval and speaks about one
page at a time; a split is a *growth* of one level, and bulk loading is a growth at the right edge with
the new leaves still in memory.  The tree stands for a map: `Put`, `Get`, `Scan` and `Load` are proved
against it, for every degree from 2 up to the page capacity.

**The pre-issuing algorithm** (`Graphs`, `ValuePools`, `Speculation`, `SCGraph`, `LinkLimits`,
`PreadBuffers`, `Looping`).  `Graphs` defines the path an application takes, place by place, from the
graph and the plugin's answers.  `Speculation` states the invariant that ties frontier, peekhead, the three
distances, the stages, the engine's collections and the log of executed calls to places on that path, with
one lemma per step.  `SCGraph` is the object the code updates in place; when the plugin is ready early,
which request completes first and what a call returns are left open, so every contract holds for every
choice.  What the system answered and what the plugin refused are recorded where they happen, and the
contracts speak about these records.

**The queue** (`DequeueCounters`, `Semaphore`, `BlockIndex`, `ThreadPool`, `EntryIds`).  The concurrent
parts are state machines whose steps are single atomic accesses or kernel calls, in any interleaving of any
number of threads; the block index is a producer used by one thread at a time.

Where code and comments differ, the code is followed.  Some results are about such places, and about
promises that hold only under a condition:

- `Load` says it wants increasing keys, but starts its comparison from the least key, 0, and therefore
  rejects a vector whose first key is 0; `CheckRecords` states the exact condition.
- `Scan` indexes its path at size - 2, which is out of range on a tree of depth one: on every tree with
  fewer records than its degree (`SessionScan`), such as any new one (`ScanNewTree`).
- The assertion that the frontier is never still PREPARED fails when a LINK flag is the last one in the
  prepared list: `LinkLimits.Stranding` gives the run that leads there, `FinishIssue` the exact condition,
  `RunCalls` what a run with LINK flags still promises, and `Intercept` shows that graphs without LINK flags
  are free of it.
- The assertion that a free internal buffer exists holds in every run without references held by the plugin
  (`RunCalls`); with references it can fail (`KeptReference`), and dropping one can take the buffer from a
  visit that is still going on (`SharedBuffer`).
- The queue's wrapped comparison is safe while no consumer sleeps through half the counter range
  (`RunIsSafe`); `SleeperBreaks` is a run with such a consumer in which the head passes the tail.
- The looping plugin's graph fits its loops exactly when all counts are positive (`WhenLoopsFollow`).

## Model

| member | source | states |
|---|---|---|
| `Pages.PageSearchKey` | realapps/bptree/bptree-src/bptree.tpl.hpp:62-93 | The returned content index is that of the last key not above the searched one, 0 if there is none: exactly the first rank keys are at most the key |
| `Pages.LeafInjectedIsUpdate` | realapps/bptree/bptree-src/bptree.tpl.hpp:96-136 | Injecting a record at its searched place is a map update of what the leaf holds: sorted before and after, one key more exactly when the key is new, all other records as they were |
| `Pages.LeafPageInject` | realapps/bptree/bptree-src/bptree.tpl.hpp:96-136 | The shift-and-store on the content array leaves exactly the page that LeafInjectedIsUpdate speaks about |
| `Pages.ItnlPageInject` | realapps/bptree/bptree-src/bptree.tpl.hpp:139-180 | Duplicate key, wrong left child, or the page with the separator and its right child inserted: which one, and the resulting page |
| `Pages.InsertedSlots` | realapps/bptree/bptree-src/bptree.tpl.hpp:114-135 | The page after the shift, slot by slot: what stays, what moves up by one, where the new pair is |
| `Pages.InsertionSorted` | realapps/bptree/bptree-src/bptree.tpl.hpp:139-180 | Inserting an absent key at its rank keeps the keys strictly increasing |
| `Paging.Pager.constructor` | realapps/bptree/bptree-src/pager.cpp:97-160 | An empty file gets a root of depth one; otherwise the free pages are exactly the empty ones of the file |
| `Paging.Pager.AllocPage` | realapps/bptree/bptree-src/pager.cpp:73-94 | The least free page, or one page more at the end of the file; it is zeroed, no other page changes |
| `Paging.Pager.ReadPage` | realapps/bptree/bptree-src/pager.cpp:35-41 | Fails exactly beyond the end of the file, otherwise copies the page |
| `Paging.Pager.WritePage` | realapps/bptree/bptree-src/pager.cpp:53-59 | Replaces one page of the file and no other; beyond the end, the file grows by zeros up to the page |
| `TreeShape.GrowthWellFormed` | realapps/bptree/bptree-src/bptree.tpl.hpp:226-373 | Cutting a page in two and giving its parent the separator keeps the whole tree invariant: order, separators, levels, sibling chain, page sizes; only the parent may end up full |
| `TreeShape.RootGrowthWellFormed` | realapps/bptree/bptree-src/bptree.tpl.hpp:229-297 | The same when the root is cut: every level moves down by one and the root records the new depth |
| `TreeShape.ChildAtRank` | realapps/bptree/bptree-src/bptree.tpl.hpp:205-212 | The child at a key's rank is a page, one level down, responsible for that key |
| `TreeShape.LeafReplaced` | realapps/bptree/bptree-src/bptree.tpl.hpp:387-396 | Rewriting one leaf changes the map only inside the leaf's interval, and keeps the invariant |
| `Splits.Halve` | realapps/bptree/bptree-src/bptree.tpl.hpp:308-344 | A full page keeps its lower half, the new page gets the upper half, internal pages give up the middle key; both are linked |
| `Splits.HalveRoot` | realapps/bptree/bptree-src/bptree.tpl.hpp:234-290 | The full root's contents go to two new pages, and the root keeps one separator and one more level |
| `Splits.SplitIsGrowth` | realapps/bptree/bptree-src/bptree.tpl.hpp:299-352 | The two halves of a full page are pages of the two half intervals |
| `Splits.RootSplitIsGrowth` | realapps/bptree/bptree-src/bptree.tpl.hpp:229-290 | The two halves of a full root are pages of the next level |
| `Splits.SlotInParent` | realapps/bptree/bptree-src/bptree.tpl.hpp:354-361 | Searching the parent for the separator leads to the slot of the page that was cut, and the separator is not there yet |
| `Cascades.CutCompleted` | realapps/bptree/bptree-src/bptree.tpl.hpp:308-361 | After the parent got the separator the tree is sound again, with the parent possibly full |
| `Cascades.CascadeResult` | realapps/bptree/bptree-src/bptree.tpl.hpp:363-367 | A split that goes on at the parent leaves the path on the right edge of the tree |
| `Cascades.NoCascadeResult` | realapps/bptree/bptree-src/bptree.tpl.hpp:367-372 | A split that ends at the parent does too |
| `BPlusTree.BPTree.Open` | realapps/bptree/bptree-src/bptree.tpl.hpp:11-37 | Any file is opened; what is opened is a sound tree exactly when the stored pages form one for this degree, with the same map, and a new file is an empty tree |
| `BPlusTree.Reopen` | realapps/bptree/bptree-src/bptree.tpl.hpp:11-37 | A tree's file opened with another legal degree is a sound tree for the same map exactly when every page has fewer keys than that degree |
| `Sizes.OtherDegree` | realapps/bptree/bptree-src/bptree.tpl.hpp:391-396 | The invariant holds for another degree exactly when every page has fewer keys than that degree |
| `BPlusTree.Create` | realapps/bptree/bptree-src/bptree.tpl.hpp:23-27 | Opening fails exactly for a degree below 2 or above the page capacity |
| `BPlusTree.BPTree.TraverseToLeaf` | realapps/bptree/bptree-src/bptree.tpl.hpp:184-222 | The path holds the one page per level that is responsible for the key, down to the leaf; the index is that of the leaf in its parent |
| `BPlusTree.BPTree.PickChild` | realapps/bptree/bptree-src/bptree.tpl.hpp:205-212 | The picked child is never 0 |
| `BPlusTree.BPTree.Get` | realapps/bptree/bptree-src/bptree.tpl.hpp:400-420 | Found exactly when the tree's map has the key, with the map's value |
| `BPlusTree.BPTree.Put` | realapps/bptree/bptree-src/bptree.tpl.hpp:377-397 | The map is updated at the key and nowhere else, and the whole tree invariant is kept, through any cascade of splits; a tree of several pages still holds at least as many records as its degree |
| `BPlusTree.BPTree.CutOff` | realapps/bptree/bptree-src/bptree.tpl.hpp:299-352 | The upper half of a full page is in a new page linked behind it; all other pages are as before |
| `BPlusTree.BPTree.InsertUp` | realapps/bptree/bptree-src/bptree.tpl.hpp:354-361 | The parent takes the separator without an exception and the tree is sound except for a full parent |
| `BPlusTree.BPTree.SplitOther` | realapps/bptree/bptree-src/bptree.tpl.hpp:299-373 | Splitting a page below the root ends in a sound tree; pages below its level are untouched |
| `BPlusTree.BPTree.SplitRoot` | realapps/bptree/bptree-src/bptree.tpl.hpp:229-297 | Splitting the root ends in a sound tree one level deeper |
| `BPlusTree.BPTree.SplitPage` | realapps/bptree/bptree-src/bptree.tpl.hpp:226-373 | The cascade ends, by the length of the path, in a sound tree; on the right edge the path leads to the new last page of the level |
| `BPlusTree.SessionGet` | realapps/bptree/bptree-src/bptree.tpl.hpp:377-420 | After any sequence of puts and re-openings from a new file, a lookup agrees with the map of the same puts |
| `BPlusTree.RunSession` | realapps/bptree/bptree-src/bptree.tpl.hpp:377-397 | Any such session ends in a sound tree that stands for the session's map and that has several pages only once the map is as large as the degree |
| `BPlusTree.BPTree.Scan` | realapps/bptree/bptree-src/bptree.tpl.hpp:428-517 | Out of range exactly for a non-empty interval on a tree of depth one, that is, on a tree with fewer records than its degree; otherwise exactly the map's records in the closed interval are appended, in increasing order, and counted |
| `BPlusTree.SessionScan` | realapps/bptree/bptree-src/bptree.tpl.hpp:428-517 | After any session, a scan goes out of range exactly if the interval is not empty and the session's map is smaller than the degree; otherwise it lists exactly that map's records of the interval |
| `BPlusTree.ScanNewTree` | realapps/bptree/bptree-src/bptree.tpl.hpp:428-446 | The failing case at a real input: every scan of a non-empty interval of a tree just created goes out of range |
| `Sizes.OnePage` | realapps/bptree/bptree-src/bptree.tpl.hpp:391-396 | A tree that grew under its degree is a single page exactly as long as its map is smaller than the degree |
| `Sizes.LargeEnough` | realapps/bptree/bptree-src/bptree.tpl.hpp:387-396 | When a record has gone into a leaf and the leaf is full, or the tree had several pages already, the map is at least as large as the degree |
| `Sizes.PageCount` | realapps/bptree/bptree-src/bptree.tpl.hpp:96-136 | A sorted page that holds a whole map has as many keys as the map has |
| `Sizes.RecordCount` | realapps/bptree/bptree-src/bptree.tpl.hpp:428-517 | A listing of a whole map is as long as the map is large |
| `BPlusTree.BPTree.GatherLeaves` | realapps/bptree/bptree-src/bptree.tpl.hpp:446-470 | Following the sibling chain of the last internal level yields the leaves from the one of the left key to the one of the right key, without gap or repetition |
| `BPlusTree.BPTree.ScanLeaf` | realapps/bptree/bptree-src/bptree.tpl.hpp:482-510 | The records taken from one leaf are exactly those of its part of the interval |
| `BPlusTree.BPTree.ScanLeaves` | realapps/bptree/bptree-src/bptree.tpl.hpp:479-511 | The leaves' parts add up to the interval |
| `Ranges.RangeUnique` | realapps/bptree/bptree-src/bptree.tpl.hpp:428-517 | A map's records in a range can be listed in one way only, so the scan's result is determined |
| `BPlusTree.BPTree.Load` | realapps/bptree/bptree-src/bptree.tpl.hpp:520-689 | Not empty, bad records or loaded: exactly when each; after loading, the tree is sound, its records are exactly the given vector, and it is one page exactly if there are fewer records than the degree |
| `BPlusTree.BPTree.CheckRecords` | realapps/bptree/bptree-src/bptree.tpl.hpp:548-555 | Accepts exactly the strictly increasing vectors whose first key is above 0 |
| `Loads.EmptyTree` | realapps/bptree/bptree-src/bptree.tpl.hpp:524-530 | Depth one and no keys in the root mean exactly that the map is empty |
| `BPlusTree.BPTree.AllocLeaves` | realapps/bptree/bptree-src/bptree.tpl.hpp:572-580 | As many different new pages as there are leaves; the pages of the tree are as before |
| `BPlusTree.BPTree.LoadFew` | realapps/bptree/bptree-src/bptree.tpl.hpp:557-570 | A short vector fits into the root as a leaf |
| `BPlusTree.BPTree.InjectLast` | realapps/bptree/bptree-src/bptree.tpl.hpp:628-632 | Appending the next leaf's separator at position itnlpos never fails, and itnlpos is the page's number of keys |
| `BPlusTree.BPTree.SplitLast` | realapps/bptree/bptree-src/bptree.tpl.hpp:633-641 | After splitting the last internal page, the path is the right edge again and itnlpos its number of keys |
| `BPlusTree.BPTree.HangFirst` | realapps/bptree/bptree-src/bptree.tpl.hpp:620-626 | The first leaf becomes the only child of the root |
| `BPlusTree.BPTree.FlushLeaf` | realapps/bptree/bptree-src/bptree.tpl.hpp:605-647 | A full buffer becomes the next leaf of the tree loaded so far |
| `BPlusTree.BPTree.FillLeaves` | realapps/bptree/bptree-src/bptree.tpl.hpp:592-648 | All records but a last partial leaf are in the tree; the rest is in the buffer |
| `BPlusTree.BPTree.WrapUpLeaf` | realapps/bptree/bptree-src/bptree.tpl.hpp:652-665 | The remaining records become a last leaf |
| `BPlusTree.BPTree.WrapUpItnl` | realapps/bptree/bptree-src/bptree.tpl.hpp:666-669 | The last internal page is written, after a split if it is full |
| `BPlusTree.BPTree.WriteLeaves` | realapps/bptree/bptree-src/bptree.tpl.hpp:677-683 | Writing the leaves turns the file into the one the tree was built for |
| `Loads.LoadStep` | realapps/bptree/bptree-src/bptree.tpl.hpp:627-642 | Appending a leaf at the right edge keeps the state of the load: path on the right edge, leaves in order, exactly the records so far |
| `Loads.LoadComplete` | realapps/bptree/bptree-src/bptree.tpl.hpp:666-683 | With all leaves made, the tree over the pending leaves is sound and holds exactly the records |
| `BPlusTree.LoadThenScan` | realapps/bptree/bptree-src/bptree.tpl.hpp:428-689 | A scan after a load returns exactly the loaded records of the interval |
| `Graphs.SumsIncrease` | libforeactor/core/value_pool.cpp:61-71 | If every cycle through a node takes a back edge of one of the node's dimensions, successive visits to the node have strictly increasing epoch sums |
| `Graphs.KeyInjective` | libforeactor/core/scg_nodes.cpp:80-82 | So node and epoch sum identify the visit |
| `Graphs.EpochMonotone` | libforeactor/core/scg_nodes.cpp:475-489 | Epochs never decrease along the path, in any dimension |
| `Graphs.HeightsEnclose` | libforeactor/core/scg_nodes.cpp:501-511 | A per-node height function is enough to show the condition on cycles |
| `ValuePools.EpochList.Sum` | libforeactor/core/value_pool.cpp:61-71 | The sum over a set of dimensions, whatever the order of summation |
| `ValuePools.EpochList.Increment` | libforeactor/core/value_pool.cpp:39-42 | Increments one dimension and no other |
| `ValuePools.EpochList.CopyFrom` | libforeactor/core/value_pool.cpp:44-48 | The list equals the other one as it was |
| `ValuePools.EpochList.SameAs` | libforeactor/core/value_pool.cpp:74-81 | True exactly for equal lists |
| `ValuePools.EpochList.Dominates` | libforeactor/core/value_pool.cpp:83-90 | True exactly if no dimension is behind the other list's |
| `ValuePools.LookupIsByVisit` | libforeactor/core/value_pool.tpl.hpp:49-74 | What is found under the sum of a visit is the value of that visit, and nothing is found for a visit without one |
| `ValuePools.ValuePool.Set` | libforeactor/core/value_pool.tpl.hpp:35-46 | Set on the sum is set on the visit, other visits keep their values |
| `ValuePools.ValuePool.Has` | libforeactor/core/value_pool.tpl.hpp:49-58 | True exactly if this visit has a value |
| `ValuePools.ValuePool.Get` | libforeactor/core/value_pool.tpl.hpp:60-74 | The value of this visit |
| `ValuePools.ValuePool.Remove` | libforeactor/core/value_pool.tpl.hpp:77-95 | Removes this visit's value and no other's |
| `ValuePools.PoolsByVisit` | libforeactor/core/scg_nodes.cpp:80-98 | In every state of the algorithm, the part of each node of the stage, argument, link and return-code pools stands for values by visit |
| `ValuePools.UpdateOfNode` | libforeactor/core/value_pool.tpl.hpp:35-95 | Storing or removing an entry in the pools of all nodes is Set or Remove in the pool of its own node, and leaves the other nodes' pools alone |
| `Speculation.InitialInv` | libforeactor/core/scg_graph.cpp:97-111 | The state after a reset satisfies the invariant of the algorithm |
| `Speculation.FrontierBranchedInv` | libforeactor/core/scg_graph.tpl.hpp:20-40 | Passing a branch at the frontier moves the frontier one place along the path and keeps the invariant |
| `Speculation.OvertakenEpoch` | libforeactor/core/scg_nodes.cpp:208-215 | When the frontier has overtaken the peekhead, its epoch dominates the stored one in every dimension: the assertion at line 209 holds |
| `Speculation.CaughtUpInv` | libforeactor/core/scg_nodes.cpp:208-215 | Restarting the peekhead behind the frontier keeps the invariant |
| `Speculation.WeakRecordedInv` | libforeactor/core/scg_nodes.cpp:239-246 | Recording the edge into the peekhead makes the weak distance cover every uncrossed weak edge up to it, and a weak edge is at the recorded distance |
| `Speculation.NoneRecorded` | libforeactor/core/scg_nodes.cpp:239-246 | While peeking, weakedge_distance is negative exactly if no uncrossed edge between frontier and peekhead is weak |
| `Speculation.PeekBranchedInv` | libforeactor/core/scg_nodes.cpp:251-268 | Passing a decided branch moves the peekhead along the same path the frontier will take |
| `Speculation.HitEndInv` | libforeactor/core/scg_nodes.cpp:230-236 | The end may be recorded as hit only with the peekhead at the end of the graph; the invariant says that it then is there |
| `Speculation.PeekIsNew` | libforeactor/core/scg_nodes.cpp:288-309 | The visit at the peekhead has no entry in any pool, so it was never prepared before |
| `Speculation.PeekPreparedInv` | libforeactor/core/scg_nodes.cpp:308-319 | Preparing the visit at the peekhead keeps the invariant: list order, counters, prepared distance, and no side effect behind an uncrossed weak edge |
| `Speculation.SubmittedInv` | libforeactor/engine/io_uring.cpp:44-72 | Handing the first prepared request to the engine keeps the invariant; it was never executed before |
| `Speculation.CompletedInv` | libforeactor/core/scg_nodes.cpp:151-161 | Harvesting any request on the fly keeps the invariant; its result belongs to its own visit |
| `Speculation.SyncedInv` | libforeactor/core/scg_nodes.cpp:385-394 | Executing the frontier's call in place keeps the invariant; it was never executed before |
| `Speculation.PushedInv` | libforeactor/core/scg_nodes.cpp:414-424 | Moving the frontier on, with all three distances decremented, keeps the invariant; the returned code is the result of the frontier's visit |
| `Speculation.LatePrepared` | libforeactor/core/scg_nodes.cpp:316-318 | The frontier's own visit is still only prepared exactly when something is prepared and prepared_distance is negative |
| `Speculation.LinkIsOwn` | libforeactor/engine/io_engine.cpp:34-40 | The LINK flag stored for a prepared request is the one of its own visit |
| `Speculation.EarlyExit` | libforeactor/core/scg_nodes.cpp:187-189 | If the application leaves over a weak edge, every call executed beyond the exit is pure |
| `Speculation.SideEffectsCovered` | libforeactor/core/scg_nodes.cpp:308-319 | A side effect beyond the frontier is with the engine only if no uncrossed edge before it is weak |
| `Speculation.AheadBound` | libforeactor/core/scg_nodes.cpp:225-229 | At most peekhead_distance, hence pre_issue_depth, visits ahead of the frontier hold any stage |
| `Speculation.PassedExactlyOnce` | libforeactor/core/scg_nodes.cpp:383-412 | Every syscall the frontier has passed was executed exactly once |
| `Speculation.LoggedArgs` | libforeactor/core/scg_nodes.cpp:138-144 | Whatever was executed was executed with the arguments of its own visit |
| `Speculation.PreparedInStage` | libforeactor/engine/io_uring.cpp:39-77 | A request is in the prepared list exactly if its stage is PREPARED, and on the fly exactly if its stage is ONTHEFLY; num_prepared is the length of the list |
| `ForeactionGraph.SCGraph.constructor` | libforeactor/core/scg_graph.cpp:48-73 | A new graph object is in the initial state, which satisfies the invariant, with all internal buffers free |
| `ForeactionGraph.SCGraph.GetFrontier` | libforeactor/core/scg_graph.tpl.hpp:11-47 | The frontier reaches the next syscall of the path; the decisions dropped are exactly those of the branches passed, and nothing else in the pools changes |
| `ForeactionGraph.SCGraph.PickBranch` | libforeactor/core/scg_nodes.cpp:475-489 | The decided child and the incremented epoch are the next place of the path |
| `ForeactionGraph.SCGraph.GenerateDecision` | libforeactor/core/scg_nodes.cpp:461-472 | Stores the plugin's decision when it is ready, which it must be when the application waits for it; otherwise the place is recorded as refused |
| `ForeactionGraph.SCGraph.CheckArgs` | libforeactor/syscalls/syscalls.cpp:528-553 | The frontier's visit has arguments and a stage afterwards, at least those of the actual call; other entries are as they were |
| `ForeactionGraph.SCGraph.CatchUp` | libforeactor/core/scg_nodes.cpp:208-215 | Exactly when the peekhead has fallen behind, it restarts at the frontier's successor with the frontier's edge and epoch |
| `ForeactionGraph.SCGraph.PeekBranches` | libforeactor/core/scg_nodes.cpp:248-268 | Follows decided branches and no syscall; a barrier is reported exactly at a branch for whose decision the plugin was asked in vain |
| `ForeactionGraph.SCGraph.StoreArgs` | libforeactor/syscalls/syscalls.cpp:455-498 | A visit whose arguments the plugin gave is ready, and exactly the visits of the pread node given without a destination have a buffer, each its own |
| `ForeactionGraph.SCGraph.GiveBuffer` | libforeactor/syscalls/syscalls.cpp:486-494 | A read without a destination has a buffer afterwards, any other visit gets none |
| `ForeactionGraph.SCGraph.GenerateArgs` | libforeactor/syscalls/syscalls.cpp:455-470 | The plugin gives the arguments, or the place is recorded as refused |
| `ForeactionGraph.SCGraph.PeekSyscall` | libforeactor/core/scg_nodes.cpp:285-344 | With arguments, the visit is prepared exactly if it is pure or no weak edge is recorded, and otherwise only made ready; it is skipped exactly if the plugin refuses the arguments |
| `ForeactionGraph.SCGraph.PeekNext` | libforeactor/core/scg_nodes.cpp:285-344 | The same on the path: prepared exactly if pure or no uncrossed edge between the frontier and the visit is weak |
| `ForeactionGraph.SCGraph.PeekOne` | libforeactor/core/scg_nodes.cpp:239-345 | One syscall further, or stopped, at the end of the graph, which is then recorded as hit, or at a branch whose decision the plugin refused |
| `ForeactionGraph.SCGraph.PeekAhead` | libforeactor/core/scg_nodes.cpp:203-358 | The distance stays within 0 and pre_issue_depth; peeking stops only at that depth, at the end or at a branch whose decision the plugin refused; every syscall on the way is prepared, made ready or skipped as the plugin and the edges before it say |
| `ForeactionGraph.SCGraph.DanglingLink` | libforeactor/engine/io_engine.cpp:34-40 | True exactly if the last prepared visit is linked to its successor |
| `ForeactionGraph.SCGraph.SubmitAll` | libforeactor/engine/io_uring.cpp:44-88 | The on-the-fly set grows by exactly the prepared requests, the log by exactly their executions in the order they were prepared, and their number is num_prepared |
| `ForeactionGraph.SCGraph.SubmitIfDue` | libforeactor/core/scg_nodes.cpp:360-381 | Everything prepared is submitted exactly if something is, the last prepared visit is not linked, and at least half the depth is prepared or prepared_distance is at most 0; otherwise the engine is untouched; the frontier's visit is left prepared exactly if it was and the last prepared visit is linked |
| `ForeactionGraph.SCGraph.CompleteOne` | libforeactor/engine/io_uring.cpp:90-109 | Takes any one request off the fly; the returned code is recorded as the system's answer to that request's visit |
| `ForeactionGraph.SCGraph.Execute` | libforeactor/core/scg_nodes.cpp:385-391 | Executes a call with the given arguments; the returned code is recorded as the system's answer to the visit |
| `ForeactionGraph.SCGraph.CmplAsync` | libforeactor/core/scg_nodes.cpp:146-162 | Ends, after at most as many harvests as there are requests on the fly, with this visit finished; every harvested code is stored as the answer to its own visit, and answers to visits passed are kept |
| `ForeactionGraph.SCGraph.Handle` | libforeactor/core/scg_nodes.cpp:383-412 | A visit that is not merely prepared is finished, in place or by the engine |
| `ForeactionGraph.SCGraph.PushForward` | libforeactor/core/scg_nodes.cpp:414-427 | Returns the system's answer to the frontier's own visit, moves on, and keeps the invariant of stages and buffers although the visit's buffer is given back |
| `ForeactionGraph.SCGraph.FinishIssue` | libforeactor/core/scg_nodes.cpp:360-427 | The call does not return exactly when the frontier's visit is prepared and the last prepared visit is linked, and does return whenever that one is not; the state is otherwise still sound and stranded |
| `ForeactionGraph.SCGraph.StrandedByLink` | libforeactor/core/scg_nodes.cpp:360-381 | A stranded call has a linked visit within reach of peeking |
| `ForeactionGraph.SCGraph.Issue` | libforeactor/core/scg_nodes.cpp:193-428 | Peeking ends only at its depth, at the end of the graph or at a branch the plugin cannot decide; every syscall passed on the way was refused by the plugin or is past being ready exactly if it may be pre-issued; the call returns the system's answer to its own visit |
| `ForeactionGraph.SCGraph.Intercept` | libforeactor/syscalls/posix_itf.cpp:156-171 | An intercepted call returns the system's answer to its own visit or stops at a stranded state; it always returns if no visit within reach of peeking is linked; what was peeked and handed over is as Issue states |
| `ForeactionGraph.SCGraph.Leave` | libforeactor/core/scg_graph.cpp:90-111 | Everything is as at the start again, buffers included; after leaving over a weak edge only pure calls were executed beyond the exit |
| `ForeactionGraph.SCGraph.CleanUp` | libforeactor/engine/io_uring.cpp:112-119 | Both collections are empty, after exactly as many harvests as there were requests on the fly |
| `ForeactionGraph.SCGraph.RunCalls` | libforeactor/core/scg_nodes.cpp:193-428 | A whole run on any graph: a prefix of the calls returns, call i with the system's answer to the i-th syscall of the path, which was executed exactly once, with its own arguments; the run stops early only at a stranded LINK, never without LINK flags; no request for an internal buffer is ever refused, and every pread handed over without a destination has a buffer of its own |
| `ForeactionGraph.SCGraph.ReadsAreBuffered` | libforeactor/syscalls/syscalls.cpp:486-494 | In every state, a prepared or on-the-fly pread without a destination has a buffer that no other visit has |
| `LinkLimits.Stranding` | libforeactor/core/scg_nodes.cpp:360-398 | The state reached from the start of a two-call graph by the steps of the algorithm, the first call returning any value: the frontier's visit is prepared, peeking has ended, and the last prepared visit is linked, so nothing is submitted |
| `LinkLimits.FirstCall` | libforeactor/core/scg_nodes.cpp:203-381 | The steps of the first call on that graph: the guard of each one holds, and they end with the second call prepared and its LINK dangling |
| `Looping.LoopBuilt` | demoapps/demo-cpp/demo-cpp-plg/looping_wrap.cpp:101-130 | The plugin's graph meets the condition on cycles, for all loop bounds |
| `Looping.WriteStep` | demoapps/demo-cpp/demo-cpp-plg/looping_wrap.cpp:29-47 | At write j of repetition i, e0 + e1 = i * nwrites + j: the offset is that of write j and the branch leaves after the last one |
| `Looping.TwoReads` | demoapps/demo-cpp/demo-cpp-plg/looping_wrap.cpp:49-77 | At read round j of repetition i, e0 + e2 = i * nreadsd2 + j: buffers and offsets are those of round j |
| `Looping.ReadBranch` | demoapps/demo-cpp/demo-cpp-plg/looping_wrap.cpp:83-86 | The inner branch leaves after the last read round |
| `Looping.RepeatStep` | demoapps/demo-cpp/demo-cpp-plg/looping_wrap.cpp:88-91 | The outer branch starts the next repetition, or closes after the last one |
| `Looping.ExperLooping` | demoapps/demo-cpp/demo-cpp-src/hijackees.cpp:79-96 | For any counts, the calls the nested loops issue; they are the calls on the graph's path up to its end, with equal offsets and buffers, exactly if every count is positive |
| `Looping.WhenLoopsFollow` | demoapps/demo-cpp/demo-cpp-plg/looping_wrap.cpp:101-130 | The loops follow some stretch of the graph's path from its start exactly when there is at least one repetition, one write and one read round; then they follow it to its end |
| `Looping.LoopsDiffer` | demoapps/demo-cpp/demo-cpp-plg/looping_wrap.cpp:101-130 | With a zero count the loops' calls differ from the graph's: it expects a write after opening, and a read after the first writes |
| `Looping.LoopRanked` | demoapps/demo-cpp/demo-cpp-plg/looping_wrap.cpp:119-128 | No cycle of the graph consists of branches only, so resolving branches ends |
| `Looping.LoopsAgree` | demoapps/demo-cpp/demo-cpp-plg/looping_wrap.cpp:29-98 | The arguments the plugin computes for a visit are those the loops pass in that call |
| `Looping.RunLooping` | demoapps/demo-cpp/demo-cpp-src/hijackees.cpp:79-96 | The nested loops under the library, with positive counts and any depth: every call returns the return code of its own visit and was executed exactly once, and no read is refused a buffer |
| `DequeueCounters.CircularAgrees` | libforeactor/engine/concurrent_queue.hpp:486-493 | On counters at most half the range apart the wrapped comparison compares the unwrapped values |
| `DequeueCounters.StepKeeps` | libforeactor/engine/concurrent_queue.hpp:2561-2629 | Every atomic step of producer and consumers keeps the invariant of the counters, if a compared claim is at most half the counter range ahead of the tail |
| `DequeueCounters.CompareKeeps` | libforeactor/engine/concurrent_queue.hpp:2570-2571 | A claim that holds against the tail fits below it, however stale the overcommit value is |
| `DequeueCounters.HeadBehindTail` | libforeactor/engine/concurrent_queue.hpp:1989-2013 | The head, even with all granted claims redeemed, is not beyond the tail |
| `DequeueCounters.RunIsSafe` | libforeactor/engine/concurrent_queue.hpp:2561-2629 | In every interleaving of consumers that do not sleep through half the counter range, the head never passes the tail, an index is taken only when an element is there, and no index is taken twice |
| `DequeueCounters.EveryIndexTaken` | libforeactor/engine/concurrent_queue.hpp:2571-2572 | Every index below the head was taken by a claim |
| `DequeueCounters.ShortRunsAttentive` | libforeactor/engine/concurrent_queue.hpp:2561-2572 | No run of at most 2^63 steps has such a sleeper, so all of them are safe |
| `DequeueCounters.SoloDequeue` | libforeactor/engine/concurrent_queue.hpp:2561-2572 | A dequeue that no other one interleaves with takes the oldest element exactly if there is one, and otherwise leaves no trace |
| `DequeueCounters.Quiet` | libforeactor/engine/concurrent_queue.hpp:2561-2572 | While no dequeue is going on, the optimistic count less the overcommit is the head |
| `DequeueCounters.CompareExact` | libforeactor/engine/concurrent_queue.hpp:2570-2571 | A comparison keeps the invariant exactly when it does not accept a claim beyond the tail |
| `DequeueCounters.SleeperBreaks` | libforeactor/engine/concurrent_queue.hpp:2561-2572 | The failing input: a run from the start in which a consumer sleeps through 2^63 + 1 rounds and the head then passes the tail |
| `DequeueCounters.CircularSound` | libforeactor/engine/concurrent_queue.hpp:486-493 | As long as the first counter is not more than half the range ahead, a positive answer of the wrapped comparison is right |
| `Semaphores.StepKeeps` | libforeactor/engine/concurrent_queue.hpp:4033-4121 | Every atomic step and kernel call keeps the balance of permits and the count of uncovered waiters |
| `Semaphores.GrantsBounded` | libforeactor/engine/concurrent_queue.hpp:4164-4173 | Permits not granted yet are exactly the tokens posted, the tokens owed and the positive part of the count |
| `Semaphores.CountsFit` | libforeactor/engine/concurrent_queue.hpp:4150-4173 | The count stays between minus the number of threads and the permits ever given, and tokens posted or owed by one signaller never exceed the number of threads, so the machine integers suffice below those bounds |
| `Semaphores.RunIsSafe` | libforeactor/engine/concurrent_queue.hpp:4033-4173 | In every interleaving with time-outs, waiters without a token number exactly max(0, -count), and grants never exceed initial plus signalled permits |
| `Semaphores.GaveUpWithReason` | libforeactor/engine/concurrent_queue.hpp:4033-4067 | In every run, a wait gives up only after its last step read a count that was not positive, or, after a time-out, a negative count that is still the same |
| `Semaphores.SleptWithReason` | libforeactor/engine/concurrent_queue.hpp:4044-4050 | In every run, a thread sleeps in the kernel only since it decremented a count that was not positive |
| `Semaphores.TimedOutMovesOn` | libforeactor/engine/concurrent_queue.hpp:4059-4066 | A thread that timed out never hangs: it can take its decrement back, or a token is there for it, or a signaller is about to post one |
| `Semaphores.TryAlone` | libforeactor/engine/concurrent_queue.hpp:4112-4121 | Without interference, trying gets a permit exactly if the count is positive and changes nothing otherwise |
| `BlockingQueue.QueueStepKeeps` | libforeactor/engine/concurrent_queue.hpp:4300-4322 | Every step of producers and consumers keeps items = holders + pending signals + unused permits |
| `BlockingQueue.PermitMeansItem` | libforeactor/engine/concurrent_queue.hpp:4536-4544 | A consumer with an unredeemed permit faces a non-empty inner queue |
| `BlockingQueue.QueueRunIsSafe` | libforeactor/engine/concurrent_queue.hpp:4300-4544 | In every interleaving so, and no item is lost or invented |
| `BlockIndex.ViewDoubled` | libforeactor/engine/concurrent_queue.hpp:2976-3018 | A doubled index shows the same blocks at the same distances behind its tail |
| `BlockIndex.ViewAdvance` | libforeactor/engine/concurrent_queue.hpp:2917-2925 | Using the slot after the tail shifts every other block one further back |
| `BlockIndex.ViewRewind` | libforeactor/engine/concurrent_queue.hpp:2945-2949 | Taking the tail back restores every other block's distance |
| `BlockIndex.LiveBlock` | libforeactor/engine/concurrent_queue.hpp:2958-2974 | The block of a live element is as many slots behind the tail as its number says |
| `BlockIndex.RoomExactly` | libforeactor/engine/concurrent_queue.hpp:2911-2925 | The slot after the tail is free exactly if fewer blocks are live than there are slots |
| `BlockIndex.ImplicitProducer.SlotFor` | libforeactor/engine/concurrent_queue.hpp:2958-2974 | The slot found for a live element has its block's base as key and the block that holds the element |
| `BlockIndex.ImplicitProducer.DoubleIndex` | libforeactor/engine/concurrent_queue.hpp:2976-3018 | The old slots, oldest first, and as many unused ones |
| `BlockIndex.ImplicitProducer.MakeRoom` | libforeactor/engine/concurrent_queue.hpp:2911-2943 | The slot after the tail belongs to no live block; the index is doubled exactly if all its slots are in use; fails exactly if that needs memory and there is none |
| `BlockIndex.ImplicitProducer.Enqueue` | libforeactor/engine/concurrent_queue.hpp:2497-2558 | The element is appended; fails exactly if a new block is needed and there is no memory for it, or for a larger index when all slots are in use, and leaves the queue as it was |
| `BlockIndex.ImplicitProducer.Dequeue` | libforeactor/engine/concurrent_queue.hpp:2561-2629 | The oldest element is taken, false exactly for an empty queue, as decided by the optimistic count less the overcommit; with one consumer no claim is given back |
| `ThreadPools.StepKeeps` | libforeactor/engine/thread_pool.cpp:80-213 | Every step of workers and application keeps: each request on the fly is in exactly one place, and nothing else is anywhere |
| `ThreadPools.StartInv` | libforeactor/engine/thread_pool.cpp:106-137 | A new pool, with all workers waiting, satisfies the invariant |
| `ThreadPools.RunIsSafe` | libforeactor/engine/thread_pool.cpp:80-213 | In every run from the start, with any steps in any order: each request on the fly is in exactly one place, every completion is expected, nothing is submitted twice, and with nothing on the fly nothing is left |
| `ThreadPools.CompletionOrigin` | libforeactor/engine/thread_pool.cpp:93-101 | In every run, a completion carries the return code with which a worker finished this very request since it was last submitted |
| `ThreadPools.HarvestDelivers` | libforeactor/engine/thread_pool.cpp:191-203 | So a harvest gives back a request that was on the fly, with its own worker's return code |
| `ThreadPools.SubmittedInOrder` | libforeactor/engine/thread_pool.cpp:152-189 | Requests are submitted in the order in which they were prepared, and none is left out |
| `ThreadPools.CleanedUp` | libforeactor/engine/thread_pool.cpp:206-213 | After discarding and harvesting until nothing is on the fly, the pool is as at the start, after exactly as many harvests as there were requests |
| `ThreadPools.RunProgresses` | libforeactor/engine/thread_pool.cpp:80-103 | In every run with a worker, while requests are on the fly some step brings them closer to their harvest |
| `ThreadPools.HarvestIsExpected` | libforeactor/engine/thread_pool.cpp:191-203 | A harvested completion is always one of a request on the fly |
| `ThreadPools.NothingLeft` | libforeactor/engine/thread_pool.cpp:206-213 | With nothing on the fly, no queue and no worker has anything left |
| `ThreadPools.StepExists` | libforeactor/engine/thread_pool.cpp:80-103 | While requests are on the fly some step brings them closer to their harvest |
| `ThreadPools.HarvestsBounded` | libforeactor/engine/thread_pool.cpp:206-213 | From any state of a run on, while nothing is submitted, harvests and requests on the fly add up to a constant, so cleaning up ends within that many harvests |
| `EntryIds.RoundTrip` | libforeactor/engine/io_engine.cpp:13-30 | Decoding undoes encoding exactly for addresses below 2^48 and sums below 2^16 |
| `EntryIds.RoundTripBack` | libforeactor/engine/io_engine.cpp:25-30 | Encoding undoes decoding for every identifier |
| `EntryIds.Distinct` | libforeactor/engine/io_engine.cpp:13-23 | Different requests have different identifiers |
| `EntryIds.NotTermination` | libforeactor/engine/thread_pool.cpp:89-91 | No request on a node with a user-space address has the termination identifier |
| `PreadBuffers.BufferPool.constructor` | libforeactor/syscalls/syscalls.cpp:361-372 | pre_issue_depth + 1 buffers, all free and unreferenced |
| `PreadBuffers.BufferPool.AssignBuf` | libforeactor/syscalls/syscalls.cpp:486-494 | The visit has a buffer of its own afterwards; fails exactly if it had none and none is free |
| `PreadBuffers.BufferPool.RemoveOneEpoch` | libforeactor/syscalls/syscalls.cpp:500-516 | The visit's buffer is free again unless the plugin refers to it |
| `PreadBuffers.BufferPool.RefInternalBuf` | libforeactor/syscalls/syscalls.cpp:555-562 | One reference more to the visit's buffer, if it has one |
| `PreadBuffers.BufferPool.PutInternalBuf` | libforeactor/syscalls/syscalls.cpp:564-572 | The visit's buffer has one reference less; exactly the visit whose last reference this was loses its buffer, all others keep theirs |
| `PreadBuffers.SharedBuffer` | libforeactor/syscalls/syscalls.cpp:564-572 | The failing input: a visit that is still going on loses its buffer with the plugin's only reference, and another visit gets the same buffer |
| `PreadBuffers.KeptReference` | libforeactor/syscalls/syscalls.cpp:486-516 | The failing input with references: one that outlives its visit leaves no buffer for the next visit |
| `PreadBuffers.BufferPool.Reset` | libforeactor/syscalls/syscalls.cpp:518-526 | All buffers are free |
| `PreadBuffers.NeverDry` | libforeactor/syscalls/syscalls.cpp:486-494 | In every state that SCGraph keeps, without references held by the plugin, there is a free buffer whenever peeking asks for one |
| `PreadBuffers.AssignFor` | libforeactor/syscalls/syscalls.cpp:486-494 | With a free buffer, which `NeverDry` gives, a visit that asks gets one and no other visit loses its own: the assertion on the number of free buffers holds |
| `PreadBuffers.OwnBuffers` | libforeactor/syscalls/syscalls.cpp:486-494 | Each visit that asked has a buffer, and no two have the same |

## Left out

- Actual system calls, io_uring calls and symbol interception: a call is an entry in a log and an arbitrary return code.
- Failing page reads and writes, page magic numbers and file-size checks of the pager, and reopening the file with other flags.
- `BPTree::Delete`, which is not implemented, and the statistics and printing functions.
- Weak memory orders: every atomic access is one sequentially consistent step.
- Bulk operations, producer and consumer tokens, the explicit producer, the free list and the producer hash table of the queue.
- Index wrap-around in the block index; the counters' wrap-around is covered by `CircularAgrees`.
- Overflow of the 32-bit epoch counters; entry identifiers are covered up to sums of 2^16 - 1.
- Syscall nodes other than a generic one and the buffers of pread: open, close, stat and getdents repeat the pattern; copying a result from an internal buffer to its destination is not modelled.
- Whether a plugin's readiness rules make reordering harmless: the plugin's answers are taken to agree with the actual calls.
- The skipped-node bookkeeping of the peek loop, which is commented out in the source.
- Pausing and resuming a graph, and nested entry of different graphs.
- Worker shutdown by termination entries, beyond their identifier being different from every request's.
- DequeueCounters.StepKeeps: says nothing about a claim compared from more than half the 64-bit counter range ahead of the tail, because the property then fails; `CompareExact` has the exact condition and `SleeperBreaks` a failing run.
- Semaphores.StepKeeps: counts are unbounded integers; `CountsFit` bounds them by the number of threads and of permits.
- Looping.RunLooping: covers positive counts only, because otherwise the graph does not follow the loops; the plugin's division by a zero count is taken to give 0.
- The internal buffers in a run are those of one node, any one of the graph, without references from the plugin; which buffer a visit gets does not influence its result.
