# A verified model of cash's hard parts

cash caches notebook statements. This project models, in Dafny, the parts of it whose correctness is
not visible from one function at a time, and proves what they promise:

- **Nested plain data** (`src/cash/_plain_data.py`). Lists, tuples and dicts are copied, keyed, sized,
  searched and change-checked one *level* at a time over flattened lists, with reference counts and
  object identities standing in for a recursive walk. Objects are a heap of ids (`PlainHeap`), so one
  object can be held in many places and values can be cyclic. Each fast form is proved against its
  recursive or naive counterpart, over trees of any shape.
- **Byte-capacity cache policies** (`benchmarks/eviction_sim/policies.py`). Each policy is its hook state
  with an invariant (`RecencyPolicy`, `CrumbPolicy`, `SlruPolicy`, `ArcPolicy`, `LfuPolicy`, `GdsfPolicy`,
  `CostLruPolicy`, `SampledPolicy`, `SievePolicy`, `RripPolicy`), `PolicyHooks` puts them behind the base
  class's hooks, and `Policies.Policy` is the base class, whose accounting holds over every run.
- **The tree digest** (`src/cash/bulk_digest.py`): streamed and one-shot hashing agree for every cutting
  of the data and every thread schedule.
- **Steps of several parties**: the live-cell protocol between notebook page and kernel
  (`labextension/src/index.ts`, `src/cash/notebook/live_cells.py`), the lock-free memo
  (`src/cash/_memo.py`) and the CPU limit (`src/cash/_clock.py`).
- **Lineage keys** (`benchmarks/eviction_sim/workload.py`) and **least-squares fits**
  (`benchmarks/fit_cost_model.py`), the latter over the reals.

Outside inputs are parameters: reference counts, `sys.getsizeof`, encoders and the hash of lineage keys
(each telling its inputs apart), the digest functions (of fixed length: two data with one digest hold a
collision of them), clock readings, random draws (nondeterministic choices), which keys `_DeadFirst`
judges dead, where a send throws, and the order in which threads and messages move.

## Where the code does less than it says

- `sharing` promises the list of every container met twice. It loses a repeat when the one slot that
  holds a container is itself met on two levels: for `x = [[1]]`, `[x, [x]]` the inner list is met twice
  and not listed (`Sharing.RepeatIsLost`). `Sharing.FilterIsExact` gives the exact condition: the
  list is complete if and only if every container met twice has a second reference from elsewhere or is
  met twice on the first level it is met on.
- `spine_copy` promises to give up when a list or dict of the value was copied for another name. It asks
  only what is counted over its base, and of that only lists and dicts: for `t = ([1],)`, after a copy of
  `[t]` another `[t]` is copied with a second copy of the list (`CopyMemo.TupleHides`,
  `SpineCopy.CopiedTwice`). `CopyMemo.MemoPromise` gives the exact condition: the promise fails if and only if
  the copied parts of the value begin with a tuple over a copied list or dict, and none of their
  beginnings is a list or dict or has a copied list or dict below it that is counted over its base.
- `identity_changed` promises to see a change. It compares flattened levels, so `[[1, 2], [3]]` becoming
  `[[1], [2, 3]]` is not seen (`Identity.MovedBoundary`). `Identity.AnswerIs`: a False means no list
  changed if and only if no list's length did.
- The live-cell flush promises each execution its own snapshot. Two runs flushed before the first
  request leaves share one (`LiveCells.SecondRunFallsBack`), and a flush that throws leaves an older
  push to be served (`LiveCells.FailedFlushIsStale`). What was sent last when a request leaves decides
  both: call it `last`, the latest push if no open and no request that is not silent went out since,
  and none otherwise. `LiveCells.RunFinds`: an execution is served older text than its own if and only
  if `last` is a push made before the run was scheduled, on a comm the kernel has accepted.
  `LiveCells.RunIsNotStale`: a run whose flush came in on an accepted comm is served something if and
  only if `last` is a push, and then that push, never older than the run.

## Model

| member | source | states |
|---|---|---|
| PlainHeap.TreeWalk | src/cash/_plain_data.py:1300-1336 | the level walk returns the levels of a value exactly when it is JSON-like over the leaves and no deeper than the limit, so a cycle is refused |
| PlainHeap.WalkUnique | src/cash/_plain_data.py:1300-1336 | a value has one walk |
| PlainHeap.ChainReach | src/cash/_plain_data.py:1300-1336 | the levels of a walk are exactly what is reachable, step by step |
| SpineCheck.MetTwiceIsOver | src/cash/_plain_data.py:1412-1423 | a list or dict met twice has a reference count over the threshold, whenever counts are at least the number of holders |
| SpineCheck.HeldTwice | src/cash/_plain_data.py:1412-1423 | the test in front of the copy, where the counts cover the holders: no list or dict is met twice, and none that is the top or counted over its base is in the memo |
| SpineRebuild.CopyOne | src/cash/_plain_data.py:1447-1463 | one container's copy holds the copies of what it holds; a tuple is shared exactly when nothing below it was copied |
| SpineRebuild.CopyEach | src/cash/_plain_data.py:1430-1446 | a level over shared items is rebuilt so that exactly its lists and dicts are new |
| SpineRebuild.CopySlices | src/cash/_plain_data.py:1447-1463 | cutting the new flat list by lengths gives each container its own items' copies |
| SpineRebuild.PutAt | src/cash/_plain_data.py:1472-1477 | putting the rebuilt containers among the leaves is mapping the flat list |
| SpineCopy.SameUnfold | src/cash/_plain_data.py:1424-1477 | a container and its copy hold the same values to every depth |
| SpineCopy.SameWalk | src/cash/_plain_data.py:1424-1477 | the copy's levels are the original's, mapped |
| SpineCopy.CopyIsSeparate | src/cash/_plain_data.py:1424-1477 | no list or dict reachable from the copy existed before |
| SpineCopy.CopyIsOnce | src/cash/_plain_data.py:1424-1477 | in the copy, too, nothing writable is met twice |
| SpineCopy.FrozenLevels | src/cash/_plain_data.py:1402-1425 | a level is shared as it is exactly when it and all below it are tuples over tuples and immutables |
| SpineCopy.Copy | src/cash/_plain_data.py:1206-1239 | a copy if and only if the value is plain, no list or dict is met twice and none that is the top or counted over its base is in the memo; whatever the memo, the copy is deep-equal and separate and the memo has every new list and dict and nothing else new; a list or dict already in the memo is copied again exactly when it is hidden; otherwise nothing changes |
| CopyMemo.EntryIsSuspect | src/cash/_plain_data.py:1412-1423 | where a copied part of the value begins, its container has two holders and is counted over its base |
| CopyMemo.MemoPromise | src/cash/_plain_data.py:1228-1232 | when what was copied is still held and the counts are at least the slots and names: a list or dict copied before is passed over exactly when copied parts begin with a tuple over one and no beginning is, or has below it, a copied list or dict that is counted over its base |
| CopyMemo.TupleHides | src/cash/_plain_data.py:1421-1423 | `t = ([1],); a = [t]; b = [t]`: after `a` is copied the tuple hides its list |
| SpineCopy.StillKept | src/cash/_plain_data.py:1426-1463 | what a copy adds to the memo is held by the value's name or by something else it added |
| SpineCopy.CopiedTwice | src/cash/_plain_data.py:1206-1239 | with one memo, copying `a` and then `b` makes two copies of that list |
| CopyPlans.Wrap | src/cash/_plain_data.py:1280-1297 | a new container of good copies is a good copy |
| CopyPlans.ImmutableReach | src/cash/_plain_data.py:1105-1115 | below an immutable level there is nothing to write into |
| CopyPlans.OncePart | src/cash/_plain_data.py:1252-1277 | what a value met once holds is met once too, so a plan may copy it part by part |
| CopyPlans.PlanGrows | src/cash/_plain_data.py:1252-1277 | the plan of a stored value does not change while others are copied |
| CopyPlans.CopyRows | src/cash/_plain_data.py:1295-1296 | a new list of new dicts is a good copy of rows of leaves |
| CopyPlans.CopySpine | src/cash/_plain_data.py:1297-1297 | a part copied by spine copy is a good copy |
| CopyPlans.CopyByPlan | src/cash/_plain_data.py:1280-1297 | following the plan always succeeds on a value met once, with the equality and separation of spine copy |
| LevelKey.LevelReadBack | src/cash/_plain_data.py:854-867 | the framed parts of a level determine its types, lengths, numbers and leaves, and where the next level's parts begin |
| LevelKey.Regroup | src/cash/_plain_data.py:859-861 | lengths and the flattened items determine the sequences |
| LevelKey.Reassemble | src/cash/_plain_data.py:854-867 | types, sequences, numbers and leaves determine a level |
| LevelKey.PartsInjective | src/cash/_plain_data.py:842-868 | the parts of all levels determine the whole tree |
| LevelKey.KeyInjective | src/cash/_plain_data.py:842-868 | values with one key are one value, given encoders that tell their inputs apart |
| PlainCodec.PlainTellsApart | src/cash/_plain_data.py:854-867 | encoders that tell their inputs apart exist |
| LevelKey.LevelKeyBytes | src/cash/_plain_data.py:842-868 | the loop over the levels writes the key the recursive definition gives, or refuses as it does |
| ByteFraming.FramedInjective | src/cash/_plain_data.py:868-868 | parts behind 8-byte lengths can be read back from their concatenation |
| TreePaths.BisectOwner | src/cash/_plain_data.py:396-416 | the right bisection of the running counts is the container that holds a flat position, past any empty ones |
| TreePaths.BisectRight | src/cash/_plain_data.py:408-408 | everything before the result is at most x, everything after is greater |
| TreePaths.Ends | src/cash/_plain_data.py:405-406 | the running item counts of a level |
| TreePaths.PathLeads | src/cash/_plain_data.py:396-416 | the path of a place leads from the value to the container there |
| TreePaths.PathFound | src/cash/_plain_data.py:374-393 | every path to a container is the path of a place in the walk |
| TreePaths.PathsDiffer | src/cash/_plain_data.py:396-416 | no two places of a level have the same path |
| TreePaths.PathTo | src/cash/_plain_data.py:396-416 | climbing by running counts gives the path of the place, whatever counts were filled in before |
| TreePaths.PositionsAre | src/cash/_plain_data.py:343-371 | the positions of a level's containers in the flat list of the level above |
| TreePaths.SearchLevel | src/cash/_plain_data.py:386-390 | the wanted containers of a level are listed in order, behind what was found above |
| TreePaths.ListingExact | src/cash/_plain_data.py:374-393 | the listing for a container is every path that leads to it, each once |
| TreePaths.TreePaths | src/cash/_plain_data.py:374-393 | for each wanted container exactly the paths that lead to it, none twice; None exactly when the value is not an exact list or dict of plain data |
| Sharing.OverIs | src/cash/_plain_data.py:196-204 | an item is looked at exactly when something besides its slot and the caller's own list refers to it, or it is on the level twice, or it was noted or met above |
| Sharing.FilteredTallies | src/cash/_plain_data.py:204-211 | looked at n times, an item has one first place and n - 1 repeats |
| Sharing.CaughtLooked | src/cash/_plain_data.py:200-211 | an item caught on its first level is looked at wherever it is met |
| Sharing.UncaughtMissed | src/cash/_plain_data.py:200-211 | an item not caught on its first level is passed over there |
| Sharing.FilterIsExact | src/cash/_plain_data.py:164-214 | the repeats are the naive list exactly when every container met twice is caught |
| Sharing.CaughtFirst | src/cash/_plain_data.py:204-211 | a caught item is in the shared table under the first place it is met at |
| Sharing.Share | src/cash/_plain_data.py:164-214 | None exactly for what is not plain; else exact repeats if and only if every container met twice is caught, every caught item, and so every one held by more than its slot, is in the table at its first place, and the flag says whether a numpy number is among the leaves |
| Sharing.RepeatIsLost | src/cash/_plain_data.py:164-214 | a value, with the references there are to its objects, whose second meeting of a list is not listed |
| TreeFacts.LevelOrderIsRecursive | src/cash/_plain_data.py:703-762 | totals taken level by level are the recursive totals |
| TreeFacts.DeeperSame | src/cash/_plain_data.py:721-722 | allowing more depth changes nothing for a tree that fits |
| TreeFacts.Splice | src/cash/_plain_data.py:704-720 | taking known parts whole keeps the total, and a part known to be no tree means there is none |
| TreeFacts.BelowIsRecursive | src/cash/_plain_data.py:703-762 | the recursive total the other claims are about exists |
| TreeFacts.Walk | src/cash/_plain_data.py:681-763 | with or without known parts the facts are the recursive ones; whatever the full walk finds is found; a held-once of True means, where reference counts count the holders, that every container below the top is met once and has one reference, its parent's; without known parts a False means that some has not |
| Holders.NotOver | src/cash/_plain_data.py:754-762 | a count is within the threshold of its level exactly when the container has one reference, is on the level once and is held no further by the walk |
| Holders.OneLevel | src/cash/_plain_data.py:754-762 | with one reference each, no container is met on two levels of a tree that ends |
| Holders.HeldOnceIs | src/cash/_plain_data.py:754-762 | no level's counts are over exactly when every container below the top is met in one place and has one reference |
| Holders.NobodyElse | src/cash/_plain_data.py:476-480 | and then no container anywhere but its parent holds it, which holds it in one slot |
| Holders.SlotsCover | src/cash/_plain_data.py:754-762 | the slots of all containers of a heap, and any references besides, are counts such a claim can be made about |
| TreeFacts.SplicedAgrees | src/cash/_plain_data.py:681-763 | for a tree within the limit the facts with known parts are those of the full walk |
| Identity.TakeSnapshot | src/cash/_plain_data.py:963-989 | None exactly for what is not plain or holds a bytearray; else the items of each level some list holds |
| Identity.Changed | src/cash/_plain_data.py:992-1012 | False exactly when every level the snapshot has holds the same objects in the same order |
| Identity.SplitSame | src/cash/_plain_data.py:1006-1009 | equal flat lists from containers of equal lengths are split the same way |
| Identity.AnswerIs | src/cash/_plain_data.py:963-1012 | False whenever no reachable list changed; and a False means none changed exactly when no list's length did |
| Identity.FalseIsEqual | src/cash/_plain_data.py:992-1012 | False with unchanged lengths: the value is deep-equal to what it was |
| Identity.MovedBoundary | src/cash/_plain_data.py:1006-1009 | `[[1, 2], [3]]` becoming `[[1], [2, 3]]`, plain before and after: False, though lists and their lengths changed |
| PolicyBase.SumDrop | benchmarks/eviction_sim/policies.py:85-88 | dropping a key lowers the total by its size |
| RecencyPolicy.UseKeepsOrder | benchmarks/eviction_sim/policies.py:101-108 | the recency list is the order of last use through hits, inserts and removals; in a FIFO, of storing |
| RecencyPolicy.VictimIsLeastRecent | benchmarks/eviction_sim/policies.py:110-114 | the victim was used longest ago, the protected key aside |
| RecencyPolicy.RemoveKeeps | benchmarks/eviction_sim/policies.py:94-114 | the recency list holds the stored keys, each once, after a removal |
| CrumbPolicy.HitKeeps | benchmarks/eviction_sim/policies.py:136-140 | a hit keeps the two queues apart by size and the crumb bytes right |
| CrumbPolicy.InsertKeeps | benchmarks/eviction_sim/policies.py:142-145 | so does an insert |
| CrumbPolicy.RemoveKeeps | benchmarks/eviction_sim/policies.py:147-160 | so does a removal, with the size noted before it is popped |
| CrumbPolicy.CrumbsFirst | benchmarks/eviction_sim/policies.py:165-178 | crumbs go first exactly while they alone can close the gap |
| SlruPolicy.OnHit | benchmarks/eviction_sim/policies.py:272-282 | the loop is the recursive demotion; the segments partition the stored keys, the protected total is its sum, and after a promotion it is within its share or holds one key |
| SlruPolicy.RemoveKeeps | benchmarks/eviction_sim/policies.py:287-297 | both removal orders end in the same state with the total right |
| ArcPolicy.HitKeeps | benchmarks/eviction_sim/policies.py:321-327 | a hit keeps the live lists a partition and their bytes right |
| ArcPolicy.MissKeeps | benchmarks/eviction_sim/policies.py:329-335 | the target moves towards the list whose ghost was hit and stays in [0, cap] |
| ArcPolicy.InsertKeeps | benchmarks/eviction_sim/policies.py:337-351 | an inserted key is no ghost any more, and the ghost bytes stay right |
| ArcPolicy.Trim | benchmarks/eviction_sim/policies.py:369-372 | only the oldest ghosts of a list go, until it fits the cap and no further, and its bytes stay its sum |
| ArcPolicy.EvictedOk | benchmarks/eviction_sim/policies.py:359-368 | correcting the live bytes before the size is popped keeps them right, and the new ghost is no live key |
| ArcPolicy.OnDrop | benchmarks/eviction_sim/policies.py:359-372 | an evicted key becomes a ghost; ghosts stay disjoint from live keys, within the cap and summed right |
| StaleHeap.PopMin | benchmarks/eviction_sim/policies.py:245-245 | a heap pop takes a minimal entry and nothing else |
| StaleHeap.PopVictim | benchmarks/eviction_sim/policies.py:242-256 | stale entries are thrown away, no current entry is lost, and the entry taken is minimal among the current ones of other keys; None only when there is none |
| LfuPolicy.Victim | benchmarks/eviction_sim/policies.py:242-256 | a stored key used least often, then least recently; None only when there is no other key |
| LfuPolicy.HitKeeps | benchmarks/eviction_sim/policies.py:228-231 | every stored key has its current entry in the heap after a hit |
| LfuPolicy.RemoveKeeps | benchmarks/eviction_sim/policies.py:238-240 | and after a removal, also of a victim whose entry was popped |
| GdsfPolicy.Victim | benchmarks/eviction_sim/policies.py:622-637 | a stored key of minimal priority, which becomes the clock; None only when there is no other key |
| GdsfPolicy.InsertKeeps | benchmarks/eviction_sim/policies.py:600-615 | every stored key has an entry with its priority after an insert |
| GdsfPolicy.TouchKeeps | benchmarks/eviction_sim/policies.py:654-659 | and after a touch |
| CostLruPolicy.Victim | benchmarks/eviction_sim/policies.py:745-759 | a stored key of lowest rank; None only when there is no other key |
| CostLruPolicy.RemoveKeeps | benchmarks/eviction_sim/policies.py:740-743 | every stored key has an entry with its rank after a removal |
| SampledPolicy.RemoveKeeps | benchmarks/eviction_sim/policies.py:684-691 | the dense key list and its positions stay each other's inverse when the last key fills the gap |
| SampledPolicy.Victim | benchmarks/eviction_sim/policies.py:693-700 | the lowest of the keys drawn, or another key when none was eligible; the clock never falls |
| SievePolicy.Scan | benchmarks/eviction_sim/policies.py:501-514 | 2n + 2 steps of the hand find a candidate whenever the queue has one, from any hand position; marks are cleared where the hand has been and nowhere else |
| SievePolicy.Victim | benchmarks/eviction_sim/policies.py:492-514 | None only when no other key is stored, with any stale or repeated queue entries; a marked key goes only if all candidates were marked, when no key is queued twice |
| RripPolicy.AgeUntilDistant | benchmarks/eviction_sim/policies.py:571-576 | the aging loop ends, all candidates age alike, and none passes the maximum |
| RripPolicy.Victim | benchmarks/eviction_sim/policies.py:567-576 | the oldest candidate of the highest value; values stay within 0..3 and keep their relative order |
| RripPolicy.InsertKeeps | benchmarks/eviction_sim/policies.py:541-562 | a new key's value is in range, whichever way the coin and the duel fall |
| PolicyHooks.StartAgrees | benchmarks/eviction_sim/policies.py:31-37 | every policy starts in agreement with no stored sizes |
| PolicyHooks.OnHit | benchmarks/eviction_sim/policies.py:40-44 | every policy's hit hook keeps its state in agreement with the stored sizes |
| PolicyHooks.OnInsert | benchmarks/eviction_sim/policies.py:51-54 | and its insert hook |
| PolicyHooks.OnRemove | benchmarks/eviction_sim/policies.py:60-64 | and its removal hook, run while the size is still stored |
| PolicyHooks.OnDrop | benchmarks/eviction_sim/policies.py:85-88 | and the eviction order, run after the size is popped |
| PolicyHooks.Victim | benchmarks/eviction_sim/policies.py:801-807 | every policy's victim is a stored key other than the protected one, and the one its rule names: first in its lists, of the lowest count, priority or rank, the oldest of the highest value; None only when there is none; with dead keys, a live one goes only when no dead one is left |
| PolicyHooks.Touch | benchmarks/eviction_sim/policies.py:654-659 | touches keep every entry ranked, and re-base exactly the stored keys named |
| Policies.Policy.Access | benchmarks/eviction_sim/policies.py:40-46 | a hit exactly when the key is stored; nothing stored changes |
| Policies.Policy.EvictToFit | benchmarks/eviction_sim/policies.py:78-83 | the bytes fit afterwards, the protected key stays, sizes are unchanged, and the last victim was needed; a recency list loses only its oldest keys |
| Policies.Policy.EvictToTarget | benchmarks/eviction_sim/policies.py:162-180 | down to the low watermark or to the protected key alone, and not a victim further |
| Policies.Policy.EvictOldest | benchmarks/eviction_sim/policies.py:199-204 | oldest first down to 90% of the cap, the new entry last of all |
| Policies.Policy.Insert | benchmarks/eviction_sim/policies.py:48-55 | a refused entry changes nothing; otherwise it is written, what fits evicts nothing, each eviction is counted and logged, and the bytes in use stay within the cap; by recency, what goes was used before all that stays |
| Policies.Policy.Remove | benchmarks/eviction_sim/policies.py:60-64 | exactly the key goes, and it is no eviction |
| Policies.Policy.ClearAll | benchmarks/eviction_sim/policies.py:66-68 | nothing is stored and no byte in use |
| Policies.Run | benchmarks/eviction_sim/policies.py:28-88 | in every run of every policy, after each operation the bytes in use are the sum of the stored sizes and within the cap; each insert leaves what was stored and the new entry but for its logged evictions, and every key evicted is the one the policy's rule names in the state it was evicted from; in every run of LRU, CashRAM and FIFO each insert evicts the keys used (in a FIFO: stored) longest ago, by the operations of the run so far |
| BulkDigest.Bounds | src/cash/bulk_digest.py:127-127 | the thread bounds run from 0 to the count without a step back |
| BulkDigest.RunWorkers | src/cash/bulk_digest.py:111-142 | under every schedule of the workers each leaf slot is written exactly once, with its own digest |
| BulkDigest.LeafDigests | src/cash/bulk_digest.py:111-142 | the digests of the whole leaves in order, for every thread count |
| BulkDigest.BulkHasher.Update | src/cash/bulk_digest.py:167-186 | the hasher stands for the concatenation of what it was given |
| BulkDigest.BulkHasher.DigestNow | src/cash/bulk_digest.py:188-194 | the digest of that concatenation |
| BulkDigest.BulkDigestOf | src/cash/bulk_digest.py:200-212 | the one-shot digest of the data |
| BulkDigest.StreamAgrees | src/cash/bulk_digest.py:152-212 | for every cutting and every thread counts, streamed and one-shot digests agree |
| BulkDigest.PreimageInjective | src/cash/bulk_digest.py:188-194 | distinct data have distinct root preimages, or two different leaves in one place of theirs have one leaf hash |
| BulkDigest.DigestInjective | src/cash/bulk_digest.py:188-194 | distinct data have distinct digests, or their leaves or root preimages are a collision of the hash |
| BulkDigest.FoldBuffer | src/cash/bulk_digest.py:215-230 | a buffer is fed behind its kind and length, as it is or as its digest |
| BulkDigest.FeedInjective | src/cash/bulk_digest.py:215-230 | the bytes any sequence of calls feeds determine the buffers, or two buffers fed as digests in one place are a collision of the hash |
| LiveCells.SendKeeps | labextension/src/index.ts:73-131 | a send, with or without an open or a failure, keeps the order of the channel and the counters of the page |
| LiveCells.KernelKeeps | src/cash/notebook/live_cells.py:61-78 | no push on an accepted comm is ever dropped as old, through reloads and new comms: it is in the store once the kernel has come to it |
| LiveCells.CloseKeeps | labextension/src/index.ts:113-117 | the identity check: a close leaves every comm but its own, and any accepted one |
| LiveCells.ApplyKeeps | labextension/src/index.ts:53-156 | every step of page and kernel keeps the protocol's invariant |
| LiveCells.RunFinds | src/cash/notebook/live_cells.py:81-88 | in every run, what any execution finds: the push sent last before its request with no open and no non-silent request between, if its comm is accepted, and nothing otherwise; so older text than its own exactly when that push was made before the run was scheduled |
| LiveCells.RunIsNotStale | labextension/src/index.ts:148-156 | in every run, a request whose flush came in on an accepted comm finds something exactly when no open and no other non-silent request was sent since the last push, and then that push, no older than its own snapshot |
| LiveCells.EditThenRun | labextension/README.md:57-88 | once cash is imported, a run scheduled over a comm that is missing or not refused is flushed in time, and finds what the request's last push says, whatever happens short of a restart |
| LiveCells.LateCloseIsHarmless | labextension/src/index.ts:110-117 | in every run, a late close never evicts a successor |
| LiveCells.ServedOnce | src/cash/notebook/live_cells.py:91-136 | in every run, a push that served an execution that is not silent serves no later execution, through reloads and kernel restarts |
| LiveCells.SecondRunFallsBack | src/cash/notebook/live_cells.py:91-136 | two runs flushed before the first request: the second finds nothing |
| LiveCells.FailedFlushIsStale | labextension/src/index.ts:123-130 | a flush that throws leaves an older push to be served |
| LiveCells.Session.SendSnapshot | labextension/src/index.ts:73-131 | the handler's early returns, open, counter, push and catch |
| LiveCells.Session.ExecutionScheduled | labextension/src/index.ts:151-156 | the flush is sent when the run is scheduled, with the snapshot of that moment |
| LiveCells.Session.TimerFired | labextension/src/index.ts:133-138 | a debounced push never opens a comm |
| LiveCells.Session.Receives | src/cash/notebook/live_cells.py:211-246 | the kernel's side of a message, and what an execution then finds |
| LiveCells.Session.Closed | labextension/src/index.ts:113-117 | the close handler |
| Lineage.KeysAreLineage | benchmarks/eviction_sim/workload.py:136-142 | keys are equal exactly for one statement with the same versions of it and all transitive inputs |
| Lineage.EditChangesDependents | benchmarks/eviction_sim/workload.py:296-302 | an edit changes exactly the keys of the statement and its transitive dependents |
| Lineage.UndoRestores | benchmarks/eviction_sim/workload.py:296-298 | undoing one statement's edit, whatever else was edited meanwhile, brings a key back exactly when no other transitive input differs |
| Lineage.FreshEditFreshKeys | benchmarks/eviction_sim/workload.py:299-301 | a fresh edit gives every dependent a key it never had |
| Lineage.SameKeySameResult | benchmarks/eviction_sim/workload.py:136-142 | caching by key is sound: under one key a statement computes one result |
| Lineage.Project.KeyOf | benchmarks/eviction_sim/workload.py:136-142 | the memoised key is the recursive one, and every memo entry stays so |
| Lineage.Project.Edit | benchmarks/eviction_sim/workload.py:299-302 | a version the statement never had; the memo is right again after the invalidation |
| Lineage.Project.Undo | benchmarks/eviction_sim/workload.py:296-302 | back to the version before |
| Lineage.Run | benchmarks/eviction_sim/workload.py:133-142 | in every run of edits, undos and questions, each key answered from the memo is the recursive key of the versions at that moment |
| Lineage.EditThenUndo | benchmarks/eviction_sim/workload.py:296-302 | every key is back after an edit and its undo |
| LruMemos.SharedMemo | src/cash/_memo.py:51-109 | under every interleaving no KeyError leaves a call, a call returns its default or a value once set for its key, the size is over by at most the threads in their trim loop, and within bounds at rest |
| LruMemos.ExecuteKeeps | src/cash/_memo.py:66-109 | each atomic dict operation, with the handler around it or none, keeps that |
| LruMemos.EachGuardIsNeeded | src/cash/_memo.py:66-89 | with any one of the try blocks gone, a run of two threads lets a KeyError out |
| LruMemos.GuardsAreExact | src/cash/_memo.py:66-89 | no KeyError leaves a call in any run exactly when every try block is there |
| LruMemos.LruMemo.Get | src/cash/_memo.py:66-76 | reading marks an entry used and changes nothing else |
| LruMemos.LruMemo.SetItem | src/cash/_memo.py:78-89 | alone, a memo that is full drops the entry used longest ago, and only for a new key |
| LruMemos.Make | src/cash/_memo.py:60-64 | a size below 1 is refused |
| CpuLimits.NotSpentBefore | src/cash/_clock.py:91-94 | what is left by the CPU clock cannot be spent before as much wall time is gone |
| CpuLimits.CpuLimit.Passed | src/cash/_clock.py:83-95 | False on the own thread: no more than the limit is spent as of the wall reading; the deadline only moves forward and never past the hard end; after that always True |
| CpuLimits.Ask | src/cash/_clock.py:48-95 | the same for every run of readings |
| FitCost.NormalIsBest | benchmarks/fit_cost_model.py:48-87 | a line that solves the normal equations minimises the weighted squared error over all lines |
| FitCost.DenominatorIs | benchmarks/fit_cost_model.py:67-68 | Cauchy-Schwarz with its equality case: the denominator is zero exactly when all x are equal |
| FitCost.ClosedFormIsNormal | benchmarks/fit_cost_model.py:70-71 | the closed form solves the normal equations |
| FitCost.RelativeMiss | benchmarks/fit_cost_model.py:61-61 | the weight makes a squared error the squared relative error |
| FitCost.SlopeIsBest | benchmarks/fit_cost_model.py:72-76 | the slope refitted through the lowest cost is the best through it |
| FitCost.FallbackIsMean | benchmarks/fit_cost_model.py:68-69 | with all x equal the fit is the mean cost, flat and positive |
| FitCost.MedianPositive | benchmarks/fit_cost_model.py:77-82 | the median the second clamp falls back on is positive |
| FitCost.LinearIsBest | benchmarks/fit_cost_model.py:102-121 | the ordinary fit minimises the squared error when x differ, with r squared in [0, 1] |
| FitCost.FitRelative | benchmarks/fit_cost_model.py:48-87 | for positive costs neither coefficient is negative through every clamp and the fallback; unclamped, the line minimises the squared relative error |

## Left out

- The C kernels (`_K`), `kept_state`, pickle, marshal and numpy bytes: encoders are parameters with the injectivity a claim needs.
- Sampled sizes (`_picks`, and the level and key sizes above `SIZE_EXACT_UP_TO`): estimates without an exact claim.
- `S3FIFO`: its victim search stops at a guard count and overwrites a segment total, so no cap or accounting theorem is claimed for it.
- The rules by which `SupersedeAware`, `HybridGC`, `OwnerGC` and `LiveSetGC` judge a key dead: any judgement is allowed at each eviction, around the inner policies they are used with.
- Monotonicity of the clock of plain `GDSF`: skipping a protected entry can leave it below the clock.
- The inside of `heapq` (a multiset with pop-minimum), `bisect` aside, and floating-point rounding (reals instead).
- SpineCopy.Copy: reference counts are given numbers that cover the holders; how CPython keeps them is not modelled.
- TreeFacts.Walk: the levels a collecting walk hands back and the name table of a look are not modelled; what is known is a table of right answers, and the references that a collecting walk and the caller hold are part of the counts read.
- Policies.Run: of `SampledGDSF` the log says only that the victim is another stored key; that it is the lowest of the keys drawn is said of `SampledPolicy.Victim`.
- TreePaths.TreePaths: the levels are walked to the end before they are searched; nothing found survives a refused level either way.
- LiveCells.ApplyKeeps: one panel, one kernel and one client; malformed payloads, which the kernel ignores, are not sent.
- The fault path of `_leaf_digests` (a worker that raises): only schedules in which every worker finishes.
- `fit_all`, `worst_ratio`, the command line, configuration, logging, analytics, the wheel gate and browser scripts: presentation and input only.
- `graph.py`, `_cash_views.py`, `_own_work.py`, `_lazy_module.py`: they would only add easy members.
