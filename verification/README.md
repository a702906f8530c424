# EdgeRAG: a paged KV-cache arena and the serving loop that runs on it

This project models the core of EdgeRAG and proves what it is for.

* **The paged arena.** A reference-counted block pool with a LIFO free list, block tables, forks with copy-on-write, a
  content-addressed prefix cache with LRU eviction, swapping, batched reads. All sequences write into one shared array.
  `Arenas.dfy` is the state machine of everybody's calls; the abstract side (`Owners.dfy`) is what each sequence's owner
  knows without looking: the layer it asked its cache to start at, the tokens it claimed, and one private history, which
  is what the contiguous cache holds. Every call returns what the private histories say, in every interleaving, layer by
  layer inside forwards too; reference counts are exactly the references that exist; a cached prefix always holds the KV
  of its own tokens; and the entries stand in the order of their last use, so what is evicted was used before what stays
  (`Recency.dfy`).
* **Serving.** Scheduler, executor and engine as a step machine (`Scheduling.dfy`, `Serving.dfy`, `EngineRuns.dfy`) over an
  abstract causal decoder (`Decoders.dfy`), with a fault possible before, between and after the cache updates of any
  forward. Every stream that closes without an error is greedy decoding of that request alone on a private cache; it
  ends at the first end-of-sequence token or at the limit the request was submitted with (`StreamEnds.dfy`); delivery is
  exactly once; the queue drains exactly when everything waiting fits; the deadlock condition is exact; and when the
  reserve covers the growth of all but one running request, no cache growth ever fails. `FullService.EveryRequestServed`
  puts these together; `BrokenPromise.PromiseBroken` shows that for two requests at a time the bound cannot be lowered by
  a single block, and `Shortage.RunsOutExactlyWhenShort` says exactly when a batch runs out without it.
* **Smaller cores.** Online softmax over scattered blocks is softmax over the history (`Softmax.dfy`, `Fused.dfy`); batched
  decode is solo decode (`Batched.dfy`); group-wise quantization and its storage (`Quant.dfy`, `Packing.dfy`,
  `QuantLinears.dfy`); edit distance and the score on it (`EditDistance.dfy`); pool sizing against admission (`Budgets.dfy`).

## How it is organised

What the code changes in place is a class whose methods carry the code's own loops: `Allocator.BlockAllocator`,
`PagedCaches.BlockTable`, `PagedCaches.PagedKVCache` (over an `array3` of pool slots, `BlockPools.dfy`),
`NaiveCaches.NaiveKVCache`, `PrefixCaches.PrefixCache`, `Preemptors.Preemptor`, `BatchedCaches.BatchedPagedCache`,
`RequestObjects.RequestObject`, `Servers.Scheduler`, `Servers.ModelExecutor`, `Engines.InferenceEngine`,
`QuantLinears.QuantLinear`. Each method is proved to make exactly the transition of a specification function on values
(`Pools`, `Paging`, `Prefixes`, `Swaps`, `Requests`, `Scheduling`, `Serving`, `EngineRuns`), errors and partial effects
included, and the theorems are about those functions. Where a theorem and the program read the same function, what that
function is to mean is stated apart from it. `Engines.InferenceEngine.WorkerLoop` ties the worker loop, object by
object, to runs of the step machine.

`*Proofs.dfy` files hold the invariants. Proofs hide the definitions they do not need (`hide`), so each step stays small.

## Where the code and its documentation differ

The model follows the code.

* `swap_in` reads the number of KV heads where it means the number of blocks (edgerag/cache/preemption.py:157). It works
  exactly when that many blocks are free and the two numbers agree, or one block was parked; otherwise the blocks it took
  are lost to everybody (`SwapProofs.SwapInExact`, `SwapProofs.SwapInCounts`; `SwapRuns.HeadCountLosesBlocks` reaches it in
  a pool that is otherwise empty). `preempt` reports the same wrong number
  (edgerag/cache/preemption.py:186), and the scheduler hands it a length no running cache ever has
  (`VictimProofs.RecordsTooMuch`).
* The executor's notes say growth fails only under copy-on-write pressure because admission budgets the whole request
  (edgerag/serve/executor.py:24-26). Admission looks only at what is free now, not at what running requests were promised:
  `BrokenPromise.PromiseBroken` runs out without any sharing, one block short of the reserve that suffices;
  `Shortage.RunsOutExactlyWhenShort` says exactly when an iteration of any run does.
* `try_allocate` is documented to return `False` when preemption cannot make room (edgerag/sched/scheduler.py:271-276). For a
  running request that holds a cache it never does: it grows, or preempts the requester itself and then dereferences its
  missing cache (`PreemptionProofs.TryAllocateExact`; `PreemptionRuns.LosesItsOwnCache` reaches it in every pool).
* Victims are said to stand ahead of everything that arrived after them (edgerag/sched/scheduler.py:216-218); among
  themselves the newest comes first. The queue keeps arrival order exactly when at most one request is preempted, that is
  when enough is free, when there is at most one candidate, or when the newest alone frees enough
  (`PreemptionOrder.QueueInOrderIff`); `PreemptionRuns.VictimsOutOfOrder` reaches the other case.
* The executor's notes say a request that exhausts the pool fails "that request" (edgerag/serve/executor.py:21-24). The
  engine fails the whole batch of that iteration, and nobody else (`Failures.FailingStepCloses`); in
  `Failures.LastBlockFailsBoth` two requests fail over a block that one of them could have had.
* `NaiveKVCache.update` says the length advances on layer 0 (edgerag/cache/naive.py:76); it advances on the last layer.
* `PagedKVCache.update` appends before it unshares (edgerag/cache/paged.py:140-142): when copy-on-write finds no free block,
  the length has already advanced. `WriteCosts.BeginExact` says exactly when that happens, whoever shares what:
  the blocks the table lacks are free, but not those and one for each shared block of the write range.
  `ForkedTail.LengthRunsAhead` is such a run; the arena invariant allows for the state it ends in.
* A block table is said never to hold a spare block (edgerag/cache/block_table.py:8-14). Between iterations that is so, over
  every run (`TightTables.NeverASpareBlock`); inside one, a fault after the growth and before the first layer leaves the
  blocks of tokens that never came (`TightTables.GrownAhead`), until the engine fails the request.
* Eviction can drop a parent block before its child (edgerag/cache/prefix.py:150-154): entries are not prefix-closed, and
  soundness does not need them to be. Eviction keeps them closed exactly when no entry it keeps has its parent among
  those it drops (`PrefixClosure.EvictClosedIff`, and `PrefixClosure.RegisterClosedIff` for a whole registration); a
  prompt with more full blocks than an empty cache may hold always drops its own first blocks and is then not found at all
  (`PrefixClosure.TooLongToFind`, reached in `PrefixClosure.ParentDropped`).
* A request generates one token before its limit is first looked at, so a limit of zero yields one token
  (edgerag/sched/scheduler.py:187-191): generation keeps to its limit exactly when that is not zero
  (`Decoders.SoloLength`, and `EngineRuns.StreamLength` for what is delivered).
* An oversize request at the head of the queue is never rejected and blocks it (`LivenessProofs.OversizeBlocksForever`,
  from an empty server in `LivenessProofs.OversizeNeverServed`); a
  request with an empty prompt is scheduled again and again without advancing (`EmptyPrompts.NeverAdvances`), and with one
  prefill per step it blocks the queue as well (`EmptyPrompts.BlocksForever`).
* Submissions still in the inbox when the worker exits get no event (`EngineRuns.ServingRefinesSolo`, last clause;
  `EngineRuns.SubmittedTooLate`).

## Model

| member | source | states |
|---|---|---|
| Pools.InitExact | edgerag/cache/allocator.py:89-104 | a new pool has exact counts for nobody holding anything, and every block free |
| Pools.FirstBlocks | edgerag/cache/allocator.py:98-100 | a new pool hands its blocks out from block 0 upward |
| Pools.AllocateExact | edgerag/cache/allocator.py:150-174 | succeeds exactly when enough blocks are free; the new ones were held by nobody, differ pairwise, and are held once; a refusal changes nothing |
| Pools.DropOneExact | edgerag/cache/allocator.py:186-195 | dropping one reference leaves exact counts for the remaining holders |
| Pools.FreeExact | edgerag/cache/allocator.py:176-196 | raises exactly when asked to drop a reference nobody holds; otherwise counts stay exact and the reported number of blocks is what came back |
| Pools.LastFreedFirst | edgerag/cache/allocator.py:84-86 | the free list is a stack: blocks given back are taken next, last one first, and taking them again restores the pool |
| Pools.IncrefExact | edgerag/cache/allocator.py:198-211 | sharing is accepted exactly for held blocks, and adds exactly those references |
| Pools.CopyOnWriteExact | edgerag/cache/allocator.py:218-236 | identity on a private block; moves one reference of a shared one to a block nobody held; fails exactly when shared and nothing is free, changing nothing |
| Pools.ExactPassesChecks | edgerag/cache/allocator.py:120-146 | exact counts imply every structural check: no duplicate free block, free exactly the zero counts |
| Pools.Conservation | edgerag/cache/allocator.py:106-115 | without sharing, free blocks plus held references are the whole pool |
| Common.CeilDivAdjunction | edgerag/cache/allocator.py:244-254 | the ceiling division of `blocks_needed` is the least block count: k blocks are enough for n tokens exactly when k is at least it |
| Allocator.BlockAllocator.constructor | edgerag/cache/allocator.py:89-104 | starts as the initial pool |
| Allocator.BlockAllocator.Allocate | edgerag/cache/allocator.py:150-174 | the two loops leave exactly the specified pool and blocks, or the specified error |
| Allocator.BlockAllocator.Free | edgerag/cache/allocator.py:176-196 | the loop drops references in order and stops at the first bad block, with those before it freed |
| Allocator.BlockAllocator.Incref | edgerag/cache/allocator.py:198-211 | validates every block before raising any count |
| Allocator.BlockAllocator.CopyOnWrite | edgerag/cache/allocator.py:218-236 | the specified transition, errors included |
| PagingProofs.EnsureCorrect | edgerag/cache/block_table.py:62-69 | grows exactly to the ceiling, fails exactly when too few blocks are free and then changes nothing; the history stays and nobody else is touched |
| PagingProofs.AppendCorrect | edgerag/cache/block_table.py:71-79 | capacity before length: a failed append leaves the table as it was |
| PagingProofs.UnshareCorrect | edgerag/cache/block_table.py:95-107 | with the content copy, splitting a shared block keeps this history, makes the block private and leaves every other holder's blocks alone; fails exactly when shared and nothing is free |
| PagingProofs.ForkCorrect | edgerag/cache/block_table.py:81-93 | a fork represents the same history without copying, one more reference to each block |
| PagingProofs.FreeCorrect | edgerag/cache/block_table.py:120-129 | frees this sequence's references only; without sharing all its blocks come back |
| PagingProofs.UnshareRangeCorrect | edgerag/cache/paged.py:151-182 | after the copy-on-write loop the write range is private and the history unchanged |
| WriteCosts.UnshareRangeExact | edgerag/cache/paged.py:151-182 | the loop copies exactly one block for each position of the range whose block has further references, and runs out exactly when fewer are free |
| WriteCosts.SplitsOfDistinct | edgerag/cache/paged.py:154-158 | in a table of different blocks those are the shared ones |
| WriteCosts.BeginExact | edgerag/cache/paged.py:138-142 | the bookkeeping succeeds exactly when the missing blocks plus the copies are free and takes exactly those; when only the copies are not, the length has advanced all the same |
| WriteCosts.BeginCounts | edgerag/cache/paged.py:138-142 | afterwards the writer has given up its references to the range, wherever others still hold them |
| WriteCosts.SplitsJoin | edgerag/cache/paged.py:151-182 | writing one range after another costs what both together cost, counted at the start |
| PagingProofs.WriteCorrect | edgerag/cache/paged.py:186-206 | scattering into private blocks overwrites exactly the given positions of the joined blocks and no row anybody else refers to |
| PagingProofs.FirstUpdateCorrect | edgerag/cache/paged.py:121-149 | the first layer's update returns the history plus the new entries and everybody else's blocks read the same; it runs out exactly when fewer blocks are free than the table lacks plus those to be copied, and then the length has advanced unless the lacking ones alone were too many |
| PagingProofs.LaterUpdateCorrect | edgerag/cache/paged.py:144-149 | a later layer's update extends that layer's history by the same tokens without growing again |
| PagingProofs.UpdateCannotFail | edgerag/cache/paged.py:121-149 | with room claimed and nothing shared, an update raises nothing and moves no block |
| ArenaProofs.EnsureStep | edgerag/cache/block_table.py:62-69 | growing any sequence keeps the whole-arena invariant and every history, and fails exactly when fewer blocks are free than are missing |
| ArenaProofs.FirstLayerStep | edgerag/cache/paged.py:138-149 | a first-layer update in the shared arena extends exactly one history; exactly when it raises, whether the length has advanced by then, and the invariant holds either way |
| ArenaProofs.LaterLayerStep | edgerag/cache/paged.py:144-149 | the same for later layers, with other sequences' forwards in between |
| ArenaProofs.ForkStep | edgerag/cache/paged.py:242-254 | forking at a forward boundary adds a sequence with the same history |
| ArenaProofs.FreeStep | edgerag/cache/paged.py:256-257 | freeing never fails in a reachable state and empties one history |
| ArenaProofs.RegisterStep | edgerag/cache/prefix.py:131-148 | registering a prefill keeps the invariant, evictions and early stop included: each cached block holds the KV of its chained prefix |
| ArenaProofs.AdoptStep | edgerag/cache/prefix.py:101-129 | a sequence built from a lookup has the history a fresh prefill of the matched tokens would have |
| ArenaProofs.ClearStep | edgerag/cache/prefix.py:156-160 | clearing releases exactly the cache's own references, and leaves no entry |
| Owners.StepRefines | edgerag/cache/paged.py:55-149 | one call of any kind, in terms of what the owners know: which answer, exactly when it fails, what is left to see in the pool, and that every cache afterwards is what its owner takes it for, first layer included |
| ArenaRuns.RunRefines | edgerag/cache/paged.py:55-254 | over any run of any calls by any number of sequences, permitted by what their owners know: every call returns what one private history per sequence says, starting at the layer asked for; growing and writing fail exactly when fewer blocks are free than they need, nothing else fails, and every cache ends up what its owner takes it for |
| Prefills.Prefilled | edgerag/cache/paged.py:121-149 | every history of equal length in all layers that fits, starting at any model layer, is reached from an empty arena by one forward of one sequence, which takes exactly the blocks its tokens need |
| ArenaRuns.RunsFromStart | edgerag/cache/allocator.py:150-236 | from a new arena: counts are the table slots and cache entries naming a block, the free list is exactly the unnamed blocks, every cache starts at the layer it was asked for, every sequence between forwards gathers its own history at every layer |
| ArenaRuns.LocatesOwn | edgerag/cache/block_table.py:48-60 | the block and slot a table names for a position hold that position's entry of the sequence's own history; an index error exactly outside the tokens claimed |
| ArenaRuns.UpdateSparesEverybodyElse | edgerag/cache/paged.py:151-206 | no write lands in a cached block or in another sequence's block |
| ForkedTail.LengthRunsAhead | edgerag/cache/paged.py:138-142 | a permitted run in which a fork's write runs out of blocks after its length advanced: the table counts, and gathers, a position no layer was given |
| ArenaRuns.AllReleased | edgerag/cache/allocator.py:176-196 | when every holder has let go, the whole pool is free |
| ArenaRuns.AdoptsLongestPrefix | edgerag/cache/prefix.py:108-119 | the match is the longest run of leading full blocks present |
| ArenaRuns.RegisteredIsFound | edgerag/cache/prefix.py:101-148 | with room in the cache, register then lookup of the same tokens finds every full block: all but the partial one |
| Prefixes.HashIsPrefix | edgerag/cache/prefix.py:36-48 | two blocks get the same chained hash exactly when they stand at the same place and everything up to and including them is equal |
| PrefixProofs.MatchLongest | edgerag/cache/prefix.py:108-119 | the loop takes blocks up to the first miss, refreshing keeps the entries a permutation |
| Recency.MatchOrder | edgerag/cache/prefix.py:114-119 | after a lookup come first the entries it did not match, in their old order, then those it did, in the order of the prompt |
| Recency.EvictsLeastRecent | edgerag/cache/prefix.py:114-154 | after any calls from a new arena: the entries stand in the order in which their blocks were last matched or added, and every block not cached, evicted ones included, was last used before every block that is |
| Recency.RegisterCounts | edgerag/cache/prefix.py:131-148 | the count a registration returns is the number of blocks it added, evictions and early stop included |
| PrefixProofs.LookupCorrect | edgerag/cache/prefix.py:101-129 | matched blocks are referenced for the caller, and lookup cannot fail while counts are exact |
| PrefixProofs.EvictCorrect | edgerag/cache/prefix.py:150-154 | a full cache drops its oldest entries down to exactly one below the bound, keeps the newer ones in order, and releases exactly the dropped references |
| PrefixProofs.RegistersAll | edgerag/cache/prefix.py:131-148 | with room for them, every full block gets an entry, nothing is evicted, and the count returned is the number added |
| PrefixProofs.RegistersLast | edgerag/cache/prefix.py:137-148 | whatever eviction does on the way, the last full block is present afterwards |
| PrefixProofs.RegisterFromCorrect | edgerag/cache/prefix.py:137-148 | one reference per added entry, never more entries than the bound, no duplicate key |
| PrefixProofs.FullBlockSound | edgerag/cache/prefix.py:131-148 | a full block of a prefilled sequence holds the KV of exactly the tokens its hash stands for |
| PrefixClosure.EvictClosedIff | edgerag/cache/prefix.py:150-154 | eviction keeps prefix-closed entries closed exactly when no entry it keeps has its parent among those it drops |
| PrefixClosure.RegisterClosedIff | edgerag/cache/prefix.py:131-154 | registering into closed entries, with whatever hits and evictions on the way, leaves the newest of the entries followed by the prompt's uncached blocks, and they are closed exactly when none of them has its parent among those dropped |
| PrefixClosure.RegisterKeepsClosed | edgerag/cache/prefix.py:131-148 | with room for every full block, registering keeps closed entries closed |
| PrefixClosure.OthersKeepClosed | edgerag/cache/prefix.py:101-160 | nothing but a registration can open them |
| PrefixClosure.ClosedReaches | edgerag/cache/prefix.py:108-119 | in closed entries a cached block of a prompt has all the blocks before it cached, so a lookup reaches it |
| PrefixClosure.TooLongToFind | edgerag/cache/prefix.py:114-154 | a prompt with more full blocks than an empty cache may hold pushes out its own first blocks: its last stay cached, and a lookup of it matches nothing |
| PrefixClosure.ParentDropped | edgerag/cache/prefix.py:131-154 | and that is reached by a permitted run, for any number of layers, any block size and every such prompt |
| PrefixCaches.PrefixCache.BlockHashes | edgerag/cache/prefix.py:85-99 | threading the parent through the loop gives each full block's chained hash, the partial one excluded |
| PrefixCaches.PrefixCache.TakeMatches | edgerag/cache/prefix.py:114-119 | the lookup loop on the ordered entries, each match moved to the end |
| PrefixCaches.PrefixCache.Lookup | edgerag/cache/prefix.py:101-129 | the specified entries, pool and result |
| PrefixCaches.PrefixCache.EvictIfNeeded | edgerag/cache/prefix.py:150-154 | the eviction loop |
| PrefixCaches.PrefixCache.Register | edgerag/cache/prefix.py:131-148 | the registration loop with its skips, evictions and early stop |
| PrefixCaches.PrefixCache.Clear | edgerag/cache/prefix.py:156-160 | releases every entry's block, then forgets the entries |
| BlockPools.CopyBlockIn | edgerag/cache/paged.py:178-182 | copies one block over another in every layer of the shared pool, in place, and touches nothing else |
| BlockPools.WriteIn | edgerag/cache/paged.py:186-206 | the scatter, in place, in one layer |
| BlockPools.GatherFrom | edgerag/cache/paged.py:228-238 | the blocks in logical order, joined, cut to the written length |
| PagedCaches.BlockTable.Locate | edgerag/cache/block_table.py:48-60 | block and slot of a written position; anything past the written region is an error |
| PagedCaches.BlockTable.EnsureCapacity | edgerag/cache/block_table.py:62-69 | the specified table, pool and result |
| PagedCaches.BlockTable.Append | edgerag/cache/block_table.py:71-79 | length advances only after growth succeeded |
| PagedCaches.BlockTable.Fork | edgerag/cache/block_table.py:81-93 | a new table object with the same blocks |
| PagedCaches.BlockTable.Unshare | edgerag/cache/block_table.py:95-107 | repoints one logical block, and reports the pair to copy |
| PagedCaches.BlockTable.Free | edgerag/cache/block_table.py:120-129 | releases and empties the table |
| PagedCaches.PagedKVCache.UnshareWriteRange | edgerag/cache/paged.py:151-182 | the loop over logical blocks with its per-layer content copy |
| PagedCaches.PagedKVCache.Begin | edgerag/cache/paged.py:138-142 | the once-per-forward bookkeeping, in the code's order |
| PagedCaches.PagedKVCache.Update | edgerag/cache/paged.py:121-149 | in-place update of pool, table and pending count, and the returned history |
| PagedCaches.PagedKVCache.Fork | edgerag/cache/paged.py:242-254 | a second cache object on the same pool and blocks |
| PagedCaches.PagedKVCache.Free | edgerag/cache/paged.py:256-257 | releases the table |
| NaiveCaches.NaiveKVCache.Update | edgerag/cache/naive.py:71-98 | slice-assigns one layer, advances the length on the last layer, returns the filled prefix, refuses overflow before writing |
| NaiveCaches.NaiveKVCache.Reset | edgerag/cache/naive.py:100-106 | drops the history, buffers untouched |
| NaiveCaches.UpdateExtends | edgerag/cache/naive.py:71-98 | each layer's update returns that layer's history plus the new entries |
| NaiveCaches.NaiveRefined | edgerag/cache/naive.py:71-98 | a forward on the contiguous cache is the forward over a private history, and overflows exactly when that history would outgrow the buffers |
| SwapProofs.SwapOutParks | edgerag/cache/preemption.py:109-140 | the record holds the sequence's whole history and the pool is as after freeing |
| SwapProofs.SwapInExact | edgerag/cache/preemption.py:142-171 | for any block count, in any later arena: succeeds exactly when that many blocks are free and the parked rows fit them; then the history is back in blocks nobody else refers to, nobody else changed; with a wrong count that many blocks leak |
| SwapProofs.SwapInCounts | edgerag/cache/preemption.py:157-158 | with the block count, coming back is only a matter of free blocks; with the KV-head count as written, also of that being the block count or one block being parked |
| SwapRuns.HeadCountLosesBlocks | edgerag/cache/preemption.py:145-171 | from an empty arena: a sequence of two or more blocks, swapped out, is refused with any other head count although every block is free, and that many blocks are lost; with its block count it comes back |
| SwapProofs.SwapRoundTrip | edgerag/cache/preemption.py:109-171 | swap out, any run by everybody else, swap in with the block count: the history is restored at every layer in fresh private blocks and every other history is what the run left |
| VictimProofs.SelectsFewest | edgerag/cache/preemption.py:198-214 | the victims are the newest k, newest first, for the least k that covers the need, or all |
| VictimProofs.VictimsAgree | edgerag/sched/scheduler.py:210-231 | without sharing, the scheduler's loop preempts exactly those victim selection would choose for the missing blocks |
| VictimProofs.RecordsTooMuch | edgerag/sched/scheduler.py:236-242 | the length recorded for a victim always exceeds what its cache holds |
| Preemptors.Preemptor.SwapOut | edgerag/cache/preemption.py:109-140 | copies the rows, records them, then releases |
| Preemptors.Preemptor.SwapIn | edgerag/cache/preemption.py:142-171 | allocates the head count, writes layer by layer, forgets the record only on success; unknown ids are a key error |
| Preemptors.Preemptor.Preempt | edgerag/cache/preemption.py:173-195 | every policy frees the blocks; swapping records their contents, reports the head count, and is refused without the pools before anything happens |
| Preemptors.Preemptor.SelectVictims | edgerag/cache/preemption.py:198-214 | the reversed loop |
| Batched.OwnHistoryVisible | edgerag/core/layers.py:227-254 | padding mask and causal mask at the padded width together show a row exactly its positions 0..len, which is its own history |
| Batched.UpdateEachCorrect | edgerag/cache/batched.py:128-129 | updating every member of a batch advances each by its own layer and nobody else |
| Batched.GatheredIs | edgerag/cache/batched.py:133-153 | the gathered row of a member is its own history at that layer |
| Batched.GatheredOwn | edgerag/cache/batched.py:133-153 | between forwards a gathered row, cut to the member's length, is what its owner would have in a private cache |
| Batched.BatchedIsSolo | edgerag/cache/batched.py:112-181 | one batched decode step runs out exactly when the pool cannot pay for every member's missing block and copy; otherwise every member has the history and output of taking that step alone on a private contiguous cache |
| Batched.UpdateEachExact | edgerag/cache/batched.py:112-140 | one member after another, blocks shared between members or not: the first layer's updates succeed exactly when what is missing plus the copies, counted once for all, is free |
| BatchedCaches.BatchedPagedCache.SetBatch | edgerag/cache/batched.py:74-84 | membership is replaced whole, or refused with nothing changed |
| BatchedCaches.BatchedPagedCache.NewSequence | edgerag/cache/batched.py:63-72 | an empty sequence on the shared pool |
| BatchedCaches.BatchedPagedCache.Update | edgerag/cache/batched.py:112-131 | the loop over member objects is the specified batch update; a wrong number of positions and an empty batch are refused, nothing changed |
| BatchedCaches.BatchedPagedCache.Gather | edgerag/cache/batched.py:133-153 | a buffer exactly as wide as the longest member, each row its member's gathered history and zero after it |
| BatchedCaches.BatchedPagedCache.PaddingMask | edgerag/cache/batched.py:155-170 | as wide as the longest member plus the new positions, true exactly where a position holds a real token after the next write |
| BatchedCaches.BatchedPagedCache.PositionIds | edgerag/cache/batched.py:172-181 | each sequence's own length |
| BatchedCaches.BatchedPagedCache.MaxLen | edgerag/cache/batched.py:94-96 | the longest member |
| Decoders.CausalVisibility | edgerag/core/layers.py:227-249 | the mask shows the query at past + i exactly the keys 0..past + i |
| Decoders.Causal | edgerag/core/layers.py:227-249 | later inputs change nothing at earlier positions, at any layer |
| Decoders.ChunkCorrect | edgerag/serve/executor.py:116-136 | feeding a chunk to a cache that holds a prefix leaves the history of the whole and its last output |
| Decoders.ChunkingInvariant | edgerag/serve/executor.py:116-136 | every partition of a prompt into non-empty chunks leaves the cache contents of one pass and yields the same next token |
| Decoders.GreedyIsSolo | edgerag/serve/executor.py:131-154 | a token list that is greedy at every position and stops where it should is the output of generating alone, and ends at the first end-of-sequence token or at the limit |
| Decoders.SoloLength | edgerag/sched/request.py:126-133 | generation yields at least one token and never more than the larger of one and the limit; it keeps to the limit exactly when that is not zero |
| Decoders.SoloEnds | edgerag/sched/request.py:126-133 | generating alone: no token before the last is the end-of-sequence token; there are as many as the limit allows, one at least, or the last is that token |
| Requests.ChunksCoverPrompt | edgerag/sched/request.py:100-119 | taking the next chunk and advancing past it, until there is none, covers the rest of the prompt exactly once; every chunk is as long as asked for, but the last, which may be shorter |
| RequestObjects.RequestObject.NextPrefillChunk | edgerag/sched/request.py:100-109 | the next slice without advancing; a non-positive size is refused |
| RequestObjects.RequestObject.AdvancePrefill | edgerag/sched/request.py:111-119 | advances within the prompt or refuses and changes nothing |
| RequestObjects.RequestObject.AppendToken | edgerag/sched/request.py:121-124 | appends one generated token |
| RequestObjects.RequestObject.MarkPreempted | edgerag/sched/request.py:137-145 | swapped state and a counted preemption; progress is kept |
| RequestObjects.RequestObject.ResetForRecompute | edgerag/sched/request.py:147-151 | progress and cache are dropped |
| Fused.RepeatAt | edgerag/core/layers.py:117-134 | query head h reads KV head h / n_rep |
| Softmax.AbsorbExact | edgerag/cache/fused.py:151-164 | one turn of the recurrence turns the exact sums of the positions so far into those of the positions so far plus the block |
| Softmax.WeightsAtMostOne | edgerag/cache/fused.py:161 | relative to the running maximum every weight is positive and at most one |
| Softmax.AtLeastOne | edgerag/cache/fused.py:166 | the final denominator is at least one |
| Softmax.DivideIsAttend | edgerag/cache/fused.py:166 | dividing by the clamped denominator is the softmax average, and the clamp is a no-op |
| Softmax.AttendConstant | edgerag/cache/fused.py:163-166 | attending to equal values returns that value |
| Softmax.AttendLinear | edgerag/cache/fused.py:163-166 | it is linear in the values |
| Softmax.AttendWeight | edgerag/cache/fused.py:161-166 | it weighs a position with the exponential of its score over the sum of all of them |
| Fused.ScoreIs | edgerag/cache/fused.py:152 | a score is linear in the query and in the key, proportional to the scaling, and reads one component of the key for a unit query |
| Fused.HeadConstant | edgerag/cache/fused.py:140-166 | over a history with one value everywhere, a query head returns that value |
| Fused.HeadLinear | edgerag/cache/fused.py:140-166 | a query head is linear in the values of KV head h / n_rep, the keys staying what they are |
| Fused.HeadWeight | edgerag/cache/fused.py:145-166 | a query head weighs a position with the exponential of its query's score against the key of KV head h / n_rep there, over the sum of these at all positions |
| Fused.PagedAttentionReference | edgerag/cache/fused.py:89-167 | the loop over scattered blocks returns, for every head, softmax attention over exactly the positions the sequence gathers, whatever the ids of blocks past the length; zeros for an empty one, and the shape errors |
| Fused.TailHasNoEffect | edgerag/cache/fused.py:139-146 | slots at or past the length and surplus blocks, real or not, have no effect |
| Fused.FusedSeesHistory | edgerag/cache/fused.py:89-167 | in every reachable arena the fused reference attends to the sequence's own history |
| LifecycleProofs.ScheduleDecides | edgerag/sched/scheduler.py:140-176 | what a scheduling step decides: all decoding requests in order, the oldest prefilling ones up to the limit, then a prefix of the queue, each of which fits, stopping where it must |
| LifecycleProofs.AdmitsWhileFits | edgerag/sched/scheduler.py:159-174 | admission in numbers: each request admitted needs, for its prompt and all it may generate, no more blocks than are free beyond the reserve, and it stops at the limits or at the first that needs more |
| LifecycleProofs.RejectKeeps | edgerag/sched/scheduler.py:259-267 | a refused request leaves the queue for the finished ones, everybody else keeps their place, and each is still in exactly one queue |
| LifecycleProofs.SchedulePartitions | edgerag/sched/scheduler.py:140-176 | every request stays in exactly one queue, and the batch names running requests once each, by phase |
| ArrivalOrder.AdmissionIsArrivalOrder | edgerag/sched/scheduler.py:159-174 | over any run, who waited and arrived, in order, is who was admitted, in order, followed by who still waits |
| ForwardProofs.PagedForwardCorrect | edgerag/cache/paged.py:138-149 | the decoder's loop over layers on a paged cache in a shared arena is the loop over a private history; a device that gives out after so many pieces leaves exactly so many layers done |
| ForwardProofs.FeedCorrect | edgerag/serve/executor.py:124-136 | growing a cache and running a chunk yields the history and the greedy next token of everything fed so far |
| ExecutionProofs.PrefillOne | edgerag/serve/executor.py:116-136 | one prefill turn reports its own progress and, at the end of the prompt, its own first token |
| ExecutionProofs.DecodeOne | edgerag/serve/executor.py:138-154 | one decode turn reports its own greedy next token and touches nobody else, whatever stops it |
| ExecutionProofs.PrefillAdvancesIff | edgerag/serve/executor.py:118-122 | one turn of the prefill loop consumes something exactly when prompt is left, and cannot fail when none is |
| ExecutionProofs.BatchCorrect | edgerag/serve/executor.py:113-156 | a whole batch: each request its own continuation, whatever else is in the batch; with a fault before, between or after the cache updates of any forward, requests outside it untouched and the batch's caches free to be released |
| EngineProofs.AfterCoherent | edgerag/sched/scheduler.py:180-191 | applying a turn's output keeps that coherence, or stops exactly where the stop condition first holds |
| EngineProofs.StepKeeps | edgerag/serve/engine.py:169-214 | a step, faulty or not, keeps queues, lifecycle, streams, caches and reference counts coherent |
| EngineRuns.ExitSettles | edgerag/serve/engine.py:243-247 | at worker exit every drained request's stream is its tokens and one closing event |
| EngineRuns.ServingRefinesSolo | edgerag/serve/engine.py:150-252 | over every run from an empty server: streams are the generated tokens in order, at most one closing event and exactly one after exit; without an error it is the solo generation; nobody undrained gets an event; the open streams are exactly the waiting and running requests |
| EngineRuns.StreamLength | edgerag/sched/scheduler.py:187-191 | over every run, a stream that closed without an error delivered at least one token, and kept to the limit exactly when that is not zero |
| StreamEnds.ServedAsSubmitted | edgerag/serve/engine.py:160-167 | whatever happens in a run, a request is served with the prompt, embeddings and limit it was submitted with |
| StreamEnds.StreamEndsRight | edgerag/serve/engine.py:196-222 | over every run, for every request submitted: a stream that closed without an error is the tokens solo generation from the submitted prompt gives, none before the last being the end-of-sequence token, as many as the submitted limit allows or ending with that token, and the closing event says which |
| StreamEnds.StreamIsGreedy | edgerag/serve/engine.py:150-252 | every stream of every run at any time, open, closed or failed: tokens, each the greedy next one after the submitted inputs and the tokens before it, then at most one closing event |
| StreamEnds.DistinctIdsSuffice | edgerag/serve/engine.py:256-261 | any actions whose submissions arrive fresh and under different ids are a run these theorems are about |
| EngineRuns.SubmittedTooLate | edgerag/serve/engine.py:243-247 | a request submitted just before the exit is never drained and gets no event |
| Failures.FailingStepCloses | edgerag/serve/engine.py:176-190 | when the executor raises anything, exactly the streams of that iteration's batch close, each with an error, and everybody else goes on as before |
| Failures.LastBlockFailsBoth | edgerag/serve/engine.py:176-190 | a run in which two requests want the last free block and both fail |
| TightTables.NeverASpareBlock | edgerag/cache/block_table.py:8-14 | over every run, faults included, between iterations every table holds exactly the ceiling of its tokens over the block size |
| TightTables.GrownAhead | edgerag/serve/executor.py:124-136 | a device that gives out before the first layer leaves the table with the blocks of the whole chunk and the tokens it had |
| LifecycleRuns.DecodeErrors | edgerag/serve/executor.py:138-150 | a decode turn raises the executor's own error exactly for a request without a token |
| LifecycleRuns.LifecycleCoherent | edgerag/serve/executor.py:113-154 | at every loop boundary of every run: each request in exactly one queue; prefilling means the cache holds exactly `prefill_offset` positions; decoding means at least one token and a cache of prompt plus generated minus one; the next iteration, wherever a fault may end it, never raises the no-token error |
| LivenessProofs.EmptyBatchIff | edgerag/sched/scheduler.py:159-176 | with work pending, nothing is scheduled exactly when nothing runs and the head request needs more than the pool outside the reserve |
| LivenessProofs.StepDecreases | edgerag/serve/engine.py:169-214 | every step with a batch, faulty or not, leaves strictly less prompt and output to do |
| LivenessProofs.Drains | edgerag/serve/engine.py:150-158 | as many iterations as there are tokens left empty both queues, even when steps fail, exactly when every waiting request fits an idle pool |
| LivenessProofs.OversizeBlocksForever | edgerag/sched/scheduler.py:164-168 | an oversize head request blocks the queue: no number of iterations changes anything |
| LivenessProofs.OversizeNeverServed | edgerag/serve/engine.py:150-174 | from an empty server: an oversize request still waits, without an event, after any number of iterations |
| LivenessProofs.NeverDrains | edgerag/sched/scheduler.py:164-168 | while a waiting request does not fit, no number of iterations empties the queues |
| EmptyPrompts.NeverAdvances | edgerag/serve/executor.py:118-122 | a running request with an empty prompt stays running, as it was, with no event, for any number of iterations without an error, whoever else is served |
| EmptyPrompts.BlocksForever | edgerag/sched/scheduler.py:149-168 | running alone, with one prefill per step or nobody waiting, it keeps everybody waiting and the log as it is for any number of iterations, wherever faults strike |
| EmptyPrompts.EmptyPromptNeverServed | edgerag/serve/engine.py:150-214 | from an empty server: submitted and admitted, it is running without an event after any number of iterations |
| ExhaustionProofs.FeedRoom | edgerag/serve/executor.py:124-128 | a chunk whose missing blocks are free claims exactly those and cannot run out |
| ExhaustionProofs.ExecuteRoom | edgerag/serve/executor.py:113-156 | while what is still promised is free, a batch never runs out and keeps that so |
| NoExhaustion.AdmitRoom | edgerag/sched/scheduler.py:159-174 | with one prefill per step and a sufficient reserve, admission keeps what is promised within what is free |
| NoExhaustion.NoGrowthEverFails | edgerag/sched/scheduler.py:124-176 | under that bound no cache growth fails in any iteration of any run from an empty server |
| Shortage.FeedExact | edgerag/serve/executor.py:124-128 | on a sound device a chunk runs to the end exactly when the blocks it lacks are free |
| Shortage.ExecuteExact | edgerag/serve/executor.py:113-156 | with nothing shared, a batch runs to the end exactly when the blocks its requests lack, summed, are free, claims exactly those, and otherwise runs out |
| Unsharing.CallSole | edgerag/cache/allocator.py:150-236 | each call serving makes, successful or not, keeps counts exact and no block held twice |
| Unsharing.ServingNeverShares | edgerag/serve/engine.py:150-252 | in every run of the server, with or without the reserve bound, every block is free or held exactly once |
| Shortage.RunsOutExactlyWhenShort | edgerag/serve/executor.py:113-156 | in every run of the server, on a device that lasts the batch, the next iteration runs out exactly when its requests lack more blocks than are free, and otherwise raises nothing |
| BrokenPromise.PromiseBroken | edgerag/sched/scheduler.py:164-168 | for every growth, with the reserve one block below the bound for two requests at a time, a permitted run in which both are admitted and exhaust the pool |
| FullService.StepSucceeds | edgerag/serve/engine.py:169-214 | under the bound and on a device that lasts, a step reports no error and closes no stream with one |
| FullService.EveryRequestServed | edgerag/serve/engine.py:150-214 | under the bound, with everything fitting and no faults, after at most one iteration per token every stream is exactly the solo output and one closing event |
| PreemptionProofs.PreemptOneKeeps | edgerag/sched/scheduler.py:233-257 | one victim loses its cache and prefill progress, keeps its tokens, and nobody else changes |
| PreemptionProofs.LoopStops | edgerag/sched/scheduler.py:223-227 | the loop stops at the first point where enough is free, or when nobody is left |
| PreemptionProofs.PreemptToFreeCorrect | edgerag/sched/scheduler.py:210-231 | victims are the newest running requests that prefill or decode, newest first, placed ahead of everything waiting; counts stay exact under sharing, other histories and the partition into queues are kept |
| PreemptionProofs.FreeMonotone | edgerag/sched/scheduler.py:223-227 | preempting more never leaves fewer blocks free |
| PreemptionProofs.TryAllocateExact | edgerag/sched/scheduler.py:271-289 | for a running request: "no" exactly when it has no cache yet, changing nothing; otherwise grows at once, or after preempting exactly when that suffices, with a table extended by what it needed and nobody else changed but the victims, or is itself back in the queue without a cache, and the retry fails on that |
| PreemptionOrder.QueueInOrderIff | edgerag/sched/scheduler.py:210-231 | by any clock, the queue after preemption is in arrival order exactly when at most one request was preempted |
| PreemptionRuns.VictimsOutOfOrder | edgerag/sched/scheduler.py:210-231 | from an empty server: one call preempts both admitted requests and leaves the later one ahead of the earlier |
| PreemptionRuns.LosesItsOwnCache | edgerag/sched/scheduler.py:271-289 | from an empty server, in every pool: a request that fills it and asks for more preempts itself and fails on its missing cache |
| Servers.Scheduler.AddRequest | edgerag/sched/scheduler.py:115-118 | the request waits at the end of the queue |
| Servers.Scheduler.PickRunning | edgerag/sched/scheduler.py:146-153 | the first loop of `schedule` |
| Servers.Scheduler.Schedule | edgerag/sched/scheduler.py:140-176 | both loops, queues and request states changed in place |
| Servers.Scheduler.OnPrefillChunk | edgerag/sched/scheduler.py:180-185 | advances, and decodes from the end of the prompt on |
| Servers.Scheduler.OnToken | edgerag/sched/scheduler.py:187-191 | appends, and finishes the request exactly when it now has as many tokens as its limit or the token is the end-of-sequence token |
| Servers.Scheduler.Finish | edgerag/sched/scheduler.py:193-202 | releases the cache and moves the request |
| Servers.Scheduler.PreemptOne | edgerag/sched/scheduler.py:233-257 | releases the victim's blocks and resets its prefill, not its tokens |
| Servers.Scheduler.PreemptToFree | edgerag/sched/scheduler.py:210-231 | the loop over reversed candidates and the requeueing loop |
| Servers.Scheduler.TryAllocate | edgerag/sched/scheduler.py:271-289 | grow, or preempt and retry |
| Servers.Scheduler.Reject | edgerag/sched/scheduler.py:259-267 | a refused request leaves the queue |
| Servers.ModelExecutor.Forward | edgerag/cache/paged.py:121-149 | the layer loop and what follows it, stopping where the device or the cache raises |
| Servers.ModelExecutor.Prefill | edgerag/serve/executor.py:116-136 | one turn of the prefill loop |
| Servers.ModelExecutor.Decode | edgerag/serve/executor.py:138-154 | one turn of the decode loop |
| Servers.ModelExecutor.Execute | edgerag/serve/executor.py:113-156 | both loops; an exception leaves them at once with what was written |
| Engines.InferenceEngine.Submit | edgerag/serve/engine.py:256-261 | into the inbox, or refused when the worker is not running |
| Engines.InferenceEngine.DrainInbox | edgerag/serve/engine.py:160-167 | opens a stream and queues each submission, in order |
| Engines.InferenceEngine.StepOnce | edgerag/serve/engine.py:169-214 | schedule, execute, then fail the whole batch or apply what came back |
| Engines.InferenceEngine.Apply | edgerag/serve/engine.py:196-211 | progress, token, and the closing event when it was the last |
| Engines.InferenceEngine.Fail | edgerag/serve/engine.py:235-241 | finishes the request, reports the error and forgets the stream |
| Engines.InferenceEngine.FailEverythingStillOpen | edgerag/serve/engine.py:243-247 | closes every open stream |
| Engines.InferenceEngine.WorkerLoop | edgerag/serve/engine.py:150-158 | the worker loop on the objects is a run of the step machine |
| EditDistance.Triangle | bench/metrics.py:305-317 | the distance satisfies the triangle inequality |
| EditDistance.Symmetric | bench/metrics.py:307-308 | swapping the arguments is sound |
| EditDistance.Bounds | bench/metrics.py:305-317 | at most the longer length, at least the difference of the lengths |
| EditDistance.ShortestScript | bench/metrics.py:305-317 | there is a script of single edits of exactly that length |
| EditDistance.ScriptsAreLonger | bench/metrics.py:305-317 | and none shorter |
| EditDistance.LevIsShortest | bench/metrics.py:305-317 | the distance is the length of a shortest script and nothing else |
| EditDistance.SimilarityIs | bench/metrics.py:336-338 | a similarity times the longer length is that length minus the length of a shortest script |
| EditDistance.Levenshtein | bench/metrics.py:305-317 | the two-row program computes it |
| EditDistance.BestInRange | bench/metrics.py:328-339 | the best similarity lies in [0, 1], bounds every answer's, is reached by one, and is 1 exactly for an exact match |
| EditDistance.Anls | bench/metrics.py:320-340 | the best similarity when it reaches the threshold, else 0, in [0, 1]; for thresholds in (0, 1] it is 1 exactly when some answer equals the prediction after normalisation |
| Quant.GroupAMaxIs | edgerag/core/quant.py:85-89 | a group is the input columns with the same quotient, and its maximum is taken over exactly those |
| Quant.ClampIdle | edgerag/core/quant.py:89-95 | the clamp never fires |
| Quant.RoundIs | edgerag/core/quant.py:94 | rounding takes the nearest integer, and of two equally near the even one |
| Quant.CodeIsNearest | edgerag/core/quant.py:85-95 | a weight's code is the level nearest to it, and of two equally near the even one |
| Quant.PeakExact | edgerag/core/quant.py:85-95 | the largest magnitude of a group takes the largest code and comes back exactly |
| Quant.QMaxIs | edgerag/core/quant.py:55-57 | the codes are the symmetric range of a signed integer of 4 or 8 bits |
| Quant.RoundTripError | edgerag/core/quant.py:60-107 | each reconstructed weight is within half its group's scale, amax / (2 qmax); a zero group comes back exactly |
| Packing.PackUnpack | edgerag/core/quant.py:110-138 | unpacking what was packed is the identity on codes in [-8, 7] |
| Packing.UnpackPack | edgerag/core/quant.py:110-138 | and packing what was unpacked gives the same bytes |
| Packing.PackedByte | edgerag/core/quant.py:110-125 | a byte is the even column's code, biased by 8, plus 16 times the odd column's |
| Packing.UnpackInt4 | edgerag/core/quant.py:128-138 | the two strided fills of the output buffer |
| Packing.ByteBack | edgerag/core/linear.py:179-190 | a signed code is stored as its byte modulo 256 and read back from it |
| QuantLinears.StoresLosslessly | edgerag/core/linear.py:178-191 | every code the quantizer produces is read back as stored, at both widths |
| QuantLinears.StoredRoundTrip | edgerag/core/linear.py:166-192 | from weights through packed storage and back, within half a scale |
| QuantLinears.QuantLinear.LoadWeight | edgerag/core/linear.py:166-184 | accepts exactly a weight of the layer's shape, of even width at 4 bits, with a bias where the layer has one and of its length or 1; errors before the copy leave the layer as it was; afterwards scales and readable codes are the quantizer's |
| QuantLinears.QuantLinear.Dequantized | edgerag/core/linear.py:186-192 | the reconstructed weight, or an error exactly when stored codes cannot be read |
| QuantLinears.NewQuantLinear | edgerag/core/linear.py:125-164 | refused exactly when the group size does not divide |
| QuantLinears.BytesPerWeight | edgerag/core/linear.py:198-215 | in every state of a layer, `weight_bytes` beside the bias comes to the coded weights at their width plus 16 / group bits for every weight; at four bits an odd row's last weight has no code |
| Budgets.LargestThatFits | edgerag/core/budget.py:232-299 | the plan is for the block size and reserve asked for, keeps weights, activation and pool within the budget, and one more block would not; planning fails exactly when not one block fits |
| Budgets.AdmittedIffWithinPlan | edgerag/core/budget.py:232-235 | on an idle pool the head request is admitted exactly when prompt plus output limit is at most the plan's longest admissible prompt |
| Budgets.AdmittedIffWithinBudget | edgerag/core/budget.py:259-299 | on an idle server built to the plan for a budget, the head request is admitted exactly when weights, activation, the reserve and every block it may ever need are within that budget |

## Left out

- Floating-point rounding, dtypes and saturation: exact reals throughout; the additive `finfo.min` mask is modelled as the set of keys it leaves visible.
- RoPE, norms, MLP and GEMM numerics: a layer is an arbitrary function of its position, input and visible entries.
- SHA-256 collisions in `chain_hash`: a hash is the term it is computed from, so equal hashes mean equal prefixes.
- The batch axis of single-sequence caches and the split into separate key and value tensors: one `KV` value per position.
- Requests, caches and streams as object references in scheduler, executor and engine: queues hold ids, the request objects are one map and the arena is one value, both in the shared `Heap` object; aliasing between a request object and the queues holding it is that map.
- Servers.ModelExecutor.Forward: calls the arena's value-level update rather than a `PagedKVCache` object; that object's update is proved to be the same transition.
- Python's negative indices: a write that would start before position 0 or past the table is an index error here, though Python would wrap the former; no caller asks for one.
- A device error half way through one `cache.update`, between its bookkeeping and its last copy: an update is one step, and faults strike before and after it.
- Constructors that raise: preconditions, except for `QuantLinear`, whose refusal is a result.
- The exception a malformed prefill advance would raise inside the engine's apply loop: no reachable state gives one.
- Output after preemption and readmission: the code keeps generated tokens but prefills only the prompt again; the shipped executor never preempts, and the serving theorems are for runs that do not.
- Threads, sleeps, queue internals and the HTTP side: submission, draining, an iteration and exit are atomic steps in any order.
- Statistics, byte reporting, fragmentation, step indices and dictionaries for display: they would only add easy members.
- The two-tier compressed cache, FastV selection, the Triton kernel, the loader, vision tower, retrieval and benchmark scripts: not modelled.
- `strip().lower()` in the score: any normalisation function.
- `int(budget_gib * GIB)`: the budget is given in whole bytes.
