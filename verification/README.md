# A verified model of optics

optics keeps metrics in a shared-memory region: recorder threads write, one poller drains. This project models
the parts in which that is hard to get right and proves what they promise.

* **Lens list and deferred free.** `LensList` is the doubly linked list of lenses with its name table and the
  traversal that runs without a lock; `Deferral` is the epoch counter with its two deferred-free lists;
  `LensSystem` composes them with one poller. Every load, store and compare-and-exchange whose order matters is a
  step of its own, and `LensTheorems` is about every run, that is, every interleaving. Dereferencing a block that
  was given back, freeing one that is not outstanding or with a wrong length, and a failed list assertion are a
  `Crash`, and no run reaches one. `NameTheorems` says what the calls of a run make of table and list,
  `RemovalTheorems` where every lens taken out of the list is, and `ProgressTheorems` that calls, traversals and drains
  come to an end. `TraversalTheorems` says exactly which lenses a traversal meets, `DrainTheorems`
  exactly which deferred blocks an epoch increment frees, `DrainLoss` gives a run in which it loses one, and
  `ViewTheorems`, on top of `Composition`, says which mapping is long enough for it to free them all.
* **Two-slot lenses.** `Counter` and `Histo` split a recording into the epoch load and the later add, so that
  stragglers exist; `Quantile` splits an update into a stale load and a later step; `Dist` has the reservoirs.
* **Allocator and region.** `Bits`, `SizeClass`, `Chains` (linked lists threaded through memory), `Allocator` with
  `AllocatorProof`, `AllocatorTheorems` and `AllocatorProgress`, `Region`, and `AllocatorRegion`, which runs the one on
  top of the other.
* **Composition.** `Composition` runs the optics layer on top of the allocator: blocks are obtained in the step in which
  the allocator returns them and given back in the step in which `alloc_free` takes them over.
* **Hash table.** `Buckets` says what a bucket array means; `HashTable.Table` is the object, refined against a map.
* **Router.** `Path` cuts a request path into tokens, `Router` is the trie, compared with a flat registry.
* **Poller.** `Poller` gathers the lenses of all regions in records through the hash table and emits them.

Conventions. Atomic operations are single sequentially consistent steps. The poller is the only writer of the
epoch, so its load of the epoch and the exchange of the deferred list are one step. Step functions act on values of
type `State`; fields marked as history have no counterpart in memory and never decide a step, and the laws about calls
are stated over the steps of a run, not over that history. Random draws are arbitrary choices. Doubles are exact reals. A mapping of the region is its length, and all mappings show the same
file. Counters are 64-bit and wrap; the epoch counter, positions and histogram cells are unbounded. Failing system
calls appear as a step that changes nothing. An array that `calloc` cannot provide aborts the program, and `memory`
is the longest one it can.

Where a promise turned out not to hold as it stands:

* A traversal misses no lens that stays in the list if every lens listed at its start lies in the mapping of the
  poller, and, while no lens is removed, only then (`TraversalIsExact`). One newer lens beyond the mapping hides all
  older ones, which lie in it (`NewLensHidesOld`).
* A deferred free is dropped if and only if its node, or one pushed after it to the same list, is outside the mapping
  of the poller, and each of its two blocks is leaked if its rounded length is (`DrainIsExact`). If every exchange
  finds its batch in the mapping, everything deferred is freed within two increments (`NothingIsLost`), and a mapping
  as long as the region was at the last increment is enough for that (`FreshMappingLosesNothing`). The poller as it is
  opens the region for each poll, so it always has such a mapping; one that keeps a region open across increments
  while it grows loses a deferral that lies in its mapping (`NewNodeLosesOld`).
* `optics_lens_free` leaves the name table and the list in agreement if and only if the table maps the name to the
  lens of the handle, or does not know the name, and then the call fails (`HandleMustBeSafe`,
  `StaleHandleBreaksAgreement`).
* An increment that finished in the epoch which a poll leaves is in the value of that poll if and only if the epoch
  its thread loaded has the same parity (`OnTimeIffParity`, `LateAddIsNotInItsPoll`). Every increment is in at most one
  value, and a straggler goes to the next poll of its parity (`EachIsCountedOnce`, `StragglerIsReportedLater`).
* The comment in `region_ptr_unsafe` promises safety because the pointer is read before the position. An offset
  granted before the pointer was loaded is safe, and so is every block that `alloc_alloc` returned before, but a stale
  pointer with a newer position is not (`GrantedRangesAreSafe`, `ReturnedBlocksAreReadable`, `SafeIffMappedByThen`,
  `StaleMappingEscapes`).
* The bounds check is exact unless the 64-bit sum wraps (`WrappedLengthIsAccepted`); `ceil_pow2` is right if and only if its argument is at most
  2^63, and `align` if and only if the multiple it looks for is below 2^64.
* p50, p90 and p99 come out in order for every reservoir with samples from a set, whatever sort runs with the
  comparator, if and only if no two values of the set differ by less than 1, because the comparator truncates
  (`OrderedIffApart`). Ten samples, one of them a fraction above the rest, recorded and read into a new value, give p50
  above p90 (`FractionsBreakTheOrder`, `FractionsReported`).
* `htable_put` doubles the table for as long as the window of the key is full. Calls on the table, and with them a
  poll, are completed if the hashes of the keys met differ modulo some c and an array of max(c, 8) buckets can be had
  (`Run`, `PollAt`); with nine keys of the same hash no memory is enough (`CrowdDoesNotFit`, `PollAt`).
* A poll that finds no region emits nothing, not even the begin and done marks (`PollAt`).

## Model

| member | source | states |
|---|---|---|
| LensSystem.StepKeeps | src/optics.c:257-487 | Every step of every thread and of the poller, taken in any state of the invariant, succeeds and leads to such a state. |
| LensTheorems.RunInv | src/optics.c:257-487 | The invariant of list, name table, traversal and deferral holds in every state of every interleaving. |
| LensTheorems.NeverCrashes | src/optics.c:252-388 | No run can be continued into the dereference of a freed block, a free that is not of an outstanding block with its own length, or a failed list assertion. |
| LensTheorems.CursorIsAllocated | src/optics.c:368-388 | The lens a traversal stands on, and the one it would go to next, have not been given back, even if both are unlinked already. |
| LensTheorems.TraversalDescends | src/optics.c:341-388 | Visits go strictly from newer to older lenses, so none is visited twice and there are at most as many as lenses at the head load. |
| LensTheorems.TraversalIsComplete | src/optics.c:341-388 | A traversal that reaches the end has visited every lens that was in the list from the head load to the end, and no lens that was not in it at the head load. |
| TraversalTheorems.TraversalIsExact | src/optics.c:368-388 | In every run, a traversal for which every lens listed at the head load lies in the mapping of the poller goes to the end and visits every lens that stays listed; a listed lens outside is never visited; while no lens is removed, all are visited if and only if all lie in the mapping. |
| TraversalTheorems.NewLensHidesOld | src/optics.c:376-378 | A concrete run in which a lens inside a mapping of 1 MiB stays listed and is not visited, because a newer lens lies beyond the mapping. |
| LensTheorems.TableAndListAgree | src/optics.c:341-487 | Whenever the lock is free, the name table holds exactly the listed lenses under their own names, and prev and next undo each other. |
| NameTheorems.ListIsAsCalled | src/optics.c:416-487 | In every state of every run the name table is what the sequence of creates, registrations and frees makes of it, and whenever the lock is free the list holds exactly the registered lenses. |
| NameTheorems.NamesAreAsCalled | src/lens.c:44-68 | Every lens has the name its creator gave it. |
| ProgressTheorems.CallsEnd | src/optics.c:257-487 | A call takes at most 8 more steps of its own, and two for each lost race for the head of a deferred list, whatever steps of others come between; it always has a step to take or waits for the lock. |
| ProgressTheorems.TraversalsEnd | src/optics.c:368-388 | A traversal takes at most two steps for each lens listed at its head load before the one that ends it, and always has one to take. |
| ProgressTheorems.DrainsEnd | src/optics.c:284-325 | A drain takes at most two steps for each node of the list its increment took, and one to end, and always has one to take. |
| RemovalTheorems.RemovedLensIsAccountedFor | src/optics.c:257-305 | In every state of every run a lens that is out of the list, and in the hands of no thread that works on the list, is carried to its deferred free by a thread or a queued node, or was given up, and never both. |
| RemovalTheorems.GivenUpOnce | src/optics.c:257-305 | Only a failed allocation of a defer node, a drain that stops, and one that cannot reach the block give a lens up, each lens at most once. |
| RemovalTheorems.NothingIsGivenUp | src/optics.c:257-305 | If no such allocation fails and each exchange covers the list it takes, no lens is ever given up. |
| RemovalTheorems.RemovedLensIsSettled | src/optics.c:257-325 | A removed lens whose deferral has been pushed is freed or given up before the poller rests after two more exchanges. |
| RemovalTheorems.RemovedLensIsFreed | src/optics.c:257-325 | Without failed allocations and with covered exchanges, it is given back to the allocator by then. |
| LensTheorems.DeferralTiming | src/optics.c:257-325 | A deferral is drained only by an increment leaving a later epoch than its thread read, one of the first two whose exchange follows its push; it waits no longer than that. |
| DrainTheorems.DrainIsExact | src/optics.c:284-305 | When an increment ends its drain, a deferral of the list it took was dropped if and only if its node or a newer one is outside the mapping, and otherwise lens and node were freed if and only if their rounded lengths fit; all were freed if and only if the mapping covers them all. |
| DrainTheorems.NothingIsLost | src/optics.c:257-325 | In every run whose exchanges each cover the list they take, every deferral waits or had both its blocks freed, in time. |
| DrainLoss.NewNodeLosesOld | src/optics.c:291-296 | A concrete run in which an increment with a mapping of 1 MiB takes a deferral whose lens and node lie in the mapping and drops it, because a newer node of the list does not. |
| ViewTheorems.FreshMappingLosesNothing | src/optics.c:257-325 | In every run of optics layer and allocator, if each exchange is made with a mapping as long as the region was at the increment before, every deferral waits or had both its blocks freed, in time. |
| LensTheorems.FateIsFinal | src/optics.c:284-305 | Once drained or dropped, a deferral is never touched again: nothing is freed twice. |
| LensTheorems.LensLeavesTwoWays | src/optics.c:284-305 | A lens block is given back only by a creator whose name was taken, or by the drain, and then it is unlinked, no traversal is under way, and its thread read an earlier epoch. |
| LensSystem.ReleaseIsLegal | src/optics.c:284-305 | What the drain hands to the allocator is an allocated, unlinked lens with the length recorded for it. |
| LensTheorems.HandleMustBeSafe | src/optics.c:469-487 | Freeing through the handle of any allocated lens succeeds and keeps table and list in agreement if and only if the table maps the name to that lens or to none; with none, nothing changes. |
| LensTheorems.StaleFreeKeepsOther | src/optics.c:469-487 | A free through a stale handle leaves the lens that now has the name in the list but not in the table. |
| LensTheorems.StaleHandleBreaksAgreement | src/optics.c:469-487 | A concrete run that ends with a stale handle whose use breaks the agreement. |
| LensProof.StorePrevKeeps | src/lens.c:140-148 | The back link of the old head can be stored: it is a lens and has none, as the assertion demands. |
| LensProof.StoreHeadKeeps | src/optics.c:341-352 | Publishing the new head keeps the list, its stamps, the name table and a traversal in progress intact. |
| LensProof.KillNextPrevKeeps | src/lens.c:152-161 | The first half of an unlink finds the back link it asserts and keeps the invariant of the half-edited list. |
| LensProof.KillPrevNextKeeps | src/lens.c:163-168 | The second half finds the forward link it asserts, and a traversal on the removed lens can still go on. |
| LensProof.KillHeadStoreKeeps | src/optics.c:354-364 | The head store completes the removal and leaves the lens unlinked, with its own next link kept. |
| DeferralProof.CasDefersKeeps | src/optics.c:270-281 | The push, spurious failures and lost races included, keeps the deferred lists, however long the thread stalled after its epoch load. |
| DeferralProof.ExchangeKeeps | src/optics.c:284-289 | Taking a whole deferred list keeps every deferral in exactly one list, thread or drain. |
| Counter.Conservation | src/lens_counter.c:27-45 | In every state of every run the amounts of all completed calls, taken from the steps alone, equal all polled values plus both slots, in 64-bit arithmetic. |
| Counter.EventIsACall | src/lens_counter.c:27-35 | Every completed increment is the load and the add of one call, with the amount given to it and the epochs counted by the bumps before each. |
| Counter.WrapIsTheResidue | src/lens_counter.c:27-45 | A cell holds the number of the signed 64-bit range that differs from the sum by a multiple of 2^64. |
| Counter.OnTimeIffParity | src/poller_poll.c:191-209 | An increment that completed in the epoch a poll then left is part of the value of that poll if and only if the epoch its thread loaded has the same parity. |
| Counter.EachIsCountedOnce | src/lens_counter.c:27-45 | In every run the increments and polls are those of the steps, each polled value is the sum of the other increments it reports plus the given one if it reports that, and no increment is reported by two polls. |
| Counter.LateAddIsNotInItsPoll | src/poller_poll.c:191-209 | A concrete run of two polls in which an increment is over before the second one bumps and neither has it in its value. |
| Counter.StragglerIsReportedLater | src/poller_poll.c:202-209 | A late increment is part of the value of one later poll of its parity, at the latest of the second of two polls of different parity. |
| Histo.Validate | src/lens_histo.c:35-52 | Bounds are accepted if and only if there are 2 to 9 of them and they strictly increase. |
| Histo.FindCell | src/lens_histo.c:82-97 | The cell found is the one given by how many bounds are at most the value, and its bounds enclose the value. |
| Histo.Conservation | src/lens_histo.c:72-130 | In every state of every run, for every cell and parity, the completed calls whose value belongs to the cell and whose epoch had the parity are in the cell or were added to the records of the reads that left such an epoch, a read in progress included. |
| Histo.ReadAddsWhatItTakes | src/lens_histo.c:103-130 | A read adds to the record it was given what was in the cell of the epoch left and what came since, less what is there at its end, and that all came since. |
| Histo.ReadsEnd | src/lens_histo.c:121-127 | A read empties one cell after the other until it has emptied all, and always has a step to take. |
| Histo.OtherBoundsAreRejected | src/lens_histo.c:111-119 | A read changes nothing if and only if the record has other bounds. |
| Quantile.EstimateIsBounded | src/lens_quantile.c:49-81 | With K updaters, values in [lo, hi] and a start inside, the estimate never leaves [lo - K*a, hi + K*a], whatever the draws and however stale the loads. |
| Quantile.UpdateFollowsItsLoad | src/lens_quantile.c:60-74 | An update goes up if and only if its value is at least the estimate it loaded and the draw succeeds, down if and only if it is below and the draw fails, and otherwise stays. |
| Bits.CeilPow2IsLeast | src/utils/bits.h:24-38 | The result is the least power of two not below the argument if and only if the argument is at most 2^63; otherwise it is 0. |
| Bits.CeilDivIsLeast | src/utils/bits.h:40-43 | The result times the divisor covers the dividend, and no smaller number does. |
| Bits.AlignIsLeast | src/utils/bits.h:45-48 | The result is the least multiple of the alignment that covers the length if and only if one below 2^64 does; otherwise the product wraps to less than the length. |
| SizeClass.AllocClassIsLeast | src/alloc.c:44-72 | The class is in range, its length is the rounded one, it holds the request and it is the smallest that does. |
| SizeClass.ClassOfItsLength | src/alloc.c:44-72 | A class length belongs to its own class and is not rounded again. |
| Chains.PushOk | src/alloc.c:180-188 | Pushing a block in front of a list keeps all lists acyclic and apart, whatever the old head was. |
| Chains.PopOk | src/alloc.c:143-151 | Popping the head keeps all lists. |
| Chains.TakeOk | src/alloc.c:133-138 | Moving a whole free list to an empty alloc list keeps all lists. |
| Chains.SpliceOk | src/alloc.c:99-107 | Putting a row of blocks linked by address in front of a list keeps all lists. |
| AllocatorTheorems.StepKeeps | src/alloc.c:79-189 | Every locked pop, every step of a slab fill and every step of a lock-free push succeeds and keeps the invariant; a returned offset is good. |
| AllocatorTheorems.ReturnsAreGood | src/alloc.c:79-161 | In every run, a returned offset names an all-zero block that was not outstanding, is long enough, lies above the header and inside the region, and overlaps no outstanding block. |
| AllocatorTheorems.ListIsItsMembers | src/alloc.c:123-189 | Following links from any head ends, repeats nothing, stays in the size class and meets exactly the blocks of that list. |
| AllocatorTheorems.BlocksAreConserved | src/alloc.c:79-189 | Every block ever carved is in exactly one way outstanding, listed in its class, held by one free in flight, or part of one slab being filled. |
| AllocatorTheorems.CarvedBlocksStay | src/alloc.c:79-113 | A carved block is never forgotten and never changes class. |
| AllocatorTheorems.HeldStays | src/alloc.c:79-189 | No step but its own free takes an outstanding block away or changes its class, and none but a write of its holder changes its content. |
| AllocatorTheorems.HeldBlocksAreLeftAlone | src/alloc.c:79-189 | In every run, a block that its holder neither frees nor writes stays outstanding with its content, whatever the other threads allocate and free. |
| AllocatorProgress.ListedBlocksAreUsed | src/alloc.c:117-155 | A request returns a block of its class if and only if one of the two lists of the class has one, and then the region does not grow; otherwise it goes on to fill a slab. |
| AllocatorProgress.RequestsAreServed | src/alloc.c:79-155 | In every run a request that the region does not refuse ends with a good block in the hands of its caller; until then the caller always has a step to take, and takes fewer than a slab has blocks. |
| AllocatorProgress.FreesAreListed | src/alloc.c:166-189 | In every run a free ends with its block at the head of the free list of its class, after three more steps and two for each lost race, and always has one to take. |
| AllocatorProof.FreePushKeeps | src/alloc.c:166-189 | The compare-and-exchange push is right even if the head went away and came back, because the old head is only compared. |
| AllocatorProof.SpliceKeeps | src/alloc.c:99-112 | After the lock is taken again, the slab joins whatever the alloc list has become, and its first block is a good return. |
| Composition.ObtainedIsFresh | src/optics.c:247-265 | An offset the allocator returns is not in use by any lens or defer node. |
| Composition.FreeIsAllowed | src/optics.c:284-305 | Every block the optics layer gives back is outstanding in the allocator, and the length it is given back with names its class. |
| Composition.NeverCrashes | src/optics.c:247-305 | In every interleaving of all steps of both layers no offset is handed out while in use and no free breaks the demands of the allocator. |
| Composition.BlocksAreApart | src/alloc.c:79-189 | In every run two blocks the optics layer holds do not overlap, and each lies inside the region with room for the length asked for. |
| Composition.HoldingsAgree | src/optics.c:247-305 | In every run of both layers the blocks outstanding in the allocator are exactly the lenses and defer nodes of the optics layer. |
| Region.NewLength | src/region.c:248-249 | The new length is the first doubling of the old one that exceeds the new position. |
| Region.NewLengthIsUnique | src/region.c:248-249 | There is only one such doubling. |
| Region.GrowsComplete | src/region.c:228-287 | A grow ends at rest with the position raised by the length asked for and exactly that range granted, in the old mapping if it fits and else in the new one. |
| Region.CheckIsExactUnlessItWraps | src/region.c:299-316 | The two comparisons accept exactly the ranges inside the region, if and only if the sum does not wrap into it. |
| Region.WrappedLengthIsAccepted | src/region.c:306-310 | An offset, a length and a region of 1 MiB for which the check accepts a range that ends far outside. |
| Region.GrantsAreDisjoint | src/region.c:228-287 | In every run the position stays inside the current mapping and granted ranges lie above the header, below the position and apart. |
| Region.MappingsStay | src/region.c:260-278 | No mapping is ever removed or changed. |
| Region.GrantedRangesAreSafe | src/region.c:228-327 | A range granted before the pointer load gives an address inside the mapping loaded, whatever grows happen before the position load. |
| Region.SafeIffMappedByThen | src/region.c:299-316 | A reader of a granted range gets an address inside the mapping it loaded if and only if the mapping of that grant, or a later one, was stored by then. |
| Region.StaleMappingEscapes | src/region.c:299-316 | A concrete run in which the address lies beyond the mapping loaded. |
| AllocatorRegion.ReturnedBlocksAreReadable | src/region.c:228-327 | In every run of allocator and region, a reader that loads the pointer after alloc_alloc returned a block gets, for the length asked for, an address inside the mapping it loaded, whatever grows and allocations happen in between. |
| AllocatorRegion.CarvedBlocksAreReadable | src/region.c:299-327 | The same for every range inside a block carved before the pointer load. |
| Buckets.FoundIffStored | src/utils/htable.c:88-95 | The 8-slot window of a key decides membership, although deletes leave bare holes. |
| Buckets.FullWindowIsEightKeys | src/utils/htable.c:110-122 | A window without a free slot holds 8 different keys. |
| Buckets.CrowdDoesNotFit | src/utils/htable.c:31-47 | No table, however large, holds more than 8 keys of the same hash. |
| Buckets.SeparatedAbove | src/utils/htable.c:53-54 | Hashes that differ modulo a power of two differ modulo every larger one. |
| HashTable.TablePut | src/utils/htable.c:31-47 | The bucket goes to the first free slot of the window, and nothing changes if there is none. |
| HashTable.Rehash | src/utils/htable.c:56-68 | A completed copy holds the same map in the new windows; with hashes apart modulo c and a capacity of at least c it completes, every key in its first slot. |
| HashTable.Table.Resize | src/utils/htable.c:49-73 | The map and its size are kept, the capacity is large enough, and with hashes apart modulo c the retries end at the first doubling tried or at a capacity of at most c. |
| HashTable.Table.Reserve | src/utils/htable.c:75-78 | Room for four times the items, with the map kept. |
| HashTable.Table.Get | src/utils/htable.c:85-100 | The answer is that of the map for the key cut at 1024 bytes. |
| HashTable.Table.Put | src/utils/htable.c:102-129 | A new key is added and a known one never overwritten; with hashes apart modulo c the recursion ends with a capacity of at most max(c, 2*cap, 8), and always ends in a table that is roomy for c, which it then stays; at most 8 keys never grow a table of capacity 8 or more. |
| HashTable.Table.Xchg | src/utils/htable.c:131-148 | The value of a known key is replaced and the old one returned; an unknown key changes nothing. |
| HashTable.Table.Del | src/utils/htable.c:150-168 | The key is removed and its value returned; an unknown key changes nothing. |
| HashTable.Table.Run | src/utils/htable.c:85-168 | Any sequence of calls gives the answers of a plain map, up to a call that runs out of memory, and ends with its content; all calls return if the hashes of all keys are apart modulo c, the table is roomy, and memory has room for c buckets, a window and every reserve. |
| HashTable.Next | src/utils/htable.c:171-185 | The next used bucket, with only free ones skipped; none if all the rest are free. |
| HashTable.Diff | src/utils/htable.c:187-194 | The result gains exactly the entries of a whose keys b lacks, and loses or overwrites nothing; it completes under the same condition on the keys of the result. |
| Dist.Merge | src/lens_dist.c:76-136 | The result has min(200, l+r) samples, all among those of the two sides counted with multiplicity, and all of them if they fit; otherwise it is what the draws make of them; it is the other side if one is empty; every access is in bounds. |
| Dist.SamplingAt | src/lens_dist.c:116-124 | Sampling leaves in each place the last sample drawn for it, or else what was there. |
| Dist.Slot.Record | src/lens_dist.c:36-58 | The reservoir stays a choice among the recorded samples, complete and in their order up to 200; beyond them the sample replaces the one its draw names, if it names one, and no other; max stays the maximum or 0. |
| Dist.Value.Read | src/lens_dist.c:138-179 | A read moves everything recorded in the slot to the value, whose reservoir, maximum and percentiles are then those of all samples so far, the percentiles read off what the sort makes of the reservoir; a locked slot is left alone. |
| Dist.Chain | src/lens_dist.c:36-179 | Over any chain of records and reads every sample is in the value or in one slot, and all reservoirs stay choices among their samples. |
| Dist.Value.PercentilesBelowMax | src/lens_dist.c:173-176 | In every state p50 <= p90 <= p99 <= max if samples are equal or at least 1 apart and differences fit an int, and each percentile is at most max in any case. |
| Dist.CmpIsExactIffApart | src/lens_dist.c:61-64 | The comparator has the sign of the difference if and only if the samples are equal or at least 1 apart. |
| Dist.OrderedIffApart | src/lens_dist.c:61-74 | What any sort driven by the comparator makes of any samples from a set gives percentiles in order, for all choices and arrangements of them, if and only if no two values of the set differ by less than 1. |
| Dist.FractionsBreakTheOrder | src/lens_dist.c:61-74 | Ten samples, one a fraction above the rest, are left as they are by the sort, with p50 above p90. |
| Dist.FractionsReported | src/lens_dist.c:36-179 | Ten samples, one a fraction above the rest, recorded in a new slot and read into a new value, make it say p50 > p90. |
| Dist.Qsort | src/lens_dist.c:61-74 | The samples are permuted as Sort says; they stay as they are if no comparison finds fault with them, and ascend if all are apart. |
| Dist.IntegersAreApart | src/lens_dist.c:61-64 | Integer samples meet the condition. |
| Router.RouterAdd | src/utils/crest/router.c:61-95 | The scan loop and recursion compute the functional add. |
| Router.RouterRoute | src/utils/crest/router.c:97-124 | The scan loop with its break and backtracking computes the functional search. |
| Router.AddIsRegistration | src/utils/crest/router.c:61-95 | An add succeeds if and only if its shape is not in the trie, and then changes the trie at that shape only. |
| Router.AddFailsIffRegistered | src/utils/crest/router.c:61-95 | After any adds, an add fails if and only if an earlier pattern differs from it at most in the names behind colons and in what follows a star, and a failed add leaves the trie as it was. |
| Router.RouteIsBest | src/utils/crest/router.c:97-124 | After any adds, a path goes to the accepted pattern that covers it, character for character, a colon for one token and a star for the rest, and says most about it; there is none if and only if no pattern covers it. |
| Router.OneToken | src/utils/crest/path.c:93-100 | A pattern of one token covers exactly the paths of one token if it starts with a colon, every path if it starts with a star, and else exactly itself. |
| Router.BestIsUnique | src/utils/crest/router.c:97-124 | At most one registered shape comes first. |
| Path.PathNew | src/utils/crest/path.c:26-57 | The items are C strings in the cut copy and are exactly the maximal runs without a slash before the query, of the first 1024 characters. |
| Path.CountTokens | src/utils/crest/path.c:35-40 | The first loop counts what the second one stores. |
| Poller.PollAt | src/poller_poll.c:191-229 | The first event is the begin, the last the done, and between them come the metrics in order, exactly one for each key met; each metric is the report of its key, every lens ends drained or untouched as specified, and no region means no event. The poll completes if the hashes of the keys met are apart modulo c and an array of max(c, 8) buckets can be had, and never if nine of them have the same hash. |
| Poller.MetricMeans | src/poller_poll.c:49-129 | A metric has the time of the poll; a counter metric is the sum of the vacated slots of exactly the counters met under its key, each once; elapsed is the positive maximum over the lenses met under the key. |
| Poller.FirstKindIsOfTheFirst | src/poller_poll.c:65-81 | The kind of a record is that of the first lens met under its key. |
| Poller.FedAreTheMatching | src/poller_poll.c:84-129 | A lens is read if and only if it has the kind of the first lens of its key. |
| Poller.UnreadLensIsUntouched | src/poller_poll.c:96-126 | A lens of another kind than the first of its key keeps its slots. |
| Poller.ReadLensIsDrained | src/lens_counter.c:37-45 | A counter that was read has its vacated slot emptied and the other one kept. |
| Poller.LensIsItsCounter | src/lens_counter.c:37-45 | Reading a counter that the poller meets reports and empties the slot of the epoch left, as the two-slot counter does. |
| Poller.GetValue | src/poller_poll.c:49-82 | The record of the key is found or added at the end, with its elapsed time raised; the insertion that is asserted succeeds, and the call completes while the table is roomy for the keys of the poll, and keeps it so. |
| Poller.Emit | src/poller_poll.c:214-219 | Walking the buckets emits each record exactly once. |

## Left out

- Weak memory effects of C11 atomics: steps are sequentially consistent.
- More than one poller on a region: the traversal is safe because the one poller that frees does not traverse meanwhile.
- Update in place of the lens list, the deferred lists, the allocator lists and the region: they are step functions on values, so that all interleavings can be quantified over; aliasing is by offset, as in the shared file.
- Router.RouterAdd: works on values of the trie, not in place; nodes are owned by their parent, so no sharing is lost. The growth of the array of constants is not modelled.
- LensSystem.StepKeeps: takes allocation by its contract, which Composition discharges; a free through a handle whose name belongs to another lens by now, or whose block was given back, is no step, because HandleMustBeSafe and StaleHandleBreaksAgreement show that it breaks what the steps keep.
- LensTheorems.RunInv: is about runs without such frees.
- LensTheorems.NeverCrashes: is about runs without such frees.
- DrainTheorems.DrainIsExact: the mapping of the poller is one length per increment; a poller does not grow its region.
- HashTable.Diff: asks for a result that is not one of the operands, because a put that grows frees the buckets the loop walks over.
- HashTable.Table.Run: between the two conditions, hashes apart and nine alike, it is not stated whether the memory is enough.
- HashTable.Table.Put: the hash is any function of the cut key; FNV-1a itself is not modelled.
- Dist.Value.Read: is atomic with respect to recorders of its slot; lens_dist_read only tests the lock, so stragglers during a read are not covered.
- Dist.Qsort: sorts by insertion with the truncating comparator, one of the sorts that OrderedIffApart ranges over; those leave alone what the comparator finds in order. Differences that do not fit an int, which C leaves undefined, carry no promise.
- Poller.PollAt: reads of gauges, distributions, histograms and quantiles are recorded as reads, not computed; opening regions, the limit of 128 of them and the wait for stragglers are left out, and the keys are given, not built from prefix, host and name.
- Path.PathNew: raw paths hold no NUL character.
- optics_lens_get, the name length check of lens_alloc, gauges, key building, timers, quantile merging, normalisation.
- Uniformity of sampling and any other probabilistic claim.
- Failure modes of mmap, ftruncate and shm_open, process crashes, and reopening a region.
- Backends, sockets, HTTP glue, daemon, logging, threads: input and output.
