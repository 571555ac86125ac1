# SaghirOS, verified

This project models the two parts of SaghirOS, a small single-CPU x86 kernel, that have hard invariants, and proves what
they promise: its **memory stack** (physical pages, self-mapped page tables, kernel ranges, slabs, kmalloc) and its
**thread machinery** (ready queue, wait queues, timeouts, semaphores, mutexes). Code that updates variables in place is
modelled by classes whose methods update fields; each is proved against functions and invariants on snapshots of those
fields. A stretch of code with interrupts disabled is one atomic step; the one stretch that runs with interrupts as the
caller had them, the enqueue of a new thread, is a step of its own that handlers may interrupt. The conditions under
which the source halts (`SOS_ASSERT_FATAL`) or the CPU takes an exception (a page fault, a division by zero) are
assertions that are proved, or, where a caller can make them fail, an outcome with its exact condition.

## The allocator that allocates from itself (`Kmem*`, `Kmalloc`)

The slab allocator gets its pages from the range allocator, and the range allocator gets its descriptors from a slab
cache. `Kmem.Allocator` has the state of both, and its methods call each other recursively exactly as the C functions
do. `KmemState.Inv` is the invariant: free and used ranges tile the kernel area; lists are sorted and free ranges are
never contiguous; the physical pages behind the kernel area are distinct, and each names the one range that covers its
page; slab lists are non-full slabs followed by full ones; counters are sums; the allocated objects of the range cache
are exactly the range descriptors in use, those of the cache of caches are exactly the structures of the live caches,
and those of the cache of slabs are exactly the slab structures kept off their slabs. A ghost `Flight` value says what
is in flight in the middle of nested calls (a descriptor not yet filled in, a range on no list, a slab link that is
stale, two free ranges not merged yet). All methods terminate, keep the invariant on success and on failure, leave at
least two descriptors in reserve, grow the range cache at most once per call, touch no cache of a caller but the one the
call is about, and leave mapped exactly those pages of other callers' ranges that were. They fail only for want of
memory: a ghost counter `refused` says whether a physical page was refused during a call, and without a refusal a range
is had exactly if some free range is large enough, and a cache grows unless no free range has the pages its slab, a slab
of slab structures and a slab of range descriptors take. What is freed goes where it should: a slab is given up exactly
when nothing of it is allocated and its cache keeps enough free objects without it, and its pages end in free ranges.

What the allocator knows of physical pages is two tables: `frameOf`, what `sos_paging_get_paddr` finds for each page of
the whole address space, and `rangeOf`, the owner recorded on each physical page. `KmemMmu` joins them with the paging
model: a physical page is free exactly when nobody holds it and the MMU finds it nowhere, and mapping and unmapping a
page on the machine are the very steps the allocator takes. `KmemMmuRange` does so for whole ranges: it says how many
free physical pages a range needs, and that a range which cannot be mapped to its end leaves page tables and page
descriptors as they were. `KernelBoot` brings the whole stack up, from physical pages to kernel ranges, and shows that
what each setup asks for is what the ones before it give; at the end the allocator's two tables are what the MMU finds
and what the page descriptors tell. How much memory that takes is stated exactly, from the size of the kernel on.

## Page tables that map themselves (`Physmem`, `Paging*`)

`Paging.Mmu` has a memory of frames, a directory, a TLB and the reference counts of `Physmem.PhysPages`. The code reads
and writes tables through the mirror only, hence through the TLB, which accesses fill, which may lose any entry at any
time, and which only `invlpg` updates. The accounting of references is an equation per frame, kept over any sequence of
calls, and the TLB never holds a translation the MMU would not find.

## Threads (`Thread*`, `Threads`, `SosTime`)

`ThreadState` is a state machine whose steps are the calls of the running thread (up to their return, or up to the
context switch and then what the resumed thread does until it enables interrupts), and timer ticks.
`ThreadProofs.StepKeeps` shows that every step keeps the invariant; `ThreadTheorems`, `ThreadOutcomes` and `ThreadOrder`
say what holds over whole runs, and `ThreadEffects` what the results of calls are worth: exactly the threads that are
told OK have a mutex. `Threads.Kernel` takes the same steps in place, line by line as the C code does. Three hypotheses
are about callers, and each is exact. The idle thread hands the CPU over by yielding only (`ThreadProofs.IdleExactly`).
A thread that releases a mutex is still named as its owner during the hand-over, and a second unlock by that thread is
accepted: `ThreadMutex.UnlockExactly` says when an unlock is safe. The creation of a thread is two steps: the thread is
made and listed with interrupts disabled, and enqueued with interrupts as the caller had them;
`ThreadProofs.EnqueueExactly` says when that is safe, and `ThreadRace` derives it from the writes to the links of the
queue.

## Lists (`Ring`)

The macros of os/list.h, on nodes with `prev` and `next` links, do to sequences what their names say.

## What does not hold, and exactly when it does

- `Physmem.KernelIsProtected`: the classification of physical pages marks the first page of the kernel as free, unless
  the kernel starts on a page boundary (or inside the BIOS area). The linker script aligns it.
- `KernelBoot.DirectoryExactly`: the paging setup does not test the page it allocates for the directory. It is missing
  exactly when the setup of physical pages returned ENOMEM, which os/kernel.c does not test either.
- `KmemMmu.MirrorUnowned`, `KernelBoot.FirstMirrorPage`: freeing an address of the mirror halts, instead of returning an
  error, exactly if the table shown there is present; it is so for the first page of the mirror from boot on.
  `lookup_range` halts exactly for mapped pages without owner, none of which lies in the kernel area.
- `KmemTheorems.ForeignExactly`: other code may map a page exactly if it does so outside the kernel area and the
  physical page has no owner. Demand paging (`pgflt_ex`, os/kernel.c) maps pages inside it.
- `KmemTheorems.FreeExactly`, `KmemTheorems.FreedCacheStructure`: `free_object` accepts any address at which an object
  of a slab starts, but keeps the invariant exactly if that object is held by a caller. The structure of a cache, that
  of the range cache for instance, passes the test too, and its release destroys the cache.
- `KmemTheorems.GrowExactly`, `KmemCreate.UnmappedCache`: `cache_add_slab` writes to the new slab, so a cache created
  without SOS_KSLAB_CREATE_MAP depends on demand paging, which leaves pages without owner. Growing a cache keeps the
  invariant exactly if it was created with its pages mapped. Every caller in the repository asks for that.
- `KmemGeometry.CacheInitialize`: the size of an object is rounded up to words in 32 bits. The last three sizes wrap to
  zero, by which `cache_initialize` then divides.
- `KmemCreate.RemoveCacheExactly`: a cache without slabs can go exactly if it is not one of the setup.
- `Kmalloc.PagesHold`: for a size within the last page below 4 GB, rounding up to pages wraps to zero, and the request
  fails.
- `KmemCreate.DestroyedStays`: a destroyed cache stays in the list of all caches, and so does one that
  `sos_kmem_cache_create` has to give up because its first slab cannot be had.
- `ThreadProofs.IdleExactly`: the idle thread may give up the CPU exactly by yielding. After a sleep, a wait or an exit of
  it, the ready queue can be empty when the next thread gives up the CPU.
- `ThreadMutex.TwoHolders`, `ThreadMutex.UnlockExactly`: a second unlock by the thread that released a mutex can leave
  two threads holding it.
- `ThreadRace.LostThread`, `ThreadRace.RaceExactly`, `ThreadProofs.EnqueueExactly`: a handler that makes a thread ready
  between the first and the last write of the enqueue that ends `sos_create_kernel_thread` makes the queue lose threads,
  and one between the load and the store of `nr_threads ++` makes its count wrong. os/kernel.c creates its threads with
  interrupts disabled, os/mouse_sim.c does not.
- `Paging.WindowExactly`: clearing a new table after it became visible is right only as long as the TLB is filled by
  accesses alone.

## Model

| member | source | states |
|---|---|---|
| KmemTheorems.Tiling | os/kmem_vmm.c:236-305 | every page of the kernel area is in exactly one range, on exactly one of the two lists |
| KmemTheorems.RangesApart | os/kmem_vmm.c:324-371 | ranges stay inside the kernel area and never overlap |
| KmemTheorems.FreeRangesMaximal | os/kmem_vmm.c:470-532 | both lists are sorted by address and two free ranges are never contiguous |
| KmemTheorems.FastLookupIsScan | os/kmem_vmm.c:118-150 | where a page of the kernel area is mapped, its physical page has an owner, and that is the unique range the scan of the used list finds; pages of free ranges are never mapped |
| KmemTheorems.OneFramePerPage | os/kmem_vmm.c:384-419 | in the kernel area no physical page is behind two pages, in the middle of a call either: recording the owner of one page leaves the others alone |
| KmemTheorems.ForeignExactly | os/kernel.c:172-182 | other code may map a page, as demand paging does, if and only if that is outside the kernel area and the physical page has no owner; otherwise the lookup is wrong or halts |
| KmemTheorems.LiveObjectsApart | os/kmem_slab.c:628-699 | two allocated objects, of any caches, share no byte |
| KmemTheorems.PagesAndObjectsApart | os/kmalloc.c:85-92 | the pages of a caller's range meet no allocated object |
| KmemTheorems.ObjectsAndStructuresApart | os/kmem_slab.c:253-261 | no allocated object overlaps a slab structure stored on a slab |
| KmemTheorems.StructuresStayMapped | os/kmem_vmm.c:430-547 | at every moment of a call, every range descriptor, linked or in flight, is an allocated object in mapped pages of a used range, so none is in pages that were given back |
| KmemTheorems.SelfHostedSlabStays | os/kmem_slab.c:790-811 | at every moment of a call, the slab that holds the descriptor of its own range is not wholly free |
| KmemTheorems.CounterAtHead | os/kmem_slab.c:635-669 | the free counter of a cache is the sum over its slabs, and is zero exactly when the head slab has no room: checking the head is sound |
| KmemTheorems.FreeUndoesAlloc | os/kmem_slab.c:745-756 | freeing an object right after its allocation brings back the very same state, even if its slab had become full |
| KmemTheorems.FreeExactly | os/kmem_slab.c:709-769 | the release of an address that passes the test of free_object keeps the invariant if and only if it is an object a caller holds: not one that is free already, nor a structure of the allocator: a range descriptor, an off-slab slab structure, the structure of any cache |
| KmemTheorems.LastObjectGoes | os/kmem_slab.c:745-787 | in a cache that must not keep free objects and has one slab, freeing the only allocated object leaves no slab, and the pages of the slab in free ranges |
| KmemTheorems.FreedCacheStructure | os/kmem_slab.c:709-769 | the structure of any cache, those of the setup included, passes the test of free_object, and releasing it breaks the invariant |
| KmemTheorems.GrowExactly | os/kmem_slab.c:215-279 | with page faults served by demand paging, growing a cache keeps the invariant if and only if the cache was created with its pages mapped; if it was not, the first page of the slab is mapped without an owner, so looking it up halts |
| KmemTheorems.EveryMinimum | os/kmem_slab.c:672-699 | between two calls, every cache has the free objects it was asked to keep, the internal ones too |
| KmemGeometry.CacheInitialize | os/kmem_slab.c:102-171 | the number of objects is the most that fits; ON_SLAB is set exactly when asked for or when the structure fits beside the objects; exact rejection cases; the division by zero exactly for sizes that wrap around; every accepted cache without the boot-only flag has at least one object and room for its header |
| KmemGeometry.ObjectFits | os/kmem_slab.c:193-204 | an object lies inside its slab and stops before an on-slab structure |
| KmemGeometry.ObjectsApart | os/kmem_slab.c:193-204 | two objects of a slab never overlap |
| KmemGeometry.NthObject | os/kmem_slab.c:732-739 | each object that add_slab builds passes the test free_object makes |
| KmemGeometry.AllFree | os/kmem_slab.c:759-766 | a free list as long as a slab has objects contains every one of them, so a slab released by its count is really unused |
| KmemGeometry.AllFreeExactly | os/kmem_slab.c:612-616 | a free list is never longer than the slab has objects, and as long if and only if it contains every one of them, so the test of sos_kmem_cache_destroy is exact |
| KmemFacts.CacheUnused | os/kmem_slab.c:610-616 | all slabs of a cache pass the test of destroy if and only if no object of the cache is allocated |
| KmemFacts.GoesExactly | os/kmem_slab.c:759-766 | after an allocated object is given back, the test of free_object holds if and only if nothing else was allocated in its slab and the other slabs of its cache have at least the free objects the cache must keep |
| KmemSlabSteps.PopKeeps | os/kmem_slab.c:652-669 | taking the head object keeps the whole invariant, the object being in flight |
| KmemSlabSteps.PushKeeps | os/kmem_slab.c:745-757 | giving an object back keeps the whole invariant |
| KmemSlabSteps.AddKeeps | os/kmem_slab.c:175-211 | adding a slab over a new range, whose pages are mapped as the writes of cache_add_slab need, keeps the whole invariant |
| KmemSlabSteps.RemoveKeeps | os/kmem_slab.c:290-318 | removing an unused slab keeps the invariant, its range being stale until its link is cleared |
| KmemRangeSteps.SplitKeeps | os/kmem_vmm.c:362-371 | carving pages off a free range into a new range keeps the invariant; the rest may be empty |
| KmemRangeSteps.TakeWholeKeeps | os/kmem_vmm.c:338-347 | moving a whole free range to the used list keeps the invariant |
| KmemPages.WithPageOk | os/kmem_vmm.c:380-418 | mapping a page that nothing maps, through a new table if there is none, and recording its owner keeps the two tables right |
| KmemPages.UnmapAllOk | os/kmem_vmm.c:463-468 | unmapping the pages of a freed range, and tables with their last page, keeps the two tables right |
| Kmem.Allocator.ClosestPreceding | os/kmem_vmm.c:50-69 | the position after the last range that starts at or before the address |
| Kmem.Allocator.FindSuitable | os/kmem_vmm.c:76-88 | the first free range that is large enough, or none if there is none |
| Kmem.Allocator.LookupRange | os/kmem_vmm.c:118-150 | the one range that is not free and covers the address, by either way; none only if no used range covers it; the source halts exactly on a mapped page without owner, which is never in the kernel area |
| Kmem.Allocator.FreeObject | os/kmem_slab.c:709-769 | an address at which an object of a slab starts, allocated or not, goes to the head of that slab's free list; any other is refused, or halts in the lookup, and nothing changes; whether the slab is now empty and may go, which `KmemFacts.GoesExactly` states for allocated objects |
| Kmem.Allocator.CacheFree | os/kmem_slab.c:772-787 | for an address that is not an object already free nor one of the allocator's own: OK exactly for allocated objects, which then are no more; if nothing else is allocated in the slab of the object and the other slabs of the cache have the free objects it must keep, and exactly then, the slab leaves its cache and its pages end in free ranges; otherwise the object goes to the head of its slab's free list and nothing else changes; no other cache of a caller changes |
| Kmem.Allocator.CacheReleaseSlab | os/kmem_slab.c:290-318 | an empty slab goes with its range, whose pages end in free ranges, and its structure; nothing callers hold changes, and of their caches only its own, which has one slab less |
| Kmem.Allocator.ReleaseStructRange | os/kmem_slab.c:790-811 | a descriptor is given back without freeing pages; its slab is removed and its range returned exactly if no other descriptor is in it and the others have enough free ones |
| Kmem.Allocator.UnmapPages | os/kmem_vmm.c:463-468 | the pages of the range, and tables with their last page, are unmapped, and their physical pages have no owner any more: the function the machine computes too |
| Kmem.Allocator.CoalescePrev | os/kmem_vmm.c:475-503 | a freed range is merged with a contiguous free range before it |
| Kmem.Allocator.CoalesceNext | os/kmem_vmm.c:505-532 | a freed range is merged with a contiguous free range after it |
| Kmem.Allocator.FreeRound | os/kmem_vmm.c:458-533 | one round of the work list: the pages of one pending range end in free ranges, and at most two new ones are pending, each from a descriptor that was released |
| Kmem.Allocator.DelRange | os/kmem_vmm.c:430-547 | the work list ends; the pages of the range, and of the descriptor slabs that became empty, are in free ranges; no page of a free range is taken, and no other caller's range, object or cache changes |
| Kmem.Allocator.NewRange | os/kmem_vmm.c:324-427 | a new range of the pages asked for, overlapping none, even when the nested allocation took a page of the range first chosen, all of its pages mapped if asked and none otherwise; there is one if and only if some free range is large enough and no physical page was refused on the way, which can happen only for the pages to map and for a slab of range descriptors at the reserve of two; at that reserve the range cache grows exactly if a free range must be split, and otherwise never; without growth, it starts where the first free range that is large enough did; if there is none, callers keep what they had |
| Kmem.Allocator.TakePart | os/kmem_vmm.c:354-371 | splitting a free range that is larger than asked for: it succeeds if and only if no physical page was refused to the slab of range descriptors, which is needed at the reserve of two only; the range cache grows by one slab exactly then |
| Kmem.Allocator.NewFrames | os/kmem_vmm.c:380-400 | the physical pages that one page needs: fresh ones, the second exactly if a table is missing, or none, which counts as one refusal |
| Kmem.Allocator.MapOne | os/kmem_vmm.c:380-419 | a physical page nothing maps is mapped, through a new table exactly if there is none, and told its owner; or nothing is mapped, exactly if a physical page is refused |
| Kmem.Allocator.MapRange | os/kmem_vmm.c:376-420 | all pages of the range are mapped, one new page after the other, and name it; or, exactly if a physical page is refused, the range is gone again; nothing else changes for callers |
| Kmem.Allocator.BuildFreeList | os/kmem_slab.c:193-204 | the free list of a new slab holds every object once, in address order |
| Kmem.Allocator.AddSlabOn | os/kmem_slab.c:175-211 | the slab over the new range, all its objects free, at the head of its cache; or a page fault, exactly if the cache was created without its pages mapped |
| Kmem.Allocator.CacheGrow | os/kmem_slab.c:215-279 | a new slab at the head of its cache, all its objects free, or nothing changed for callers, and that only if a physical page was refused or no free range had the pages of the slab, of a slab of slab structures and of a slab of range descriptors; no other cache of a caller changes; the reserve of descriptors is at least two afterwards, and the range cache grew at most once; a page fault on the new slab, only for caches without mapping, which never grow otherwise |
| Kmem.Allocator.MakeRoom | os/kmem_slab.c:635-650 | a free object in the first slab afterwards: nothing happens if there is one, and otherwise the cache grows, which fails for want of memory only; the range cache always has one |
| Kmem.Allocator.TakeObject | os/kmem_slab.c:652-699 | the object taken from the first slab, or none, exactly if a physical page was refused or no free range sufficed when the cache had to grow for its minimum; taking a range descriptor makes the range cache grow by one slab exactly at the reserve of two |
| Kmem.Allocator.Refill | os/kmem_slab.c:672-695 | when the object taken was one the cache must keep, the cache grows, or the object goes back, and that only if a physical page was refused or no free range sufficed; its minimum is there again |
| Kmem.Allocator.CacheAlloc | os/kmem_slab.c:628-699 | a block that was not allocated, or none, and callers keep what they had; none, in a cache with its minimum of free objects, only if a physical page was refused or no free range sufficed; terminates by rank and reserve; at least two descriptors remain, and the range cache grows at most once, for a range descriptor exactly at the reserve of two; the cache has its minimum of free objects afterwards if it had before, and no other cache of a caller changes; a cache with more than its minimum of free objects gives the head object of its head slab, and nothing else changes; no page fault if the cache was created with mapping, and no object otherwise |
| Kmem.Allocator.VmmAlloc | os/kmem_vmm.c:550-561 | the first address of a new range of the pages asked for, all mapped if asked and none otherwise; there is one if and only if some free range is large enough and no physical page was refused, and without mapping none is refused unless the range cache must grow; at the reserve of two it grows by one slab exactly if a free range has to be split; unless it grows, the range is that of the first fit; of other callers' ranges the same pages are mapped as before |
| Kmem.Allocator.VmmFree | os/kmem_vmm.c:564-578 | OK exactly when the address starts a caller's range, which then is no more and whose pages are in free ranges; EBUSY exactly when that range backs a slab; halts exactly on a mapped page without owner; of other callers' ranges the same pages are mapped as before |
| KmemBoot.CreateRange | os/kmem_vmm.c:158-203 | the next area becomes a free range, or a used one whose pages, which are mapped already, are told their owner, and the tiling reaches its end; the owners of all pages are those recorded range by range; no growth of the range cache is needed |
| KmemBoot.Prepare | os/kmem_slab.c:431-544 | the caches of caches, of ranges and of slabs exist, the first two with one hand-built slab |
| KmemBoot.BootDone | os/kmem_slab.c:547-556 | once the area is covered and the first slabs know their ranges, the whole invariant holds |
| KmemBoot.Setup | os/kmem_vmm.c:206-316 | the setup establishes the whole invariant on the pages mapped before it, with the owners that the calls of create_range recorded, and leaves every cache its minimum of free objects, and the cache of caches all its structures but three |
| KmemCreate.MakeCache | os/kmem_slab.c:568-582 | an empty cache named by a new structure, or everything as before, only for the dimensions that are impossible, and always for those, or for want of memory: a structure for impossible dimensions is given back; a division by zero for sizes that wrap around only |
| KmemCreate.Preallocate | os/kmem_slab.c:588-595 | one slab for the new cache, or the cache is gone again, for want of memory only; a page fault only if it was created without mapping |
| KmemMmu.FreeIffUnmapped | os/physmem.c:247-282 | a managed page is free if and only if nobody holds it and the MMU finds it nowhere |
| KmemMmu.MirrorUnowned | os/kmem_vmm.c:122-131 | a lookup of an address in the mirror halts if and only if the table shown there is present |
| KmemMmu.MapRefines | hwcore/paging.c:262-339 | what sos_paging_map does on the machine is what the allocator takes it to do, new table included |
| KmemMmu.UnmapRefines | hwcore/paging.c:342-403 | what sos_paging_unmap does on the machine is what the allocator takes it to do: the table goes exactly with its last page |
| KmemMmu.MapNewPage | os/kmem_vmm.c:382-419 | on the machine, a page is allocated, mapped, left to the mapping and told its owner: the step of the allocator; it fails exactly if too few physical pages are free, and takes as many as it needs |
| KmemMmu.UnmapOwnPage | os/kmem_vmm.c:463-468 | on the machine, the page unmapped is free and without owner: the step of the allocator; or, exactly if other code holds it, it keeps its owner; no other page changes |
| KmemMmu.OwnerOf | os/kmem_vmm.c:122-131 | what the lookup reads through the page tables and the page descriptors is what the allocator's two tables say, for every address |
| KmemMmuRange.UnmapOwnPages | os/kmem_vmm.c:463-468 | the unmapping loop of del_range on the machine computes what the loop of the allocator computes |
| KmemMmuRange.MapOwnPages | os/kmem_vmm.c:376-420 | the mapping loop of new_range on the machine takes the steps of the allocator, and reaches the end if and only if there are as many free physical pages as pages to map and page tables that are missing |
| KmemMmuRange.MapOwnRange | os/kmem_vmm.c:376-427 | mapping a range either succeeds, exactly if there are enough physical pages, or is undone: page tables and owners are what they were, tables made on the way gone again |
| KmemMmuRange.BareIsEmpty | os/kmem_vmm.c:376-380 | a range of which the allocator has mapped no page is one that the machine can map |
| KernelBoot.CoreIsHeld | os/physmem.c:113-139 | every page the paging setup maps was marked used, so its mapping is accounted for |
| KernelBoot.SetupPaging | os/kernel.c:381-395 | the setup of physical pages gives what the paging setup needs; it succeeds exactly if the page descriptors fit and the pages left free are enough for directory and tables; afterwards no physical page is behind two pages of the kernel area, and none has an owner |
| KernelBoot.MapSlabs | os/kmem_slab.c:459-520 | the pages of the first two slabs are mapped after the kernel, or the source halts, exactly if fewer physical pages are free than these and their missing tables take |
| KernelBoot.OwnRanges | os/kmem_vmm.c:184-200 | the calls of create_range write into the page descriptors what the allocator takes the owners to be, for every page of the address space |
| KernelBoot.Boot | os/kernel.c:381-409 | the memory stack comes up: the invariant of the allocator holds, and its tables of mapped pages and of owners are what the MMU finds and what the page descriptors tell; it does so if and only if the machine has enough memory, the exact amount being given in terms of the sizes of memory and kernel |
| KernelBoot.FirstMirrorPage | os/kmem_vmm.c:122-131 | in any state with the invariant and the boot mappings, freeing the first address of the mirror halts |
| KernelBoot.DirectoryExactly | hwcore/paging.c:191-193 | the directory page is missing if and only if the setup of physical pages returned ENOMEM |
| KmemCreate.CacheCreate | os/kmem_slab.c:559-598 | a new cache of the dimensions asked for, named by a new structure, listed, and with one free slab if it must keep a minimum of free objects; or none, only for impossible dimensions or want of memory, and caches, objects and ranges are as before; the list of caches names only live caches afterwards exactly unless the first slab could not be had; a page fault only when a first slab is needed without mapping, a division by zero only for sizes that wrap around |
| KmemCreate.CacheDestroy | os/kmem_slab.c:601-625 | EINVAL for no cache, EBUSY exactly if an object of the cache is allocated, which is always so for the range cache and the cache of caches, and nothing changes then; otherwise its slabs and its structure are given back, and no other cache, object or range changes |
| KmemCreate.DestroyedStays | os/kmem_slab.c:601-625 | destroying a cache leaves it in the list of caches |
| KmemCreate.RemoveCacheExactly | os/kmem_slab.c:601-625 | a cache without slabs can go if and only if it is not one of the three of the setup |
| KmemCreate.UnmappedCache | os/kmem_slab.c:215-279 | a cache of 64-byte objects created without mapping gives no object: the first allocation ends in a page fault, exactly unless memory is wanting |
| KmemCreate.KmallocSetup | os/kmalloc.c:53-69 | the table has one cache per size class, of exactly that size, with mapped slabs; after the setup of the caches it always succeeds |
| Kmalloc.Malloc | os/kmalloc.c:72-93 | an object of the smallest size class that holds the size, stated over the sizes themselves (the head object of its cache, if that has more than its minimum), or the least number of whole mapped pages that holds it; or none, and nothing changed for the caller: only if a physical page was refused, no free range sufficed or the size wraps around; of callers' ranges the same pages are mapped as before, and caches keep their minimum of free objects |
| Kmalloc.Free | os/kmalloc.c:96-111 | for an address that is not an object already free nor one of the allocator's own: an object goes back to the cache it came from, and its slab and pages are given up exactly when they may be, the first address of a caller's range makes its pages free; OK exactly for these two; otherwise nothing changes; halts exactly on a mapped page without owner; of other callers' ranges the same pages are mapped as before, and caches keep their minimum of free objects |
| Kmalloc.PagesRoundTrip | os/kmalloc.c:96-111 | a block of pages handed out is not taken for an object, so freeing it gives back the very range it came from |
| Kmalloc.PagesHold | os/kmalloc.c:85-92 | the pages are the least number that holds the size asked for, if and only if rounding up does not wrap around; otherwise zero pages are asked for |
| Physmem.KernelIsProtected | os/physmem.c:113-139 | the pages of the kernel core are all marked used if and only if the kernel starts above 0xa0000 and on a page boundary (or in the BIOS area) |
| Physmem.PhysPages.Setup | os/physmem.c:62-164 | a page above page 0 is free if and only if its address is neither in [0xa0000, 0x100000) nor in the kernel core, and so the number of free pages is known; the top of the core, after the page descriptors; counts and lists agree, and no page has an owner; refused exactly when the descriptors do not fit, which is exactly when no page is free |
| Physmem.PhysPages.RefNew | os/physmem.c:167-191 | the head of the free list, referenced once, now last of the used list; 0 exactly when none is free |
| Physmem.PhysPages.RefAt | os/physmem.c:215-244 | one more reference; a free page moves to the end of the used list, and otherwise the lists stay; whether it was in use; exact error cases |
| Physmem.PhysPages.Unref | os/physmem.c:247-282 | one reference less; TRUE exactly when it was the last, and the page is then first of the free list and without owner; exact error cases |
| Physmem.PhysPages.SetKmemRange | os/physmem.c:295-306 | the owner of one page changes; the state stays valid exactly if that page is in use or is given none |
| Physmem.PhysPages.GetState | os/physmem.c:308-316 | the used count is the length of the used list, and free and used pages are all pages but page 0 |
| PagingState.SelfMap | hwcore/paging.c:222-228 | the MMU finds table i at page i of the mirror, and the directory at page 255, for the kernel only; nothing where there is no table |
| PagingSteps.MapNewKeeps | hwcore/paging.c:287-312 | mapping where there was no table keeps the accounting of every frame |
| PagingSteps.MapFreshKeeps | hwcore/paging.c:314-329 | mapping where nothing was mapped keeps the accounting |
| PagingSteps.MapOverKeeps | hwcore/paging.c:319-329 | mapping over a page keeps the accounting, and the old page loses one reference |
| PagingSteps.UnmapKeeps | hwcore/paging.c:371-400 | unmapping keeps the accounting, and the count of the table reaches zero exactly when no entry is left |
| PagingSteps.TableRefs | hwcore/paging.c:380-383 | the reference count of a table is the number of its present entries |
| PagingSteps.MappedIsReferenced | hwcore/paging.c:371-382 | a mapped page and its table are referenced, and differ, so neither release can fail |
| Paging.Mmu.Map | hwcore/paging.c:262-339 | the page is mapped as asked and no other translation changes (but for the mirror page of a new table); exact error cases; callers' references, accounting and TLB are right |
| Paging.Mmu.Unmap | hwcore/paging.c:342-403 | nothing is mapped there afterwards and no other translation changes; EINVAL exactly when nothing is mapped or the address is in the mirror; accounting and TLB are right |
| Paging.Mmu.GetPaddr | hwcore/paging.c:439-463 | equals what the MMU would find, for every address |
| Paging.Mmu.GetProt | hwcore/paging.c:406-436 | equals what the MMU would allow the kernel, for every address |
| Paging.Mmu.ReadPde | hwcore/paging.c:272-275 | the address computed through the mirror reads the intended directory entry |
| Paging.Mmu.ReadPte | hwcore/paging.c:277-279 | the address computed through the mirror reads the intended table entry |
| Paging.Mmu.MapHelper | hwcore/paging.c:125-182 | one more page is identity-mapped; it fails exactly if its table is not there and no physical page is free, and takes one exactly for a missing table; the case the source calls impossible does not happen |
| Paging.Mmu.MapArea | hwcore/paging.c:204-220 | every page of the area is identity-mapped if and only if there are as many free physical pages as tables that are missing for it, and those are what it takes |
| Paging.Mmu.Setup | hwcore/paging.c:185-257 | exactly the kernel and the BIOS area are mapped, where they are, and the directory maps itself; all counts are right; OK if and only if there are as many free physical pages as one for the directory and one for each table of these areas, and those are what it takes |
| Paging.Mmu.AllocPage | os/physmem.c:167-191 | a caller's new reference is accounted for |
| Paging.Mmu.RefPage | os/physmem.c:215-244 | a caller's further reference to a page that is not a table is accounted for |
| Paging.Mmu.UnrefPage | os/physmem.c:247-282 | a caller's page becomes free exactly when nobody else holds it and nothing maps it; whether it did is what is returned |
| Paging.DropExactly | hwcore/paging.c:383-400 | dropping a directory entry needs no more than the invlpg of its mirror page, for every TLB that was right, if and only if its table has no entry |
| Paging.WindowExactly | hwcore/paging.c:297-311 | clearing a new table after it became visible leaves every TLB right if and only if its frame held no entry: the order of map relies on the TLB being filled by accesses only |
| Paging.UnmapUndoesMap | hwcore/paging.c:342-403 | map then unmap leaves every translation outside the mirror as it was |
| SosTime.Inc | os/time.c:62-73 | exact on nanoseconds, modulo the overflow of the seconds |
| SosTime.Dec | os/time.c:76-99 | exact on nanoseconds when the second time is not longer |
| SosTime.Cmp | os/time.c:102-119 | the order of the durations, equality exactly for equal times |
| SosTime.IsZero | os/time.c:122-125 | zero exactly for the empty duration |
| ThreadProofs.StepKeeps | os/thread.c:254-301 | every call of every thread, every tick and every forced unblock keeps the invariant of scheduler, queues, timeouts, semaphores and mutexes; the enqueue of a new thread does so if no handler makes a thread ready inside it |
| ThreadProofs.EnqueueExactly | os/sched.c:57-93 | the enqueue of a new thread, interrupted anywhere by handlers that make threads ready, keeps the invariant if and only if they come neither between its first and its last write to the links, nor between the load and the store of the count |
| ThreadProofs.IdleExactly | os/sched.c:118-132 | a step of the idle thread that hands the CPU over keeps the invariant if and only if it is a yield |
| ThreadProofs.WaitersAreAsleep | os/kwaitq.c:216-236 | a waiter is never the running thread, so the wakeup loop never meets the entry it would look at forever |
| ThreadProofs.FireHeadKeeps | os/thread.c:331-343 | a timeout wakes a thread that is asleep, or finds it ready already: forcing it never fails |
| ThreadTheorems.StartInv | os/thread.c:84-124 | a machine with an initial and an idle thread, free mutexes and semaphores of any initial values satisfies the invariant |
| ThreadTheorems.RunKeeps | os/sched.c:96-133 | every state of every run satisfies the invariant, if callers respect the exact conditions on unlocking and on creating threads |
| ThreadTheorems.AThreadIsAlwaysReady | os/sched.c:118-132 | with an idle thread that hands the CPU over by yielding only, whatever else it calls, reschedule never finds the queue empty |
| ThreadTheorems.MutualExclusion | os/ksynch.c:130-233 | over all runs, at most one thread holds a mutex or is woken to be its next holder; it is marked free exactly when there is none, and then nobody waits |
| ThreadTheorems.StepReady | os/sched.c:57-133 | without a switch the ready queue only grows at its tail; a switch takes its head and puts nothing before the rest |
| ThreadTheorems.FifoFairness | os/sched.c:96-133 | the thread at position k of the ready queue runs after exactly k + 1 context switches |
| ThreadTheorems.SemaphoreLaw | os/ksynch.c:40-105 | over all runs, as many threads wait as the value is negative, and grants plus what is left is the initial value plus the ups |
| ThreadOutcomes.SleepContract | os/thread.c:346-407 | a sleep of d that returns OK lasted at least d; otherwise it reports what is left of d; its timeout is not pending any more |
| ThreadOutcomes.WaitContract | os/kwaitq.c:160-194 | a wait, down or lock that blocked returns the wakeup status if it was woken up at any time before it runs again, even after its timeout fired, and EINTR if it was not; it has left all queues |
| ThreadOutcomes.TimeoutWakes | os/time.c:325-355 | over any run: a thread whose sleep, wait, down or lock blocked with a timeout is ready, if it did not get the CPU back before, in every state in which that much time is over |
| ThreadOutcomes.StepInside | os/kwaitq.c:171-188 | each step leaves a sleeping thread inside its call with all that was recorded for it, or returns from it |
| ThreadOrder.InsertPlace | os/time.c:226-247 | a new action goes after those due at the same date or before, and before all later ones |
| ThreadOrder.RegisterExactly | os/time.c:207-219 | the dates that registering an action refuses are exactly those with which the list would have an action that is late |
| ThreadOrder.TickFires | os/time.c:325-355 | a tick fires exactly what is due, in order of date and first come first served on ties, wakes up those threads in that order, and leaves the rest |
| ThreadOrder.NoOvertaking | os/kwaitq.c:86-110 | over any run, two threads that keep waiting on a queue keep their order |
| ThreadOrder.FifoWakeups | os/kwaitq.c:197-249 | over any run, no thread is woken up while one ahead of it in the queue keeps waiting |
| ThreadOrder.WakeupTakes | os/kwaitq.c:207-244 | a wakeup takes as many waiters as asked, from the head, and gives each its status |
| ThreadOrder.StepCounts | os/ksynch.c:40-105 | a step grants at most one unit: to the first waiter in an up, or to a caller that returns OK at once; an up adds one |
| ThreadOrder.Conservation | os/ksynch.c:40-105 | over any run, grants plus units left grow by exactly the number of ups |
| ThreadMutex.UnlockExactly | os/ksynch.c:196-233 | an unlock keeps the invariant if and only if the caller holds the mutex whenever the owner field names it |
| ThreadMutex.TwoHolders | os/ksynch.c:120-129 | a run in which a thread unlocks twice during a hand-over and two threads end up holding the mutex |
| ThreadEffects.LockTells | os/ksynch.c:130-193 | a lock or trylock that returns at once returns OK if and only if nobody has the mutex or was woken up to be its next holder, and the caller alone has it then; otherwise it returns EBUSY and changes nothing |
| ThreadEffects.LockBlocks | os/ksynch.c:141-157 | a lock blocks if and only if the mutex is not free and the caller is not named as its owner |
| ThreadEffects.LockReturns | os/ksynch.c:154-167 | a lock that was blocked returns OK if and only if its thread has the mutex when it returns, which is if and only if it was woken up |
| ThreadEffects.HeldExactly | os/ksynch.c:120-233 | a thread has a mutex after a step, whatever the step, if and only if its lock or trylock returned OK in that step, or it had it before and its unlock did not return OK |
| ThreadEffects.NoSecondLock | os/ksynch.c:120-233 | over any run: between a lock or trylock of one thread that returns OK and the next unlock of that thread that does, no lock or trylock of another thread returns OK |
| ThreadEffects.UnlockTells | os/ksynch.c:196-233 | an unlock returns OK if and only if the caller is named as the owner, who then does not have the mutex: it is marked free if nobody waits, and otherwise the first waiter leaves the queue with OK; anyone else gets EPERM and changes nothing |
| ThreadEffects.TryDownTells | os/ksynch.c:68-90 | a trydown returns OK if and only if there is a unit, and takes it then; otherwise it returns EBUSY and changes nothing |
| ThreadEffects.DownTells | os/ksynch.c:40-65 | a down returns at once if and only if there is a unit, and then it returns OK and took it |
| ThreadEffects.WakesExactly | os/kwaitq.c:197-249 | a call that does not give up the CPU takes off their queues, with their status, exactly the waiters it is about: as many as asked for from a queue of its own, the first of a semaphore, the first of a mutex its caller owns |
| ThreadEffects.OnlyCallersTold | os/kwaitq.c:160-194 | a step leaves a result with its caller if the call returns at once, with the thread that gets the CPU if that returns from a sleep or a wait, and with no other thread |
| ThreadEffects.ReadyExactly | os/sched.c:57-93 | a call that does not give up the CPU makes ready exactly the threads it calls for that are asleep or new, in order, behind all that were ready, and no other thread changes its state |
| ThreadEffects.HandsOverExactly | os/sched.c:96-133 | a call that gives up the CPU leaves its thread last in the queue if it yields, dead if it exits, asleep otherwise, and the first ready thread runs |
| ThreadRace.RacedChain | os/list.h:50-85 | write by write: the `next` links that an interrupted enqueue leaves, for every list, point of interruption and threads enqueued inside |
| ThreadRace.RaceExactly | os/list.h:50-85 | all threads are found from the head of the queue, and the links are a ring, if and only if the interrupt is not between the first and the last write (on an empty list, between the test and the last write) |
| ThreadRace.LostThread | os/thread.c:167-176 | an interleaving in which a created thread is counted as ready and never found |
| Threads.Kernel.constructor | os/thread.c:84-124 | the first state, which satisfies the invariant |
| Threads.Kernel.MakeReady | os/sched.c:81-93 | a thread that is not ready yet joins the tail of the queue |
| Threads.Kernel.Reschedule | os/sched.c:96-133 | the head of the queue, once the current thread took its place in it; the queue is never empty |
| Threads.Kernel.AddAction | os/time.c:178-250 | for a delay from now or a date, the loop finds the place of the action in the sorted list; EBUSY exactly if it is registered already, EINVAL exactly for a date that is past |
| Threads.Kernel.RemoveAction | os/time.c:291-309 | the action leaves the list, and what is left of its delay is reported |
| Threads.Kernel.ForceUnblockThread | os/thread.c:410-441 | a blocked or new thread is made ready; exact error cases |
| Threads.Kernel.SleepTimeout | os/thread.c:331-343 | the thread is marked as timed out and unblocked, which does not fail |
| Threads.Kernel.DoTick | os/time.c:325-355 | takes the tick step of the state machine |
| Threads.Kernel.SleepEnd | os/thread.c:386-404 | what a sleep does and returns once it has the CPU again |
| Threads.Kernel.WaitEnd | os/kwaitq.c:176-188 | an entry nobody took off the queue is removed; the status to return |
| Threads.Kernel.SyncEnd | os/ksynch.c:52-60 | a failed down puts the unit back; a lock that was woken up takes the mutex over |
| Threads.Kernel.Continue | os/thread.c:288-291 | the resumed thread finishes the call it was in |
| Threads.Kernel.SwitchToNext | os/thread.c:254-301 | the switch, and what the next thread does until it enables interrupts |
| Threads.Kernel.Yield | os/thread.c:304-315 | takes the yield step |
| Threads.Kernel.Sleep | os/thread.c:346-407 | takes the sleep step |
| Threads.Kernel.Exit | os/thread.c:203-237 | takes the exit step; the thread is in no wait queue |
| Threads.Kernel.AddThread | os/thread.c:148-170 | takes the creation step: the thread exists and is not ready yet |
| Threads.Kernel.StartThread | os/thread.c:172-174 | takes the enqueue step, interrupted by handlers anywhere but in the window |
| Threads.Kernel.Create | os/thread.c:127-184 | takes both steps of the creation, handlers running anywhere in the second one but in the window |
| Threads.Kernel.ForceUnblock | os/thread.c:410-441 | takes the forced unblock step: a thread that was asleep or new is ready, behind all others; exact error cases |
| Threads.Kernel.Wait | os/kwaitq.c:160-194 | takes the wait step on a queue of its own |
| Threads.Kernel.WakeUp | os/kwaitq.c:197-249 | wakes up to n waiters in order, and ends |
| Threads.Kernel.WakeUpPlain | os/kwaitq.c:197-249 | takes the wakeup step on a queue that belongs to no semaphore or mutex |
| Threads.Kernel.Down | os/ksynch.c:40-65 | takes the down step |
| Threads.Kernel.TryDown | os/ksynch.c:68-90 | takes the trydown step, and returns its result |
| Threads.Kernel.Up | os/ksynch.c:93-105 | takes the up step |
| Threads.Kernel.Lock | os/ksynch.c:130-167 | takes the lock step; `ThreadEffects.LockTells`, `LockBlocks` and `LockReturns` say what it tells its caller |
| Threads.Kernel.TryLock | os/ksynch.c:170-193 | takes the trylock step, and returns its result: see `ThreadEffects.LockTells` |
| Threads.Kernel.Unlock | os/ksynch.c:196-233 | takes the unlock step, and returns its result: see `ThreadEffects.UnlockTells` |
| Ring.Singleton | os/list.h:36-39 | a list of one element |
| Ring.GetTail | os/list.h:47-48 | the last element, none for an empty list |
| Ring.InsertBefore | os/list.h:59-62 | the element goes just before the given one, at any position |
| Ring.InsertAfter | os/list.h:65-70 | the element goes just after the given one, at any position |
| Ring.AddHead | os/list.h:72-78 | the element becomes the first |
| Ring.AddTail | os/list.h:80-85 | the element becomes the last |
| Ring.Delete | os/list.h:88-97 | the element at any position leaves, and its links are cleared |
| Ring.PopHead | os/list.h:99-102 | the first element leaves and is returned |
| Ring.Foreach | os/list.h:106-109 | visits each element once, in order |
| Ring.ForeachBackward | os/list.h:113-117 | visits each element once, in reverse order |
| Ring.Collapse | os/list.h:128-132 | takes every element off, in order, and ends with an empty list |
| Ring.Turn | os/list.h:50-56 | a circle has no beginning: a ring read from any of its elements is the same ring, which is why inserting left of the head adds at the tail |

## Left out

- Demand paging (`pgflt_ex` in os/kernel.c): it maps pages of the kernel area without setting their owner range, which `KmemTheorems.ForeignExactly` shows to break the lookup.
- sos_kmem_vmm_is_valid_vaddr: no more than the lookup.
- KmemCreate.CacheDestroy: must not be given the cache of slab structures while it has no allocated object. The source accepts it and takes it apart; `KmemCreate.RemoveCacheExactly` says what becomes of the invariant then.
- Kmem.Allocator.CacheFree: must not be given the address of an object that is already free, nor of one of the allocator's own structures. The source accepts both; `KmemTheorems.FreeExactly` says what becomes of the invariant then.
- Kmalloc.Free: likewise.
- Kmem.Allocator.MapOne: in the allocator alone, whether a physical page can be found is left open, so that all outcomes are covered; `KmemMmu.MapNewPage` and `KmemMmuRange.MapOwnPages` say when it can, on the machine.
- Kmem.Allocator.MapRange: likewise. The allocator and the paging code are two models, joined range by range in `KmemMmuRange` and at boot in `KernelBoot`. That no other code holds a physical page behind the kernel area is an assumption of the join; `KmemMmu.UnmapOwnPage` says what happens otherwise.
- KmemBoot.Setup: the zeroing of memory (SOS_KSLAB_CREATE_ZERO) is not modelled.
- Kmem.Allocator.CacheGrow: what follows a page fault or a division by zero in the middle of a call. The call is given up there; `KmemTheorems.GrowExactly` says what serving the fault on demand leads to.
- The contents of free objects: the links stored inside them are a sequence in the slab structure; the flags that say whether an allocation may block.
- Paging.Mmu.Map: writes an entry in one store, where the source sets its bit fields one by one; the accessed, dirty and caching bits, large pages and user accesses are not modelled. Pages above the memory managed by os/physmem.c can be mapped but are not counted.
- Physmem.PhysPages.Setup: addresses are not bounded to 32 bits, nor are reference counts.
- Threads.Kernel.Create: the allocation of the thread structure and stack, and its undo; delete_thread; thread numbers stand for addresses and are not used again after exit.
- Threads.Kernel.StartThread: not with handlers in the window of the enqueue, which `ThreadProofs.EnqueueExactly` covers. Handlers make blocked threads ready; what else such a handler does is a step of its own before or after.
- Threads.Kernel.AddAction: dates are nanoseconds; `SosTime` shows that the arithmetic of struct sos_time is exact on them until the seconds overflow. Actions other than the timeouts of threads are not modelled.
- Threads.Kernel.Wait: threads enter wait queues through sos_kwaitq_wait only. With the raw sos_kwaitq_add_entry a running thread could be in a queue, and the `continue` of the wakeup loop would never end.
- Threads.Kernel.WakeUp: the queues of semaphores and mutexes are only woken with the status SOS_OK, by the code of os/ksynch.c.
- sos_ksema_dispose, sos_kmutex_dispose, sos_kwaitq_dispose and the getters: short, and nothing depends on them.
- Console, formatting, segmentation, interrupts set-up, timer chip, CPU contexts, the mouse demo and the rest of the boot sequence.
