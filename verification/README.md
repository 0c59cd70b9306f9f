# arm64chroot: a verified model of its core

arm64chroot runs AArch64 programs as an ordinary user: it interprets (or
translates) their instructions over a software address space, and serves their
system calls over a directory tree that plays the part of `/`. This project
models the parts of it where a mistake is hardest to see, and proves what their
comments promise.

| file | what it models |
|---|---|
| `Reclamation`, `ReclamationProofs`, `ReclamationSafety`, `FetchCache`, `HeldPointers` | the published epochs, the quarantine, the per-thread D-TLBs, fetch caches and pointers held over a second translation, as a step machine over threads |
| `Publication` | what the address-space operations owe that machine |
| `RegionList`, `Backing`, `PageTable`, `Space` | the sorted region list, counted and pinned host allocations, the two-level page table, and the invariant that ties the three together |
| `AddressSpace`, `Remap`, `RemapGrow`, `SpaceLaws` | map, unmap, protect, and the mremap operations, as methods of a class; what they leave in the arguments of the calls, and what one undoes of another |
| `StackGrowth`, `GrowthRule`, `Lending`, `FindFree`, `Vfork`, `VforkStacks` | growth of VM_GROWSDOWN mappings, memory lent to host calls, placement, and what a vfork child's stores and stacks carry back |
| `BindSeqlock`, `BindSeqlockProofs`, `BindSeqlockLive`, `BindTable` | the mount table: its lock-free readers as a step machine, and its list semantics as a class |
| `PathNames`, `PathWalk`, `PathLaws`, `PathHosts`, `PathStarts`, `PathFast`, `PathResolve` | the path walk, its containment, what its answers mean, and the optimistic walk that stands in for it |
| `ForkDescriptors`, `LockOrder` | which descriptors a fork child keeps; the ranked locks and the fork handler |
| `Bits`, `ArmRef`, `ArmIsa`, `PredecodeOps`, `Predecode`, `PredecodeCache` | the pre-decoder, against the pseudocode of the Arm Architecture Reference Manual (DDI 0487: C6.2 and the shared pseudocode of J1) |
| `ExecBudget` | the argument budget of exec and the initial stack it has to bound |

`Options` holds the optional value type. `dafny verify dfyconfig.toml` checks the whole project.

How things are represented:

- Guest addresses are page numbers inside the address space and byte addresses
  at its operations; host addresses are integers. What the host kernel answers
  is a parameter of the operation that asks, constrained only to be memory that
  backs nothing yet.
- A region list is seen through `At(rs, p)`, the one-page slice that page `p`
  belongs to: its host page, protection, allocation, file page and attributes.
  "The view" below is this function together with the flat page table.
- Threads take atomic, sequentially consistent steps; a mutex held over a
  section is a step that takes it and one that drops it.
- Machine words of the pre-decoder are sequences of bits, least significant
  first. Generations, mount sequence numbers and seqlock counters do not wrap.

Where the code and its own comments differ, the code is modelled:

- guest_protect may stop part-way, when the host refuses to reprotect a shared
  mapping. The comment there says the guest's protection is unchanged; the
  regions before the refusal have changed, and the generation was not bumped.
  `AddressSpace.AddrSpace.Protect` says exactly how far the change goes and when
  a cached translation can be left with the protection from before.
- The fetch cache is said to be invalidated on every mapping change. Only the
  thread that makes the change clears its own; another thread's survives, and so
  does it survive that thread's next flush and its system calls, after which the
  quarantine no longer waits for it. `FetchCache` says exactly when the page it
  names can be released under it, and has runs in which it is.
- mem_host_ptr says a pointer the caller already holds from an earlier call stays
  good. Its second call may flush and publish, after which a drain can take what
  the first pointer leads to. `HeldPointers` says exactly when, and has a run in
  which a memory copy is left with one end released.
- A system call is said to be safe to disown for the quarantine, since its handler
  reaches guest memory through translate() alone. The pointer that returns is used
  after it; `HeldPointers` says exactly when a drain can take its page first, and
  has a run in which one does.
- The registry of the emulator's descriptors is said to make a fork child close
  only what other threads held. The guest may close or replace any number; a child
  then closes what it put there. `ForkDescriptors` says exactly when, and has a run.
- The run fold of vfork carry-back joins changes up to 15 unchanged bytes apart
  (its comment says 16), so runs are at least 16 unchanged bytes apart.
- A store is said to be refused when there is no memory for the copy of its
  page. The parent's store of its vfork child's bytes goes ahead all the same
  (`Vfork.Child.Apply`).
- When opening the room below a stack fails after the allocation was made
  deeper, the allocation stays deeper (nothing the guest can see changes).
- pd_bitmasks accepts the reserved all-ones logical immediate.
- path_pin trusts the name `/dev` of the host when the root file system is `/`
  itself and there is no /dev zone. If that name is a link, an accepted fast
  answer below it differs from the full walk's canonical path.

## Model

| member | source | states |
|---|---|---|
| ReclamationSafety.ReclamationIsSafe | src/mem.c:105-236 | In every state of every run, over slot claim, scan, reuse and return, overflow, block begin and end, thread entry and exit, JIT threads that skip the generation check, and sections that end without announcing a loss of rights, for every unblocked thread: nothing its latest translation leads to has been released; nor what a pointer put aside for a second translation leads to, while its thread has not flushed since or that backing is not retired; nor, if moreover the fetch cache is empty, filled since the last flush or system call, or names backing not retired, anything at all it can dereference. D-TLBs whose generation is current refine the page table off the unannounced pages |
| ReclamationSafety.InvIsSafe | src/mem.c:50-76 | The invariant gives all of it |
| ReclamationSafety.NextKeepsInv | src/mem.c:3082-3132 | Each of the fifty-odd atomic steps of the protocol keeps the invariant: the fill and use of the fetch cache, a pointer put aside for a second translation, the healing of an entry that lacks the write bit and the end of a refused guest_protect among them |
| ReclamationSafety.RunKeepsInv | src/mem.c:105-236 | Every state of a run from a fresh process satisfies it |
| ReclamationSafety.InitKeepsInv | src/mem.c:469-497 | A fresh process satisfies it |
| ReclamationSafety.Alone | src/mem.c:917-921 | With one thread counted, the drainer is the only thread there is, whoever is still entering or leaving |
| ReclamationSafety.KeepDrainScan | src/mem.c:205-219 | Keeps the protocol's invariant: the scan for the oldest published generation loses no thread that claims, blocks or unblocks while it goes on |
| ReclamationSafety.KeepRelease | src/mem.c:917-930 | Keeps the protocol's invariant: releasing an allocation retired before the scanned minimum leaves every unblocked thread's reach intact |
| ReclamationSafety.KeepBump | src/mem.c:59-76 | Keeps the protocol's invariant: publishing a change makes every D-TLB filled before it stale, and none that is wrong current |
| ReclamationSafety.KeepPtSet | src/mem.c:548-601 | Keeps the protocol's invariant: a write to a page-table entry, with or without a bump behind it, keeps D-TLBs a refinement |
| ReclamationSafety.KeepRetire | src/mem.c:885-905 | Keeps the protocol's invariant: retiring an unmapped allocation stamps it so that every thread that may hold it publishes no later generation |
| ReclamationProofs.KeepFillStore | src/mem.c:3082-3132 | Keeps the protocol's invariant: an entry stored after the locked walk is right even if the table changed since the generation was loaded |
| ReclamationProofs.KeepClaimTrySlot | src/mem.c:150-192 | Keeps the protocol's invariant: a slot taken by compare-and-swap belongs to one thread |
| ReclamationProofs.KeepClaimUndoAdd | src/mem.c:150-192 | Keeps the protocol's invariant: a thread that found the table full hands back its count, and nobody's slot is lost |
| ReclamationProofs.KeepParkFlag | src/mem.c:939-957 | Keeps the protocol's invariant: a thread that declares itself blocked holds no translated pointer a release could pull away, and its fetch cache is guarded no longer |
| ReclamationProofs.KeepServiceEmpty | src/mem.c:265-274 | Keeps the protocol's invariant: a JIT thread that serviced its interrupt has emptied its D-TLB before it publishes the generation |
| ReclamationProofs.KeepExitDone | src/mem.c:515-523 | Keeps the protocol's invariant: a leaving thread reaches nothing once it is no longer counted |
| ReclamationProofs.KeepFetchFill | src/mem.c:3227-3245 | Keeps the protocol's invariant: a fetch cache just filled is protected as the translation it was filled from |
| ReclamationProofs.KeepKeepEnd | src/core/decode.c:793-807 | Keeps the protocol's invariant: the first end of a copy, put aside, is protected as the translation it came from, until its thread flushes |
| ReclamationProofs.KeepProbeHeal | src/mem.c:3119-3130 | Keeps the protocol's invariant: a hit that lacks the write bit goes back to the shared table under the lock |
| ReclamationProofs.KeepFillHeal | src/mem.c:3119-3130 | So does an entry just read |
| HeldPointers.PointerTakenExactly | src/mem.c:3335-3345 | For every other thread, in a system call or not, and either pointer it holds: a drain by an idle thread takes what it leads to if and only if its backing is retired and neither a live unblocked slot with a generation no later than the retirement nor an unregistered thread holds it back |
| HeldPointers.HolderHoldsBack | src/mem.c:205-224 | The latest translation of a running thread always holds it back, and so does a pointer put aside and not flushed over since |
| HeldPointers.LostMidCopy | src/core/decode.c:793-807 | A run: a copy's first end is translated, its page unmapped by another thread, the second translation flushes and publishes, a drain releases the page, and the copy has both pointers |
| HeldPointers.LostInCall | src/syscall.c:630-645 | A run: a handler translates a page, another thread unmaps it, and a drain releases it before the copy is made |
| FetchCache.ReleasedExactly | src/mem.c:917-930 | A drain by an idle thread releases an allocation if and only if it is retired and nothing holds it back |
| FetchCache.FetchTakenExactly | src/mmu.h:70-79 | For every other thread, in a blocking call or not: a drain by an idle thread takes the page it fetches from if and only if its backing is retired and neither a live unblocked slot with a generation no later than the retirement nor an unregistered thread holds it back |
| FetchCache.TakenIsLost | src/mem.c:943-951 | A blocked thread whose page was taken has lost it, under its next fetch, once the flag is cleared: leaving the call flushes nothing of the fetch cache |
| FetchCache.FetchLostExactly | src/mmu.h:70-79 | For a thread not blocked, taken is lost: the same condition says exactly when its next fetch reads released memory |
| FetchCache.GuardHoldsBack | src/mem.c:205-224 | A cache whose thread has neither flushed nor made a system call since the fill always holds it back |
| FetchCache.MappedIsKept | src/mmu.h:70-79 | A cache whose page is neither unmapped nor replaced is never taken |
| FetchCache.DrainReleases | src/mem.c:917-930 | A drain releases what nothing holds back |
| FetchCache.LostAfterFlush | src/mem.c:3091-3096 | A run: a page is unmapped by another thread, the first thread's next data access flushes and publishes, a drain releases the page, and the fetch cache still names it |
| FetchCache.LostAfterCall | src/mem.c:939-951 | A run: the same, with a system call in place of the data access |
| FetchCache.RightKept | src/mem.c:2047-2052 | A run: a refused guest_protect leaves a current D-TLB entry with a right the table has lost |
| RegionList.InsertOrder | src/mem.c:798-813 | Inserting into free ground keeps the list sorted, disjoint and nonempty |
| RegionList.InsertFree | src/mem.c:798-813 | The view gains exactly the new region, and only its allocation one reference |
| RegionList.CutOutKeeps | src/mem.c:1319-1361 | Cutting a range out of one region, from either end or the middle, takes exactly the range from the view |
| RegionList.SplitKeepsView | src/mem.c:1021-1035 | A split changes no page of the view and adds one reference |
| RegionList.MergeKeepsView | src/mem.c:1044-1104 | A merge changes no page of the view and drops one reference |
| RegionList.SplitThenMerge | src/mem.c:1021-1104 | A split undone by a merge gives back the list |
| RegionList.MergeableMeans | src/mem.c:1044-1060 | Two regions may become one exactly when the second's first page is what the first would have there, were it longer |
| Backing.RefThenUnref | src/mem.c:1021-1104 | ...and every count, with nothing retired |
| Backing.OnePlace | src/mem.c:885-994 | Every allocation ever made is in exactly one place: referenced, orphaned (only pins keep it), quarantined or released; nothing pinned is quarantined or released |
| Backing.RefLife | src/mem.c:1021-1035 | Taking a reference for a new region keeps the life cycle: references equal the number of regions that name the allocation |
| Backing.UnrefLife | src/mem.c:978-994 | Dropping one keeps it too: the last reference retires the allocation once, or parks it as an orphan while it is lent |
| Backing.LastRefRetires | src/mem.c:885-905 | The last reference to an allocation nothing is lent of puts it into the quarantine, with the host memory it had and the generation that runs |
| Backing.NewLife | src/mem.c:959-970 | A new allocation starts with its one region |
| Backing.PinLife | src/mem.c:3349-3399 | A pin keeps the life cycle |
| Backing.UnpinLife | src/mem.c:3401-3419 | Returning the last pin of an orphan retires it, once, and nothing else |
| PageTable.L2Table.Put | src/mem.c:548-554 | The count of live entries stays exact over any overwrite |
| PageTable.PageTable.constructor | src/mem.c:469-490 | An empty table: no second level, no spare, every page absent |
| PageTable.PageTable.Get | src/mem.c:556-559 | Reads the flat table |
| PageTable.PageTable.PutOne | src/mem.c:567-585 | The flat table changes at one page; `used` and `npgtables` stay exact, the spare table all zero, and an emptied table leaves |
| PageTable.PageTable.SetRange | src/mem.c:597-601 | Exactly the range maps to consecutive host pages, or to nothing |
| PageTable.PageTable.ProtRange | src/mem.c:606-613 | Exactly the live entries of the range get the protection |
| PageTable.PageTable.RepointRange | src/mem.c:1579-1586 | Exactly the live entries of the range name the new host pages, with their own permissions |
| PageTable.PageTable.CopyRange | src/mem.c:1747-1753 | The live entries of the source appear at the destination; holes stay holes |
| Space.MapSpace | src/mem.c:1365-1381 | A region over fresh host memory, in ground that was cleared, keeps the whole invariant: sorted regions, exact references, disjoint allocations, no host page behind two guest pages, each present entry its region's own, anonymous memory fully present |
| Space.UnmapSpace | src/mem.c:2002-2008 | Clearing a range from list and table together keeps it |
| Space.CutListed | src/mem.c:1319-1361 | Cutting a range out keeps list and allocations in step |
| Space.ProtectedSpace | src/mem.c:2047-2084 | Changing the protection of a range in list and table together keeps it |
| Space.BumpSpace | src/mem.c:66-72 | A bump keeps it, and afterwards nothing in the quarantine carries the running generation |
| Space.PublishedThen | src/mem.c:885-905 | What two operations retire together is what there was before the first, stamped no earlier than then |
| AddressSpace.AddrSpace.constructor | src/mem.c:492-497 | A new address space is empty and satisfies the invariant |
| AddressSpace.AddrSpace.Find | src/mem.c:824-829 | Finds the region of a page exactly when there is one |
| AddressSpace.AddrSpace.InsertRegion | src/mem.c:798-813 | The list gains the region at its place |
| AddressSpace.AddrSpace.SplitRegionAt | src/mem.c:1021-1035 | The boundaries become the old ones and this one; the view stays |
| AddressSpace.AddrSpace.MergeRange | src/mem.c:1093-1104 | No boundary in the range is left that could go; the view stays; no allocation is retired |
| AddressSpace.AddrSpace.Punch | src/mem.c:1319-1361 | Exactly the range leaves the view, however many regions it cuts; it terminates though a cut in two starts the scan over |
| AddressSpace.AddrSpace.MapAnon | src/mem.c:1365-1381 | The range is the new private mapping, present throughout, whatever was there; the rest of the view is untouched; invariant kept; published, with nothing changed after the bump; what it replaced is retired as by Unmap; the new allocation's record; status for every argument |
| AddressSpace.AddrSpace.MapStack | src/mem.c:1404-1455 | The same for a growing mapping, with the next stack id and room reserved below, which no access reaches |
| AddressSpace.AddrSpace.MapFile | src/mem.c:1457-1562 | The same for a file: pages past its end belong to the mapping and have no entry |
| AddressSpace.AddrSpace.MapOver | src/mem.c:1365-1381 | What the three have in common: a region in the place of whatever was there |
| AddressSpace.AddrSpace.Unmap | src/mem.c:2002-2008 | Exactly the range leaves the view; what it held alone is in the quarantine, with the host memory it had, stamped with a generation no earlier than the one the call began in and over when it returns; nothing is given back |
| AddressSpace.AddrSpace.CheckMapped | src/mem.c:2022-2024 | The page test of mprotect is "every page is in a mapping", presence aside |
| AddressSpace.AddrSpace.Protect | src/mem.c:2010-2085 | Every status; exactly the range's protection changes, up to its end or to the first place the host, asked, refuses; and the change goes unannounced to cached translations if and only if the arguments pass, the host refuses somewhere in the range, and below the first refusal a live entry had another protection |
| AddressSpace.SplitAsks | src/mem.c:2041-2060 | Lining the list up with the range changes nothing about where the host is asked |
| SpaceLaws.AnonPages | src/mem.c:1365-1381 | In the arguments of the call: every byte of the range is on a page that is there, of the protection asked for, of no file, private |
| SpaceLaws.StackPages | src/mem.c:1404-1455 | The same, growing, under its own id |
| SpaceLaws.FilePages | src/mem.c:1457-1562 | Every byte is on the page of the file it names, there exactly if the file reaches it; writable later exactly if private or opened for writing |
| SpaceLaws.StackIdIsNew | src/mem.c:1445-1451 | Until the count wraps, a stack's id is one no page had |
| SpaceLaws.ArgumentsPass | src/mem.c:43-45 | In numbers, which addresses and lengths pass |
| SpaceLaws.WritableMeans | src/mem.c:2028-2040 | The test before making memory writable, page by page |
| SpaceLaws.WritableLater | src/mem.c:2028-2040 | After mapping a file it passes exactly if the mapping is private or the descriptor may write |
| SpaceLaws.PrivateIsNotRefused | src/mem.c:2041-2060 | Reprotecting private memory asks the host nothing and reaches the end |
| SpaceLaws.SharedIsAsked | src/mem.c:2041-2060 | A host that refuses shared memory where the range begins stops the call there |
| SpaceLaws.LastProtectionCounts | src/mem.c:2047-2084 | Of two mprotect calls on a range the last counts |
| SpaceLaws.ProtectAndBack | src/mem.c:2047-2084 | Memory given back its protection is as it was, entries included |
| SpaceLaws.MapThenUnmap | src/mem.c:1365-2008 | A mapping unmapped again leaves free ground, and the rest as it was |
| SpaceLaws.MovedBytes | src/mem.c:1718-1760 | Byte for byte, the destination is the source's host memory with its rights, and the source is free |
| SpaceLaws.MoveAndBack | src/mem.c:1718-1760 | A mapping moved to free ground and back is where it was, holes and all |
| SpaceLaws.DuplicatedBytes | src/mem.c:1782-1818 | Byte for byte, a duplicate is the same byte of the file, there exactly if the first is |
| SpaceLaws.GrownPages | src/mem.c:1934-1976 | A mapping grows by the file's next pages, which are not there yet, or by memory that is; the rest keeps place, rights and file pages |
| SpaceLaws.RightsAreProtection | src/mmu.h:186-189 | A protection is the rights it grants, and they are it |
| SpaceLaws.LentIsAllowed | src/mem.c:3349-3399 | Every byte lent for writing is on a page with the write right, for reading with the read right |
| SpaceLaws.CutIsRefused | src/mem.c:3349-3399 | The byte a loan stops at is outside, unmapped, a hole the file has not reached, or without the right |
| SpaceLaws.ProtectionDecides | src/mem.c:2010-2085 | After mprotect a byte of the range can be lent exactly if the new protection grants it and its page is there or can be filled in |
| SpaceLaws.ProtectThenLend | src/mem.c:2010-3399 | mprotect that takes the right away, then a loan in the range: nothing is lent, and the answer is the cut |
| Publication.MayUnlock | src/mem.c:589-613 | Wherever an address-space operation ends, no live page's host page has changed since the last bump, so the shared table is as the reclamation protocol requires before the lock is dropped |
| Publication.RetireIsStep | src/mem.c:885-905 | Retiring an allocation is the protocol's step, stamp included |
| Publication.DrainIsStep | src/mem.c:917-930 | A drain gives back exactly what the protocol releases for the same bound |
| Publication.ToldIsAll | src/mem.c:59-76 | Where an operation says it bumped last, no entry at all has changed since |
| Space.ProtectKeepsPages | src/mem.c:2047-2084 | guest_protect changes no page's host page, wherever it stopped |
| Space.AdditionKeepsPages | src/mem.c:2803-2806 | Nor do stack growth and the filling of holes |
| Publication.RefusedInSilence | src/mem.c:2047-2052 | A valid address space, a writable private page followed by a shared one the host refuses, in which a call does change a live entry unannounced |
| Remap.Move | src/mem.c:1718-1760 | The view at dst + i is the old view at addr + i, holes included; the source is empty; nothing else changed; invariant kept; published, what the destination held retired as by Unmap |
| Remap.CopyPages | src/mem.c:1731-1756 | The slice loop: the destination shows the source, page by page, while the source is still there |
| Remap.Dup | src/mem.c:1782-1818 | Every status; a second mapping of the shared object over fresh backing, present where the source is; nothing else changed |
| RemapGrow.ExtendBacking | src/mem.c:1591-1713 | Succeeds exactly when the host extends the allocation or other backing may be had; the region keeps its pages' presence and protection, and the host ground behind it is nobody's |
| RemapGrow.BackingIsTheSame | src/mem.c:1624-1702 | Other backing is the same memory: a shared object is moved or duplicated, a private file moved, nothing moved that another thread may have translated or that is lent |
| RemapGrow.BackingIsFound | src/mem.c:1624-1702 | None is had only if the host gives none that would do |
| RemapGrow.Grow | src/mem.c:1934-1976 | Succeeds exactly when a mapping ends there, the ground is free and backing can be had; the mapping goes on for the extra pages and everything mapped keeps its guest address, presence and protection |
| RemapGrow.Lengthen | src/mem.c:1962-1976 | Its last part: the mapping goes on over the extended backing, and the bump is the last thing to happen |
| StackGrowth.VmaEnd | src/mem.c:1079-1082 | Walks to the end of the pieces of one mapping |
| StackGrowth.VmaIsOneMapping | src/mem.c:1067-1082 | The pieces joined by as_same_vma are one gapless run of one stack, and the longest |
| StackGrowth.OneKind | src/mem.c:1063-1072 | One protection, lock and advice throughout, and at its end nothing that agrees in all of them |
| StackGrowth.GrowsTo | src/mem.c:2754-2779 | Answers "grow this region" exactly when the guard gap, RLIMIT_STACK over every piece, RLIMIT_AS and the lowest mappable address allow it, and "present" exactly when the page is a stack's already |
| GrowthRule.MayGrowMeans | src/mem.c:2754-2779 | The list lets a stack grow to a page exactly when, page by page: the ground up to it is free, no usable memory but a stack is within the guard gap with nothing between, the whole mapping and the pages mapped then are within their limits, and the address is high enough |
| GrowthRule.GapIs | src/mem.c:2763-2768 | The test of the region below is that of the pages in the gap |
| GrowthRule.TopIsWhole | src/mem.c:1079-1082 | The mapping RLIMIT_STACK is held to is the longest run of one stack's pages |
| GrowthRule.MappedIsCount | src/mem.c:2101-2106 | as_mapped_bytes counts every mapped page once |
| GrowthRule.GapIsLeft | src/mem.c:2763-2768 | After growth nothing usable but stacks is within the gap |
| StackGrowth.Floor | src/mem.c:2660-2668 | The highest end of another slice below this one in the same allocation, or the allocation's start |
| StackGrowth.FloorClears | src/mem.c:2660-2668 | Between the floor and the slice no host page backs anything |
| StackGrowth.FloorIsUsed | src/mem.c:2660-2668 | The floor is the lowest such place: right below it something is backed |
| StackGrowth.Deepen | src/mem.c:2669-2692 | An allocation made deeper stays disjoint from all others, and its new part reads as zero |
| StackGrowth.OpenDown | src/mem.c:2693-2712 | The pages it opens read as zero even where a region had been before, nothing mapped changes, and the marks of accessible and never-used memory move down with it |
| StackGrowth.GrowDown | src/mem.c:2654-2714 | Succeeds exactly when the ground below the slice is clear and in the allocation, or the allocation can be made deep enough, and the host opens it; then that ground backs nothing, reads as zero and is accessible; a refusal leaves memory as it was |
| StackGrowth.GrowPiece | src/mem.c:2721-2747 | Growth in a region of its own: nothing mapped moves, the new pages read as zero, the pieces are one mapping |
| StackGrowth.Extend | src/mem.c:2784-2807 | Succeeds exactly when growth in place does or the host gives a piece; every entry and every byte mapped before is unchanged, one mapping from the new bottom, new pages zero |
| StackGrowth.Fault | src/mem.c:2811-2823 | Grows exactly when the kernel would and the host can, in place or in a piece; otherwise nothing changes; no entry that was live is touched, so no publication is owed |
| StackGrowth.GrowthIsNew | src/mem.c:2803-2806 | The reason: grown pages had no entry |
| StackGrowth.WithinStackLimit | src/mem.c:2772-2774 | After growth the whole mapping, every piece of it, is within RLIMIT_STACK |
| StackGrowth.StoreKeepsZeroes | src/mmu.h:206-215 | No guest store reaches memory marked never used |
| StackGrowth.BackingKeepsZeroes | src/mmu.h:206-215 | Nor does mapping or retiring change what is marked |
| Lending.Fill | src/mem.c:2570-2592 | A hole in a file mapping gets its own entry exactly when the file has grown into it; no other entry changes |
| Lending.Lend | src/mem.c:3349-3399 | The runs are, byte for byte, the host bytes of the lent prefix; one pin per run and no other; the prefix stops exactly at the first byte that may not be lent even with the holes filled that files have grown into, or when the runs are used up; no entry changes but those holes' |
| Lending.LendChunk | src/mem.c:3372-3396 | One chunk: it lengthens the last run where host memory and allocation continue, else starts one with a pin, or finds the runs used up |
| Lending.ReturnPins | src/mem.c:3401-3417 | Every allocation gets back its pins; retired are exactly the orphans whose last loan this was |
| Lending.ReturnedRetires | src/mem.c:3401-3417 | ...with the generation that runs, and the host memory they had |
| Lending.Drain | src/mem.c:917-930 | In-place compaction of the quarantine: the specification function below |
| Lending.DrainLife | src/mem.c:917-930 | Released are exactly the entries older than the safe generation (all, when alone), each once, none of them mapped; the life cycle is kept |
| Lending.DrainSpares | src/mem.c:917-930 | Of the allocations in use when an operation began, a drain releases none while some thread shows a generation no later than that |
| Lending.Unlend | src/mem.c:3401-3419 | The pins go back and the quarantine is drained |
| Lending.LoanRoundTrip | src/mem.c:3349-3419 | Lending and handing back leaves every count and the quarantine as they were |
| FindFree.FreeMeans | src/mem.c:2412-2431 | The overlap test against gap starts is "no page mapped, and no stack within the guard gap above" |
| FindFree.SkipLosesNothing | src/mem.c:2417-2439 | Skipping to a conflicting region's end passes over no candidate |
| FindFree.Pass | src/mem.c:2417-2439 | One pass finds the lowest place at or above its start, or there is none; it terminates |
| FindFree.Find | src/mem.c:2417-2439 | Next fit, then from the floor; no result means no base up to the ceiling is free, from either start |
| FindFree.FoundIsPlaceable | src/mem.c:2412-2439 | A result is below the end of the address space, unmapped, and leaves the guard gap |
| FindFree.NoneMeans | src/mem.c:2412-2439 | When there is none, every place from the floor to 256 MB below the end has something in it or a stack within the gap above |
| Vfork.RunEnd | src/mem.c:754-793 | A run ends on a changed byte, holds no stretch of 16 unchanged ones, and is followed by one |
| Vfork.Runs | src/mem.c:754-793 | Applying the runs to the original page gives the current one; each starts and ends on a changed byte; they are at least 16 unchanged bytes apart |
| Vfork.QuietPage | src/mem.c:754-793 | Nothing is sent exactly when nothing changed |
| Vfork.Lookup | src/mem.c:661-669 | Binary search: the page's index, or where it would go |
| Vfork.InsertSnap | src/mem.c:674-693 | Inserting there keeps the table ascending and loses nothing |
| Vfork.Child.TrackBegin | src/mem.c:712-729 | Every page is as it was, and no page may be stored to unseen |
| Vfork.Child.Record | src/mem.c:674-693 | The page's original bytes get into the table, or the store is refused |
| Vfork.Child.Store | src/mem.c:2491-2508 | The store lands exactly when the page allows it and its original is kept; every page that differs from its original has it in the table |
| Vfork.Child.Apply | src/mem.c:737-748 | Bytes the process applies for a vfork child of its own land on the page, and the table stays complete if and only if tracking is off, the page's original is kept or can be, or nothing changes |
| Vfork.Child.Flush | src/mem.c:770-793 | For every page mapped when tracking began and still mapped: applying what is emitted for it to its original bytes gives the page |
| VforkStacks.VmaStart | src/mem.c:1074-1077 | Walks to the start of the pieces of one mapping |
| VforkStacks.BaseIsOneMapping | src/mem.c:1067-1077 | From there up the pieces are one gapless run of one stack, and the longest |
| VforkStacks.NoteStacks | src/mem.c:716-722 | Notes exactly the lowest page of every growing mapping |
| VforkStacks.GrownStacks | src/mem.c:759-769 | Sends exactly the noted stacks that go on below where they began, each with its lowest page now, unless one is refused |
| BindSeqlockProofs.AcceptedReadsAreLive | src/path.c:1162-1196 | Under any interleaving of claim, character-by-character fill, publish, remove and slot reuse: an accepted (guest, host, seq) is the whole content of one mount, and that mount was live at a moment during the read |
| BindSeqlockProofs.SealedByOne | src/path.c:1278-1317 | Every version of a slot was written by one bind_add from its own arguments |
| BindSeqlockProofs.PublishedWasLive | src/path.c:1303-1306 | A version published between two moments was live between them |
| BindSeqlockProofs.BeganLive | src/path.c:1162-1170 | What a reader found active as it began was live then |
| BindSeqlockProofs.NextKeepsInv | src/machine.h:75-90 | Every step keeps the seqlock's invariant: an even counter seals the slot's characters |
| BindSeqlockProofs.RunKeepsInv | src/machine.h:75-90 | So does every run |
| BindSeqlockLive.QuietReadAccepts | src/path.c:1162-1196 | A reader that found the slot live and is left alone accepts the mount there exactly when it covers the path wanted, and never another |
| BindTable.BindTable.constructor | src/machine.h:62-90 | An empty table is the empty mount list |
| BindTable.BindTable.Best | src/path.c:1201-1224 | The slot found holds the longest mount point that covers the path at a slash boundary, the latest of equals; none exactly when none covers it |
| BindTable.BindTable.Match | src/path.c:1226-1236 | The path resolves to the winner's directory and the rest of the path |
| BindTable.BindTable.TopAt | src/path.c:1321-1333 | The latest mount at exactly the point |
| BindTable.BindTable.Add | src/path.c:1278-1317 | The mount list gains the mount at its end, in whatever slot was free; every status |
| BindTable.BindTable.Remove | src/path.c:1349-1361 | The topmost mount of the point leaves the list, unless there is none or it is locked |
| BindTable.OneWinner | src/path.c:1201-1224 | At most one mount wins a path |
| BindTable.MountThenUnmount | src/path.c:1278-1361 | An unlocked mount unmounted again leaves every path's resolution as it was |
| BindTable.NewMountTakes | src/path.c:1201-1240 | A new mount takes exactly the paths it covers that no deeper mount has |
| PathHosts.CoversMeans | src/path.c:1162-1196 | A mount point covers a path exactly when its names are the path's first |
| PathHosts.WinsMeans | src/path.c:1201-1224 | The winner is the mount with the most names above the path, the latest of those |
| PathHosts.MountedHost | src/path.c:1395-1426 | Below a mount a path is the mount's directory and the rest of it; what leads back into the root file system is where its zones have it; too long exactly when the joined path is |
| PathHosts.UnmountedHost | src/path.c:1395-1426 | Below none it is the zone's, or in the root file system |
| PathHosts.BelowMount | src/path.c:1226-1236 | In names: the mount's directory and the names after the mount point |
| PathHosts.MountedFile | src/path.c:1867-2097 | A whole resolution of a path without links, below a mount, ends at the file of those names in the mount's directory |
| PathNames.Push | src/path.c:25-32 | Appends a component, exactly when it fits in PATH_MAX |
| PathNames.Pop | src/path.c:35-39 | Drops the last component, stopping at "/" |
| PathNames.Depth | src/path.c:42-49 | Counts the components below the root |
| PathNames.SpellInjective | src/path.c:25-49 | Two canonical paths spelled alike are the same components |
| PathWalk.AbsoluteIsContained | src/path.c:1867-2097 | For every tree of links, an absolute path resolves at or below the root, to components none of which is empty, "." or "..", within PATH_MAX: if the walk itself follows no unlinked-cwd link, and also if every directory such a link names was below the root |
| PathWalk.StepContained | src/path.c:1913-2067 | Each turn of the loop keeps the path below the root and the depth equal to its components there, unless it follows an unlinked-cwd link to a directory that was not |
| PathWalk.WalkContained | src/path.c:1867-2097 | So does the walk from any such state, one inside an unlinked directory included; it ends by (links left of 40, unread text) |
| PathWalk.ResolvesContained | src/path.c:1867-2097 | An absolute path, or one from a directory at or below the root, resolves there, or has followed an unlinked-cwd link out of it |
| PathWalk.StraysMeans | src/path.c:1999-2013 | What that takes: such a link on the walk's way, and a directory that was not below the root |
| PathLaws.CanonicalIsFixed | src/path.c:1867-2097 | Under any root: what a followed absolute path resolved to, spelled from that root, resolves to itself, canonical and host path, however it is asked for again: no component of an answer is a link still to be followed |
| PathLaws.WalkSettles | src/path.c:1971-2067 | The reason: at every moment each component of the canonical path is where the walk would leave it |
| PathLaws.LinkMeansTarget | src/path.c:2050-2067 | A link is what its target and the text after it spell: from the root if absolute, else from the link's directory, with one of 40 links spent, or ELOOP or ENAMETOOLONG exactly when those are used up |
| PathLaws.FewerLinks | src/path.c:2054-2056 | A walk that was not refused for its links goes the same way with any smaller number of them spent |
| PathLaws.OneLinkMore | src/path.c:2054-2056 | A walk with one link more already spent ends the same way, or with ELOOP exactly when it asks for 40 links or more |
| PathLaws.Reach | src/path.c:1912-2067 | The walk comes through a settled directory, whatever the text after it, to that text |
| PathLaws.LinkIsItsTarget | src/path.c:2050-2067 | Of whole resolutions: a path through an absolute link resolves, result or error, as the target with the rest of the path behind it does, or to ELOOP exactly when that asks for 40 links or more |
| PathLaws.LinkIsItsPlace | src/path.c:2050-2067 | A path through a relative link resolves as the path with the target's text in the link's place, or to ELOOP exactly when that asks for 40 links or more |
| PathLaws.DirectoryAndBack | src/path.c:1931-1969 | A name that is a directory and no link, followed by "..", changes nothing |
| PathLaws.NameAndBack | src/path.c:1931-1969 | A name that is no link, followed by "..": nothing if a directory, ENOTDIR if something else, the error of looking if missing |
| PathLaws.DotIsNothing | src/path.c:1926-1969 | "." is nothing, and so is ".." at the root |
| PathLaws.MagicMeansTarget | src/path.c:1983-2014 | A /proc link the emulator answers is followed like any; its error ends the walk; the unlinked working directory's goes on inside it |
| PathLaws.ProcLinkMeansView | src/path.c:2016-2035 | Another link of the host's /proc is followed to where the guest sees its target, and only on the way to something else |
| PathHosts.SlashAsksDirectory | src/path.c:2069-2097 | A slash behind a path: ENOTDIR for a file, EISDIR where a call would create one, else the same path |
| PathHosts.DotAsksDirectory | src/path.c:2069-2097 | So does a final "." |
| PathHosts.NoSlashAsksNothing | src/path.c:2069-2097 | Without one, whatever is there will do |
| PathHosts.LinkItself | src/path.c:1971-1985 | A call that does not follow gets the link itself |
| PathStarts.ClimbsOut | src/path.c:1904-1911 | ".." out of the directory the walk started in asks nothing of it |
| PathStarts.UnlinkedHolds | src/path.c:1926-1931 | An unlinked directory is itself by no name or ".", and has nothing in it |
| PathStarts.WalkAlike | src/path.c:1904-1969 | How much of its start a walk trusts makes no difference where that is all directories |
| PathStarts.RelativeIsAbsolute | src/path.c:1867-2097 | A relative path resolves as the absolute path that spells its directory first |
| PathFast.NoMountAbove | src/path.c:1395-1426 | A path mapped plainly has no prefix covered by a mount |
| PathFast.PlainPrefix | src/path.c:1395-1426 | So its prefixes map plainly too, to the same directory |
| PathFast.PinCertifies | src/path.c:1621-1684 | What the pin and the final test establish: no prefix of the answer that the walk came through is a link or in /proc |
| PathFast.SlowFollows | src/path.c:1867-2097 | Where nothing is a link the full walk goes step by step where the fast one went |
| PathFast.FastRefinesSlow | src/path.c:2148-2213 | From any root and directory, an accepted fast answer is the full walk's canonical and host path, unless the text walks from "/" into a host /dev that is a link, and at least two names further |
| PathFast.FastFolds | src/path.c:1926-1979 | A fast answer is where the walk started and the names of the text |
| PathFast.FastAnswers | src/path.c:1971-1979 | The fast walk answers every canonical path outside the zones that maps plainly |
| PathStarts.CleanIsAccepted | src/path.c:2148-2213 | A canonical path the tree has no link on has its fast answer taken |
| PathFast.LinkedDevAccepted | src/path.c:1377-1388 | A tree where the fast answer "/dev/x/y" is accepted and the full walk's is another |
| PathFast.LinkedDevDiverges | src/path.c:1377-1388 | In that case the two always differ |
| PathFast.FastIsRightWhen | src/path.c:2148-2213 | From any place at or below any root, absolute or relative: an accepted fast answer is the full walk's if and only if the text does not do that |
| PathResolve.Next | src/path.c:1912-1924 | The next component, what follows it, and whether it is the last |
| PathResolve.Walker.DotDot | src/path.c:1931-1969 | The buffers after ".." spell the walk's step |
| PathResolve.Walker.Enter | src/path.c:1971-2067 | The buffers after a name, followed if it is a link, spell the walk's step |
| PathResolve.Walker.Run | src/path.c:1867-2097 | The loop over the buffers ends, with the result of the walk over components |
| PathResolve.Resolving | src/path.c:1867-2097 | The whole of path_walk does, from its arguments |
| PathResolve.ResolvePin | src/path.c:2155-2213 | The answer is the full walk's, whether or not the shortcut was taken (the one exception as above); the error is the walk's, or the pin's where the answer was not already pinned |
| ForkDescriptors.ChildKeepsRightOnes | src/path.c:1785-1806 | Under any interleaving of opens, holds, closes, forgets, hand-overs, thread starts and ends, exec and forks, and of closes and dups of any number by the guest, from a process that may itself be a fork child with entries left to it: every number the guest has not taken from the emulator is in the child's table exactly if it is the guest's or the forking thread's own, and in its list exactly in the latter case |
| ForkDescriptors.ChildRightExactly | src/path.c:1785-1806 | The child's table is right in every number if and only if no entry of another thread names a number that is now the guest's or the forker's own, and none of the forker's one that is another thread's |
| ForkDescriptors.ListRightExactly | src/path.c:1785-1806 | The child's list is exactly the forker's own descriptors if and only if each of the forker's entries still names a descriptor of the forker's |
| ForkDescriptors.AstrayIsTaken | src/machine.h:1214-1222 | An entry stops naming its thread's descriptor only over a number the guest closed or replaced while it was the emulator's |
| ForkDescriptors.GuestLosesOne | src/sys_file.c:2243-2246 | A run: the guest closes a number another thread has pinned, opens a file there and forks; the child closes the file |
| ForkDescriptors.StaleIsFound | src/path.c:1713-1732 | A run in which registering a number finds the entry that was left |
| ForkDescriptors.NoStaleEntry | src/path.c:1713-1744 | A number about to be registered is still listed only if the guest took it from the emulator, and afterwards has the one entry |
| ForkDescriptors.GrandchildDrops | src/path.c:1794-1806 | What a child was left under its parent's id is open in it as it was, and a child of its own does not have it |
| ForkDescriptors.Add | src/path.c:1713-1744 | Registers a number, reporting and dropping an entry it still had |
| ForkDescriptors.Remove | src/path.c:1746-1771 | Swap-remove of the entry of a number, wherever it is |
| ForkDescriptors.Settle | src/path.c:1794-1806 | The child keeps the forker's entries, and closes exactly the others' |
| ForkDescriptors.NextKeepsInv | src/machine.h:1189-1236 | Every step, the guest's on any number among them, keeps: each of the emulator's descriptors is listed or inside a window; and if the guest left it alone, listed under its owner's id or inside its owner's window, and one thread's to see to |
| ForkDescriptors.RunKeepsInv | src/machine.h:1189-1236 | So does every run |
| LockOrder.FiresMeans | src/machine.h:1039-1068 | The mask test fires exactly when a lock of the same or an inner rank is held |
| LockOrder.NextKeepsInv | src/main.c:612-638 | Every step of threads, helpers and the fork handler keeps: held masks below what is waited for, no lock in two hands, no window open beside the barrier, one registrar |
| LockOrder.RunKeepsInv | src/mem.c:414-452 | So does every run |
| LockOrder.NeverShared | src/path.c:1703-1711 | In no state of any run is a lock in two hands, or a window open while a fork has the barrier |
| LockOrder.FurtherIn | src/machine.h:997-1056 | Who blocks a waiting thread, be it itself, and waits too, waits for something further in |
| LockOrder.NeverDeadlocked | src/main.c:612-638 | In no state of any run in which the test does not fire do some threads wait only for each other or for themselves, among the ten locks, the descriptor-window barrier, the registry, the fork handler and parked helpers |
| PredecodeOps.AwcIsArm | src/predecode.c:474-496 | The carry and overflow computation on 64 and on 32 bits is AddWithCarry, result and NZCV |
| PredecodeOps.ShiftIsArm | src/predecode.c:505-516 | pd_shift_reg is ShiftReg |
| PredecodeOps.ExtendIsArm | src/predecode.c:518-531 | pd_extend_reg is ExtendReg at both widths |
| PredecodeOps.BitMasks | src/predecode.c:23-46 | Succeeds exactly for the immediates DecodeBitMasks defines, with its mask |
| PredecodeOps.ReservedIsAccepted | src/predecode.c:23-46 | It differs from a logical immediate's DecodeBitMasks exactly in accepting the reserved all-ones element |
| PredecodeOps.UnsignedAliases | src/predecode.c:894-913 | LSR, LSL, UBFX and UBFIZ are the UBFM of the manual, for every field |
| PredecodeOps.SignedAliases | src/predecode.c:902-920 | ASR and SBFX are its SBFM |
| PredecodeOps.ExtractIs | src/predecode.c:921-932 | The two shifts of EXTR are its concatenation and slice, 0 included |
| Predecode.PcRelMeans | src/predecode.c:888-891 | An ADR or ADRP entry does what the architecture does |
| Predecode.AddImmMeans | src/predecode.c:826-853 | ADD and SUB immediate do, with pre-inverted SUBS immediates and the stack pointer where it applies |
| Predecode.LogImmMeans | src/predecode.c:856-877 | Logical immediates do, flags included |
| Predecode.MoveMeans | src/predecode.c:880-887 | MOVZ, MOVN and MOVK do, at every shift and width |
| Predecode.FieldMeans | src/predecode.c:894-920 | The split of UBFM and SBFM into aliases does |
| Predecode.ExtrMeans | src/predecode.c:921-932 | EXTR does |
| Predecode.LogMeans | src/predecode.c:935-997 | Logical register forms do, shifted, inverted or plain |
| Predecode.AddMeans | src/predecode.c:1000-1047 | ADD and SUB register forms do, shifted or plain |
| Predecode.ExtMeans | src/predecode.c:1050-1067 | ADD and SUB extended register do |
| PredecodeCache.Fill | src/predecode.c:456-470 | For every word: the entry is of that word, has an operation exactly for the add, subtract, logical, move-wide, bitfield, extract and pc-relative words the source has one for, and then means what the architecture says (the reserved immediate aside) |
| PredecodeCache.CoveredExactly | src/predecode.c:456-470 | Those words are exactly the ones the architecture defines an instruction of these groups for, SBFIZ excepted, and the reserved immediate besides |
| PredecodeCache.FillField | src/predecode.c:103-131 | Which alias a bitfield move becomes never changes its meaning |
| PredecodeCache.FillReg | src/predecode.c:332-387 | The same for the register forms, with their packed operands |
| PredecodeCache.Core.Step | src/predecode.c:761-781 | Whatever the cache held, one instruction leaves the state the architecture defines with pc moved on, or what the generic decoder makes of it; a failed fetch changes nothing; an entry is used only for its own word; instructions are counted, and the loop goes on exactly when nothing is pending |
| PredecodeCache.NextPcIs | src/predecode.c:761-781 | The next pc is four bytes on, modulo 2^64 |
| ExecBudget.ArgLimit | src/elf.c:412-422 | Accepts exactly the lists whose strings fit the room beside their pointers |
| ExecBudget.AcceptsExactly | src/elf.c:371-422 | In numbers: an exec is accepted exactly when strings and pointers take at most 128 KB, or at most a quarter of the stack limit and 6 MB, and with 1 KB more fit the limit's whole pages, counted without wrapping |
| ExecBudget.AcceptedFits | src/elf.c:371-410 | What is accepted stays, strings and pointer table together, within the budget, and with the fixed part within the page-rounded limit |
| ExecBudget.WrappedLimitRefuses | src/elf.c:365-410 | A limit whose round-up wraps refuses every image |
| ExecBudget.Place | src/elf.c:515-533 | Strings end to end, with a pointer to each |
| ExecBudget.Lay | src/elf.c:475-602 | The argv, envp and execfn strings tile [arg_start, STACK_TOP) in that order; the stack pointer is 16-aligned, leaves room for its vectors, and is within the page-rounded limit |
| ExecBudget.StackSize | src/elf.c:494-499 | The argument pages and 128 KB, or the limit's whole pages if that is less, never less than the arguments |
| ExecBudget.PointerFinds | src/elf.c:515-535 | Every pointer of the layout is to its own string, with its terminator |

## Left out

- ReclamationSafety.ReclamationIsSafe: threads flagged blocked are outside the claim (memory lent to them is covered by pins, and `HeldPointers` has what becomes of their own pointers); a JIT thread's first block is preceded by a translation; a thread that left makes no further access (the store that clears its tid at exit is not a step); memory is sequentially consistent; the SIGBUS handler's drop of entries is not a step.
- AddressSpace.AddrSpace.Protect: the host's answers are a set of pages at which it refuses; the page loop of the >4 KB host is not modelled.
- AddressSpace.AddrSpace.MapFile: host pages are 4 KB, so the padded view of a misaligned offset does not arise; lengths beyond a host size_t are not refused.
- AddressSpace.AddrSpace.MapStack: how much room is asked for below (stack_room, and the halving of stack_reserve) is a parameter.
- RegionList.MergeKeepsView: the file offset of memory without a file is normalised to 0, as no code reads it.
- Space.MapSpace: host allocations are records in a map, so aliasing of HostMap pointers is not an issue that can arise.
- Lending.Lend: an address with a tag is a flag of the call; the grown pages of a file are a set.
- Lending.Unlend: the safe generation is a parameter here; where it comes from is the subject of Reclamation.
- FindFree.Find: 64-bit wrap of the length's round-up is not modelled, since callers bound the length.
- Vfork.Child.Flush: pages mapped since tracking began are not carried; it is for a table no copy is missing from (Apply says when one can be).
- VforkStacks.NoteStacks: asks that growing mappings carry a nonzero stack id, as the one call that makes them (`AddressSpace.AddrSpace.MapStack`) gives them; noting a stack does not fail for want of memory; what the parent makes of a grown stack (as_stack_grow_shared) is not modelled.
- BindSeqlockProofs.AcceptedReadsAreLive: one slot, other slots seen through the shared sequence counter; the hroot, ro and locked fields, which the source reads outside the validated window; counters do not wrap.
- BindTable.BindTable.Match: the length test on the joined host path is in `PathWalk.Map`.
- PathLaws.CanonicalIsFixed: for answers other than the root itself (whose spelling asks for a directory), of walks that follow no unlinked-cwd link.
- PathStarts.CleanIsAccepted: for a root file system whose path does not end in a slash, and which a name right below it maps to.
- PathStarts.RelativeIsAbsolute: from a directory whose own path has no link on it and is directories all the way; out of another, ClimbsOut and UnlinkedHolds say what the walk does.
- PathFast.FastIsRightWhen: the "only if" is for walks that start at or below the root and follow no unlinked-cwd link, which can lead back below /dev; the "if" (FastRefinesSlow) is for all.
- PathResolve.ResolvePin: the pinned descriptor itself, and the pin of a parent that is a mount, are not modelled; the pin is the set of names it walked, and its error a parameter.
- PathWalk.AbsoluteIsContained: /proc and /dev zones, link-to-symlink files and magic links are functions the walk consults.
- ForkDescriptors.ChildKeepsRightOnes: registering is one atomic step under its mutex; exec's forgetting of dead threads' entries and the close-on-exec walk that closes them are one step.
- LockOrder.NeverDeadlocked: the fork handler's wait for helpers to park is bounded by the source and is no wait here; nothing is said about the order in which a mutex wakes its waiters; a nested window never waits, even while a fork waits for the barrier, which takes a read-write lock that prefers readers, the default.
- PredecodeCache.Fill: branches, loads and stores, multiply, conditional select and compare, and the one- and two-source groups count as not covered, where the source has operations for many of them; BFM and SBFIZ are not covered in the source either.
- PredecodeCache.Core.Step: whether work is pending after the instruction, and the generic decoder, are parameters.
- ExecBudget.Lay: the contents of AT_RANDOM and the auxiliary vector, and the bytes of credentials, are not modelled.
- ELF segment loading (load_one and its protection runs), MREMAP_DONTUNMAP, MADV_DONTFORK and wipe-on-fork, as_file_resized, as_destroy.
- locked_vm, host mlock and mincore, the memfd census and RSS accounting.
- Code generation of the JIT; only its probes and its interrupt service are steps of Reclamation.
- bind_remount and bind_of_host; openat2 probing; the tracking of the working directory.
- System call marshalling, signals, ptrace, netlink and procfs formatting.
