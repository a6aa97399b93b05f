# A verified model of Court Kernel

Court Kernel is a capability-based kernel prototype. This project models the four parts
of it that carry its promises, and proves what they guarantee for every input, every run
and every interleaving.

* **Memory of the root court** (`crates/root-court`): the bump allocator, four-level page
  tables built in place, the kernel's own tables, cloned address spaces, the ELF loader and
  the two courtlets that share one ring page.
* **The hosted root** (`crates/court-hosted`): capabilities with attenuated rights and
  transitive revocation, courts, the namespace, corridors and the trace.
* **The shared ring** (`crates/court-hosted-linux/src/shm_ring.rs`): one producer and one
  consumer over a mapped file, split into single loads, byte accesses and index stores.
* **Manifest, policy and the root process** (`manifest.rs`, `root.rs`, `protocol.rs`):
  what accepting a manifest and a policy guarantees about the run that follows.

## How the files are laid out

| files | contents |
|---|---|
| `MachineWords`, `Arithmetic`, `LittleEndian`, `PhysBytes` | words, bytes, frames, quotients |
| `PageTables`, `PageMapper` | walks and translation; the mapper as functions on a state |
| `MapperProofs`, `MapPages`, `MapRanges`, `MapTheorems` | one table, one page, one range, whole calls |
| `TableNeeds`, `MapVerdicts`, `MapProgress`, `MapInstances` | the tables a call needs; when it succeeds; how far it gets and why it stops; two inputs with surprising outcomes |
| `AddressSpaces`, `KernelMemory`, `KernelSpace`, `KernelCoverage` | clones; the in-place classes; the kernel's tables; exactly which pages they map |
| `ImageFormat`, `CourtImage`, `CourtLoader` | the ELF format; one segment; one image |
| `Courtlets`, `CourtPair`, `CourtViews`, `Boot` | one court, two courts, what a court sees, the whole boot path |
| `Capabilities`, `CapRegistry` | the registry as a value and as an object with its worklist |
| `HostedState`, `HostedTrace`, `HostedInvariant`, `HostedSteps` | operations, what a trace says, invariant, steps |
| `HostedTheorems`, `HostedDecisions`, `HostedRoot` | runs, exactly when each operation succeeds, object |
| `RingProtocol`, `RingProofs`, `RingCalls`, `RingTheorems` | state machine, invariant, calls and endpoints, runs |
| `RingEmpty`, `RingWrap`, `SharedRing` | empty slots, index wrap, mapped bytes |
| `Manifests`, `ManifestChecks`, `ManifestReports`, `WireProtocol` | validity, the validation loops, what a refusal says, rights on the wire |
| `DemoState`, `DemoProofs`, `DemoTheorems`, `RootProcess`, `PacketRx` | the root process's tables, runs, object, the built-in demo |

Code that updates things in place is a class or a method with loops, proved equal to a
function on values; what the code promises is then proved of that function.

A memory invariant ties the page tables to a *shape*: for every table frame its level, the
page-number prefix it serves and the root it belongs to. The shape is what lets a table
shared by several roots be reasoned about. The invariant also fixes every flag of every
present entry, so whatever is mapped can be written.

## Main results

* A successful `map_range` translates every byte of its page-truncated range, writable on
  the whole walk from the root to a 4 KiB or 2 MiB leaf, and nothing else changes; on every
  path no existing translation moves; mixed 2 MiB and 4 KiB pages translate as single pages
  would; repeating a call changes no word. A call takes exactly the table pages its range
  is missing, at most three for each page.
* From the tables before a call it is decided whether it succeeds, how many pages it gets
  through, and which error it stops with: nothing in the way of any leaf, missing tables
  within the free pages, and at most 2^36 pages are together exactly what success takes.
* Over any run of mapping calls on any roots, failed calls included, a root's translation
  of a page changes exactly when the page was not mapped and some call got to it in a
  root slot whose table the two roots share, and it then leads to the frame the first such
  call asked for. So calls in the lower half of one clone never
  change what the kernel or another clone translates, although the upper half is shared.
* After the kernel's tables are built a page is mapped exactly if it belongs to the kernel
  image, to the direct map of one of four kinds of memory, or to an executable region.
* An image loads exactly if its header is sound, each of its segments in turn can be placed
  and one of them covers the entry point. Then every byte of every segment is at its link
  address, segments share no page, and two spawned courts reach exactly one common frame,
  the ring. A court finds its own capability and number in its boot block.
* From a memory map and two images, the boot path leaves all allocator memory reachable
  through the kernel's tables, the kernel stacks untouched and both courts ready. With the
  kernel in the upper half no court reaches a stack or a page table, and no later mapping
  call in one lower half is seen by another root.
* Every send, receive and open of the hosted root, over every run, rests on an earlier
  grant to that court with the rights used and nothing on its chain revoked. After any run
  each operation succeeds exactly when the trace of the run and the queue it needs permit
  it. Packets are conserved in order; revocation is transitive and final over every later
  run.
* The ring refines a bounded FIFO queue under every interleaving, its answers included. It
  does so for ever exactly when its capacity divides 2^64, its slots are empty or it has
  none. Once a side is revoked or its peer is down, at most the packet under way still goes
  through, whatever the other side does.
* Validation accepts exactly the valid pairs, and what it says of any other is true. The
  grants of an accepted policy go through exactly when none names read or write and each
  court opens its own corridor with a capability of its own, within its rights. After an
  accepted policy ran, a granted capability authorises what it was granted for, unless it
  was the last grant of a key that the policy revokes; then it authorises nothing.

## Properties that turned out to need a condition

* *Mapping a range with nothing mapped fails only for lack of pages.* A range of more than
  2^36 pages comes round to its own first page and is refused: `MapInstances.TooLong`.
  `MapTheorems.MapRangeFresh` proves the exact condition, the number of free pages included,
  and `MapTheorems.MapRangeExactly` does so for ranges with anything mapped.
* *Mapping into one address space leaves the others alone.* `AddressSpace::map` checks only
  where a range starts. One that runs past 2^47 into a shared upper slot is seen by the
  other roots: `MapInstances.Leaks`. `AddressSpaces.CallExactly` and
  `AddressSpaces.RunExactly` say exactly when, and `AddressSpaces.CallsIsolated` that it
  never happens for ranges that end at or below 2^47.
* *The ring is FIFO after its 64-bit indices wrap.* `create` accepts any capacity, while
  section 17.8 of Court-Kernel-RFC-0002 asks for powers of two. `RingWrap.FifoExactly` is
  the exact condition and `RingWrap.WrapLoses` constructs a run that loses a packet for
  every other capacity.
* *A revoke entry takes back the access of its court.* Two grants may name the same court
  and path; the table keeps the last one only, so the earlier capability stays live:
  `PacketRx.FirstGrantSurvives`. `DemoTheorems.PolicyHonoured` says exactly which are
  withdrawn.
* *An accepted manifest can be built.* Capacity and slot size may be too large to map
  together: `PacketRx.TooLargeToBuild`. `DemoProofs.BuildExactly` is the exact condition on
  sizes.

Where code and comment disagree the model follows the code: the comment on top of
`image.rs` allows ET_EXEC images only, the code takes ET_DYN as well.

## Model

| member | source | states |
|---|---|---|
| `MachineWords.PageAlignUp` | crates/root-court/src/paging.rs:163-165 | page aligned and less than a page above the value; within the last page of the word the sum saturates and the last page boundary comes out |
| `MachineWords.PageAlignDown` | crates/root-court/src/paging.rs:167-169 | result is page aligned and less than a page below the value |
| `PageTables.LinkKeepsWalks` | crates/root-court/src/paging.rs:77-90 | linking a new zeroed table into an empty slot changes no translation of any root |
| `PageTables.LeafKeepsOthers` | crates/root-court/src/paging.rs:92-126 | writing a leaf changes no walk of a page number outside it |
| `PageTables.LeafKeepsOtherHomes` | crates/root-court/src/paging.rs:92-126 | writing into a table of one root changes no walk that stays in another root's tables |
| `PageTables.WalkReadsTables` | crates/root-court/src/paging.rs:77-147 | memory that is no page table takes no part in any translation |
| `PageTables.MappedForKernel` | crates/root-court/src/paging.rs:26-32 | whatever any root translates, every entry of the walk has the write bit, none the execute-disable bit and the page is for the supervisor only |
| `MapperProofs.EnsureTableOk` | crates/root-court/src/paging.rs:77-90 | the next table exists afterwards, linked by an entry with exactly the present and write flags, the invariant is kept, no translation changes, and failure means a huge page in the way or no page left |
| `MapperProofs.TranslationsPersist` | crates/root-court/src/paging.rs:77-147 | whatever extends the tables keeps every translation there was, and what it allows |
| `MapPages.Map4kOk` | crates/root-court/src/paging.rs:92-107 | the page translates to the frame asked for and is writable on the whole walk, no other page changes, in this root or any other but through a shared slot; a 2 MiB page there is a collision, another frame a conflict, and without either only pages can be short |
| `MapPages.Map2mOk` | crates/root-court/src/paging.rs:109-126 | all 512 pages translate to consecutive frames and are writable, no other page changes, in this root or any other but through a shared slot; a page table there is a collision, a 2 MiB page for another frame a conflict, and without either only pages can be short |
| `MapTheorems.MapRangeMaps` | crates/root-court/src/paging.rs:128-147 | success maps every byte of the page-truncated range, writable, to its counterpart and nothing else; a failure names what is in the way of the first leaf that cannot be mapped, or that its tables no longer fit into the free pages |
| `MapTheorems.MapRangeMonotone` | crates/root-court/src/paging.rs:128-147 | on every path, errors midway included, every existing translation of every root is kept |
| `TableNeeds.MapRangeNeeds` | crates/root-court/src/paging.rs:77-147 | a successful call allocates exactly the tables missing for its range, and no call with free pages for them runs out |
| `TableNeeds.NeedBound` | crates/root-court/src/paging.rs:92-147 | at most three tables for every page of the range |
| `MapVerdicts.LoopExactly` | crates/root-court/src/paging.rs:128-147 | told from the tables before the call, it succeeds if and only if every leaf fits, the missing tables fit into the free pages and no page comes round twice |
| `MapTheorems.MapRangeExactly` | crates/root-court/src/paging.rs:128-147 | the same of the whole call, alignment included |
| `MapTheorems.MapRangeFresh` | crates/root-court/src/paging.rs:92-147 | on a range with nothing mapped the call succeeds if and only if the missing tables fit in the free pages and it has at most 2^36 pages |
| `MapProgress.LoopReaches` | crates/root-court/src/paging.rs:128-147 | a call maps the pages up to the one it stops at and none after |
| `MapProgress.ProgressExactly` | crates/root-court/src/paging.rs:128-147 | that is the greatest number of whole leaves that can all be mapped, told from the tables before the call |
| `MapProgress.LoopStops` | crates/root-court/src/paging.rs:92-147 | the error a call stops with is the obstacle found before the call at the next leaf, or a shortage of pages for the tables up to there; past 2^36 pages it is the call's own first page |
| `MapInstances.TooLong` | crates/root-court/src/paging.rs:92-147 | an input at which a range with nothing mapped is refused with pages to spare |
| `MapTheorems.MixedEqualsPlain` | crates/root-court/src/paging.rs:128-147 | mixed huge and small pages translate every page number as mapping each 4 KiB page alone does |
| `MapTheorems.MapRangeRepeats` | crates/root-court/src/paging.rs:128-147 | repeating a successful call succeeds, allocates nothing and changes no word |
| `KernelMemory.BumpAllocator.FromMemmap` | crates/root-court/src/mm.rs:21-46 | picks the first of the longest usable regions and gives an allocator exactly when it keeps 64 KiB after alignment |
| `KernelMemory.BumpAllocator.Alloc` | crates/root-court/src/mm.rs:64-73 | hands out the next aligned pages inside the region or nothing, leaving the cursor alone |
| `KernelMemory.Mapper.NewTable` | crates/root-court/src/paging.rs:65-71 | a fresh zeroed frame, one more table counted, or out of pages |
| `KernelMemory.Mapper.EnsureTable` | crates/root-court/src/paging.rs:77-90 | in-place code agrees on result, memory, flags included, and cursor with the specification of which `EnsureTableOk` is proved |
| `KernelMemory.Mapper.Map4k` | crates/root-court/src/paging.rs:92-107 | in-place code agrees on result, memory, flags included, and cursor with the specification of which `Map4kOk` is proved |
| `KernelMemory.Mapper.Map2m` | crates/root-court/src/paging.rs:109-126 | in-place code agrees on result, memory, flags included, and cursor with the specification of which `Map2mOk` is proved |
| `KernelMemory.Mapper.MapRange` | crates/root-court/src/paging.rs:128-147 | the loop agrees with the recursive specification on result, memory and cursor |
| `KernelMemory.AddressSpace.CloneKernel` | crates/root-court/src/paging.rs:296-325 | the 512-slot copy loop yields exactly the cloned root, or fails as specified |
| `KernelMemory.AddressSpace.Map` | crates/root-court/src/paging.rs:328-344 | refuses a start in the upper half and otherwise agrees with the range specification |
| `AddressSpaces.CloneOk` | crates/root-court/src/paging.rs:296-325 | the clone of any root translates every page as it does and shares its tables; no root changes; a clone of a root with an empty lower half shares none of that half |
| `AddressSpaces.SpaceMapOk` | crates/root-court/src/paging.rs:328-344 | success maps the range in this root, writable; each failure names its obstacle or shortage; other roots change only through shared slots, the upper half only when the range reaches it |
| `AddressSpaces.CallExactly` | crates/root-court/src/paging.rs:328-344 | whatever a call returns, a translation of any root changes exactly when the call got to the page, the slot is shared and the page was not mapped, and then it is the frame asked for; how far a call gets is told from the tables before it |
| `AddressSpaces.RunExactly` | crates/root-court/src/paging.rs:296-344 | the same over any sequence of calls on any roots, the frame being that of the first call to get to the page |
| `AddressSpaces.CallsIsolated` | crates/root-court/src/paging.rs:296-344 | where lower halves are private, any sequence of lower-half calls changes no translation of a root none of them names |
| `AddressSpaces.CallsKeepUpperHalf` | crates/root-court/src/paging.rs:296-344 | such calls leave the upper half of every root as it was |
| `MapInstances.Leaks` | crates/root-court/src/paging.rs:328-344 | an input at which a range that runs past 2^47 in a clone is seen by the kernel root |
| `KernelSpace.Build` | crates/root-court/src/paging.rs:186-260 | makes exactly the planned mappings up to the first error and reports their byte and span counts; on success the new root is the only one, the kernel image and every whole page of every covered region translate and are writable, and the cursor moved by exactly the table pages |
| `KernelCoverage.BuildCovers` | crates/root-court/src/paging.rs:203-245 | after a build a page is mapped if and only if it belongs to the kernel image, to the direct map of a usable, reclaimable, executable or framebuffer region, or to an executable region at or above the kernel's base |
| `KernelSpace.MapEntry` | crates/root-court/src/paging.rs:203-258 | one memory-map entry is in the direct map, and at the kernel's addresses too if it holds the image |
| `KernelSpace.AllocatorReachable` | crates/root-court/src/paging.rs:203-258 | every frame of the allocator's region, page tables included, is reachable through the new direct map |
| `KernelSpace.BringUp` | crates/root-court/src/main.rs:159-209 | allocator, probe page and tables from one memory map: all allocator frames stay reachable, and a kernel mapped in the upper half only leaves the lower half empty; failure means no region, no memory behind it, or the error of the build from the probed first page of the region |
| `ImageFormat.ReadLe` | crates/root-court/src/image.rs:125-138 | the little-endian field, or nothing past the end |
| `ImageFormat.FormatExactly` | crates/root-court/src/image.rs:28-78 | the header checks pass exactly for sound headers, told byte by byte, and otherwise name a fault it has; entry point, count and every field of every program header are read from where the format has them |
| `CourtImage.SegmentsDisjoint` | crates/root-court/src/image.rs:68-118 | segments in different frames share no page, because mapping the second would have met the first |
| `CourtImage.FillOk` | crates/root-court/src/image.rs:98-112 | zeroing and copying give exactly the file bytes followed by zeroes |
| `CourtImage.LoadSegment` | crates/root-court/src/image.rs:69-118 | a segment is loaded if and only if it starts below 2^47, is at most 128 KiB and no shorter than its file part, that part lies in the image, its pages and the tables missing for them fit into the free pages and nothing is in the way of its leaves; then every byte is at its link address, writable; each error is reported for its own cause |
| `CourtLoader.Load` | crates/root-court/src/image.rs:23-123 | an image loads if and only if its header is sound, each placed segment is loadable in its turn and one covers the entry point; then all segments are in place, page-disjoint and writable; failure names the first bad header field, the entry, or the fault of a segment met on the way from the state before to the state after with all segments before it in place |
| `Courtlets.TakeBlock` | crates/root-court/src/courtlet.rs:80-91 | a page of its own that holds the words and zeroes after them, exactly when a page is left |
| `Courtlets.Spawn` | crates/root-court/src/courtlet.rs:69-106 | a spawned court has image, boot block, ring and zeroed stack at their addresses; from a kernel with an empty lower half it reaches only its own frames and the ring and lower halves stay private; other roots change only through shared slots; a failure has its reason at a point between the clone and the state after |
| `CourtViews.ReadySees` | crates/root-court/src/courtlet.rs:69-106 | a ready court reads magic, its capability number, rights, ring address and court number in this order at the boot address, its image at its link addresses, the ring and a zeroed stack at theirs, and may write to all of them |
| `CourtViews.RingSeen` | crates/root-court/src/courtlet.rs:115-127 | through either court's tables the ring page starts with magic, capacity 4 and slot size 64, zeroed indices and a clear revocation flag |
| `Courtlets.ReadyStays` | crates/root-court/src/courtlet.rs:109-146 | a court stays ready while another is spawned |
| `CourtPair.Disjoint` | crates/root-court/src/courtlet.rs:69-146 | courts spawned one after the other share no frame but the ring |
| `CourtPair.StartCourts` | crates/root-court/src/courtlet.rs:109-146 | both courts ready, the ring in the first free page and reached by both, the frames of each in its own stretch behind it; from a kernel with an empty lower half the ring is the only frame both lower halves reach; a failure has its reason at the ring, the first court or the second with the first one ready |
| `Boot.TakeStacks` | crates/root-court/src/stack.rs:15-30 | one zeroed stack a processor, side by side, its aligned top in the direct map, none of them a page table and seen by no root, exactly when the count is in range and there is room |
| `Boot.Start` | crates/root-court/src/main.rs:159-395 | bring-up, stacks and the two courts, each failure with its reason: the allocator's region is in the kernel's direct map to the end, the stacks are untouched, both courts are ready; a kernel mapped in the upper half only leaves the ring as all they share, stacks and page tables out of their reach, and later mapping calls isolated |
| `Capabilities.MintKeeps` | crates/court-hosted/src/lib.rs:237-251 | minting keeps the derivation forest well formed |
| `Capabilities.DelegateKeeps` | crates/court-hosted/src/lib.rs:253-281 | delegation keeps the forest, attenuation included |
| `Capabilities.RevokeKeeps` | crates/court-hosted/src/lib.rs:283-299 | revocation keeps the forest, carried down included |
| `Capabilities.ChainAttenuates` | crates/court-hosted/src/lib.rs:253-299 | over any number of steps rights shrink, object and type stay, and revocation is inherited |
| `Capabilities.AuthorityOfChain` | crates/court-hosted/src/lib.rs:253-313 | a capability authorises exactly when it and everything it derives from is live and holds the rights, and reads as revoked exactly when something on its chain is |
| `Capabilities.DelegationOfChain` | crates/court-hosted/src/lib.rs:253-281 | a capability can be delegated from exactly when it and everything it derives from is live and holds the delegation right and the rights passed on; the new one has exactly those |
| `CapRegistries.WalkDone` | crates/court-hosted/src/lib.rs:283-299 | an empty worklist means exactly the transitive descendants were visited |
| `CapRegistries.CapRegistry.MintRoot` | crates/court-hosted/src/lib.rs:237-251 | in-place code agrees with the value specification |
| `CapRegistries.CapRegistry.Delegate` | crates/court-hosted/src/lib.rs:253-281 | in-place code agrees with the value specification, errors included |
| `CapRegistries.CapRegistry.Revoke` | crates/court-hosted/src/lib.rs:283-299 | the worklist ends and marks the capability and exactly its transitive descendants |
| `HostedRoots.HostedRoot.CreateCourt` | crates/court-hosted/src/lib.rs:386-401 | keeps the invariant and agrees with the value specification |
| `HostedRoots.HostedRoot.CreateCorridor` | crates/court-hosted/src/lib.rs:403-440 | keeps the invariant, agrees with the value specification on result and state, and succeeds exactly when both courts run |
| `HostedRoots.HostedRoot.Lookup` | crates/court-hosted/src/lib.rs:442-451 | keeps the invariant, agrees with the value specification on result and state, and succeeds exactly when the court runs and the path was bound |
| `HostedRoots.HostedRoot.GrantCorridorCap` | crates/court-hosted/src/lib.rs:453-476 | keeps the invariant, agrees with the value specification on result and state, and succeeds exactly when the court runs, the corridor exists with its root capability live and it has the rights |
| `HostedRoots.HostedRoot.Open` | crates/court-hosted/src/lib.rs:478-532 | keeps the invariant, agrees with the value specification on result and state, and succeeds exactly when the court runs and the capability presented was granted to it for the descriptor's object with the rights asked for and is not cut off |
| `HostedRoots.HostedRoot.Check` | crates/court-hosted/src/lib.rs:301-313 | passes exactly when the whole derivation chain is live and holds the rights, names an existing corridor then, and reports a revocation exactly when one lies on the chain |
| `HostedRoots.HostedRoot.Send` | crates/court-hosted/src/lib.rs:534-563 | keeps the invariant, agrees with the value specification on result and state, and succeeds exactly when the court is entitled to send, no other endpoint is gone and there is room |
| `HostedRoots.HostedRoot.Recv` | crates/court-hosted/src/lib.rs:565-581 | keeps the invariant, agrees with the value specification on result and state, and succeeds exactly when the court is entitled to receive and a packet is queued |
| `HostedRoots.HostedRoot.Revoke` | crates/court-hosted/src/lib.rs:583-587 | keeps the invariant, agrees with the value specification on result and state, and succeeds exactly when the capability exists |
| `HostedRoots.HostedRoot.FaultCourt` | crates/court-hosted/src/lib.rs:589-594 | keeps the invariant, agrees with the value specification on result and state, and succeeds exactly when the court was created |
| `HostedSteps.StepKeeps` | crates/court-hosted/src/lib.rs:386-594 | every operation keeps the invariant over courts, holdings, capabilities, corridors and trace; the trace tells all of it but the packets' contents |
| `HostedSteps.RunKeeps` | crates/court-hosted/src/lib.rs:386-594 | the invariant holds in every reachable state |
| `HostedTheorems.EveryUseJustified` | crates/court-hosted/src/lib.rs:453-594 | each Sent, Received and Opened event of any run has an earlier grant to that court, on that object or of that capability, with the rights used, unrevoked along its whole chain; the court had not faulted, nor, for a send, another endpoint |
| `HostedDecisions.RecvExactly` | crates/court-hosted/src/lib.rs:565-581 | a receive takes the oldest packet of the corridor its caller was granted to receive from; it fails only when not running, not granted, cut off, without the right, or on an empty queue, each with its own error |
| `HostedDecisions.SendExactly` | crates/court-hosted/src/lib.rs:534-563 | a send puts the packet last in the queue of the corridor its caller was granted to send to; it fails only for want of entitlement, another endpoint or room, each with its own error |
| `HostedDecisions.OpenExactly` | crates/court-hosted/src/lib.rs:478-532 | an open succeeds if and only if the court runs and the capability presented was granted to it for the descriptor's object, with the rights asked for, and nothing on its chain has been revoked; each refusal has its own reason and is recorded |
| `HostedDecisions.LookupExactly` | crates/court-hosted/src/lib.rs:442-451 | a lookup answers what the path was bound to last, and not found exactly when it never was |
| `HostedDecisions.CreateCorridorExactly` | crates/court-hosted/src/lib.rs:403-440 | a corridor is made exactly between running courts; it is new, empty, open for grants and what its path names |
| `HostedDecisions.GrantExactly` | crates/court-hosted/src/lib.rs:453-476 | a grant succeeds exactly for a running court, an existing corridor with its root capability live and rights it has; the capability is new and its court entitled to it |
| `HostedDecisions.RevokeExactly` | crates/court-hosted/src/lib.rs:583-587 | revoking cuts off exactly what derives from the capability, besides what was cut off already |
| `HostedDecisions.FaultExactly` | crates/court-hosted/src/lib.rs:589-594 | faulting stops exactly the court named |
| `HostedDecisions.EveryDecision` | crates/court-hosted/src/lib.rs:386-594 | after any run any request succeeds if and only if the trace of that run, and the queue it needs, permit it |
| `HostedTheorems.EveryCapAttenuated` | crates/court-hosted/src/lib.rs:237-313 | in every reachable state a capability has at most the rights of each ancestor and is revoked with it |
| `HostedTheorems.PacketsConserved` | crates/court-hosted/src/lib.rs:534-581 | over any run, queued then accepted packets equal delivered then queued ones, in order |
| `HostedTheorems.EveryQueueAccounted` | crates/court-hosted/src/lib.rs:534-594 | from the start accepted packets are delivered ones followed by the queue, within capacity, and trace counts agree |
| `HostedTheorems.ErrorsChangeNothing` | crates/court-hosted/src/lib.rs:403-594 | a failed operation changes nothing but the trace |
| `HostedTheorems.CorridorNeverMissing` | crates/court-hosted/src/lib.rs:534-581 | in reachable states send and recv never report a missing corridor |
| `HostedTheorems.RevocationFinal` | crates/court-hosted/src/lib.rs:453-587 | once a corridor's root capability is revoked, no continuation grants, opens, sends or receives on it |
| `HostedTheorems.RevokedForever` | crates/court-hosted/src/lib.rs:283-313 | over every later run a revoked capability and all that then derives from it authorises nothing; the revocation changes nothing for the others |
| `HostedTheorems.DrainsAfterFault` | crates/court-hosted/src/lib.rs:565-594 | packets queued before a peer faults can all still be received, in order |
| `RingProtocol.TotalLen` | crates/court-hosted-linux/src/shm_ring.rs:213-223 | header and slots together, and nothing exactly when that does not fit 64 bits |
| `RingProtocol.SlotsApart` | crates/court-hosted-linux/src/shm_ring.rs:194-227 | slots lie behind the header, inside the mapping, and do not overlap, for every geometry that maps |
| `RingCalls.CallSteps` | crates/court-hosted-linux/src/shm_ring.rs:62-125 | in every state a side that is idle refuses a revoked or peer-down endpoint, or an oversized packet, with that status and nothing changed; a call under way is about its own packet until it ends |
| `RingCalls.BarredSendsNothing` | crates/court-hosted-linux/src/shm_ring.rs:62-66 | over every run whose sends are all revoked or peer-down an idle producer stays idle, writes and sends nothing, and each of its calls answers that status |
| `RingCalls.BarredSendsAtMostOne` | crates/court-hosted-linux/src/shm_ring.rs:62-93 | from any point on after which all sends are revoked or peer-down, at most the packet under way is still sent |
| `RingCalls.BarredTakesNothing` | crates/court-hosted-linux/src/shm_ring.rs:95-99 | the same of an idle consumer |
| `RingCalls.BarredTakesAtMostOne` | crates/court-hosted-linux/src/shm_ring.rs:95-125 | the same of a receive under way |
| `RingTheorems.StepRefines` | crates/court-hosted-linux/src/shm_ring.rs:62-125 | each single step is a step of a call, endpoint included, and of a bounded FIFO queue; full and empty are answered truthfully, no receive finds a broken slot, no modulo by zero |
| `RingTheorems.EveryRunIsFifo` | crates/court-hosted-linux/src/shm_ring.rs:62-125 | under every interleaving received packets are a prefix of sent ones and at most a capacity is in flight |
| `RingTheorems.SlotsNeverShared` | crates/court-hosted-linux/src/shm_ring.rs:71-122 | no byte of the slot being written lies in the slot being read |
| `RingTheorems.PowersDivide` | Court-Kernel-RFC-0002.md:1157-1157 | every power of two up to 2^64 divides 2^64, so the format's rule is enough |
| `RingWrap.WrapLoses` | crates/court-hosted-linux/src/shm_ring.rs:71-91 | for every other capacity a run is constructed in which a packet is overwritten and another received in its place |
| `RingWrap.FifoExactly` | crates/court-hosted-linux/src/shm_ring.rs:62-125 | every run refines the bounded queue for ever if and only if the capacity is zero or divides 2^64, or the slots are empty; and exactly then it keeps the order of packets |
| `SharedRings.CreatedOpens` | crates/court-hosted-linux/src/shm_ring.rs:155-186 | a mapping just initialised passes validation and decodes to an empty ring of the geometry asked for |
| `SharedRings.LayoutExactly` | crates/court-hosted-linux/src/shm_ring.rs:14-23 | told byte by byte, a mapping opens exactly if it has magic, version and the length of header and slots, and capacity, slot size and the two indices are where the header has them |
| `SharedRings.QueuedAt` | crates/court-hosted-linux/src/shm_ring.rs:74-88 | every queued packet lies in the slot of its index as a four-byte length followed by its bytes |
| `SharedRings.OpenedTiled` | crates/court-hosted-linux/src/shm_ring.rs:173-200 | a mapping that passes validation is exactly its header followed by its slots |
| `RingEmpty.EmptyStep` | crates/court-hosted-linux/src/shm_ring.rs:62-125 | with slots of size zero each step is one of the bounded queue, whatever the capacity and however often the indices wrapped |
| `SharedRings.SharedRing.Create` | crates/court-hosted-linux/src/shm_ring.rs:32-44 | refused exactly when the length does not fit 64 bits; otherwise an empty ring of the geometry asked for whose mapping passes validation |
| `SharedRings.SharedRing.Send` | crates/court-hosted-linux/src/shm_ring.rs:62-93 | on the mapped bytes: each answer for its own cause, one packet appended on success, nothing changed otherwise |
| `SharedRings.SharedRing.Recv` | crates/court-hosted-linux/src/shm_ring.rs:95-125 | on the mapped bytes: the oldest packet taken out whole, or nothing changed |
| `Manifests.NamesInOrder` | crates/court-hosted-linux/src/manifest.rs:277-292 | the seven names stand for the seven bits in order, and no other name is a right |
| `Manifests.NamedRights` | crates/court-hosted-linux/src/manifest.rs:277-292 | a right is in the parsed union exactly when its name is on the list |
| `Manifests.NothingElse` | crates/court-hosted-linux/src/manifest.rs:277-292 | the parsed union has no bit beyond the seven rights |
| `Manifests.Position` | crates/court-hosted-linux/src/manifest.rs:294-296 | the first index of the name, or the name is not there |
| `ManifestChecks.PhaseExactly` | crates/court-hosted-linux/src/manifest.rs:306-318 | the phase check passes exactly when the named phase comes before the action |
| `ManifestChecks.ParseRights` | crates/court-hosted-linux/src/manifest.rs:277-292 | the loop yields the union of the named rights or the first unknown name |
| `ManifestChecks.AcceptedExactly` | crates/court-hosted-linux/src/manifest.rs:143-275 | no complaint is drawn if and only if the pair meets the declarative definition of validity |
| `ManifestReports.ReportsTrue` | crates/court-hosted-linux/src/manifest.rs:143-334 | the complaint reported about a refused pair names an entry that is there and is wrong in the way it says |
| `ManifestChecks.Validate` | crates/court-hosted-linux/src/manifest.rs:143-275 | the loops over hash sets and counters accept exactly the valid pairs and otherwise report the first complaint in order |
| `WireProtocol.ToRights` | crates/court-hosted-linux/src/protocol.rs:51-75 | known bits are kept, all others dropped |
| `WireProtocol.WireRoundTrip` | crates/court-hosted-linux/src/protocol.rs:46-76 | a right comes through the wire exactly when it was sent and is known; rights survive exactly when all are known |
| `WireProtocol.EndpointState.Query` | crates/court-hosted-linux/src/protocol.rs:146-179 | no mark is forgotten, in whatever order they came, and a lost peer outranks a revocation |
| `DemoProofs.BuildExactly` | crates/court-hosted-linux/src/root.rs:119-188 | for an accepted pair building succeeds exactly when every ring can be mapped, with every court running and every corridor joining its two courts |
| `DemoProofs.GrantDecided` | crates/court-hosted-linux/src/root.rs:309-328 | a grant is entered in both tables exactly when it asks for no more than corridor rights |
| `DemoTheorems.AnswerExactly` | crates/court-hosted-linux/src/root.rs:340-396 | the open that answers a grant succeeds exactly for a request on the path granted, with a capability granted so far to the same court for the same corridor, within the rights of that one; another message and an unknown number are refused as such |
| `DemoTheorems.GrantableExactly` | crates/court-hosted-linux/src/manifest.rs:277-292 | corridor rights cover a list of names exactly when it has neither read nor write |
| `DemoTheorems.ExactIsHonest` | crates/court-hosted-linux/src/root.rs:340-382 | courts that ask over the wire for exactly what they were granted are honest |
| `DemoTheorems.PolicyGranted` | crates/court-hosted-linux/src/root.rs:237-398 | the grants of an accepted policy go through if and only if none names read or write and each court's request opens its own path with a capability of its own, within its rights |
| `DemoTheorems.HonestGranted` | crates/court-hosted-linux/src/root.rs:237-398 | with courts that open with what they were just granted the rights alone decide, and a run that stops names the missing right |
| `DemoTheorems.PolicyHonoured` | crates/court-hosted-linux/src/root.rs:309-429 | every revoke entry finds its capability; afterwards a capability authorises what it was granted for unless withdrawn, and then nothing |
| `PacketRx.Accepted` | fixtures/packet-rx/policy.json:1-36 | instance: the built-in manifest with any ring size, and the policy with the app's grant repeated at will, are a valid pair |
| `PacketRx.Builds` | fixtures/packet-rx/manifest.json:1-20 | instance: with any ring size the built-in manifest can be built exactly when the ring can be mapped |
| `PacketRx.GrantsGoThrough` | fixtures/packet-rx/policy.json:3-14 | instance: with courts that ask for what they were granted all grants go through, however often the app's is repeated |
| `PacketRx.AfterRevoke` | fixtures/packet-rx/policy.json:15-21 | instance: after the one revoke the app's last capability authorises nothing, each earlier one still sends and the net court's still receives |
| `PacketRx.TooLargeToBuild` | crates/court-hosted-linux/src/manifest.rs:143-275 | an accepted pair whose state cannot be built |
| `PacketRx.FirstGrantSurvives` | crates/court-hosted-linux/src/root.rs:400-429 | an accepted policy whose revoke entry leaves its court a live capability |
| `RootProcess.ResolveGrants` | crates/court-hosted-linux/src/root.rs:237-250 | all rights are parsed before any grant, or the policy is refused |
| `RootProcess.RootState.Build` | crates/court-hosted-linux/src/root.rs:119-188 | the loops over courts and corridors agree with the value specification |
| `RootProcess.RootState.GrantAndOpen` | crates/court-hosted-linux/src/root.rs:309-398 | agrees with the value specification for every answer of the court |
| `RootProcess.RootState.RunGrants` | crates/court-hosted-linux/src/root.rs:90-95 | the loop stops at the first grant that fails and otherwise returns every capability in order |
| `RootProcess.RootState.RunRevokes` | crates/court-hosted-linux/src/root.rs:400-429 | the loop revokes through the table and stops at the first entry without a capability |

## Left out

- KernelSpace.Build: takes physical addresses of at most 52 bits, the width of a page-table entry's address field, as a precondition on the kernel range and a type for memory-map entries.
- MapTheorems.MapRangeMaps: physical ranges end at or below 2^52, and virtual addresses past 2^64 are taken modulo 2^48 as the index fields do; masks and shifts are written as division and remainder.
- CourtPair.StartCourts: the object and capability numbers of the two courts are parameters; entering the courts, the packet they exchange and the revocation flag are not modelled.
- Boot.Start: processors, interrupts and the switch to a kernel stack are not modelled; kernel range, memory map and processor count are parameters.
- SharedRings.SharedRing.Send: keeps the queue only while the capacity divides 2^64 or fewer than 2^64 packets were sent; what happens otherwise is `RingWrap.WrapLoses`.
- SharedRings.SharedRing.Create: creating, sizing and mapping the file are taken to succeed; the operating system may refuse lengths below 2^64 as well. Opening a file is modelled by its checks only.
- DemoProofs.BuildExactly: a ring counts as mappable when its length fits 64 bits, for the same reason.
- RingTheorems.EveryRunIsFifo: an interleaving of atomic steps; weak-memory reordering beyond release and acquire publication is not modelled.
- Hosted identifiers (courts, objects, capabilities) are unbounded numbers; the 64-bit counters are not wrapped.
- Five-level paging, control registers, interrupts, serial output and the switch to a court's stack are hardware access.
- Sockets, JSON lines, child processes, trace files, file names of rings and the app and net demo scripts are input and output; a court's answer to a grant is a parameter.
- The demo's first lookup and refused open, its fault and peer-down phases, and the messages it records only drive operations modelled in the hosted root.
- `object.rs` and the ring copy in `court-images` are smaller versions of the hosted root and the shared ring.
- Serialisation of manifests and policies, and default schema versions, are not modelled.
