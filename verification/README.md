# KREPE: capture and replay, modelled and proved

KREPE captures a running Kokkos kernel (the bytes of its functor, its execution policy and the memory it uses) into
a dump file. A second program restores that state at the same addresses and runs the kernel again. This project
models the algorithms and the state behind both halves and proves what they promise.

Reading order, hardest first:

* **Nested host closures.** A wrapper made by nvcc for an extended lambda holds its captures and a pointer to a heap
  buffer with a second copy of them, so captured lambdas recur in both. `Closures` is the layout and the traversal,
  `ClosureVisitors` the traversal as it runs with its two visitors, `ClosurePatch`, `ClosureBytes` and
  `ReplayMeaning` the effect of patching, `FunctorRestore` and `ReplayFunctor` the guard and the whole replay. Memory
  is a flat sequence of bytes and pointers are eight little-endian bytes in it. Reading past the end of a memory
  gives zero; every write is proved to be inside it.
* **Fixed-address restore.** `RangeMerge` rounds and merges ranges, `HostMapping` is the page table with mapping that
  never replaces, `InputRestore` writes bytes back (once, and again on reset), `OutputMatching` attaches outputs to
  inputs, `ScopeGuard` and `Replayer` put the guard's constructor together, `ReplayProcess` adds the process-wide
  pointers and the command line (`CliArgs`), `Lifecycle` says which life-cycle calls succeed, and `ReplayRuns` is
  about any sequence of calls, between which the program maps pages of its own and writes to memory.
* **Capture protocol.** `CaptureProtocol` has one step for each locked region, the atomic counter and each file
  operation, taken by any number of threads in any order; `CaptureSafety` proves an invariant of every run and its
  consequences. `CaptureTool` is the hooks and the extractor as one thread runs them, each call a few protocol steps,
  and `CaptureRuns` what the one dump holds after any sequence of those calls.
* **Both halves.** `AllocationTracker` sorts and searches the used pointers, `DumpedSnapshots` writes the selected
  allocations with their bytes and relates them to what the replayer accepts, and `CaptureAndReplay` goes from a
  captured launch to its replay: when the dump can be restored, and that memory, functor and policy are the captured
  ones. `DumpFile` is the dump that both halves share.
* **Encodings.** `PolicyCodec` for execution policies, `DumpNames` for file and group names.

Results that a reader may not expect:

* A replayed functor has the captured value only because parents are patched before children; the other order brings
  stale pointers back (`ReplayMeaning.ParentLastIsStale`). Undoing does not need separated buffers.
* The merging of ranges is determined by its specification: any two results are equal (`RangeMerge.MergesUnique`).
* A team policy's scratch sizes come back exactly when they could be queried or are zero, and a range's chunk size
  exactly when it fits 32 bits (`PolicyCodec.PolicyRoundTrip`); everything else of a policy is always kept.
* The replayer accepts an mdrange group whose `begin`, `end` or `tile` has fewer entries than its rank, and rebuilding
  the policy then reads past the end of a vector (`PolicyCodec.ShortBeginEscapes` is such a group); it stays inside
  exactly when all three have at least that many (`PolicyCodec.ReadsStayInside`). Dumps written by KREPE always do.
* If Kokkos reports a launch under another label than the one given to `krepe::parallel_for`, the dump holds the
  functor, policy and views registered before, exactly when the reported label is selected now and the given one is
  not (`CaptureTool.Tool.ParallelFor`); a launch with an empty label is one (`CaptureRuns.ReportedLabelEscapes`).

Where code and documentation differ the code is followed: `docs/hdf5-dumps.md` speaks of one file for each matching
invocation and of snapshots of all allocations, while the code dumps one chosen invocation (the first by default),
and with compiler plugins only the allocations that the functor's views reach.

Conventions: a C++ exception is a failure outcome; labels are fields called `name`; a `hide` statement only keeps a
definition out of the proof it stands in.

## Model

| member | source | states |
|---|---|---|
| Closures.AlignOffsetFormula | src/krepe/common/extended_lambda_utils.hpp:60-62 | The rounding expression gives the first multiple of the alignment at or after the offset. |
| Closures.VisitSizesFollowType | src/krepe/common/extended_lambda_utils.hpp:90-126 | The sequence of closure sizes met by the traversal depends on the type only, never on the heap. |
| Closures.VisitCount | src/krepe/common/extended_lambda_utils.hpp:107-126 | The visitor is called 1 + 2 * (count of the captures) times, on every heap. |
| Closures.FunctorFrame | src/krepe/common/extended_lambda_utils.hpp:90-126 | A functor's value and its visits depend only on its own bytes and on the visited buffers. |
| Closures.DecodeCarries | src/krepe/replay/kernel_replayer.hpp:654-679 | A functor's value holds, at the end of every path through wrappers and host closures, exactly the bytes that memory has there; a hop into a host closure follows the stored pointer. |
| Closures.PathIsVisited | src/krepe/common/extended_lambda_utils.hpp:107-126 | Every wrapper that a path leads to is visited, with the address of its pointer, the buffer found there and its size. |
| ClosureVisitors.VisitCaptures | src/krepe/common/extended_lambda_utils.hpp:90-105 | The running-offset loop visits the captures of the storage in order, each at its laid-out address. |
| ClosureVisitors.VisitHostLambdas | src/krepe/common/extended_lambda_utils.hpp:107-126 | The recursive traversal gives its visitor the closures in preorder: parent, wrapper captures, host captures. |
| ClosureVisitors.CopyFunctor | src/krepe/extract/kernel_extractor.hpp:26-37 | The dump is the functor's bytes and the concatenation of all host closures in preorder. |
| ClosureVisitors.DumpSize | src/krepe/extract/kernel_extractor.hpp:26-37 | The closure data's length and its division into closures follow from the type. |
| ReplayMeaning.PatchFunctor | src/krepe/replay/kernel_replayer.hpp:91-106 | On separated buffers, patching a heap that holds captured bytes and stale pointers rebuilds the captured value through the replay's own buffers. |
| ReplayMeaning.ParentLastIsStale | src/krepe/common/extended_lambda_utils.hpp:120-123 | Patching a child before its parent leaves the captured, stale pointer in the child's slot. |
| ClosureBytes.PatchedBufferByte | src/krepe/replay/kernel_replayer.hpp:91-106 | Outside pointer slots every byte of a patched buffer is the captured one. |
| ClosurePatch.FunctorSlotsCovered | src/krepe/common/extended_lambda_utils.hpp:107-126 | Every pointer slot lies in the functor itself or in one of the visited buffers. |
| FunctorRestore.InitFunctor | src/krepe/replay/kernel_replayer.cpp:272-281 | Fails exactly when the stored functor is too small, else writes its first bytes. |
| FunctorRestore.InitHostClosure | src/krepe/replay/kernel_replayer.cpp:114-131 | Both checks and the copied slice, exactly. |
| FunctorRestore.FunctorRestoreGuard.constructor | src/krepe/replay/kernel_replayer.hpp:74-86 | Saves the functor's bytes and every host closure's, and covers every pointer slot. |
| FunctorRestore.FunctorRestoreGuard.Execute | src/krepe/replay/kernel_replayer.hpp:91-106 | Exact outcome; no offset check fails once the total size agrees; only owned bytes change, whatever the outcome. |
| FunctorRestore.FunctorRestoreGuard.Destroy | src/krepe/replay/kernel_replayer.hpp:108-115 | Every owned byte gets its value from before construction, even when buffers overlap; no other byte changes. |
| ReplayFunctor.ReplayPreservesMeaning | src/krepe/replay/kernel_replayer.hpp:91-106 | For every type and every dump of that type, the patched functor has the captured value, which carries every captured byte of every plain variable; its own pointers; and the captured bytes elsewhere. |
| ReplayFunctor.Replay | src/krepe/replay/kernel_replayer.hpp:654-679 | The returned copy has the captured value, byte by byte along every path, and for a plain functor it is the dump's bytes; the process's memory is unchanged on success and on each failure. |
| RangeMerge.GetAllocationAddress | src/krepe/replay/allocation.hpp:26-49 | The smallest run of whole pages around the allocation. |
| RangeMerge.Insert | src/krepe/replay/kernel_replayer.cpp:462-468 | Insertion into the ordered set of ranges. |
| RangeMerge.ComputeAllocations | src/krepe/replay/kernel_replayer.cpp:743-767 | Sorted, disjoint ranges that hold exactly the input bytes, keep each input in one piece, and cannot be cut anywhere without cutting an input. |
| RangeMerge.MergesUnique | src/krepe/replay/kernel_replayer.cpp:743-767 | That specification has one result only. |
| RangeMerge.MergesAligned | src/krepe/replay/kernel_replayer.cpp:743-767 | Merged ranges are aligned whenever all inputs are. |
| HostMapping.AddressSpace.HostAllocate | src/krepe/replay/host_allocation.hpp:30-60 | Maps at the target or not at all, also when an old kernel picks another place. |
| HostMapping.ReleaseAll | src/krepe/replay/allocation.hpp:92-104 | Each region is mapped when it is unmapped, and exactly the regions' pages go. |
| HostMapping.AllocateAll | src/krepe/replay/kernel_replayer.cpp:797-801 | Succeeds exactly when no call is refused and no page was mapped before; a failure restores the page table. |
| InputRestore.CopyAll | src/krepe/replay/kernel_replayer.cpp:912-931 | Applying writes in order leaves at each address the byte of the last write that reaches it. |
| InputRestore.ResetRestores | src/krepe/replay/kernel_replayer.cpp:912-931 | Replaying the same writes restores every byte they reach, from any memory, even if they overlap. |
| ScopeGuard.CollectHostLocations | src/krepe/replay/kernel_replayer.cpp:449-470 | Accepts exactly usable host views and collects their rounded ranges in order. |
| ScopeGuard.RegionsAreNeededPages | src/krepe/replay/kernel_replayer.cpp:792-801 | The pages of the merged regions are exactly those that hold a captured host byte. |
| ScopeGuard.CopyStaysInOneRegion | src/krepe/replay/kernel_replayer.cpp:840-841 | Every copied range lies inside one mapped region. |
| ScopeGuard.CapturedBytesRestored | src/krepe/replay/kernel_replayer.cpp:826-862 | When captured ranges do not overlap, no later write hides a captured byte. |
| ScopeGuard.DisjointViewsRestored | src/krepe/replay/kernel_replayer.cpp:826-862 | After the inputs were written, views that do not overlap are in memory exactly as captured. |
| ScopeGuard.LastViewWins | src/krepe/replay/kernel_replayer.cpp:823-862 | Where captured ranges overlap, memory holds the bytes of the last view in the order of the dump. |
| ScopeGuard.RestorableInFull | src/krepe/replay/kernel_replayer.cpp:786-903 | When a dump can be restored, attribute by attribute: bytes, spaces, keys, pages, policy and outputs. |
| OutputMatching.AllocateOutput | src/krepe/replay/kernel_replayer.cpp:955-981 | When one output is attached, and what it adds. |
| OutputMatching.MatchOutputs | src/krepe/replay/kernel_replayer.cpp:873-895 | Accepts exactly outputs with distinct keys, each with an input of the same key and label and usable bytes. |
| OutputMatching.ReferenceIsOutput | src/krepe/replay/kernel_replayer.cpp:955-981 | A reference holds exactly the bytes of the output with the allocation's key. |
| OutputMatching.TableEntry | src/krepe/replay/kernel_replayer.cpp:846-858 | Each restored allocation's id, label, space, address and size, and its reference fields, in terms of the input and output groups. |
| Replayer.Guard.Build | src/krepe/replay/kernel_replayer.cpp:786-903 | Succeeds exactly for restorable dumps (unless the system refuses one of the mappings); then views that do not overlap are in memory exactly as captured, other new bytes are zero, each view has its allocation with address and size, and functor and policy are the dump's; a failure anywhere leaves the page table as it was; earlier pages are never touched. |
| Replayer.Guard.MapHostViews | src/krepe/replay/kernel_replayer.cpp:786-801 | Maps exactly the pages that hold a captured host byte, or nothing; succeeds when the host views are usable and those pages are free. |
| Replayer.Guard.Populate | src/krepe/replay/kernel_replayer.cpp:807-895 | Succeeds exactly when inputs, policy and outputs are acceptable; writes the inputs, and reads functor and policy only after all inputs. |
| Replayer.Guard.RestoreInputs | src/krepe/replay/kernel_replayer.cpp:823-862 | Fails exactly when two views have the same pointer and space; writes all inputs in order, keeps the copies for reset, and gives each view its allocation: id, label, space, size, and the address unless it is empty. |
| Replayer.Guard.CheckDeviceViews | src/krepe/replay/kernel_replayer.cpp:807-821 | On a host-only build, any device view with bytes or without its data is an error. |
| Replayer.Guard.Destroy | src/krepe/replay/kernel_replayer.cpp:905-910 | Exactly the guard's regions are unmapped. |
| Replayer.GuardLeavesNoTrace | src/krepe/replay/allocation.hpp:92-104 | Building and destroying a guard gives back the page table from before. |
| Replayer.Guard.ResetInputs | src/krepe/replay/kernel_replayer.cpp:912-931 | After any kernel writes, each input byte is what it was right after construction; no other byte changes. |
| ReplayProcess.Process.ConstructGuard | src/krepe/replay/kernel_replayer.cpp:770-903 | Command line, dump and pointers together: success, or an unchanged life-cycle state and page table; which arguments are left either way. |
| ReplayProcess.Process.ReadOptions | src/krepe/replay/kernel_replayer.cpp:776-788 | Which dump is named, whether reset is on, and what is left of the arguments. |
| ReplayProcess.NamedByOption | src/krepe/replay/kernel_replayer.cpp:776-788 | The option in both forms, by its name: which dump it names and which arguments are left. |
| ReplayProcess.Process.DestroyGuard | src/krepe/replay/kernel_replayer.cpp:905-910 | Both pointers are cleared and the regions unmapped. |
| ReplayProcess.Process.EndUserGuard | src/krepe/replay/kernel_replayer.cpp:905-910 | Ending a user's guard clears the pointers, unmaps its regions, and never clears the initialized flag. |
| ReplayProcess.Process.InitializeKrepe | src/krepe/replay/kernel_replayer.cpp:983-991 | Succeeds only before any guard was ever constructed, and then exactly for a restorable dump (unless a mapping is refused); says what memory, functor, policy, guard and arguments are then; a failure leaves the page table as it was. |
| ReplayProcess.Process.FinalizeKrepe | src/krepe/replay/kernel_replayer.cpp:993-1015 | Succeeds exactly while initialize's own guard exists, and then unmaps exactly its pages: the program's own remain. |
| ReplayProcess.Process.ResetInputs | src/krepe/replay/kernel_replayer.cpp:1017-1023 | Fails exactly without a live guard, without the flag or outside Kokkos; otherwise restores the inputs. |
| ReplayProcess.Process.ParallelFor | src/krepe/replay/kernel_replayer.hpp:702-712 | The launched functor has the captured value, byte by byte along every path, and the policy is rebuilt from the dump; which functors fail before; memory is unchanged. |
| Lifecycle.BuildsOnce | src/krepe/replay/kernel_replayer.cpp:983-1015 | In any run: at most one successful construction, and every ending pairs with one. |
| Lifecycle.LifeOfProcess | src/krepe/replay/kernel_replayer.cpp:983-1015 | From start: finalize succeeds at most once and only after initialize did. |
| ReplayRuns.RunCall | src/krepe/replay/kernel_replayer.cpp:770-1023 | What one call of any kind does, with its outcome: to the life cycle, the page table, the memory, the inputs kept for reset, the functor and the policy. |
| ReplayRuns.RunCalls | src/krepe/replay/kernel_replayer.cpp:770-1023 | Any sequence of calls, with the program's own mapping and writing in between: each call does what is said of it, with the reported outcome; its events are a run of the life cycle; mapped are the program's own pages and the live guard's. |
| ReplayRuns.BuildsAtMostOnce | src/krepe/replay/kernel_replayer.cpp:770-774 | In any run at most one construction among the calls succeeds, by initialize or by a guard. |
| ReplayRuns.StopsAfterStart | src/krepe/replay/kernel_replayer.cpp:993-1015 | In any run finalize succeeds at most once, and only after a successful initialize. |
| ReplayRuns.LiveGuardHolds | src/krepe/replay/kernel_replayer.cpp:770-931 | At any point of a run with a live guard, its pages are exactly those that its dump needs, functor and policy are the dump's, and a successful reset brings back every captured byte. |
| ReplayRuns.RunProcess | src/krepe/replay/kernel_replayer.cpp:770-1023 | From process start: the at-most-once facts about the outcomes of the calls; whenever no guard is alive the page table is the program's own, which is the initial one if the program mapped nothing itself. |
| CliArgs.RemoveCliArgs | src/krepe/replay/kernel_replayer.cpp:28-35 | The kept arguments stay in order in front, the removed ones are still in the vector behind them. |
| CliArgs.FindCliFlag | src/krepe/replay/kernel_replayer.cpp:65-74 | Found exactly when present; the first occurrence is taken out; argv is permuted. |
| CliArgs.FindCliOption | src/krepe/replay/kernel_replayer.cpp:37-63 | Value and remaining arguments for both spellings; an option without value stays. |
| CliArgs.EqualsFormValue | src/krepe/replay/kernel_replayer.cpp:43-46 | For a flag without '=' the value is all that follows the flag's own '='. |
| CliArgs.ParsingKeepsOrder | src/krepe/replay/kernel_replayer.cpp:776-780 | After both options the program sees its other arguments in order: exactly the first flag, the first option beside it and that option's value are missing; and which value was read. |
| AllocationTracker.LowerBound | src/krepe/capture/allocation_tracker.cpp:65-66 | First position whose pointer is not below the data pointer. |
| AllocationTracker.UsesSome | src/krepe/capture/allocation_tracker.cpp:64-69 | Sorting and one binary search decide whether any used pointer lies between the data pointer and one past the last byte, both included, with 64-bit wrap-around. |
| AllocationTracker.Tracker.RecordAllocation | src/krepe/capture/allocation_tracker.cpp:11-24 | Exactly one allocation is added or replaced. |
| AllocationTracker.Tracker.RecordDeallocation | src/krepe/capture/allocation_tracker.cpp:26-42 | Exactly that allocation goes. |
| AllocationTracker.Tracker.RecordUsedAllocation | src/krepe/capture/allocation_tracker.cpp:44-48 | What the pointer falls into is selected from now on, beside what was selected before. |
| AllocationTracker.Tracker.ClearUsedAllocations | src/krepe/capture/allocation_tracker.cpp:50-55 | Nothing is selected afterwards; all spaces stay, without pointers. |
| AllocationTracker.Tracker.TakeSnapshot | src/krepe/capture/allocation_tracker.cpp:57-85 | In both build modes, exactly the active allocations that are selected, in terms of the two maps and the inclusive bounds, once each, with the sum of their sizes; nothing active or used changes. |
| AllocationTracker.EndIsInclusive | src/krepe/capture/allocation_tracker.cpp:66-69 | A pointer selects from the first byte to one past the last, so an empty allocation is selected by its own data pointer. |
| AllocationTracker.ActiveBytesAreSummed | src/krepe/capture/allocation_tracker.cpp:70-79 | The byte count is the sum of the recorded sizes modulo 2^64. |
| AllocationTracker.PointerSelectsOne | src/krepe/capture/allocation_tracker.cpp:67-69 | Between disjoint blocks with headers, a pointer selects one allocation despite the inclusive bound. |
| DumpedSnapshots.WriteSnapshot | src/krepe/capture/view_dump.cpp:195-247 | One group for each allocation of the snapshot, in order, with its label, space, pointers and size; when its bytes are dumped, and that they are those in memory; distinct keys and different group names. |
| DumpedSnapshots.CapturedGroups | src/krepe/capture/view_dump.cpp:195-226 | What a capture holds, attribute by attribute, for each chosen allocation and of each group. |
| DumpedSnapshots.SnapshotKeysDistinct | src/krepe/capture/view_dump.cpp:228-247 | The groups of one snapshot have distinct keys. |
| DumpedSnapshots.ReorderedCaptures | src/krepe/replay/kernel_replayer.cpp:321-340 | Whatever order the groups are read in, they are the same capture with distinct keys. |
| DumpedSnapshots.CapturedInputsUsable | src/krepe/capture/memory_copy.cpp:49-123 | The replayer accepts captured inputs exactly when each allocation has a known size and is empty or non-null host memory. |
| DumpedSnapshots.CapturedMemoryRestored | src/krepe/replay/kernel_replayer.cpp:826-862 | After the inputs were written, each captured byte is the captured process's byte at that address, even where captured ranges overlap. |
| DumpedSnapshots.DeallocationsKeepOutputs | src/krepe/replay/kernel_replayer.cpp:873-895 | If only deallocations happen during a kernel, its outputs are accepted. |
| CaptureProtocol.OneDump | src/krepe/capture/kokkos_hooks.cpp:146-151 | Among all registrations at most one is chosen for dumping. |
| CaptureSafety.RunsKeepInvariant | src/krepe/capture/kokkos_hooks.cpp:297-360 | The invariant of ids, counts, states and files holds after every interleaving. |
| CaptureSafety.IdsAndRanks | src/krepe/capture/kokkos_hooks.cpp:297-314 | Ids are unique, an invocation number is the rank among same-label begins, and at most one kernel is captured. |
| CaptureSafety.OneFile | src/krepe/capture/kokkos_hooks.cpp:316-360 | At most one dump file; at most one output part, complete or not, added only after its own kernel created the file whole and ended. |
| CaptureSafety.IncompleteFilesHappen | src/krepe/capture/view_dump.cpp:249-330 | Runs that leave an incomplete file and an incomplete output part, so that the invariant covers them. |
| CaptureSafety.NothingLeft | src/krepe/capture/kokkos_hooks.cpp:337-352 | When all begun kernels have ended, no kernel state remains. |
| CaptureSafety.WillDumpIsRight | src/krepe/capture/kokkos_hooks.cpp:425-430 | The answer given before a launch is that of the label's next registration, across any other steps. |
| CaptureTool.Tool.NextInvocationWillDump | src/krepe/capture/kokkos_hooks.cpp:425-430 | The answer, and that only a zero count may be added. |
| CaptureTool.Tool.BeginKernel | src/krepe/capture/kokkos_hooks.cpp:297-335 | Counts one invocation of the label, decides, and dumps the registered functor, policy and selected allocations with their bytes into one new file; every other file stays; which protocol steps it takes. |
| CaptureTool.Tool.EndKernel | src/krepe/capture/kokkos_hooks.cpp:337-360 | Drops the kernel's state and adds one output part to that kernel's own file; every other file stays; which protocol steps it takes. |
| CaptureTool.Tool.ReplayFunctor | src/krepe/extract/kernel_extractor.hpp:204-215 | Afterwards the functor is the registered one and exactly its views select allocations. |
| CaptureTool.Tool.ParallelFor | src/krepe/extract/kernel_extractor.hpp:221-230 | A dump holds this launch's functor, policy, reached allocations and bytes exactly when the extractor was told so, always if the label is reported as given; otherwise the earlier functor, policy and views; every other file stays. |
| CaptureTool.DumpOfLaunch | src/krepe/extract/kernel_extractor.hpp:221-230 | The dump of a launch, attribute by attribute: the functor's bytes, and groups of exactly the allocations that a view of the launch points into or right behind. |
| CaptureRuns.RunCall | src/krepe/capture/kokkos_hooks.cpp:297-430 | What one call of any kind does: to ids, counts, kernel states, live allocations and the registration, and to the files. |
| CaptureRuns.RunCalls | src/krepe/capture/kokkos_hooks.cpp:297-430 | After any sequence of calls the state is the one they determine; the files are exactly the earlier ones and those that calls created, one at most in all, each with what was registered, live and in memory when its kernel began and an output exactly if a call appended one; a launch reported under its own label is the one its dump holds. |
| CaptureRuns.ReportedLabelEscapes | src/krepe/extract/kernel_extractor.hpp:221-230 | A launch with an empty label, selected under the reported one: the dump holds no functor bytes, and its replay throws for lack of a policy. |
| CaptureAndReplay.CapturedIsRestorable | src/krepe/replay/kernel_replayer.cpp:770-903 | The dump of a launch can be restored exactly when its allocations are recoverable, their pages free, its policy supported and the outputs match. |
| CaptureAndReplay.OutputsAreRestorable | src/krepe/replay/kernel_replayer.cpp:873-895 | The outputs match if the kernel only deallocated among what its launch reaches. |
| CaptureAndReplay.ReplayLaunch | src/krepe/replay/kernel_replayer.hpp:689-712 | From a captured launch to its replay: when initialization succeeds; then all reached memory is as captured, the functor has the captured value, byte by byte along every path, and the policy is the captured one exactly when the encoding could carry it. |
| PolicyCodec.IndexTypeRoundTrip | src/krepe/replay/kernel_replayer.cpp:559-582 | Size and signedness determine the index type, and no other pair is accepted. |
| PolicyCodec.IndexTypeRanges | src/krepe/extract/kernel_extractor.hpp:60-63 | Size, sign and range of each of the eight index types. |
| PolicyCodec.BoundRoundTrip | src/krepe/extract/kernel_extractor.hpp:65-73 | Every value of all eight index types survives encoding, decoding and narrowing; a negative one is encoded by adding 2^64. |
| PolicyCodec.BoundCodeExact | src/krepe/replay/kernel_replayer.hpp:391-415 | A 64-bit pattern comes back exactly when it encodes a value of the type. |
| PolicyCodec.DecodedModulo | src/krepe/replay/kernel_replayer.hpp:391-404 | Any 64-bit pattern is decoded to the one value of the type that differs from it by a multiple of the range. |
| PolicyCodec.WidenBounds | src/krepe/extract/kernel_extractor.hpp:141-148 | The loop converts the bounds and tiles of each dimension to 64 bits, in place. |
| PolicyCodec.RegisterBounds | src/krepe/extract/kernel_extractor.hpp:101-195 | The registered descriptor is the specified encoding of the policy, for all four kinds. |
| PolicyCodec.GetMDRangeBounds | src/krepe/replay/kernel_replayer.hpp:273-290 | The loop stays inside the stored vectors exactly when each has at least `rank` entries, and then copies their first `rank`. |
| PolicyCodec.VisitPolicy | src/krepe/replay/kernel_replayer.hpp:379-484 | Which policy is launched, when the replay throws, and when a vector is read out of bounds. |
| PolicyCodec.ReadsStayInside | src/krepe/replay/kernel_replayer.hpp:273-290 | Of an accepted group, the rebuild reads no vector out of bounds exactly when all three mdrange datasets have at least `rank` entries. |
| PolicyCodec.ShortBeginEscapes | src/krepe/replay/kernel_replayer.cpp:702-718 | An accepted mdrange group of rank two with one `begin` entry is read out of bounds. |
| PolicyCodec.NoPolicyThrows | src/krepe/replay/kernel_replayer.hpp:379-383 | A dump made before any registration can be read, and its replay throws. |
| PolicyCodec.ConvertedHold | src/krepe/extract/kernel_extractor.hpp:141-148 | Bounds converted to a type are values of it, and converting to 64 bits and back changes no value of the type. |
| PolicyCodec.RangeRoundTrip | src/krepe/replay/kernel_replayer.cpp:662-668 | A range policy is rebuilt exactly when its space is enabled, with all but a chunk size beyond 32 bits unchanged. |
| PolicyCodec.MDRangeRoundTrip | src/krepe/replay/kernel_replayer.cpp:669-718 | Bounds and tiles of every index type, rank and both directions survive exactly when the space is enabled and the rank is two to six, or one where that exists. |
| PolicyCodec.TeamRoundTrip | src/krepe/replay/kernel_replayer.cpp:719-737 | AUTO markers and sizes survive; scratch sizes when they could be queried, else they are zero. |
| PolicyCodec.PolicyRoundTrip | src/krepe/capture/view_dump.cpp:137-193 | For all policies, by their fields: exactly when the dumped group is accepted, and exactly when the replayed launch gets the same policy. |
| PolicyCodec.ScalarInFile | src/krepe/capture/view_dump.cpp:137-144 | The whole group of a scalar policy, and of none. |
| PolicyCodec.RangeInFile | src/krepe/capture/view_dump.cpp:146-157 | The group of a range policy, attribute by attribute. |
| PolicyCodec.MDRangeInFile | src/krepe/capture/view_dump.cpp:159-173 | The group of a multi-dimensional policy, attribute by attribute. |
| PolicyCodec.TeamInFile | src/krepe/capture/view_dump.cpp:175-193 | The group of a team policy, attribute by attribute, with -1 for AUTO and for scratch sizes that cannot be queried. |
| PolicyCodec.AcceptedExactly | src/krepe/replay/kernel_replayer.cpp:630-741 | Exactly which groups are accepted, written by KREPE or not. |
| PolicyCodec.AcceptedGroupIsKept | src/krepe/replay/kernel_replayer.cpp:630-741 | What each attribute of an accepted group becomes, for each kind. |
| PolicyCodec.TeamIsRebuilt | src/krepe/replay/kernel_replayer.hpp:292-324 | A team policy is rebuilt with AUTO for negative sizes, and with scratch sizes unless the first is -1. |
| PolicyCodec.AcceptedPolicyIsUsable | src/krepe/replay/kernel_replayer.cpp:630-741 | Whatever group leads to a launch, the policy is supported, its range bounds, mdrange bounds and tiles are values of its index type, and its header is the one the group spells. |
| DumpNames.SanitizeName | src/krepe/capture/view_dump.cpp:32-51 | Character by character what a label becomes: letters, digits and three punctuation characters stay, others become underscores, at most 80 of them; an empty label becomes "unnamed". |
| DumpNames.SanitizedIsSafe | src/krepe/capture/view_dump.cpp:32-51 | Sanitized labels are safe, non-empty and at most 80 long, and sanitizing fixes exactly such names. |
| DumpNames.DecimalRoundTrip | src/krepe/capture/view_dump.cpp:53-56 | Decimal numbers can be read back and contain no underscore. |
| DumpNames.DecimalDigits | src/krepe/capture/view_dump.cpp:53-56 | The last digit is the number modulo ten, after the digits of a tenth of it. |
| DumpNames.NamesAreSpelled | src/krepe/capture/view_dump.cpp:53-56 | Prefixes and suffix of file and group names. |
| DumpNames.GroupNamesDistinct | src/krepe/capture/view_dump.cpp:195-199 | Group names agree exactly when index and sanitized label do. |
| DumpNames.FilenamesDistinct | src/krepe/capture/view_dump.cpp:53-56 | File names agree exactly when kernel id and sanitized label do. |

## Left out

- Device memory spaces, CUDA and HIP: both halves are modelled as built without a device backend, where the capture skips device bytes and the replayer rejects device views that have bytes.
- HDF5: a dump is a record of groups and byte sequences; a file that cannot be opened or read as such is an absent file. Metadata and the attributes that the replayer never reads (counts, byte sum, reported sizes) are not modelled.
- Address wrap-around: addresses and sizes in `RangeMerge` are unbounded; 64-bit overflow of a rounded size is not modelled. The snapshot's inclusive bound and sum do wrap.
- Memory and fences: a kernel is any change of the memory contents, a functor copy is the value it denotes; Kokkos, its tracking guard and its fences are not part of this model. A functor's own memory and the views' memory of a replaying process are two objects.
- Compiler plugins: they are assumed to register exactly the functor's views.
- Argument counts: a replayed launch is silently skipped when the functor does not take as many arguments as the policy has dimensions; the compiler decides that, and the model's functor takes them. `force_policy` replaces the stored policy and is not modelled.
- Allocation's move operations: the vectors reserve their capacity, so they never run.
- malloc: a reference or staging buffer is its contents, and allocating it does not fail.
- Label filtering, size validation of empty views, logging, lookups by label and `compare_views` guards: small branches that would only add easy members.
- Files made by other processes and device ids; and what a dump contains when several threads register functors at once, which nothing in the program protects (`CaptureTool` is about one thread).
- CaptureTool.Tool: a failed creation leaves no file and a failed append changes nothing here; `CaptureProtocol` also has the partial file and the incomplete output part. What a replay makes of an incomplete output part is not modelled.
- CaptureAndReplay.ReplayLaunch: extended-lambda wrappers exist only in CUDA builds, while memory is restored as in a build without device backend; for such a functor the result joins the two, and device views of a CUDA build are not covered.
- AllocationTracker.LowerBound: stands for the library's binary search, as `SortPointers` does for its sort.
- PolicyCodec: that Kokkos wraps the 64-bit bounds and tiles of a rebuilt mdrange policy around to the index type is an assumption; only foreign groups and unsigned 64-bit bounds from 2^63 on depend on it.
- PolicyCodec: integers read from foreign files are not narrowed to 32 bits; what Kokkos does with a chunk size inside its own policy, and iteration patterns that are still the default, which the compiler or the extractor rejects, are not modelled.
- Process exit: destruction of the static guard after main is not modelled.
