# ZGC physical-memory backing on Windows, in Dafny

This project models the Windows physical-memory backing of the Z garbage
collector (`ZPhysicalMemoryBacking`). The backing commits and uncommits heap
memory one 2 MB granule at a time. It maps committed granules into virtual
address ranges and unmaps them again. It has two strategies, and the facade
picks one of them when it is built:

- **Small pages** keep one paging-file mapping per committed granule. Its
  handle sits in a granule-indexed table (`_handles`), and 0 marks an
  uncommitted granule. `commit` creates mappings granule by granule. It stops
  at the first failure and returns the bytes committed before it. `uncommit`
  clears and closes every granule of its range. `map` and `unmap` only read
  the table.
- **Large pages** keep a flat array of page-frame numbers (`_page_array`) with
  `max_capacity >> ZGranuleSizeShift` entries. These frames come from the
  process-wide AWE section. A byte offset and size become an index and a page
  count. Commit and uncommit return the page count the section handled,
  converted back to bytes. A refusal by the section ends the process.
- **The facade** forwards every operation to the chosen strategy. `map` and
  `unmap` first check that their arguments are granule-aligned.

Files:

- `granule.dfy` (module `Granule`) holds the granule constants, `size_t`, and
  the `>>`/`<<` conversions.
- `windows_api.dfy` (module `WindowsApi`) holds the operating-system services
  as classes:
  - The paging-file mapper (`ZMapper`) keeps the ghost set of open mappings
    and a ghost record of placeholder operations.
  - The AWE section keeps a ghost record of requests and their answers.
  - The bodies of these services choose success, failure and granted counts
    freely. Only their contracts are relied on.
- `small_pages.dfy` (module `SmallPages`) gives the handle table as a value:
  `CommitTable`, `UncommitTable` and `Created`, with lemmas about them. The
  class `SmallPages.Strategy` updates an `array` in place and is proved
  against those functions. Its invariant is slot ownership: every set slot
  holds an open mapping, and no two slots hold the same one.
- `large_pages.dfy` (module `LargePages`) holds `LargePages.Strategy` and the
  explicit fatal outcome `Exit.Fatal`.
- `backing.dfy` (module `PhysicalMemoryBacking`) holds `SelectImpl` and the
  facade class `Backing`.

How the nondeterminism of the OS is exposed: small-pages `Commit` returns a
ghost sequence `answers`. Entry j is the handle that mapping creation
returned for granule j of the range. After the first null handle the entries
are null, because nothing more was tried. The postconditions describe the
result, the new table and the new set of open mappings as functions of
`answers`.

Three details of the code that the model keeps as they are:

- The facade's `commit` and `uncommit` do not check alignment
  (`zPhysicalMemoryBacking_windows.cpp:233-245`). So the model does not
  require an aligned offset there.
- Small pages handle an unaligned size by rounding up. The loop runs once per
  granule of `size` rounded up (`GranuleCount`), starting at the granule of
  `offset`, and a full success returns `size` itself. With an unaligned
  offset this can be one granule fewer than the byte range overlaps.
- The small-pages `map` checks alignment itself (lines 107-109), so it is
  not left unchecked inside the strategy.

## Model

| member | source | states |
|---|---|---|
| `Granule.ShiftRight` | src/hotspot/os/windows/gc/z/zPhysicalMemoryBacking_windows.cpp:161-162 | `x >> ZGranuleSizeShift` is the number of whole granules in x: r·G ≤ x < (r+1)·G |
| `Granule.ShiftLeft` | src/hotspot/os/windows/gc/z/zPhysicalMemoryBacking_windows.cpp:175 | `x << ZGranuleSizeShift` on size_t equals x·G whenever that fits in 64 bits |
| `Granule.GranuleCount` | src/hotspot/os/windows/gc/z/zPhysicalMemoryBacking_windows.cpp:84 | the number of passes of `for (i = 0; i < size; i += ZGranuleSize)`: the least n with n·G ≥ size; for an aligned size it is `size >> shift` |
| `Granule.ShiftRightAdvance` | src/hotspot/os/windows/gc/z/zPhysicalMemoryBacking_windows.cpp:90 | `offset + i`, with i at granule k of the loop, indexes table slot `(offset >> shift) + k` |
| `Granule.ShiftRoundTrip` | src/hotspot/os/windows/gc/z/zPhysicalMemoryBacking_windows.cpp:161-175 | converting bytes to pages and back never overshoots, and is exact iff the byte count is aligned |
| `Granule.RangeWithinCapacity` | src/hotspot/os/windows/gc/z/zPhysicalMemoryBacking_windows.cpp:148-153 | a byte range inside [0, max_capacity) has its page slice inside the `max_capacity / ZGranuleSize` entries of the table; for aligned ranges its rounded-up granule range does too |
| `WindowsApi.PagingFileMapper.CreateAndCommitPagingFileMapping` | src/hotspot/os/windows/gc/z/zPhysicalMemoryBacking_windows.cpp:85-88 | the assumed contract of the call: null on failure, otherwise a handle that no open mapping holds and that is never INVALID_HANDLE_VALUE |
| `WindowsApi.PagingFileMapper.ClosePagingFileMapping` | src/hotspot/os/windows/gc/z/zPhysicalMemoryBacking_windows.cpp:100 | closes an open mapping, and nothing else changes |
| `WindowsApi.PagingFileMapper.MapViewReplacePlaceholder` | src/hotspot/os/windows/gc/z/zPhysicalMemoryBacking_windows.cpp:113 | records one view of a non-null handle at one address; the open mappings do not change |
| `WindowsApi.PagingFileMapper.UnmapViewPreservePlaceholder` | src/hotspot/os/windows/gc/z/zPhysicalMemoryBacking_windows.cpp:122 | records one placeholder restored at one address; the open mappings do not change |
| `WindowsApi.AweSection.AllocateUserPhysicalPages` | src/hotspot/os/windows/gc/z/zPhysicalMemoryBacking_windows.cpp:164-165 | records the request with its index and count; may grant fewer frames than asked for (never more), and writes nothing outside the slice it was given |
| `WindowsApi.AweSection.FreeUserPhysicalPages` | src/hotspot/os/windows/gc/z/zPhysicalMemoryBacking_windows.cpp:182-183 | receives the frames of the slice and reports at most that many freed |
| `WindowsApi.AweSection.MapUserPhysicalPages` | src/hotspot/os/windows/gc/z/zPhysicalMemoryBacking_windows.cpp:196 | binds the slice's frames at an address, or unbinds the range when given no array (line 206) |
| `SmallPages.Created` | src/hotspot/os/windows/gc/z/zPhysicalMemoryBacking_windows.cpp:84-91 | commit gets through exactly the granules before the first failed creation: all of them are non-null, and the next one, if any, is null |
| `SmallPages.CommitResult` | src/hotspot/os/windows/gc/z/zPhysicalMemoryBacking_windows.cpp:83-94 | commit never returns more than size; it returns size iff every creation succeeded; the bytes returned span exactly the granules that were committed |
| `SmallPages.MapViews` | src/hotspot/os/windows/gc/z/zPhysicalMemoryBacking_windows.cpp:111-114 | map replaces the placeholder of granule j at addr with the mapping of granule j at offset, for every j of the range |
| `SmallPages.UnmapViews` | src/hotspot/os/windows/gc/z/zPhysicalMemoryBacking_windows.cpp:121-123 | unmap restores one placeholder per granule of addr |
| `SmallPages.CommitAllCreated` | src/hotspot/os/windows/gc/z/zPhysicalMemoryBacking_windows.cpp:83-94 | when every creation succeeds, commit returns size and every granule of the range holds the handle created for it |
| `SmallPages.CommitStopsAtFailure` | src/hotspot/os/windows/gc/z/zPhysicalMemoryBacking_windows.cpp:84-90 | when creation fails at granule k, commit returns k granules of bytes, the granules before k hold their new handles, and no slot from k on (nor before the range) changes |
| `SmallPages.UncommitClears` | src/hotspot/os/windows/gc/z/zPhysicalMemoryBacking_windows.cpp:96-104 | after uncommit every granule of the range is cleared and every slot outside it is unchanged |
| `SmallPages.CommitUncommitRoundTrip` | src/hotspot/os/windows/gc/z/zPhysicalMemoryBacking_windows.cpp:83-104 | uncommitting the granules commit reports (all of them, or the prefix of a partial commit) restores the table commit started from |
| `SmallPages.CommittedRangeHandles` | src/hotspot/os/windows/gc/z/zPhysicalMemoryBacking_windows.cpp:85-90 | after commit, the granules it reports hold exactly the mappings it created |
| `SmallPages.CommitUncommitReleases` | src/hotspot/os/windows/gc/z/zPhysicalMemoryBacking_windows.cpp:96-104 | the same round trip closes exactly the mappings commit created, so the set of open mappings is restored: nothing leaks |
| `SmallPages.OwnedAfterPut` | src/hotspot/os/windows/gc/z/zPhysicalMemoryBacking_windows.cpp:65-70 | putting a freshly created mapping into an empty slot keeps slot ownership |
| `SmallPages.OwnedAfterClear` | src/hotspot/os/windows/gc/z/zPhysicalMemoryBacking_windows.cpp:72-76 | clearing a set slot and closing its mapping keeps slot ownership |
| `SmallPages.Strategy.constructor` | src/hotspot/os/windows/gc/z/zPhysicalMemoryBacking_windows.cpp:79-81 | the table has `max_capacity >> shift` slots, all cleared, and slot ownership holds |
| `SmallPages.Strategy.GetHandle` | src/hotspot/os/windows/gc/z/zPhysicalMemoryBacking_windows.cpp:58-63 | the slot must be set; the handle read is non-null |
| `SmallPages.Strategy.PutHandle` | src/hotspot/os/windows/gc/z/zPhysicalMemoryBacking_windows.cpp:65-70 | requires a handle other than INVALID_HANDLE_VALUE and an empty slot, so putting into a committed granule is a precondition violation; only that slot changes |
| `SmallPages.Strategy.ClearHandle` | src/hotspot/os/windows/gc/z/zPhysicalMemoryBacking_windows.cpp:72-76 | requires a set slot; only that slot changes, to 0 |
| `SmallPages.Strategy.Commit` | src/hotspot/os/windows/gc/z/zPhysicalMemoryBacking_windows.cpp:83-94 | the loop's result and new table are `CommitResult` and `CommitTable` of what creation answered; the created mappings are fresh and become open; slot ownership is kept |
| `SmallPages.Strategy.Uncommit` | src/hotspot/os/windows/gc/z/zPhysicalMemoryBacking_windows.cpp:96-104 | every granule of the range must be set; returns size, clears the range and closes exactly the mappings it held; slot ownership is kept |
| `SmallPages.Strategy.Map` | src/hotspot/os/windows/gc/z/zPhysicalMemoryBacking_windows.cpp:106-115 | requires aligned arguments and a committed range; the table and the open mappings are unchanged; the views made are `MapViews` |
| `SmallPages.Strategy.Unmap` | src/hotspot/os/windows/gc/z/zPhysicalMemoryBacking_windows.cpp:117-124 | requires aligned arguments; the table and the open mappings are unchanged; the placeholders restored are `UnmapViews` |
| `LargePages.AllocateReport` | src/hotspot/os/windows/gc/z/zPhysicalMemoryBacking_windows.cpp:166-168 | a failed allocation reports the offset and the size in whole megabytes |
| `LargePages.UncommitReportAsWritten` | src/hotspot/os/windows/gc/z/zPhysicalMemoryBacking_windows.cpp:184-186 | as written, a failed uncommit reports the byte size where the message prints megabytes |
| `LargePages.UncommitReportOverstates` | src/hotspot/os/windows/gc/z/zPhysicalMemoryBacking_windows.cpp:184-186 | for a 2 MB range the as-written report says 2097152 MB, while the allocation report for the same range says 2 MB |
| `LargePages.UncommitReport` | src/hotspot/os/windows/gc/z/zPhysicalMemoryBacking_windows.cpp:184-186 | the corrected report gives the size in whole megabytes |
| `LargePages.UncommitReportAgrees` | src/hotspot/os/windows/gc/z/zPhysicalMemoryBacking_windows.cpp:167-186 | the corrected uncommit report and the allocation report give the same size for the same range |
| `LargePages.HandledBytes` | src/hotspot/os/windows/gc/z/zPhysicalMemoryBacking_windows.cpp:173-175 | `npages_res << shift` never wraps and never exceeds the size asked for; it equals the size iff every page was handled and the size is aligned |
| `LargePages.Strategy.constructor` | src/hotspot/os/windows/gc/z/zPhysicalMemoryBacking_windows.cpp:148-158 | the page array has `max_capacity / ZGranuleSize` entries |
| `LargePages.Strategy.Commit` | src/hotspot/os/windows/gc/z/zPhysicalMemoryBacking_windows.cpp:160-176 | asks the section for `size >> shift` frames at index `offset >> shift` (both recorded in the request); returns the granted count `<< shift`, or is fatal on refusal; entries outside the slice are unchanged |
| `LargePages.Strategy.Uncommit` | src/hotspot/os/windows/gc/z/zPhysicalMemoryBacking_windows.cpp:178-190 | hands the slice's frames to the section; returns the freed count `<< shift`, or is fatal on refusal with the corrected report (see Findings); the page array is not modified |
| `LargePages.Strategy.Map` | src/hotspot/os/windows/gc/z/zPhysicalMemoryBacking_windows.cpp:192-201 | binds the slice's frames at addr; any failure is fatal, with no partial outcome |
| `LargePages.Strategy.Unmap` | src/hotspot/os/windows/gc/z/zPhysicalMemoryBacking_windows.cpp:203-211 | unbinds the range at addr, passing no frame array; any failure is fatal |
| `PhysicalMemoryBacking.SelectImpl` | src/hotspot/os/windows/gc/z/zPhysicalMemoryBacking_windows.cpp:214-220 | picks the large-pages strategy iff large pages are enabled, sized for max_capacity, with a cleared small-pages table otherwise |
| `PhysicalMemoryBacking.Backing.constructor` | src/hotspot/os/windows/gc/z/zPhysicalMemoryBacking_windows.cpp:222-223 | the strategy is chosen once; it is a constant field |
| `PhysicalMemoryBacking.Backing.Commit` | src/hotspot/os/windows/gc/z/zPhysicalMemoryBacking_windows.cpp:233-238 | returns the strategy's result unchanged, with all of the strategy's effect: small pages give the new table, fresh handles added to the open mappings and no views; large pages give one allocation request and no page entry outside the slice changed. So a facade commit followed by an uncommit of what it committed closes exactly the mappings it created |
| `PhysicalMemoryBacking.Backing.Uncommit` | src/hotspot/os/windows/gc/z/zPhysicalMemoryBacking_windows.cpp:240-245 | returns the strategy's result unchanged, with all of the strategy's effect: small pages clear the range, close exactly its handles and make no views; large pages make one release request of the slice's frames and leave the page array unchanged |
| `PhysicalMemoryBacking.Backing.Map` | src/hotspot/os/windows/gc/z/zPhysicalMemoryBacking_windows.cpp:247-253 | requires offset, addr and size aligned, then has the strategy's effect and changes only the OS service: the small-pages table and open mappings, and the large-pages array, are unchanged |
| `PhysicalMemoryBacking.Backing.Unmap` | src/hotspot/os/windows/gc/z/zPhysicalMemoryBacking_windows.cpp:255-260 | requires addr and size aligned, then has the strategy's effect and changes only the OS service: the small-pages table and open mappings, and the large-pages array, are unchanged |

## Left out

- The operating-system calls themselves (`ZMapper`, `AllocateUserPhysicalPages`, `FreeUserPhysicalPages`, `MapUserPhysicalPages`, `GetLastError`) are modelled only by their contracts. Beyond a record of the calls made, the state of the virtual address space is not modelled. So the multi-mapping property (re-mapping an unmapped address to another offset) is not stated.
- Failures inside `ZMapper` (closing a mapping, replacing or restoring a placeholder) end the process in code that is not part of this model. The model's primitives just return, because a call that returns has succeeded. The OS error code in the fatal messages is not modelled.
- `os::malloc` returning null for the page array is not modelled, and neither are the contents of the freshly allocated array.
- `is_initialized`, `warn_commit_limits` and the trace and debug logging are not modelled; they have no effect on the state.
- Concurrent callers are not modelled. The code has no locking, and serialising operations on the same granule is the caller's job.
- `ZGranuleMap` is part of this model only as a table indexed by `offset >> ZGranuleSizeShift`, starting all zero. The `ZGranuleSize` value (2 MB) comes from `zGlobals.hpp`, which is not part of this model.
- SmallPages.Strategy.Commit: requires the whole range to be uncommitted. The code's assertion only checks the granules it reaches before a failed creation. Since the caller cannot know where creation will fail, the whole-range condition is what a caller must guarantee to be safe under every OS answer.
- LargePages.Strategy.Uncommit: a refused release ends with the corrected report `UncommitReport` (size in megabytes), not the byte size the code prints there; the as-written report is `UncommitReportAsWritten` (see Findings). `Backing.Uncommit` inherits this.
- SmallPages.Strategy.Commit: offsets are unbounded naturals. `offset + i` cannot wrap, because the table-bound precondition keeps it below 2^64.

## Findings

| source | as written | input that shows it | evidently intended | confidence | as-written member | corrected member |
|---|---|---|---|---|---|---|
| src/hotspot/os/windows/gc/z/zPhysicalMemoryBacking_windows.cpp:185-186 | the uncommit fatal message prints `size` with the format `%zuM` | a failed uncommit of 2 MB reports 2097152M (`LargePages.UncommitReportOverstates`) | `size / M`, as the other three fatal messages of the strategy print | not executed | `LargePages.UncommitReportAsWritten` | `LargePages.UncommitReport` |
