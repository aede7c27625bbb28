/**
 * The large-pages strategy (ZPhysicalMemoryBackingLargePages): page frames
 * from the shared AWE section, their numbers kept in a flat array with
 * one entry per granule of the backing. A byte offset and size become an
 * array index and a page count by `>> ZGranuleSizeShift`.
 *
 * A failed AWE request ends the process through fatal(); that outcome is
 * the `Fatal` case of `Exit`, carrying the numbers the message reports.
 * The uncommit report is the corrected one (`UncommitReport`, size in
 * megabytes); `UncommitReportAsWritten` is what the code prints.
 */
module LargePages {
  import opened Granule
  import opened WindowsApi

  /** The numbers a fatal() message of this strategy reports (the OS error code is not modelled). */
  datatype FatalReport =
    | AllocateFailed(megabytes: nat, offset: nat)
    | UncommitFailed(megabytes: nat, offset: nat)
    | MapFailed(addr: nat, megabytes: nat, offset: nat)
    | UnmapFailed(addr: nat, megabytes: nat)

  /** How an operation ends: it returns a value, or the process aborts with a report. */
  datatype Exit<T> = Returned(value: T) | Fatal(report: FatalReport)

  /** The report of a failed allocation: the size in megabytes and the offset. */
  function AllocateReport(offset: Size, size: Size): (f: FatalReport)
    ensures f.AllocateFailed? && f.offset == offset
    ensures f.megabytes * M <= size < (f.megabytes + 1) * M
  {
    AllocateFailed(size / M, offset)
  }

  /**
   * The report of a failed uncommit as the source writes it: the byte size
   * goes where the message prints megabytes.
   */
  function UncommitReportAsWritten(offset: Size, size: Size): (f: FatalReport)
    ensures f.UncommitFailed? && f.offset == offset && f.megabytes == size
  {
    UncommitFailed(size, offset)
  }

  /** For a 2 MB range the as-written uncommit report claims 2097152 MB, the allocation report 2 MB. */
  lemma UncommitReportOverstates()
    ensures UncommitReportAsWritten(0, 2 * M).megabytes == 0x20_0000
    ensures AllocateReport(0, 2 * M).megabytes == 2
  {
  }

  /** The report of a failed uncommit with the size in megabytes, like every other report. */
  function UncommitReport(offset: Size, size: Size): (f: FatalReport)
    ensures f.UncommitFailed? && f.offset == offset
    ensures f.megabytes * M <= size < (f.megabytes + 1) * M
  {
    UncommitFailed(size / M, offset)
  }

  /** The corrected uncommit report gives the same size as the allocation report for the same range. */
  lemma UncommitReportAgrees(offset: Size, size: Size)
    ensures UncommitReport(offset, size).megabytes == AllocateReport(offset, size).megabytes
  {
    var u := UncommitReport(offset, size).megabytes;
    var a := AllocateReport(offset, size).megabytes;
    assert u * M <= size < (a + 1) * M;
    assert a * M <= size < (u + 1) * M;
  }

  /**
   * The bytes commit or uncommit returns for `count` pages the section
   * handled out of the `size >> shift` asked for: the count `<< shift`.
   * It never wraps, never exceeds the size asked for, and equals it
   * exactly when every page was handled and the size is granule-aligned.
   */
  lemma HandledBytes(size: Size, count: nat)
    requires count <= ShiftRight(size)
    ensures ShiftLeft(count) == count * GranuleSize
    ensures ShiftLeft(count) <= size
    ensures ShiftLeft(count) == size <==> count == ShiftRight(size) && IsAligned(size)
  {
  }

  /** The outcome of commit given the section's answer to the allocation. */
  predicate CommitEnds(offset: Size, size: Size, c: AweCall, r: Exit<Size>) {
    && c.Allocate? && c.index == ShiftRight(offset) && c.count == ShiftRight(size) && c.granted <= c.count
    && r == if c.ok then Returned(ShiftLeft(c.granted)) else Fatal(AllocateReport(offset, size))
  }

  /** The outcome of uncommit given the section's answer to the release. */
  predicate UncommitEnds(offset: Size, size: Size, frames: seq<Frame>, c: AweCall, r: Exit<Size>) {
    && c.Free? && c.frames == frames && c.freed <= |frames|
    && r == if c.ok then Returned(ShiftLeft(c.freed)) else Fatal(UncommitReport(offset, size))
  }

  /** The outcome of map given the section's answer to the binding. */
  predicate MapEnds(addr: Size, size: Size, offset: Size, frames: seq<Frame>, c: AweCall, r: Exit<()>) {
    && c == MapPhysical(addr, ShiftRight(size), Some(frames), c.ok)
    && r == if c.ok then Returned(()) else Fatal(MapFailed(addr, size / M, offset))
  }

  /** The outcome of unmap given the section's answer to the unbinding. */
  predicate UnmapEnds(addr: Size, size: Size, c: AweCall, r: Exit<()>) {
    && c == MapPhysical(addr, ShiftRight(size), None, c.ok)
    && r == if c.ok then Returned(()) else Fatal(UnmapFailed(addr, size / M))
  }

  /** Page index j lies in the slice of [offset, offset + size). */
  predicate InSlice(j: nat, offset: Size, size: Size) {
    ShiftRight(offset) <= j < ShiftRight(offset) + ShiftRight(size)
  }

  /** `calls` is `before` with exactly one request added. */
  ghost predicate OneMore(before: seq<AweCall>, calls: seq<AweCall>) {
    |calls| == |before| + 1 && calls[..|before|] == before
  }

  class Strategy {
    /** _page_array: the frame number of each granule, indexed by offset >> ZGranuleSizeShift. */
    const pages: array<Frame>
    /** ZAWESection, shared by the whole process. */
    const section: AweSection

    /** alloc_page_array: one entry per granule of max_capacity (its contents are unspecified). */
    constructor (maxCapacity: Size, section: AweSection)
      ensures fresh(pages) && pages.Length == ShiftRight(maxCapacity)
      ensures this.section == section
    {
      pages := new Frame[ShiftRight(maxCapacity)];
      this.section := section;
    }

    /** The page slice of [offset, offset + size) lies inside the page array. */
    predicate SliceFits(offset: Size, size: Size) {
      ShiftRight(offset) + ShiftRight(size) <= pages.Length
    }

    /**
     * commit: asks the section for `size >> shift` frames into the slice
     * of the range and returns the number granted `<< shift`, which may be
     * less than size; a refusal is fatal.
     */
    method Commit(offset: Size, size: Size) returns (r: Exit<Size>)
      requires SliceFits(offset, size)
      modifies pages, section
      ensures OneMore(old(section.calls), section.calls)
      ensures CommitEnds(offset, size, section.calls[|old(section.calls)|], r)
      ensures forall j :: 0 <= j < pages.Length && !InSlice(j, offset, size) ==> pages[j] == old(pages[j])
    {
      var index := ShiftRight(offset);
      var npages := ShiftRight(size);
      var res, npagesRes := section.AllocateUserPhysicalPages(npages, pages, index);
      if !res {
        return Fatal(AllocateReport(offset, size));
      }
      HandledBytes(size, npagesRes);
      r := Returned(ShiftLeft(npagesRes));
    }

    /**
     * uncommit: returns the frames of the range's slice to the section and
     * the number freed `<< shift`; a refusal is fatal, with the corrected
     * report (the code passes the byte count where it prints megabytes).
     */
    method Uncommit(offset: Size, size: Size) returns (r: Exit<Size>)
      requires SliceFits(offset, size)
      modifies section
      ensures OneMore(old(section.calls), section.calls)
      ensures UncommitEnds(offset, size, pages[ShiftRight(offset)..ShiftRight(offset) + ShiftRight(size)],
                           section.calls[|old(section.calls)|], r)
    {
      var index := ShiftRight(offset);
      var npages := ShiftRight(size);
      var res, npagesRes := section.FreeUserPhysicalPages(npages, pages, index);
      if !res {
        return Fatal(UncommitReport(offset, size));
      }
      r := Returned(ShiftLeft(npagesRes));
    }

    /** map: binds the frames of the offset's slice at addr; any failure is fatal. */
    method Map(addr: Size, size: Size, offset: Size) returns (r: Exit<()>)
      requires SliceFits(offset, size)
      modifies section
      ensures OneMore(old(section.calls), section.calls)
      ensures MapEnds(addr, size, offset, pages[ShiftRight(offset)..ShiftRight(offset) + ShiftRight(size)],
                      section.calls[|old(section.calls)|], r)
    {
      var npages := ShiftRight(size);
      var index := ShiftRight(offset);
      var res := section.MapUserPhysicalPages(addr, npages, pages, index);
      if !res {
        return Fatal(MapFailed(addr, size / M, offset));
      }
      r := Returned(());
    }

    /** unmap: unbinds whatever frames are at addr (no frame array is passed); any failure is fatal. */
    method Unmap(addr: Size, size: Size) returns (r: Exit<()>)
      modifies section
      ensures OneMore(old(section.calls), section.calls)
      ensures UnmapEnds(addr, size, section.calls[|old(section.calls)|], r)
    {
      var npages := ShiftRight(size);
      var res := section.MapUserPhysicalPages(addr, npages, null, 0);
      if !res {
        return Fatal(UnmapFailed(addr, size / M));
      }
      r := Returned(());
    }
  }
}
