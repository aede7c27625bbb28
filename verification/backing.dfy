/**
 * The backing facade (ZPhysicalMemoryBacking): picks one strategy when it
 * is built, from whether large pages are enabled, and hands every
 * commit, uncommit, map and unmap to it. map and unmap first check that
 * their arguments are granule-aligned.
 */
module PhysicalMemoryBacking {
  import opened Granule
  import opened WindowsApi
  import SmallPages
  import LargePages

  /** The strategy behind the facade; fixed for the facade's lifetime. */
  datatype Impl =
    | Small(small: SmallPages.Strategy)
    | Large(large: LargePages.Strategy)

  /**
   * select_impl: the large-pages strategy exactly when large pages are
   * enabled, otherwise the small-pages one, sized for max_capacity.
   */
  method SelectImpl(maxCapacity: Size, largePagesEnabled: bool, mapper: PagingFileMapper, section: AweSection)
    returns (impl: Impl)
    requires mapper.Valid()
    ensures impl.Large? <==> largePagesEnabled
    ensures impl.Small? ==>
              && fresh(impl.small.handles) && impl.small.mapper == mapper && impl.small.Valid()
              && impl.small.handles.Length == ShiftRight(maxCapacity)
              && SmallPages.Uncommitted(impl.small.handles[..], 0, impl.small.handles.Length)
    ensures impl.Large? ==>
              && fresh(impl.large.pages) && impl.large.section == section
              && impl.large.pages.Length == ShiftRight(maxCapacity)
  {
    if largePagesEnabled {
      var large := new LargePages.Strategy(maxCapacity, section);
      return Large(large);
    }
    var small := new SmallPages.Strategy(maxCapacity, mapper);
    return Small(small);
  }

  class Backing {
    const impl: Impl

    /** The state the strategy updates: its table and the OS service it calls. */
    ghost function Repr(): set<object> {
      match impl
      case Small(s) => {s.handles, s.mapper}
      case Large(l) => {l.pages, l.section}
    }

    /** The OS service the strategy calls; map and unmap change nothing else. */
    ghost function Service(): set<object> {
      match impl
      case Small(s) => {s.mapper}
      case Large(l) => {l.section}
    }

    /** What uncommit changes: large pages only return frames, the page array is read. */
    ghost function UncommitFrame(): set<object> {
      match impl
      case Small(s) => {s.handles, s.mapper}
      case Large(l) => {l.section}
    }

    ghost predicate Valid()
      reads Repr()
    {
      impl.Small? ==> impl.small.Valid()
    }

    constructor (maxCapacity: Size, largePagesEnabled: bool, mapper: PagingFileMapper, section: AweSection)
      requires mapper.Valid()
      ensures Valid()
      ensures impl.Large? <==> largePagesEnabled
      ensures impl.Small? ==>
                && fresh(impl.small.handles) && impl.small.mapper == mapper
                && impl.small.handles.Length == ShiftRight(maxCapacity)
                && SmallPages.Uncommitted(impl.small.handles[..], 0, impl.small.handles.Length)
      ensures impl.Large? ==>
                && fresh(impl.large.pages) && impl.large.section == section
                && impl.large.pages.Length == ShiftRight(maxCapacity)
    {
      var selected := SelectImpl(maxCapacity, largePagesEnabled, mapper, section);
      impl := selected;
    }

    /** What the chosen strategy demands of a commit of [offset, offset + length). */
    ghost predicate CanCommit(offset: Size, length: Size)
      reads Repr()
    {
      match impl
      case Small(s) =>
        && SmallPages.InTable(s.handles[..], ShiftRight(offset), GranuleCount(length))
        && SmallPages.Uncommitted(s.handles[..], ShiftRight(offset), GranuleCount(length))
      case Large(l) => l.SliceFits(offset, length)
    }

    /** What the chosen strategy demands of an uncommit of [offset, offset + length). */
    ghost predicate CanUncommit(offset: Size, length: Size)
      reads Repr()
    {
      match impl
      case Small(s) =>
        && SmallPages.InTable(s.handles[..], ShiftRight(offset), GranuleCount(length))
        && SmallPages.Committed(s.handles[..], ShiftRight(offset), GranuleCount(length))
      case Large(l) => l.SliceFits(offset, length)
    }

    /** commit: the strategy's result, unchanged. */
    method Commit(offset: Size, length: Size) returns (r: LargePages.Exit<Size>, ghost answers: seq<Handle>)
      requires Valid() && CanCommit(offset, length)
      modifies Repr()
      ensures Valid()
      ensures impl.Small? ==>
                && |answers| == GranuleCount(length)
                && r == LargePages.Returned(SmallPages.CommitResult(length, answers))
                && impl.small.handles[..] == SmallPages.CommitTable(old(impl.small.handles[..]), ShiftRight(offset), answers)
                && (forall j :: 0 <= j < SmallPages.Created(answers) ==> answers[j] !in old(impl.small.mapper.live))
                && impl.small.mapper.live == old(impl.small.mapper.live) + SmallPages.Elems(answers[..SmallPages.Created(answers)])
                && impl.small.mapper.views == old(impl.small.mapper.views)
      ensures impl.Large? ==>
                && LargePages.OneMore(old(impl.large.section.calls), impl.large.section.calls)
                && LargePages.CommitEnds(offset, length, impl.large.section.calls[|old(impl.large.section.calls)|], r)
                && (forall j :: 0 <= j < impl.large.pages.Length && !LargePages.InSlice(j, offset, length) ==>
                      impl.large.pages[j] == old(impl.large.pages[j]))
    {
      match impl
      case Small(s) =>
        var n;
        n, answers := s.Commit(offset, length);
        r := LargePages.Returned(n);
      case Large(l) =>
        answers := [];
        r := l.Commit(offset, length);
    }

    /** uncommit: the strategy's result, unchanged. */
    method Uncommit(offset: Size, length: Size) returns (r: LargePages.Exit<Size>)
      requires Valid() && CanUncommit(offset, length)
      modifies UncommitFrame()
      ensures Valid()
      ensures impl.Small? ==>
                && r == LargePages.Returned(length)
                && impl.small.handles[..] == SmallPages.UncommitTable(old(impl.small.handles[..]), ShiftRight(offset), GranuleCount(length))
                && impl.small.mapper.live
                     == old(impl.small.mapper.live) - SmallPages.RangeHandles(old(impl.small.handles[..]), ShiftRight(offset), GranuleCount(length))
                && impl.small.mapper.views == old(impl.small.mapper.views)
      ensures impl.Large? ==>
                && unchanged(impl.large.pages)
                && LargePages.OneMore(old(impl.large.section.calls), impl.large.section.calls)
                && LargePages.UncommitEnds(offset, length,
                     impl.large.pages[ShiftRight(offset)..ShiftRight(offset) + ShiftRight(length)],
                     impl.large.section.calls[|old(impl.large.section.calls)|], r)
    {
      match impl
      case Small(s) =>
        var n := s.Uncommit(offset, length);
        r := LargePages.Returned(n);
      case Large(l) =>
        r := l.Uncommit(offset, length);
    }

    /**
     * map: offset, addr and size must be granule-aligned; then the
     * strategy makes the committed memory at offset visible at addr.
     */
    method Map(addr: Size, size: Size, offset: Size) returns (r: LargePages.Exit<()>)
      requires Valid()
      requires IsAligned(offset) && IsAligned(addr) && IsAligned(size)
      requires impl.Small? ==>
                 && SmallPages.InTable(impl.small.handles[..], ShiftRight(offset), GranuleCount(size))
                 && SmallPages.Committed(impl.small.handles[..], ShiftRight(offset), GranuleCount(size))
      requires impl.Large? ==> impl.large.SliceFits(offset, size)
      modifies Service()
      ensures Valid()
      ensures impl.Small? ==>
                && r == LargePages.Returned(())
                && unchanged(impl.small.handles)
                && impl.small.mapper.live == old(impl.small.mapper.live)
                && impl.small.mapper.views
                     == old(impl.small.mapper.views) + SmallPages.MapViews(impl.small.handles[..], ShiftRight(offset), addr, GranuleCount(size))
      ensures impl.Large? ==>
                && unchanged(impl.large.pages)
                && LargePages.OneMore(old(impl.large.section.calls), impl.large.section.calls)
                && LargePages.MapEnds(addr, size, offset,
                     impl.large.pages[ShiftRight(offset)..ShiftRight(offset) + ShiftRight(size)],
                     impl.large.section.calls[|old(impl.large.section.calls)|], r)
    {
      match impl
      case Small(s) =>
        s.Map(addr, size, offset);
        r := LargePages.Returned(());
      case Large(l) =>
        r := l.Map(addr, size, offset);
    }

    /** unmap: addr and size must be granule-aligned; then the strategy unmaps addr. */
    method Unmap(addr: Size, size: Size) returns (r: LargePages.Exit<()>)
      requires Valid()
      requires IsAligned(addr) && IsAligned(size)
      modifies Service()
      ensures Valid()
      ensures impl.Small? ==>
                && r == LargePages.Returned(())
                && unchanged(impl.small.handles)
                && impl.small.mapper.live == old(impl.small.mapper.live)
                && impl.small.mapper.views == old(impl.small.mapper.views) + SmallPages.UnmapViews(addr, GranuleCount(size))
      ensures impl.Large? ==>
                && unchanged(impl.large.pages)
                && LargePages.OneMore(old(impl.large.section.calls), impl.large.section.calls)
                && LargePages.UnmapEnds(addr, size, impl.large.section.calls[|old(impl.large.section.calls)|], r)
    {
      match impl
      case Small(s) =>
        s.Unmap(addr, size);
        r := LargePages.Returned(());
      case Large(l) =>
        r := l.Unmap(addr, size);
    }
  }
}
