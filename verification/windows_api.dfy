/**
 * The operating-system services the backing calls: paging-file mappings
 * with placeholder views (used by the small-pages strategy through
 * ZMapper) and the shared AWE physical-memory section (used by the
 * large-pages strategy). Their bodies choose success or failure freely;
 * only their contracts are relied on. Each keeps a ghost record of what
 * was asked of it, and no model of the virtual address space beyond that.
 */
module WindowsApi {
  import opened Granule

  datatype Option<T> = None | Some(value: T)

  /** A Windows HANDLE: pointer-sized; 0 is the null handle. */
  type Handle = h: nat | h < 0x1_0000_0000_0000_0000

  const NullHandle: Handle := 0
  /** INVALID_HANDLE_VALUE, that is (HANDLE)-1. */
  const InvalidHandleValue: Handle := 0xFFFF_FFFF_FFFF_FFFF

  /** One placeholder operation on a granule of the virtual address space. */
  datatype ViewCall =
    | MapView(handle: Handle, addr: nat)
    | UnmapView(addr: nat)

  /** Paging-file mapping objects and placeholder views. */
  class PagingFileMapper {
    /** The mapping objects created and not yet closed. */
    ghost var live: set<Handle>
    /** Every view replaced into or unmapped from a placeholder, in order. */
    ghost var views: seq<ViewCall>
    /** Stand-in for the kernel's handle allocator. */
    var next: Handle

    ghost predicate Valid()
      reads this
    {
      && 0 < next <= InvalidHandleValue
      && forall h :: h in live ==> 0 < h < next
    }

    constructor ()
      ensures Valid() && live == {} && views == []
    {
      live, views, next := {}, [], 1;
    }

    /**
     * Creates a paging-file mapping of `size` bytes and commits it. The
     * result is the null handle when the system cannot commit the memory,
     * and otherwise a handle no open mapping has.
     */
    method CreateAndCommitPagingFileMapping(size: Size) returns (h: Handle)
      requires Valid()
      modifies this
      ensures Valid()
      ensures h != InvalidHandleValue
      ensures h == NullHandle ==> live == old(live)
      ensures h != NullHandle ==> h !in old(live) && live == old(live) + {h}
      ensures views == old(views)
    {
      var committed: bool :| true;
      if committed && next < InvalidHandleValue {
        h := next;
        next := next + 1;
        live := live + {h};
      } else {
        h := NullHandle;
      }
    }

    /** Closes an open mapping (a failure to close aborts the process). */
    method ClosePagingFileMapping(h: Handle)
      requires Valid()
      requires h in live
      modifies this
      ensures Valid()
      ensures live == old(live) - {h}
      ensures views == old(views)
    {
      live := live - {h};
    }

    /** Replaces the placeholder at addr by a view of mapping h (a failure aborts the process). */
    method MapViewReplacePlaceholder(h: Handle, addr: nat, size: Size)
      requires Valid()
      requires h != NullHandle
      modifies this
      ensures Valid()
      ensures live == old(live)
      ensures views == old(views) + [MapView(h, addr)]
    {
      views := views + [MapView(h, addr)];
    }

    /** Unmaps the view at addr and restores a placeholder there (a failure aborts the process). */
    method UnmapViewPreservePlaceholder(addr: nat, size: Size)
      requires Valid()
      modifies this
      ensures Valid()
      ensures live == old(live)
      ensures views == old(views) + [UnmapView(addr)]
    {
      views := views + [UnmapView(addr)];
    }
  }

  /** A ULONG_PTR physical page frame number. */
  type Frame = nat

  /** One request to the shared AWE section, with the answer it got. */
  datatype AweCall =
    | Allocate(index: nat, count: nat, ok: bool, granted: nat)
    | Free(frames: seq<Frame>, ok: bool, freed: nat)
    | MapPhysical(addr: nat, count: nat, bound: Option<seq<Frame>>, ok: bool)

  /** The process-wide AWE physical-memory section (ZAWESection). */
  class AweSection {
    /** Every request made of the section, in order. */
    ghost var calls: seq<AweCall>

    constructor ()
      ensures calls == []
    {
      calls := [];
    }

    /**
     * AllocateUserPhysicalPages: asks for `count` page frames, written to
     * pages[index..]. It may grant fewer than asked for; it writes
     * nothing outside the slice it was given.
     */
    method AllocateUserPhysicalPages(count: nat, pages: array<Frame>, index: nat)
      returns (ok: bool, granted: nat)
      requires index + count <= pages.Length
      modifies this, pages
      ensures granted <= count
      ensures calls == old(calls) + [Allocate(index, count, ok, granted)]
      ensures forall j :: 0 <= j < pages.Length && !(index <= j < index + count) ==> pages[j] == old(pages[j])
    {
      ok :| true;
      granted :| granted <= count;
      calls := calls + [Allocate(index, count, ok, granted)];
    }

    /** FreeUserPhysicalPages: returns the `count` frames at pages[index..] to the section. */
    method FreeUserPhysicalPages(count: nat, pages: array<Frame>, index: nat)
      returns (ok: bool, freed: nat)
      requires index + count <= pages.Length
      modifies this
      ensures freed <= count
      ensures calls == old(calls) + [Free(pages[index..index + count], ok, freed)]
    {
      ok :| true;
      freed :| freed <= count;
      calls := calls + [Free(pages[index..index + count], ok, freed)];
    }

    /**
     * MapUserPhysicalPages: binds the `count` frames at pages[index..] to
     * the virtual range at addr, or unbinds that range when pages is null.
     */
    method MapUserPhysicalPages(addr: nat, count: nat, pages: array?<Frame>, index: nat)
      returns (ok: bool)
      requires pages != null ==> index + count <= pages.Length
      modifies this
      ensures calls == old(calls) + [MapPhysical(addr, count, if pages == null then None else Some(pages[index..index + count]), ok)]
    {
      ok :| true;
      calls := calls + [MapPhysical(addr, count, if pages == null then None else Some(pages[index..index + count]), ok)];
    }
  }
}
