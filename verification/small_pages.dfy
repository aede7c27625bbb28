/**
 * The small-pages strategy (ZPhysicalMemoryBackingSmallPages): one
 * paging-file mapping per committed granule, its handle kept in a
 * granule-indexed table (ZGranuleMap<HANDLE>) where 0 marks an
 * uncommitted granule.
 *
 * The first half specifies the table as a sequence; the class at the end
 * updates an array in place and is proved against that specification.
 */
module SmallPages {
  import opened Granule
  import opened WindowsApi

  // ---------------------------------------------------------------------
  // The handle table as a value

  /** Granules [first, first + n) are slots of the table. */
  predicate InTable(table: seq<Handle>, first: nat, n: nat) {
    first + n <= |table|
  }

  /** No granule of [first, first + n) is committed. */
  predicate Uncommitted(table: seq<Handle>, first: nat, n: nat)
    requires InTable(table, first, n)
  {
    forall j :: first <= j < first + n ==> table[j] == NullHandle
  }

  /** Every granule of [first, first + n) is committed. */
  predicate Committed(table: seq<Handle>, first: nat, n: nat)
    requires InTable(table, first, n)
  {
    forall j :: first <= j < first + n ==> table[j] != NullHandle
  }

  /**
   * Slot ownership: every set slot holds an open mapping, and no two slots
   * hold the same mapping.
   */
  ghost predicate Owned(table: seq<Handle>, live: set<Handle>) {
    && (forall j :: 0 <= j < |table| && table[j] != NullHandle ==> table[j] in live)
    && (forall j, l :: 0 <= j < l < |table| && table[j] != NullHandle ==> table[j] != table[l])
  }

  function Elems(s: seq<Handle>): set<Handle> {
    set h | h in s
  }

  /** The handles held by granules [first, first + n). */
  function RangeHandles(table: seq<Handle>, first: nat, n: nat): set<Handle>
    requires InTable(table, first, n)
  {
    set j | first <= j < first + n :: table[j]
  }

  /**
   * How many granules commit gets through: `answers[j]` is what the
   * mapping creation for the j-th granule of the range returned, and
   * commit stops at the first null handle.
   */
  function Created(answers: seq<Handle>): (k: nat)
    ensures k <= |answers|
    ensures forall j :: 0 <= j < k ==> answers[j] != NullHandle
    ensures k < |answers| ==> answers[k] == NullHandle
  {
    if answers == [] || answers[0] == NullHandle then 0 else 1 + Created(answers[1..])
  }

  /** The table after commit: the created handles from granule `first` on. */
  function CommitTable(table: seq<Handle>, first: nat, answers: seq<Handle>): seq<Handle>
    requires InTable(table, first, |answers|)
  {
    seq(|table|, j requires 0 <= j < |table| =>
      if first <= j < first + Created(answers) then answers[j - first] else table[j])
  }

  /** What commit returns for a range of `size` bytes. */
  function CommitResult(size: Size, answers: seq<Handle>): (r: Size)
    requires |answers| == GranuleCount(size)
    ensures r <= size
    ensures r == size <==> Created(answers) == |answers|
    ensures GranuleCount(r) == Created(answers)
  {
    if Created(answers) == |answers| then size else Created(answers) * GranuleSize
  }

  /** The table after uncommit: granules [first, first + n) cleared. */
  function UncommitTable(table: seq<Handle>, first: nat, n: nat): seq<Handle>
    requires InTable(table, first, n)
  {
    seq(|table|, j requires 0 <= j < |table| =>
      if first <= j < first + n then NullHandle else table[j])
  }

  /** The placeholder replacements map makes: granule j of addr gets the mapping of granule first + j. */
  function MapViews(table: seq<Handle>, first: nat, addr: nat, n: nat): (vs: seq<ViewCall>)
    requires InTable(table, first, n)
    ensures |vs| == n
    ensures forall j :: 0 <= j < n ==> vs[j] == MapView(table[first + j], addr + j * GranuleSize)
  {
    if n == 0 then []
    else MapViews(table, first, addr, n - 1) + [MapView(table[first + n - 1], addr + (n - 1) * GranuleSize)]
  }

  /** The placeholders unmap restores: one per granule of addr. */
  function UnmapViews(addr: nat, n: nat): (vs: seq<ViewCall>)
    ensures |vs| == n
    ensures forall j :: 0 <= j < n ==> vs[j] == UnmapView(addr + j * GranuleSize)
  {
    if n == 0 then [] else UnmapViews(addr, n - 1) + [UnmapView(addr + (n - 1) * GranuleSize)]
  }

  // ---------------------------------------------------------------------
  // Properties of commit and uncommit

  /**
   * When every creation succeeds, commit returns the full size and every
   * granule of the range holds the handle created for it.
   */
  lemma CommitAllCreated(table: seq<Handle>, first: nat, size: Size, answers: seq<Handle>)
    requires |answers| == GranuleCount(size) && InTable(table, first, |answers|)
    requires forall j :: 0 <= j < |answers| ==> answers[j] != NullHandle
    ensures CommitResult(size, answers) == size
    ensures Committed(CommitTable(table, first, answers), first, |answers|)
    ensures CommitTable(table, first, answers)[first..first + |answers|] == answers
  {
    assert Created(answers) == |answers|;
  }

  /**
   * When the creation for granule k fails, commit returns exactly k
   * granules' worth of bytes; granules before k hold their new handles and
   * no slot from k on changes.
   */
  lemma CommitStopsAtFailure(table: seq<Handle>, first: nat, size: Size, answers: seq<Handle>, k: nat)
    requires |answers| == GranuleCount(size) && InTable(table, first, |answers|)
    requires k < |answers| && answers[k] == NullHandle
    requires forall j :: 0 <= j < k ==> answers[j] != NullHandle
    ensures CommitResult(size, answers) == k * GranuleSize
    ensures CommitTable(table, first, answers)[first..first + k] == answers[..k]
    ensures CommitTable(table, first, answers)[..first] == table[..first]
    ensures CommitTable(table, first, answers)[first + k..] == table[first + k..]
  {
    assert Created(answers) == k;
  }

  /** Uncommit leaves every granule of its range cleared and no other slot changed. */
  lemma UncommitClears(table: seq<Handle>, first: nat, n: nat)
    requires InTable(table, first, n)
    ensures |UncommitTable(table, first, n)| == |table|
    ensures Uncommitted(UncommitTable(table, first, n), first, n)
    ensures UncommitTable(table, first, n)[..first] == table[..first]
    ensures UncommitTable(table, first, n)[first + n..] == table[first + n..]
  {
  }

  /**
   * Round trip: uncommitting what commit reports as committed restores the
   * table.
   */
  lemma CommitUncommitRoundTrip(table: seq<Handle>, first: nat, answers: seq<Handle>)
    requires InTable(table, first, |answers|)
    requires Uncommitted(table, first, |answers|)
    ensures UncommitTable(CommitTable(table, first, answers), first, Created(answers)) == table
  {
    var restored := UncommitTable(CommitTable(table, first, answers), first, Created(answers));
    assert forall j :: 0 <= j < |table| ==> restored[j] == table[j];
  }

  /** After commit, the granules it reports hold exactly the mappings it created. */
  lemma CommittedRangeHandles(table: seq<Handle>, first: nat, answers: seq<Handle>)
    requires InTable(table, first, |answers|)
    ensures RangeHandles(CommitTable(table, first, answers), first, Created(answers))
              == Elems(answers[..Created(answers)])
  {
    var k := Created(answers);
    var committed := CommitTable(table, first, answers);
    var prefix := answers[..k];
    forall j | 0 <= j < k
      ensures committed[first + j] == prefix[j]
    {
    }
    forall h | h in Elems(prefix)
      ensures h in RangeHandles(committed, first, k)
    {
      var j :| 0 <= j < k && prefix[j] == h;
      assert committed[first + j] == h;
    }
    forall h | h in RangeHandles(committed, first, k)
      ensures h in Elems(prefix)
    {
      var i :| first <= i < first + k && committed[i] == h;
      assert prefix[i - first] == h;
    }
  }

  /**
   * The same round trip closes exactly the mappings commit created, so the
   * set of open mappings is restored as well: nothing leaks.
   */
  lemma CommitUncommitReleases(table: seq<Handle>, live: set<Handle>, first: nat, answers: seq<Handle>)
    requires InTable(table, first, |answers|)
    requires forall j :: 0 <= j < Created(answers) ==> answers[j] !in live
    ensures (live + Elems(answers[..Created(answers)]))
              - RangeHandles(CommitTable(table, first, answers), first, Created(answers)) == live
  {
    var created := Elems(answers[..Created(answers)]);
    CommittedRangeHandles(table, first, answers);
    forall h | h in created
      ensures h !in live
    {
      var j :| 0 <= j < Created(answers) && answers[..Created(answers)][j] == h;
    }
  }

  /** Putting a fresh mapping into an empty slot keeps slot ownership. */
  lemma OwnedAfterPut(table: seq<Handle>, live: set<Handle>, i: nat, h: Handle)
    requires Owned(table, live)
    requires i < |table| && table[i] == NullHandle
    requires h != NullHandle && h !in live
    ensures Owned(table[i := h], live + {h})
  {
  }

  /** Clearing a set slot and closing its mapping keeps slot ownership. */
  lemma OwnedAfterClear(table: seq<Handle>, live: set<Handle>, i: nat)
    requires Owned(table, live)
    requires i < |table| && table[i] != NullHandle
    ensures Owned(table[i := NullHandle], live - {table[i]})
  {
  }

  // ---------------------------------------------------------------------
  // The strategy object

  class Strategy {
    /** _handles: the granule map, indexed by offset >> ZGranuleSizeShift. */
    const handles: array<Handle>
    /** The process-wide paging-file service (ZMapper). */
    const mapper: PagingFileMapper

    ghost predicate Valid()
      reads handles, mapper
    {
      && mapper.Valid()
      && handles.Length <= MaxGranules
      && Owned(handles[..], mapper.live)
    }

    /** A table of `max_capacity >> ZGranuleSizeShift` cleared slots. */
    constructor (maxCapacity: Size, mapper: PagingFileMapper)
      requires mapper.Valid()
      ensures Valid() && fresh(handles) && this.mapper == mapper
      ensures handles.Length == ShiftRight(maxCapacity)
      ensures Uncommitted(handles[..], 0, handles.Length)
    {
      handles := new Handle[ShiftRight(maxCapacity)](_ => NullHandle);
      this.mapper := mapper;
    }

    /** get_handle: the handle of the granule at offset, which must be set. */
    method GetHandle(offset: Size) returns (h: Handle)
      requires ShiftRight(offset) < handles.Length
      requires handles[ShiftRight(offset)] != NullHandle
      ensures h != NullHandle && h == handles[ShiftRight(offset)]
    {
      h := handles[ShiftRight(offset)];
    }

    /** put_handle: records a valid handle in a slot that must be cleared. */
    method PutHandle(offset: Size, h: Handle)
      requires ShiftRight(offset) < handles.Length
      requires h != InvalidHandleValue
      requires handles[ShiftRight(offset)] == NullHandle
      modifies handles
      ensures handles[..] == old(handles[..])[ShiftRight(offset) := h]
    {
      handles[ShiftRight(offset)] := h;
    }

    /** clear_handle: clears a slot that must be set. */
    method ClearHandle(offset: Size)
      requires ShiftRight(offset) < handles.Length
      requires handles[ShiftRight(offset)] != NullHandle
      modifies handles
      ensures handles[..] == old(handles[..])[ShiftRight(offset) := NullHandle]
    {
      handles[ShiftRight(offset)] := NullHandle;
    }

    /**
     * commit: creates one mapping per granule of [offset, offset + size)
     * and stops at the first failure. `answers` is what each creation
     * returned (null after the one that failed, where nothing more was
     * tried).
     */
    method Commit(offset: Size, size: Size) returns (r: Size, ghost answers: seq<Handle>)
      requires Valid()
      requires InTable(handles[..], ShiftRight(offset), GranuleCount(size))
      requires Uncommitted(handles[..], ShiftRight(offset), GranuleCount(size))
      modifies handles, mapper
      ensures Valid()
      ensures |answers| == GranuleCount(size)
      ensures r == CommitResult(size, answers)
      ensures handles[..] == CommitTable(old(handles[..]), ShiftRight(offset), answers)
      ensures forall j :: 0 <= j < Created(answers) ==> answers[j] !in old(mapper.live)
      ensures mapper.live == old(mapper.live) + Elems(answers[..Created(answers)])
      ensures mapper.views == old(mapper.views)
    {
      ghost var first := ShiftRight(offset);
      ghost var n := GranuleCount(size);
      ghost var table := handles[..];
      answers := [];
      var i: nat := 0;
      while i < size
        invariant |answers| <= n && i == |answers| * GranuleSize
        invariant forall j :: 0 <= j < |answers| ==> answers[j] != NullHandle && answers[j] !in old(mapper.live)
        invariant forall j :: 0 <= j < handles.Length ==>
                    handles[j] == if first <= j < first + |answers| then answers[j - first] else table[j]
        invariant mapper.Valid() && Owned(handles[..], mapper.live)
        invariant mapper.live == old(mapper.live) + Elems(answers)
        invariant mapper.views == old(mapper.views)
      {
        var h := mapper.CreateAndCommitPagingFileMapping(GranuleSize);
        if h == NullHandle {
          ghost var done := answers;
          assert |done| < n;
          answers := answers + seq(n - |answers|, _ => NullHandle);
          assert answers[..|done|] == done;
          assert answers[|done|] == NullHandle;
          assert Created(answers) == |done|;
          assert handles[..] == CommitTable(table, first, answers);
          return i, answers;
        }
        ShiftRightAdvance(offset, |answers|);
        GranuleOffsetFits(offset, |answers|);
        OwnedAfterPut(handles[..], old(mapper.live) + Elems(answers), first + |answers|, h);
        PutHandle(offset + i, h);
        assert Elems(answers + [h]) == Elems(answers) + {h};
        answers := answers + [h];
        i := i + GranuleSize;
      }
      assert Created(answers) == n;
      assert answers[..Created(answers)] == answers;
      assert handles[..] == CommitTable(table, first, answers);
      r := size;
    }

    /**
     * uncommit: clears every granule of [offset, offset + size), each of
     * which must be committed, closes its mapping and returns size.
     */
    method Uncommit(offset: Size, size: Size) returns (r: Size)
      requires Valid()
      requires InTable(handles[..], ShiftRight(offset), GranuleCount(size))
      requires Committed(handles[..], ShiftRight(offset), GranuleCount(size))
      modifies handles, mapper
      ensures Valid()
      ensures r == size
      ensures handles[..] == UncommitTable(old(handles[..]), ShiftRight(offset), GranuleCount(size))
      ensures mapper.live == old(mapper.live) - RangeHandles(old(handles[..]), ShiftRight(offset), GranuleCount(size))
      ensures mapper.views == old(mapper.views)
    {
      ghost var first := ShiftRight(offset);
      ghost var n := GranuleCount(size);
      ghost var table := handles[..];
      ghost var k: nat := 0;
      var i: nat := 0;
      while i < size
        invariant k <= n && i == k * GranuleSize
        invariant forall j :: 0 <= j < handles.Length ==>
                    handles[j] == if first <= j < first + k then NullHandle else table[j]
        invariant mapper.Valid() && Owned(handles[..], mapper.live)
        invariant mapper.live == old(mapper.live) - RangeHandles(table, first, k)
        invariant mapper.views == old(mapper.views)
      {
        ShiftRightAdvance(offset, k);
        GranuleOffsetFits(offset, k);
        var h := GetHandle(offset + i);
        OwnedAfterClear(handles[..], mapper.live, first + k);
        ClearHandle(offset + i);
        mapper.ClosePagingFileMapping(h);
        assert RangeHandles(table, first, k + 1) == RangeHandles(table, first, k) + {h};
        k := k + 1;
        i := i + GranuleSize;
      }
      assert handles[..] == UncommitTable(table, first, n);
      r := size;
    }

    /**
     * map: replaces the placeholder of each granule at addr by a view of
     * the committed granule at the same position from offset. The table
     * is only read.
     */
    method Map(addr: Size, size: Size, offset: Size)
      requires Valid()
      requires IsAligned(offset) && IsAligned(addr) && IsAligned(size)
      requires InTable(handles[..], ShiftRight(offset), GranuleCount(size))
      requires Committed(handles[..], ShiftRight(offset), GranuleCount(size))
      modifies mapper
      ensures Valid() && unchanged(handles)
      ensures mapper.live == old(mapper.live)
      ensures mapper.views == old(mapper.views) + MapViews(handles[..], ShiftRight(offset), addr, GranuleCount(size))
    {
      ghost var first := ShiftRight(offset);
      ghost var k: nat := 0;
      var i: nat := 0;
      while i < size
        invariant k <= GranuleCount(size) && i == k * GranuleSize
        invariant mapper.Valid() && mapper.live == old(mapper.live)
        invariant mapper.views == old(mapper.views) + MapViews(handles[..], first, addr, k)
      {
        ShiftRightAdvance(offset, k);
        GranuleOffsetFits(offset, k);
        var h := GetHandle(offset + i);
        mapper.MapViewReplacePlaceholder(h, addr + i, GranuleSize);
        k := k + 1;
        i := i + GranuleSize;
      }
    }

    /** unmap: restores a placeholder at each granule of addr; the table is not touched. */
    method Unmap(addr: Size, size: Size)
      requires Valid()
      requires IsAligned(addr) && IsAligned(size)
      modifies mapper
      ensures Valid() && unchanged(handles)
      ensures mapper.live == old(mapper.live)
      ensures mapper.views == old(mapper.views) + UnmapViews(addr, GranuleCount(size))
    {
      ghost var k: nat := 0;
      var i: nat := 0;
      while i < size
        invariant k <= GranuleCount(size) && i == k * GranuleSize
        invariant mapper.Valid() && mapper.live == old(mapper.live)
        invariant mapper.views == old(mapper.views) + UnmapViews(addr, k)
      {
        mapper.UnmapViewPreservePlaceholder(addr + i, GranuleSize);
        k := k + 1;
        i := i + GranuleSize;
      }
    }
  }
}
