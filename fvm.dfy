/** The FVM slice manager: a physical allocation table shared by all virtual
    partitions, each partition's map from virtual to physical slices, the
    all-or-nothing allocation with rollback, freeing, the extend/shrink
    argument checks, the splitting of a transfer across slices and the
    merging of the split pieces' completions. */
module Fvm {
  import opened ZxStatus
  import opened Arith

  /** Physical slice number meaning "no slice". */
  const SLICE_FREE: nat := 0
  /** Most pieces a transfer over non-contiguous slices may be split into. */
  const MAX_SPLIT_SLICES: nat := 32

  /** One entry of the allocation table; `vpart == 0` marks the slice free. */
  datatype SliceEntry = SliceEntry(vpart: nat, vslice: nat)

  /** A virtual partition: its table index and its slice map. */
  class VPartition {
    const entryIndex: nat
    /** vslice -> pslice, `SLICE_FREE` where nothing is mapped. */
    var sliceMap: seq<nat>
    var killed: bool

    constructor (entryIndex: nat, vsliceCount: nat)
      requires entryIndex != 0
      ensures this.entryIndex == entryIndex && !killed
      ensures |sliceMap| == vsliceCount
      ensures forall v :: 0 <= v < vsliceCount ==> sliceMap[v] == SLICE_FREE
    {
      this.entryIndex := entryIndex;
      sliceMap := seq(vsliceCount, _ => SLICE_FREE);
      killed := false;
    }
  }

  class VPartitionManager {
    /** Number of usable physical slices; they are numbered 1..maxSlices. */
    const maxSlices: nat
    /** Number of virtual slices of every partition. */
    const vsliceCount: nat
    /** The allocation table; entry 0 is never used. */
    var table: seq<SliceEntry>

    ghost predicate Valid()
      reads this
    {
      |table| == maxSlices + 1
    }

    /** The slice map of `vp` and the allocation table agree: every mapped
        virtual slice owns its physical slice, which records it back. */
    ghost predicate Mapped(vp: VPartition)
      reads this, vp
    {
      Valid() && vp.entryIndex != 0 && |vp.sliceMap| == vsliceCount &&
      forall v :: 0 <= v < vsliceCount && vp.sliceMap[v] != SLICE_FREE ==>
        1 <= vp.sliceMap[v] <= maxSlices && table[vp.sliceMap[v]] == SliceEntry(vp.entryIndex, v)
    }

    /** The physical slices that no partition owns. */
    ghost function FreeSet(): set<nat>
      reads this
      requires Valid()
    {
      set p | 1 <= p <= maxSlices && table[p].vpart == 0
    }

    /** `p` is the first free slice met by scanning `hint..maxSlices` and then
        `1..hint-1`, with a hint of 0 read as 1. */
    ghost predicate FirstInScan(p: nat, hint: nat)
      reads this
      requires Valid() && 1 <= p <= maxSlices
    {
      var h := if hint < 1 then 1 else hint;
      if h <= p then
        forall q :: h <= q < p ==> table[q].vpart != 0
      else
        (forall q :: h <= q <= maxSlices ==> table[q].vpart != 0) &&
        (forall q :: 1 <= q < p ==> table[q].vpart != 0)
    }

    /** Since `oldTable`, the only owners that changed are slices that were
        free and now belong to `vp`, each at a virtual slice in `[lo, hi)`
        whose map entry points back at it. */
    ghost predicate GrewFrom(vp: VPartition, oldTable: seq<SliceEntry>, lo: nat, hi: nat)
      reads this, vp
    {
      |oldTable| == |table| &&
      forall p :: 0 <= p < |table| && table[p].vpart != oldTable[p].vpart ==>
        oldTable[p].vpart == 0 && table[p].vpart == vp.entryIndex &&
        lo <= table[p].vslice < hi && table[p].vslice < |vp.sliceMap| &&
        vp.sliceMap[table[p].vslice] == p
    }

    constructor (maxSlices: nat, vsliceCount: nat)
      ensures this.maxSlices == maxSlices && this.vsliceCount == vsliceCount
      ensures Valid() && forall p :: 1 <= p <= maxSlices ==> p in FreeSet()
    {
      this.maxSlices := maxSlices;
      this.vsliceCount := vsliceCount;
      table := seq(maxSlices + 1, _ => SliceEntry(0, 0));
    }

    /** FindFreeSliceLocked: wrap-around search for a free physical slice. */
    method FindFreeSlice(hint: nat) returns (r: Result<nat>)
      requires Valid()
      ensures r.Failure? <==> FreeSet() == {}
      ensures r.Failure? ==> r.error == ErrNoSpace
      ensures r.Success? ==> r.value in FreeSet() && FirstInScan(r.value, hint)
    {
      var h := if hint < 1 then 1 else hint;
      var i := h;
      while i <= maxSlices
        invariant h <= i
        invariant forall q :: h <= q < i && q <= maxSlices ==> table[q].vpart != 0
      {
        if table[i].vpart == 0 {
          assert i in FreeSet();
          return Success(i);
        }
        i := i + 1;
      }
      i := 1;
      while i < h
        invariant 1 <= i
        invariant forall q :: 1 <= q < i && q <= maxSlices ==> table[q].vpart != 0
      {
        if i <= maxSlices && table[i].vpart == 0 {
          assert i in FreeSet();
          return Success(i);
        }
        i := i + 1;
      }
      assert forall q :: 1 <= q <= maxSlices ==> table[q].vpart != 0;
      return Failure(ErrNoSpace);
    }

    /** Undoes an allocation of `n` virtual slices at `vsliceStart`: each is
        unmapped from `vp` and its physical slice marked free again. */
    method Rollback(vp: VPartition, vsliceStart: nat, n: nat,
                    ghost oldTable: seq<SliceEntry>, ghost oldMap: seq<nat>)
      requires Mapped(vp) && |oldMap| == vsliceCount && |oldTable| == |table| && vsliceStart + n <= vsliceCount
      requires forall v :: vsliceStart <= v < vsliceStart + n ==>
        vp.sliceMap[v] != SLICE_FREE && oldMap[v] == SLICE_FREE && oldTable[vp.sliceMap[v]].vpart == 0
      requires forall v :: 0 <= v < vsliceCount && !(vsliceStart <= v < vsliceStart + n) ==>
        vp.sliceMap[v] == oldMap[v]
      requires GrewFrom(vp, oldTable, vsliceStart, vsliceStart + n)
      modifies this, vp
      ensures Mapped(vp) && vp.killed == old(vp.killed)
      ensures vp.sliceMap == oldMap
      ensures forall p :: 0 <= p < |table| ==> table[p].vpart == oldTable[p].vpart
    {
      var j := 0;
      while j < n
        invariant 0 <= j <= n
        invariant Mapped(vp) && vp.killed == old(vp.killed)
        invariant forall v :: vsliceStart <= v < vsliceStart + j ==> vp.sliceMap[v] == SLICE_FREE
        invariant forall v :: vsliceStart + j <= v < vsliceStart + n ==>
          vp.sliceMap[v] != SLICE_FREE && oldTable[vp.sliceMap[v]].vpart == 0
        invariant forall v :: 0 <= v < vsliceCount && !(vsliceStart <= v < vsliceStart + n) ==>
          vp.sliceMap[v] == oldMap[v]
        invariant GrewFrom(vp, oldTable, vsliceStart + j, vsliceStart + n)
      {
        var _ := FreeOne(vp, vsliceStart + j);
        j := j + 1;
      }
      assert forall v :: 0 <= v < vsliceCount ==> vp.sliceMap[v] == oldMap[v];
    }

    /** The state of an allocation of virtual slices from `lo` after its
        first `i` slices: they are mapped onto slices that were free, nothing
        else in the map moved, and only those slices changed in the table. */
    ghost predicate AllocInv(vp: VPartition, lo: nat, i: nat, oldTable: seq<SliceEntry>, oldMap: seq<nat>)
      reads this, vp
    {
      Mapped(vp) && |oldMap| == vsliceCount && |oldTable| == |table| && lo + i <= vsliceCount &&
      (forall v :: lo <= v < lo + i ==>
        vp.sliceMap[v] != SLICE_FREE && oldMap[v] == SLICE_FREE && oldTable[vp.sliceMap[v]].vpart == 0) &&
      (forall v :: 0 <= v < vsliceCount && !(lo <= v < lo + i) ==> vp.sliceMap[v] == oldMap[v]) &&
      GrewFrom(vp, oldTable, lo, lo + i) &&
      (forall p :: 0 <= p < |table| && table[p].vpart == oldTable[p].vpart ==> table[p] == oldTable[p])
    }

    /** One step of AllocateSlicesLocked: virtual slice `lo + i` takes the
        free physical slice `pslice`. */
    method Place(vp: VPartition, lo: nat, i: nat, pslice: nat,
                 ghost oldTable: seq<SliceEntry>, ghost oldMap: seq<nat>)
      requires AllocInv(vp, lo, i, oldTable, oldMap) && lo + i < vsliceCount
      requires vp.sliceMap[lo + i] == SLICE_FREE && oldMap[lo + i] == SLICE_FREE
      requires pslice in FreeSet()
      modifies this, vp
      ensures AllocInv(vp, lo, i + 1, oldTable, oldMap) && vp.killed == old(vp.killed)
      ensures FreeSet() == old(FreeSet()) - {pslice}
      ensures vp.sliceMap == old(vp.sliceMap)[lo + i := pslice]
      ensures table == old(table)[pslice := SliceEntry(vp.entryIndex, lo + i)]
    {
      var vslice := lo + i;
      vp.sliceMap := vp.sliceMap[vslice := pslice];
      table := table[pslice := SliceEntry(vp.entryIndex, vslice)];
    }

    /** One turn of AllocateSlicesLocked's loop: maps the virtual slice
        `lo + i` onto the first free slice from `hint`, or, when it is
        already mapped or no slice is free, undoes the whole allocation. */
    method MapOne(vp: VPartition, lo: nat, i: nat, hint: nat,
                  ghost oldTable: seq<SliceEntry>, ghost oldMap: seq<nat>)
      returns (failed: Status, next: nat)
      requires AllocInv(vp, lo, i, oldTable, oldMap) && lo + i < vsliceCount
      modifies this, vp
      ensures vp.killed == old(vp.killed)
      ensures failed == Ok || failed == ErrInvalidArgs || failed == ErrNoSpace
      ensures failed == ErrInvalidArgs <==> oldMap[lo + i] != SLICE_FREE
      ensures failed == ErrNoSpace <==> oldMap[lo + i] == SLICE_FREE && old(FreeSet()) == {}
      ensures failed != Ok ==>
        Mapped(vp) && vp.sliceMap == oldMap &&
        forall p :: 0 <= p < |table| ==> table[p].vpart == oldTable[p].vpart
      ensures failed == Ok ==>
        AllocInv(vp, lo, i + 1, oldTable, oldMap) && |FreeSet()| == |old(FreeSet())| - 1
    {
      next := hint;
      failed := Ok;
      if vp.sliceMap[lo + i] != SLICE_FREE {
        failed := ErrInvalidArgs;
      } else {
        var found := FindFreeSlice(hint);
        if found.Failure? {
          failed := found.error;
        } else {
          Place(vp, lo, i, found.value, oldTable, oldMap);
          next := found.value + 1;
          return;
        }
      }
      Rollback(vp, lo, i, oldTable, oldMap);
    }

    /** The loop of AllocateSlicesLocked: maps the slices one by one with
        the search hint just past the last slice taken, and on the first
        conflict or shortage undoes what it mapped. */
    method MapSlices(vp: VPartition, vsliceStart: nat, count: nat) returns (status: Status)
      requires Mapped(vp) && vsliceStart + count <= vsliceCount
      modifies this, vp
      ensures vp.killed == old(vp.killed)
      ensures status == (
        var k := FirstMapped(old(vp.sliceMap), vsliceStart, count);
        var free := |old(FreeSet())|;
        if k < count && k <= free then ErrInvalidArgs
        else if free < count then ErrNoSpace
        else Ok)
      ensures status != Ok ==>
        Mapped(vp) && vp.sliceMap == old(vp.sliceMap) &&
        forall p :: 0 <= p < |table| ==> table[p].vpart == old(table[p].vpart)
      ensures status == Ok ==> AllocInv(vp, vsliceStart, count, old(table), old(vp.sliceMap))
    {
      ghost var oldTable := table;
      ghost var oldMap := vp.sliceMap;
      ghost var free := |FreeSet()|;
      ghost var k := FirstMapped(oldMap, vsliceStart, count);
      var hint: nat := 0;
      var i := 0;
      while i < count
        invariant 0 <= i <= count && i <= free && i <= k
        invariant vp.killed == old(vp.killed)
        invariant AllocInv(vp, vsliceStart, i, oldTable, oldMap)
        invariant |FreeSet()| == free - i
      {
        ghost var before := FreeSet();
        var failed, next := MapOne(vp, vsliceStart, i, hint, oldTable, oldMap);
        if failed != Ok {
          if failed == ErrInvalidArgs {
            assert k == i;
          } else {
            assert |before| == 0;
            assert free == i && k != i;
          }
          return failed;
        }
        hint := next;
        i := i + 1;
      }
      return Ok;
    }

    /** AllocateSlicesLocked: maps `count` virtual slices from `vsliceStart`
        onto free physical slices, all or nothing. `writeStatus` is the
        outcome of writing the metadata back. */
    method AllocateSlices(vp: VPartition, vsliceStart: nat, count: nat, writeStatus: Status)
      returns (status: Status)
      requires Mapped(vp)
      modifies this, vp
      ensures Mapped(vp) && vp.killed == old(vp.killed)
      ensures vsliceStart + count > vsliceCount ==>
        status == ErrInvalidArgs && table == old(table) && vp.sliceMap == old(vp.sliceMap)
      ensures vsliceStart + count <= vsliceCount && old(vp.killed) ==>
        status == ErrBadState && table == old(table) && vp.sliceMap == old(vp.sliceMap)
      ensures vsliceStart + count <= vsliceCount && !old(vp.killed) ==>
        var k := FirstMapped(old(vp.sliceMap), vsliceStart, count);
        var free := |old(FreeSet())|;
        status == (if k < count && k <= free then ErrInvalidArgs
                   else if free < count then ErrNoSpace
                   else writeStatus)
      // Any failure leaves every owner in the table and the slice map as they were.
      ensures status != Ok ==>
        vp.sliceMap == old(vp.sliceMap) &&
        forall p :: 0 <= p < |table| ==> table[p].vpart == old(table[p].vpart)
      // Success maps every requested slice onto a slice that was free, and
      // changes no other entry.
      ensures status == Ok ==>
        (forall v :: vsliceStart <= v < vsliceStart + count ==>
          vp.sliceMap[v] != SLICE_FREE && old(table)[vp.sliceMap[v]].vpart == 0) &&
        (forall v :: 0 <= v < vsliceCount && !(vsliceStart <= v < vsliceStart + count) ==>
          vp.sliceMap[v] == old(vp.sliceMap[v])) &&
        (forall p :: 0 <= p < |table| && table[p] != old(table[p]) ==>
          old(table[p]).vpart == 0 && table[p].vpart == vp.entryIndex &&
          vsliceStart <= table[p].vslice < vsliceStart + count)
    {
      if vsliceStart + count > vsliceCount {
        return ErrInvalidArgs;
      }
      if vp.killed {
        return ErrBadState;
      }
      ghost var oldTable := table;
      ghost var oldMap := vp.sliceMap;
      status := MapSlices(vp, vsliceStart, count);
      if status != Ok {
        return status;
      }
      if writeStatus != Ok {
        Rollback(vp, vsliceStart, count, oldTable, oldMap);
      }
      return writeStatus;
    }

    /** Unmaps the virtual slice `vslice` of `vp`, releasing its physical
        slice if it had one. */
    method FreeOne(vp: VPartition, vslice: nat) returns (was: bool)
      requires Mapped(vp) && vslice < vsliceCount
      modifies this, vp
      ensures Mapped(vp) && vp.killed == old(vp.killed)
      ensures was == (old(vp.sliceMap[vslice]) != SLICE_FREE)
      ensures vp.sliceMap == old(vp.sliceMap)[vslice := SLICE_FREE]
      ensures was ==> table == old(table)[old(vp.sliceMap[vslice]) := SliceEntry(0, vslice)]
      ensures !was ==> table == old(table)
    {
      var pslice := vp.sliceMap[vslice];
      was := pslice != SLICE_FREE;
      if was {
        table := table[pslice := SliceEntry(0, table[pslice].vslice)];
        vp.sliceMap := vp.sliceMap[vslice := SLICE_FREE];
      }
    }

    /** The freeing loop of FreeSlicesLocked: unmaps the `n` virtual slices
        from `lo` and reports whether any was mapped. */
    method FreeRange(vp: VPartition, lo: nat, n: nat) returns (freed: bool)
      requires Mapped(vp) && lo + n <= vsliceCount
      modifies this, vp
      ensures Mapped(vp) && vp.killed == old(vp.killed)
      ensures freed == exists v :: lo <= v < lo + n && old(vp.sliceMap[v]) != SLICE_FREE
      ensures forall v :: lo <= v < lo + n ==> vp.sliceMap[v] == SLICE_FREE
      ensures forall v :: lo <= v < lo + n && old(vp.sliceMap[v]) != SLICE_FREE ==>
        table[old(vp.sliceMap[v])].vpart == 0
      ensures forall v :: 0 <= v < vsliceCount && !(lo <= v < lo + n) ==>
        vp.sliceMap[v] == old(vp.sliceMap[v])
      ensures forall p :: 0 <= p < |table| && table[p] != old(table[p]) ==>
        old(table[p]).vpart == vp.entryIndex && table[p].vpart == 0 &&
        lo <= old(table[p]).vslice < lo + n
    {
      ghost var oldTable := table;
      ghost var oldMap := vp.sliceMap;
      freed := false;
      var i := 0;
      while i < n
        invariant 0 <= i <= n && |table| == |oldTable|
        invariant Mapped(vp) && vp.killed == old(vp.killed)
        invariant freed == exists v :: lo <= v < lo + i && oldMap[v] != SLICE_FREE
        invariant forall v :: lo <= v < lo + i ==> vp.sliceMap[v] == SLICE_FREE
        invariant forall v :: lo <= v < lo + i && oldMap[v] != SLICE_FREE ==>
          table[oldMap[v]].vpart == 0
        invariant forall v :: 0 <= v < vsliceCount && !(lo <= v < lo + i) ==>
          vp.sliceMap[v] == oldMap[v]
        invariant forall p :: 0 <= p < |table| && table[p] != oldTable[p] ==>
          oldTable[p].vpart == vp.entryIndex && table[p].vpart == 0 &&
          lo <= oldTable[p].vslice < lo + i
      {
        var was := FreeOne(vp, lo + i);
        freed := freed || was;
        i := i + 1;
      }
    }

    /** FreeSlicesLocked: unmaps `count` virtual slices from `vsliceStart`;
        a start of 0 means every slice and removes the partition once
        something was freed. `syncStatus` is the device sync issued first
        and `writeStatus` the metadata write. */
    method FreeSlices(vp: VPartition, vsliceStart: nat, count: nat, syncStatus: Status, writeStatus: Status)
      returns (status: Status)
      requires Mapped(vp)
      modifies this, vp
      ensures Mapped(vp)
      ensures vsliceStart + count > vsliceCount || count > vsliceCount ==>
        status == ErrInvalidArgs && table == old(table) && vp.sliceMap == old(vp.sliceMap) && vp.killed == old(vp.killed)
      ensures vsliceStart + count <= vsliceCount && count <= vsliceCount && (old(vp.killed) || syncStatus != Ok) ==>
        status == (if old(vp.killed) then ErrBadState else syncStatus) &&
        table == old(table) && vp.sliceMap == old(vp.sliceMap) && vp.killed == old(vp.killed)
      ensures vsliceStart + count <= vsliceCount && count <= vsliceCount && !old(vp.killed) && syncStatus == Ok ==>
        var n := if vsliceStart == 0 then vsliceCount else count;
        var freed := exists v :: vsliceStart <= v < vsliceStart + n && old(vp.sliceMap[v]) != SLICE_FREE;
        status == (if freed then writeStatus else ErrInvalidArgs) &&
        vp.killed == (vsliceStart == 0 && freed) &&
        (forall v :: vsliceStart <= v < vsliceStart + n ==> vp.sliceMap[v] == SLICE_FREE) &&
        (forall v :: vsliceStart <= v < vsliceStart + n && old(vp.sliceMap[v]) != SLICE_FREE ==>
          table[old(vp.sliceMap[v])].vpart == 0) &&
        (forall v :: 0 <= v < vsliceCount && !(vsliceStart <= v < vsliceStart + n) ==>
          vp.sliceMap[v] == old(vp.sliceMap[v])) &&
        (forall p :: 0 <= p < |table| && table[p] != old(table[p]) ==>
          old(table[p]).vpart == vp.entryIndex && table[p].vpart == 0 &&
          vsliceStart <= old(table[p]).vslice < vsliceStart + n)
    {
      if vsliceStart + count > vsliceCount || count > vsliceCount {
        return ErrInvalidArgs;
      }
      var n := count;
      if vsliceStart == 0 {
        n := vsliceCount;
      }
      if vp.killed {
        return ErrBadState;
      }
      if syncStatus != Ok {
        return syncStatus;
      }
      var freed := FreeRange(vp, vsliceStart, n);
      if vsliceStart == 0 && freed {
        vp.killed := true;
      }
      if !freed {
        return ErrInvalidArgs;
      }
      return writeStatus;
    }
  }

  /** The first index `k < n` with `m[lo + k]` mapped, or `n` when none is. */
  function FirstMapped(m: seq<nat>, lo: nat, n: nat): (k: nat)
    requires lo + n <= |m|
    ensures k <= n
    ensures k < n ==> m[lo + k] != SLICE_FREE
    ensures forall v :: lo <= v < lo + k ==> m[v] == SLICE_FREE
    decreases n
  {
    if n == 0 then 0
    else if m[lo] != SLICE_FREE then 0
    else 1 + FirstMapped(m, lo + 1, n - 1)
  }

  /** What an ioctl does after its argument checks: reply at once, or go on
      to allocate or free `length` slices from `vsliceStart`. */
  datatype IoctlAction = Reply(status: Status) | Forward(vsliceStart: nat, length: nat)

  /** The IOCTL_BLOCK_FVM_EXTEND argument checks. */
  function ExtendRequest(offset: nat, length: nat): (a: IoctlAction)
    ensures offset == 0 ==> a == Reply(ErrOutOfRange)
    ensures 0 < offset < U32_MAX && length == 0 ==> a == Reply(Ok)
    ensures a.Forward? <==> 0 < offset && 0 < length && offset + length < U32_MAX
    ensures a.Forward? ==> a == Forward(offset, length)
    ensures a.Reply? ==> a.status == Ok || a.status == ErrOutOfRange
  {
    if offset == 0 || offset >= U32_MAX then Reply(ErrOutOfRange)
    else if length == 0 then Reply(Ok)
    else if length >= U32_MAX then Reply(ErrOutOfRange)
    else if length + offset >= U32_MAX then Reply(ErrOutOfRange)
    else Forward(offset, length)
  }

  /** The IOCTL_BLOCK_FVM_SHRINK argument checks against the partition's
      virtual slice count. */
  function ShrinkRequest(offset: nat, length: nat, vsliceCount: nat): (a: IoctlAction)
    ensures offset == 0 ==> a == Reply(ErrOutOfRange)
    ensures 0 < offset < vsliceCount && length == 0 ==> a == Reply(Ok)
    ensures a.Forward? <==> 0 < offset && 0 < length && offset + length < vsliceCount
    ensures a.Forward? ==> a == Forward(offset, length)
  {
    if offset == 0 || offset >= vsliceCount then Reply(ErrOutOfRange)
    else if length == 0 then Reply(Ok)
    else if length >= vsliceCount then Reply(ErrOutOfRange)
    else if length + offset >= vsliceCount then Reply(ErrOutOfRange)
    else Forward(offset, length)
  }

  /** The IOCTL_BLOCK_FVM_ALLOC slice-count check: a new partition is
      allocated from virtual slice 0. */
  function AllocRequest(sliceCount: nat): (a: IoctlAction)
    ensures a.Forward? <==> 0 < sliceCount < U32_MAX
    ensures a.Forward? ==> a == Forward(0, sliceCount)
    ensures a.Reply? ==> a.status == ErrOutOfRange
  {
    if sliceCount >= U32_MAX || sliceCount == 0 then Reply(ErrOutOfRange)
    else Forward(0, sliceCount)
  }

  lemma ExtendShrinkBoundaries(vsliceCount: nat)
    requires vsliceCount > 2
    ensures ExtendRequest(0, 5) == Reply(ErrOutOfRange)
    ensures ExtendRequest(1, 0) == Reply(Ok)
    ensures ExtendRequest(U32_MAX - 2, 1) == Forward(U32_MAX - 2, 1)
    ensures ExtendRequest(U32_MAX - 2, 2) == Reply(ErrOutOfRange)
    ensures ShrinkRequest(1, vsliceCount - 2, vsliceCount) == Forward(1, vsliceCount - 2)
    ensures ShrinkRequest(1, vsliceCount - 1, vsliceCount) == Reply(ErrOutOfRange)
  {
  }

  // ---------------------------------------------------------------------
  // Transfers: DdkIotxnQueue

  /** One piece of a transfer split across non-contiguous slices. */
  datatype Piece = Piece(devOffset: nat, vmoOffset: nat, length: nat)

  /** What DdkIotxnQueue does with a transfer: complete it at once, queue it
      whole at a physical offset, or split it into pieces. */
  datatype TxnPlan =
    | CompleteNow(status: Status, actual: nat)
    | QueueWhole(devOffset: nat, length: nat)
    | QueueSplit(pieces: seq<Piece>)

  ghost predicate AllMapped(m: seq<nat>, lo: nat, hi: nat)
    requires lo <= hi < |m|
  {
    forall v :: lo <= v <= hi ==> m[v] != SLICE_FREE
  }

  ghost predicate Contiguous(m: seq<nat>, lo: nat, hi: nat)
    requires lo <= hi < |m|
  {
    forall v :: lo < v <= hi ==> m[v - 1] + 1 == m[v]
  }

  /** Piece `i` of a split transfer at `offset` starts in virtual slice
      `vs + i`, stays inside it, and goes to the same place in the physical
      slice mapped there. */
  ghost predicate PieceInSlice(pc: Piece, i: nat, offset: nat, sliceSize: nat, vs: nat,
                               m: seq<nat>, sliceStart: nat -> nat)
    requires sliceSize > 0 && vs + i < |m|
  {
    pc.length > 0 &&
    (offset + pc.vmoOffset) / sliceSize == vs + i &&
    (offset + pc.vmoOffset) % sliceSize + pc.length <= sliceSize &&
    pc.devOffset == sliceStart(m[vs + i]) + (offset + pc.vmoOffset) % sliceSize
  }

  /** Pieces cover `[0, len)` of the transfer's buffer in order, end to end. */
  ghost predicate Tiles(pieces: seq<Piece>, len: nat)
  {
    |pieces| > 0 && pieces[0].vmoOffset == 0 && Chained(pieces) &&
    pieces[|pieces| - 1].vmoOffset + pieces[|pieces| - 1].length == len
  }

  function TotalLength(pieces: seq<Piece>): nat
  {
    if pieces == [] then 0 else TotalLength(pieces[..|pieces| - 1]) + pieces[|pieces| - 1].length
  }

  lemma {:induction false} TilesTotal(pieces: seq<Piece>, len: nat)
    requires Tiles(pieces, len)
    ensures TotalLength(pieces) == len
  {
    var n := |pieces|;
    if n > 1 {
      var init := pieces[..n - 1];
      assert Tiles(init, pieces[n - 1].vmoOffset) by {
        forall k | 0 <= k < |init| - 1
          ensures init[k + 1].vmoOffset == init[k].vmoOffset + init[k].length
        {
          assert init[k] == pieces[k] && init[k + 1] == pieces[k + 1];
        }
      }
      TilesTotal(init, pieces[n - 1].vmoOffset);
    }
  }

  /** Length of the first piece as the source computes it. */
  function FirstPieceLengthAsWritten(offset: nat, sliceSize: nat): nat
    requires sliceSize > 0
  {
    RoundUp(offset, sliceSize) - offset
  }

  /** Length of the first piece: the rest of the slice the transfer starts in. */
  function FirstPieceLength(offset: nat, sliceSize: nat): (r: nat)
    requires sliceSize > 0
    ensures 0 < r <= sliceSize && r == sliceSize - offset % sliceSize
  {
    var q, o := offset / sliceSize, offset % sliceSize;
    assert RoundUp(offset + 1, sliceSize) == offset + sliceSize - o by {
      if o + 1 < sliceSize {
        DivModUnique(offset + 1, sliceSize, q, o + 1);
      } else {
        DivModUnique(offset + 1, sliceSize, q + 1, 0);
      }
    }
    RoundUp(offset + 1, sliceSize) - offset
  }

  /** Piece lengths of a split over `count >= 2` slices as the source
      computes them: the first, `count - 2` whole slices, and what is left. */
  function PieceLengthsAsWritten(offset: nat, len: nat, sliceSize: nat, count: nat): seq<int>
    requires sliceSize > 0 && count >= 2
  {
    var first := FirstPieceLengthAsWritten(offset, sliceSize);
    [first] + seq(count - 2, _ => sliceSize) + [len - first - sliceSize * (count - 2)]
  }

  /** A slice-aligned transfer over two slices: the source's first piece is
      empty and its last piece is twice a slice long, so it runs past the
      end of the physical slice it is sent to. */
  lemma AlignedSplitOverrunsSlice(sliceSize: nat)
    requires sliceSize > 0
    ensures (0 + 2 * sliceSize - 1) / sliceSize == 1
    ensures PieceLengthsAsWritten(0, 2 * sliceSize, sliceSize, 2) == [0, 2 * sliceSize]
    ensures PieceLengthsAsWritten(0, 2 * sliceSize, sliceSize, 2)[1] > sliceSize
  {
    assert RoundUp(0, sliceSize) == 0;
    assert (2 * sliceSize - 1) / sliceSize == 1 by {
      DivBetween(2 * sliceSize - 1, sliceSize, 1);
    }
  }

  /** The slice check of DdkIotxnQueue for a transfer over virtual slices
      `lo..hi`: stops at the first unmapped slice, and otherwise says whether
      the physical slices follow each other. */
  method ScanSlices(m: seq<nat>, lo: nat, hi: nat) returns (mapped: bool, contiguous: bool)
    requires lo <= hi < |m|
    ensures mapped == AllMapped(m, lo, hi)
    ensures mapped ==> contiguous == Contiguous(m, lo, hi)
  {
    contiguous := true;
    var v := lo;
    while v <= hi
      invariant lo <= v <= hi + 1
      invariant forall w :: lo <= w < v ==> m[w] != SLICE_FREE
      invariant contiguous == forall w :: lo < w < v ==> m[w - 1] + 1 == m[w]
    {
      if m[v] == SLICE_FREE {
        return false, contiguous;
      }
      if v != lo && m[v - 1] + 1 != m[v] {
        contiguous := false;
      }
      v := v + 1;
    }
    return true, contiguous;
  }

  /** DdkIotxnQueue's decision for a transfer of `length` bytes at device
      offset `offset` of a partition with slice map `m`; `sliceStart` gives
      the device offset of a physical slice. The first piece of a split is
      the rest of its slice (see FirstPieceLength). */
  method PlanTxn(offset: nat, length: nat, blockSize: nat, sliceSize: nat,
                 m: seq<nat>, sliceStart: nat -> nat) returns (plan: TxnPlan)
    requires blockSize > 0 && sliceSize > 0 && sliceSize % blockSize == 0
    ensures offset % blockSize != 0 ==> plan == CompleteNow(ErrInvalidArgs, 0)
    ensures offset % blockSize == 0 && RoundDown(length, blockSize) == 0 ==> plan == CompleteNow(Ok, 0)
    ensures offset % blockSize == 0 && RoundDown(length, blockSize) > 0 ==>
      var len := RoundDown(length, blockSize);
      var vs := offset / sliceSize;
      var ve := (offset + len - 1) / sliceSize;
      (|m| <= ve ==> plan == CompleteNow(ErrOutOfRange, 0)) &&
      (ve < |m| ==> vs <= ve) &&
      (ve < |m| && !AllMapped(m, vs, ve) ==> plan == CompleteNow(ErrOutOfRange, 0)) &&
      (ve < |m| && AllMapped(m, vs, ve) && Contiguous(m, vs, ve) ==>
        plan == QueueWhole(sliceStart(m[vs]) + offset % sliceSize, len)) &&
      (ve < |m| && AllMapped(m, vs, ve) && !Contiguous(m, vs, ve) && ve - vs + 1 > MAX_SPLIT_SLICES ==>
        plan == CompleteNow(ErrOutOfRange, 0)) &&
      (ve < |m| && AllMapped(m, vs, ve) && !Contiguous(m, vs, ve) && ve - vs + 1 <= MAX_SPLIT_SLICES ==>
        plan.QueueSplit? && |plan.pieces| == ve - vs + 1 && Tiles(plan.pieces, len) &&
        forall i :: 0 <= i < |plan.pieces| ==>
          PieceInSlice(plan.pieces[i], i, offset, sliceSize, vs, m, sliceStart))
  {
    if offset % blockSize != 0 {
      return CompleteNow(ErrInvalidArgs, 0);
    }
    var len := RoundDown(length, blockSize);
    if len == 0 {
      return CompleteNow(Ok, 0);
    }
    var vs := offset / sliceSize;
    var ve := (offset + len - 1) / sliceSize;
    if |m| <= ve {
      // Virtual slices past the map read as free.
      return CompleteNow(ErrOutOfRange, 0);
    }
    if vs == ve {
      var pslice := m[vs];
      if pslice == SLICE_FREE {
        return CompleteNow(ErrOutOfRange, 0);
      }
      return QueueWhole(sliceStart(pslice) + offset % sliceSize, len);
    }
    DivMono(offset, offset + len - 1, sliceSize);
    var mapped, contiguous := ScanSlices(m, vs, ve);
    if !mapped {
      return CompleteNow(ErrOutOfRange, 0);
    }
    if contiguous {
      return QueueWhole(sliceStart(m[vs]) + offset % sliceSize, len);
    }
    var count := ve - vs + 1;
    if MAX_SPLIT_SLICES < count {
      return CompleteNow(ErrOutOfRange, 0);
    }
    var pieces := SplitAcrossSlices(offset, len, sliceSize, m, sliceStart);
    return QueueSplit(pieces);
  }

  /** Where virtual slice `vs + k` begins, built up one slice at a time. */
  ghost function SliceBegin(vs: nat, k: nat, sliceSize: nat): nat
  {
    if k == 0 then vs * sliceSize else SliceBegin(vs, k - 1, sliceSize) + sliceSize
  }

  lemma {:induction false} SliceBeginIs(vs: nat, k: nat, sliceSize: nat)
    ensures SliceBegin(vs, k, sliceSize) == (vs + k) * sliceSize
  {
    if k > 0 {
      SliceBeginIs(vs, k - 1, sliceSize);
    }
  }

  lemma {:induction false} SliceBeginAfterFirst(vs: nat, k: nat, sliceSize: nat)
    requires k >= 1
    ensures SliceBegin(vs, k, sliceSize) == SliceBegin(vs, 1, sliceSize) + sliceSize * (k - 1)
  {
    if k > 1 {
      SliceBeginAfterFirst(vs, k - 1, sliceSize);
    }
  }

  lemma {:induction false} SliceBeginMono(vs: nat, i: nat, j: nat, sliceSize: nat)
    requires i < j
    ensures SliceBegin(vs, i, sliceSize) + sliceSize <= SliceBegin(vs, j, sliceSize)
  {
    if i + 1 < j {
      SliceBeginMono(vs, i, j - 1, sliceSize);
    }
  }

  /** A piece lies inside the slice that begins at `begin` and is sent to the
      same place in physical slice `pslice`. */
  ghost predicate PieceWithin(pc: Piece, offset: nat, begin: nat, sliceSize: nat,
                              pslice: nat, sliceStart: nat -> nat)
  {
    pc.length > 0 && begin <= offset + pc.vmoOffset &&
    offset + pc.vmoOffset + pc.length <= begin + sliceSize &&
    pc.devOffset == sliceStart(pslice) + (offset + pc.vmoOffset - begin)
  }

  lemma WithinIsInSlice(pc: Piece, k: nat, offset: nat, sliceSize: nat, vs: nat,
                        m: seq<nat>, sliceStart: nat -> nat)
    requires sliceSize > 0 && vs + k < |m|
    requires PieceWithin(pc, offset, SliceBegin(vs, k, sliceSize), sliceSize, m[vs + k], sliceStart)
    ensures PieceInSlice(pc, k, offset, sliceSize, vs, m, sliceStart)
  {
    SliceBeginIs(vs, k, sliceSize);
    DivBetween(offset + pc.vmoOffset, sliceSize, vs + k);
  }

  /** The splitting loop of DdkIotxnQueue for a transfer over `ve - vs + 1 >= 2`
      mapped slices. */
  method SplitAcrossSlices(offset: nat, len: nat, sliceSize: nat, m: seq<nat>, sliceStart: nat -> nat)
    returns (pieces: seq<Piece>)
    requires sliceSize > 0 && len > 0
    requires offset / sliceSize < (offset + len - 1) / sliceSize < |m|
    ensures |pieces| == (offset + len - 1) / sliceSize - offset / sliceSize + 1
    ensures Tiles(pieces, len) && TotalLength(pieces) == len
    ensures forall i :: 0 <= i < |pieces| ==>
      PieceInSlice(pieces[i], i, offset, sliceSize, offset / sliceSize, m, sliceStart)
  {
    var vs := offset / sliceSize;
    var ve := (offset + len - 1) / sliceSize;
    var count := ve - vs + 1;
    SplitBounds(offset, len, sliceSize);
    pieces := SplitLoop(offset, len, sliceSize, m, sliceStart, vs, count);
    TilesTotal(pieces, len);
    AllWithinInSlice(pieces, offset, sliceSize, vs, m, sliceStart);
  }

  /** Where a transfer over two or more slices starts and ends, measured
      from the start of its first slice. */
  lemma SplitBounds(offset: nat, len: nat, sliceSize: nat)
    requires sliceSize > 0 && len > 0 && offset / sliceSize < (offset + len - 1) / sliceSize
    ensures var vs, count := offset / sliceSize, (offset + len - 1) / sliceSize - offset / sliceSize + 1;
      offset % sliceSize == offset - SliceBegin(vs, 0, sliceSize) < sliceSize &&
      SliceBegin(vs, 0, sliceSize) + sliceSize <= SliceBegin(vs, count - 1, sliceSize) &&
      SliceBegin(vs, count - 1, sliceSize) <= offset + len - 1 < SliceBegin(vs, count - 1, sliceSize) + sliceSize
  {
    var vs, ve := offset / sliceSize, (offset + len - 1) / sliceSize;
    var count := ve - vs + 1;
    DivBounds(offset, sliceSize);
    DivBounds(offset + len - 1, sliceSize);
    SliceBeginIs(vs, 0, sliceSize);
    SliceBeginIs(vs, count - 1, sliceSize);
    assert vs + (count - 1) == ve;
    DivBetween(offset, sliceSize, vs);
    SliceBeginMono(vs, 0, count - 1, sliceSize);
  }

  lemma AllWithinInSlice(pieces: seq<Piece>, offset: nat, sliceSize: nat, vs: nat,
                         m: seq<nat>, sliceStart: nat -> nat)
    requires sliceSize > 0 && vs + |pieces| <= |m|
    requires AllWithin(pieces, offset, sliceSize, vs, m, sliceStart)
    ensures forall i :: 0 <= i < |pieces| ==>
      PieceInSlice(pieces[i], i, offset, sliceSize, vs, m, sliceStart)
  {
    forall i | 0 <= i < |pieces|
      ensures PieceInSlice(pieces[i], i, offset, sliceSize, vs, m, sliceStart)
    {
      WithinIsInSlice(pieces[i], i, offset, sliceSize, vs, m, sliceStart);
    }
  }

  method SplitLoop(offset: nat, len: nat, sliceSize: nat, m: seq<nat>, sliceStart: nat -> nat,
                   vs: nat, count: nat) returns (pieces: seq<Piece>)
    requires sliceSize > 0 && count >= 2 && vs + count <= |m|
    requires offset % sliceSize == offset - SliceBegin(vs, 0, sliceSize) < sliceSize
    requires SliceBegin(vs, 0, sliceSize) + sliceSize <= SliceBegin(vs, count - 1, sliceSize)
    requires SliceBegin(vs, count - 1, sliceSize) <= offset + len - 1 < SliceBegin(vs, count - 1, sliceSize) + sliceSize
    ensures |pieces| == count && Tiles(pieces, len)
    ensures AllWithin(pieces, offset, sliceSize, vs, m, sliceStart)
  {
    pieces := [];
    var remaining: nat := len;
    while |pieces| < count
      invariant SplitState(pieces, remaining, offset, len, sliceSize, vs, count, m, sliceStart)
      decreases count - |pieces|
    {
      pieces, remaining := SplitStep(offset, len, sliceSize, m, sliceStart, vs, count, pieces, remaining);
    }
  }

  /** The split loop after |pieces| turns, with `remaining` bytes of the
      transfer still to assign. */
  ghost predicate SplitState(pieces: seq<Piece>, remaining: nat, offset: nat, len: nat, sliceSize: nat,
                             vs: nat, count: nat, m: seq<nat>, sliceStart: nat -> nat)
  {
    var i := |pieces|;
    sliceSize > 0 && i <= count && vs + count <= |m| &&
    (i == 0 ==> remaining == len) &&
    (0 < i < count ==> remaining + SliceBegin(vs, i, sliceSize) == offset + len) &&
    (i == count ==> remaining == 0) &&
    (i > 0 ==> pieces[0].vmoOffset == 0 && pieces[0].length == sliceSize - offset % sliceSize) &&
    (i > 0 ==> pieces[i - 1].vmoOffset + pieces[i - 1].length == len - remaining) &&
    Chained(pieces) && AllWithin(pieces, offset, sliceSize, vs, m, sliceStart)
  }

  /** One turn of the split loop: the next piece is appended. */
  method SplitStep(offset: nat, len: nat, sliceSize: nat, m: seq<nat>, sliceStart: nat -> nat,
                   vs: nat, count: nat, pieces: seq<Piece>, remaining: nat)
    returns (next: seq<Piece>, rest: nat)
    requires SplitState(pieces, remaining, offset, len, sliceSize, vs, count, m, sliceStart)
    requires |pieces| < count
    requires offset % sliceSize == offset - SliceBegin(vs, 0, sliceSize) < sliceSize
    requires SliceBegin(vs, 0, sliceSize) + sliceSize <= SliceBegin(vs, count - 1, sliceSize)
    requires SliceBegin(vs, count - 1, sliceSize) <= offset + len - 1 < SliceBegin(vs, count - 1, sliceSize) + sliceSize
    ensures SplitState(next, rest, offset, len, sliceSize, vs, count, m, sliceStart)
    ensures |next| == |pieces| + 1
  {
    var i := |pieces|;
    var piece := SplitPiece(offset, len, sliceSize, m, sliceStart, vs, count, i, remaining,
                            if i == 0 then 0 else pieces[0].length);
    ExtendPieces(pieces, piece, offset, sliceSize, vs, m, sliceStart);
    next := pieces + [piece];
    assert next[i] == piece && (i > 0 ==> next[0] == pieces[0]);
    rest := remaining - piece.length;
  }

  /** Each piece starts in the transfer where the one before it ends. */
  ghost predicate Chained(pieces: seq<Piece>)
  {
    forall k :: 0 <= k < |pieces| - 1 ==>
      pieces[k + 1].vmoOffset == pieces[k].vmoOffset + pieces[k].length
  }

  /** Piece `k` lies inside virtual slice `vs + k` and goes to the same
      place in the physical slice mapped there. */
  ghost predicate AllWithin(pieces: seq<Piece>, offset: nat, sliceSize: nat, vs: nat,
                            m: seq<nat>, sliceStart: nat -> nat)
  {
    vs + |pieces| <= |m| &&
    forall k {:trigger pieces[k]} :: 0 <= k < |pieces| ==>
      PieceWithin(pieces[k], offset, SliceBegin(vs, k, sliceSize), sliceSize, m[vs + k], sliceStart)
  }

  /** Appending the next piece keeps the pieces chained one after the
      other and each inside its own slice. */
  lemma ExtendPieces(prev: seq<Piece>, piece: Piece, offset: nat, sliceSize: nat, vs: nat,
                     m: seq<nat>, sliceStart: nat -> nat)
    requires vs + |prev| < |m|
    requires Chained(prev) && AllWithin(prev, offset, sliceSize, vs, m, sliceStart)
    requires PieceWithin(piece, offset, SliceBegin(vs, |prev|, sliceSize), sliceSize, m[vs + |prev|], sliceStart)
    requires |prev| > 0 ==> piece.vmoOffset == prev[|prev| - 1].vmoOffset + prev[|prev| - 1].length
    ensures Chained(prev + [piece]) && AllWithin(prev + [piece], offset, sliceSize, vs, m, sliceStart)
  {
    var next := prev + [piece];
    forall k | 0 <= k < |next|
      ensures PieceWithin(next[k], offset, SliceBegin(vs, k, sliceSize), sliceSize, m[vs + k], sliceStart)
    {
      if k < |prev| {
        assert next[k] == prev[k];
      }
    }
    forall k | 0 <= k < |next| - 1
      ensures next[k + 1].vmoOffset == next[k].vmoOffset + next[k].length
    {
      assert next[k] == prev[k];
      if k + 1 < |prev| {
        assert next[k + 1] == prev[k + 1];
      }
    }
  }

  /** Piece `i` of a split: the first runs from the transfer's start to the
      end of its slice, the last takes what remains, and each one between
      is a whole slice whose transfer offset is the first piece's length
      plus `i - 1` slices. */
  method SplitPiece(offset: nat, len: nat, sliceSize: nat, m: seq<nat>, sliceStart: nat -> nat,
                    vs: nat, count: nat, i: nat, remaining: nat, firstLen: nat) returns (piece: Piece)
    requires sliceSize > 0 && vs + count <= |m| && i < count
    requires offset % sliceSize == offset - SliceBegin(vs, 0, sliceSize) < sliceSize
    requires SliceBegin(vs, 0, sliceSize) + sliceSize <= SliceBegin(vs, count - 1, sliceSize)
    requires SliceBegin(vs, count - 1, sliceSize) <= offset + len - 1 < SliceBegin(vs, count - 1, sliceSize) + sliceSize
    requires i == 0 ==> remaining == len
    requires i > 0 ==> remaining + SliceBegin(vs, i, sliceSize) == offset + len
    requires i > 0 ==> firstLen == sliceSize - offset % sliceSize
    ensures PieceWithin(piece, offset, SliceBegin(vs, i, sliceSize), sliceSize, m[vs + i], sliceStart)
    ensures piece.vmoOffset == len - remaining && piece.length <= remaining
    ensures i == 0 ==> piece.length == sliceSize - offset % sliceSize
    ensures i == count - 1 ==> piece.length == remaining
    ensures i < count - 1 ==> remaining - piece.length + SliceBegin(vs, i + 1, sliceSize) == offset + len
  {
    var pslice := m[vs + i];
    if i == 0 {
      piece := Piece(sliceStart(pslice) + offset % sliceSize, 0, FirstPieceLength(offset, sliceSize));
    } else if i == count - 1 {
      piece := Piece(sliceStart(pslice), len - remaining, remaining);
    } else {
      MiddleOffset(offset, len, sliceSize, vs, count, i, remaining, firstLen);
      piece := Piece(sliceStart(pslice), firstLen + sliceSize * (i - 1), sliceSize);
    }
    assert SliceBegin(vs, i + 1, sliceSize) == SliceBegin(vs, i, sliceSize) + sliceSize;
  }

  /** A middle piece's transfer offset, the first piece's length plus
      `i - 1` whole slices, is where the transfer enters slice `vs + i`. */
  lemma MiddleOffset(offset: nat, len: nat, sliceSize: nat, vs: nat, count: nat, i: nat,
                     remaining: nat, firstLen: nat)
    requires sliceSize > 0 && 0 < i < count - 1
    requires offset % sliceSize == offset - SliceBegin(vs, 0, sliceSize) < sliceSize
    requires SliceBegin(vs, count - 1, sliceSize) <= offset + len - 1
    requires remaining + SliceBegin(vs, i, sliceSize) == offset + len
    requires firstLen == sliceSize - offset % sliceSize
    ensures firstLen + sliceSize * (i - 1) == len - remaining
    ensures SliceBegin(vs, i, sliceSize) + sliceSize <= offset + len - 1
  {
    SliceBeginMono(vs, i, count - 1, sliceSize);
    SliceBeginAfterFirst(vs, i, sliceSize);
  }

  // ---------------------------------------------------------------------
  // Completion of split transfers: multi_iotxn_completion

  /** The shared state of a split transfer's pieces. */
  class MultiTxnState {
    const total: nat
    var completed: nat
    var status: Status
    /** The status the original transfer was completed with, once it was. */
    var original: Option<Status>

    ghost predicate Valid()
      reads this
    {
      completed <= total && (original.Some? <==> completed == total && total > 0) &&
      (original.Some? ==> original.value == status)
    }

    constructor (total: nat)
      requires total > 0
      ensures Valid() && this.total == total && completed == 0 && status == Ok && original == None
    {
      this.total := total;
      completed := 0;
      status := Ok;
      original := None;
    }

    /** One piece completed with `pieceStatus`. The first error is kept and
        the original transfer completes when the last piece does. */
    method Complete(pieceStatus: Status)
      requires Valid() && completed < total
      modifies this
      ensures Valid()
      ensures completed == old(completed) + 1
      ensures status == MergeStatus(old(status), pieceStatus)
      ensures original == (if completed == total then Some(status) else None)
    {
      completed := completed + 1;
      if status == Ok && pieceStatus != Ok {
        status := pieceStatus;
      }
      if completed == total {
        original := Some(status);
      }
    }
  }

  /** First error wins: a recorded error is never overwritten. */
  function MergeStatus(acc: Status, next: Status): (r: Status)
    ensures acc != Ok ==> r == acc
    ensures acc == Ok ==> r == next
  {
    if acc == Ok && next != Ok then next else acc
  }

  function MergeAll(acc: Status, statuses: seq<Status>): Status
    decreases |statuses|
  {
    if statuses == [] then acc else MergeAll(MergeStatus(acc, statuses[0]), statuses[1..])
  }

  /** The first error of a sequence of completions, or Ok. */
  function FirstError(statuses: seq<Status>): (r: Status)
    ensures r == Ok <==> forall i :: 0 <= i < |statuses| ==> statuses[i] == Ok
    ensures r != Ok ==> exists i :: 0 <= i < |statuses| && statuses[i] == r &&
                                    forall j :: 0 <= j < i ==> statuses[j] == Ok
  {
    if statuses == [] then Ok
    else if statuses[0] != Ok then statuses[0]
    else
      var r := FirstError(statuses[1..]);
      assert forall i :: 1 <= i < |statuses| ==> statuses[i] == statuses[1..][i - 1];
      r
  }

  /** Whatever the order the pieces complete in, the status the original
      transfer gets is the first error among the completions in that order. */
  lemma {:induction false} MergeAllIsFirstError(statuses: seq<Status>)
    ensures MergeAll(Ok, statuses) == FirstError(statuses)
  {
    if statuses != [] {
      if statuses[0] == Ok {
        MergeAllIsFirstError(statuses[1..]);
      } else {
        MergeAllKeepsError(statuses[0], statuses[1..]);
      }
    }
  }

  lemma {:induction false} MergeAllKeepsError(e: Status, statuses: seq<Status>)
    requires e != Ok
    ensures MergeAll(e, statuses) == e
  {
    if statuses != [] {
      MergeAllKeepsError(e, statuses[1..]);
    }
  }
}
