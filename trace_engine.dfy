/** The trace engine's buffer accounting: how the trace buffer is cut into a
    durable buffer and two rolling buffers, bump allocation of records with
    full marks and buffer switching, index allocation, the per-thread string
    cache, and the sizes of encoded records. */
module TraceEngine {
  import opened ZxStatus
  import opened Arith

  datatype Mode = Oneshot | Circular | Streaming

  /** Sizes chosen for the durable buffer and for each rolling buffer. */
  datatype Layout = Layout(durableSize: nat, rollingSize: nat)

  /** ComputeBufferSizes. `durableGuess` is the size the engine first picks
      for the durable buffer and `maxDurable` its cap; in the two-buffer
      modes the durable size is then raised by 0 to 15 bytes so that what
      is left splits into two rolling buffers of a whole number of words. */
  function ComputeBufferSizes(mode: Mode, fullSize: nat, headerSize: nat,
                              durableGuess: nat, maxDurable: nat): (l: Layout)
    requires headerSize <= fullSize
    requires mode != Oneshot ==> (if durableGuess > maxDurable then maxDurable else durableGuess) <= fullSize - headerSize
    ensures mode == Oneshot ==> l.durableSize == 0 && l.rollingSize == fullSize - headerSize
    ensures mode != Oneshot ==> l.durableSize + 2 * l.rollingSize == fullSize - headerSize
    ensures mode != Oneshot ==> l.rollingSize % 8 == 0
    ensures mode != Oneshot ==>
      var d := if durableGuess > maxDurable then maxDurable else durableGuess;
      d <= l.durableSize < d + 16
    ensures mode != Oneshot && (fullSize - headerSize) % 8 == 0 &&
            (if durableGuess > maxDurable then maxDurable else durableGuess) % 8 == 0 ==>
      l.durableSize % 8 == 0
  {
    if mode == Oneshot then Layout(0, fullSize - headerSize)
    else
      var avail := fullSize - headerSize;
      var d := if durableGuess > maxDurable then maxDurable else durableGuess;
      var offBy := (avail - d) % 16;
      var durable := d + offBy;
      var rolling := (avail - durable) / 2;
      assert (avail - durable) % 16 == 0 by {
        DivModUnique(avail - durable, 16, (avail - d) / 16, 0);
      }
      assert rolling % 8 == 0 && 2 * rolling == avail - durable by {
        DivModUnique(avail - durable, 2, 8 * ((avail - d) / 16), 0);
        DivModUnique(rolling, 8, (avail - d) / 16, 0);
      }
      assert avail % 8 == 0 && d % 8 == 0 ==> durable % 8 == 0 by {
        if avail % 8 == 0 && d % 8 == 0 {
          var a := avail / 8;
          var b := d / 8;
          DivModUnique(avail - d, 8, a - b, 0);
          DivModUnique(avail - d, 16, (a - b) / 2, 8 * ((a - b) % 2));
          DivModUnique(durable, 8, b + (a - b) % 2, 0);
        }
      }
      Layout(durable, rolling)
  }

  /** The full marks of the two rolling buffers. */
  datatype Marks = Marks(m0: nat, m1: nat) {
    function Get(b: nat): nat { if b % 2 == 0 then m0 else m1 }
    function Set(b: nat, v: nat): Marks { if b % 2 == 0 then Marks(v, m1) else Marks(m0, v) }
  }

  /** A request to the handler to save a rolling buffer (streaming mode). */
  datatype SaveRequest = SaveRequest(wrappedCount: nat, durableDataEnd: nat)

  /** The buffer counters of a trace context. */
  datatype Acct = Acct(
    durableCurrent: nat, durableMark: nat,
    rollingCurrent: nat, wrapped: nat, marks: Marks,
    stopped: bool, dropped: nat, droppedAfterSwitch: nat,
    saveRequests: seq<SaveRequest>)

  /** Where a record was placed: rolling buffer number and byte offset. */
  datatype Slot = Slot(buffer: nat, offset: nat)

  /** SnapToEnd: the current rolling offset is put at the end of the buffer. */
  function SnapToEnd(a: Acct, wrapped: nat, rollingSize: nat): Acct
  {
    a.(rollingCurrent := rollingSize, wrapped := wrapped)
  }

  /** MarkRollingBufferFull: the first offset seen past the end is kept. */
  function MarkRollingFull(a: Acct, wrapped: nat, lastOffset: nat): (r: Acct)
    ensures a.marks.Get(wrapped) != 0 ==> r == a
    ensures a.marks.Get(wrapped) == 0 ==> r.marks == a.marks.Set(wrapped, lastOffset)
  {
    if a.marks.Get(wrapped) == 0 then a.(marks := a.marks.Set(wrapped, lastOffset)) else a
  }

  /** MarkOneshotBufferFull: snap to the end, mark buffer 0 once, count the drop. */
  function MarkOneshotFull(a: Acct, lastOffset: nat, rollingSize: nat): Acct
  {
    var s := SnapToEnd(a, 0, rollingSize);
    var m := if s.marks.m0 == 0 then s.marks.Set(0, lastOffset) else s.marks;
    s.(marks := m, dropped := s.dropped + 1)
  }

  /** DurableBytesAllocated. */
  function DurableBytesAllocated(a: Acct): nat
  {
    if a.durableMark == 0 then a.durableCurrent else a.durableMark
  }

  /** A rolling buffer is ready for writing once its full mark is clear. */
  predicate OtherBufferReady(a: Acct, buffer: nat)
  {
    a.marks.Get(buffer + 1) == 0
  }

  /** SwitchRollingBufferLocked: the next buffer starts empty at offset 0. */
  function SwitchLocked(a: Acct, wrapped: nat): (r: Acct)
    ensures r.wrapped == wrapped + 1 && r.rollingCurrent == 0
    ensures r.marks.Get(wrapped + 1) == 0 && r.marks.Get(wrapped) == a.marks.Get(wrapped)
  {
    a.(marks := a.marks.Set(wrapped + 1, 0), rollingCurrent := 0, wrapped := wrapped + 1)
  }

  /** One pass of AllocRecord's loop (`iter` is 0 or 1). */
  function AllocPass(mode: Mode, rollingSize: nat, a: Acct, n: nat, iter: nat): (Option<Slot>, Acct)
    requires iter < 2
    decreases 2 - iter
  {
    var off := a.rollingCurrent;
    var w := a.wrapped;
    var a1 := a.(rollingCurrent := off + n);
    if off + n <= rollingSize then (Some(Slot(w % 2, off)), a1)
    else if mode == Oneshot then (None, MarkOneshotFull(a1, off, rollingSize))
    else
      var a2 := MarkRollingFull(a1, w, off);
      if mode == Streaming && !OtherBufferReady(a2, w) then (None, a2.(dropped := a2.dropped + 1))
      else if iter == 1 then (None, a2.(droppedAfterSwitch := a2.droppedAfterSwitch + 1))
      else if a2.stopped then (None, a2.(dropped := a2.dropped + 1))
      else
        var a3 := SwitchLocked(a2, w);
        var a4 := if mode == Streaming
          then a3.(saveRequests := a3.saveRequests + [SaveRequest(w, DurableBytesAllocated(a2))])
          else a3;
        AllocPass(mode, rollingSize, a4, n, iter + 1)
  }

  /** AllocRecord: records longer than the maximum are refused outright. */
  function AllocRecordSpec(mode: Mode, rollingSize: nat, maxLen: nat, a: Acct, n: nat): (Option<Slot>, Acct)
  {
    if n > maxLen then (None, a) else AllocPass(mode, rollingSize, a, n, 0)
  }

  /** A record handed out lies wholly inside the buffer the write counter
      now points into, and the counter moved past it. An oversized record
      changes nothing; every failure leaves no slot. */
  lemma {:induction false} AllocRecordPlaces(mode: Mode, rollingSize: nat, maxLen: nat, a: Acct, n: nat)
    ensures n > maxLen ==> AllocRecordSpec(mode, rollingSize, maxLen, a, n) == (None, a)
    ensures var (r, a') := AllocRecordSpec(mode, rollingSize, maxLen, a, n);
      r.Some? ==> r.value.offset + n <= rollingSize && r.value.buffer == a'.wrapped % 2 &&
                  a'.rollingCurrent == r.value.offset + n
  {
    if n <= maxLen {
      AllocPassPlaces(mode, rollingSize, a, n, 0);
    }
  }

  lemma {:induction false} AllocPassPlaces(mode: Mode, rollingSize: nat, a: Acct, n: nat, iter: nat)
    requires iter < 2
    ensures var (r, a') := AllocPass(mode, rollingSize, a, n, iter);
      r.Some? ==> r.value.offset + n <= rollingSize && r.value.buffer == a'.wrapped % 2 &&
                  a'.rollingCurrent == r.value.offset + n
    decreases 2 - iter
  {
    var off := a.rollingCurrent;
    var w := a.wrapped;
    var a1 := a.(rollingCurrent := off + n);
    if off + n > rollingSize && mode != Oneshot {
      var a2 := MarkRollingFull(a1, w, off);
      if !(mode == Streaming && !OtherBufferReady(a2, w)) && iter == 0 && !a2.stopped {
        var a3 := SwitchLocked(a2, w);
        var a4 := if mode == Streaming
          then a3.(saveRequests := a3.saveRequests + [SaveRequest(w, DurableBytesAllocated(a2))])
          else a3;
        AllocPassPlaces(mode, rollingSize, a4, n, 1);
      }
    }
  }

  /** AllocRecord tries each rolling buffer at most once: the wrapped count
      grows by at most one, and never in oneshot mode; durable counters
      are left alone. */
  lemma {:induction false} AllocRecordSwitchesAtMostOnce(mode: Mode, rollingSize: nat, maxLen: nat, a: Acct, n: nat)
    requires mode == Oneshot ==> a.wrapped == 0
    ensures var (_, a') := AllocRecordSpec(mode, rollingSize, maxLen, a, n);
      a.wrapped <= a'.wrapped <= a.wrapped + 1 && (mode == Oneshot ==> a'.wrapped == 0) &&
      a'.durableCurrent == a.durableCurrent && a'.durableMark == a.durableMark && a'.stopped == a.stopped
  {
    if n <= maxLen {
      var off := a.rollingCurrent;
      var w := a.wrapped;
      var a1 := a.(rollingCurrent := off + n);
      if off + n > rollingSize && mode != Oneshot {
        var a2 := MarkRollingFull(a1, w, off);
        if !(mode == Streaming && !OtherBufferReady(a2, w)) && !a2.stopped {
          var a3 := SwitchLocked(a2, w);
          var a4 := if mode == Streaming
            then a3.(saveRequests := a3.saveRequests + [SaveRequest(w, DurableBytesAllocated(a2))])
            else a3;
          assert AllocPass(mode, rollingSize, a, n, 0) == AllocPass(mode, rollingSize, a4, n, 1);
          assert a4.wrapped == w + 1;
        }
      }
    }
  }

  /** MarkDurableBufferFull: the durable offset snaps to the end; the first
      time, the offset is kept as the full mark and tracing stops by
      making the current rolling buffer look full. */
  function MarkDurableFull(a: Acct, lastOffset: nat, durableSize: nat, rollingSize: nat): Acct
  {
    var s := a.(durableCurrent := durableSize);
    if s.durableMark == 0 then
      SnapToEnd(s.(durableMark := lastOffset, stopped := true), s.wrapped, rollingSize)
    else s
  }

  /** AllocDurableRecord. */
  function AllocDurableSpec(durableSize: nat, rollingSize: nat, a: Acct, n: nat): (Option<nat>, Acct)
  {
    var off := a.durableCurrent;
    if off + n <= durableSize then (Some(off), a.(durableCurrent := off + n))
    else (None, MarkDurableFull(a.(durableCurrent := off + n), off, durableSize, rollingSize))
  }

  /** A durable allocation succeeds exactly when it fits; on failure the
      full mark is set only if it was clear, and once set it never moves. */
  lemma DurableAllocFits(durableSize: nat, rollingSize: nat, a: Acct, n: nat)
    ensures var (r, a') := AllocDurableSpec(durableSize, rollingSize, a, n);
      (r.Some? <==> a.durableCurrent + n <= durableSize) &&
      (r.Some? ==> r.value == a.durableCurrent && a'.durableCurrent == a.durableCurrent + n) &&
      (r.None? ==> a'.durableCurrent == durableSize) &&
      (r.None? && a.durableMark == 0 ==> a'.durableMark == a.durableCurrent && a'.stopped) &&
      (a.durableMark != 0 ==> a'.durableMark == a.durableMark && a'.stopped == a.stopped)
  {
  }

  /** Index allocation (thread and string indexes): the counter is bumped;
      once it passes `maxIndex` allocation fails and the counter is pinned
      at `maxIndex + 1`. */
  function AllocIndexSpec(next: nat, maxIndex: nat): (r: (Option<nat>, nat))
    ensures r.0.Some? <==> next <= maxIndex
    ensures r.0.Some? ==> r.0.value == next && r.1 == next + 1
    ensures r.0.None? ==> r.1 == maxIndex + 1
  {
    if next > maxIndex then (None, maxIndex + 1) else (Some(next), next + 1)
  }

  /** Indexes handed out by successive allocations are strictly increasing,
      hence never reused, and the counter never exceeds `maxIndex + 1`. */
  lemma IndexesIncrease(next: nat, maxIndex: nat)
    requires next <= maxIndex + 1
    ensures AllocIndexSpec(next, maxIndex).1 <= maxIndex + 1
    ensures var (r1, n1) := AllocIndexSpec(next, maxIndex);
      var (r2, _) := AllocIndexSpec(n1, maxIndex);
      r1.Some? && r2.Some? ==> r1.value < r2.value
  {
  }

  class TraceContext {
    const mode: Mode
    const layout: Layout
    /** Largest record AllocRecord accepts, in bytes. */
    const maxRecordLength: nat
    const maxThreadIndex: nat
    const maxStringIndex: nat

    var durableCurrent: nat
    var durableMark: nat
    var rollingCurrent: nat
    var wrapped: nat
    var marks: Marks
    var stopped: bool
    var dropped: nat
    var droppedAfterSwitch: nat
    var saveRequests: seq<SaveRequest>
    var nextThreadIndex: nat
    var nextStringIndex: nat

    ghost function Counters(): Acct
      reads this
    {
      Acct(durableCurrent, durableMark, rollingCurrent, wrapped, marks,
           stopped, dropped, droppedAfterSwitch, saveRequests)
    }

    constructor (mode: Mode, fullSize: nat, headerSize: nat, durableGuess: nat, maxDurable: nat,
                 maxRecordLength: nat, maxThreadIndex: nat, maxStringIndex: nat)
      requires headerSize <= fullSize
      requires mode != Oneshot ==> (if durableGuess > maxDurable then maxDurable else durableGuess) <= fullSize - headerSize
      ensures this.mode == mode && this.maxRecordLength == maxRecordLength
      ensures this.maxThreadIndex == maxThreadIndex && this.maxStringIndex == maxStringIndex
      ensures layout == ComputeBufferSizes(mode, fullSize, headerSize, durableGuess, maxDurable)
      ensures Counters() == Acct(0, 0, 0, 0, Marks(0, 0), false, 0, 0, [])
      ensures nextThreadIndex == 1 && nextStringIndex == 1
    {
      this.mode := mode;
      layout := ComputeBufferSizes(mode, fullSize, headerSize, durableGuess, maxDurable);
      this.maxRecordLength := maxRecordLength;
      this.maxThreadIndex := maxThreadIndex;
      this.maxStringIndex := maxStringIndex;
      durableCurrent := 0;
      durableMark := 0;
      rollingCurrent := 0;
      wrapped := 0;
      marks := Marks(0, 0);
      stopped := false;
      dropped := 0;
      droppedAfterSwitch := 0;
      saveRequests := [];
      nextThreadIndex := 1;
      nextStringIndex := 1;
    }

    method SnapRollingToEnd(w: nat)
      modifies this
      ensures Counters() == SnapToEnd(old(Counters()), w, layout.rollingSize)
      ensures nextThreadIndex == old(nextThreadIndex) && nextStringIndex == old(nextStringIndex)
    {
      rollingCurrent := layout.rollingSize;
      wrapped := w;
    }

    method MarkRollingBufferFull(w: nat, lastOffset: nat)
      modifies this
      ensures Counters() == MarkRollingFull(old(Counters()), w, lastOffset)
      ensures nextThreadIndex == old(nextThreadIndex) && nextStringIndex == old(nextStringIndex)
    {
      if marks.Get(w) == 0 {
        marks := marks.Set(w, lastOffset);
      }
    }

    method MarkOneshotBufferFull(lastOffset: nat)
      modifies this
      ensures Counters() == MarkOneshotFull(old(Counters()), lastOffset, layout.rollingSize)
      ensures nextThreadIndex == old(nextThreadIndex) && nextStringIndex == old(nextStringIndex)
    {
      SnapRollingToEnd(0);
      if marks.m0 == 0 {
        marks := marks.Set(0, lastOffset);
      }
      dropped := dropped + 1;
    }

    method SwitchRollingBufferLocked(w: nat)
      modifies this
      ensures Counters() == SwitchLocked(old(Counters()), w)
      ensures nextThreadIndex == old(nextThreadIndex) && nextStringIndex == old(nextStringIndex)
    {
      marks := marks.Set(w + 1, 0);
      rollingCurrent := 0;
      wrapped := w + 1;
    }

    /** One pass of AllocRecord's loop. When it does not finish, the first
        buffer was full and the context has switched to the other one. */
    method AllocAttempt(n: nat, iter: nat) returns (done: bool, r: Option<Slot>)
      requires iter < 2
      modifies this
      ensures done ==> (r, Counters()) == AllocPass(mode, layout.rollingSize, old(Counters()), n, iter)
      ensures !done ==> iter == 0
      ensures !done ==>
        AllocPass(mode, layout.rollingSize, Counters(), n, 1) == AllocPass(mode, layout.rollingSize, old(Counters()), n, 0)
      ensures nextThreadIndex == old(nextThreadIndex) && nextStringIndex == old(nextStringIndex)
    {
      var off := rollingCurrent;
      var w := wrapped;
      rollingCurrent := off + n;
      if off + n <= layout.rollingSize {
        return true, Some(Slot(w % 2, off));
      }
      if mode == Oneshot {
        MarkOneshotBufferFull(off);
        return true, None;
      }
      MarkRollingBufferFull(w, off);
      if mode == Streaming && marks.Get(w + 1) != 0 {
        dropped := dropped + 1;
        return true, None;
      }
      if iter == 1 {
        droppedAfterSwitch := droppedAfterSwitch + 1;
        return true, None;
      }
      if stopped {
        dropped := dropped + 1;
        return true, None;
      }
      var durableEnd := if durableMark == 0 then durableCurrent else durableMark;
      SwitchRollingBufferLocked(w);
      if mode == Streaming {
        saveRequests := saveRequests + [SaveRequest(w, durableEnd)];
      }
      return false, None;
    }

    /** AllocRecord: at most two passes, one per rolling buffer. */
    method AllocRecord(n: nat) returns (r: Option<Slot>)
      modifies this
      ensures (r, Counters()) == AllocRecordSpec(mode, layout.rollingSize, maxRecordLength, old(Counters()), n)
      ensures nextThreadIndex == old(nextThreadIndex) && nextStringIndex == old(nextStringIndex)
    {
      if n > maxRecordLength {
        return None;
      }
      var iter := 0;
      while true
        invariant iter < 2
        invariant AllocPass(mode, layout.rollingSize, Counters(), n, iter) ==
                  AllocPass(mode, layout.rollingSize, old(Counters()), n, 0)
        invariant nextThreadIndex == old(nextThreadIndex) && nextStringIndex == old(nextStringIndex)
        decreases 2 - iter
      {
        var done;
        done, r := AllocAttempt(n, iter);
        if done {
          return;
        }
        iter := iter + 1;
      }
    }

    /** AllocDurableRecord. */
    method AllocDurableRecord(n: nat) returns (r: Option<nat>)
      modifies this
      ensures (r, Counters()) == AllocDurableSpec(layout.durableSize, layout.rollingSize, old(Counters()), n)
      ensures nextThreadIndex == old(nextThreadIndex) && nextStringIndex == old(nextStringIndex)
    {
      var off := durableCurrent;
      durableCurrent := off + n;
      if off + n <= layout.durableSize {
        return Some(off);
      }
      durableCurrent := layout.durableSize;
      if durableMark == 0 {
        durableMark := off;
        stopped := true;
        SnapRollingToEnd(wrapped);
      }
      return None;
    }

    /** MarkRollingBufferSaved: the saved buffer becomes writable again. */
    method MarkRollingBufferSaved(w: nat)
      modifies this
      ensures Counters() == old(Counters()).(marks := old(marks).Set(w, 0))
      ensures nextThreadIndex == old(nextThreadIndex) && nextStringIndex == old(nextStringIndex)
    {
      marks := marks.Set(w, 0);
    }

    method AllocThreadIndex() returns (r: Option<nat>)
      modifies this
      ensures (r, nextThreadIndex) == AllocIndexSpec(old(nextThreadIndex), maxThreadIndex)
      ensures Counters() == old(Counters()) && nextStringIndex == old(nextStringIndex)
    {
      var index := nextThreadIndex;
      nextThreadIndex := nextThreadIndex + 1;
      if index > maxThreadIndex {
        nextThreadIndex := maxThreadIndex + 1;
        return None;
      }
      return Some(index);
    }

    method AllocStringIndex() returns (r: Option<nat>)
      modifies this
      ensures (r, nextStringIndex) == AllocIndexSpec(old(nextStringIndex), maxStringIndex)
      ensures Counters() == old(Counters()) && nextThreadIndex == old(nextThreadIndex)
    {
      var index := nextStringIndex;
      nextStringIndex := nextStringIndex + 1;
      if index > maxStringIndex {
        nextStringIndex := maxStringIndex + 1;
        return None;
      }
      return Some(index);
    }
  }

  // ---------------------------------------------------------------------
  // Per-thread string cache

  const MAX_STRING_ENTRIES: nat := 256

  datatype StringEntry = StringEntry(literal: string, flags: nat, index: nat)

  /** Position of the entry for `lit`, if any. */
  function FindEntry(entries: seq<StringEntry>, lit: string): (r: Option<nat>)
    ensures r.Some? ==> r.value < |entries| && entries[r.value].literal == lit
    ensures r.None? ==> forall i :: 0 <= i < |entries| ==> entries[i].literal != lit
  {
    if entries == [] then None
    else if entries[|entries| - 1].literal == lit then Some(|entries| - 1)
    else FindEntry(entries[..|entries| - 1], lit)
  }

  class ThreadCache {
    var present: bool
    var generation: nat
    var entries: seq<StringEntry>

    ghost predicate Valid()
      reads this
    {
      |entries| <= MAX_STRING_ENTRIES &&
      forall i, j :: 0 <= i < j < |entries| ==> entries[i].literal != entries[j].literal
    }

    constructor ()
      ensures Valid() && !present && entries == []
    {
      present := false;
      generation := 0;
      entries := [];
    }

    /** GetCurrentContextCache: a cache of an older generation is reset, a
        cache of a newer generation refuses the caller. */
    method GetCurrent(gen: nat) returns (ok: bool)
      requires Valid()
      modifies this
      ensures Valid()
      ensures ok <==> !(old(present) && old(generation) > gen)
      ensures ok ==> present && generation == gen
      ensures ok && old(present) && old(generation) == gen ==> entries == old(entries)
      ensures ok && !(old(present) && old(generation) == gen) ==> entries == []
      ensures !ok ==> present == old(present) && generation == old(generation) && entries == old(entries)
    {
      if present {
        if generation == gen {
          return true;
        }
        if generation > gen {
          return false;
        }
      }
      present := true;
      generation := gen;
      entries := [];
      return true;
    }

    /** CacheStringEntry: the existing entry for the literal, a new one
        while fewer than 256 exist, otherwise none. */
    method CacheStringEntry(gen: nat, lit: string) returns (r: Option<nat>)
      requires Valid()
      modifies this
      ensures Valid()
      ensures r.Some? ==> r.value < |entries| && entries[r.value].literal == lit
      ensures old(present) && old(generation) > gen ==> r.None? && entries == old(entries)
      ensures old(present) && old(generation) == gen && FindEntry(old(entries), lit).Some? ==>
        r == FindEntry(old(entries), lit) && entries == old(entries)
      ensures old(present) && old(generation) == gen && FindEntry(old(entries), lit).None? ==>
        if |old(entries)| == MAX_STRING_ENTRIES then r.None? && entries == old(entries)
        else r == Some(|old(entries)|) && entries == old(entries) + [StringEntry(lit, 0, 0)]
      ensures !(old(present) && old(generation) >= gen) ==>
        r == Some(0) && entries == [StringEntry(lit, 0, 0)]
    {
      var ok := GetCurrent(gen);
      if !ok {
        return None;
      }
      r := FindEntry(entries, lit);
      if r.Some? {
        return r;
      }
      if |entries| == MAX_STRING_ENTRIES {
        return None;
      }
      r := Some(|entries|);
      entries := entries + [StringEntry(lit, 0, 0)];
    }
  }

  // ---------------------------------------------------------------------
  // Sizes of encoded records

  /** Pad: a byte count rounded up to whole 8-byte words. */
  function Pad(n: nat): (r: nat)
    ensures r % 8 == 0 && n <= r < n + 8
  {
    RoundUp(n, 8)
  }

  /** Pad counts the whole words of `n` plus one word for a partial tail. */
  lemma PadWords(n: nat)
    ensures Pad(n) == 8 * (n / 8) + (if n % 8 == 0 then 0 else 8)
  {
    var w := n / 8;
    var r := Pad(n);
    var q := r / 8;
    assert r == 8 * q;
    if n % 8 == 0 {
      assert r == n;
    } else {
      assert q == w + 1;
    }
  }

  datatype StringRef = IndexedString(index: nat) | InlineString(length: nat)
  datatype ThreadRef = IndexedThread(index: nat) | InlineThread | UnknownThread

  datatype ArgValue =
    | NullArg | Int32Arg | Uint32Arg | Int64Arg | Uint64Arg | DoubleArg
    | StringArg(ref: StringRef) | PointerArg | KoidArg

  datatype Arg = Arg(name: StringRef, value: ArgValue)

  function SizeOfStringRef(r: StringRef): (n: nat)
    ensures n % 8 == 0
    ensures r.IndexedString? ==> n == 0
    ensures r.InlineString? ==> r.length <= n < r.length + 8
  {
    match r
    case IndexedString(_) => 0
    case InlineString(len) => Pad(len)
  }

  function SizeOfThreadRef(r: ThreadRef): (n: nat)
    ensures n == (if r.IndexedThread? then 0 else 16)
  {
    if r.IndexedThread? then 0 else 16
  }

  function SizeOfArgValue(v: ArgValue): (n: nat)
    ensures n % 8 == 0
    ensures !v.StringArg? ==> n <= 8
    ensures v.StringArg? ==> n == SizeOfStringRef(v.ref)
    ensures v.NullArg? || v.Int32Arg? || v.Uint32Arg? ==> n == 0
  {
    match v
    case NullArg => 0
    case Int32Arg => 0
    case Uint32Arg => 0
    case StringArg(r) => SizeOfStringRef(r)
    case _ => 8
  }

  /** An argument: an 8-byte header, then its name and value out of line. */
  function SizeOfArg(a: Arg): (n: nat)
    ensures n % 8 == 0 && n >= 8
  {
    8 + SizeOfStringRef(a.name) + SizeOfArgValue(a.value)
  }

  /** Total encoded size of an argument list. */
  function ArgsSize(args: seq<Arg>): (n: nat)
    ensures n % 8 == 0 && n >= 8 * |args|
  {
    if args == [] then 0
    else
      var init, a := args[..|args| - 1], args[|args| - 1];
      var m, k := ArgsSize(init), SizeOfArg(a);
      assert (m + k) % 8 == 0 by {
        DivModUnique(m + k, 8, m / 8 + k / 8, 0);
      }
      m + k
  }

  /** SizeOfEncodedArgs. */
  method SizeOfEncodedArgs(args: seq<Arg>) returns (total: nat)
    ensures total == ArgsSize(args)
  {
    total := 0;
    var i := 0;
    while i < |args|
      invariant i <= |args| && total == ArgsSize(args[..i])
    {
      assert args[..i + 1][..i] == args[..i];
      total := total + SizeOfArg(args[i]);
      i := i + 1;
    }
    assert args[..i] == args;
  }

  /** A payload being written into a record: `pos` is the next byte. */
  class Payload {
    const mem: array<bv8>
    var pos: nat

    constructor (mem: array<bv8>, pos: nat)
      ensures this.mem == mem && this.pos == pos
    {
      this.mem := mem;
      this.pos := pos;
    }

    /** PrepareWriteBytes: reserves `length` bytes rounded up to whole
        words, zeroes the padding after them, and returns where they start. */
    method PrepareWriteBytes(length: nat) returns (start: nat)
      requires pos + Pad(length) <= mem.Length
      modifies this, mem
      ensures start == old(pos) && pos == start + Pad(length)
      ensures forall i :: start + length <= i < pos ==> mem[i] == 0
      ensures forall i :: 0 <= i < mem.Length && !(start + length <= i < pos) ==> mem[i] == old(mem[i])
    {
      start := pos;
      var words := length / 8;
      pos := pos + 8 * words;
      var tail := length % 8;
      PadWords(length);
      if tail != 0 {
        var padding := 8 - tail;
        pos := pos + 8;
        var i := pos - padding;
        while i < pos
          invariant pos - padding <= i <= pos && pos == start + Pad(length) && pos <= mem.Length
          invariant forall k :: pos - padding <= k < i ==> mem[k] == 0
          invariant forall k :: 0 <= k < mem.Length && !(pos - padding <= k < i) ==> mem[k] == old(mem[k])
        {
          mem[i] := 0;
          i := i + 1;
        }
      }
    }

    /** WriteBytes: copies `src` into the reserved bytes. */
    method WriteBytes(src: seq<bv8>)
      requires pos + Pad(|src|) <= mem.Length
      modifies this, mem
      ensures pos == old(pos) + Pad(|src|)
      ensures mem[old(pos)..old(pos) + |src|] == src
      ensures forall i :: old(pos) + |src| <= i < pos ==> mem[i] == 0
      ensures forall i :: 0 <= i < mem.Length && !(old(pos) <= i < pos) ==> mem[i] == old(mem[i])
    {
      var start := PrepareWriteBytes(|src|);
      var i := 0;
      while i < |src|
        invariant i <= |src| && start == old(pos) && pos == start + Pad(|src|) && pos <= mem.Length
        invariant forall k :: start <= k < start + i ==> mem[k] == src[k - start]
        invariant forall k :: start + |src| <= k < pos ==> mem[k] == 0
        invariant forall k :: 0 <= k < mem.Length && !(start <= k < pos) ==> mem[k] == old(mem[k])
      {
        mem[start + i] := src[i];
        i := i + 1;
      }
    }
  }
}
