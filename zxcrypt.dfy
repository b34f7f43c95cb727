/** The zxcrypt block device's request admission: argument checks, the
    wrap-around reservation of a window in its bitmap of scratch blocks, the
    task counter that keeps the device alive, and the queue of requests that
    had to wait for a window. */
module Zxcrypt {
  import opened ZxStatus

  datatype Command = Read | Write | OtherCommand(code: nat)

  /** The fields of a block request the device looks at (lengths and
      offsets are in blocks). */
  datatype BlockOp = BlockOp(command: Command, length: nat, offsetDev: nat, offsetVmo: nat)

  /** What BlockQueue does with a request before reserving a window. */
  datatype Admission = PassThrough | CompleteNow(status: Status) | Admit

  /** BlockQueue's checks: non-I/O commands go to the parent, empty I/O
      completes at once, `offsetDev + length` must not overflow 64 bits and
      must lie within the device. */
  function CheckBlock(op: BlockOp, blockCount: nat): (a: Admission)
    ensures !(op.command.Read? || op.command.Write?) <==> a == PassThrough
    ensures (op.command.Read? || op.command.Write?) && op.length == 0 ==> a == CompleteNow(Ok)
    ensures a == CompleteNow(ErrInvalidArgs) <==>
      (op.command.Read? || op.command.Write?) && op.length > 0 && op.offsetDev + op.length > U64_MAX
    ensures a == Admit <==>
      (op.command.Read? || op.command.Write?) && op.length > 0 &&
      op.offsetDev + op.length <= U64_MAX && op.offsetDev < blockCount && op.offsetDev + op.length <= blockCount
    ensures a == CompleteNow(ErrOutOfRange) <==>
      (op.command.Read? || op.command.Write?) && op.length > 0 &&
      op.offsetDev + op.length <= U64_MAX && !(op.offsetDev < blockCount && op.offsetDev + op.length <= blockCount)
  {
    if !(op.command.Read? || op.command.Write?) then PassThrough
    else if op.length == 0 then CompleteNow(Ok)
    else if op.offsetDev + op.length > U64_MAX then CompleteNow(ErrInvalidArgs)
    else if op.offsetDev >= blockCount || blockCount < op.offsetDev + op.length then CompleteNow(ErrOutOfRange)
    else Admit
  }

  /** Bits `[p, p + len)` of the map exist and are all clear. */
  ghost predicate RunClear(m: seq<bool>, p: nat, len: nat)
  {
    p + len <= |m| && forall i :: p <= i < p + len ==> !m[i]
  }

  /** The bitmap's Find for a run of `len` clear bits lying within `[lo, hi)`:
      the lowest start that fits, or None. */
  function FindRun(m: seq<bool>, lo: nat, hi: nat, len: nat): (r: Option<nat>)
    requires hi <= |m|
    ensures r.Some? ==> lo <= r.value && r.value + len <= hi && RunClear(m, r.value, len)
    ensures r.Some? ==> forall q :: lo <= q < r.value ==> !RunClear(m, q, len)
    ensures r.None? ==> forall q :: lo <= q && q + len <= hi ==> !RunClear(m, q, len)
    decreases hi - lo
  {
    if lo + len > hi then None
    else if forall i :: lo <= i < lo + len ==> !m[i] then Some(lo)
    else FindRun(m, lo + 1, hi, len)
  }

  /** AcquireBlocks' search as the source writes it: from `last` to the
      end, then only within `[0, last)`; a `last` of 0 or of the map size
      searches the whole map. */
  function WrapSearchAsWritten(m: seq<bool>, last: nat, len: nat): Option<nat>
    requires last <= |m|
  {
    if last == 0 || last == |m| then FindRun(m, 0, |m|, len)
    else match FindRun(m, last, |m|, len)
      case Some(p) => Some(p)
      case None => FindRun(m, 0, last, len)
  }

  /** A free window that straddles `last` is seen by neither search: on an
      all-clear map of 4 with `last` at 2, a request for 4 blocks finds
      nothing. */
  lemma WrapSearchMissesStraddlingWindow()
    ensures RunClear([false, false, false, false], 0, 4)
    ensures WrapSearchAsWritten([false, false, false, false], 2, 4).None?
  {
  }

  /** AcquireBlocks' search: from `last` to the end, then the whole map from
      its start; a `last` of 0 or of the map size searches the whole map once. */
  function WrapSearch(m: seq<bool>, last: nat, len: nat): Option<nat>
    requires last <= |m|
  {
    if last == 0 || last == |m| then FindRun(m, 0, |m|, len)
    else match FindRun(m, last, |m|, len)
      case Some(p) => Some(p)
      case None => FindRun(m, 0, |m|, len)
  }

  /** The window AcquireBlocks reserves is clear and is the first that fits
      going round from `last`; nothing is found only when no window of `len`
      clear bits exists anywhere in the map. */
  lemma WrapSearchFinds(m: seq<bool>, last: nat, len: nat)
    requires last <= |m|
    ensures WrapSearch(m, last, len).Some? ==>
      var p := WrapSearch(m, last, len).value;
      RunClear(m, p, len) &&
      (0 < last < |m| && p >= last ==> forall q :: last <= q < p ==> !RunClear(m, q, len)) &&
      (0 < last < |m| && p < last ==>
        (forall q: nat :: last <= q ==> !RunClear(m, q, len)) && forall q: nat :: q < p ==> !RunClear(m, q, len)) &&
      (last == 0 || last == |m| ==> forall q: nat :: q < p ==> !RunClear(m, q, len))
    ensures WrapSearch(m, last, len).None? <==> forall q: nat :: !RunClear(m, q, len)
  {
  }

  /** The bitmap with bits `[lo, lo + len)` set to `b`. */
  function SetRange(m: seq<bool>, lo: nat, len: nat, b: bool): (r: seq<bool>)
    requires lo + len <= |m|
    ensures |r| == |m|
    ensures forall i :: 0 <= i < |m| ==> r[i] == if lo <= i < lo + len then b else m[i]
  {
    m[..lo] + seq(len, _ => b) + m[lo + len..]
  }

  /** Releasing a window that was reserved from clear bits gives back the
      bitmap as it was before the reservation. */
  lemma ReleaseUndoesAcquire(m: seq<bool>, p: nat, len: nat)
    requires RunClear(m, p, len)
    ensures SetRange(SetRange(m, p, len, true), p, len, false) == m
  {
    var r := SetRange(SetRange(m, p, len, true), p, len, false);
    assert forall i :: 0 <= i < |m| ==> r[i] == m[i];
  }

  /** One pass of BlockRelease's retry loop over the deferred queue, as the
      source writes it: the `break` after a requeue leaves only the
      `switch`, so the loop goes on with the queue it just restored. The
      result is the new bitmap, `last`, queue, and whether the loop goes on. */
  function RetryPassAsWritten(m: seq<bool>, last: nat, queue: seq<BlockOp>)
    : (seq<bool>, nat, seq<BlockOp>, bool)
    requires last <= |m|
  {
    if queue == [] then (m, last, queue, false)
    else match WrapSearchAsWritten(m, last, queue[0].length)
      case Some(p) => (SetRange(m, p, queue[0].length, true), p + queue[0].length, queue[1..], true)
      case None => (m, last, [queue[0]] + queue[1..], true)
  }

  /** The same pass with the loop left once the head had to be requeued. */
  function RetryPass(m: seq<bool>, last: nat, queue: seq<BlockOp>)
    : (seq<bool>, nat, seq<BlockOp>, bool)
    requires last <= |m|
  {
    if queue == [] then (m, last, queue, false)
    else match WrapSearch(m, last, queue[0].length)
      case Some(p) => (SetRange(m, p, queue[0].length, true), p + queue[0].length, queue[1..], true)
      case None => (m, last, queue, false)
  }

  /** When the request at the head of the queue does not fit, the source's
      pass leaves every piece of state as it found it and asks for another
      pass: with nothing released meanwhile the loop never ends. A request
      longer than the whole map is one such head. */
  lemma RetryAsWrittenSpins(m: seq<bool>, last: nat, queue: seq<BlockOp>)
    requires last <= |m| && queue != [] && queue[0].length > |m|
    ensures RetryPassAsWritten(m, last, queue) == (m, last, queue, true)
  {
    assert WrapSearchAsWritten(m, last, queue[0].length).None?;
    assert [queue[0]] + queue[1..] == queue;
  }

  /** The corrected pass always makes progress: it either takes the head
      off the queue or stops the loop. */
  lemma RetryPassProgresses(m: seq<bool>, last: nat, queue: seq<BlockOp>)
    requires last <= |m|
    ensures var (_, _, q, goOn) := RetryPass(m, last, queue);
      goOn ==> queue != [] && q == queue[1..]
    ensures var (_, _, q, goOn) := RetryPass(m, last, queue);
      !goOn ==> q == queue
  {
  }

  /** How a request left the device: processed in a reserved window, or
      completed with an error. */
  datatype Outcome = Processed(op: BlockOp, off: nat) | Completed(op: BlockOp, status: Status)

  /** What BlockQueue did with one request. */
  datatype QueueResult = Forwarded | Finished(status: Status) | Started(off: nat) | Deferred

  class Device {
    /** Whether new tasks may start (set by Init, cleared by DdkUnbind). */
    var active: bool
    /** Outstanding tasks; the device is removed when this drops to 0. */
    var tasks: nat
    /** One bit per scratch block: set while an operation owns it. */
    var bits: seq<bool>
    /** Where the previous reservation ended. */
    var last: nat
    /** Requests waiting for a window, head first. */
    var deferred: seq<BlockOp>
    /** Whether DdkRemove has been called. */
    var removed: bool

    ghost predicate Valid()
      reads this
    {
      last <= |bits|
    }

    constructor (maxOps: nat)
      ensures Valid() && !active && tasks == 0 && last == 0 && deferred == [] && !removed
      ensures bits == seq(maxOps, _ => false)
    {
      active := false;
      tasks := 0;
      bits := seq(maxOps, _ => false);
      last := 0;
      deferred := [];
      removed := false;
    }

    /** AddTaskLocked: a task can only start while the device is active. */
    method AddTask() returns (status: Status)
      modifies this
      ensures status == (if old(active) then Ok else ErrBadState)
      ensures tasks == (if old(active) then old(tasks) + 1 else old(tasks))
      ensures active == old(active) && bits == old(bits) && last == old(last)
      ensures deferred == old(deferred) && removed == old(removed)
    {
      if !active {
        return ErrBadState;
      }
      tasks := tasks + 1;
      return Ok;
    }

    /** FinishTaskLocked: the last task to finish removes the device. */
    method FinishTask()
      requires tasks > 0
      modifies this
      ensures tasks == old(tasks) - 1
      ensures removed == (old(removed) || tasks == 0)
      ensures active == old(active) && bits == old(bits) && last == old(last) && deferred == old(deferred)
    {
      tasks := tasks - 1;
      if tasks == 0 {
        removed := true;
      }
    }

    /** Init: the device becomes active and holds one extra task, so that
        the count cannot reach 0 before DdkUnbind. */
    method Init()
      modifies this
      ensures active && tasks == old(tasks) + 1
      ensures bits == old(bits) && last == old(last) && deferred == old(deferred) && removed == old(removed)
    {
      active := true;
      var _ := AddTask();
    }

    /** DdkUnbind: no new tasks, and the extra task of Init finishes. */
    method Unbind()
      requires tasks > 0
      modifies this
      ensures !active && tasks == old(tasks) - 1 && removed == (old(removed) || tasks == 0)
      ensures bits == old(bits) && last == old(last) && deferred == old(deferred)
    {
      active := false;
      FinishTask();
    }

    /** The bitmap's Find: the first run of `len` clear bits within
        `[lo, hi)`, NO_RESOURCES when there is none. */
    method FindClearRun(lo: nat, hi: nat, len: nat) returns (r: Result<nat>)
      requires hi <= |bits|
      ensures r.Success? <==> FindRun(bits, lo, hi, len).Some?
      ensures r.Success? ==> r.value == FindRun(bits, lo, hi, len).value
      ensures r.Failure? ==> r.error == ErrNoResources
    {
      var p := lo;
      while p + len <= hi
        invariant lo <= p
        invariant FindRun(bits, lo, hi, len) == FindRun(bits, p, hi, len)
        decreases hi - p
      {
        var i := 0;
        while i < len && !bits[p + i]
          invariant 0 <= i <= len
          invariant forall j :: p <= j < p + i ==> !bits[j]
        {
          i := i + 1;
        }
        if i == len {
          return Success(p);
        }
        p := p + 1;
      }
      return Failure(ErrNoResources);
    }

    /** AcquireBlocks: reserves a window of `len` scratch blocks, going
        round the bits from where the last reservation ended. */
    method AcquireBlocks(len: nat) returns (status: Status, off: nat)
      requires Valid()
      modifies this
      ensures Valid() && active == old(active) && deferred == old(deferred)
      ensures !old(active) ==>
        status == ErrBadState && bits == old(bits) && last == old(last) &&
        tasks == old(tasks) && removed == old(removed)
      ensures old(active) && WrapSearch(old(bits), old(last), len).None? ==>
        status == ErrNoResources && bits == old(bits) && last == old(last) &&
        tasks == old(tasks) && removed == (old(removed) || old(tasks) == 0)
      ensures old(active) && WrapSearch(old(bits), old(last), len).Some? ==>
        status == Ok && off == WrapSearch(old(bits), old(last), len).value &&
        RunClear(old(bits), off, len) && bits == SetRange(old(bits), off, len, true) &&
        last == off + len && tasks == old(tasks) + 1 && removed == old(removed)
    {
      status := AddTask();
      if status != Ok {
        return status, 0;
      }
      var r: Result<nat>;
      if last == 0 || last == |bits| {
        r := FindClearRun(0, |bits|, len);
      } else {
        r := FindClearRun(last, |bits|, len);
        if r.Failure? {
          r := FindClearRun(0, |bits|, len);
        }
      }
      if r.Failure? {
        FinishTask();
        return r.error, 0;
      }
      off := r.value;
      bits := SetRange(bits, off, len, true);
      last := off + len;
      return Ok, off;
    }

    /** ReleaseBlocks: clears exactly the window `[off, off + len)` (a
        window past the end is left alone) and finishes its task. */
    method ReleaseBlocks(off: nat, len: nat)
      requires Valid() && tasks > 0
      modifies this
      ensures Valid()
      ensures bits == if off + len <= |old(bits)| then SetRange(old(bits), off, len, false) else old(bits)
      ensures tasks == old(tasks) - 1 && removed == (old(removed) || tasks == 0)
      ensures active == old(active) && last == old(last) && deferred == old(deferred)
    {
      if off + len <= |bits| {
        bits := SetRange(bits, off, len, false);
      }
      FinishTask();
    }

    /** EnqueueBlock: a request that found no window waits at the tail. */
    method EnqueueBlock(op: BlockOp)
      modifies this
      ensures deferred == old(deferred) + [op]
      ensures active == old(active) && tasks == old(tasks) && bits == old(bits)
      ensures last == old(last) && removed == old(removed)
    {
      deferred := deferred + [op];
    }

    /** DequeueBlock: takes the request at the head, if any. */
    method DequeueBlock() returns (r: Option<BlockOp>)
      modifies this
      ensures old(deferred) == [] ==> r.None? && deferred == []
      ensures old(deferred) != [] ==> r == Some(old(deferred)[0]) && deferred == old(deferred)[1..]
      ensures active == old(active) && tasks == old(tasks) && bits == old(bits)
      ensures last == old(last) && removed == old(removed)
    {
      if deferred == [] {
        return None;
      }
      r := Some(deferred[0]);
      deferred := deferred[1..];
    }

    /** RequeueBlock: a request taken off the head goes back to the head. */
    method RequeueBlock(op: BlockOp)
      modifies this
      ensures deferred == [op] + old(deferred)
      ensures active == old(active) && tasks == old(tasks) && bits == old(bits)
      ensures last == old(last) && removed == old(removed)
    {
      deferred := [op] + deferred;
    }

    /** BlockQueue: checks a request, then processes it in a fresh window,
        defers it when no window is free, or completes it with the error. */
    method BlockQueue(op: BlockOp, blockCount: nat) returns (result: QueueResult)
      requires Valid()
      modifies this
      ensures Valid()
      ensures CheckBlock(op, blockCount) == PassThrough ==> result == Forwarded
      ensures CheckBlock(op, blockCount).CompleteNow? ==>
        result == Finished(CheckBlock(op, blockCount).status)
      ensures CheckBlock(op, blockCount) == Admit && old(active) &&
              WrapSearch(old(bits), old(last), op.length).Some? ==>
        result == Started(WrapSearch(old(bits), old(last), op.length).value) && deferred == old(deferred)
      ensures CheckBlock(op, blockCount) == Admit && old(active) &&
              WrapSearch(old(bits), old(last), op.length).None? ==>
        result == Deferred && deferred == old(deferred) + [op]
      ensures CheckBlock(op, blockCount) == Admit && !old(active) ==>
        result == Finished(ErrBadState) && deferred == old(deferred)
      ensures result != Deferred ==> deferred == old(deferred)
    {
      var a := CheckBlock(op, blockCount);
      if a == PassThrough {
        return Forwarded;
      }
      if a.CompleteNow? {
        return Finished(a.status);
      }
      var status, off := AcquireBlocks(op.length);
      if status == Ok {
        return Started(off);
      } else if status == ErrNoResources {
        EnqueueBlock(op);
        return Deferred;
      }
      return Finished(status);
    }

    /** The retry loop of BlockRelease, with the loop left at the first
        request that still finds no window: requests leave the queue in
        order from its head and the rest keep their order. */
    method RetryDeferred() returns (outcomes: seq<Outcome>)
      requires Valid()
      modifies this
      ensures Valid() && active == old(active)
      ensures |outcomes| <= |old(deferred)| && deferred == old(deferred)[|outcomes|..]
      ensures forall k :: 0 <= k < |outcomes| ==> outcomes[k].op == old(deferred)[k]
      ensures forall k :: 0 <= k < |outcomes| ==>
        outcomes[k].Processed? || outcomes[k].status != ErrNoResources
      ensures !old(active) ==> deferred == []
    {
      outcomes := [];
      while deferred != []
        invariant Valid() && active == old(active)
        invariant |outcomes| <= |old(deferred)| && deferred == old(deferred)[|outcomes|..]
        invariant forall k :: 0 <= k < |outcomes| ==> outcomes[k].op == old(deferred)[k]
        invariant forall k :: 0 <= k < |outcomes| ==>
          outcomes[k].Processed? || outcomes[k].status != ErrNoResources
        decreases |deferred|
      {
        var head := DequeueBlock();
        var op := head.value;
        var status, off := AcquireBlocks(op.length);
        if status == Ok {
          outcomes := outcomes + [Processed(op, off)];
        } else if status == ErrNoResources {
          RequeueBlock(op);
          return;
        } else {
          outcomes := outcomes + [Completed(op, status)];
        }
      }
    }

    /** BlockRelease: gives back a finished request's window, then retries
        the deferred requests. */
    method BlockRelease(off: nat, len: nat) returns (outcomes: seq<Outcome>)
      requires Valid() && tasks > 0
      modifies this
      ensures Valid() && active == old(active)
      ensures |outcomes| <= |old(deferred)| && deferred == old(deferred)[|outcomes|..]
      ensures forall k :: 0 <= k < |outcomes| ==> outcomes[k].op == old(deferred)[k]
    {
      ReleaseBlocks(off, len);
      outcomes := RetryDeferred();
    }
  }
}
