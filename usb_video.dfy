/** A USB Video Class streaming interface: the pool of USB requests, the
    streaming state machine, and the reassembly of payloads into frames
    of a ring of frame-sized slots. */
module UsbVideo {
  import opened ZxStatus
  import Arith

  /** The ring holds this many frames. */
  const RING_BUFFER_NUM_FRAMES: nat := 30
  /** Requests kept in flight while streaming. */
  const MAX_OUTSTANDING_REQS: nat := 8

  /** Bits of a payload header's bmHeaderInfo (section 2.4.3.3 of the USB
      Video Class 1.1 specification). */
  const HEADER_FID: bv8 := 0x01
  const HEADER_ERR: bv8 := 0x40

  datatype StreamingState = Stopped | Started | Stopping

  /** The frame being assembled: its frame identifier bit (-1 before the
      first payload), whether a payload of it was bad, and the bytes
      gathered so far. */
  datatype Frame = Frame(fid: int, error: bool, bytes: nat)

  /** A completed request: its status, the number of bytes the device
      sent, and the request's buffer. */
  datatype Response = Response(status: Status, actual: nat, data: seq<bv8>)

  /** The first two bytes of a payload header can be read, and its length
      does not run past what arrived. */
  predicate HeaderReadable(r: Response)
  {
    |r.data| >= 2 && r.data[0] as nat <= r.actual
  }

  function FidOf(r: Response): int
    requires |r.data| >= 2
  {
    if r.data[1] & HEADER_FID != 0 then 1 else 0
  }

  predicate ErrorBit(r: Response)
    requires |r.data| >= 2
  {
    r.data[1] & HEADER_ERR != 0
  }

  /** The ring position after a completed frame: one frame further,
      wrapped by subtracting the ring size. */
  function NextOffset(offset: nat, frameSize: nat, ringSize: nat): nat
  {
    if offset + frameSize >= ringSize then offset + frameSize - ringSize else offset + frameSize
  }

  /** The frame after a readable payload header: a toggled FID starts a
      new, empty frame with that FID, and the error bit marks the frame
      bad. */
  function HeaderFrame(f: Frame, r: Response): Frame
    requires HeaderReadable(r)
  {
    var g := if f.fid != FidOf(r) then Frame(FidOf(r), false, 0) else f;
    if ErrorBit(r) then g.(error := true) else g
  }

  /** The ring position after a readable header: closing an error-free
      frame moves it on by one frame. */
  function HeaderOffset(f: Frame, offset: nat, r: Response, frameSize: nat, ringSize: nat): nat
    requires HeaderReadable(r)
  {
    if f.fid != FidOf(r) && f.fid >= 0 && !f.error then NextOffset(offset, frameSize, ringSize) else offset
  }

  /** The header length reported for a readable header: none when the
      error bit is set. */
  function HeaderLength(r: Response): nat
    requires HeaderReadable(r)
  {
    if ErrorBit(r) then 0 else r.data[0] as nat
  }

  /** The ring position moves by one frame modulo the ring size. */
  lemma NextOffsetInRing(offset: nat, frameSize: nat, ringSize: nat)
    requires offset < ringSize && frameSize <= ringSize
    ensures NextOffset(offset, frameSize, ringSize) == (offset + frameSize) % ringSize
    ensures NextOffset(offset, frameSize, ringSize) < ringSize
  {
    var n := NextOffset(offset, frameSize, ringSize);
    if offset + frameSize >= ringSize {
      Arith.DivModUnique(offset + frameSize, ringSize, 1, n);
    } else {
      Arith.DivModUnique(offset + frameSize, ringSize, 0, n);
    }
  }

  /** On a ring of whole frames, a frame boundary is followed by the next
      frame boundary, the last one by the first. */
  lemma NextOffsetNextSlot(slot: nat, frameSize: nat)
    requires slot < RING_BUFFER_NUM_FRAMES && frameSize > 0
    ensures NextOffset(slot * frameSize, frameSize, RING_BUFFER_NUM_FRAMES * frameSize)
      == (if slot + 1 == RING_BUFFER_NUM_FRAMES then 0 else (slot + 1) * frameSize)
  {
    assert slot * frameSize + frameSize == (slot + 1) * frameSize;
    if slot + 1 < RING_BUFFER_NUM_FRAMES {
      Arith.MulMono(slot + 2, RING_BUFFER_NUM_FRAMES, frameSize);
      assert (slot + 2) * frameSize == (slot + 1) * frameSize + frameSize;
    }
  }

  /** A frame of at most one frame size, started at a frame boundary of a
      ring of whole frames, ends inside the ring. */
  lemma FrameFitsRing(slot: nat, bytes: nat, frameSize: nat)
    requires slot < RING_BUFFER_NUM_FRAMES && bytes <= frameSize
    ensures slot * frameSize + bytes <= RING_BUFFER_NUM_FRAMES * frameSize
  {
    Arith.MulMono(slot + 1, RING_BUFFER_NUM_FRAMES, frameSize);
    assert (slot + 1) * frameSize == slot * frameSize + frameSize;
  }

  /** The buffer positions that hold the requests handed out: `n`
      requests numbered from `first`, each put at the head. */
  function NewRequests(first: nat, n: nat): (r: seq<nat>)
    ensures |r| == n
    ensures forall i :: 0 <= i < n ==> r[i] == first + n - 1 - i
  {
    if n == 0 then [] else [first + n - 1] + NewRequests(first, n - 1)
  }

  /** The streaming interface. */
  class VideoStream {
    const maxFrameSize: nat
    const isBulk: bool
    const maxPayloadTransferSize: nat
    const sendReqSize: nat

    var state: StreamingState
    // the free list (head first), the requests handed to the USB stack,
    // and the two counters
    var freeReqs: seq<nat>
    ghost var inFlight: multiset<nat>
    var numFreeReqs: nat
    var numAllocatedReqs: nat
    var allocatedReqSize: nat
    var nextReqId: nat
    // frame assembly
    var frame: Frame
    var numFrames: nat
    var bufferOffset: nat
    var bulkPayloadBytes: nat
    var buffer: seq<bv8>
    // the frame slot of the ring that bufferOffset points at
    ghost var slot: nat

    /** The counters differ by the number of requests in flight, and the
        free count never falls below the length of the free list. */
    ghost predicate Accounting()
      reads this
    {
      && numAllocatedReqs == numFreeReqs + |inFlight|
      && numFreeReqs >= |freeReqs|
    }

    /** The ring holds whole frames, the current frame starts at a frame
        boundary and does not exceed one frame. */
    ghost predicate Ring()
      reads this
    {
      && maxFrameSize > 0
      && |buffer| == RING_BUFFER_NUM_FRAMES * maxFrameSize
      && slot < RING_BUFFER_NUM_FRAMES && bufferOffset == slot * maxFrameSize
      && frame.bytes <= maxFrameSize
    }

    ghost predicate Valid()
      reads this
    {
      && Accounting()
      && Ring()
      && (state == Stopped ==> inFlight == multiset{})
      && (state == Started ==> freeReqs == [])
    }

    /** A stream with its ring buffer (CreateDataVideoBuffer) and no
        requests yet. */
    constructor(maxFrameSize: nat, isBulk: bool, maxPayloadTransferSize: nat, sendReqSize: nat)
      requires maxFrameSize > 0
      ensures Valid()
      ensures this.maxFrameSize == maxFrameSize && this.isBulk == isBulk
      ensures this.maxPayloadTransferSize == maxPayloadTransferSize && this.sendReqSize == sendReqSize
      ensures state == Stopped && freeReqs == [] && inFlight == multiset{}
      ensures numFreeReqs == 0 && numAllocatedReqs == 0 && allocatedReqSize == 0
    {
      this.maxFrameSize := maxFrameSize;
      this.isBulk := isBulk;
      this.maxPayloadTransferSize := maxPayloadTransferSize;
      this.sendReqSize := sendReqSize;
      state := Stopped;
      freeReqs := [];
      inFlight := multiset{};
      numFreeReqs := 0;
      numAllocatedReqs := 0;
      allocatedReqSize := 0;
      nextReqId := 0;
      frame := Frame(0, false, 0);
      numFrames := 0;
      bufferOffset := 0;
      slot := 0;
      bulkPayloadBytes := 0;
      buffer := seq(RING_BUFFER_NUM_FRAMES * maxFrameSize, _ => 0);
    }

    /** AllocUsbRequestsLocked: only when stopped; requests at least as
        large as asked are reused; otherwise the free list is released
        and up to eight new requests are put at its head, the first
        failing allocation (number `failAt`) ending the method with its
        error. The counters are not reset when the old requests are
        released. */
    method AllocUsbRequests(size: nat, failAt: nat) returns (status: Status)
      requires Valid()
      modifies this`freeReqs, this`numFreeReqs, this`numAllocatedReqs, this`nextReqId, this`allocatedReqSize
      ensures Valid()
      ensures old(state) != Stopped || size <= old(allocatedReqSize) ==>
        && status == (if old(state) != Stopped then ErrBadState else Ok)
        && freeReqs == old(freeReqs) && allocatedReqSize == old(allocatedReqSize)
        && numFreeReqs == old(numFreeReqs) && numAllocatedReqs == old(numAllocatedReqs)
      ensures old(state) == Stopped && size > old(allocatedReqSize) ==>
        var n := if failAt < MAX_OUTSTANDING_REQS then failAt else MAX_OUTSTANDING_REQS;
        && freeReqs == NewRequests(old(nextReqId), n)
        && numFreeReqs == old(numFreeReqs) + n && numAllocatedReqs == old(numAllocatedReqs) + n
        && (failAt < MAX_OUTSTANDING_REQS ==> status == ErrNoMemory && allocatedReqSize == old(allocatedReqSize))
        && (failAt >= MAX_OUTSTANDING_REQS ==> status == Ok && allocatedReqSize == size)
    {
      if state != Stopped {
        return ErrBadState;
      }
      if size <= allocatedReqSize {
        return Ok;
      }
      while freeReqs != []
        invariant Valid()
        invariant numFreeReqs == old(numFreeReqs) && numAllocatedReqs == old(numAllocatedReqs)
        invariant nextReqId == old(nextReqId) && allocatedReqSize == old(allocatedReqSize)
      {
        freeReqs := freeReqs[1..];
      }
      ghost var first := nextReqId;
      var i: nat := 0;
      while i < MAX_OUTSTANDING_REQS
        invariant i <= MAX_OUTSTANDING_REQS && i <= failAt
        invariant Valid()
        invariant nextReqId == first + i && freeReqs == NewRequests(first, i)
        invariant numFreeReqs == old(numFreeReqs) + i && numAllocatedReqs == old(numAllocatedReqs) + i
        invariant allocatedReqSize == old(allocatedReqSize)
      {
        if i == failAt {
          return ErrNoMemory;
        }
        freeReqs := [nextReqId] + freeReqs;
        nextReqId := nextReqId + 1;
        numFreeReqs := numFreeReqs + 1;
        numAllocatedReqs := numAllocatedReqs + 1;
        i := i + 1;
      }
      allocatedReqSize := size;
      return Ok;
    }

    /** QueueRequestLocked: the head of the free list goes to the USB
        stack. */
    method QueueRequest()
      requires Accounting() && freeReqs != []
      modifies this`freeReqs, this`inFlight, this`numFreeReqs
      ensures Accounting()
      ensures freeReqs == old(freeReqs)[1..] && inFlight == old(inFlight) + multiset{old(freeReqs)[0]}
      ensures numFreeReqs == old(numFreeReqs) - 1
    {
      var req := freeReqs[0];
      freeReqs := freeReqs[1..];
      inFlight := inFlight + multiset{req};
      numFreeReqs := numFreeReqs - 1;
    }

    /** list_add_head of a completed request onto the free list. */
    method ReleaseRequest(req: nat)
      requires Accounting() && req in inFlight
      modifies this`freeReqs, this`inFlight, this`numFreeReqs
      ensures Accounting()
      ensures freeReqs == [req] + old(freeReqs) && inFlight == old(inFlight) - multiset{req}
      ensures numFreeReqs == old(numFreeReqs) + 1
    {
      freeReqs := [req] + freeReqs;
      inFlight := inFlight - multiset{req};
      numFreeReqs := numFreeReqs + 1;
    }

    /** The loop of StartStreaming: every free request is queued. */
    method QueueAllFree()
      requires Accounting()
      modifies this`freeReqs, this`inFlight, this`numFreeReqs
      ensures Accounting()
      ensures freeReqs == [] && inFlight == old(inFlight) + multiset(old(freeReqs))
      ensures numFreeReqs == old(numFreeReqs) - |old(freeReqs)|
    {
      ghost var queued := 0;
      while freeReqs != []
        invariant Accounting()
        invariant queued <= |old(freeReqs)| && freeReqs == old(freeReqs)[queued..]
        invariant inFlight == old(inFlight) + multiset(old(freeReqs)[..queued])
        invariant numFreeReqs == old(numFreeReqs) - queued
      {
        assert old(freeReqs)[..queued + 1] == old(freeReqs)[..queued] + [freeReqs[0]];
        QueueRequest();
        queued := queued + 1;
      }
      assert old(freeReqs)[..queued] == old(freeReqs);
    }

    /** StartStreaming: only when stopped; the frame state is reset (the
        first payload always starts a new frame), and once the interface
        is switched on every free request is queued. */
    method StartStreaming(setInterface: Status) returns (status: Status)
      requires Valid()
      modifies this`state, this`frame, this`numFrames, this`freeReqs, this`inFlight, this`numFreeReqs
      ensures Valid()
      ensures old(state) != Stopped ==>
        && status == ErrBadState && state == old(state)
        && frame == old(frame) && numFrames == old(numFrames)
        && freeReqs == old(freeReqs) && inFlight == old(inFlight)
      ensures old(state) == Stopped ==> frame == Frame(-1, false, 0) && numFrames == 0
      ensures old(state) == Stopped && setInterface != Ok ==>
        status == setInterface && state == Stopped && freeReqs == old(freeReqs) && inFlight == old(inFlight)
      ensures old(state) == Stopped && setInterface == Ok ==>
        && status == Ok && state == Started && freeReqs == []
        && inFlight == multiset(old(freeReqs))
        && numFreeReqs == old(numFreeReqs) - |old(freeReqs)|
    {
      if state != Stopped {
        return ErrBadState;
      }
      numFrames := 0;
      frame := Frame(-1, false, 0);
      if setInterface != Ok {
        return setInterface;
      }
      state := Started;
      QueueAllFree();
      return Ok;
    }

    /** StopStreaming: only when started; the stream waits in STOPPING
        for the requests in flight. */
    method StopStreaming(setInterface: Status) returns (status: Status)
      requires Valid()
      modifies this`state
      ensures Valid()
      ensures old(state) != Started ==> status == ErrBadState && state == old(state)
      ensures old(state) == Started ==> status == setInterface && state == Stopping
    {
      if state != Started {
        return ErrBadState;
      }
      state := Stopping;
      return setInterface;
    }

    /** ParsePayloadHeaderLocked: a header that cannot be read or runs
        past the data is an internal error with nothing changed; a
        toggled FID closes the current frame (an error-free one moves the
        ring position on by a frame) and starts a new one; a header with
        the error bit marks the frame bad and reports no header length. */
    method ParsePayloadHeader(r: Response) returns (status: Status, headerLen: nat)
      requires Ring()
      modifies this`frame, this`numFrames, this`bufferOffset, this`slot
      ensures Ring()
      ensures !HeaderReadable(r) ==>
        status == ErrInternal && headerLen == 0
        && frame == old(frame) && numFrames == old(numFrames) && bufferOffset == old(bufferOffset)
      ensures HeaderReadable(r) ==>
        && status == Ok
        && headerLen == (if ErrorBit(r) then 0 else r.data[0] as nat)
        && headerLen <= r.actual
        && frame.fid == FidOf(r)
        && frame.error == (ErrorBit(r) || (old(frame.fid) == FidOf(r) && old(frame.error)))
      ensures HeaderReadable(r) && old(frame.fid) == FidOf(r) ==>
        frame.bytes == old(frame.bytes) && numFrames == old(numFrames) && bufferOffset == old(bufferOffset)
      ensures HeaderReadable(r) && old(frame.fid) != FidOf(r) ==>
        && frame.bytes == 0 && numFrames == old(numFrames) + 1
        && bufferOffset == if old(frame.fid) >= 0 && !old(frame.error)
                           then NextOffset(old(bufferOffset), maxFrameSize, |buffer|)
                           else old(bufferOffset)
      ensures HeaderReadable(r) ==>
        && frame == HeaderFrame(old(frame), r) && headerLen == HeaderLength(r)
        && bufferOffset == HeaderOffset(old(frame), old(bufferOffset), r, maxFrameSize, |buffer|)
    {
      if |r.data| < 2 || r.data[0] as nat > r.actual {
        return ErrInternal, 0;
      }
      var fid := if r.data[1] & HEADER_FID != 0 then 1 else 0;
      if frame.fid != fid {
        if frame.fid >= 0 {
          if !frame.error {
            NextOffsetNextSlot(slot, maxFrameSize);
            slot := if slot + 1 == RING_BUFFER_NUM_FRAMES then 0 else slot + 1;
            bufferOffset := bufferOffset + maxFrameSize;
            if bufferOffset >= |buffer| {
              bufferOffset := bufferOffset - |buffer|;
            }
          }
        }
        frame := Frame(fid, false, 0);
        numFrames := numFrames + 1;
      }
      if r.data[1] & HEADER_ERR != 0 {
        frame := frame.(error := true);
        return Ok, 0;
      }
      return Ok, r.data[0] as nat;
    }

    /** The state ProcessPayloadLocked leaves from the frame `f0`, the
        frame count `n0`, the ring offset `o0`, the bulk byte count `b0`
        and the ring `buf0`: failed and empty completions and unreadable
        headers change nothing; the header (parsed for every isochronous
        payload and for the first request of a bulk payload) moves to a new
        frame and along the ring; a bulk payload ends, and its count
        returns to 0, when enough bytes came or a short request did; the
        data of an error-free frame that still fits is copied to the end of
        the frame in the ring, and data that would overflow the frame marks
        it bad. */
    ghost predicate PayloadApplied(f0: Frame, n0: nat, o0: nat, b0: nat, buf0: seq<bv8>, r: Response)
      requires r.actual <= |r.data|
      reads this`frame, this`numFrames, this`bufferOffset, this`bulkPayloadBytes, this`buffer
    {
      var parse := !isBulk || b0 == 0;
      if r.status != Ok || r.actual == 0 || (parse && !HeaderReadable(r)) then
        frame == f0 && numFrames == n0 && bufferOffset == o0 && bulkPayloadBytes == b0 && buffer == buf0
      else
        var f1 := if parse then HeaderFrame(f0, r) else f0;
        var h := if parse then HeaderLength(r) else 0;
        var o1 := if parse then HeaderOffset(f0, o0, r, maxFrameSize, |buf0|) else o0;
        && h <= r.actual
        && bufferOffset == o1
        && numFrames == (if parse && f0.fid != FidOf(r) then n0 + 1 else n0)
        && bulkPayloadBytes ==
             (if !isBulk then b0
              else if b0 + r.actual >= maxPayloadTransferSize || r.actual < sendReqSize then 0
              else b0 + r.actual)
        && DataApplied(f1, h, buf0, r)
    }

    /** The copy at the end of ProcessPayloadLocked, from the frame `f1`
        and the ring `buf0`, for data after a header of `h` bytes: a bad
        frame stays bad, data that would take the frame past its size
        marks it bad, and otherwise the data is copied to the end of the
        frame in the ring. */
    ghost predicate DataApplied(f1: Frame, h: nat, buf0: seq<bv8>, r: Response)
      requires h <= r.actual <= |r.data|
      reads this`frame, this`bufferOffset, this`buffer
    {
      var size := r.actual - h;
      var end := bufferOffset + f1.bytes;
      if f1.error || f1.bytes + size > maxFrameSize then frame == f1.(error := true) && buffer == buf0
      else
        && end + size <= |buf0|
        && frame == f1.(bytes := f1.bytes + size)
        && buffer == buf0[..end] + r.data[h..r.actual] + buf0[end + size..]
    }

    /** ProcessPayloadLocked, whose whole effect PayloadApplied states. */
    method ProcessPayload(r: Response)
      requires Ring() && r.actual <= |r.data|
      modifies this`frame, this`numFrames, this`bufferOffset, this`slot, this`bulkPayloadBytes, this`buffer
      ensures Ring()
      ensures PayloadApplied(old(frame), old(numFrames), old(bufferOffset), old(bulkPayloadBytes), old(buffer), r)
    {
      if r.status != Ok || r.actual == 0 {
        return;
      }
      var parse := !isBulk || bulkPayloadBytes == 0;
      var headerLen: nat := 0;
      if parse {
        var status;
        status, headerLen := ParsePayloadHeader(r);
        if status != Ok {
          return;
        }
      }
      CountBulk(r);
      if frame.error {
        return;
      }
      AppendData(r, headerLen);
    }

    /** The end-of-payload detection of bulk transfers. */
    method CountBulk(r: Response)
      modifies this`bulkPayloadBytes
      ensures bulkPayloadBytes ==
        (if !isBulk then old(bulkPayloadBytes)
         else if old(bulkPayloadBytes) + r.actual >= maxPayloadTransferSize || r.actual < sendReqSize then 0
         else old(bulkPayloadBytes) + r.actual)
    {
      if isBulk {
        bulkPayloadBytes := bulkPayloadBytes + r.actual;
        if bulkPayloadBytes >= maxPayloadTransferSize || r.actual < sendReqSize {
          bulkPayloadBytes := 0;
        }
      }
    }

    /** The copy at the end of ProcessPayloadLocked: data that would take
        the frame past its size marks it bad; otherwise it is copied to
        the end of the frame in the ring. */
    method AppendData(r: Response, headerLen: nat)
      requires Ring() && headerLen <= r.actual <= |r.data| && !frame.error
      modifies this`frame, this`buffer
      ensures Ring()
      ensures DataApplied(old(frame), headerLen, old(buffer), r)
    {
      var dataSize := r.actual - headerLen;
      if frame.bytes + dataSize > maxFrameSize {
        frame := frame.(error := true);
        return;
      }
      var frameEnd := bufferOffset + frame.bytes;
      FrameFitsRing(slot, frame.bytes + dataSize, maxFrameSize);
      assert frameEnd <= |buffer|;
      var avail := |buffer| - frameEnd;
      assert avail >= dataSize;
      buffer := buffer[..frameEnd] + r.data[headerLen..r.actual] + buffer[frameEnd + dataSize..];
      frame := frame.(bytes := frame.bytes + dataSize);
    }

    /** The end of RequestComplete while streaming: the request is put
        back on the free list and queued again at once. */
    method Requeue(req: nat)
      requires Accounting() && freeReqs == [] && req in inFlight
      modifies this`freeReqs, this`inFlight, this`numFreeReqs
      ensures Accounting()
      ensures freeReqs == [] && inFlight == old(inFlight) && numFreeReqs == old(numFreeReqs)
    {
      ReleaseRequest(req);
      QueueRequest();
      assert inFlight == old(inFlight) - multiset{req} + multiset{req};
    }

    /** RequestComplete: once streaming has stopped, a completed request
        goes back to the free list and the stream is STOPPED when every
        request is free again; while streaming, its payload is processed
        and it is queued again at once. */
    method RequestComplete(req: nat, r: Response)
      requires Valid() && req in inFlight && r.actual <= |r.data|
      modifies this`state, this`freeReqs, this`inFlight, this`numFreeReqs
      modifies this`frame, this`numFrames, this`bufferOffset, this`slot, this`bulkPayloadBytes, this`buffer
      ensures Valid()
      ensures old(state) != Started ==>
        && freeReqs == [req] + old(freeReqs) && inFlight == old(inFlight) - multiset{req}
        && numFreeReqs == old(numFreeReqs) + 1
        && state == (if inFlight == multiset{} then Stopped else old(state))
        && frame == old(frame) && buffer == old(buffer) && bufferOffset == old(bufferOffset)
        && numFrames == old(numFrames) && bulkPayloadBytes == old(bulkPayloadBytes) && slot == old(slot)
      ensures old(state) == Started ==>
        && state == Started && freeReqs == [] && inFlight == old(inFlight) && numFreeReqs == old(numFreeReqs)
        && PayloadApplied(old(frame), old(numFrames), old(bufferOffset), old(bulkPayloadBytes), old(buffer), r)
    {
      if state != Started {
        ReleaseRequest(req);
        if numFreeReqs == numAllocatedReqs {
          state := Stopped;
        }
        return;
      }
      ProcessPayload(r);
      Requeue(req);
    }
  }
}
