/** The xHCI device manager: route strings for devices behind hubs, the
    endpoint interval encoding, the ep0 max-packet fix-up, the queue of
    device commands served by the device thread, stopping an endpoint,
    and releasing a slot. */
module Xhci {
  import opened ZxStatus

  /** A byte-wide descriptor field. */
  type Byte = x: nat | x < 256

  /** usb_speed_t. */
  datatype Speed = Undefined | Full | Low | High | Super

  // ---------------------------------------------------------------------
  // Route string (section 8.9 of the xHCI specification: one nibble per
  // hub tier, at most five tiers, in bits 19:0 of the slot context)
  // ---------------------------------------------------------------------

  /** The route string field of a slot context's first word. */
  function RouteField(sc0: bv32): (route: bv32)
    ensures route < 0x10_0000
  {
    sc0 & 0xF_FFFF
  }

  /** The tier of a route string at bit position `shift`. */
  function Nibble(route: bv32, shift: bv32): bv32
    requires shift < 32
  {
    (route >> shift) & 0xF
  }

  /** The bit position of the first tier at or after `shift` that is
      still free (zero), or 20 when every tier from `shift` on is taken. */
  function FirstFreeTier(route: bv32, shift: bv32): (s: bv32)
    requires shift <= 20 && shift & 3 == 0
    ensures shift <= s <= 20 && s & 3 == 0
    ensures s < 20 ==> Nibble(route, s) == 0
    decreases 20 - shift
  {
    if shift == 20 || Nibble(route, shift) == 0 then shift else FirstFreeTier(route, shift + 4)
  }

  /** The route of a device on `port` of a hub whose own route is
      `hubRoute`: the port goes into the hub's first free tier. */
  function ChildRoute(hubRoute: bv32, port: bv32): bv32
  {
    var s := FirstFreeTier(hubRoute, 0);
    if s == 20 then hubRoute else hubRoute | ((port & 0xF) << s)
  }

  /** The tiers the search passes over are taken. */
  lemma {:induction false} FirstFreeTierSkips(route: bv32, shift: bv32, t: bv32)
    requires shift <= 20 && shift & 3 == 0
    requires shift <= t < FirstFreeTier(route, shift) && t & 3 == 0
    ensures Nibble(route, t) != 0
    decreases 20 - shift
  {
    if t != shift {
      FirstFreeTierSkips(route, shift + 4, t);
    }
  }

  /** Setting a free tier leaves every other tier alone. */
  lemma SetTier(route: bv32, port: bv32, s: bv32, t: bv32)
    requires s < 20 && s & 3 == 0 && t < 32 && t & 3 == 0 && Nibble(route, s) == 0
    ensures Nibble(route | ((port & 0xF) << s), t) == if t == s then port & 0xF else Nibble(route, t)
  {
  }

  /** The tiers below the first free one are taken; a hub whose five
      tiers are taken passes its route on unchanged. */
  lemma ChildRouteSkipsTaken(hubRoute: bv32, port: bv32)
    ensures var s := FirstFreeTier(hubRoute, 0);
      && (forall t: bv32 | t < s && t & 3 == 0 :: Nibble(hubRoute, t) != 0)
      && (s == 20 ==> ChildRoute(hubRoute, port) == hubRoute)
  {
    var s := FirstFreeTier(hubRoute, 0);
    forall t: bv32 | t < s && t & 3 == 0
      ensures Nibble(hubRoute, t) != 0
    {
      FirstFreeTierSkips(hubRoute, 0, t);
    }
  }

  /** When the hub has a free tier, the child's route holds the port in
      it and every other tier of the hub's route unchanged. */
  lemma ChildRouteSetsTier(hubRoute: bv32, port: bv32)
    requires FirstFreeTier(hubRoute, 0) < 20
    ensures var s := FirstFreeTier(hubRoute, 0);
      var r := ChildRoute(hubRoute, port);
      && Nibble(r, s) == port & 0xF
      && (forall t: bv32 | t < 32 && t & 3 == 0 && t != s :: Nibble(r, t) == Nibble(hubRoute, t))
  {
    var s := FirstFreeTier(hubRoute, 0);
    var r := ChildRoute(hubRoute, port);
    assert Nibble(hubRoute, s) == 0 && s & 3 == 0;
    forall t: bv32 | t < 32 && t & 3 == 0
      ensures Nibble(r, t) == if t == s then port & 0xF else Nibble(hubRoute, t)
    {
      SetTier(hubRoute, port, s, t);
    }
  }

  /** A hub route inside the 20-bit field gives a child route inside it. */
  lemma ChildRouteFits(hubRoute: bv32, port: bv32)
    requires hubRoute < 0x10_0000
    ensures ChildRoute(hubRoute, port) < 0x10_0000
  {
    var s := FirstFreeTier(hubRoute, 0);
    if s < 20 {
      ChildStaysIn20Bits(hubRoute, port, s);
    }
  }

  lemma ChildStaysIn20Bits(route: bv32, port: bv32, s: bv32)
    requires route < 0x10_0000 && s < 20 && s & 3 == 0
    ensures route | ((port & 0xF) << s) < 0x10_0000
  {
  }

  /** xhci_get_route_string: a device on the root hub (hub address 0)
      has route 0; otherwise the hub's route string, read from its slot
      context, gets the port in its first free tier. */
  method GetRouteString(hubAddress: nat, hubSc0: bv32, port: bv32) returns (route: bv32)
    ensures hubAddress == 0 ==> route == 0
    ensures hubAddress != 0 ==> route == ChildRoute(RouteField(hubSc0), port)
  {
    if hubAddress == 0 {
      return 0;
    }
    route := RouteField(hubSc0);
    ghost var hubRoute := route;
    var shift: bv32 := 0;
    while shift < 20
      invariant shift & 3 == 0 && shift <= 20
      invariant route == hubRoute
      invariant FirstFreeTier(hubRoute, 0) == FirstFreeTier(hubRoute, shift)
      decreases 20 - shift
    {
      if route & (0xF << shift) == 0 {
        assert Nibble(route, shift) == 0;
        route := route | ((port & 0xF) << shift);
        return;
      }
      shift := shift + 4;
    }
  }

  // ---------------------------------------------------------------------
  // Endpoint interval (section 6.2.3.6 of the xHCI specification: the
  // service period is 2^Interval units of 125 microseconds)
  // ---------------------------------------------------------------------

  /** The transfer type in bits 1:0 of bmAttributes (section 9.6.6 of the
      USB 2.0 specification). */
  datatype TransferType = Control | Isochronous | Bulk | Interrupt

  function TransferTypeOf(bmAttributes: bv8): TransferType
  {
    var t := bmAttributes & 3;
    if t == 0 then Control else if t == 1 then Isochronous else if t == 2 then Bulk else Interrupt
  }

  /** LOG2: the position of the highest set bit. */
  function Log2(x: nat): (r: nat)
    requires x > 0
    ensures Pow2(r) <= x < Pow2(r + 1)
  {
    if x == 1 then 0 else 1 + Log2(x / 2)
  }

  /** BOUNDS_CHECK. */
  function Clamp(i: int, lo: int, hi: int): (r: int)
    requires lo <= hi
    ensures lo <= r <= hi
    ensures lo <= i <= hi ==> r == i
  {
    if i < lo then lo else if i > hi then hi else i
  }

  /** Whether compute_interval, as written, is defined: LOG2 of a zero
      bInterval (a high-speed control or bulk endpoint that never NAKs)
      counts the leading zeros of 0, which is undefined. */
  predicate IntervalDefinedAsWritten(bmAttributes: bv8, bInterval: Byte, speed: Speed)
  {
    var t := TransferTypeOf(bmAttributes);
    !((t == Control || t == Bulk) && speed == High && bInterval == 0)
  }

  /** compute_interval as written. */
  function ComputeIntervalAsWritten(bmAttributes: bv8, bInterval: Byte, speed: Speed): (r: nat)
    requires IntervalDefinedAsWritten(bmAttributes, bInterval, speed)
    ensures r == ComputeInterval(bmAttributes, bInterval, speed)
  {
    var t := TransferTypeOf(bmAttributes);
    if t == Control || t == Bulk then
      if speed == High then Log2(bInterval) else 0
    else
      var interval :=
        if t == Interrupt && (speed == Low || speed == Full) then Clamp(bInterval, 1, 255)
        else Clamp(bInterval, 1, 16);
      match speed
      case Low => Log2(interval) + 3
      case Full => if t == Isochronous then (interval - 1) + 3 else Log2(interval) + 3
      case Super => interval - 1
      case High => interval - 1
      case Undefined => 0
  }

  /** A descriptor the USB 2.0 specification allows (a high-speed bulk
      endpoint with a NAK rate of 0) on which the source's LOG2 is
      undefined. */
  lemma ZeroNakRateUndefinedAsWritten()
    ensures !IntervalDefinedAsWritten(2, 0, High)
  {
  }

  /** compute_interval, with a zero NAK rate giving Interval 0. */
  function ComputeInterval(bmAttributes: bv8, bInterval: Byte, speed: Speed): nat
  {
    var t := TransferTypeOf(bmAttributes);
    if t == Control || t == Bulk then
      if speed == High && bInterval > 0 then Log2(bInterval) else 0
    else
      var interval :=
        if t == Interrupt && (speed == Low || speed == Full) then Clamp(bInterval, 1, 255)
        else Clamp(bInterval, 1, 16);
      match speed
      case Low => Log2(interval) + 3
      case Full => if t == Isochronous then (interval - 1) + 3 else Log2(interval) + 3
      case Super => interval - 1
      case High => interval - 1
      case Undefined => 0
  }

  /** A high-speed control or bulk endpoint carries its NAK rate as a
      power of two (the largest not above bInterval); at other speeds,
      or with a zero NAK rate, the interval is 0. */
  lemma IntervalNakRate(bmAttributes: bv8, bInterval: Byte, speed: Speed)
    requires TransferTypeOf(bmAttributes) in {Control, Bulk}
    ensures var r := ComputeInterval(bmAttributes, bInterval, speed);
      if speed == High && bInterval > 0 then Pow2(r) <= bInterval < Pow2(r + 1) && r <= 7 else r == 0
  {
    if speed == High && bInterval > 0 {
      Log2Below(bInterval, 8);
    }
  }

  /** A low- or full-speed interrupt endpoint is polled every largest
      power of two of milliseconds not above bInterval (clamped to
      1..255), counted in 125-microsecond units. */
  lemma IntervalSlowInterrupt(bmAttributes: bv8, bInterval: Byte, speed: Speed)
    requires TransferTypeOf(bmAttributes) == Interrupt && speed in {Low, Full}
    ensures var r := ComputeInterval(bmAttributes, bInterval, speed);
      var ms := Clamp(bInterval, 1, 255);
      Pow2(r) <= 8 * ms < Pow2(r + 1) && 3 <= r <= 10
  {
    var ms := Clamp(bInterval, 1, 255);
    Pow2Plus3(Log2(ms));
    Pow2Plus3(Log2(ms) + 1);
    Log2Below(ms, 8);
  }

  /** A full-speed isochronous endpoint is served every 2^(bInterval-1)
      frames (bInterval clamped to 1..16), counted in 125-microsecond
      units. */
  lemma IntervalFullIsochronous(bmAttributes: bv8, bInterval: Byte)
    requires TransferTypeOf(bmAttributes) == Isochronous
    ensures var r := ComputeInterval(bmAttributes, bInterval, Full);
      Pow2(r) == 8 * Pow2(Clamp(bInterval, 1, 16) - 1) && 3 <= r <= 18
  {
    Pow2Plus3(Clamp(bInterval, 1, 16) - 1);
  }

  /** A high- or super-speed periodic endpoint is served every
      2^(bInterval-1) microframes (bInterval clamped to 1..16); a device
      of unknown speed gets 0. */
  lemma IntervalFastPeriodic(bmAttributes: bv8, bInterval: Byte, speed: Speed)
    requires TransferTypeOf(bmAttributes) in {Interrupt, Isochronous}
    ensures speed in {High, Super} ==>
      ComputeInterval(bmAttributes, bInterval, speed) == Clamp(bInterval, 1, 16) - 1 <= 15
    ensures speed == Undefined ==> ComputeInterval(bmAttributes, bInterval, speed) == 0
  {
  }

  /** Three more powers of two: milliseconds to microframes. */
  lemma Pow2Plus3(n: nat)
    ensures Pow2(n + 3) == 8 * Pow2(n)
  {
    assert Pow2(n + 3) == 2 * Pow2(n + 2) == 4 * Pow2(n + 1);
  }

  /** LOG2 stays below the exponent of any power of two above its
      argument. */
  lemma {:induction false} Log2Below(x: nat, n: nat)
    requires 0 < x < Pow2(n)
    ensures Log2(x) < n
  {
    if x > 1 {
      Log2Below(x / 2, n - 1);
    }
  }

  // ---------------------------------------------------------------------
  // ep0 max packet size (section 9.6.1 of the USB 2.0 and 3.0
  // specifications)
  // ---------------------------------------------------------------------

  /** The ep0 max packet sizes a device at `speed` may report. */
  predicate LegalEp0(speed: Speed, mps: nat)
  {
    match speed
    case Low => mps == 8
    case Full => mps == 8 || mps == 16 || mps == 32 || mps == 64
    case High => mps == 64
    case Super => true
    case Undefined => true
  }

  /** The fix-up in xhci_handle_enumerate_device: the value forced or
      kept for the speed; a super-speed device reports an exponent. */
  function Ep0MaxPacket(speed: Speed, bMaxPacketSize0: Byte): (mps: nat)
    ensures speed != Super ==> LegalEp0(speed, mps)
    ensures speed != Super && LegalEp0(speed, bMaxPacketSize0) ==> mps == bMaxPacketSize0
    ensures speed == Full && !LegalEp0(Full, bMaxPacketSize0) ==> mps == 8
    ensures speed == Super ==> mps == Pow2(bMaxPacketSize0)
  {
    match speed
    case Low => 8
    case Full =>
      if bMaxPacketSize0 != 8 && bMaxPacketSize0 != 16 && bMaxPacketSize0 != 32 && bMaxPacketSize0 != 64
      then 8 else bMaxPacketSize0
    case High => 64
    case Super => Pow2(bMaxPacketSize0)
    case Undefined => bMaxPacketSize0
  }

  /** The fix-up is idempotent below super speed: a size it produced is
      kept by a second pass. */
  lemma Ep0MaxPacketIdempotent(speed: Speed, bMaxPacketSize0: Byte)
    requires speed != Super
    ensures var m := Ep0MaxPacket(speed, bMaxPacketSize0);
      m < 256 && Ep0MaxPacket(speed, m) == m
  {
  }

  // ---------------------------------------------------------------------
  // The device command queue
  // ---------------------------------------------------------------------

  /** xhci_device_command_t, by its command kind. */
  datatype Command =
    | Enumerate(hubAddress: nat, port: nat, speed: Speed)
    | Disconnect(hubAddress: nat, port: nat)
    | StartRootHubs
    | ResetEndpoint(slotId: nat, epAddress: nat)
    | CancelTransfers(slotId: nat, epAddress: nat)
    | StopThread

  predicate PendingEnumerate(c: Command, hubAddress: nat, port: nat)
  {
    c.Enumerate? && c.hubAddress == hubAddress && c.port == port
  }

  /** The index of the first pending ENUMERATE for hub/port, from `i`. */
  function FindEnumerate(q: seq<Command>, hubAddress: nat, port: nat, i: nat): (k: nat)
    requires i <= |q|
    ensures i <= k <= |q|
    ensures forall j :: i <= j < k ==> !PendingEnumerate(q[j], hubAddress, port)
    ensures k < |q| ==> PendingEnumerate(q[k], hubAddress, port)
    decreases |q| - i
  {
    if i == |q| || PendingEnumerate(q[i], hubAddress, port) then i
    else FindEnumerate(q, hubAddress, port, i + 1)
  }

  /** The queue after xhci_device_disconnected: the first pending
      ENUMERATE for the same hub and port is withdrawn, or else a
      DISCONNECT is queued at the tail. */
  function AfterDisconnect(q: seq<Command>, hubAddress: nat, port: nat): seq<Command>
  {
    var k := FindEnumerate(q, hubAddress, port, 0);
    if k < |q| then q[..k] + q[k + 1..] else q + [Disconnect(hubAddress, port)]
  }

  /** Queueing an ENUMERATE and then seeing the device go away before the
      device thread took it leaves the queue as it was. */
  lemma EnumerateThenDisconnect(q: seq<Command>, hubAddress: nat, port: nat, speed: Speed)
    requires forall j :: 0 <= j < |q| ==> !PendingEnumerate(q[j], hubAddress, port)
    ensures AfterDisconnect(q + [Enumerate(hubAddress, port, speed)], hubAddress, port) == q
  {
    var q' := q + [Enumerate(hubAddress, port, speed)];
    var k := FindEnumerate(q', hubAddress, port, 0);
    assert PendingEnumerate(q'[|q|], hubAddress, port);
    assert k == |q|;
    assert q'[..k] == q;
  }

  /** A disconnect with no pending ENUMERATE for that device queues
      exactly one DISCONNECT, and one with a pending ENUMERATE queues
      nothing: every other command keeps its place. */
  lemma AfterDisconnectShape(q: seq<Command>, hubAddress: nat, port: nat)
    ensures var r := AfterDisconnect(q, hubAddress, port);
      if exists j :: 0 <= j < |q| && PendingEnumerate(q[j], hubAddress, port)
      then |r| + 1 == |q| && multiset(r) + multiset{q[FindEnumerate(q, hubAddress, port, 0)]} == multiset(q)
      else r == q + [Disconnect(hubAddress, port)]
  {
    var k := FindEnumerate(q, hubAddress, port, 0);
    if k < |q| {
      assert q == q[..k] + [q[k]] + q[k + 1..];
    }
  }

  /** The controller's device-command queue, served by the device thread. */
  class DeviceManager {
    var commandQueue: seq<Command>

    constructor()
      ensures commandQueue == []
    {
      commandQueue := [];
    }

    /** xhci_queue_command / xhci_queue_ep_command: add at the tail. */
    method QueueCommand(c: Command)
      modifies this
      ensures commandQueue == old(commandQueue) + [c]
    {
      commandQueue := commandQueue + [c];
    }

    /** xhci_device_disconnected: search the pending list for an
        ENUMERATE of the same device and drop it; otherwise queue a
        DISCONNECT. Both paths report Ok. */
    method DeviceDisconnected(hubAddress: nat, port: nat) returns (status: Status)
      modifies this
      ensures status == Ok
      ensures commandQueue == AfterDisconnect(old(commandQueue), hubAddress, port)
    {
      var i := 0;
      while i < |commandQueue|
        invariant 0 <= i <= |commandQueue|
        invariant commandQueue == old(commandQueue)
        invariant FindEnumerate(commandQueue, hubAddress, port, 0) == FindEnumerate(commandQueue, hubAddress, port, i)
      {
        var c := commandQueue[i];
        if c.Enumerate? && c.hubAddress == hubAddress && c.port == port {
          commandQueue := commandQueue[..i] + commandQueue[i + 1..];
          return Ok;
        }
        i := i + 1;
      }
      QueueCommand(Disconnect(hubAddress, port));
      return Ok;
    }

    /** The device thread's take: the head of the queue, if any. */
    method TakeCommand() returns (c: Option<Command>)
      modifies this
      ensures old(commandQueue) == [] ==> c == None && commandQueue == []
      ensures old(commandQueue) != [] ==> c == Some(old(commandQueue)[0]) && commandQueue == old(commandQueue)[1..]
    {
      if commandQueue == [] {
        return None;
      }
      c := Some(commandQueue[0]);
      commandQueue := commandQueue[1..];
    }
  }

  // ---------------------------------------------------------------------
  // Stopping an endpoint
  // ---------------------------------------------------------------------

  /** xhci_ep_state_t. */
  datatype EpState = Running | Halted | Paused | Disabled | Dead

  /** TRB completion codes, as far as xhci_stop_endpoint tells them
      apart. */
  datatype CompletionCode = CcSuccess | CcContextStateError | CcOther

  /** A request and the status it was completed with. */
  datatype Completion = Completion(request: nat, status: Status)

  /** Completing every request of `reqs`, in order, with `status`. */
  function CompleteAll(reqs: seq<nat>, status: Status): (r: seq<Completion>)
    ensures |r| == |reqs|
    ensures forall i :: 0 <= i < |reqs| ==> r[i] == Completion(reqs[i], status)
  {
    if reqs == [] then [] else [Completion(reqs[0], status)] + CompleteAll(reqs[1..], status)
  }

  /** An endpoint: its state, the requests on its transfer ring
      (pending) and those waiting for room (queued). */
  class Endpoint {
    var state: EpState
    var pending: seq<nat>
    var queued: seq<nat>

    constructor(state: EpState, pending: seq<nat>, queued: seq<nat>)
      ensures this.state == state && this.pending == pending && this.queued == queued
    {
      this.state := state;
      this.pending := pending;
      this.queued := queued;
    }

    /** xhci_stop_endpoint: stopping into RUNNING is an internal error
        and a non-running endpoint is in the wrong state, both with no
        change; otherwise the endpoint takes `newState` before the stop
        command, a failed command (other than a context-state error) is
        an internal error, and a stopped endpoint completes its pending
        and then its queued requests with `completeStatus`. */
    method StopEndpoint(newState: EpState, completeStatus: Status, cc: CompletionCode)
      returns (status: Status, completed: seq<Completion>)
      modifies this
      ensures newState == Running ==>
        status == ErrInternal && completed == []
        && state == old(state) && pending == old(pending) && queued == old(queued)
      ensures newState != Running && old(state) != Running ==>
        status == ErrBadState && completed == []
        && state == old(state) && pending == old(pending) && queued == old(queued)
      ensures newState != Running && old(state) == Running && cc == CcOther ==>
        status == ErrInternal && completed == []
        && state == newState && pending == old(pending) && queued == old(queued)
      ensures newState != Running && old(state) == Running && cc != CcOther ==>
        status == Ok && state == newState && pending == [] && queued == []
        && completed == CompleteAll(old(pending) + old(queued), completeStatus)
    {
      completed := [];
      if newState == Running {
        return ErrInternal, completed;
      }
      if state != Running {
        return ErrBadState, completed;
      }
      state := newState;
      if cc != CcSuccess && cc != CcContextStateError {
        return ErrInternal, completed;
      }
      ghost var all := pending + queued;
      ghost var first := pending;
      while pending != []
        invariant state == newState
        invariant |completed| + |pending| == |first| && pending == first[|completed|..]
        invariant queued == all[|first|..]
        invariant forall i :: 0 <= i < |completed| ==> completed[i] == Completion(all[i], completeStatus)
      {
        completed := completed + [Completion(pending[0], completeStatus)];
        pending := pending[1..];
      }
      while queued != []
        invariant state == newState && pending == []
        invariant |completed| + |queued| == |all| && queued == all[|completed|..]
        invariant forall i :: 0 <= i < |completed| ==> completed[i] == Completion(all[i], completeStatus)
      {
        completed := completed + [Completion(queued[0], completeStatus)];
        queued := queued[1..];
      }
      assert completed == CompleteAll(all, completeStatus);
      return Ok, completed;
    }
  }

  /** Every request of a stopped endpoint is completed exactly once. */
  lemma StopCompletesEach(reqs: seq<nat>, status: Status)
    ensures multiset(seq(|reqs|, i requires 0 <= i < |reqs| => CompleteAll(reqs, status)[i].request)) == multiset(reqs)
  {
    assert seq(|reqs|, i requires 0 <= i < |reqs| => CompleteAll(reqs, status)[i].request) == reqs;
  }

  // ---------------------------------------------------------------------
  // Releasing a slot
  // ---------------------------------------------------------------------

  /** The number of endpoints of a slot. */
  const NUM_EPS: nat := 32

  /** The fields of xhci_slot_t that addressing sets and disabling
      resets. */
  datatype Slot = Slot(hasContext: bool, hubAddress: nat, port: nat, rhPort: nat, speed: Speed, eps: seq<EpState>)

  /** A slot that was never addressed. */
  const FREE_SLOT: Slot := Slot(false, 0, 0, 0, Undefined, seq(NUM_EPS, _ => Disabled))

  /** xhci_disable_slot as written: the speed reset is written to the
      port field (USB_SPEED_UNDEFINED is 0), so the speed is kept. */
  function DisableSlotAsWritten(s: Slot): (r: Slot)
    ensures r.speed == s.speed
  {
    Slot(false, 0, 0, 0, s.speed, seq(NUM_EPS, _ => Disabled))
  }

  /** A high-speed slot that still reports high speed once released. */
  lemma DisableSlotKeepsSpeed()
    ensures DisableSlotAsWritten(Slot(true, 1, 2, 2, High, FREE_SLOT.eps)) != FREE_SLOT
  {
  }

  /** xhci_disable_slot with the speed reset on the speed field. */
  function DisableSlot(s: Slot): Slot
  {
    Slot(false, 0, 0, 0, Undefined, seq(NUM_EPS, _ => Disabled))
  }

  /** Disabling returns any slot to the never-addressed state. */
  lemma DisableSlotFrees(s: Slot)
    ensures DisableSlot(s) == FREE_SLOT
  {
  }
}
