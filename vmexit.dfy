/** The hypervisor's handling of VM exits on x86: the decoders of the exit
    qualification and of the exit reason, the local APIC's bitmap of
    pending interrupt vectors, the XSETBV check, the size of the XSAVE
    area a guest's XCR0 needs, and the I/O instruction exit that becomes a
    packet for user space. Registers and qualifications are bit-vectors of
    their hardware widths. */
module VmExit {
  import opened ZxStatus

  // ---------------------------------------------------------------------
  // Decoders

  /** The full exit reason split (Intel SDM volume 3, section 26.7): the
      basic reason in bits 15:0, VM-entry failure in bit 31. */
  datatype ExitReason = ExitReason(basic: bv16, entryFailure: bool)

  function DecodeExitReason(full: bv32): ExitReason
  {
    ExitReason((full & 0xFFFF) as bv16, full & 0x8000_0000 != 0)
  }

  /** The exit reason word with the given fields and its other bits 0. */
  function EncodeExitReason(r: ExitReason): bv32
  {
    (r.basic as bv32) | (if r.entryFailure then 0x8000_0000 as bv32 else 0)
  }

  lemma ExitReasonRoundTrip(r: ExitReason)
    ensures DecodeExitReason(EncodeExitReason(r)) == r
  {
    ExitReasonBasic(r);
    ExitReasonFailure(r);
  }

  lemma ExitReasonBasic(r: ExitReason)
    ensures (EncodeExitReason(r) & 0xFFFF) as bv16 == r.basic
  {
  }

  lemma ExitReasonFailure(r: ExitReason)
    ensures (EncodeExitReason(r) & 0x8000_0000 != 0) == r.entryFailure
  {
  }

  /** The exit interruption information: vector in bits 7:0, interruption
      type in bits 10:8, valid in bit 31. */
  datatype Interruption = Interruption(vector: bv8, kind: bv8, valid: bool)

  function DecodeInterruption(info: bv32): Interruption
  {
    Interruption((info & 0xFF) as bv8, ((info >> 8) & 0x7) as bv8, info & 0x8000_0000 != 0)
  }

  /** Only bits 7:0, 10:8 and 31 matter: decoding a word is decoding it
      with the other bits cleared. */
  lemma InterruptionIgnoresOtherBits(info: bv32)
    ensures DecodeInterruption(info) == DecodeInterruption(info & 0x8000_07FF)
  {
    InterruptionVector(info);
    InterruptionKind(info);
    InterruptionValid(info);
  }

  lemma InterruptionVector(info: bv32)
    ensures (info & 0xFF) as bv8 == ((info & 0x8000_07FF) & 0xFF) as bv8
  {
  }

  lemma InterruptionKind(info: bv32)
    ensures ((info >> 8) & 0x7) as bv8 == (((info & 0x8000_07FF) >> 8) & 0x7) as bv8
  {
  }

  lemma InterruptionValid(info: bv32)
    ensures (info & 0x8000_0000 != 0) == ((info & 0x8000_07FF) & 0x8000_0000 != 0)
  {
  }

  /** The I/O instruction exit qualification (IoInfo): access size minus
      one in bits 2:0, direction in bit 3 (input), string instruction in
      bit 4, REP prefix in bit 5, port in bits 31:16. */
  datatype IoInfo = IoInfo(accessSize: bv8, input: bool, stringOp: bool, repeat: bool, port: bv16)

  function DecodeIo(q: bv64): IoInfo
  {
    IoInfo(((q & 0x7) as bv8) + 1, q & 0x8 != 0, q & 0x10 != 0, q & 0x20 != 0, ((q >> 16) & 0xFFFF) as bv16)
  }

  /** Sizes the three-bit field can give: 1 to 8 bytes. */
  predicate IoInfoOk(i: IoInfo)
  {
    1 <= i.accessSize <= 8
  }

  /** The qualification with the given fields and its other bits 0. */
  function EncodeIo(i: IoInfo): bv64
    requires IoInfoOk(i)
  {
    ((i.port as bv64) << 16) | IoLowBits(i)
  }

  /** Bits 5:0 of the encoded qualification. */
  function IoLowBits(i: IoInfo): (r: bv64)
    requires IoInfoOk(i)
    ensures r < 0x40
  {
    ((i.accessSize - 1) as bv64) | Flag(i.input, 0x8) | Flag(i.stringOp, 0x10) | Flag(i.repeat, 0x20)
  }

  /** A 16-bit field at bit 16 over six low bits: each part reads back. */
  lemma PortOverLowBits(p: bv16, l: bv64)
    requires l < 0x40
    ensures ((((p as bv64) << 16) | l) >> 16) & 0xFFFF == p as bv64
    ensures (((p as bv64) << 16) | l) & 0x3F == l
  {
  }

  /** `bit` when the flag is set, else nothing. */
  function Flag(on: bool, bit: bv64): bv64
  {
    if on then bit else 0
  }

  /** Every qualification decodes to an access of 1 to 8 bytes. */
  lemma DecodeIoOk(q: bv64)
    ensures IoInfoOk(DecodeIo(q))
  {
  }

  /** Decoding inverts encoding. */
  lemma IoRoundTrip(i: IoInfo)
    requires IoInfoOk(i)
    ensures DecodeIo(EncodeIo(i)) == i
  {
    IoSizeField(i);
    IoFlagFields(i);
    IoPortField(i);
  }

  lemma IoSizeField(i: IoInfo)
    requires IoInfoOk(i)
    ensures ((EncodeIo(i) & 0x7) as bv8) + 1 == i.accessSize
  {
    PortOverLowBits(i.port, IoLowBits(i));
    LowSize(i);
  }

  lemma LowSize(i: IoInfo)
    requires IoInfoOk(i)
    ensures ((IoLowBits(i) & 0x7) as bv8) + 1 == i.accessSize
  {
  }

  lemma IoFlagFields(i: IoInfo)
    requires IoInfoOk(i)
    ensures (EncodeIo(i) & 0x8 != 0) == i.input
    ensures (EncodeIo(i) & 0x10 != 0) == i.stringOp
    ensures (EncodeIo(i) & 0x20 != 0) == i.repeat
  {
    PortOverLowBits(i.port, IoLowBits(i));
    LowFlags(i);
  }

  lemma LowFlags(i: IoInfo)
    requires IoInfoOk(i)
    ensures (IoLowBits(i) & 0x8 != 0) == i.input
    ensures (IoLowBits(i) & 0x10 != 0) == i.stringOp
    ensures (IoLowBits(i) & 0x20 != 0) == i.repeat
  {
  }

  lemma IoPortField(i: IoInfo)
    requires IoInfoOk(i)
    ensures ((EncodeIo(i) >> 16) & 0xFFFF) as bv16 == i.port
  {
    PortOverLowBits(i.port, IoLowBits(i));
  }

  /** Encoding inverts decoding on the bits the decoder reads (bits 5:0
      and 31:16); the rest of the qualification is ignored. */
  lemma IoEncodeDecode(q: bv64)
    ensures EncodeIo(DecodeIo(q)) == q & 0xFFFF_003F
  {
  }

  /** The APIC access qualification (ApicAccessInfo): the offset in the
      APIC page in bits 11:0, the access type in bits 15:12. */
  datatype ApicAccessInfo = ApicAccessInfo(offset: bv16, accessType: bv8)

  function DecodeApicAccess(q: bv64): ApicAccessInfo
  {
    ApicAccessInfo((q & 0xFFF) as bv16, ((q >> 12) & 0xF) as bv8)
  }

  /** An offset inside the 4 KiB page and a four-bit type. */
  predicate ApicAccessOk(a: ApicAccessInfo)
  {
    a.offset < 0x1000 && a.accessType < 0x10
  }

  function EncodeApicAccess(a: ApicAccessInfo): bv64
    requires ApicAccessOk(a)
  {
    (a.offset as bv64) | ((a.accessType as bv64) << 12)
  }

  lemma DecodeApicAccessOk(q: bv64)
    ensures ApicAccessOk(DecodeApicAccess(q))
  {
  }

  lemma ApicAccessRoundTrip(a: ApicAccessInfo)
    requires ApicAccessOk(a)
    ensures DecodeApicAccess(EncodeApicAccess(a)) == a
  {
    ApicOffsetField(a);
    ApicTypeField(a);
  }

  lemma ApicOffsetField(a: ApicAccessInfo)
    requires ApicAccessOk(a)
    ensures (EncodeApicAccess(a) & 0xFFF) as bv16 == a.offset
  {
  }

  lemma ApicTypeField(a: ApicAccessInfo)
    requires ApicAccessOk(a)
    ensures ((EncodeApicAccess(a) >> 12) & 0xF) as bv8 == a.accessType
  {
  }

  /** Encoding inverts decoding on bits 15:0. */
  lemma ApicEncodeDecode(q: bv64)
    ensures EncodeApicAccess(DecodeApicAccess(q)) == q & 0xFFFF
  {
  }

  /** The EPT violation qualification (Intel SDM volume 3C, table 27-7):
      the access was a read (bit 0), a write (bit 1) or an instruction
      fetch (bit 2); the page was present when any of bits 5:3 (its
      read, write and execute permissions) is set. */
  datatype EptViolation = EptViolation(read: bool, write: bool, instruction: bool, present: bool)

  function DecodeEptViolation(q: bv64): EptViolation
  {
    EptViolation(q & 0x1 != 0, q & 0x2 != 0, q & 0x4 != 0, q & 0x38 != 0)
  }

  /** The page fault an EPT violation is handled as: always a hardware
      fault, a write or an instruction fetch as the access was, and
      not-present when the page had no permission. */
  datatype PageFault = PageFault(write: bool, instruction: bool, notPresent: bool)

  function EptPageFault(e: EptViolation): PageFault
  {
    PageFault(e.write, e.instruction, !e.present)
  }

  /** A fault is reported not-present exactly when bits 5:3 of the
      qualification are all clear, and a write exactly when bit 1 is
      set. */
  lemma EptFaultFromQualification(q: bv64)
    ensures EptPageFault(DecodeEptViolation(q)).notPresent <==> q & 0x38 == 0
    ensures EptPageFault(DecodeEptViolation(q)).write <==> (q >> 1) & 1 == 1
  {
  }

  // ---------------------------------------------------------------------
  // The local APIC's pending interrupts

  const NUM_INTERRUPTS: nat := 256
  const X86_INT_MAX: nat := 255

  /** The bitmap of pending vectors, stored reversed (vector v at bit
      255 - v) so that the lowest set bit is the highest vector. */
  class LocalApic {
    const bitmap: array<bool>

    predicate Valid()
      reads this
    {
      bitmap.Length == NUM_INTERRUPTS
    }

    constructor ()
      ensures Valid() && fresh(bitmap)
      ensures forall v :: 0 <= v < NUM_INTERRUPTS ==> !IsPending(v)
    {
      bitmap := new bool[NUM_INTERRUPTS](_ => false);
    }

    /** Vector `v` is pending. */
    predicate IsPending(v: nat)
      reads this, bitmap
      requires Valid() && v < NUM_INTERRUPTS
    {
      bitmap[X86_INT_MAX - v]
    }

    /** local_apic_pending_interrupt: vector `v` becomes pending; no other
        vector changes. */
    method SetPending(v: nat)
      requires Valid() && v <= X86_INT_MAX
      modifies bitmap
      ensures IsPending(v)
      ensures forall w :: 0 <= w < NUM_INTERRUPTS && w != v ==> IsPending(w) == old(IsPending(w))
    {
      bitmap[X86_INT_MAX - v] := true;
    }

    /** local_apic_pop_interrupt: the highest pending vector, which stops
        being pending; NUM_INTERRUPTS, with nothing changed, when no
        vector is pending. */
    method Pop() returns (v: nat)
      requires Valid()
      modifies bitmap
      ensures v <= NUM_INTERRUPTS
      ensures v == NUM_INTERRUPTS ==>
        bitmap[..] == old(bitmap[..]) && forall w :: 0 <= w < NUM_INTERRUPTS ==> !IsPending(w)
      ensures v < NUM_INTERRUPTS ==>
        old(IsPending(v)) && !IsPending(v) &&
        (forall w :: v < w < NUM_INTERRUPTS ==> !old(IsPending(w))) &&
        (forall w :: 0 <= w < NUM_INTERRUPTS && w != v ==> IsPending(w) == old(IsPending(w)))
    {
      var i := Scan();
      if i == NUM_INTERRUPTS {
        return NUM_INTERRUPTS;
      }
      bitmap[i] := false;
      v := X86_INT_MAX - i;
    }

    /** The bitmap's Scan for the first set bit: NUM_INTERRUPTS when none
        is. */
    method Scan() returns (i: nat)
      requires Valid()
      ensures i <= NUM_INTERRUPTS
      ensures i < NUM_INTERRUPTS ==> bitmap[i]
      ensures forall k :: 0 <= k < i && k < NUM_INTERRUPTS ==> !bitmap[k]
    {
      i := 0;
      while i < NUM_INTERRUPTS && !bitmap[i]
        invariant i <= NUM_INTERRUPTS
        invariant forall k :: 0 <= k < i ==> !bitmap[k]
      {
        i := i + 1;
      }
    }

    /** local_apic_maybe_interrupt: the highest pending vector is injected
        when the guest has interrupts enabled; otherwise it stays pending
        and the guest is to exit when it enables them. `injected` is the
        vector injected, `window` whether interrupt-window exiting is
        requested. */
    method MaybeInterrupt(interruptsEnabled: bool) returns (injected: Option<nat>, window: bool)
      requires Valid()
      modifies bitmap
      ensures !interruptsEnabled ==> injected.None? && bitmap[..] == old(bitmap[..])
      ensures !interruptsEnabled ==> (window <==> exists w :: 0 <= w < NUM_INTERRUPTS && old(IsPending(w)))
      ensures interruptsEnabled ==> !window
      ensures injected.Some? ==>
        var v := injected.value;
        v < NUM_INTERRUPTS && old(IsPending(v)) && !IsPending(v) &&
        (forall w :: v < w < NUM_INTERRUPTS ==> !old(IsPending(w))) &&
        (forall w :: 0 <= w < NUM_INTERRUPTS && w != v ==> IsPending(w) == old(IsPending(w)))
      ensures injected.None? ==>
        bitmap[..] == old(bitmap[..]) &&
        (interruptsEnabled ==> forall w :: 0 <= w < NUM_INTERRUPTS ==> !IsPending(w))
    {
      var v := Pop();
      if v == NUM_INTERRUPTS {
        forall w | 0 <= w < NUM_INTERRUPTS
          ensures !old(IsPending(w))
        {
          assert !IsPending(w);
          assert bitmap[..][X86_INT_MAX - w] == old(bitmap[..])[X86_INT_MAX - w];
        }
        return None, false;
      }
      if interruptsEnabled {
        return Some(v), false;
      }
      SetPending(v);
      assert bitmap[..] == old(bitmap[..]) by {
        forall k | 0 <= k < NUM_INTERRUPTS
          ensures bitmap[k] == old(bitmap[k])
        {
          assert IsPending(X86_INT_MAX - k) == old(IsPending(X86_INT_MAX - k));
        }
      }
      return None, true;
    }

    /** local_apic_issue_interrupt: the highest pending vector, if any,
        is injected. */
    method IssueInterrupt() returns (injected: Option<nat>)
      requires Valid()
      modifies bitmap
      ensures injected.None? ==>
        bitmap[..] == old(bitmap[..]) && forall w :: 0 <= w < NUM_INTERRUPTS ==> !IsPending(w)
      ensures injected.Some? ==>
        var v := injected.value;
        v < NUM_INTERRUPTS && old(IsPending(v)) && !IsPending(v) &&
        (forall w :: v < w < NUM_INTERRUPTS ==> !old(IsPending(w))) &&
        (forall w :: 0 <= w < NUM_INTERRUPTS && w != v ==> IsPending(w) == old(IsPending(w)))
    {
      var v := Pop();
      if v == NUM_INTERRUPTS {
        return None;
      }
      return Some(v);
    }
  }

  // ---------------------------------------------------------------------
  // XSETBV and the XSAVE area

  const CR4_OSXSAVE: bv64 := 0x4_0000
  const XSAVE_STATE_X87: bv64 := 0x1
  const XSAVE_STATE_SSE: bv64 := 0x2
  const XSAVE_STATE_AVX: bv64 := 0x4

  /** A CPUID leaf's four registers. */
  datatype CpuidLeaf = CpuidLeaf(a: bv32, b: bv32, c: bv32, d: bv32)

  /** The XCR0 value XSETBV writes: EDX in the high half, EAX in the
      low. */
  function Xcr0(rdx: bv64, rax: bv64): bv64
  {
    (rdx << 32) | (rax & 0xFFFF_FFFF)
  }

  /** The value sets a state component the processor does not support. */
  predicate Unsupported(x: bv64, supported: bv64)
  {
    (!supported & x) != 0
  }

  /** The value leaves out x87 state. */
  predicate WithoutX87(x: bv64)
  {
    x & XSAVE_STATE_X87 != XSAVE_STATE_X87
  }

  /** The value enables AVX state without SSE state. */
  predicate AvxWithoutSse(x: bv64)
  {
    x & (XSAVE_STATE_AVX | XSAVE_STATE_SSE) == XSAVE_STATE_AVX
  }

  /** handle_xsetbv's checks: INVALID_ARGS unless the guest has set
      CR4.OSXSAVE and addresses XCR0 (ECX 0); INTERNAL when CPUID leaf
      0xD cannot be read (`supported` None, otherwise the leaf's EDX:EAX,
      the state components the processor supports); INVALID_ARGS for a value with an
      unsupported bit, without x87 state, or with AVX state but not SSE
      state. Success carries the new XCR0. */
  function Xsetbv(cr4: bv64, rcx: bv64, supported: Option<bv64>, rdx: bv64, rax: bv64): Result<bv64>
  {
    if cr4 & CR4_OSXSAVE == 0 then Failure(ErrInvalidArgs)
    else if rcx != 0 then Failure(ErrInvalidArgs)
    else if supported.None? then Failure(ErrInternal)
    else
      var x := Xcr0(rdx, rax);
      if Unsupported(x, supported.value) || WithoutX87(x) || AvxWithoutSse(x)
      then Failure(ErrInvalidArgs)
      else Success(x)
  }

  /** Bit `k` of a 64-bit register. */
  predicate Bit(x: bv64, k: bv64)
    requires k < 64
  {
    (x >> k) & 1 == 1
  }

  /** A valid XCR0 by the architecture's rules: only supported state
      components, x87 state (bit 0) always, and SSE state (bit 1)
      whenever AVX state (bit 2). */
  predicate Xcr0Valid(x: bv64, supported: bv64)
  {
    x & !supported == 0 && Bit(x, 0) && (Bit(x, 2) ==> Bit(x, 1))
  }

  /** The three checks refuse exactly the values that are not valid. */
  lemma Xcr0Checks(x: bv64, s: bv64)
    ensures Unsupported(x, s) || WithoutX87(x) || AvxWithoutSse(x) <==> !Xcr0Valid(x, s)
  {
    UnsupportedBits(x, s);
    X87Bit(x);
    AvxBits(x);
  }

  /** XSETBV succeeds exactly when OSXSAVE is set, ECX is 0, CPUID can be
      read and the value is a valid XCR0, and then writes that value. */
  lemma XsetbvIff(cr4: bv64, rcx: bv64, supported: Option<bv64>, rdx: bv64, rax: bv64)
    ensures Xsetbv(cr4, rcx, supported, rdx, rax).Success? <==>
      cr4 & CR4_OSXSAVE != 0 && rcx == 0 && supported.Some? && Xcr0Valid(Xcr0(rdx, rax), supported.value)
    ensures Xsetbv(cr4, rcx, supported, rdx, rax).Success? ==> Xsetbv(cr4, rcx, supported, rdx, rax).value == Xcr0(rdx, rax)
  {
    if supported.Some? {
      Xcr0Checks(Xcr0(rdx, rax), supported.value);
    }
  }

  lemma UnsupportedBits(x: bv64, s: bv64)
    ensures Unsupported(x, s) == (x & !s != 0)
  {
  }

  lemma X87Bit(x: bv64)
    ensures WithoutX87(x) == !Bit(x, 0)
  {
  }

  lemma AvxBits(x: bv64)
    ensures AvxWithoutSse(x) == (Bit(x, 2) && !Bit(x, 1))
  {
  }

  /** The low half of XCR0 is the low half of RAX. */
  lemma Xcr0Low(rdx: bv64, rax: bv64)
    ensures Xcr0(rdx, rax) & 0xFFFF_FFFF == rax & 0xFFFF_FFFF
  {
  }

  /** The high half of XCR0 is the low half of RDX. */
  lemma Xcr0High(rdx: bv64, rax: bv64)
    ensures Xcr0(rdx, rax) >> 32 == rdx & 0xFFFF_FFFF
  {
  }

  const XSAVE_LEGACY_REGION_SIZE: nat := 512
  const XSAVE_HEADER_SIZE: nat := 64
  const FIRST_EXTENDED_COMPONENT: nat := 2
  const LAST_EXTENDED_COMPONENT: nat := 9

  /** State component `i` is enabled in XCR0. */
  predicate Enabled(xcr0: nat, i: nat)
  {
    (xcr0 / Pow2(i)) % 2 == 1
  }

  /** A CPUID leaf of all zeros: the component is not supported. */
  predicate Empty(l: CpuidLeaf)
  {
    l.a == 0 && l.b == 0 && l.c == 0 && l.d == 0
  }

  /** The end of a component's area: its offset (EBX) plus its size
      (EAX), as a 32-bit sum. */
  function ComponentEnd(l: CpuidLeaf): nat
  {
    var sum := l.b as nat + l.a as nat;
    if sum < 0x1_0000_0000 then sum else sum - 0x1_0000_0000
  }

  /** compute_xsave_size from component `i` on, with the size so far
      `size`: each enabled component with a non-empty CPUID leaf sets the
      size to its end; a leaf that cannot be read (None) is INTERNAL.
      `leaves[i]` is CPUID leaf 0xD subleaf i. */
  function XsaveSizeFrom(xcr0: nat, leaves: seq<Option<CpuidLeaf>>, i: nat, size: nat): Result<nat>
    requires |leaves| == LAST_EXTENDED_COMPONENT + 1
    decreases LAST_EXTENDED_COMPONENT + 1 - i
  {
    if i > LAST_EXTENDED_COMPONENT then Success(size)
    else if !Enabled(xcr0, i) then XsaveSizeFrom(xcr0, leaves, i + 1, size)
    else if leaves[i].None? then Failure(ErrInternal)
    else if Empty(leaves[i].value) then XsaveSizeFrom(xcr0, leaves, i + 1, size)
    else XsaveSizeFrom(xcr0, leaves, i + 1, ComponentEnd(leaves[i].value))
  }

  function XsaveSize(xcr0: nat, leaves: seq<Option<CpuidLeaf>>): Result<nat>
    requires |leaves| == LAST_EXTENDED_COMPONENT + 1
  {
    XsaveSizeFrom(xcr0, leaves, FIRST_EXTENDED_COMPONENT, XSAVE_LEGACY_REGION_SIZE + XSAVE_HEADER_SIZE)
  }

  /** Extended components sit after the legacy region and the header and
      end within 32 bits, as the architecture lays them out. */
  predicate LeavesOk(leaves: seq<Option<CpuidLeaf>>)
  {
    forall i :: 0 <= i < |leaves| && leaves[i].Some? ==>
      leaves[i].value.b as nat >= XSAVE_LEGACY_REGION_SIZE + XSAVE_HEADER_SIZE &&
      leaves[i].value.b as nat + leaves[i].value.a as nat < 0x1_0000_0000
  }

  /** The XSAVE area is at least the legacy region and the header when
      the components lie after them. */
  lemma {:induction false} XsaveSizeFromAtLeast(xcr0: nat, leaves: seq<Option<CpuidLeaf>>, i: nat, size: nat)
    requires |leaves| == LAST_EXTENDED_COMPONENT + 1 && LeavesOk(leaves)
    requires size >= XSAVE_LEGACY_REGION_SIZE + XSAVE_HEADER_SIZE
    ensures XsaveSizeFrom(xcr0, leaves, i, size).Success? ==>
      XsaveSizeFrom(xcr0, leaves, i, size).value >= XSAVE_LEGACY_REGION_SIZE + XSAVE_HEADER_SIZE
    decreases LAST_EXTENDED_COMPONENT + 1 - i
  {
    if i <= LAST_EXTENDED_COMPONENT {
      if !Enabled(xcr0, i) || (leaves[i].Some? && Empty(leaves[i].value)) {
        XsaveSizeFromAtLeast(xcr0, leaves, i + 1, size);
      } else if leaves[i].Some? {
        var l := leaves[i].value;
        ComponentEndAtLeast(l);
        XsaveSizeFromAtLeast(xcr0, leaves, i + 1, ComponentEnd(l));
      }
    }
  }

  lemma ComponentEndAtLeast(l: CpuidLeaf)
    requires l.b as nat >= XSAVE_LEGACY_REGION_SIZE + XSAVE_HEADER_SIZE
    requires l.b as nat + l.a as nat < 0x1_0000_0000
    ensures ComponentEnd(l) >= XSAVE_LEGACY_REGION_SIZE + XSAVE_HEADER_SIZE
  {
  }

  lemma XsaveSizeAtLeast(xcr0: nat, leaves: seq<Option<CpuidLeaf>>)
    requires |leaves| == LAST_EXTENDED_COMPONENT + 1 && LeavesOk(leaves)
    ensures XsaveSize(xcr0, leaves).Success? ==> XsaveSize(xcr0, leaves).value >= 576
  {
    XsaveSizeFromAtLeast(xcr0, leaves, FIRST_EXTENDED_COMPONENT, 576);
  }

  /** With no extended component enabled the area is exactly the legacy
      region and the header. */
  lemma {:induction false} XsaveSizeFromNoneEnabled(xcr0: nat, leaves: seq<Option<CpuidLeaf>>, i: nat, size: nat)
    requires |leaves| == LAST_EXTENDED_COMPONENT + 1
    requires forall k :: i <= k <= LAST_EXTENDED_COMPONENT ==> !Enabled(xcr0, k)
    ensures XsaveSizeFrom(xcr0, leaves, i, size) == Success(size)
    decreases LAST_EXTENDED_COMPONENT + 1 - i
  {
    if i <= LAST_EXTENDED_COMPONENT {
      XsaveSizeFromNoneEnabled(xcr0, leaves, i + 1, size);
    }
  }

  /** compute_xsave_size's loop over the extended components. */
  method ComputeXsaveSize(xcr0: nat, leaves: seq<Option<CpuidLeaf>>) returns (status: Status, size: nat)
    requires |leaves| == LAST_EXTENDED_COMPONENT + 1
    ensures XsaveSize(xcr0, leaves).Success? ==> status == Ok && size == XsaveSize(xcr0, leaves).value
    ensures XsaveSize(xcr0, leaves).Failure? ==> status == XsaveSize(xcr0, leaves).error
  {
    size := XSAVE_LEGACY_REGION_SIZE + XSAVE_HEADER_SIZE;
    var i := FIRST_EXTENDED_COMPONENT;
    while i <= LAST_EXTENDED_COMPONENT
      invariant FIRST_EXTENDED_COMPONENT <= i <= LAST_EXTENDED_COMPONENT + 1
      invariant XsaveSizeFrom(xcr0, leaves, i, size) == XsaveSize(xcr0, leaves)
      decreases LAST_EXTENDED_COMPONENT + 1 - i
    {
      if !Enabled(xcr0, i) {
        i := i + 1;
        continue;
      }
      if leaves[i].None? {
        return ErrInternal, size;
      }
      var leaf := leaves[i].value;
      if Empty(leaf) {
        i := i + 1;
        continue;
      }
      size := ComponentEnd(leaf);
      i := i + 1;
    }
    status := Ok;
  }

  // ---------------------------------------------------------------------
  // The guest's registers and the exits that change them

  /** A trap registered for a range of I/O ports: its key and whether it
      delivers packets to a port. */
  datatype Trap = Trap(key: nat, hasPort: bool)

  /** A guest I/O packet for user space: the trap key, port, access size,
      direction and, for an output, the bytes written. */
  datatype IoPacket = IoPacket(key: nat, port: bv16, accessSize: bv8, input: bool, data: bv64)

  /** The bytes of RAX an output carries: its low `size` bytes, at most
      the packet's four. */
  function OutputData(rax: bv64, size: bv8): bv64
  {
    if size == 1 then rax & 0xFF
    else if size == 2 then rax & 0xFFFF
    else if size == 3 then rax & 0xFF_FFFF
    else rax & 0xFFFF_FFFF
  }

  class GuestState {
    var rax: bv64
    var rcx: bv64
    var rdx: bv64
    var rip: bv64
    var xcr0: bv64

    constructor (rax: bv64, rcx: bv64, rdx: bv64, rip: bv64)
      ensures this.rax == rax && this.rcx == rcx && this.rdx == rdx && this.rip == rip && xcr0 == XSAVE_STATE_X87
    {
      this.rax, this.rcx, this.rdx, this.rip := rax, rcx, rdx, rip;
      xcr0 := XSAVE_STATE_X87;
    }

    /** handle_xsetbv: on success XCR0 takes the value and RIP moves past
        the instruction (`length` bytes); on failure nothing changes. */
    method HandleXsetbv(cr4: bv64, supported: Option<bv64>, length: bv64) returns (status: Status)
      modifies this
      ensures rax == old(rax) && rcx == old(rcx) && rdx == old(rdx)
      ensures var r := Xsetbv(cr4, old(rcx), supported, old(rdx), old(rax));
        status == (if r.Success? then Ok else r.error)
      ensures var r := Xsetbv(cr4, old(rcx), supported, old(rdx), old(rax));
        xcr0 == (if r.Success? then r.value else old(xcr0))
      ensures var r := Xsetbv(cr4, old(rcx), supported, old(rdx), old(rax));
        rip == (if r.Success? then old(rip) + length else old(rip))
    {
      var r := Xsetbv(cr4, rcx, supported, rdx, rax);
      if r.Failure? {
        return r.error;
      }
      rip := rip + length;
      xcr0 := r.value;
      status := Ok;
    }

    /** handle_io_instruction: string and REP instructions are
        NOT_SUPPORTED; a port with no trap gives the trap lookup's error
        (`trap`); otherwise RIP moves past the instruction and a packet
        describes the access. A 4-byte input clears RAX (the 32-bit result
        is zero-extended) and the exit goes to user space (NEXT). An
        output carries the low bytes of RAX and is queued on the trap's
        port (status `queued`) when it has one, else goes to user space. */
    method HandleIo(qualification: bv64, trap: Result<Trap>, length: bv64, queued: Status)
      returns (status: Status, packet: Option<IoPacket>)
      modifies this
      ensures rcx == old(rcx) && rdx == old(rdx) && xcr0 == old(xcr0)
      ensures var io := DecodeIo(qualification);
        if io.stringOp || io.repeat then
          status == ErrNotSupported && packet.None? && rip == old(rip) && rax == old(rax)
        else if trap.Failure? then
          status == trap.error && packet.None? && rip == old(rip) && rax == old(rax)
        else
          rip == old(rip) + length &&
          packet == Some(IoPacket(trap.value.key, io.port, io.accessSize, io.input,
                                  if io.input then 0 else OutputData(old(rax), io.accessSize))) &&
          rax == (if io.input && io.accessSize == 4 then 0 else old(rax)) &&
          status == (if !io.input && trap.value.hasPort then queued else ErrNext)
    {
      var io := DecodeIo(qualification);
      if io.stringOp || io.repeat {
        return ErrNotSupported, None;
      }
      if trap.Failure? {
        return trap.error, None;
      }
      rip := rip + length;
      if io.input {
        packet := Some(IoPacket(trap.value.key, io.port, io.accessSize, true, 0));
        if io.accessSize == 4 {
          rax := 0;
        }
        return ErrNext, packet;
      }
      packet := Some(IoPacket(trap.value.key, io.port, io.accessSize, false, OutputData(rax, io.accessSize)));
      if trap.value.hasPort {
        return queued, packet;
      }
      status := ErrNext;
    }
  }

  /** A string or REP I/O instruction is refused whatever else the
      qualification says, and a 4-byte input is recognised from bits
      2:0 = 3 with bit 3 set. */
  lemma IoInstructionFields(q: bv64)
    ensures (q & 0x30 != 0) <==> DecodeIo(q).stringOp || DecodeIo(q).repeat
    ensures (q & 0xF == 0xB) <==> DecodeIo(q).input && DecodeIo(q).accessSize == 4
  {
  }
}
