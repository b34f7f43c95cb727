/** The kernel half of Intel performance monitoring on x86: decoding the
    CPUID performance-monitoring leaf at boot, validating and staging a
    counter configuration, and the allocated/active state machine that
    guards init, buffer assignment, staging, start, stop and fini. */
module PerfMon {
  import opened ZxStatus

  const MINIMUM_PERFMON_VERSION: bv32 := 4
  const MAX_PROGRAMMABLE_COUNTERS: nat := 8
  const MAX_FIXED_COUNTERS: nat := 3
  /** The size of a counting-mode record (status, time, 8 programmable
      and 3 fixed counters, 8 bytes each). */
  const COUNTERS_RECORD_SIZE: nat := 104

  // IA32_PERFEVTSEL fields.
  const PERFEVTSEL_EVENT_SELECT: bv64 := 0xff
  const PERFEVTSEL_UMASK: bv64 := 0xff00
  const PERFEVTSEL_USR: bv64 := 0x1_0000
  const PERFEVTSEL_OS: bv64 := 0x2_0000
  const PERFEVTSEL_E: bv64 := 0x4_0000
  const PERFEVTSEL_PC: bv64 := 0x8_0000
  const PERFEVTSEL_INT: bv64 := 0x10_0000
  const PERFEVTSEL_ANY: bv64 := 0x20_0000
  const PERFEVTSEL_EN: bv64 := 0x40_0000
  const PERFEVTSEL_INV: bv64 := 0x80_0000
  const PERFEVTSEL_CMASK: bv64 := 0xff00_0000

  const EVENT_SELECT_WRITABLE: bv64 :=
    PERFEVTSEL_EVENT_SELECT | PERFEVTSEL_UMASK | PERFEVTSEL_USR | PERFEVTSEL_OS |
    PERFEVTSEL_E | PERFEVTSEL_PC | PERFEVTSEL_INT | PERFEVTSEL_ANY |
    PERFEVTSEL_EN | PERFEVTSEL_INV | PERFEVTSEL_CMASK

  const DEBUGCTL_FREEZE_PERFMON_ON_PMI: bv64 := 0x1000
  /** No IA32_DEBUGCTL feature is supported yet. */
  const DEBUG_CTRL_WRITABLE: bv64 := 0

  // ---------------------------------------------------------------------
  // CPUID leaf 0AH
  // ---------------------------------------------------------------------

  /** EAX, EBX and EDX of CPUID leaf 0AH. */
  datatype Leaf = Leaf(a: bv32, b: bv32, d: bv32)

  /** What the leaf reports, field by field. */
  datatype Caps = Caps(
    version: bv32,
    numProgrammable: bv32,
    programmableWidth: bv32,
    eventsLength: bv32,
    unsupportedEvents: bv32,
    numFixed: bv32,
    fixedWidth: bv32)

  /** The low `n` bits (all bits when n >= 32). */
  function LowBits(n: bv32): bv32
  {
    if n < 32 then (1 << n) - 1 else !0
  }

  /** The fields of a leaf, before any range check. */
  function Fields(leaf: Leaf): Caps
  {
    var eventsLength := (leaf.a >> 24) & 0xff;
    Caps(leaf.a & 0xff, (leaf.a >> 8) & 0xff, (leaf.a >> 16) & 0xff, eventsLength,
         leaf.b & LowBits(eventsLength), leaf.d & 0x1f, (leaf.d >> 5) & 0xff)
  }

  /** Capabilities the driver can work with: at most 8 programmable and 3
      fixed counters, widths in [16, 64], at most 7 event bits. */
  predicate Usable(c: Caps)
  {
    && c.numProgrammable <= 8
    && 16 <= c.programmableWidth <= 64
    && c.eventsLength <= 7
    && c.numFixed <= 3
    && 16 <= c.fixedWidth <= 64
  }

  /** The version and the unsupported-event bits fit their fields, as
      they do in every decoded leaf (FieldsFit). */
  predicate Fits(c: Caps)
  {
    c.version <= 0xff && c.unsupportedEvents & !LowBits(c.eventsLength) == 0
  }

  /** x86_perfmon_init's decoding of the leaf: the leaf's fields when they
      are usable, None (perfmon left unsupported) otherwise. */
  function DecodeCpuid(leaf: Leaf): (r: Option<Caps>)
    ensures r.Some? <==> Usable(Fields(leaf))
    ensures r.Some? ==> r.value == Fields(leaf)
  {
    var c := Fields(leaf);
    if c.numProgrammable > 8 then None
    else if c.programmableWidth < 16 || c.programmableWidth > 64 then None
    else if c.eventsLength > 7 then None
    else if c.numFixed > 3 then None
    else if c.fixedWidth < 16 || c.fixedWidth > 64 then None
    else Some(c)
  }

  /** The version and the unsupported-event bits read from a leaf always
      fit their fields. */
  lemma FieldsFit(leaf: Leaf)
    ensures Fits(Fields(leaf))
  {
  }

  /** The leaf a processor with capabilities `c` reports. */
  function LeafOf(c: Caps): Leaf
  {
    Leaf(c.version | (c.numProgrammable << 8) | (c.programmableWidth << 16) | (c.eventsLength << 24),
         c.unsupportedEvents,
         c.numFixed | (c.fixedWidth << 5))
  }

  /** Decoding the leaf of usable capabilities gives them back. */
  lemma DecodeCpuidRoundTrip(c: Caps)
    requires Usable(c) && Fits(c)
    ensures DecodeCpuid(LeafOf(c)) == Some(c)
  {
    LeafAFields(c);
    LeafDFields(c);
    assert Fields(LeafOf(c)) == c;
  }

  lemma LeafAFields(c: Caps)
    requires Usable(c) && Fits(c)
    ensures LeafOf(c).a & 0xff == c.version
    ensures (LeafOf(c).a >> 8) & 0xff == c.numProgrammable
    ensures (LeafOf(c).a >> 16) & 0xff == c.programmableWidth
    ensures (LeafOf(c).a >> 24) & 0xff == c.eventsLength
  {
  }

  lemma LeafDFields(c: Caps)
    requires Usable(c)
    ensures LeafOf(c).d & 0x1f == c.numFixed
    ensures (LeafOf(c).d >> 5) & 0xff == c.fixedWidth
  {
  }

  // ---------------------------------------------------------------------
  // Writable bits
  // ---------------------------------------------------------------------

  /** The IA32_PERF_GLOBAL_CTRL enable bits (and the IA32_PERF_GLOBAL_STATUS
      overflow bits) of n programmable counters: bits 0 .. n-1. */
  function PmcMask(n: bv32): bv64
    requires n <= 8
  {
    (1 << n) - 1
  }

  /** The enable (and overflow) bits of n fixed counters: bits 32 .. 32+n-1. */
  function FixedMask(n: bv32): bv64
    requires n <= 3
  {
    ((1 << n) - 1) << 32
  }

  /** The IA32_FIXED_CTR_CTRL fields of n fixed counters (EN, ANY and PMI,
      four bits per counter): the low 4n bits. */
  function FixedCtrlMask(n: bv32): bv64
    requires n <= 3
  {
    (1 << (4 * n)) - 1
  }

  /** The PMI bit (bit 3 of each 4-bit group) of n fixed counters. */
  function PmiMask(n: bv32): bv64
    requires n <= 3
  {
    0x8888_8888_8888_8888 & FixedCtrlMask(n)
  }

  /** One more programmable counter adds its bit. */
  lemma PmcStep(i: bv32)
    requires i < 8
    ensures PmcMask(i) | (1 << i) == PmcMask(i + 1)
  {
  }

  /** One more fixed counter adds its enable bit. */
  lemma FixedStep(i: bv32)
    requires i < 3
    ensures FixedMask(i) | (1 << (32 + i)) == FixedMask(i + 1)
  {
  }

  /** One more fixed counter adds its EN, ANY and PMI fields. */
  lemma FixedCtrlStep(i: bv32)
    requires i < 3
    ensures FixedCtrlMask(i) | (0x3 << (4 * i)) | (1 << ((4 * i) + 2)) | (1 << ((4 * i) + 3))
      == FixedCtrlMask(i + 1)
  {
  }

  /** One more fixed counter adds its PMI bit. */
  lemma PmiStep(i: bv32)
    requires i < 3
    ensures PmiMask(i) | (1 << ((4 * i) + 3)) == PmiMask(i + 1)
  {
  }

  lemma PmiNone()
    ensures PmiMask(0) == 0
  {
  }

  /** The PMI bits sampling mode sets are writable fixed-counter fields. */
  lemma PmiWritable(n: bv32)
    requires n <= 3
    ensures PmiMask(n) & !FixedCtrlMask(n) == 0
  {
  }

  /** Setting or clearing bits that are themselves writable keeps a
      register within its writable bits. */
  lemma SetClearKeepsWritable(x: bv64, bits: bv64, writable: bv64)
    requires x & !writable == 0 && bits & !writable == 0
    ensures (x | bits) & !writable == 0
    ensures (x & !bits) & !writable == 0
  {
  }

  /** The INT bit is an event-select field: setting or clearing it keeps a
      valid event within the writable bits, and the bit then says whether
      sampling is on. */
  lemma EventIntBit(e: bv64)
    requires e & !EVENT_SELECT_WRITABLE == 0
    ensures (e | PERFEVTSEL_INT) & !EVENT_SELECT_WRITABLE == 0
    ensures (e | PERFEVTSEL_INT) & PERFEVTSEL_INT != 0
    ensures (e & !PERFEVTSEL_INT) & !EVENT_SELECT_WRITABLE == 0
    ensures (e & !PERFEVTSEL_INT) & PERFEVTSEL_INT == 0
  {
  }

  /** The masks x86_perfmon_init builds counter by counter: the overflow
      and global enable bits of every counter, and every fixed counter's
      control fields. */
  method Masks(c: Caps) returns (statusBits: bv64, globalBits: bv64, fixedCtrlBits: bv64)
    requires Usable(c)
    ensures statusBits == PmcMask(c.numProgrammable) | FixedMask(c.numFixed)
    ensures globalBits == statusBits
    ensures fixedCtrlBits == FixedCtrlMask(c.numFixed)
  {
    var pmc: bv64 := 0;
    var i: bv32 := 0;
    while i < c.numProgrammable
      invariant i <= c.numProgrammable && pmc == PmcMask(i)
    {
      PmcStep(i);
      pmc := pmc | (1 << i);
      i := i + 1;
    }
    var fixed: bv64 := 0;
    fixedCtrlBits := 0;
    i := 0;
    while i < c.numFixed
      invariant i <= c.numFixed && fixed == FixedMask(i) && fixedCtrlBits == FixedCtrlMask(i)
    {
      FixedStep(i);
      FixedCtrlStep(i);
      fixed := fixed | (1 << (32 + i));
      fixedCtrlBits := fixedCtrlBits | (0x3 << (4 * i)) | (1 << ((4 * i) + 2)) | (1 << ((4 * i) + 3));
      i := i + 1;
    }
    statusBits := pmc | fixed;
    globalBits := pmc | fixed;
  }

  // ---------------------------------------------------------------------
  // Sampling
  // ---------------------------------------------------------------------

  /** A number of counters read from the leaf, as a number. */
  function Count(n: bv32): (r: nat)
    requires n <= 8
    ensures r <= 8
  {
    n as nat
  }

  /** A counter width read from the leaf, as a number. */
  function Width(w: bv32): (r: nat)
    requires 16 <= w <= 64
    ensures 16 <= r <= 64
    ensures r == 64 <==> w == 64
  {
    w as nat
  }

  /** The largest value a counter of the given width holds: 2^width - 1,
      the all-ones 64-bit value for a 64-bit counter. */
  function MaxCounterValue(width: nat): (m: nat)
    requires 16 <= width <= 64
    ensures width < 64 ==> m + 1 == Pow2(width)
  {
    if width < 64 then Pow2(width) - 1 else U64_MAX
  }

  /** The value a counter restarts from in sampling mode: ~0 - freq + 1 for
      a 64-bit counter, 2^width - freq otherwise. Counting up from it, the
      counter overflows after exactly `sampleFreq` events: the two add up
      to one past the largest counter value, and the value is itself a
      non-zero counter value. */
  function InitialValue(width: nat, sampleFreq: nat): (v: nat)
    requires 16 <= width <= 64 && 0 < sampleFreq <= MaxCounterValue(width)
    ensures v + sampleFreq == MaxCounterValue(width) + 1
    ensures 0 < v <= MaxCounterValue(width)
  {
    if width == 64 then U64_MAX - sampleFreq + 1 else Pow2(width) - sampleFreq
  }

  /** `n` copies of `value` followed by zeros, `max` entries in all. */
  function Filled(n: nat, max: nat, value: nat): (s: seq<nat>)
    requires n <= max
    ensures |s| == max
    ensures forall j :: 0 <= j < max ==> s[j] == if j < n then value else 0
  {
    seq(max, j => if j < n then value else 0)
  }

  /** The counters of one kind after staging: the first `n` restart from
      `initial` in sampling mode (a non-zero frequency), all others from 0. */
  function CounterStart(n: nat, max: nat, sampleFreq: nat, initial: nat): (s: seq<nat>)
    requires n <= max
    ensures |s| == max
    ensures forall j :: 0 <= j < max ==>
      s[j] == if j < n && sampleFreq != 0 then initial else 0
  {
    Filled(if sampleFreq != 0 then n else 0, max, initial)
  }

  /** memset and then the fill loop: `n` copies of `value`, then zeros. */
  method FillCounters(n: nat, max: nat, value: nat) returns (s: seq<nat>)
    requires n <= max
    ensures s == Filled(n, max, value)
  {
    s := seq(max, _ => 0);
    var j := 0;
    while j < n
      invariant j <= n && |s| == max
      invariant forall k :: 0 <= k < max ==> s[k] == if k < j then value else 0
    {
      s := s[j := value];
      j := j + 1;
    }
  }

  /** A register after sampling mode is set (the bits of `mask` on) or
      cleared (those bits off). */
  function Sampled(x: bv64, mask: bv64, enable: bool): bv64
  {
    if enable then x | mask else x & !mask
  }

  /** An event selection after sampling mode is set or cleared: the INT
      bit of a counter that exists; events of other counters are left
      alone. */
  function SampledEvent(e: bv64, present: bool, enable: bool): bv64
  {
    if present then Sampled(e, PERFEVTSEL_INT, enable) else e
  }

  /** The first loop of x86_ipm_set_sampling_mode_locked: the INT bit of
      each of the first n event selections set or cleared. */
  method SampleEvents(events: seq<bv64>, n: nat, enable: bool) returns (r: seq<bv64>)
    requires n <= |events|
    ensures |r| == |events|
    ensures forall k :: 0 <= k < |r| ==> r[k] == SampledEvent(events[k], k < n, enable)
  {
    r := events;
    var i := 0;
    while i < n
      invariant i <= n && |r| == |events|
      invariant forall k :: 0 <= k < |r| ==> r[k] == SampledEvent(events[k], k < i, enable)
    {
      r := r[i := SampledEvent(r[i], true, enable)];
      i := i + 1;
    }
  }

  /** The PMI bits the second loop of x86_ipm_set_sampling_mode_locked
      touches, one counter at a time. */
  method PmiBits(n: bv32) returns (bits: bv64)
    requires n <= 3
    ensures bits == PmiMask(n)
  {
    bits := 0;
    var j: bv32 := 0;
    PmiNone();
    while j < n
      invariant j <= n && bits == PmiMask(j)
    {
      PmiStep(j);
      bits := bits | (1 << (4 * j + 3));
      j := j + 1;
    }
  }

  /** The second loop of x86_ipm_set_sampling_mode_locked: the PMI bit of
      each of the n fixed counters set or cleared. */
  method SampleFixed(x: bv64, n: bv32, enable: bool) returns (r: bv64)
    requires n <= 3
    ensures r == Sampled(x, PmiMask(n), enable)
  {
    var bits := PmiBits(n);
    r := Sampled(x, bits, enable);
  }

  // ---------------------------------------------------------------------
  // Staged configuration and per-cpu data
  // ---------------------------------------------------------------------

  /** A configuration as passed from user space. */
  datatype Config = Config(
    globalCtrl: bv64,
    events: seq<bv64>,
    fixedCounterCtrl: bv64,
    debugCtrl: bv64,
    sampleFreq: nat)

  /** A configuration the hardware accepts for capabilities `c`: only
      writable bits, no freeze-on-PMI, and a sample frequency both counter
      widths can count down from. */
  ghost predicate Acceptable(c: Caps, config: Config)
    requires Usable(c) && |config.events| == MAX_PROGRAMMABLE_COUNTERS
  {
    RegistersAcceptable(c, config) && EventsAcceptable(c, config) && FrequencyAcceptable(c, config)
  }

  /** The control registers hold only writable bits, and freezing the
      counters on a PMI is not asked for. */
  ghost predicate RegistersAcceptable(c: Caps, config: Config)
    requires Usable(c)
  {
    RegistersWithin(config.globalCtrl, config.fixedCounterCtrl, config.debugCtrl,
                    GlobalCtrlWritable(c), FixedCtrlMask(c.numFixed))
  }

  /** The bits of IA32_PERF_GLOBAL_CTRL that may be set: the enable bit of
      every counter that exists. */
  function GlobalCtrlWritable(c: Caps): bv64
    requires Usable(c)
  {
    PmcMask(c.numProgrammable) | FixedMask(c.numFixed)
  }

  /** The register checks against given writable masks. */
  predicate RegistersWithin(globalCtrl: bv64, fixedCounterCtrl: bv64, debugCtrl: bv64,
                            globalWritable: bv64, fixedWritable: bv64)
  {
    && debugCtrl & DEBUGCTL_FREEZE_PERFMON_ON_PMI == 0
    && globalCtrl & !globalWritable == 0
    && fixedCounterCtrl & !fixedWritable == 0
    && debugCtrl & !DEBUG_CTRL_WRITABLE == 0
  }

  /** The event selection of every programmable counter holds only
      writable bits. */
  ghost predicate EventsAcceptable(c: Caps, config: Config)
    requires Usable(c) && |config.events| == MAX_PROGRAMMABLE_COUNTERS
  {
    forall i :: 0 <= i < Count(c.numProgrammable) ==>
      config.events[i] & !EVENT_SELECT_WRITABLE == 0
  }

  /** Both kinds of counter can count down from the sample frequency. */
  ghost predicate FrequencyAcceptable(c: Caps, config: Config)
    requires Usable(c)
  {
    && config.sampleFreq <= MaxCounterValue(Width(c.programmableWidth))
    && config.sampleFreq <= MaxCounterValue(Width(c.fixedWidth))
  }

  /** One cpu's saved counters and trace buffer. */
  datatype CpuData = CpuData(
    programmable: seq<nat>,
    fixed: seq<nat>,
    hasBuffer: bool,
    startOffset: nat,
    endOffset: nat)

  /** The event selections of a freshly allocated trace: all zero. */
  function NoEvents(): (s: seq<bv64>)
    ensures |s| == MAX_PROGRAMMABLE_COUNTERS
    ensures forall i :: 0 <= i < |s| ==> s[i] == 0
  {
    seq(MAX_PROGRAMMABLE_COUNTERS, _ => 0)
  }

  const EmptyCpu: CpuData :=
    CpuData(Filled(0, MAX_PROGRAMMABLE_COUNTERS, 0), Filled(0, MAX_FIXED_COUNTERS, 0), false, 0, 0)

  /** What x86_ipm_get_state reports. */
  datatype State = State(
    pmVersion: bv32,
    numFixed: bv32,
    numProgrammable: bv32,
    capabilities: bv32,
    alloced: bool,
    started: bool)

  /** The performance-monitor globals: what boot found (fixed from then
      on), the allocated per-trace state and the active flag. */
  class Perfmon {
    const numCpus: nat
    const supported: bool
    const caps: Caps
    const capabilities: bv32
    const counterStatusBits: bv64
    const globalCtrlWritable: bv64
    const fixedCtrlWritable: bv64

    var alloced: bool
    var active: bool
    var globalCtrl: bv64
    var events: seq<bv64>
    var fixedCounterCtrl: bv64
    var debugCtrl: bv64
    var sampleFreq: nat
    var programmableInitial: nat
    var fixedInitial: nat
    var cpus: seq<CpuData>

    /** What boot established: usable capabilities, and the status and
        writable masks cover exactly the counters that exist. */
    predicate Booted()
    {
      supported ==>
        && Usable(caps)
        && counterStatusBits == GlobalCtrlWritable(caps)
        && globalCtrlWritable == GlobalCtrlWritable(caps)
        && fixedCtrlWritable == FixedCtrlMask(caps.numFixed)
    }

    /** Trace state exists only where perfmon is supported, with one entry
        per cpu, and a trace is only active while it exists. */
    predicate Valid()
      reads this`alloced, this`active, this`events, this`cpus
    {
      && (alloced ==> supported)
      && (active ==> alloced)
      && |events| == MAX_PROGRAMMABLE_COUNTERS
      && (alloced ==> |cpus| == numCpus)
    }

    /** x86_perfmon_init: decode the leaf (None when the processor has no
        such leaf), then build the status and writable masks counter by
        counter. `pdcmCapabilities` is IA32_PERF_CAPABILITIES when the
        processor has it. */
    constructor(leaf: Option<Leaf>, pdcmCapabilities: Option<bv64>, numCpus: nat)
      ensures Valid() && Booted()
      ensures this.numCpus == numCpus && !alloced && !active
      ensures supported <==>
        leaf.Some? && DecodeCpuid(leaf.value).Some? &&
        DecodeCpuid(leaf.value).value.version >= MINIMUM_PERFMON_VERSION
      ensures supported ==> caps == Fields(leaf.value)
    {
      var decoded := if leaf.Some? then DecodeCpuid(leaf.value) else None;
      var c := if decoded.Some? then decoded.value else Caps(0, 0, 16, 0, 0, 0, 16);
      var statusBits, globalBits, fixedCtrlBits := Masks(c);
      this.numCpus := numCpus;
      caps := c;
      supported := decoded.Some? && c.version >= MINIMUM_PERFMON_VERSION;
      capabilities := if decoded.Some? && pdcmCapabilities.Some?
        then (pdcmCapabilities.value & 0xffff_ffff) as bv32 else 0;
      counterStatusBits := statusBits;
      globalCtrlWritable := globalBits;
      fixedCtrlWritable := fixedCtrlBits;
      alloced, active := false, false;
      globalCtrl, fixedCounterCtrl, debugCtrl := 0, 0, 0;
      events := NoEvents();
      sampleFreq, programmableInitial, fixedInitial := 0, 0, 0;
      cpus := [];
    }

    /** x86_ipm_get_state. */
    method GetState() returns (status: Status, state: State)
      ensures status == (if supported then Ok else ErrNotSupported)
      ensures supported ==>
        && state.alloced == alloced && state.started == active
        && state.numProgrammable == caps.numProgrammable
        && state.numFixed == caps.numFixed
        && state.pmVersion == caps.version
        && state.capabilities == capabilities
    {
      if !supported {
        return ErrNotSupported, State(0, 0, 0, 0, false, false);
      }
      return Ok, State(caps.version, caps.numFixed, caps.numProgrammable,
                       capabilities, alloced, active);
    }

    /** x86_ipm_init: allocate the trace state with one record per cpu
        (`allocOk` is whether the allocations succeed). */
    method Init(allocOk: bool) returns (status: Status)
      requires Valid()
      modifies this`alloced, this`globalCtrl, this`events, this`fixedCounterCtrl,
        this`debugCtrl, this`sampleFreq, this`programmableInitial, this`fixedInitial, this`cpus
      ensures Valid()
      ensures !supported ==> status == ErrNotSupported
      ensures supported && (active || old(alloced)) ==> status == ErrBadState
      ensures supported && !active && !old(alloced) ==>
        status == (if allocOk then Ok else ErrNoMemory)
      ensures status == Ok ==>
        && alloced && cpus == seq(numCpus, _ => EmptyCpu)
        && sampleFreq == 0 && globalCtrl == 0 && events == NoEvents()
        && fixedCounterCtrl == 0 && debugCtrl == 0 && programmableInitial == 0 && fixedInitial == 0
      ensures status != Ok ==> unchanged(this)
    {
      if !supported {
        return ErrNotSupported;
      }
      if active {
        return ErrBadState;
      }
      if alloced {
        return ErrBadState;
      }
      if !allocOk {
        return ErrNoMemory;
      }
      cpus := seq(numCpus, _ => EmptyCpu);
      globalCtrl, fixedCounterCtrl, debugCtrl := 0, 0, 0;
      events := NoEvents();
      sampleFreq, programmableInitial, fixedInitial := 0, 0, 0;
      alloced := true;
      return Ok;
    }

    /** x86_ipm_assign_buffer: give cpu `cpu` a trace buffer; only a buffer
        starting at offset 0, inside its VMO and at least one counting
        record long is accepted. */
    method AssignBuffer(cpu: nat, startOffset: nat, endOffset: nat, vmoSize: nat)
      returns (status: Status)
      requires Valid()
      modifies this`cpus
      ensures Valid()
      ensures !supported ==> status == ErrNotSupported
      ensures supported && (active || !alloced) ==> status == ErrBadState
      ensures supported && !active && alloced ==>
        (status == Ok <==>
          cpu < numCpus && startOffset == 0 && COUNTERS_RECORD_SIZE <= endOffset <= vmoSize)
      ensures supported && !active && alloced && status != Ok ==> status == ErrInvalidArgs
      ensures status == Ok ==>
        && |cpus| == |old(cpus)| && cpu < |cpus|
        && cpus[cpu] == old(cpus)[cpu].(hasBuffer := true, startOffset := 0, endOffset := endOffset)
        && forall c :: 0 <= c < |cpus| && c != cpu ==> cpus[c] == old(cpus)[c]
      ensures status != Ok ==> cpus == old(cpus)
    {
      if !supported {
        return ErrNotSupported;
      }
      if active {
        return ErrBadState;
      }
      if !alloced {
        return ErrBadState;
      }
      if cpu >= numCpus {
        return ErrInvalidArgs;
      }
      if startOffset != 0 {
        return ErrInvalidArgs;
      }
      var size := endOffset - startOffset;
      if size > vmoSize {
        return ErrInvalidArgs;
      }
      if size < COUNTERS_RECORD_SIZE {
        return ErrInvalidArgs;
      }
      cpus := cpus[cpu := cpus[cpu].(hasBuffer := true, startOffset := startOffset,
                                    endOffset := endOffset)];
      return Ok;
    }

    /** The checks of x86_ipm_stage_config: a configuration is refused as
        invalid exactly when it is not acceptable. */
    method CheckConfig(config: Config) returns (status: Status)
      requires Booted() && supported
      requires |config.events| == MAX_PROGRAMMABLE_COUNTERS
      ensures status == Ok <==> Acceptable(caps, config)
      ensures status != Ok ==> status == ErrInvalidArgs
    {
      var ok := CheckRegisters(config.globalCtrl, config.fixedCounterCtrl, config.debugCtrl);
      if !ok {
        return ErrInvalidArgs;
      }
      ok := CheckEvents(config);
      if !ok {
        return ErrInvalidArgs;
      }
      if config.sampleFreq > MaxCounterValue(Width(caps.programmableWidth)) ||
         config.sampleFreq > MaxCounterValue(Width(caps.fixedWidth)) {
        return ErrInvalidArgs;
      }
      return Ok;
    }

    /** The register checks of x86_ipm_stage_config, against the writable
        masks built at boot. */
    method CheckRegisters(globalCtrl: bv64, fixedCounterCtrl: bv64, debugCtrl: bv64)
      returns (ok: bool)
      ensures ok <==> RegistersWithin(globalCtrl, fixedCounterCtrl, debugCtrl,
                                      globalCtrlWritable, fixedCtrlWritable)
    {
      if debugCtrl & DEBUGCTL_FREEZE_PERFMON_ON_PMI != 0 {
        return false;
      }
      if globalCtrl & !globalCtrlWritable != 0 {
        return false;
      }
      if fixedCounterCtrl & !fixedCtrlWritable != 0 {
        return false;
      }
      if debugCtrl & !DEBUG_CTRL_WRITABLE != 0 {
        return false;
      }
      return true;
    }

    /** The loop of x86_ipm_stage_config over the programmable counters'
        event selections. */
    method CheckEvents(config: Config) returns (ok: bool)
      requires Usable(caps) && |config.events| == MAX_PROGRAMMABLE_COUNTERS
      ensures ok <==> EventsAcceptable(caps, config)
    {
      var n := Count(caps.numProgrammable);
      var i := 0;
      while i < n
        invariant i <= n
        invariant forall k :: 0 <= k < i ==> config.events[k] & !EVENT_SELECT_WRITABLE == 0
      {
        if config.events[i] & !EVENT_SELECT_WRITABLE != 0 {
          return false;
        }
        i := i + 1;
      }
      return true;
    }

    /** x86_ipm_set_sampling_mode_locked: set (or clear) the INT bit of each
        programmable event and the PMI bit of each fixed counter. */
    method SetSamplingMode(enable: bool)
      requires Valid() && supported && Usable(caps)
      modifies this`events, this`fixedCounterCtrl
      ensures Valid()
      ensures forall i :: 0 <= i < |events| ==>
        events[i] == SampledEvent(old(events)[i], i < Count(caps.numProgrammable), enable)
      ensures fixedCounterCtrl == Sampled(old(fixedCounterCtrl), PmiMask(caps.numFixed), enable)
    {
      SetEventSampling(enable);
      SetFixedSampling(enable);
    }

    /** The first loop of x86_ipm_set_sampling_mode_locked. */
    method SetEventSampling(enable: bool)
      requires Valid() && Usable(caps)
      modifies this`events
      ensures Valid()
      ensures forall i :: 0 <= i < |events| ==>
        events[i] == SampledEvent(old(events)[i], i < Count(caps.numProgrammable), enable)
    {
      events := SampleEvents(events, Count(caps.numProgrammable), enable);
    }

    /** The second loop of x86_ipm_set_sampling_mode_locked. */
    method SetFixedSampling(enable: bool)
      requires Valid() && Usable(caps)
      modifies this`fixedCounterCtrl
      ensures Valid()
      ensures fixedCounterCtrl == Sampled(old(fixedCounterCtrl), PmiMask(caps.numFixed), enable)
    {
      fixedCounterCtrl := SampleFixed(fixedCounterCtrl, caps.numFixed, enable);
    }

    /** The per-cpu loop at the end of x86_ipm_stage_config: every cpu's
        counters restart from zero, or in sampling mode the counters that
        exist restart from the initial values. */
    method ResetCounters()
      requires Valid() && supported && alloced && Usable(caps)
      modifies this`cpus
      ensures Valid()
      ensures |cpus| == |old(cpus)|
      ensures forall c :: 0 <= c < |cpus| ==>
        cpus[c] == old(cpus)[c].(
          programmable := CounterStart(Count(caps.numProgrammable), MAX_PROGRAMMABLE_COUNTERS,
                                       sampleFreq, programmableInitial),
          fixed := CounterStart(Count(caps.numFixed), MAX_FIXED_COUNTERS, sampleFreq, fixedInitial))
      ensures CountersStaged()
    {
      var programmable := FillCounters(
        if sampleFreq != 0 then Count(caps.numProgrammable) else 0,
        MAX_PROGRAMMABLE_COUNTERS, programmableInitial);
      var fixed := FillCounters(
        if sampleFreq != 0 then Count(caps.numFixed) else 0, MAX_FIXED_COUNTERS, fixedInitial);
      var c := 0;
      while c < numCpus
        invariant c <= numCpus && |cpus| == numCpus
        invariant forall k :: 0 <= k < numCpus ==>
          cpus[k] == if k >= c then old(cpus)[k]
                     else old(cpus)[k].(programmable := programmable, fixed := fixed)
      {
        cpus := cpus[c := cpus[c].(programmable := programmable, fixed := fixed)];
        c := c + 1;
      }
    }

    /** The trace state after a successful stage of `config`: the
        registers hold the configuration's values with the sampling bits
        set or cleared as sampling is on or off, and every existing
        counter starts where the mode requires. */
    ghost predicate Staged(config: Config)
      requires Valid() && Usable(caps) && |config.events| == MAX_PROGRAMMABLE_COUNTERS
      reads this
    {
      && RegistersStaged(config)
      && EventsStaged(config)
      && InitialStaged()
      && CountersStaged()
    }

    /** The control registers and the sample frequency after staging. */
    ghost predicate RegistersStaged(config: Config)
      requires Usable(caps)
      reads this`globalCtrl, this`fixedCounterCtrl, this`debugCtrl, this`sampleFreq
    {
      && globalCtrl == config.globalCtrl
      && fixedCounterCtrl == Sampled(config.fixedCounterCtrl, PmiMask(caps.numFixed), config.sampleFreq != 0)
      && debugCtrl == config.debugCtrl
      && sampleFreq == config.sampleFreq
    }

    /** The event selections after staging: those of existing counters
        with the INT bit set or cleared as sampling is on or off. */
    ghost predicate EventsStaged(config: Config)
      requires |events| == MAX_PROGRAMMABLE_COUNTERS == |config.events| && Usable(caps)
      reads this`events
    {
      forall i :: 0 <= i < MAX_PROGRAMMABLE_COUNTERS ==>
        events[i] == SampledEvent(config.events[i], i < Count(caps.numProgrammable), config.sampleFreq != 0)
    }

    /** In sampling mode both kinds of counter start the sample frequency
        below their overflow. */
    ghost predicate InitialStaged()
      requires Usable(caps)
      reads this`sampleFreq, this`programmableInitial, this`fixedInitial
    {
      sampleFreq != 0 ==>
        && sampleFreq <= MaxCounterValue(Width(caps.programmableWidth))
        && sampleFreq <= MaxCounterValue(Width(caps.fixedWidth))
        && programmableInitial == InitialValue(Width(caps.programmableWidth), sampleFreq)
        && fixedInitial == InitialValue(Width(caps.fixedWidth), sampleFreq)
    }

    /** Every cpu's counters start where the mode requires. */
    ghost predicate CountersStaged()
      requires Usable(caps)
      reads this`cpus, this`sampleFreq, this`programmableInitial, this`fixedInitial
    {
      forall c :: 0 <= c < |cpus| ==>
        && cpus[c].programmable == CounterStart(Count(caps.numProgrammable), MAX_PROGRAMMABLE_COUNTERS,
                                                sampleFreq, programmableInitial)
        && cpus[c].fixed == CounterStart(Count(caps.numFixed), MAX_FIXED_COUNTERS, sampleFreq, fixedInitial)
    }

    /** x86_ipm_stage_config: check the configuration, then apply it. */
    method StageConfig(config: Config) returns (status: Status)
      requires Valid() && Booted()
      requires |config.events| == MAX_PROGRAMMABLE_COUNTERS
      modifies this`globalCtrl, this`events, this`fixedCounterCtrl, this`debugCtrl,
        this`sampleFreq, this`programmableInitial, this`fixedInitial, this`cpus
      ensures Valid()
      ensures !supported ==> status == ErrNotSupported
      ensures supported && (active || !alloced) ==> status == ErrBadState
      ensures supported && !active && alloced ==>
        (status == Ok <==> Acceptable(caps, config)) &&
        (status != Ok ==> status == ErrInvalidArgs)
      ensures status != Ok ==>
        globalCtrl == old(globalCtrl) && events == old(events) && cpus == old(cpus) &&
        sampleFreq == old(sampleFreq)
      ensures status == Ok ==> supported && alloced && Usable(caps) && Staged(config)
    {
      if !supported {
        return ErrNotSupported;
      }
      if active || !alloced {
        return ErrBadState;
      }
      status := CheckConfig(config);
      if status != Ok {
        return;
      }
      Apply(config);
    }

    /** The second half of x86_ipm_stage_config, once the configuration is
        accepted: store it and prepare the sampling mode, then restart
        every counter. */
    method Apply(config: Config)
      requires Valid() && supported && alloced && Usable(caps)
      requires |config.events| == MAX_PROGRAMMABLE_COUNTERS && FrequencyAcceptable(caps, config)
      modifies this`globalCtrl, this`events, this`fixedCounterCtrl, this`debugCtrl,
        this`sampleFreq, this`programmableInitial, this`fixedInitial, this`cpus
      ensures Valid()
      ensures RegistersStaged(config)
      ensures EventsStaged(config)
      ensures InitialStaged()
      ensures CountersStaged()
    {
      StoreSampling(config);
      ResetCounters();
    }

    /** Store an accepted configuration, set or clear the sampling bits and,
        in sampling mode, compute the initial counter values. */
    method StoreSampling(config: Config)
      requires Valid() && supported && alloced && Usable(caps)
      requires |config.events| == MAX_PROGRAMMABLE_COUNTERS && FrequencyAcceptable(caps, config)
      modifies this`globalCtrl, this`events, this`fixedCounterCtrl, this`debugCtrl,
        this`sampleFreq, this`programmableInitial, this`fixedInitial
      ensures Valid()
      ensures RegistersStaged(config)
      ensures EventsStaged(config)
      ensures InitialStaged()
    {
      Store(config);
      SetSamplingMode(sampleFreq != 0);
      if sampleFreq != 0 {
        SetInitialValues(config);
      }
    }

    /** The initial values of sampling mode: each counter overflows after
        `sampleFreq` events. */
    method SetInitialValues(config: Config)
      requires Usable(caps) && FrequencyAcceptable(caps, config)
      requires sampleFreq == config.sampleFreq && 0 < sampleFreq
      modifies this`programmableInitial, this`fixedInitial
      ensures InitialStaged()
    {
      programmableInitial := InitialValue(Width(caps.programmableWidth), sampleFreq);
      fixedInitial := InitialValue(Width(caps.fixedWidth), sampleFreq);
    }

    /** Copy an accepted configuration into the trace state. */
    method Store(config: Config)
      requires Valid() && supported && alloced
      requires |config.events| == MAX_PROGRAMMABLE_COUNTERS
      modifies this`globalCtrl, this`events, this`fixedCounterCtrl, this`debugCtrl, this`sampleFreq
      ensures Valid()
      ensures globalCtrl == config.globalCtrl && events == config.events
      ensures fixedCounterCtrl == config.fixedCounterCtrl && debugCtrl == config.debugCtrl
      ensures sampleFreq == config.sampleFreq
    {
      globalCtrl := config.globalCtrl;
      events := config.events;
      fixedCounterCtrl := config.fixedCounterCtrl;
      debugCtrl := config.debugCtrl;
      sampleFreq := config.sampleFreq;
    }

    /** A staged configuration that was accepted keeps every register
        within its writable bits (the bits sampling mode touches are
        writable), never freezes on a PMI, and the INT bit of every
        existing counter says whether sampling is on. */
    lemma StagedWritable(config: Config)
      requires Valid() && Booted() && supported
      requires |config.events| == MAX_PROGRAMMABLE_COUNTERS && Acceptable(caps, config)
      requires Staged(config)
      ensures globalCtrl & !globalCtrlWritable == 0
      ensures fixedCounterCtrl & !fixedCtrlWritable == 0
      ensures debugCtrl == 0
      ensures forall i :: 0 <= i < Count(caps.numProgrammable) ==>
        events[i] & !EVENT_SELECT_WRITABLE == 0 &&
        (events[i] & PERFEVTSEL_INT != 0 <==> sampleFreq != 0)
    {
      PmiWritable(caps.numFixed);
      SetClearKeepsWritable(config.fixedCounterCtrl, PmiMask(caps.numFixed), fixedCtrlWritable);
      forall i | 0 <= i < Count(caps.numProgrammable)
        ensures events[i] & !EVENT_SELECT_WRITABLE == 0
        ensures events[i] & PERFEVTSEL_INT != 0 <==> sampleFreq != 0
      {
        EventIntBit(config.events[i]);
      }
    }

    /** x86_ipm_start: map every cpu's buffer (`mapStatus` is what the
        mapping reports) and mark the trace active. */
    method Start(mapStatus: Status) returns (status: Status)
      requires Valid()
      modifies this`active
      ensures Valid()
      ensures !supported ==> status == ErrNotSupported
      ensures supported && (old(active) || !alloced) ==> status == ErrBadState
      ensures supported && !old(active) && alloced ==> status == mapStatus
      ensures status == Ok <==> active && !old(active)
      ensures status != Ok ==> active == old(active)
    {
      if !supported {
        return ErrNotSupported;
      }
      if active {
        return ErrBadState;
      }
      if !alloced {
        return ErrBadState;
      }
      if mapStatus != Ok {
        return mapStatus;
      }
      active := true;
      return Ok;
    }

    /** x86_ipm_stop: stop collecting; allowed whenever the trace state
        exists, also when already stopped. */
    method Stop() returns (status: Status)
      requires Valid()
      modifies this`active
      ensures Valid()
      ensures !supported ==> status == ErrNotSupported
      ensures supported && !alloced ==> status == ErrBadState
      ensures supported && alloced ==> status == Ok
      ensures status == Ok ==> !active
      ensures status != Ok ==> active == old(active)
    {
      if !supported {
        return ErrNotSupported;
      }
      if !alloced {
        return ErrBadState;
      }
      active := false;
      return Ok;
    }

    /** x86_ipm_fini: reset the hardware and free the trace state; refused
        while a trace is active, allowed when nothing is allocated. */
    method Fini() returns (status: Status)
      requires Valid()
      modifies this`alloced, this`cpus
      ensures Valid()
      ensures !supported ==> status == ErrNotSupported
      ensures supported && active ==> status == ErrBadState
      ensures supported && !active ==> status == Ok
      ensures status == Ok ==> !alloced
      ensures status != Ok ==> alloced == old(alloced) && cpus == old(cpus)
    {
      if !supported {
        return ErrNotSupported;
      }
      if active {
        return ErrBadState;
      }
      alloced := false;
      cpus := [];
      return Ok;
    }
  }
}
