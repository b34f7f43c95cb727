/** The user-space half of Intel performance monitoring: the cpu-trace
    driver's translation of a "simple" category configuration into the
    register values the kernel stages, and its trace state machine
    (allocate, configure, start, stop, free), which drives the kernel half
    modelled in PerfMon. */
module IntelPm {
  import opened ZxStatus
  import PerfMon

  /** Maximum space, in bytes, of the trace buffer of one cpu. */
  const MAX_PER_TRACE_SPACE: nat := 256 * 1024 * 1024

  // Bits of one counter's enable field in IA32_FIXED_CTR_CTRL.
  const FIXED_CTR_ENABLE_OS: bv64 := 1
  const FIXED_CTR_ENABLE_USR: bv64 := 2

  // Flags of an event description.
  const REG_FLAG_CMSK_MASK: bv32 := 0xff
  const REG_FLAG_ANYT: bv32 := 0x100
  const REG_FLAG_INV: bv32 := 0x200
  const REG_FLAG_EDG: bv32 := 0x400

  // ---------------------------------------------------------------------
  // What the driver learns at load time
  // ---------------------------------------------------------------------

  /** The driver's view of the performance-monitoring hardware. */
  datatype DriverCaps = DriverCaps(supported: bool, version: bv32, numProgrammable: nat, numFixed: bv32)

  /** ipm_init_once: no leaf 0AH means no support; otherwise the version
      is EAX[7:0] and support needs version 4; only then are the counter
      counts read, EAX[15:8] programmable and EDX[4:0] fixed. */
  function InitOnce(leaf: Option<PerfMon.Leaf>): (r: DriverCaps)
    ensures r.supported <==> leaf.Some? && leaf.value.a & 0xff >= 4
    ensures !r.supported ==> r.numProgrammable == 0 && r.numFixed == 0
    ensures r.numProgrammable <= 0xff && r.numFixed <= 0x1f
  {
    if leaf.None? then DriverCaps(false, 0, 0, 0)
    else
      var version := leaf.value.a & 0xff;
      if version < 4 then DriverCaps(false, version, 0, 0)
      else DriverCaps(true, version, ((leaf.value.a >> 8) & 0xff) as nat, leaf.value.d & 0x1f)
  }

  /** Whenever the kernel supports performance monitoring, so does the
      driver, and both read the same version and counter counts from the
      leaf. */
  lemma KernelSupportImpliesDriver(leaf: PerfMon.Leaf)
    requires PerfMon.DecodeCpuid(leaf).Some?
    requires PerfMon.DecodeCpuid(leaf).value.version >= PerfMon.MINIMUM_PERFMON_VERSION
    ensures InitOnce(Some(leaf)).supported
    ensures InitOnce(Some(leaf)).version == PerfMon.Fields(leaf).version
    ensures InitOnce(Some(leaf)).numProgrammable == PerfMon.Fields(leaf).numProgrammable as nat
    ensures InitOnce(Some(leaf)).numFixed == PerfMon.Fields(leaf).numFixed
  {
  }

  // ---------------------------------------------------------------------
  // The simple configuration
  // ---------------------------------------------------------------------

  /** The sampling mode chosen by the category word. */
  datatype SampleMode =
    | Tally
    | Sample1000
    | Sample5000
    | Sample10000
    | Sample50000
    | Sample100000
    | Sample500000
    | Sample1000000
    | UnknownMode

  /** A category word, decoded: sampling mode, the OS and USR bits, the
      three fixed-counter selections and the programmable category id
      (NONE_CATEGORY for none). */
  datatype SimpleConfig = SimpleConfig(
    mode: SampleMode,
    os: bool,
    usr: bool,
    fixed0: bool,
    fixed1: bool,
    fixed2: bool,
    programmable: nat)

  /** The programmable category id that selects no events. */
  const NONE_CATEGORY: nat := 0

  /** get_simple_config_sample_freq: the sampling period of each mode (0
      counts without sampling); any other mode is refused. */
  function SampleFreq(mode: SampleMode): (r: Result<nat>)
    ensures r.Success? <==> mode != UnknownMode
    ensures r.Success? ==> (r.value == 0 <==> mode == Tally)
    ensures r.Success? ==> r.value <= 1_000_000
    ensures r.Failure? ==> r.error == ErrInvalidArgs
  {
    match mode
    case Tally => Success(0)
    case Sample1000 => Success(1000)
    case Sample5000 => Success(5000)
    case Sample10000 => Success(10000)
    case Sample50000 => Success(50000)
    case Sample100000 => Success(100000)
    case Sample500000 => Success(500000)
    case Sample1000000 => Success(1000000)
    case UnknownMode => Failure(ErrInvalidArgs)
  }

  /** Different modes sample at different frequencies. */
  lemma SampleFreqInjective(m1: SampleMode, m2: SampleMode)
    requires SampleFreq(m1).Success? && SampleFreq(m2).Success?
    requires SampleFreq(m1).value == SampleFreq(m2).value
    ensures m1 == m2
  {
  }

  // ---------------------------------------------------------------------
  // Fixed counters
  // ---------------------------------------------------------------------

  /** The enable field fixed_to_config gives a selected fixed counter:
      ring 0 when OS is asked for, ring 3 when USR is. */
  function FixedEnable(os: bool, usr: bool): (e: bv64)
    ensures e & !3 == 0
    ensures (e & FIXED_CTR_ENABLE_OS != 0 <==> os) && (e & FIXED_CTR_ENABLE_USR != 0 <==> usr)
  {
    (if os then FIXED_CTR_ENABLE_OS else 0) | (if usr then FIXED_CTR_ENABLE_USR else 0)
  }

  /** The number of fixed counters fixed_to_config looks at: the
      hardware's, but at most the three it knows selections for. */
  function FixedLimit(numFixed: bv32): (n: bv32)
    ensures n <= 3 && n <= numFixed
    ensures n == 3 || n == numFixed
  {
    if numFixed > 3 then 3 else numFixed
  }

  /** The IA32_PERF_GLOBAL_CTRL bits fixed_to_config sets: the enable bit
      (32 + i) of each of the first FixedLimit(numFixed) fixed counters
      that is selected. */
  function FixedGlobal(sc: SimpleConfig, numFixed: bv32): bv64
  {
    var n := FixedLimit(numFixed);
    (if 0 < n && sc.fixed0 then 1 << 32 else 0) |
    (if 1 < n && sc.fixed1 then 1 << 33 else 0) |
    (if 2 < n && sc.fixed2 then 1 << 34 else 0)
  }

  /** The IA32_FIXED_CTR_CTRL value fixed_to_config builds: the enable
      field in the 4-bit group of each of the first FixedLimit(numFixed)
      fixed counters that is selected. */
  function FixedCtrl(sc: SimpleConfig, numFixed: bv32): bv64
  {
    var n := FixedLimit(numFixed);
    var e := FixedEnable(sc.os, sc.usr);
    (if 0 < n && sc.fixed0 then e else 0) |
    (if 1 < n && sc.fixed1 then e << 4 else 0) |
    (if 2 < n && sc.fixed2 then e << 8 else 0)
  }

  /** Fixed counter 0 is enabled exactly when it exists and is selected,
      and then with the requested rings. */
  lemma FixedCounter0(sc: SimpleConfig, numFixed: bv32)
    ensures FixedGlobal(sc, numFixed) & (1 << 32) != 0 <==> 0 < numFixed && sc.fixed0
    ensures FixedCtrl(sc, numFixed) & 0xf == if 0 < numFixed && sc.fixed0 then FixedEnable(sc.os, sc.usr) else 0
  {
  }

  /** Fixed counter 1 likewise. */
  lemma FixedCounter1(sc: SimpleConfig, numFixed: bv32)
    ensures FixedGlobal(sc, numFixed) & (1 << 33) != 0 <==> 1 < numFixed && sc.fixed1
    ensures (FixedCtrl(sc, numFixed) >> 4) & 0xf == if 1 < numFixed && sc.fixed1 then FixedEnable(sc.os, sc.usr) else 0
  {
  }

  /** Fixed counter 2 likewise. */
  lemma FixedCounter2(sc: SimpleConfig, numFixed: bv32)
    ensures FixedGlobal(sc, numFixed) & (1 << 34) != 0 <==> 2 < numFixed && sc.fixed2
    ensures (FixedCtrl(sc, numFixed) >> 8) & 0xf == if 2 < numFixed && sc.fixed2 then FixedEnable(sc.os, sc.usr) else 0
  {
  }

  /** Only the enable bits of fixed counters the hardware has are set in
      the global control. */
  lemma FixedGlobalOnlyExisting(sc: SimpleConfig, numFixed: bv32)
    requires numFixed <= 3
    ensures FixedGlobal(sc, numFixed) & !PerfMon.FixedMask(numFixed) == 0
  {
    if numFixed == 0 {
    } else if numFixed == 1 {
    } else if numFixed == 2 {
    } else {
    }
  }

  /** Only the fields of fixed counters the hardware has are set in the
      fixed-counter control. */
  lemma FixedCtrlOnlyExisting(sc: SimpleConfig, numFixed: bv32)
    requires numFixed <= 3
    ensures FixedCtrl(sc, numFixed) & !PerfMon.FixedCtrlMask(numFixed) == 0
  {
    if numFixed == 0 {
    } else if numFixed == 1 {
    } else if numFixed == 2 {
    } else {
    }
  }

  // ---------------------------------------------------------------------
  // Programmable counters
  // ---------------------------------------------------------------------

  /** An event description: event number, unit mask and IPM_REG_FLAG_*
      flags (edge, any thread, invert and the counter mask). */
  datatype PerfEvent = PerfEvent(event: bv32, umask: bv32, flags: bv32)

  /** The event and unit mask fit their 8-bit fields, as in every entry
      of the event tables. */
  predicate InRange(ev: PerfEvent)
  {
    ev.event <= 0xff && ev.umask <= 0xff
  }

  /** The IA32_PERFEVTSEL value category_to_config builds for one event:
      event and unit mask (shifted as 32-bit values), the OS and USR
      rings, edge, any-thread and invert from the flags, the counter mask
      from the flags' low byte, and EN. */
  function EventSelect(ev: PerfEvent, os: bool, usr: bool): bv64
  {
    (ev.event as bv64) |
    ((ev.umask << 8) as bv64) |
    (if os then PerfMon.PERFEVTSEL_OS else 0) |
    (if usr then PerfMon.PERFEVTSEL_USR else 0) |
    (if ev.flags & REG_FLAG_EDG != 0 then PerfMon.PERFEVTSEL_E else 0) |
    (if ev.flags & REG_FLAG_ANYT != 0 then PerfMon.PERFEVTSEL_ANY else 0) |
    (if ev.flags & REG_FLAG_INV != 0 then PerfMon.PERFEVTSEL_INV else 0) |
    (((ev.flags & REG_FLAG_CMSK_MASK) << 24) as bv64) |
    PerfMon.PERFEVTSEL_EN
  }

  /** Every in-range event the driver programs is enabled, and never
      asks for an interrupt (sampling is the kernel's to switch on). A
      unit mask past 8 bits would spill into the ring and interrupt
      bits. */
  lemma EventSelectEnabled(ev: PerfEvent, os: bool, usr: bool)
    requires InRange(ev)
    ensures EventSelect(ev, os, usr) & PerfMon.PERFEVTSEL_EN != 0
    ensures EventSelect(ev, os, usr) & PerfMon.PERFEVTSEL_INT == 0
  {
  }

  /** The rings counted are the requested ones. */
  lemma EventSelectRings(ev: PerfEvent, os: bool, usr: bool)
    requires InRange(ev)
    ensures EventSelect(ev, os, usr) & PerfMon.PERFEVTSEL_OS != 0 <==> os
    ensures EventSelect(ev, os, usr) & PerfMon.PERFEVTSEL_USR != 0 <==> usr
  {
  }

  /** An in-range event touches only the bits the kernel lets user space
      write. */
  lemma EventSelectWritable(ev: PerfEvent, os: bool, usr: bool)
    requires InRange(ev)
    ensures EventSelect(ev, os, usr) & !PerfMon.EVENT_SELECT_WRITABLE == 0
  {
  }

  /** The event code reads back from bits 0-7. */
  lemma EventSelectEvent(ev: PerfEvent, os: bool, usr: bool)
    requires InRange(ev)
    ensures (EventSelect(ev, os, usr) & 0xff) as bv32 == ev.event
  {
  }

  /** The unit mask reads back from bits 8-15. */
  lemma EventSelectUmask(ev: PerfEvent, os: bool, usr: bool)
    requires InRange(ev)
    ensures ((EventSelect(ev, os, usr) >> 8) & 0xff) as bv32 == ev.umask
  {
  }

  /** The counter mask reads back from bits 24-31. */
  lemma EventSelectCmask(ev: PerfEvent, os: bool, usr: bool)
    requires InRange(ev)
    ensures ((EventSelect(ev, os, usr) >> 24) & 0xff) as bv32 == ev.flags & REG_FLAG_CMSK_MASK
  {
  }

  /** Edge, any-thread and invert are set exactly when the event's
      flags ask for them. */
  lemma EventFlagBits(ev: PerfEvent, os: bool, usr: bool)
    requires InRange(ev)
    ensures EventSelect(ev, os, usr) & PerfMon.PERFEVTSEL_E != 0 <==> ev.flags & REG_FLAG_EDG != 0
    ensures EventSelect(ev, os, usr) & PerfMon.PERFEVTSEL_ANY != 0 <==> ev.flags & REG_FLAG_ANYT != 0
    ensures EventSelect(ev, os, usr) & PerfMon.PERFEVTSEL_INV != 0 <==> ev.flags & REG_FLAG_INV != 0
  {
  }

  /** The IA32_PERF_GLOBAL_CTRL enable bit of programmable counter i. */
  function PmcBit(i: nat): bv64
    requires i < PerfMon.MAX_PROGRAMMABLE_COUNTERS
  {
    if i == 0 then 1 else if i == 1 then 2 else if i == 2 then 4 else if i == 3 then 8
    else if i == 4 then 0x10 else if i == 5 then 0x20 else if i == 6 then 0x40 else 0x80
  }

  /** The enable bits of the first m programmable counters. */
  function PmcBits(m: nat): bv64
    requires m <= PerfMon.MAX_PROGRAMMABLE_COUNTERS
  {
    if m == 0 then 0 else if m == 1 then 1 else if m == 2 then 3 else if m == 3 then 7
    else if m == 4 then 0xf else if m == 5 then 0x1f else if m == 6 then 0x3f else if m == 7 then 0x7f
    else 0xff
  }

  /** One more counter adds its enable bit. */
  lemma PmcBitsStep(i: nat)
    requires i < PerfMon.MAX_PROGRAMMABLE_COUNTERS
    ensures PmcBits(i) | PmcBit(i) == PmcBits(i + 1)
  {
  }

  /** Counter i is enabled exactly when it is among the first m. */
  lemma PmcBitsHas(m: nat, i: nat)
    requires m <= PerfMon.MAX_PROGRAMMABLE_COUNTERS && i < PerfMon.MAX_PROGRAMMABLE_COUNTERS
    ensures PmcBits(m) & PmcBit(i) != 0 <==> i < m
  {
  }

  /** Fewer counters set fewer bits. */
  lemma PmcBitsMonotone(m: nat, n: nat)
    requires m <= n <= PerfMon.MAX_PROGRAMMABLE_COUNTERS
    ensures PmcBits(m) & !PmcBits(n) == 0
  {
  }

  /** The enable bits of all of the hardware's counters are the bits the
      kernel lets user space set. */
  lemma PmcBitsKernel(n: bv32)
    requires n <= 8
    ensures PmcBits(n as nat) == PerfMon.PmcMask(n)
  {
    if n == 0 {
    } else if n == 1 {
    } else if n == 2 {
    } else if n == 3 {
    } else if n == 4 {
    } else if n == 5 {
    } else if n == 6 {
    } else if n == 7 {
    } else {
    }
  }

  /** The number of programmable counters category_to_config fills: the
      category's events, but no more than the hardware has. */
  function Used(count: nat, numProgrammable: nat): (m: nat)
    ensures m <= count && m <= numProgrammable
    ensures m == count || m == numProgrammable
  {
    if count < numProgrammable then count else numProgrammable
  }

  /** The event selections category_to_config leaves: the first m events
      of the category, zero for the rest. */
  function ProgrammableEvents(spec: seq<PerfEvent>, m: nat, os: bool, usr: bool): (s: seq<bv64>)
    requires m <= |spec| && m <= PerfMon.MAX_PROGRAMMABLE_COUNTERS
    ensures |s| == PerfMon.MAX_PROGRAMMABLE_COUNTERS
  {
    seq(PerfMon.MAX_PROGRAMMABLE_COUNTERS, k requires 0 <= k => if k < m then EventSelect(spec[k], os, usr) else 0)
  }

  /** The events after programming the first i counters: the category's
      events there, zero after. */
  ghost predicate Programmed(events: seq<bv64>, spec: seq<PerfEvent>, i: nat, os: bool, usr: bool)
    requires i <= |spec| && i <= PerfMon.MAX_PROGRAMMABLE_COUNTERS
  {
    && |events| == PerfMon.MAX_PROGRAMMABLE_COUNTERS
    && (forall k :: 0 <= k < i ==> events[k] == EventSelect(spec[k], os, usr))
    && (forall k :: i <= k < |events| ==> events[k] == 0)
  }

  /** Programming counter i extends the programmed prefix by one. */
  lemma ProgrammedStep(events: seq<bv64>, spec: seq<PerfEvent>, i: nat, os: bool, usr: bool)
    requires i < |spec| && i < PerfMon.MAX_PROGRAMMABLE_COUNTERS
    requires Programmed(events, spec, i, os, usr)
    ensures Programmed(events[i := EventSelect(spec[i], os, usr)], spec, i + 1, os, usr)
  {
  }

  /** Once the first m counters are programmed, the events are those of
      ProgrammableEvents. */
  lemma ProgrammedAll(events: seq<bv64>, spec: seq<PerfEvent>, m: nat, os: bool, usr: bool)
    requires m <= |spec| && m <= PerfMon.MAX_PROGRAMMABLE_COUNTERS
    requires Programmed(events, spec, m, os, usr)
    ensures events == ProgrammableEvents(spec, m, os, usr)
  {
  }

  /** category_to_config: program counter i with the category's i-th
      event and set its global enable bit, for as many events as the
      category has and the hardware has counters. The events start out
      zero; the global enable bits are ORed into `globalIn`. */
  method CategoryToConfig(spec: seq<PerfEvent>, numProgrammable: nat, os: bool, usr: bool, globalIn: bv64)
    returns (events: seq<bv64>, globalCtrl: bv64)
    requires |spec| <= PerfMon.MAX_PROGRAMMABLE_COUNTERS
    ensures events == ProgrammableEvents(spec, Used(|spec|, numProgrammable), os, usr)
    ensures globalCtrl == globalIn | PmcBits(Used(|spec|, numProgrammable))
  {
    events := PerfMon.NoEvents();
    var pmc: bv64 := 0;
    var i: nat := 0;
    while i < |spec| && i < numProgrammable
      invariant i <= Used(|spec|, numProgrammable)
      invariant Programmed(events, spec, i, os, usr)
      invariant pmc == PmcBits(i)
    {
      ProgrammedStep(events, spec, i, os, usr);
      events := events[i := EventSelect(spec[i], os, usr)];
      PmcBitsStep(i);
      pmc := pmc | PmcBit(i);
      i := i + 1;
    }
    ProgrammedAll(events, spec, i, os, usr);
    globalCtrl := globalIn | pmc;
  }

  // ---------------------------------------------------------------------
  // simple_config_to_cpu_config
  // ---------------------------------------------------------------------

  /** The category tables: the events of each programmable category,
      indexed by category id. A category has at most as many events as
      there are programmable counters. */
  predicate CategoriesValid(categories: seq<seq<PerfEvent>>)
  {
    forall c :: 0 <= c < |categories| ==> |categories[c]| <= PerfMon.MAX_PROGRAMMABLE_COUNTERS
  }

  /** What simple_config_to_cpu_config accepts: a known sampling mode and
      a programmable category id inside the table. */
  predicate Convertible(sc: SimpleConfig, categories: seq<seq<PerfEvent>>)
  {
    sc.mode != UnknownMode && sc.programmable < |categories|
  }

  /** The global control simple_config_to_cpu_config builds: the fixed
      counters' enable bits when any is selected, and the enable bits of
      the first m programmable counters unless the category is NONE. */
  function GlobalCtrl(sc: SimpleConfig, numFixed: bv32, m: nat): bv64
    requires m <= PerfMon.MAX_PROGRAMMABLE_COUNTERS
  {
    var fixedGlobal := if sc.fixed0 || sc.fixed1 || sc.fixed2 then FixedGlobal(sc, numFixed) else 0;
    if sc.programmable == NONE_CATEGORY then fixedGlobal else fixedGlobal | PmcBits(m)
  }

  /** The configuration simple_config_to_cpu_config builds: the fixed
      counters when any is selected, the events of the programmable
      category unless it is NONE, no debug control, and the mode's sample
      frequency. */
  function Converted(sc: SimpleConfig, caps: DriverCaps, categories: seq<seq<PerfEvent>>): (config: PerfMon.Config)
    requires CategoriesValid(categories) && Convertible(sc, categories)
    ensures |config.events| == PerfMon.MAX_PROGRAMMABLE_COUNTERS
    ensures config.debugCtrl == 0 && config.sampleFreq == SampleFreq(sc.mode).value
  {
    var useFixed := sc.fixed0 || sc.fixed1 || sc.fixed2;
    var spec := categories[sc.programmable];
    var m := Used(|spec|, caps.numProgrammable);
    PerfMon.Config(
      GlobalCtrl(sc, caps.numFixed, m),
      if sc.programmable == NONE_CATEGORY then PerfMon.NoEvents()
      else ProgrammableEvents(spec, m, sc.os, sc.usr),
      if useFixed then FixedCtrl(sc, caps.numFixed) else 0,
      0,
      SampleFreq(sc.mode).value)
  }

  /** simple_config_to_cpu_config: an unknown sampling mode or a category
      id past the table is refused as invalid; otherwise the result is
      Converted. */
  method SimpleConfigToCpuConfig(sc: SimpleConfig, caps: DriverCaps, categories: seq<seq<PerfEvent>>)
    returns (status: Status, config: PerfMon.Config)
    requires CategoriesValid(categories)
    ensures status == Ok <==> Convertible(sc, categories)
    ensures status != Ok ==> status == ErrInvalidArgs
    ensures status == Ok ==> config == Converted(sc, caps, categories)
  {
    config := PerfMon.Config(0, PerfMon.NoEvents(), 0, 0, 0);
    var freq := SampleFreq(sc.mode);
    if freq.Failure? {
      return freq.error, config;
    }
    if sc.programmable >= |categories| {
      return ErrInvalidArgs, config;
    }
    config := BuildConfig(sc, caps, categories, freq.value);
    status := Ok;
  }

  /** The configuration of an accepted simple configuration, built as
      simple_config_to_cpu_config does: zero, then the fixed counters when
      any is selected, then the category's events unless it is NONE. */
  method BuildConfig(sc: SimpleConfig, caps: DriverCaps, categories: seq<seq<PerfEvent>>, freq: nat)
    returns (config: PerfMon.Config)
    requires CategoriesValid(categories) && Convertible(sc, categories)
    requires freq == SampleFreq(sc.mode).value
    ensures config == Converted(sc, caps, categories)
  {
    var globalCtrl: bv64 := 0;
    var fixedCtrl: bv64 := 0;
    if sc.fixed0 || sc.fixed1 || sc.fixed2 {
      globalCtrl := FixedGlobal(sc, caps.numFixed);
      fixedCtrl := FixedCtrl(sc, caps.numFixed);
    }
    var events := PerfMon.NoEvents();
    ghost var m := Used(|categories[sc.programmable]|, caps.numProgrammable);
    if sc.programmable != NONE_CATEGORY {
      events, globalCtrl := CategoryToConfig(categories[sc.programmable], caps.numProgrammable,
                                             sc.os, sc.usr, globalCtrl);
    }
    assert globalCtrl == GlobalCtrl(sc, caps.numFixed, m);
    config := PerfMon.Config(globalCtrl, events, fixedCtrl, 0, freq);
  }

  /** Bits inside two masks stay inside their union. */
  lemma WithinUnion(a: bv64, b: bv64, ma: bv64, mb: bv64)
    requires a & !ma == 0 && b & !mb == 0
    ensures (a | b) & !(mb | ma) == 0
    ensures a & !(mb | ma) == 0 && b & !(mb | ma) == 0
  {
  }

  /** The programmable-counter enable bits a conversion sets belong to
      counters the hardware has. */
  lemma PmcBitsWithin(numProgrammable: bv32, m: nat)
    requires numProgrammable <= 8 && m <= numProgrammable as nat
    ensures PmcBits(m) & !PerfMon.PmcMask(numProgrammable) == 0
  {
    PmcBitsMonotone(m, numProgrammable as nat);
    PmcBitsKernel(numProgrammable);
  }

  /** A value that is either zero or a value inside a mask is inside the
      mask. */
  lemma ZeroOrWithin(x: bv64, y: bv64, mask: bv64)
    requires x == y || x == 0
    requires y & !mask == 0
    ensures x & !mask == 0
  {
  }

  /** Every global-control value a conversion can produce sets only the
      enable bits of counters the hardware has. */
  lemma GlobalWithin(sc: SimpleConfig, numProgrammable: bv32, numFixed: bv32, m: nat)
    requires numProgrammable <= 8 && numFixed <= 3 && m <= numProgrammable as nat
    ensures GlobalCtrl(sc, numFixed, m) & !(PerfMon.PmcMask(numProgrammable) | PerfMon.FixedMask(numFixed)) == 0
  {
    FixedGlobalOnlyExisting(sc, numFixed);
    PmcBitsWithin(numProgrammable, m);
    WithinUnion(FixedGlobal(sc, numFixed), PmcBits(m),
                PerfMon.FixedMask(numFixed), PerfMon.PmcMask(numProgrammable));
  }

  /** Every event selection a conversion stages uses only the bits the
      kernel lets user space write. */
  lemma EventsWritable(spec: seq<PerfEvent>, m: nat, os: bool, usr: bool)
    requires m <= |spec| && m <= PerfMon.MAX_PROGRAMMABLE_COUNTERS
    requires forall ev :: ev in spec ==> InRange(ev)
    ensures forall k :: 0 <= k < PerfMon.MAX_PROGRAMMABLE_COUNTERS ==>
      ProgrammableEvents(spec, m, os, usr)[k] & !PerfMon.EVENT_SELECT_WRITABLE == 0
  {
    forall k | 0 <= k < PerfMon.MAX_PROGRAMMABLE_COUNTERS
      ensures ProgrammableEvents(spec, m, os, usr)[k] & !PerfMon.EVENT_SELECT_WRITABLE == 0
    {
      if k < m {
        EventSelectWritable(spec[k], os, usr);
      }
    }
  }

  /** The global control of a conversion enables only counters the
      hardware has. */
  lemma ConvertedGlobalWithin(sc: SimpleConfig, caps: DriverCaps, categories: seq<seq<PerfEvent>>,
                              numProgrammable: bv32, numFixed: bv32)
    requires CategoriesValid(categories) && Convertible(sc, categories)
    requires numProgrammable <= 8 && numFixed <= 3
    requires caps.numProgrammable == numProgrammable as nat && caps.numFixed == numFixed
    ensures Converted(sc, caps, categories).globalCtrl
              & !(PerfMon.PmcMask(numProgrammable) | PerfMon.FixedMask(numFixed)) == 0
  {
    GlobalWithin(sc, numProgrammable, numFixed, Used(|categories[sc.programmable]|, caps.numProgrammable));
  }

  /** The fixed-counter control of a conversion programs only counters
      the hardware has. */
  lemma ConvertedFixedWithin(sc: SimpleConfig, caps: DriverCaps, categories: seq<seq<PerfEvent>>)
    requires CategoriesValid(categories) && Convertible(sc, categories)
    requires caps.numFixed <= 3
    ensures Converted(sc, caps, categories).fixedCounterCtrl & !PerfMon.FixedCtrlMask(caps.numFixed) == 0
  {
    FixedCtrlOnlyExisting(sc, caps.numFixed);
    ZeroOrWithin(Converted(sc, caps, categories).fixedCounterCtrl, FixedCtrl(sc, caps.numFixed),
                 PerfMon.FixedCtrlMask(caps.numFixed));
  }

  /** Every event selection of a conversion uses only writable bits. */
  lemma ConvertedEventsWritable(sc: SimpleConfig, caps: DriverCaps, categories: seq<seq<PerfEvent>>)
    requires CategoriesValid(categories) && Convertible(sc, categories)
    requires forall ev :: ev in categories[sc.programmable] ==> InRange(ev)
    ensures forall k :: 0 <= k < PerfMon.MAX_PROGRAMMABLE_COUNTERS ==>
      Converted(sc, caps, categories).events[k] & !PerfMon.EVENT_SELECT_WRITABLE == 0
  {
    var spec := categories[sc.programmable];
    var m := Used(|spec|, caps.numProgrammable);
    EventsWritable(spec, m, sc.os, sc.usr);
  }

  /** The driver only stages what the kernel accepts: on hardware both
      support, with events of the documented ranges, the converted
      registers stay within the kernel's writable masks. */
  lemma ConvertedAcceptable(leaf: PerfMon.Leaf, sc: SimpleConfig, categories: seq<seq<PerfEvent>>)
    requires PerfMon.DecodeCpuid(leaf).Some?
    requires PerfMon.DecodeCpuid(leaf).value.version >= PerfMon.MINIMUM_PERFMON_VERSION
    requires CategoriesValid(categories) && Convertible(sc, categories)
    requires forall ev :: ev in categories[sc.programmable] ==> InRange(ev)
    ensures PerfMon.RegistersAcceptable(PerfMon.Fields(leaf), Converted(sc, InitOnce(Some(leaf)), categories))
    ensures PerfMon.EventsAcceptable(PerfMon.Fields(leaf), Converted(sc, InitOnce(Some(leaf)), categories))
  {
    var c := PerfMon.Fields(leaf);
    KernelSupportImpliesDriver(leaf);
    ConvertedGlobalWithin(sc, InitOnce(Some(leaf)), categories, c.numProgrammable, c.numFixed);
    ConvertedFixedWithin(sc, InitOnce(Some(leaf)), categories);
    ConvertedEventsWritable(sc, InitOnce(Some(leaf)), categories);
  }

  // ---------------------------------------------------------------------
  // The trace state machine
  // ---------------------------------------------------------------------

  /** The operations the driver asks of the kernel through
      zx_mtrace_control (kind IPM). */
  datatype MtraceOp =
    | MtraceInit
    | MtraceAssignBuffer(cpu: nat, size: nat)
    | MtraceStageConfig(config: PerfMon.Config)
    | MtraceStart
    | MtraceStop
    | MtraceFini

  /** The buffer assignments of a start: every cpu in order, each given
      the whole of its buffer. */
  function AssignBuffers(numCpus: nat, size: nat): (s: seq<MtraceOp>)
    ensures |s| == numCpus
    ensures forall cpu :: 0 <= cpu < numCpus ==> s[cpu] == MtraceAssignBuffer(cpu, size)
  {
    if numCpus == 0 then [] else AssignBuffers(numCpus - 1, size) + [MtraceAssignBuffer(numCpus - 1, size)]
  }

  /** A start that goes through: initialise, assign every buffer, stage
      the configuration, start. */
  function StartCalls(numCpus: nat, size: nat, config: PerfMon.Config): (s: seq<MtraceOp>)
    ensures |s| == numCpus + 3
    ensures s[0] == MtraceInit && s[|s| - 1] == MtraceStart
    ensures s[|s| - 2] == MtraceStageConfig(config)
  {
    [MtraceInit] + (AssignBuffers(numCpus, size) + [MtraceStageConfig(config), MtraceStart])
  }

  /** A start that failed after the kernel state was initialised: the
      kernel state was released again at the end. */
  predicate RolledBack(log: seq<MtraceOp>)
  {
    && |log| >= 2
    && log[0] == MtraceInit
    && log[|log| - 1] == MtraceFini
  }

  /** The cpu-trace device's performance-monitoring state (ipm_device and
      its one per-trace state). `hasTrace` stands for a non-null
      dev->ipm; `calls` records the kernel operations issued so far. */
  class IpmDevice {
    /** What ipm_init_once read at load time. */
    const caps: DriverCaps
    /** The number of cpus, zx_system_get_num_cpus. */
    const numCpus: nat
    /** The events of each category, indexed by category id. */
    const categories: seq<seq<PerfEvent>>

    var hasTrace: bool
    var active: bool
    var configured: bool
    var config: PerfMon.Config
    var numBuffers: nat
    var bufferSize: nat
    var calls: seq<MtraceOp>

    /** A trace, once allocated, has one buffer per cpu of an accepted
        size; tracing is only active on an hasTrace, configured trace
        that enables some counter. */
    predicate Valid()
      reads this`hasTrace, this`numBuffers, this`bufferSize, this`active, this`configured, this`config
    {
      && CategoriesValid(categories)
      && (hasTrace ==> numBuffers == numCpus && bufferSize <= MAX_PER_TRACE_SPACE)
      && (active ==> hasTrace && configured && config.globalCtrl != 0)
    }

    /** Load time: the hardware description is read once, and no trace
        exists. */
    constructor(leaf: Option<PerfMon.Leaf>, numCpus: nat, categories: seq<seq<PerfEvent>>)
      requires CategoriesValid(categories)
      ensures Valid()
      ensures caps == InitOnce(leaf) && this.numCpus == numCpus && this.categories == categories
      ensures !hasTrace && !active && calls == []
    {
      caps := InitOnce(leaf);
      this.numCpus := numCpus;
      this.categories := categories;
      hasTrace := false;
      active := false;
      configured := false;
      config := PerfMon.Config(0, PerfMon.NoEvents(), 0, 0, 0);
      numBuffers := 0;
      bufferSize := 0;
      calls := [];
    }

    /** ipm_alloc_trace: refused without hardware support, for a buffer
        over the limit, for a buffer count other than the cpu count, or
        when a trace exists; memory for the state and the buffers may
        run out (`memOk`, and `bufferInit` giving io_buffer_init's status
        for each cpu). Every refusal leaves the device as it was. */
    method AllocTrace(size: nat, count: nat, memOk: bool, bufferInit: seq<Status>) returns (status: Status)
      requires Valid()
      requires |bufferInit| == numCpus
      modifies this`hasTrace, this`active, this`configured, this`config, this`numBuffers, this`bufferSize
      ensures Valid()
      ensures !caps.supported ==> status == ErrNotSupported
      ensures caps.supported && (size > MAX_PER_TRACE_SPACE || count != numCpus) ==> status == ErrInvalidArgs
      ensures caps.supported && size <= MAX_PER_TRACE_SPACE && count == numCpus && old(hasTrace)
        ==> status == ErrBadState
      ensures status == Ok <==>
        && caps.supported && size <= MAX_PER_TRACE_SPACE && count == numCpus && !old(hasTrace)
        && memOk && forall cpu :: 0 <= cpu < numCpus ==> bufferInit[cpu] == Ok
      ensures status == Ok ==>
        hasTrace && !active && !configured && numBuffers == count && bufferSize == size
      ensures status != Ok ==>
        && hasTrace == old(hasTrace) && active == old(active) && configured == old(configured)
        && config == old(config) && numBuffers == old(numBuffers) && bufferSize == old(bufferSize)
    {
      if !caps.supported {
        return ErrNotSupported;
      }
      if size > MAX_PER_TRACE_SPACE {
        return ErrInvalidArgs;
      }
      if count != numCpus {
        return ErrInvalidArgs;
      }
      if hasTrace {
        return ErrBadState;
      }
      if !memOk {
        return ErrNoMemory;
      }
      var i := 0;
      while i < numCpus
        invariant i <= numCpus
        invariant forall cpu :: 0 <= cpu < i ==> bufferInit[cpu] == Ok
      {
        if bufferInit[i] != Ok {
          break;
        }
        i := i + 1;
      }
      if i != numCpus {
        // The buffers made so far are released with the state.
        return ErrNoMemory;
      }
      hasTrace := true;
      active := false;
      configured := false;
      config := PerfMon.Config(0, PerfMon.NoEvents(), 0, 0, 0);
      numBuffers := count;
      bufferSize := size;
      status := Ok;
    }

    /** ipm_free_trace: only an hasTrace trace that is not active can be
        freed. */
    method FreeTrace() returns (status: Status)
      requires Valid()
      modifies this`hasTrace
      ensures Valid()
      ensures status == Ok <==> old(hasTrace) && !active
      ensures status != Ok ==> status == ErrBadState && hasTrace == old(hasTrace)
      ensures status == Ok ==> !hasTrace
    {
      if !hasTrace || active {
        return ErrBadState;
      }
      hasTrace := false;
      status := Ok;
    }

    /** ipm_get_trace_config: the buffer count and size of the trace. */
    method GetTraceConfig() returns (status: Status, count: nat, size: nat)
      requires Valid()
      ensures status == Ok <==> hasTrace
      ensures status != Ok ==> status == ErrBadState
      ensures status == Ok ==> count == numCpus && size <= MAX_PER_TRACE_SPACE && size == bufferSize
    {
      if !hasTrace {
        return ErrBadState, 0, 0;
      }
      return Ok, numBuffers, bufferSize;
    }

    /** ipm_get_buffer_info: the index must name a buffer, and the trace
        must not be active. */
    method GetBufferInfo(index: nat) returns (status: Status)
      requires Valid()
      ensures !hasTrace ==> status == ErrBadState
      ensures hasTrace && index >= numCpus ==> status == ErrInvalidArgs
      ensures status == Ok <==> hasTrace && index < numCpus && !active
      ensures hasTrace && index < numCpus && active ==> status == ErrBadState
    {
      if !hasTrace {
        return ErrBadState;
      }
      if index >= numBuffers {
        return ErrInvalidArgs;
      }
      if active {
        return ErrBadState;
      }
      status := Ok;
    }

    /** ipm_get_buffer_handle: the descriptor must name a buffer; the
        handle duplication may fail with `dupStatus`. */
    method GetBufferHandle(descriptor: nat, dupStatus: Status) returns (status: Status)
      requires Valid()
      ensures !hasTrace ==> status == ErrBadState
      ensures hasTrace && descriptor >= numCpus ==> status == ErrInvalidArgs
      ensures hasTrace && descriptor < numCpus ==> status == dupStatus
    {
      if !hasTrace {
        return ErrBadState;
      }
      if descriptor >= numBuffers {
        return ErrInvalidArgs;
      }
      status := dupStatus;
    }

    /** ipm_stage_perf_config: the register values are staged as given,
        without validation, unless tracing is active. */
    method StagePerfConfig(c: PerfMon.Config) returns (status: Status)
      requires Valid()
      modifies this`config, this`configured
      ensures Valid()
      ensures status == Ok <==> hasTrace && !active
      ensures status != Ok ==> status == ErrBadState && config == old(config) && configured == old(configured)
      ensures status == Ok ==> config == c && configured
    {
      if !hasTrace || active {
        return ErrBadState;
      }
      config := c;
      configured := true;
      status := Ok;
    }

    /** ipm_stage_simple_perf_config: as StagePerfConfig, with the values
        converted from a simple configuration; a configuration the
        conversion refuses leaves the staged one in place. */
    method StageSimplePerfConfig(sc: SimpleConfig) returns (status: Status)
      requires Valid()
      modifies this`config, this`configured
      ensures Valid()
      ensures !hasTrace || active ==> status == ErrBadState
      ensures status == Ok <==> hasTrace && !active && Convertible(sc, categories)
      ensures status == Ok ==> config == Converted(sc, caps, categories) && configured
      ensures status != Ok ==> config == old(config) && configured == old(configured)
    {
      if !hasTrace || active {
        return ErrBadState;
      }
      var c;
      status, c := SimpleConfigToCpuConfig(sc, caps, categories);
      if status != Ok {
        return;
      }
      config := c;
      configured := true;
    }

    /** ipm_get_perf_config: the staged configuration, once there is one. */
    method GetPerfConfig() returns (status: Status, c: PerfMon.Config)
      requires Valid()
      ensures status == Ok <==> hasTrace && configured
      ensures status != Ok ==> status == ErrBadState
      ensures status == Ok ==> c == config
    {
      if !hasTrace || !configured {
        return ErrBadState, config;
      }
      return Ok, config;
    }

    /** The guards of ipm_start, before any kernel call. */
    predicate CanStart()
      reads this`hasTrace, this`active, this`configured, this`config
    {
      hasTrace && !active && configured && config.globalCtrl != 0
    }

    /** ipm_start: an allocated, inactive, configured trace enabling some
        counter is started by initialising the kernel's state, assigning
        each cpu its buffer, staging the configuration and starting. The
        kernel's answers are parameters; `log` is what is added to the
        record of kernel calls. Once the kernel state is initialised, a
        failure releases it again. */
    method Start(initStatus: Status, assignStatus: seq<Status>, stageStatus: Status, startStatus: Status)
      returns (status: Status, ghost log: seq<MtraceOp>)
      requires Valid()
      requires |assignStatus| == numCpus
      modifies this`active, this`calls
      ensures Valid()
      ensures calls == old(calls) + log
      ensures !old(hasTrace && !active && configured) ==> status == ErrBadState
      ensures old(hasTrace && !active && configured) && config.globalCtrl == 0 ==> status == ErrInvalidArgs
      ensures !old(CanStart()) ==> log == [] && active == old(active)
      ensures status == Ok <==>
        && old(CanStart()) && initStatus == Ok && stageStatus == Ok && startStatus == Ok
        && forall cpu :: 0 <= cpu < numCpus ==> assignStatus[cpu] == Ok
      ensures status == Ok ==> active && log == StartCalls(numCpus, bufferSize, config)
      ensures status != Ok ==> active == old(active)
      ensures old(CanStart()) && initStatus != Ok ==> status == initStatus && log == [MtraceInit]
      ensures old(CanStart()) && initStatus == Ok && status != Ok ==> RolledBack(log)
    {
      if !hasTrace || active || !configured {
        return ErrBadState, [];
      }
      if config.globalCtrl == 0 {
        return ErrInvalidArgs, [];
      }
      status, log := Launch(initStatus, assignStatus, stageStatus, startStatus);
    }

    /** The kernel calls of ipm_start, once its guards have passed. */
    method Launch(initStatus: Status, assignStatus: seq<Status>, stageStatus: Status, startStatus: Status)
      returns (status: Status, ghost log: seq<MtraceOp>)
      requires Valid() && CanStart()
      requires |assignStatus| == numCpus
      modifies this`active, this`calls
      ensures Valid()
      ensures calls == old(calls) + log
      ensures status == Ok <==>
        && initStatus == Ok && stageStatus == Ok && startStatus == Ok
        && forall cpu :: 0 <= cpu < numCpus ==> assignStatus[cpu] == Ok
      ensures status == Ok ==> active && log == StartCalls(numCpus, bufferSize, config)
      ensures status != Ok ==> !active
      ensures initStatus != Ok ==> status == initStatus && log == [MtraceInit]
      ensures initStatus == Ok && status != Ok ==> RolledBack(log)
    {
      calls := calls + [MtraceInit];
      if initStatus != Ok {
        return initStatus, [MtraceInit];
      }
      ghost var runLog;
      status, runLog := Run(assignStatus, stageStatus, startStatus);
      log := [MtraceInit] + runLog;
    }

    /** The kernel calls of ipm_start after the kernel state is
        initialised: assign the buffers, then stage and start; the first
        refusal releases the kernel state. */
    method Run(assignStatus: seq<Status>, stageStatus: Status, startStatus: Status)
      returns (status: Status, ghost log: seq<MtraceOp>)
      requires Valid() && CanStart()
      requires |assignStatus| == numCpus
      modifies this`active, this`calls
      ensures Valid()
      ensures calls == old(calls) + log
      ensures status == Ok <==>
        && stageStatus == Ok && startStatus == Ok
        && forall cpu :: 0 <= cpu < numCpus ==> assignStatus[cpu] == Ok
      ensures status == Ok ==>
        active && log == AssignBuffers(numCpus, bufferSize) + [MtraceStageConfig(config), MtraceStart]
      ensures status != Ok ==> !active && |log| >= 1 && log[|log| - 1] == MtraceFini
    {
      ghost var failedCpu, assignLog;
      status, failedCpu, assignLog := AssignAll(assignStatus);
      if status != Ok {
        calls := calls + [MtraceFini];
        return status, assignLog + [MtraceFini];
      }
      ghost var commitLog;
      status, commitLog := Commit(stageStatus, startStatus);
      log := assignLog + commitLog;
    }

    /** The last kernel calls of ipm_start: stage the configuration, then
        start; a refusal of either releases the kernel state. */
    method Commit(stageStatus: Status, startStatus: Status) returns (status: Status, ghost log: seq<MtraceOp>)
      requires Valid() && CanStart()
      modifies this`active, this`calls
      ensures Valid()
      ensures calls == old(calls) + log
      ensures status == Ok <==> stageStatus == Ok && startStatus == Ok
      ensures status == Ok ==> active && log == [MtraceStageConfig(config), MtraceStart]
      ensures status != Ok ==> !active && |log| >= 2 && log[|log| - 1] == MtraceFini
    {
      calls := calls + [MtraceStageConfig(config)];
      if stageStatus != Ok {
        calls := calls + [MtraceFini];
        return stageStatus, [MtraceStageConfig(config), MtraceFini];
      }
      calls := calls + [MtraceStart];
      if startStatus != Ok {
        calls := calls + [MtraceFini];
        return startStatus, [MtraceStageConfig(config), MtraceStart, MtraceFini];
      }
      active := true;
      return Ok, [MtraceStageConfig(config), MtraceStart];
    }

    /** The buffer-assignment loop of ipm_start: cpus in order, stopping
        at the first the kernel refuses (`failed` is its index). */
    method AssignAll(assignStatus: seq<Status>) returns (status: Status, ghost failed: nat, ghost log: seq<MtraceOp>)
      requires |assignStatus| == numCpus
      modifies this`calls
      ensures calls == old(calls) + log
      ensures status == Ok <==> forall cpu :: 0 <= cpu < numCpus ==> assignStatus[cpu] == Ok
      ensures status == Ok ==> log == AssignBuffers(numCpus, bufferSize)
      ensures status != Ok ==>
        && failed < numCpus && status == assignStatus[failed]
        && log == AssignBuffers(failed + 1, bufferSize)
    {
      var cpu := 0;
      while cpu < numCpus
        invariant cpu <= numCpus
        invariant calls == old(calls) + AssignBuffers(cpu, bufferSize)
        invariant forall k :: 0 <= k < cpu ==> assignStatus[k] == Ok
      {
        calls := calls + [MtraceAssignBuffer(cpu, bufferSize)];
        if assignStatus[cpu] != Ok {
          return assignStatus[cpu], cpu, AssignBuffers(cpu + 1, bufferSize);
        }
        cpu := cpu + 1;
      }
      return Ok, 0, AssignBuffers(numCpus, bufferSize);
    }

    /** ipm_stop: the kernel is asked to stop; only when it does is the
        trace inactive, and the kernel state released. Stopping does not
        require an active trace. */
    method Stop(stopStatus: Status, finiStatus: Status) returns (status: Status)
      requires Valid()
      modifies this`active, this`calls
      ensures Valid()
      ensures !hasTrace ==> status == ErrBadState && active == old(active) && calls == old(calls)
      ensures hasTrace && stopStatus != Ok ==>
        status == stopStatus && active == old(active) && calls == old(calls) + [MtraceStop]
      ensures hasTrace && stopStatus == Ok ==>
        status == finiStatus && !active && calls == old(calls) + [MtraceStop, MtraceFini]
    {
      if !hasTrace {
        return ErrBadState;
      }
      calls := calls + [MtraceStop];
      status := stopStatus;
      if stopStatus == Ok {
        active := false;
        calls := calls + [MtraceFini];
        status := finiStatus;
      }
    }

    /** ipm_release: stop, then free; the trace is gone whenever the
        kernel stopped it. */
    method Release(stopStatus: Status, finiStatus: Status)
      requires Valid()
      modifies this`active, this`calls, this`hasTrace
      ensures Valid()
      ensures old(hasTrace) && stopStatus == Ok ==> !hasTrace && !active
      ensures !old(hasTrace) ==> !hasTrace && active == old(active)
    {
      var _ := Stop(stopStatus, finiStatus);
      var _ := FreeTrace();
    }
  }
}
