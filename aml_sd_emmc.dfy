/** The Amlogic SD/eMMC host controller: bus width, bus clock and bus
    timing written into the controller's config and clock registers, and
    the decoding of the status register at the end of a request. */
module AmlSdEmmc {
  import opened ZxStatus

  // Register layout of the Amlogic SD/eMMC controller.
  const CFG_BUS_WIDTH_MASK: bv32 := 0x0000_0003
  const CFG_BUS_WIDTH_1BIT: bv32 := 0
  const CFG_BUS_WIDTH_4BIT: bv32 := 1
  const CFG_BUS_WIDTH_8BIT: bv32 := 2
  const CFG_DDR: bv32 := 0x0000_0004
  const CFG_CHK_DS: bv32 := 0x0010_0000

  const CLOCK_DIV_MASK: bv32 := 0x0000_003f
  const CLOCK_SRC_MASK: bv32 := 0x0000_00c0
  const CLOCK_SRC_LOC: bv32 := 6

  const STATUS_RXD_ERR_MASK: bv32 := 0x0000_00ff
  const STATUS_TXD_ERR: bv32 := 0x0000_0100
  const STATUS_DESC_ERR: bv32 := 0x0000_0200
  const STATUS_RESP_ERR: bv32 := 0x0000_0400
  const STATUS_RESP_TIMEOUT: bv32 := 0x0000_0800
  const STATUS_DESC_TIMEOUT: bv32 := 0x0000_1000
  const STATUS_BUS_CORE_BUSY: bv32 := 0x8000_0000

  // Clock sources and the bus frequency range, in Hz.
  const MIN_FREQ: nat := 400_000
  const MAX_FREQ: nat := 120_000_000
  const FCLK_DIV2_MIN_FREQ: nat := 20_000_000
  const CTS_OSCIN_CLK_SRC: bv32 := 0
  const CTS_OSCIN_CLK_FREQ: nat := 24_000_000
  const FCLK_DIV2_SRC: bv32 := 1
  const FCLK_DIV2_FREQ: nat := 1_000_000_000

  /** update_bits: the field under `mask` takes `value` shifted to `loc`,
      every other bit is kept. */
  function UpdateBits(x: bv32, mask: bv32, loc: bv32, value: bv32): bv32
    requires loc < 32
  {
    (x & !mask) | ((value << loc) & mask)
  }

  /** get_bits. */
  function GetBits(x: bv32, mask: bv32, loc: bv32): bv32
    requires loc < 32
  {
    (x & mask) >> loc
  }

  datatype BusWidth = Width1 | Width4 | Width8 | OtherWidth(code: nat)

  /** The config register's bus-width field for each supported width. */
  function WidthField(bw: BusWidth): (field: bv32)
    requires !bw.OtherWidth?
    ensures field & CFG_BUS_WIDTH_MASK == field
  {
    match bw
    case Width1 => CFG_BUS_WIDTH_1BIT
    case Width4 => CFG_BUS_WIDTH_4BIT
    case Width8 => CFG_BUS_WIDTH_8BIT
  }

  /** The width a config register names. */
  function WidthOf(cfg: bv32): BusWidth
  {
    var f := cfg & CFG_BUS_WIDTH_MASK;
    if f == CFG_BUS_WIDTH_1BIT then Width1
    else if f == CFG_BUS_WIDTH_4BIT then Width4
    else if f == CFG_BUS_WIDTH_8BIT then Width8
    else OtherWidth(f as nat)
  }

  /** A width written to the config register reads back. */
  lemma WidthRoundTrip(bw: BusWidth, cfg: bv32)
    requires !bw.OtherWidth?
    ensures WidthOf(UpdateBits(cfg, CFG_BUS_WIDTH_MASK, 0, WidthField(bw))) == bw
  {
  }

  // ---------------------------------------------------------------------
  // Bus clock
  // ---------------------------------------------------------------------

  /** The requested frequency clamped to the controller's range; 0 (the
      clock switched off, not yet done by the driver) is left alone. */
  function ClampFreq(freq: nat): (f: nat)
    ensures freq == 0 ==> f == 0
    ensures freq > 0 ==> MIN_FREQ <= f <= MAX_FREQ
    ensures MIN_FREQ <= freq <= MAX_FREQ ==> f == freq
  {
    if freq == 0 then 0
    else if freq > MAX_FREQ then MAX_FREQ
    else if freq < MIN_FREQ then MIN_FREQ
    else freq
  }

  /** The source clock: the 24 MHz crystal below 20 MHz, fclk/2 above. */
  function SourceFreq(f: nat): nat
  {
    if f < FCLK_DIV2_MIN_FREQ then CTS_OSCIN_CLK_FREQ else FCLK_DIV2_FREQ
  }

  function SourceSelect(f: nat): (src: bv32)
    ensures src < 4
  {
    if f < FCLK_DIV2_MIN_FREQ then CTS_OSCIN_CLK_SRC else FCLK_DIV2_SRC
  }

  /** Halving the divider for DDR, rounding an odd divider up. */
  function HalveUp(d: nat): (h: nat)
    ensures d <= 2 * h <= d + 1
  {
    (if d % 2 == 1 then d + 1 else d) / 2
  }

  /** The clock divider set_bus_freq programs: the source frequency over
      the clamped frequency, halved (rounding up) in DDR mode. */
  function Divider(freq: nat, ddr: bool): nat
    requires freq > 0
  {
    var f := ClampFreq(freq);
    var d := SourceFreq(f) / f;
    if ddr then HalveUp(d) else d
  }

  /** The single-rate divider is the largest that does not take the bus
      below the clamped frequency, it is at least 1 and it fits the
      6-bit divider field. */
  lemma DividerBounds(freq: nat)
    requires freq > 0
    ensures var f := ClampFreq(freq); var d := Divider(freq, false);
      && d * f <= SourceFreq(f) < (d + 1) * f
      && 1 <= d <= 60
  {
    var f := ClampFreq(freq);
    var d := Divider(freq, false);
    if f < FCLK_DIV2_MIN_FREQ {
      assert d * f <= CTS_OSCIN_CLK_FREQ;
      DivAtMost(CTS_OSCIN_CLK_FREQ, f, MIN_FREQ, 60);
    } else {
      DivAtMost(FCLK_DIV2_FREQ, f, FCLK_DIV2_MIN_FREQ, 50);
    }
    DivAtLeastOne(SourceFreq(f), f);
  }

  lemma DivAtMost(n: nat, f: nat, lo: nat, q: nat)
    requires 0 < lo <= f && n == q * lo
    ensures n / f <= q
  {
  }

  lemma DivAtLeastOne(n: nat, f: nat)
    requires 0 < f <= n
    ensures n / f >= 1
  {
  }

  /** The DDR divider is the single-rate divider halved, rounding up, and
      still at least 1. */
  lemma DdrDivider(freq: nat)
    requires freq > 0
    ensures Divider(freq, true) == HalveUp(Divider(freq, false))
    ensures 1 <= Divider(freq, true) <= 30
  {
    DividerBounds(freq);
  }

  /** Either divider fits the 6-bit divider field. */
  lemma DividerFits(freq: nat, ddr: bool)
    requires freq > 0
    ensures Divider(freq, ddr) < 64
  {
    DividerBounds(freq);
    DdrDivider(freq);
  }

  // ---------------------------------------------------------------------
  // Request status
  // ---------------------------------------------------------------------

  /** Every status bit the request treats as an error. */
  const STATUS_ERRORS: bv32 := 0x8000_1fff

  /** The result of a request from the status register after the end of
      the descriptor chain, the checks taken in the driver's order. */
  function RequestStatus(statusIrq: bv32): (r: Status)
    ensures r == Ok <==> statusIrq & STATUS_ERRORS == 0
    ensures r in {Ok, ErrIoDataIntegrity, ErrIoInvalid, ErrTimedOut, ErrShouldWait}
    ensures statusIrq & (STATUS_RXD_ERR_MASK | STATUS_TXD_ERR) != 0 ==> r == ErrIoDataIntegrity
  {
    if statusIrq & STATUS_RXD_ERR_MASK != 0 then ErrIoDataIntegrity
    else if statusIrq & STATUS_TXD_ERR != 0 then ErrIoDataIntegrity
    else if statusIrq & STATUS_DESC_ERR != 0 then ErrIoInvalid
    else if statusIrq & STATUS_RESP_ERR != 0 then ErrIoDataIntegrity
    else if statusIrq & STATUS_RESP_TIMEOUT != 0 then ErrTimedOut
    else if statusIrq & STATUS_DESC_TIMEOUT != 0 then ErrTimedOut
    else if statusIrq & STATUS_BUS_CORE_BUSY != 0 then ErrShouldWait
    else Ok
  }

  /** A busy core is reported only when no transfer error came with it. */
  lemma BusyIsLastResort(statusIrq: bv32)
    requires RequestStatus(statusIrq) == ErrShouldWait
    ensures statusIrq & STATUS_BUS_CORE_BUSY != 0
    ensures statusIrq & (STATUS_ERRORS & !STATUS_BUS_CORE_BUSY) == 0
  {
  }

  datatype Timing = Hs400 | HsDdr | OtherTiming

  /** The controller's config and clock registers. */
  class SdEmmc {
    var cfg: bv32
    var clock: bv32

    constructor(cfg: bv32, clock: bv32)
      ensures this.cfg == cfg && this.clock == clock
    {
      this.cfg := cfg;
      this.clock := clock;
    }

    /** aml_sd_emmc_set_bus_width: 1, 4 or 8 data lines go to the width
        field; any other width is out of range and nothing is written. */
    method SetBusWidth(bw: BusWidth) returns (status: Status)
      modifies this`cfg
      ensures bw.OtherWidth? ==> status == ErrOutOfRange && cfg == old(cfg)
      ensures !bw.OtherWidth? ==>
        && status == Ok
        && WidthOf(cfg) == bw
        && cfg & !CFG_BUS_WIDTH_MASK == old(cfg) & !CFG_BUS_WIDTH_MASK
    {
      var config := cfg;
      match bw {
        case Width1 =>
          config := UpdateBits(config, CFG_BUS_WIDTH_MASK, 0, CFG_BUS_WIDTH_1BIT);
        case Width4 =>
          config := UpdateBits(config, CFG_BUS_WIDTH_MASK, 0, CFG_BUS_WIDTH_4BIT);
        case Width8 =>
          config := UpdateBits(config, CFG_BUS_WIDTH_MASK, 0, CFG_BUS_WIDTH_8BIT);
        case OtherWidth(_) =>
          return ErrOutOfRange;
      }
      cfg := config;
      return Ok;
    }

    /** aml_sd_emmc_set_bus_freq: the divider and source fields of the
        clock register are set for the clamped frequency; the other
        clock bits are kept. */
    method SetBusFreq(freq: nat) returns (status: Status)
      requires 0 < freq <= U32_MAX
      modifies this`clock
      ensures status == Ok
      ensures GetBits(clock, CLOCK_DIV_MASK, 0) == Divider(freq, cfg & CFG_DDR != 0) as bv32
      ensures GetBits(clock, CLOCK_SRC_MASK, CLOCK_SRC_LOC) == SourceSelect(ClampFreq(freq))
      ensures clock & !(CLOCK_DIV_MASK | CLOCK_SRC_MASK) == old(clock) & !(CLOCK_DIV_MASK | CLOCK_SRC_MASK)
    {
      var f := ClampFreq(freq);
      var clkSrc := SourceSelect(f);
      var ddr := cfg & CFG_DDR != 0;
      var clkDiv := Divider(freq, ddr);
      DividerFits(freq, ddr);
      clock := WriteClockFields(clock, clkDiv as bv32, clkSrc);
      return Ok;
    }

    /** aml_sd_emmc_set_bus_timing: HS400 and HS-DDR switch DDR on, HS400
        with data-strobe checking, and halve the current divider rounding
        up; any other timing switches DDR off. */
    method SetBusTiming(timing: Timing) returns (status: Status)
      modifies this`cfg, this`clock
      ensures status == Ok
      ensures timing == Hs400 ==> cfg == old(cfg) | CFG_CHK_DS | CFG_DDR
      ensures timing == HsDdr ==> cfg == (old(cfg) & !CFG_CHK_DS) | CFG_DDR
      ensures timing == OtherTiming ==> cfg == old(cfg) & !CFG_DDR && clock == old(clock)
      ensures timing != OtherTiming ==> clock == HalveDivider(old(clock))
    {
      var config := cfg;
      var clkVal := clock;
      if timing == Hs400 || timing == HsDdr {
        if timing == Hs400 {
          config := config | CFG_CHK_DS;
        } else {
          config := config & !CFG_CHK_DS;
        }
        config := config | CFG_DDR;
        clkVal := HalveDivider(clkVal);
      } else {
        config := config & !CFG_DDR;
      }
      cfg := config;
      clock := clkVal;
      return Ok;
    }
  }

  /** The divider and source-select fields written into the clock
      register: both read back and every other bit is kept. */
  function WriteClockFields(clock: bv32, div: bv32, src: bv32): (c: bv32)
    requires div < 64 && src < 4
    ensures GetBits(c, CLOCK_DIV_MASK, 0) == div
    ensures GetBits(c, CLOCK_SRC_MASK, CLOCK_SRC_LOC) == src
    ensures c & !(CLOCK_DIV_MASK | CLOCK_SRC_MASK) == clock & !(CLOCK_DIV_MASK | CLOCK_SRC_MASK)
  {
    UpdateBits(UpdateBits(clock, CLOCK_DIV_MASK, 0, div), CLOCK_SRC_MASK, CLOCK_SRC_LOC, src)
  }

  /** The divider field halved in place, an odd divider rounded up: twice
      the new divider is the old one or one more, and every other bit is
      kept. */
  function HalveDivider(clock: bv32): (c: bv32)
    ensures var d, h := GetBits(clock, CLOCK_DIV_MASK, 0), GetBits(c, CLOCK_DIV_MASK, 0);
      d <= h + h <= d + 1
    ensures c & !CLOCK_DIV_MASK == clock & !CLOCK_DIV_MASK
  {
    var d := GetBits(clock, CLOCK_DIV_MASK, 0);
    var h := (if d & 0x01 != 0 then d + 1 else d) / 2;
    UpdateBits(clock, CLOCK_DIV_MASK, 0, h)
  }
}
