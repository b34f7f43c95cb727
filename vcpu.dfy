/** The legacy devices a virtual CPU emulates for its guest: the real-time
    clock's BCD registers, the I/O APIC's register window, the I/O ports of
    the RTC, the i8042, the power-management block and the type 1 PCI
    configuration mechanism, and the serial port's transmit buffer.
    Registers are bit-vectors of the source's widths; the ports are named
    by what they address, as their numbers come from a header that is not
    part of this model. */
module Vcpu {
  import opened ZxStatus
  import opened Bits
  import Pci

  // ---------------------------------------------------------------------
  // Binary-coded decimal and the real-time clock

  /** to_bcd: the tens of a byte in the high nibble and its units in the
      low nibble, cut to a byte. The units are below 16, so the source's
      OR of the two nibbles is their sum. */
  function ToBcd(b: nat): (r: nat)
    requires b < 256
    ensures r < 256
  {
    ((b / 10) * 16 + b % 10) % 256
  }

  /** The number a BCD byte stands for. */
  function FromBcd(r: nat): nat
  {
    (r / 16) * 10 + r % 16
  }

  /** A byte whose two nibbles are decimal digits. */
  predicate IsBcd(r: nat)
  {
    r < 256 && r / 16 < 10 && r % 16 < 10
  }

  /** Every number below 100 becomes a BCD byte that stands for it. */
  lemma BcdRoundTrip(b: nat)
    requires b < 100
    ensures IsBcd(ToBcd(b)) && FromBcd(ToBcd(b)) == b
  {
    var t, u := b / 10, b % 10;
    assert b == 10 * t + u;
    assert t < 10;
    var r := 16 * t + u;
    assert r < 160;
    assert ToBcd(b) == r;
    assert r / 16 == t && r % 16 == u by {
      assert r == 16 * t + u && u < 16;
    }
  }

  /** Two numbers below 100 have different BCD bytes. */
  lemma BcdInjective(a: nat, b: nat)
    requires a < 100 && b < 100 && ToBcd(a) == ToBcd(b)
    ensures a == b
  {
    BcdRoundTrip(a);
    BcdRoundTrip(b);
  }

  /** The broken-down local time the clock registers report (struct tm):
      `mon` counts months from 0 and `year` years from 1900. */
  datatype Tm = Tm(sec: int, min: int, hour: int, mday: int, mon: int, year: int, isdst: bool)

  /** A time in the range the clock can show: this century, fields in
      their calendar ranges (a leap second included). */
  predicate TmOk(t: Tm)
  {
    0 <= t.sec <= 60 && 0 <= t.min <= 59 && 0 <= t.hour <= 23 &&
    1 <= t.mday <= 31 && 0 <= t.mon <= 11 && 100 <= t.year <= 199
  }

  /** Clock register indexes. */
  const RTC_SECONDS: nat := 0
  const RTC_MINUTES: nat := 2
  const RTC_HOURS: nat := 4
  const RTC_DAY_OF_MONTH: nat := 7
  const RTC_MONTH: nat := 8
  const RTC_YEAR: nat := 9
  const RTC_A: nat := 10
  const RTC_B: nat := 11
  /** Register B flags. */
  const RTC_B_DAYLIGHT_SAVINGS: nat := 1
  const RTC_B_HOUR_FORMAT: nat := 2

  /** An int handed to a uint8_t parameter: reduced modulo 256. */
  function U8(x: int): (r: nat)
    ensures r < 256 && (0 <= x < 256 ==> r == x)
  {
    x % 256
  }

  /** The value of clock register `index` for local time `t`, with the
      month register holding `month`; None for a register the clock does
      not have. */
  function RtcRegister(index: nat, t: Tm, month: int): Option<nat>
  {
    if index == RTC_SECONDS then Some(ToBcd(U8(t.sec)))
    else if index == RTC_MINUTES then Some(ToBcd(U8(t.min)))
    else if index == RTC_HOURS then Some(ToBcd(U8(t.hour)))
    else if index == RTC_DAY_OF_MONTH then Some(ToBcd(U8(t.mday)))
    else if index == RTC_MONTH then Some(ToBcd(U8(month)))
    else if index == RTC_YEAR then Some(ToBcd(U8(t.year - 100)))
    else if index == RTC_A then Some(0)
    else if index == RTC_B then Some(if t.isdst then RTC_B_HOUR_FORMAT + RTC_B_DAYLIGHT_SAVINGS else RTC_B_HOUR_FORMAT)
    else None
  }

  /** handle_rtc as written: the month register is loaded from the
      zero-based month. `now` is the local time, None when it cannot be
      had, which is INTERNAL whatever the register. */
  function RtcAsWritten(index: nat, now: Option<Tm>): Result<nat>
  {
    if now.None? then Failure(ErrInternal)
    else match RtcRegister(index, now.value, now.value.mon)
      case None => Failure(ErrNotSupported)
      case Some(v) => Success(v)
  }

  /** handle_rtc with the month register counting from 1, as the clock's
      month register does. */
  function Rtc(index: nat, now: Option<Tm>): Result<nat>
  {
    if now.None? then Failure(ErrInternal)
    else match RtcRegister(index, now.value, now.value.mon + 1)
      case None => Failure(ErrNotSupported)
      case Some(v) => Success(v)
  }

  /** What a clock register shows, by the calendar: seconds, minutes,
      hours, day of the month, month from 1 to 12 and year of the
      century. */
  function Calendar(t: Tm, index: nat): int
  {
    if index == RTC_SECONDS then t.sec
    else if index == RTC_MINUTES then t.min
    else if index == RTC_HOURS then t.hour
    else if index == RTC_DAY_OF_MONTH then t.mday
    else if index == RTC_MONTH then t.mon + 1
    else t.year - 100
  }

  /** The time registers read, in BCD, the calendar value of a valid
      local time. */
  lemma RtcReadsCalendar(index: nat, t: Tm)
    requires TmOk(t)
    requires index in {RTC_SECONDS, RTC_MINUTES, RTC_HOURS, RTC_DAY_OF_MONTH, RTC_MONTH, RTC_YEAR}
    ensures Rtc(index, Some(t)).Success?
    ensures IsBcd(Rtc(index, Some(t)).value) && FromBcd(Rtc(index, Some(t)).value) == Calendar(t, index)
  {
    var c := Calendar(t, index);
    assert 0 <= c < 100;
    assert Rtc(index, Some(t)) == Success(ToBcd(c));
    BcdRoundTrip(c);
  }

  /** The month register reads a BCD month from 1 to 12. */
  lemma RtcMonthInRange(t: Tm)
    requires TmOk(t)
    ensures Rtc(RTC_MONTH, Some(t)).Success?
    ensures 1 <= FromBcd(Rtc(RTC_MONTH, Some(t)).value) <= 12
  {
    RtcReadsCalendar(RTC_MONTH, t);
  }

  /** As written, the month register reads one less than the month: in
      January it reads 0, which is no month. */
  lemma RtcMonthAsWrittenOffByOne(t: Tm)
    requires TmOk(t)
    ensures RtcAsWritten(RTC_MONTH, Some(t)).Success?
    ensures FromBcd(RtcAsWritten(RTC_MONTH, Some(t)).value) == Calendar(t, RTC_MONTH) - 1
    ensures t.mon == 0 ==> RtcAsWritten(RTC_MONTH, Some(t)) == Success(0)
  {
    assert RtcAsWritten(RTC_MONTH, Some(t)) == Success(ToBcd(t.mon));
    BcdRoundTrip(t.mon);
  }

  /** Register A reads 0 (no update in progress); register B has the
      24-hour flag and the daylight-saving flag when it is in effect;
      any other register is NOT_SUPPORTED, and no local time is INTERNAL
      for every register. */
  lemma RtcControl(index: nat, now: Option<Tm>)
    ensures now.None? ==> Rtc(index, now) == Failure(ErrInternal)
    ensures now.Some? && index == RTC_A ==> Rtc(index, now) == Success(0)
    ensures now.Some? && index == RTC_B ==>
      Rtc(index, now).Success? && Rtc(index, now).value % 4 / 2 == 1 &&
      (Rtc(index, now).value % 2 == 1 <==> now.value.isdst)
    ensures now.Some? && !(index in {0, 2, 4, 7, 8, 9, 10, 11}) ==> Rtc(index, now) == Failure(ErrNotSupported)
  {
  }

  // ---------------------------------------------------------------------
  // The I/O APIC's register window

  /** The two registers of the I/O APIC's memory window. */
  const IOREGSEL: nat := 0x00
  const IOWIN: nat := 0x10
  /** Registers selected through IOREGSEL. */
  const IO_APIC_ID: nat := 0x00
  const IO_APIC_VER: nat := 0x01
  const IO_APIC_ARBITRATION: nat := 0x02
  const IO_APIC_VERSION: bv32 := 0x11
  const FIRST_REDIRECT: nat := 0x10

  /** A decoded guest instruction touching the window: a load, or a store
      of a 32-bit value. */
  datatype Mmio = Load | Store(value: bv32)

  /** The version register: the index of the last redirection entry
      (two offsets per entry) in bits 16 up, the version in the low
      byte. */
  function VersionWord(offsets: nat): bv32
    requires 2 <= offsets <= 0xF0
  {
    (((offsets / 2 - 1) as bv32) << 16) | IO_APIC_VERSION
  }

  /** The version word carries the last redirection entry's index. */
  lemma VersionWordEntries(offsets: nat)
    requires 2 <= offsets <= 0xF0
    ensures VersionWord(offsets) >> 16 == (offsets / 2 - 1) as bv32
  {
  }

  /** The version word carries the version in its low byte. */
  lemma VersionWordVersion(offsets: nat)
    requires 2 <= offsets <= 0xF0
    ensures VersionWord(offsets) & 0xFF == IO_APIC_VERSION
  {
  }

  class IoApic {
    /** The selected register (a 32-bit value). */
    var select: nat
    var id: bv32
    /** The redirection table, two 32-bit offsets per entry. */
    const redirect: array<bv32>

    predicate Valid()
      reads this
    {
      2 <= redirect.Length <= 0xF0 && redirect.Length % 2 == 0
    }

    constructor (offsets: nat)
      requires 2 <= offsets <= 0xF0 && offsets % 2 == 0
      ensures Valid() && fresh(redirect) && redirect.Length == offsets
      ensures select == 0 && id == 0 && forall k :: 0 <= k < offsets ==> redirect[k] == 0
    {
      select := 0;
      id := 0;
      redirect := new bv32[offsets](_ => 0);
    }

    /** The selector names a redirection offset. */
    predicate InRedirect(sel: nat)
      reads this
    {
      FIRST_REDIRECT <= sel < FIRST_REDIRECT + redirect.Length
    }

    /** What a load through IOWIN reads while `sel` is selected: None for a
        register the window does not have. */
    function Window(sel: nat): Option<bv32>
      reads this, redirect
      requires Valid()
    {
      if sel == IO_APIC_ID then Some(id)
      else if sel == IO_APIC_VER then Some(VersionWord(redirect.Length))
      else if sel == IO_APIC_ARBITRATION then Some(0)
      else if InRedirect(sel) then Some(redirect[sel - FIRST_REDIRECT])
      else None
    }

    /** A register the guest may also store to: the ID and the
        redirection table. */
    predicate Writable(sel: nat)
      reads this
    {
      sel == IO_APIC_ID || InRedirect(sel)
    }

    /** irq_redirect: the vector in the low byte of a global interrupt's
        first redirection offset. */
    function IrqRedirect(irq: nat): bv8
      reads this, redirect
      requires 2 * irq < redirect.Length
    {
      (redirect[2 * irq] & 0xFF) as bv8
    }

    /** handle_io_apic: an access to the window at `offset`. A store to
        IOREGSEL selects a register, and a selector above 255 is
        INVALID_ARGS although it stays stored. Through IOWIN a load reads
        the selected register (Window) and a store writes it when it is
        writable; the version and arbitration registers only read. Any
        other selector, offset or direction is NOT_SUPPORTED. The value
        is what a successful load reads, 0 otherwise. */
    method Access(offset: nat, inst: Mmio) returns (status: Status, value: bv32)
      requires Valid()
      modifies this, redirect
      ensures Valid()
      ensures offset == IOREGSEL && inst.Store? ==>
        select == inst.value as nat && id == old(id) && redirect[..] == old(redirect[..]) && value == 0 &&
        status == (if inst.value > 0xFF then ErrInvalidArgs else Ok)
      ensures offset == IOWIN && inst.Load? && old(Window(select)).Some? ==>
        status == Ok && value == old(Window(select)).value &&
        select == old(select) && id == old(id) && redirect[..] == old(redirect[..])
      ensures offset == IOWIN && inst.Store? && old(Writable(select)) ==>
        status == Ok && value == 0 && select == old(select) && Window(select) == Some(inst.value) &&
        (if select == IO_APIC_ID then redirect[..] == old(redirect[..])
         else id == old(id) && redirect[..] == old(redirect[..])[select - FIRST_REDIRECT := inst.value])
      ensures !(offset == IOREGSEL && inst.Store?) &&
              !(offset == IOWIN && inst.Load? && old(Window(select)).Some?) &&
              !(offset == IOWIN && inst.Store? && old(Writable(select))) ==>
        status == ErrNotSupported && value == 0 &&
        select == old(select) && id == old(id) && redirect[..] == old(redirect[..])
    {
      value := 0;
      if offset == IOREGSEL && inst.Store? {
        select := inst.value as nat;
        status := if inst.value > 0xFF then ErrInvalidArgs else Ok;
        return;
      }
      if offset == IOWIN {
        var w := Window(select);
        if inst.Load? && w.Some? {
          return Ok, w.value;
        }
        if inst.Store? && select == IO_APIC_ID {
          id := inst.value;
          return Ok, 0;
        }
        if inst.Store? && InRedirect(select) {
          redirect[select - FIRST_REDIRECT] := inst.value;
          return Ok, 0;
        }
      }
      status := ErrNotSupported;
    }
  }

  // ---------------------------------------------------------------------
  // PCI configuration accesses for a device number

  /** handle_pci_config_read: a device number past the bus reads all ones
      of the access width; otherwise the device's own configuration read,
      `deviceRead`, answers. */
  function PciConfigRead(device: nat, len: bv8, deviceRead: Result<bv32>): (r: Result<bv32>)
    ensures device >= Pci.PCI_MAX_DEVICES ==> r == Success(ByteMask(len as bv32))
    ensures device >= Pci.PCI_MAX_DEVICES && len == 2 ==> r.value == 0xFFFF
    ensures device < Pci.PCI_MAX_DEVICES ==> r == deviceRead
  {
    if device >= Pci.PCI_MAX_DEVICES then Success(ByteMask(len as bv32)) else deviceRead
  }

  /** handle_pci_config_write: a device number past the bus is
      OUT_OF_RANGE; otherwise the device's own write, `deviceWrite`,
      answers. */
  function PciConfigWrite(device: nat, deviceWrite: Status): (r: Status)
    ensures device >= Pci.PCI_MAX_DEVICES ==> r == ErrOutOfRange
    ensures device < Pci.PCI_MAX_DEVICES ==> r == deviceWrite
  {
    if device >= Pci.PCI_MAX_DEVICES then ErrOutOfRange else deviceWrite
  }

  // ---------------------------------------------------------------------
  // I/O ports

  /** The ports the vCPU emulates, by what they address (16550 UART
      registers in their standard order, the RTC index and data ports,
      the i8042, the i8253, the two PICs, PM1 status and enable, a byte
      of the PCI configuration address or data port), and any other
      port by number. */
  datatype Port =
    | UartReceive | UartInterruptEnable | UartInterruptId | UartLineControl
    | UartModemControl | UartLineStatus | UartModemStatus | UartScratch
    | RtcIndex | RtcData
    | I8042Data | I8042Command
    | I8253Channel0 | I8253Control
    | Pic1Command | Pic1Data | Pic2Command | Pic2Data
    | Pm1Status | Pm1Enable
    | PciConfigAddress(byte: bv32)
    | PciConfigData(byte: bv32)
    | OtherPort(number: nat)

  /** A configuration port names one of its four bytes. */
  predicate PortOk(p: Port)
  {
    (p.PciConfigAddress? ==> p.byte < 4) && (p.PciConfigData? ==> p.byte < 4)
  }

  const UART_INTERRUPT_ENABLE_THR_EMPTY: bv8 := 2
  const UART_INTERRUPT_ID_NONE: bv8 := 1
  const UART_INTERRUPT_ID_THR_EMPTY: bv8 := 2
  const UART_INTERRUPT_ID_NO_FIFO_MASK: bv8 := 0x0F
  /** Line status: transmitter idle and holding register empty. */
  const UART_STATUS_IDLE_EMPTY: bv32 := 0x60
  const I8042_STATUS_OUTPUT_FULL: bv32 := 1
  const I8042_COMMAND_TEST: bv8 := 0xAA
  const I8042_DATA_TEST_RESPONSE: bv32 := 0x55
  const PIC_INVALID: bv32 := 0xFF

  /** The low byte and the low half of a 32-bit I/O value. */
  function Low8(v: bv32): bv8 { (v & 0xFF) as bv8 }
  function Low16(v: bv32): bv16 { (v & 0xFFFF) as bv16 }

  /** The registers the port handlers keep (io_port_state). */
  datatype PortState = PortState(
    rtcIndex: bv8, i8042Command: bv8, configAddress: bv32, pm1Enable: bv16,
    uartInterruptEnable: bv8, uartInterruptId: bv8, uartLineControl: bv8)

  /** An input the handler answers itself: `width` bytes of `v`; an access
      of another size is IO_DATA_INTEGRITY. */
  function Fixed(width: bv8, v: bv32, size: bv8): Result<bv32>
  {
    if size != width then Failure(ErrIoDataIntegrity) else Success(v)
  }

  /** The width, in bytes, of the value the input handler answers with
      itself: one byte for the UART, RTC data, i8042 and first PIC data
      ports, two for the PM1 registers. The configuration ports answer at
      the guest's width and the other ports leave it to a device. */
  function InputWidth(port: Port): Option<bv8>
  {
    match port
    case UartReceive => Some(1)
    case UartInterruptEnable => Some(1)
    case UartInterruptId => Some(1)
    case UartLineControl => Some(1)
    case UartModemControl => Some(1)
    case UartLineStatus => Some(1)
    case UartModemStatus => Some(1)
    case UartScratch => Some(1)
    case RtcData => Some(1)
    case I8042Data => Some(1)
    case I8042Command => Some(1)
    case Pic1Data => Some(1)
    case Pm1Status => Some(2)
    case Pm1Enable => Some(2)
    case _ => None
  }

  /** The configuration data port's answer to a read of `size` bytes
      whose register value is `v`: its low `size` bytes, for the widths
      1, 2 and 4 only. */
  function ConfigDataValue(v: bv32, size: bv8): (r: Result<bv32>)
    ensures r.Success? <==> size == 1 || size == 2 || size == 4
    ensures r.Success? ==> r.value & !ByteMask(size as bv32) == 0
    ensures r.Failure? ==> r.error == ErrNotSupported
  {
    if size == 1 || size == 2 || size == 4 then
      MaskedBytes(v, size as bv32);
      Success(v & ByteMask(size as bv32))
    else Failure(ErrNotSupported)
  }

  /** Masking a value to 1, 2 or 4 bytes keeps those bytes and clears the
      rest. */
  lemma MaskedBytes(v: bv32, n: bv32)
    requires n == 1 || n == 2 || n == 4
    ensures (v & ByteMask(n)) & !ByteMask(n) == 0
  {
    if n == 1 {
      assert ByteMask(n) == 0xFF;
    } else if n == 2 {
      assert ByteMask(n) == 0xFFFF;
    } else {
      assert ByteMask(n) == 0xFFFF_FFFF;
    }
  }

  /** An I/O value as a device returns it: its width and its bits. */
  datatype IoValue = IoValue(width: bv8, bits: bv32)

  /** handle_input: the value a guest read of `size` bytes from `port`
      receives. `now` is the local time for the RTC; `deviceRead` is the
      addressed PCI device's configuration read; `pio` is the read of the
      PCI device whose I/O BAR holds the port, None when none does. */
  function Input(s: PortState, port: Port, size: bv8, now: Option<Tm>,
                 deviceRead: Result<bv32>, pio: Option<Result<IoValue>>): (r: Result<bv32>)
    requires PortOk(port)
    ensures InputWidth(port).Some? && r.Success? ==> size == InputWidth(port).value
    ensures InputWidth(port).Some? && !port.RtcData? ==> (r.Success? <==> size == InputWidth(port).value)
    ensures InputWidth(port).Some? && !port.RtcData? && size != InputWidth(port).value ==> r == Failure(ErrIoDataIntegrity)
    ensures port.PciConfigData? && r.Success? ==>
      (size == 1 || size == 2 || size == 4) && r.value & !ByteMask(size as bv32) == 0
    ensures InputWidth(port).None? && !port.PciConfigAddress? && !port.PciConfigData? && pio.None? ==>
      r == Failure(ErrNotSupported)
  {
    if port.PciConfigAddress? then Success(PartialRead(s.configAddress, port.byte, size as bv32, 0))
    else if port.PciConfigData? then
      (match PciConfigRead(Pci.Type1Device(s.configAddress), size, deviceRead)
       case Failure(e) => Failure(e)
       case Success(v) => ConfigDataValue(v, size))
    else if InputWidth(port).Some? then
      (match RegisterRead(s, port, now)
       case Failure(e) => Failure(e)
       case Success(v) => Fixed(InputWidth(port).value, v, size))
    else
      (match pio
       case None => Failure(ErrNotSupported)
       case Some(Failure(e)) => Failure(e)
       case Some(Success(r)) => Fixed(r.width, r.bits, size))
  }

  /** The value the input handler answers with itself: a fixed value, a
      register it keeps, or the clock register the index port selected,
      which fails without a local time. */
  function RegisterRead(s: PortState, port: Port, now: Option<Tm>): Result<bv32>
    requires InputWidth(port).Some?
  {
    match port
    case UartReceive => Success(0)
    case UartModemControl => Success(0)
    case UartModemStatus => Success(0)
    case UartScratch => Success(0)
    case UartInterruptEnable => Success(s.uartInterruptEnable as bv32)
    case UartInterruptId => Success((UART_INTERRUPT_ID_NO_FIFO_MASK & s.uartInterruptId) as bv32)
    case UartLineControl => Success(s.uartLineControl as bv32)
    case UartLineStatus => Success(UART_STATUS_IDLE_EMPTY)
    case RtcData =>
      (match Rtc(s.rtcIndex as nat, now)
       case Failure(e) => Failure(e)
       case Success(v) => Success(v as bv32))
    case I8042Data => Success(if s.i8042Command == I8042_COMMAND_TEST then I8042_DATA_TEST_RESPONSE else 0)
    case I8042Command => Success(I8042_STATUS_OUTPUT_FULL)
    case Pm1Status => Success(0)
    case Pm1Enable => Success(s.pm1Enable as bv32)
    case Pic1Data => Success(PIC_INVALID)
  }

  /** handle_output: a guest write of `size` bytes of `value` to `port`,
      giving the status and the new registers. The i8042 data, i8253,
      PIC and PM1 status ports accept and ignore writes. The RTC index and
      i8042 command take one byte and PM1 enable two; another size is
      IO_DATA_INTEGRITY with nothing changed. The configuration address
      ports write the addressed bytes (PartialWrite); the data ports go to
      the addressed device (`deviceWrite`) or are OUT_OF_RANGE past the
      bus. Any other port goes to the PCI device whose I/O BAR holds it
      (`pio`), and is NOT_SUPPORTED when none does. */
  function Output(s: PortState, port: Port, size: bv8, value: bv32,
                  deviceWrite: Status, pio: Option<Status>): (r: (Status, PortState))
    requires PortOk(port)
    ensures r.0 != Ok ==> r.1 == s
    ensures || r.1 == s
            || (port.RtcIndex? && r.1 == s.(rtcIndex := r.1.rtcIndex))
            || (port.I8042Command? && r.1 == s.(i8042Command := r.1.i8042Command))
            || (port.PciConfigAddress? && r.1 == s.(configAddress := r.1.configAddress))
            || (port.Pm1Enable? && r.1 == s.(pm1Enable := r.1.pm1Enable))
  {
    if port.RtcIndex? then
      if size != 1 then (ErrIoDataIntegrity, s) else (Ok, s.(rtcIndex := Low8(value)))
    else if port.I8042Command? then
      if size != 1 then (ErrIoDataIntegrity, s) else (Ok, s.(i8042Command := Low8(value)))
    else if port.PciConfigAddress? then
      (Ok, s.(configAddress := PartialWrite(s.configAddress, port.byte, size as bv32, value)))
    else if port.Pm1Enable? then
      if size != 2 then (ErrIoDataIntegrity, s) else (Ok, s.(pm1Enable := Low16(value)))
    else
      (OutputStatus(s.configAddress, port, deviceWrite, pio), s)
  }

  /** The status of a write to a port whose registers the vCPU does not
      keep: the i8042 data, timer, PIC and PM1 status ports take any write
      whatever the devices would answer; the data ports past the bus are
      OUT_OF_RANGE; a port no device claims is NOT_SUPPORTED. */
  function OutputStatus(configAddress: bv32, port: Port, deviceWrite: Status, pio: Option<Status>): (r: Status)
    ensures (|| port.I8042Data? || port.I8253Channel0? || port.I8253Control? || port.Pic1Command?
             || port.Pic1Data? || port.Pic2Command? || port.Pic2Data? || port.Pm1Status?) ==> r == Ok
    ensures port.PciConfigData? && Pci.Type1Device(configAddress) >= Pci.PCI_MAX_DEVICES ==> r == ErrOutOfRange
    ensures port.OtherPort? && pio.None? ==> r == ErrNotSupported
  {
    if port.I8042Data? || port.I8253Channel0? || port.I8253Control? || port.Pic1Command? ||
       port.Pic1Data? || port.Pic2Command? || port.Pic2Data? || port.Pm1Status? then Ok
    else if port.PciConfigData? then PciConfigWrite(Pci.Type1Device(configAddress), deviceWrite)
    else if pio.Some? then pio.value
    else ErrNotSupported
  }

  /** A guest reading back the configuration address at the port and
      width it wrote gets the bytes it wrote. */
  lemma AddressPortRoundTrip(s: PortState, b: bv32, size: bv8, value: bv32, now: Option<Tm>,
                             deviceRead: Result<bv32>, pio: Option<Result<IoValue>>,
                             deviceWrite: Status, pioOut: Option<Status>)
    requires Access(b, size as bv32)
    ensures Output(s, PciConfigAddress(b), size, value, deviceWrite, pioOut).0 == Ok
    ensures Input(Output(s, PciConfigAddress(b), size, value, deviceWrite, pioOut).1, PciConfigAddress(b), size, now, deviceRead, pio).Success?
    ensures Input(Output(s, PciConfigAddress(b), size, value, deviceWrite, pioOut).1, PciConfigAddress(b), size, now, deviceRead, pio).value & ByteMask(size as bv32) ==
      value & ByteMask(size as bv32)
  {
    PartialRoundTrip(s.configAddress, b, size as bv32, value, 0);
  }

  /** A write to the configuration address leaves the bytes it does not
      address, and every other register, as they were. */
  lemma AddressPortKeeps(s: PortState, b: bv32, size: bv8, value: bv32, deviceWrite: Status, pio: Option<Status>)
    requires Access(b, size as bv32)
    ensures var s' := Output(s, PciConfigAddress(b), size, value, deviceWrite, pio).1;
      s'.configAddress & !FieldMask(b, size as bv32) == s.configAddress & !FieldMask(b, size as bv32) &&
      s' == s.(configAddress := s'.configAddress)
  {
    PartialWriteKeeps(s.configAddress, b, size as bv32, value);
  }

  /** A read of the configuration address leaves the I/O value's bytes
      above the access width zero. */
  lemma AddressPortReadHigh(s: PortState, b: bv32, size: bv8, now: Option<Tm>,
                            deviceRead: Result<bv32>, pio: Option<Result<IoValue>>)
    requires b < 4
    ensures Input(s, PciConfigAddress(b), size, now, deviceRead, pio).Success?
    ensures Input(s, PciConfigAddress(b), size, now, deviceRead, pio).value & !ByteMask(size as bv32) == 0
  {
    PartialReadKeeps(s.configAddress, b, size as bv32, 0);
  }

  /** Selecting a clock register through the index port makes the data
      port read that register. */
  lemma RtcIndexSelects(s: PortState, index: bv8, now: Option<Tm>, deviceRead: Result<bv32>,
                        pio: Option<Result<IoValue>>, deviceWrite: Status, pioOut: Option<Status>)
    ensures var (st, s') := Output(s, RtcIndex, 1, index as bv32, deviceWrite, pioOut);
      st == Ok && s'.rtcIndex == index &&
      Input(s', RtcData, 1, now, deviceRead, pio) ==
        (match Rtc(index as nat, now) case Failure(e) => Failure(e) case Success(v) => Success(v as bv32))
  {
    assert Low8(index as bv32) == index;
  }

  /** After the self-test command the i8042 data port reads the test
      response; after any other command it reads 0. */
  lemma I8042SelfTest(s: PortState, command: bv8, now: Option<Tm>, deviceRead: Result<bv32>,
                      pio: Option<Result<IoValue>>, deviceWrite: Status, pioOut: Option<Status>)
    ensures var (st, s') := Output(s, I8042Command, 1, command as bv32, deviceWrite, pioOut);
      st == Ok &&
      Input(s', I8042Data, 1, now, deviceRead, pio) ==
        Success(if command == I8042_COMMAND_TEST then I8042_DATA_TEST_RESPONSE else 0)
  {
    assert Low8(command as bv32) == command;
  }

  /** The registers with a fixed width refuse other widths and keep their
      value. */
  lemma WrongWidthRefused(s: PortState, port: Port, size: bv8, value: bv32, deviceWrite: Status, pio: Option<Status>)
    requires ((port == RtcIndex || port == I8042Command) && size != 1) || (port == Pm1Enable && size != 2)
    ensures Output(s, port, size, value, deviceWrite, pio) == (ErrIoDataIntegrity, s)
  {
  }

  /** With the configuration address naming a slot past the bus, the data
      ports read all ones of the access width and refuse writes. */
  lemma DataPortMissingDevice(s: PortState, b: bv32, size: bv8, value: bv32, now: Option<Tm>,
                              deviceRead: Result<bv32>, pio: Option<Result<IoValue>>,
                              deviceWrite: Status, pioOut: Option<Status>)
    requires b < 4 && Pci.Type1Device(s.configAddress) >= Pci.PCI_MAX_DEVICES
    requires size == 1 || size == 2 || size == 4
    ensures Input(s, PciConfigData(b), size, now, deviceRead, pio) == Success(ByteMask(size as bv32))
    ensures Output(s, PciConfigData(b), size, value, deviceWrite, pioOut) == (ErrOutOfRange, s)
  {
  }

  /** The ports the vCPU keeps the registers of. */
  class IoPorts {
    var rtcIndex: bv8
    var i8042Command: bv8
    var configAddress: bv32
    var pm1Enable: bv16
    var uartInterruptEnable: bv8
    var uartInterruptId: bv8
    var uartLineControl: bv8

    constructor ()
      ensures State() == PortState(0, 0, 0, 0, 0, 0, 0)
    {
      rtcIndex, i8042Command, configAddress, pm1Enable := 0, 0, 0, 0;
      uartInterruptEnable, uartInterruptId, uartLineControl := 0, 0, 0;
    }

    function State(): PortState
      reads this
    {
      PortState(rtcIndex, i8042Command, configAddress, pm1Enable,
                uartInterruptEnable, uartInterruptId, uartLineControl)
    }

    /** handle_input: reads no register of the vCPU's state; a read at a
        register's own width answers that register as the vCPU holds it,
        and a read at another width is IO_DATA_INTEGRITY. */
    function HandleInput(port: Port, size: bv8, now: Option<Tm>,
                         deviceRead: Result<bv32>, pio: Option<Result<IoValue>>): (r: Result<bv32>)
      reads this
      requires PortOk(port)
      ensures InputWidth(port).Some? && size == InputWidth(port).value ==> r == RegisterRead(State(), port, now)
      ensures InputWidth(port).Some? && size != InputWidth(port).value && !port.RtcData? ==> r == Failure(ErrIoDataIntegrity)
    {
      Input(State(), port, size, now, deviceRead, pio)
    }

    /** handle_output: the registers become those Output gives. */
    method HandleOutput(port: Port, size: bv8, value: bv32, deviceWrite: Status, pio: Option<Status>)
      returns (status: Status)
      requires PortOk(port)
      modifies this
      ensures status == Output(old(State()), port, size, value, deviceWrite, pio).0
      ensures State() == Output(old(State()), port, size, value, deviceWrite, pio).1
    {
      if port.RtcIndex? || port.I8042Command? {
        if size != 1 {
          return ErrIoDataIntegrity;
        }
        if port.RtcIndex? {
          rtcIndex := Low8(value);
        } else {
          i8042Command := Low8(value);
        }
        return Ok;
      }
      if port.PciConfigAddress? {
        configAddress := PartialWrite(configAddress, port.byte, size as bv32, value);
        return Ok;
      }
      if port.Pm1Enable? {
        if size != 2 {
          return ErrIoDataIntegrity;
        }
        pm1Enable := Low16(value);
        return Ok;
      }
      status := OutputStatus(configAddress, port, deviceWrite, pio);
    }
  }

  // ---------------------------------------------------------------------
  // The serial port's transmit buffer

  const UART_BUFFER_SIZE: nat := 512
  const CR: bv8 := 0x0D

  /** One byte into the transmit buffer holding `pending`, after the
      lines `flushed`: the buffer is written out as a line when it becomes
      full or the byte is a carriage return, and then starts empty. */
  function Push(flushed: seq<seq<bv8>>, pending: seq<bv8>, b: bv8): (seq<seq<bv8>>, seq<bv8>)
  {
    var q := pending + [b];
    if |q| == UART_BUFFER_SIZE || b == CR then (flushed + [q], []) else (flushed, q)
  }

  /** The lines written out and the bytes left in the buffer after
      `data` goes, byte by byte, into a buffer holding `pending`. */
  function Feed(pending: seq<bv8>, data: seq<bv8>): (seq<seq<bv8>>, seq<bv8>)
    decreases |data|
  {
    if data == [] then ([], pending)
    else
      var (f, q) := Feed(pending, data[..|data| - 1]);
      Push(f, q, data[|data| - 1])
  }

  function Concat(lines: seq<seq<bv8>>): seq<bv8>
  {
    if lines == [] then [] else Concat(lines[..|lines| - 1]) + lines[|lines| - 1]
  }

  /** A buffer that can still take a byte: below its size and holding no
      carriage return. */
  predicate PendingOk(p: seq<bv8>)
  {
    |p| < UART_BUFFER_SIZE && CR !in p
  }

  /** A line the buffer writes out: the full buffer, or bytes ending in the
      first carriage return. */
  predicate LineOk(l: seq<bv8>)
  {
    0 < |l| <= UART_BUFFER_SIZE && CR !in l[..|l| - 1] &&
    (|l| == UART_BUFFER_SIZE || l[|l| - 1] == CR)
  }

  /** No byte is lost, duplicated or reordered: the lines written out and
      the bytes left over are the pending bytes followed by the data. */
  lemma {:induction false} FeedKeepsBytes(pending: seq<bv8>, data: seq<bv8>)
    ensures Concat(Feed(pending, data).0) + Feed(pending, data).1 == pending + data
    decreases |data|
  {
    if data != [] {
      var d := data[..|data| - 1];
      var b := data[|data| - 1];
      assert data == d + [b];
      FeedKeepsBytes(pending, d);
      var r := Feed(pending, d);
      var q := r.1 + [b];
      assert Feed(pending, data) == Push(r.0, r.1, b);
      assert Concat(r.0) + r.1 == pending + d;
      assert Concat(r.0) + q == (Concat(r.0) + r.1) + [b];
      assert (pending + d) + [b] == pending + data;
      if |q| == UART_BUFFER_SIZE || b == CR {
        ConcatSnoc(r.0, q);
        assert Feed(pending, data) == (r.0 + [q], []);
      } else {
        assert Feed(pending, data) == (r.0, q);
      }
    }
  }

  lemma ConcatSnoc(lines: seq<seq<bv8>>, l: seq<bv8>)
    ensures Concat(lines + [l]) == Concat(lines) + l
  {
    assert (lines + [l])[..|lines|] == lines;
  }

  /** Every line written out is the full buffer or ends at the first
      carriage return, and the buffer left over can take another byte. */
  lemma {:induction false} FeedLines(pending: seq<bv8>, data: seq<bv8>)
    requires PendingOk(pending)
    ensures PendingOk(Feed(pending, data).1)
    ensures forall k :: 0 <= k < |Feed(pending, data).0| ==> LineOk(Feed(pending, data).0[k])
    decreases |data|
  {
    if data != [] {
      var d := data[..|data| - 1];
      var b := data[|data| - 1];
      FeedLines(pending, d);
      var (f, q) := Feed(pending, d);
      var q' := q + [b];
      assert q'[..|q'| - 1] == q;
    }
  }

  class Uart {
    /** The bytes not yet written out: buffer[..offset]. */
    const buffer: array<bv8>
    var offset: nat
    var interruptOnThrEmpty: bool
    /** The lines written to the console so far. */
    var console: seq<seq<bv8>>

    predicate Valid()
      reads this, buffer
    {
      buffer.Length == UART_BUFFER_SIZE && offset < UART_BUFFER_SIZE && PendingOk(buffer[..offset])
    }

    function Pending(): seq<bv8>
      reads this, buffer
      requires Valid()
    {
      buffer[..offset]
    }

    constructor ()
      ensures Valid() && fresh(buffer) && Pending() == [] && console == [] && !interruptOnThrEmpty
    {
      buffer := new bv8[UART_BUFFER_SIZE](_ => 0);
      offset := 0;
      interruptOnThrEmpty := false;
      console := [];
    }

    /** The transmit port: each byte goes into the buffer, which is
        written out as a line when full or at a carriage return. */
    method Transmit(data: seq<bv8>)
      requires Valid()
      modifies this, buffer
      ensures Valid() && interruptOnThrEmpty == old(interruptOnThrEmpty)
      ensures console == old(console) + Feed(old(Pending()), data).0
      ensures Pending() == Feed(old(Pending()), data).1
    {
      ghost var p0 := Pending();
      ghost var c0 := console;
      var i := 0;
      while i < |data|
        invariant 0 <= i <= |data|
        invariant Valid() && interruptOnThrEmpty == old(interruptOnThrEmpty)
        invariant console == c0 + Feed(p0, data[..i]).0 && buffer[..offset] == Feed(p0, data[..i]).1
      {
        ghost var q := buffer[..offset];
        buffer[offset] := data[i];
        offset := offset + 1;
        assert buffer[..offset] == q + [data[i]];
        assert data[..i + 1][..i] == data[..i];
        if offset == UART_BUFFER_SIZE || data[i] == CR {
          console := console + [buffer[..offset]];
          offset := 0;
        }
        i := i + 1;
        FeedLines(p0, data[..i]);
      }
      assert data[..i] == data;
    }

    /** vcpu_handle_uart: a guest write of `size` bytes `data` (the I/O
        value's four bytes) to a serial port. The transmit port takes the
        bytes (Transmit). The interrupt enable and line control ports take
        one byte, another size being IO_DATA_INTEGRITY with nothing
        changed; interrupt enable also sets the interrupt ID to "holding
        register empty" or "none". Transmitting or enabling the interrupt
        while it is on raises it, with status `raised`. The other serial
        ports ignore writes; any other port is INTERNAL. */
    method Handle(port: Port, size: bv8, data: seq<bv8>, ports: IoPorts, raised: Status)
      returns (status: Status)
      requires Valid() && |data| == 4 && size as nat <= 4
      modifies this, buffer, ports
      ensures Valid()
      ensures port == UartReceive ==>
        console == old(console) + Feed(old(Pending()), data[..size as nat]).0 &&
        Pending() == Feed(old(Pending()), data[..size as nat]).1 &&
        interruptOnThrEmpty == old(interruptOnThrEmpty) && ports.State() == old(ports.State()) &&
        status == (if interruptOnThrEmpty then raised else Ok)
      ensures port == UartInterruptEnable && size == 1 ==>
        interruptOnThrEmpty == ((data[0] & UART_INTERRUPT_ENABLE_THR_EMPTY) != 0) &&
        ports.State() == old(ports.State()).(uartInterruptEnable := data[0],
          uartInterruptId := if interruptOnThrEmpty then UART_INTERRUPT_ID_THR_EMPTY else UART_INTERRUPT_ID_NONE) &&
        console == old(console) && Pending() == old(Pending()) &&
        status == (if interruptOnThrEmpty then raised else Ok)
      ensures port == UartLineControl && size == 1 ==>
        ports.State() == old(ports.State()).(uartLineControl := data[0]) &&
        interruptOnThrEmpty == old(interruptOnThrEmpty) &&
        console == old(console) && Pending() == old(Pending()) && status == Ok
      ensures port != UartReceive && !((port == UartInterruptEnable || port == UartLineControl) && size == 1) ==>
        ports.State() == old(ports.State()) && interruptOnThrEmpty == old(interruptOnThrEmpty) &&
        console == old(console) && Pending() == old(Pending()) &&
        status == (match port
                   case UartInterruptEnable => ErrIoDataIntegrity
                   case UartLineControl => ErrIoDataIntegrity
                   case UartInterruptId => Ok
                   case UartModemControl => Ok
                   case UartLineStatus => Ok
                   case UartModemStatus => Ok
                   case UartScratch => Ok
                   case _ => ErrInternal)
    {
      match port
      case UartReceive =>
        Transmit(data[..size as nat]);
        status := if interruptOnThrEmpty then raised else Ok;
      case UartInterruptEnable =>
        if size != 1 {
          return ErrIoDataIntegrity;
        }
        interruptOnThrEmpty := (data[0] & UART_INTERRUPT_ENABLE_THR_EMPTY) != 0;
        ports.uartInterruptEnable := data[0];
        ports.uartInterruptId := if interruptOnThrEmpty then UART_INTERRUPT_ID_THR_EMPTY else UART_INTERRUPT_ID_NONE;
        status := if interruptOnThrEmpty then raised else Ok;
      case UartLineControl =>
        if size != 1 {
          return ErrIoDataIntegrity;
        }
        ports.uartLineControl := data[0];
        status := Ok;
      case UartInterruptId => status := Ok;
      case UartModemControl => status := Ok;
      case UartLineStatus => status := Ok;
      case UartModemStatus => status := Ok;
      case UartScratch => status := Ok;
      case _ => status := ErrInternal;
    }
  }

  /** raise_thr_empty_interrupt: nothing is raised while the serial
      interrupt is not yet redirected to a vector (0); otherwise the
      status is that of interrupting the vCPU, `interrupt`. */
  function RaiseThrEmpty(redirected: bv8, interrupt: Status): Status
  {
    if redirected == 0 then Ok else interrupt
  }
}
