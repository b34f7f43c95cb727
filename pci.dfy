/** The hypervisor's emulated PCI bus: the configuration space each device
    presents (identity registers, command, BARs and the capability list),
    the bus that places BARs when a device is connected, the type 1
    configuration ports the guest programs, and the lookup of the device
    behind a trapped address. Registers are 32-bit words (`bv32`); the bus's
    allocation of address space is arithmetic on `nat`. */
module Pci {
  import opened ZxStatus
  import opened Arith
  import opened Bits

  /** Slots on the bus: the interrupt table below covers five devices. */
  const PCI_MAX_DEVICES: nat := 5
  /** Global interrupt of the device in each slot. */
  const GLOBAL_IRQS: seq<nat> := [32, 33, 34, 35, 36]
  /** BAR slots of the configuration header. */
  const MAX_BAR_SLOTS: nat := 6
  const PAGE_SIZE: nat := 4096
  const WORD: nat := 0x1_0000_0000

  const ASPACE_MMIO: bv8 := 0
  const ASPACE_PIO: bv8 := 1
  const COMMAND_IO_EN: bv16 := 1
  const COMMAND_MEM_EN: bv16 := 2
  const STATUS_INTERRUPT: bv16 := 0x08
  const STATUS_NEW_CAPS: bv16 := 0x10
  const HEADER_TYPE_STANDARD: bv32 := 0
  const INTERRUPT_PIN: bv32 := 1

  /** Offsets in the type 0 configuration header. */
  const VENDOR_ID: nat := 0x00
  const DEVICE_ID: nat := 0x02
  const COMMAND: nat := 0x04
  const STATUS: nat := 0x06
  const REVISION_ID: nat := 0x08
  const CLASS_CODE: nat := 0x09
  const CLASS_CODE_SUB: nat := 0x0a
  const CLASS_CODE_BASE: nat := 0x0b
  const CACHE_LINE_SIZE: nat := 0x0c
  const HEADER_TYPE: nat := 0x0e
  const BAR_0: nat := 0x10
  const BAR_5: nat := 0x24
  const CARDBUS_CIS_PTR: nat := 0x28
  const SUBSYS_VENDOR_ID: nat := 0x2c
  const EXP_ROM_ADDRESS: nat := 0x30
  const CAPABILITIES: nat := 0x34
  const INTERRUPT_LINE: nat := 0x3c
  /** Where the emulated capability list starts, and the last register. */
  const CAP_BASE: nat := 0xa4
  const CAP_TOP: nat := 0xff

  /** The type 1 configuration ports. */
  const ADDRESS_PORT_BASE: nat := 0xcf8
  const ADDRESS_PORT_TOP: nat := 0xcfb
  const DATA_PORT_BASE: nat := 0xcfc
  const DATA_PORT_TOP: nat := 0xcff

  /** A count kept in a 32-bit register. */
  function Reg(x: nat): bv32
  {
    (x % WORD) as bv32
  }

  /** A base address register: address, size and address space. */
  datatype Bar = Bar(addr: bv32, size: bv32, aspace: bv8)

  /** A capability: its id, its length in bytes and its bytes (the first two
      stand for the id and next-pointer slots and are not read). */
  datatype Cap = Cap(id: bv8, len: nat, data: seq<bv8>)

  datatype Attributes = Attributes(
    deviceId: bv16, vendorId: bv16, subsystemId: bv16, subsystemVendorId: bv16,
    classCode: bv16, revisionId: bv8)

  /** What a device presents in configuration space. */
  datatype Config = Config(attrs: Attributes, bars: seq<Bar>, command: bv16, caps: seq<Cap>)

  /** Every capability fits in a byte-sized length and supplies its bytes. */
  predicate CapsOk(caps: seq<Cap>)
  {
    forall i :: 0 <= i < |caps| ==> caps[i].len <= U8_MAX && caps[i].len <= |caps[i].data|
  }

  predicate ConfigOk(c: Config)
  {
    |c.bars| <= MAX_BAR_SLOTS && CapsOk(c.caps)
  }

  // ---------------------------------------------------------------------
  // Capabilities

  /** pci_cap_len: the length rounded up to a 32-bit boundary, in a byte. */
  function CapLen(c: Cap): (r: nat)
    ensures r % 4 == 0 && r <= U8_MAX
  {
    MultipleCut(RoundUp(c.len, 4), 4, 256);
    RoundUp(c.len, 4) % 256
  }

  /** Where capability `i` starts: the lengths of those before it are laid
      end to end from CAP_BASE. */
  function CapBase(caps: seq<Cap>, i: nat): nat
    requires i <= |caps|
  {
    if i == 0 then CAP_BASE else CapBase(caps, i - 1) + CapLen(caps[i - 1])
  }

  /** Where capability `i` ends (and the next begins). */
  function CapEnd(caps: seq<Cap>, i: nat): nat
    requires i < |caps|
  {
    CapBase(caps, i + 1)
  }

  /** Every capability starts on a 32-bit boundary, at or after CAP_BASE. */
  lemma {:induction false} CapBaseAligned(caps: seq<Cap>, i: nat)
    requires i <= |caps|
    ensures CapBase(caps, i) % 4 == 0 && CapBase(caps, i) >= CAP_BASE
  {
    if i > 0 {
      CapBaseAligned(caps, i - 1);
    }
  }

  lemma {:induction false} CapBaseMonotone(caps: seq<Cap>, i: nat, j: nat)
    requires i <= j <= |caps|
    ensures CapBase(caps, i) <= CapBase(caps, j)
  {
    if i < j {
      CapBaseMonotone(caps, i, j - 1);
    }
  }

  datatype CapHit = CapHit(index: nat, base: nat)

  /** FindCapability from capability `i` on: the first capability whose end
      lies beyond `addr`. */
  function FindFrom(caps: seq<Cap>, addr: nat, i: nat): (r: Option<CapHit>)
    requires i <= |caps|
    ensures r.Some? ==> i <= r.value.index < |caps| && r.value.base == CapBase(caps, r.value.index)
    decreases |caps| - i
  {
    if i == |caps| then None
    else if addr >= CapEnd(caps, i) then FindFrom(caps, addr, i + 1)
    else Some(CapHit(i, CapBase(caps, i)))
  }

  /** The search finds the capability holding `addr`: every capability
      before it ends at or before `addr`, it ends after `addr`, and, for an
      address in the capability area, starts at or before it. It finds
      none only when every capability ends at or before `addr`. */
  lemma {:induction false} FindFromFirst(caps: seq<Cap>, addr: nat, i: nat)
    requires i <= |caps|
    ensures match FindFrom(caps, addr, i)
      case Some(h) =>
        i <= h.index < |caps| && h.base == CapBase(caps, h.index) &&
        addr < CapEnd(caps, h.index) &&
        (forall j :: i <= j < h.index ==> addr >= CapEnd(caps, j)) &&
        (addr >= CapBase(caps, i) ==> h.base <= addr)
      case None => forall j :: i <= j < |caps| ==> addr >= CapEnd(caps, j)
    decreases |caps| - i
  {
    if i < |caps| && addr >= CapEnd(caps, i) {
      FindFromFirst(caps, addr, i + 1);
    }
  }

  /** cap_offset: the distance from the capability's start, in 32-bit
      arithmetic. */
  function CapOffset(addr: nat, base: nat): nat
  {
    (addr - base) % WORD
  }

  /** The value ReadCapability takes for offset `off` of capability `idx`
      starting at `base`: 0 past the capability's length, its id at 0, the
      start of the next capability at 1 (0 for the last), its data after. */
  function CapByte(caps: seq<Cap>, idx: nat, base: nat, off: nat): bv32
    requires idx < |caps| && CapsOk(caps)
  {
    var c := caps[idx];
    if off >= c.len then 0
    else if off == 0 then c.id as bv32
    else if off == 1 then (if idx + 1 < |caps| then Reg(base + CapLen(c)) else 0)
    else c.data[off] as bv32
  }

  /** `v` moved up to byte `n` of a word. */
  function Shifted(v: bv32, n: nat): bv32
    requires n < 4
  {
    if n == 0 then v else if n == 1 then v << 8 else if n == 2 then v << 16 else v << 24
  }

  /** Four values destined for the bytes of a word, lowest first. */
  datatype Four = Four(v0: bv32, v1: bv32, v2: bv32, v3: bv32) {
    function At(n: nat): bv32
      requires n < 4
    {
      if n == 0 then v0 else if n == 1 then v1 else if n == 2 then v2 else v3
    }
  }

  /** The four values read for offsets `off` to `off + 3`. */
  function CapBytes(caps: seq<Cap>, idx: nat, base: nat, off: nat): (r: Four)
    requires idx < |caps| && CapsOk(caps)
    ensures forall j :: 0 <= j < 4 ==> r.At(j) == CapByte(caps, idx, base, off + j)
  {
    Four(CapByte(caps, idx, base, off), CapByte(caps, idx, base, off + 1),
         CapByte(caps, idx, base, off + 2), CapByte(caps, idx, base, off + 3))
  }

  /** The word assembled from the first `n` values, lowest byte first. */
  function Assemble(f: Four, n: nat): bv32
    requires n <= 4
  {
    if n == 0 then 0 else Assemble(f, n - 1) | Shifted(f.At(n - 1), n - 1)
  }

  /** One more byte: a word holding the first `n` values, with value `n`
      shifted into byte `n`, holds the first n + 1. */
  lemma AssembleNext(f: Four, n: nat, word: bv32, val: bv32)
    requires n < 4 && word == Assemble(f, n) && val == f.At(n)
    ensures word | Shifted(val, n) == Assemble(f, n + 1)
  {
  }

  /** From the capability's end on, every value read is 0. */
  lemma PaddingZeros(caps: seq<Cap>, idx: nat, base: nat, start: nat, n: nat)
    requires CapsOk(caps) && idx < |caps| && n <= 4 && start + n >= caps[idx].len
    ensures forall j :: n <= j < 4 ==> CapBytes(caps, idx, base, start).At(j) == 0
  {
    forall j | n <= j < 4
      ensures CapBytes(caps, idx, base, start).At(j) == 0
    {
      CapListEnds(caps, idx, base, start + j);
    }
  }

  lemma ShiftedZero(n: nat)
    requires n < 4
    ensures Shifted(0, n) == 0
  {
  }

  /** Values that are all 0 from `n` on add nothing. */
  lemma {:induction false} AssembleZeros(f: Four, n: nat)
    requires n <= 4
    requires forall j :: n <= j < 4 ==> f.At(j) == 0
    ensures Assemble(f, 4) == Assemble(f, n)
    decreases 4 - n
  {
    if n < 4 {
      AssembleZeros(f, n + 1);
      ShiftedZero(n);
      assert Assemble(f, n + 1) == Assemble(f, n) | 0;
    }
  }

  lemma AssembleOne(f: Four)
    ensures Assemble(f, 1) == f.v0
  {
    assert Assemble(f, 0) == 0;
    assert Assemble(f, 1) == 0 | Shifted(f.At(0), 0);
  }

  lemma AssembleTwo(f: Four)
    ensures Assemble(f, 2) == f.v0 | (f.v1 << 8)
  {
    AssembleOne(f);
  }

  lemma AssembleThree(f: Four)
    ensures Assemble(f, 3) == f.v0 | (f.v1 << 8) | (f.v2 << 16)
  {
    AssembleTwo(f);
  }

  lemma AssembleFour(f: Four)
    ensures Assemble(f, 4) == f.v0 | (f.v1 << 8) | (f.v2 << 16) | (f.v3 << 24)
  {
    AssembleThree(f);
  }

  /** What reading the capability register `addr` yields, None when no
      capability holds it. */
  function CapWord(caps: seq<Cap>, addr: nat): Option<bv32>
    requires CapsOk(caps)
  {
    match FindFrom(caps, addr, 0)
    case None => None
    case Some(h) => Some(Assemble(CapBytes(caps, h.index, h.base, CapOffset(addr, h.base)), 4))
  }

  /** Following the list: the next pointer of a capability that is not the
      last names the start of the next one, and, when no capability is
      empty, searching that address finds the next one at offset 0. */
  lemma NextPointerFindsNext(caps: seq<Cap>, i: nat)
    requires CapsOk(caps) && i + 1 < |caps| && caps[i].len >= 2
    requires forall j :: 0 <= j < |caps| ==> CapLen(caps[j]) > 0
    ensures CapByte(caps, i, CapBase(caps, i), 1) == Reg(CapBase(caps, i + 1))
    ensures FindFrom(caps, CapBase(caps, i + 1), 0) == Some(CapHit(i + 1, CapBase(caps, i + 1)))
  {
    FindAtBase(caps, i + 1, 0);
  }

  /** Searching the start of capability `i` from an earlier one finds `i`. */
  lemma {:induction false} FindAtBase(caps: seq<Cap>, i: nat, j: nat)
    requires j <= i < |caps|
    requires forall k :: 0 <= k < |caps| ==> CapLen(caps[k]) > 0
    ensures FindFrom(caps, CapBase(caps, i), j) == Some(CapHit(i, CapBase(caps, i)))
    decreases i - j
  {
    if j < i {
      CapBaseMonotone(caps, j + 1, i);
      FindAtBase(caps, i, j + 1);
    } else {
      assert CapLen(caps[i]) > 0;
    }
  }

  /** The last capability's next pointer reads 0 and a padding byte reads 0. */
  lemma CapListEnds(caps: seq<Cap>, i: nat, base: nat, off: nat)
    requires CapsOk(caps) && i < |caps|
    ensures i + 1 == |caps| && off == 1 ==> CapByte(caps, i, base, off) == 0
    ensures off >= caps[i].len ==> CapByte(caps, i, base, off) == 0
  {
  }

  /** The bytes of an assembled word are the four values in order, when
      each fits in a byte. */
  lemma AssembleBytes(f: Four)
    requires f.v0 < 256 && f.v1 < 256 && f.v2 < 256 && f.v3 < 256
    ensures Byte(Assemble(f, 4), 0) as bv32 == f.v0
    ensures Byte(Assemble(f, 4), 1) as bv32 == f.v1
    ensures Byte(Assemble(f, 4), 2) as bv32 == f.v2
    ensures Byte(Assemble(f, 4), 3) as bv32 == f.v3
  {
    AssembleFour(f);
    Word4Bytes(f.v0, f.v1, f.v2, f.v3);
  }

  lemma Word4Bytes(v0: bv32, v1: bv32, v2: bv32, v3: bv32)
    requires v0 < 256 && v1 < 256 && v2 < 256 && v3 < 256
    ensures Byte(v0 | (v1 << 8) | (v2 << 16) | (v3 << 24), 0) as bv32 == v0
    ensures Byte(v0 | (v1 << 8) | (v2 << 16) | (v3 << 24), 1) as bv32 == v1
    ensures Byte(v0 | (v1 << 8) | (v2 << 16) | (v3 << 24), 2) as bv32 == v2
    ensures Byte(v0 | (v1 << 8) | (v2 << 16) | (v3 << 24), 3) as bv32 == v3
  {
  }

  // ---------------------------------------------------------------------
  // Configuration space

  predicate IsBarRegister(reg: nat)
  {
    BAR_0 <= reg <= BAR_5 && (reg - BAR_0) % 4 == 0
  }

  function BarIndex(reg: nat): nat
    requires IsBarRegister(reg)
  {
    (reg - BAR_0) / 4
  }

  /** Registers a write may not change. */
  predicate IsReadOnly(reg: nat)
  {
    reg == VENDOR_ID || reg == DEVICE_ID || reg == REVISION_ID || reg == HEADER_TYPE ||
    reg == CLASS_CODE || reg == CLASS_CODE_SUB || reg == CLASS_CODE_BASE
  }

  /** The status register: interrupt status always, and the capability
      list flag when the device has capabilities. */
  function StatusBits(c: Config): bv16
  {
    if c.caps != [] then STATUS_INTERRUPT | STATUS_NEW_CAPS else STATUS_INTERRUPT
  }

  /** Two 16-bit registers side by side in one word, `lo` in bits 0..15. */
  function Pack(lo: bv16, hi: bv16): bv32
  {
    lo as bv32 | (hi as bv32 << 16)
  }

  /** ReadConfigWord: the 32-bit word at aligned register `reg`. Reserved
      and unimplemented registers (CardBus, expansion ROM, BAR slots the
      device lacks, capability registers outside every capability) read 0;
      any other register is NOT_SUPPORTED. */
  function Word(c: Config, reg: nat): Result<bv32>
    requires ConfigOk(c)
  {
    if reg == VENDOR_ID then Success(Pack(c.attrs.vendorId, c.attrs.deviceId))
    else if reg == COMMAND then Success(Pack(c.command, StatusBits(c)))
    else if reg == REVISION_ID then Success(Pack(c.attrs.revisionId as bv16, c.attrs.classCode))
    else if reg == CACHE_LINE_SIZE then Success(HEADER_TYPE_STANDARD << 16)
    else if IsBarRegister(reg) then
      (if BarIndex(reg) >= |c.bars| then Success(0)
       else Success(c.bars[BarIndex(reg)].addr | c.bars[BarIndex(reg)].aspace as bv32))
    else if reg == INTERRUPT_LINE then Success(INTERRUPT_PIN << 8)
    else if reg == SUBSYS_VENDOR_ID then Success(Pack(c.attrs.subsystemVendorId, c.attrs.subsystemId))
    else if reg == CAPABILITIES then Success(if c.caps != [] then 0xa4 else 0)
    else if CAP_BASE <= reg <= CAP_TOP then
      Success(match CapWord(c.caps, reg) case Some(w) => w case None => 0)
    else if reg == CARDBUS_CIS_PTR || reg == EXP_ROM_ADDRESS then Success(0)
    else Failure(ErrNotSupported)
  }

  /** The aligned register a read of `reg` fetches, cut to a byte. */
  function Aligned(reg: nat): nat
  {
    (reg - reg % 4) % 256
  }

  /** reg & 3, the byte of the word a read starts at. */
  function ByteOffset(reg: nat): (r: bv32)
    ensures r < 4
  {
    var m := reg % 4;
    if m == 0 then 0 else if m == 1 then 1 else if m == 2 then 2 else 3
  }

  /** ReadConfig: the aligned word, shifted down by the byte offset of `reg`
      and cut to `len` bytes; it fails exactly when the word does. */
  function ReadConfig(c: Config, reg: nat, len: bv8): (r: Result<bv32>)
    requires ConfigOk(c)
    ensures r.Success? <==> Word(c, Aligned(reg)).Success?
    ensures r.Failure? ==> r == Word(c, Aligned(reg))
  {
    match Word(c, Aligned(reg))
    case Failure(e) => Failure(e)
    case Success(w) => Success(Extract(w, ByteOffset(reg), len as bv32))
  }

  /** For an access inside the word, ReadConfig returns exactly bits
      [(reg & 3) * 8, (reg & 3) * 8 + len * 8) of the aligned word: moved
      back up to that offset, the value is the word under the field mask. */
  lemma ReadConfigField(c: Config, reg: nat, len: bv8)
    requires ConfigOk(c) && Access(ByteOffset(reg), len as bv32)
    requires Word(c, Aligned(reg)).Success?
    ensures Up(ReadConfig(c, reg, len).value, ByteOffset(reg)) ==
      Word(c, Aligned(reg)).value & FieldMask(ByteOffset(reg), len as bv32)
  {
    ExtractField(Word(c, Aligned(reg)).value, ByteOffset(reg), len as bv32);
  }

  /** ReadConfig sets no bit above the `len` bytes read. */
  lemma ReadConfigHigh(c: Config, reg: nat, len: bv8)
    requires ConfigOk(c) && Word(c, Aligned(reg)).Success?
    ensures ReadConfig(c, reg, len).value & !ByteMask(len as bv32) == 0
  {
    ExtractHigh(Word(c, Aligned(reg)).value, ByteOffset(reg), len as bv32);
  }

  /** The low half of a packed word, read with 2 bytes at offset 0. */
  lemma PackLow(lo: bv16, hi: bv16)
    ensures Extract(Pack(lo, hi), 0, 2) == lo as bv32
  {
  }

  /** The high half of a packed word, read with 2 bytes at offset 2. */
  lemma PackHigh(lo: bv16, hi: bv16)
    ensures Extract(Pack(lo, hi), 2, 2) == hi as bv32
  {
  }

  /** WriteConfig on the configuration values: read-only registers refuse
      the write; the command register takes exactly 2 bytes; a BAR takes
      exactly 4 and keeps only the address bits its size allows; writes to
      anything else are discarded. */
  function Write(c: Config, reg: nat, len: nat, value: bv32): (Status, Config)
  {
    if IsReadOnly(reg) then (ErrNotSupported, c)
    else if reg == COMMAND then
      if len != 2 then (ErrNotSupported, c) else (Ok, c.(command := (value & 0xFFFF) as bv16))
    else if IsBarRegister(reg) then
      if len != 4 then (ErrNotSupported, c)
      else if BarIndex(reg) >= |c.bars| then (Ok, c)
      else (Ok, c.(bars := c.bars[BarIndex(reg) := BarStore(c.bars[BarIndex(reg)], value)]))
    else (Ok, c)
  }

  /** A BAR after the guest writes `value` to it: the bits below the BAR's
      size are cleared, which is how the guest learns the size. */
  function BarStore(b: Bar, value: bv32): Bar
  {
    b.(addr := value & !(b.size - 1))
  }

  /** A configuration write either succeeds or is NOT_SUPPORTED, and it is
      NOT_SUPPORTED exactly for a read-only register, a command write that
      is not 2 bytes and a BAR write that is not 4; a refused write changes
      nothing. */
  lemma WriteStatus(c: Config, reg: nat, len: nat, value: bv32)
    ensures Write(c, reg, len, value).0 == Ok || Write(c, reg, len, value).0 == ErrNotSupported
    ensures Write(c, reg, len, value).0 == ErrNotSupported <==>
      IsReadOnly(reg) || (reg == COMMAND && len != 2) || (IsBarRegister(reg) && len != 4)
    ensures Write(c, reg, len, value).0 != Ok ==> Write(c, reg, len, value).1 == c
  {
  }

  /** A configuration write never touches the attributes, the capabilities
      or the number of BARs; only a command write changes the command, and
      only the BAR the register names can change. */
  lemma WriteFrame(c: Config, reg: nat, len: nat, value: bv32)
    ensures var c' := Write(c, reg, len, value).1;
      c'.attrs == c.attrs && c'.caps == c.caps && |c'.bars| == |c.bars| &&
      (c'.command != c.command ==> reg == COMMAND) &&
      forall i :: 0 <= i < |c.bars| && c'.bars[i] != c.bars[i] ==> IsBarRegister(reg) && i == BarIndex(reg)
  {
  }

  /** A configuration write keeps the configuration well formed. */
  lemma WriteKeepsOk(c: Config, reg: nat, len: nat, value: bv32)
    requires ConfigOk(c)
    ensures ConfigOk(Write(c, reg, len, value).1)
  {
    WriteFrame(c, reg, len, value);
  }

  /** A read of `len` bytes at `reg` whose aligned word is `w`. */
  lemma ReadWord(c: Config, reg: nat, len: bv8, w: bv32)
    requires ConfigOk(c) && Word(c, Aligned(reg)) == Success(w)
    ensures ReadConfig(c, reg, len) == Success(Extract(w, ByteOffset(reg), len as bv32))
  {
  }

  /** A 2-byte read of the low half of a word packing `lo` and `hi`. */
  lemma ReadLow(c: Config, reg: nat, lo: bv16, hi: bv16)
    requires ConfigOk(c) && reg % 4 == 0 && Word(c, Aligned(reg)) == Success(Pack(lo, hi))
    ensures ReadConfig(c, reg, 2) == Success(lo as bv32)
  {
    assert ByteOffset(reg) == 0;
    ReadWord(c, reg, 2, Pack(lo, hi));
    PackLow(lo, hi);
  }

  /** A 2-byte read of the high half of a word packing `lo` and `hi`. */
  lemma ReadHigh(c: Config, reg: nat, lo: bv16, hi: bv16)
    requires ConfigOk(c) && reg % 4 == 2 && Word(c, Aligned(reg)) == Success(Pack(lo, hi))
    ensures ReadConfig(c, reg, 2) == Success(hi as bv32)
  {
    assert ByteOffset(reg) == 2;
    ReadWord(c, reg, 2, Pack(lo, hi));
    PackHigh(lo, hi);
  }

  /** The first word holds the vendor id in its low half and the device id
      in its high half, so ReadLow and ReadHigh read each back. */
  lemma IdentityWord(c: Config)
    requires ConfigOk(c)
    ensures Word(c, VENDOR_ID) == Success(Pack(c.attrs.vendorId, c.attrs.deviceId))
  {
  }

  /** The subsystem word holds the subsystem vendor in its low half and
      the subsystem id in its high half. */
  lemma SubsystemWord(c: Config)
    requires ConfigOk(c)
    ensures Word(c, SUBSYS_VENDOR_ID) == Success(Pack(c.attrs.subsystemVendorId, c.attrs.subsystemId))
  {
  }

  /** The second word holds the command register in its low half and the
      status register (pending interrupts and, when the device has
      capabilities, the capability list) in its high half. */
  lemma CommandWord(c: Config)
    requires ConfigOk(c)
    ensures Word(c, COMMAND) == Success(Pack(c.command, StatusBits(c)))
  {
  }

  /** A 2-byte write to the command register succeeds and stores the low
      16 bits of the value, so the command half of the word reads them
      back; the status half is unchanged. */
  lemma CommandWrite(c: Config, value: bv32)
    ensures Write(c, COMMAND, 2, value).0 == Ok
    ensures Write(c, COMMAND, 2, value).1.command as bv32 == value & 0xFFFF
    ensures StatusBits(Write(c, COMMAND, 2, value).1) == StatusBits(c)
  {
  }

  /** The word of an implemented BAR: its address with the address-space
      bit. */
  lemma BarWord(c: Config, i: nat)
    requires ConfigOk(c) && i < |c.bars|
    ensures Word(c, BAR_0 + 4 * i) == Success(c.bars[i].addr | c.bars[i].aspace as bv32)
  {
    assert BarIndex(BAR_0 + 4 * i) == i;
  }

  /** A 4-byte write to an implemented BAR stores the value with the bits
      below the BAR's size cleared, and nothing else. */
  lemma BarWrite(c: Config, i: nat, value: bv32)
    requires ConfigOk(c) && i < |c.bars|
    ensures Write(c, BAR_0 + 4 * i, 4, value) == (Ok, c.(bars := c.bars[i := BarStore(c.bars[i], value)]))
  {
    assert BarIndex(BAR_0 + 4 * i) == i;
  }

  /** BAR sizing: after the guest writes all ones, the BAR's word (its
      address with the address-space bit, see BarWord) is the inverted size
      mask with that bit. */
  lemma BarSizing(b: Bar)
    ensures BarStore(b, 0xFFFF_FFFF).addr | b.aspace as bv32 == !(b.size - 1) | b.aspace as bv32
  {
  }

  /** From the sizing read the guest recovers the BAR's size, by masking
      off the flag bits (the low 2 for I/O, the low 4 for memory),
      inverting and adding one, for any size that is a multiple of the
      masked span. */
  lemma SizeFromReadback(size: bv32, aspace: bv8, low: bv32)
    requires low == 3 || low == 0xF
    requires size != 0 && size & low == 0 && aspace as bv32 <= low
    ensures !((!(size - 1) | aspace as bv32) & !low) + 1 == size
  {
  }

  /** Writing an address aligned to the BAR's size stores it unchanged. */
  lemma BarAddressRoundTrip(b: Bar, value: bv32)
    requires value & (b.size - 1) == 0
    ensures BarStore(b, value) == b.(addr := value)
  {
    AlignedKept(value, b.size - 1);
  }

  lemma AlignedKept(value: bv32, low: bv32)
    requires value & low == 0
    ensures value & !low == value
  {
  }

  // ---------------------------------------------------------------------
  // BAR placement

  /** How many halvings (rounding up) take `n` down to 1. */
  function CeilLog2(n: nat): nat
  {
    if n <= 1 then 0 else 1 + CeilLog2((n + 1) / 2)
  }

  /** round_up_pow2: a power of two not below `n`. */
  function RoundUpPow2(n: nat): nat
  {
    Pow2(CeilLog2(n))
  }

  /** RoundUpPow2 gives the least power of two not below `n`: it is at
      least `n` and, for a positive `n`, below 2n, so half of it is below
      `n`. */
  lemma {:induction false} RoundUpPow2Least(n: nat)
    ensures RoundUpPow2(n) >= n
    ensures n >= 1 ==> RoundUpPow2(n) < 2 * n
  {
    if n > 1 {
      var m := (n + 1) / 2;
      RoundUpPow2Least(m);
      assert RoundUpPow2(n) == 2 * RoundUpPow2(m);
      if m >= 2 {
        assert CeilLog2(m) >= 1;
      }
    }
  }

  /** The next free I/O port and memory addresses of the bus. */
  datatype Bases = Bases(pio: nat, mmio: nat)

  /** Connect's treatment of one implemented BAR. An I/O BAR's size is
      rounded up to a power of two and its address is the next free port
      aligned to that size; the free port moves past it. Any other BAR's
      size is rounded up to whole pages and kept in 16 bits, and the BAR
      goes at the next free memory address, which moves past it. */
  function PlaceBar(b: Bar, bases: Bases): (Bar, Bases)
  {
    if b.aspace == ASPACE_PIO then
      var size := RoundUpPow2(b.size as nat);
      var addr := PioStart(bases.pio, b.size as nat);
      (b.(addr := Reg(addr), size := Reg(size)), bases.(pio := addr + size))
    else
      var size := MmioSize(b.size as nat);
      (b.(addr := Reg(bases.mmio), size := Reg(size)), bases.(mmio := bases.mmio + size))
  }

  /** The first free port at or above `pio` aligned to the I/O BAR's
      rounded size. */
  function PioStart(pio: nat, n: nat): (r: nat)
    ensures pio <= r && r % RoundUpPow2(n) == 0 && r - pio < RoundUpPow2(n)
  {
    RoundUp(pio, RoundUpPow2(n))
  }

  /** A memory BAR's size in whole pages, kept to 16 bits. */
  function MmioSize(n: nat): nat
  {
    RoundUp(n, PAGE_SIZE) % 0x1_0000
  }

  /** Connect's loop over the BARs from BAR `i` on: they are placed in
      order up to the first unimplemented one (size 0), which and whose
      successors are left as they are. */
  function PlaceFrom(bars: seq<Bar>, i: nat, bases: Bases): (r: (seq<Bar>, Bases))
    requires i <= |bars|
    ensures |r.0| == |bars|
    decreases |bars| - i
  {
    if i == |bars| || bars[i].size == 0 then (bars, bases)
    else
      var one := PlaceBar(bars[i], bases);
      PlaceFrom(bars[i := one.0], i + 1, one.1)
  }

  /** Connect's placement of all of a device's BARs. */
  function PlaceAll(bars: seq<Bar>, bases: Bases): (r: (seq<Bar>, Bases))
  {
    PlaceFrom(bars, 0, bases)
  }

  /** An I/O BAR gets the least power-of-two size that holds it and the
      first port at or after the free port that is a multiple of that size;
      the free port moves to its end and the memory base stays. */
  lemma PlacePio(b: Bar, bases: Bases)
    requires b.aspace == ASPACE_PIO
    ensures var size := RoundUpPow2(b.size as nat);
      var r := PlaceBar(b, bases);
      var start := r.1.pio - size;
      b.size as nat <= size && (b.size != 0 ==> size < 2 * b.size as nat) &&
      bases.pio <= start && start % size == 0 && start - bases.pio < size &&
      r.1.mmio == bases.mmio
  {
    var n := b.size as nat;
    RoundUpPow2Least(n);
    assert PlaceBar(b, bases).1 == Bases(PioStart(bases.pio, n) + RoundUpPow2(n), bases.mmio);
  }

  /** The I/O BAR's registers take that start and size, cut to 32 bits. */
  lemma PlacePioRegs(b: Bar, bases: Bases)
    requires b.aspace == ASPACE_PIO
    ensures var size := RoundUpPow2(b.size as nat);
      var r := PlaceBar(b, bases);
      r.0.addr == Reg(r.1.pio - size) && r.0.size == Reg(size)
  {
  }

  /** Any other BAR gets a whole number of pages (cut to 16 bits, so a
      size that needs 64 KiB or more wraps) and starts exactly at the free
      memory address; the next BAR starts right after it and the port base
      stays. */
  lemma PlaceMmio(b: Bar, bases: Bases)
    requires b.aspace != ASPACE_PIO
    ensures var r := PlaceBar(b, bases);
      var size := r.1.mmio - bases.mmio;
      r.1.mmio >= bases.mmio && size % PAGE_SIZE == 0 &&
      (RoundUp(b.size as nat, PAGE_SIZE) < 0x1_0000 ==> size >= b.size as nat) &&
      r.0.addr == Reg(bases.mmio) && r.1.pio == bases.pio
  {
    MultipleCut(RoundUp(b.size as nat, PAGE_SIZE), PAGE_SIZE, 0x1_0000);
  }


  /** Placing one BAR keeps its address space and moves the free
      addresses forward only. */
  lemma PlaceBarMoves(b: Bar, bases: Bases)
    ensures var r := PlaceBar(b, bases);
      r.0.aspace == b.aspace && r.1.pio >= bases.pio && r.1.mmio >= bases.mmio
  {
  }

  /** The index of the first unimplemented BAR from `i` on, |bars| when
      there is none. */
  function FirstUnimplemented(bars: seq<Bar>, i: nat): (r: nat)
    requires i <= |bars|
    ensures i <= r <= |bars|
    decreases |bars| - i
  {
    if i == |bars| || bars[i].size == 0 then i else FirstUnimplemented(bars, i + 1)
  }

  /** Only the BAR at `i` differs: the search from i + 1 sees the same. */
  lemma {:induction false} FirstUnimplementedUpdate(bars: seq<Bar>, i: nat, b: Bar, j: nat)
    requires i < j <= |bars|
    ensures FirstUnimplemented(bars[i := b], j) == FirstUnimplemented(bars, j)
    decreases |bars| - j
  {
    if j < |bars| && bars[j].size != 0 {
      FirstUnimplementedUpdate(bars, i, b, j + 1);
    }
  }

  /** Placing from BAR `i` keeps every BAR's address space, changes nothing
      before `i` or from the first unimplemented BAR on, and never moves
      the free addresses back. */
  lemma {:induction false} PlaceFromFrame(bars: seq<Bar>, i: nat, bases: Bases)
    requires i <= |bars|
    ensures var r := PlaceFrom(bars, i, bases);
      r.1.pio >= bases.pio && r.1.mmio >= bases.mmio &&
      (forall k :: 0 <= k < |bars| ==> r.0[k].aspace == bars[k].aspace) &&
      (forall k :: 0 <= k < i ==> r.0[k] == bars[k]) &&
      (forall k :: FirstUnimplemented(bars, i) <= k < |bars| ==> r.0[k] == bars[k])
    decreases |bars| - i
  {
    if i < |bars| && bars[i].size != 0 {
      var one := PlaceBar(bars[i], bases);
      PlaceBarMoves(bars[i], bases);
      PlaceFromFrame(bars[i := one.0], i + 1, one.1);
      FirstUnimplementedUpdate(bars, i, one.0, i + 1);
    }
  }

  /** Connect's placement keeps every BAR's address space, changes nothing
      from the first unimplemented BAR on, and never moves the free
      addresses back. */
  lemma PlaceAllFrame(bars: seq<Bar>, bases: Bases)
    ensures var r := PlaceAll(bars, bases);
      r.1.pio >= bases.pio && r.1.mmio >= bases.mmio &&
      (forall k :: 0 <= k < |bars| ==> r.0[k].aspace == bars[k].aspace) &&
      (forall k :: FirstUnimplemented(bars, 0) <= k < |bars| ==> r.0[k] == bars[k])
  {
    PlaceFromFrame(bars, 0, bases);
  }

  /** Connect's loop over the BARs, on the BAR values: each implemented BAR
      in turn is placed at the current free address, stopping at the first
      unimplemented one. */
  method PlaceBars(bars: seq<Bar>, bases: Bases) returns (placed: seq<Bar>, next: Bases)
    ensures (placed, next) == PlaceAll(bars, bases)
  {
    placed, next := bars, bases;
    var i := 0;
    while i < |placed|
      invariant i <= |placed| == |bars|
      invariant PlaceFrom(placed, i, next) == PlaceAll(bars, bases)
    {
      var b := placed[i];
      if b.size == 0 {
        break;
      }
      var one := PlaceBar(b, next);
      placed := placed[i := one.0];
      next := one.1;
      i := i + 1;
    }
  }

  // ---------------------------------------------------------------------
  // Trapped addresses

  /** pci_bar_base: the BAR's address without its flag bits (2 for I/O, 4
      for memory); 0 for an unknown address space. */
  function BarBase(b: Bar): nat
  {
    if b.aspace == ASPACE_PIO then (b.addr & 0xFFFF_FFFC) as nat
    else if b.aspace == ASPACE_MMIO then (b.addr & 0xFFFF_FFF0) as nat
    else 0
  }

  /** pci_bar_size: the BAR's size cut to 16 bits. */
  function BarSize(b: Bar): nat
  {
    ((b.size & 0xFFFF) as bv16) as nat
  }

  /** pci_device_aspace_enabled: the command register enables I/O or
      memory decoding for the address space. */
  predicate AspaceEnabled(aspace: bv8, command: bv16)
  {
    if aspace == ASPACE_PIO then command & COMMAND_IO_EN != 0
    else if aspace == ASPACE_MMIO then command & COMMAND_MEM_EN != 0
    else false
  }

  /** A BAR answers for `addr` in `aspace`: decoding is enabled, the BAR has
      a size, is in that space and its range holds `addr`. */
  predicate BarHolds(b: Bar, command: bv16, aspace: bv8, addr: nat)
  {
    AspaceEnabled(aspace, command) && BarSize(b) != 0 && b.aspace == aspace &&
    BarBase(b) <= addr < BarBase(b) + BarSize(b)
  }

  /** Where a trapped access lands: the slot, the BAR and the offset in it. */
  datatype Mapping = Mapping(slot: nat, bar: nat, off: nat)

  // ---------------------------------------------------------------------
  // Type 1 configuration addresses (configuration mechanism #1 of the PCI
  // Local Bus Specification, revision 3.0, section 3.2.2.3.2)

  function Type1Bus(a: bv32): nat { ((a >> 16) & 0xFF) as nat }
  function Type1Device(a: bv32): nat { ((a >> 11) & 0x1F) as nat }
  function Type1Function(a: bv32): nat { ((a >> 8) & 0x7) as nat }
  function Type1Register(a: bv32): nat { (a & 0xFC) as nat }

  /** The configuration register a data-port access at `port` reaches:
      the address's register plus the port's offset, as a 16-bit value. */
  function DataRegister(a: bv32, port: nat): nat
    requires DATA_PORT_BASE <= port
  {
    (Type1Register(a) + port - DATA_PORT_BASE) % 0x1_0000
  }

  // ---------------------------------------------------------------------
  // Devices and the bus

  /** A device on the bus: what it presents in configuration space and the
      interrupt the bus gave it. Its attributes and capabilities are fixed;
      the guest and the bus change its BARs and command register. */
  class PciDevice {
    const attrs: Attributes
    const caps: seq<Cap>
    var bars: seq<Bar>
    var command: bv16
    var globalIrq: nat

    /** The device's configuration space, as a value. */
    function Space(): Config
      reads this
    {
      Config(attrs, bars, command, caps)
    }

    predicate Valid()
      reads this
    {
      ConfigOk(Space())
    }

    constructor (attrs: Attributes, bars: seq<Bar>, caps: seq<Cap>)
      requires |bars| <= MAX_BAR_SLOTS && CapsOk(caps)
      ensures Valid()
      ensures this.attrs == attrs && this.bars == bars && this.caps == caps
      ensures command == 0 && globalIrq == 0
    {
      this.attrs := attrs;
      this.caps := caps;
      this.bars := bars;
      command := 0;
      globalIrq := 0;
    }

    /** FindCapability: walks the capabilities, accumulating their lengths
        from CAP_BASE, and stops at the first one that ends after `addr`. */
    method FindCapability(addr: nat) returns (r: Option<CapHit>)
      ensures r == FindFrom(caps, addr, 0)
    {
      var base := CAP_BASE;
      var i := 0;
      while i < |caps|
        invariant i <= |caps| && base == CapBase(caps, i)
        invariant FindFrom(caps, addr, 0) == FindFrom(caps, addr, i)
      {
        var len := CapLen(caps[i]);
        if addr >= base + len {
          base := base + len;
          i := i + 1;
          continue;
        }
        return Some(CapHit(i, base));
      }
      return None;
    }

    /** ReadCapability: the word of capability bytes at `addr`, assembled
        byte by byte and stopping at the capability's end (padding reads 0);
        NOT_FOUND when no capability holds `addr`. */
    method ReadCapability(addr: nat) returns (status: Status, word: bv32)
      requires CapsOk(caps) && CAP_BASE <= addr <= CAP_TOP
      ensures match CapWord(caps, addr)
        case None => status == ErrNotFound
        case Some(w) => status == Ok && word == w
    {
      var hit := FindCapability(addr);
      if hit.None? {
        return ErrNotFound, 0;
      }
      word := AssembleCapability(hit.value.index, hit.value.base, CapOffset(addr, hit.value.base));
      status := Ok;
    }

    /** ReadCapability's loop: up to four bytes of capability `idx`, which
        starts at `base`, from offset `start`, stopping at the capability's
        end so that padding reads 0. */
    method AssembleCapability(idx: nat, base: nat, start: nat) returns (word: bv32)
      requires CapsOk(caps) && idx < |caps|
      ensures word == Assemble(CapBytes(caps, idx, base, start), 4)
    {
      var cap := caps[idx];
      ghost var f := CapBytes(caps, idx, base, start);
      word := 0;
      var off := start;
      var byte := 0;
      while byte < 4
        invariant byte <= 4 && off == start + byte
        invariant word == Assemble(f, byte)
      {
        if off >= cap.len {
          PaddingZeros(caps, idx, base, start, byte);
          AssembleZeros(f, byte);
          break;
        }
        var val := CapByte(caps, idx, base, off);
        AssembleNext(f, byte, word, val);
        word := word | Shifted(val, byte);
        byte := byte + 1;
        off := off + 1;
      }
    }

    /** WriteConfig: applies a guest write to the configuration space as
        Write describes it; nothing else about the device changes. */
    method WriteConfig(reg: nat, len: nat, value: bv32) returns (status: Status)
      requires Valid()
      modifies this
      ensures Valid() && globalIrq == old(globalIrq)
      ensures (status, Space()) == Write(old(Space()), reg, len, value)
    {
      WriteKeepsOk(Space(), reg, len, value);
      if IsReadOnly(reg) {
        return ErrNotSupported;
      }
      if reg == COMMAND {
        if len != 2 {
          return ErrNotSupported;
        }
        command := (value & 0xFFFF) as bv16;
        return Ok;
      }
      if IsBarRegister(reg) {
        if len != 4 {
          return ErrNotSupported;
        }
        var n := BarIndex(reg);
        if n >= |bars| {
          return Ok;
        }
        var b := bars[n];
        bars := bars[n := b.(addr := value & !(b.size - 1))];
        return Ok;
      }
      return Ok;
    }
  }

  /** The bus: a slot per device, the type 1 configuration address the
      guest last programmed, and the next free I/O port and memory
      addresses for BARs. */
  class PciBus {
    var devices: seq<PciDevice?>
    var configAddr: bv32
    var pioBase: nat
    var mmioBase: nat

    /** The connected devices. */
    function Objects(): set<PciDevice>
      reads this
    {
      set d: PciDevice | d in devices
    }

    predicate Valid()
      reads this, Objects()
    {
      |devices| == PCI_MAX_DEVICES &&
      forall i :: 0 <= i < |devices| && devices[i] != null ==> devices[i] in Objects() && devices[i].Valid()
    }

    constructor (pioBase: nat, mmioBase: nat)
      ensures Valid() && devices == [null, null, null, null, null] && configAddr == 0
      ensures this.pioBase == pioBase && this.mmioBase == mmioBase
    {
      devices := [null, null, null, null, null];
      configAddr := 0;
      this.pioBase := pioBase;
      this.mmioBase := mmioBase;
    }

    /** is_addr_valid: bus 0, function 0, a device number below the slot
        count and a device in that slot. */
    predicate AddrValid(a: bv32)
      reads this
    {
      Type1Bus(a) == 0 && Type1Function(a) == 0 && Type1Device(a) < |devices| &&
      devices[Type1Device(a)] != null
    }

    /** Connect: a slot past the last is OUT_OF_RANGE and an occupied slot
        ALREADY_EXISTS, with nothing changed. Otherwise the device's BARs are
        placed (PlaceAll), I/O and memory decoding are enabled, the device
        gets its slot's interrupt and takes the slot; the result is the
        status of setting up its BAR traps, `traps`. */
    method Connect(device: PciDevice, slot: nat, traps: Status) returns (status: Status)
      requires Valid() && device.Valid()
      modifies this, device
      ensures Valid() && configAddr == old(configAddr)
      ensures slot >= PCI_MAX_DEVICES ==> status == ErrOutOfRange
      ensures slot < PCI_MAX_DEVICES && old(devices[slot]) != null ==> status == ErrAlreadyExists
      ensures slot >= PCI_MAX_DEVICES || old(devices[slot]) != null ==>
        devices == old(devices) && pioBase == old(pioBase) && mmioBase == old(mmioBase) &&
        unchanged(device)
      ensures slot < PCI_MAX_DEVICES && old(devices[slot]) == null ==>
        status == traps && devices == old(devices)[slot := device] &&
        (device.bars, Bases(pioBase, mmioBase)) == PlaceAll(old(device.bars), Bases(old(pioBase), old(mmioBase))) &&
        device.command == COMMAND_IO_EN | COMMAND_MEM_EN && device.globalIrq == GLOBAL_IRQS[slot]
    {
      if slot >= PCI_MAX_DEVICES {
        return ErrOutOfRange;
      }
      if devices[slot] != null {
        return ErrAlreadyExists;
      }
      var placed, next := PlaceBars(device.bars, Bases(pioBase, mmioBase));
      device.bars := placed;
      pioBase, mmioBase := next.pio, next.mmio;
      device.command := COMMAND_IO_EN | COMMAND_MEM_EN;
      device.globalIrq := GLOBAL_IRQS[slot];
      devices := devices[slot := device];
      return traps;
    }

    /** A guest read of `size` bytes from I/O port `port`, into an I/O value
        that held `prior`. The configuration address ports read the
        addressed bytes of the configuration address (PartialRead). The
        data ports read all ones of the access width when the address names
        no device, and otherwise the addressed device's configuration
        register, leaving the value as it was if that fails. Any other port
        is NOT_SUPPORTED. */
    method ReadIoPort(port: nat, size: bv8, prior: bv32) returns (status: Status, value: bv32)
      requires Valid()
      ensures ADDRESS_PORT_BASE <= port <= ADDRESS_PORT_TOP ==>
        status == Ok && value == PartialRead(configAddr, (port - ADDRESS_PORT_BASE) as bv32, size as bv32, prior)
      ensures DATA_PORT_BASE <= port <= DATA_PORT_TOP && !AddrValid(configAddr) ==>
        status == Ok && value == ByteMask(size as bv32)
      ensures DATA_PORT_BASE <= port <= DATA_PORT_TOP && AddrValid(configAddr) ==>
        var d := devices[Type1Device(configAddr)];
        match ReadConfig(d.Space(), DataRegister(configAddr, port), size)
        case Success(v) => status == Ok && value == v
        case Failure(e) => status == e && value == prior
      ensures !(ADDRESS_PORT_BASE <= port <= DATA_PORT_TOP) ==> status == ErrNotSupported && value == prior
    {
      if ADDRESS_PORT_BASE <= port <= ADDRESS_PORT_TOP {
        return Ok, PartialRead(configAddr, (port - ADDRESS_PORT_BASE) as bv32, size as bv32, prior);
      }
      if DATA_PORT_BASE <= port <= DATA_PORT_TOP {
        var addr := configAddr;
        if !AddrValid(addr) {
          return Ok, ByteMask(size as bv32);
        }
        var d := devices[Type1Device(addr)];
        assert d in Objects();
        var r := ReadConfig(d.Space(), DataRegister(addr, port), size);
        if r.Failure? {
          return r.error, prior;
        }
        return Ok, r.value;
      }
      return ErrNotSupported, prior;
    }

    /** A guest write of `size` bytes of `value` to I/O port `port`. The
        configuration address ports change the addressed bytes of the
        configuration address (PartialWrite). The data ports are
        OUT_OF_RANGE when the address names no device, and otherwise write
        the addressed device's configuration register. Any other port is
        NOT_SUPPORTED. Nothing else changes. */
    method WriteIoPort(port: nat, size: bv8, value: bv32) returns (status: Status)
      requires Valid()
      modifies this, Objects()
      ensures Valid() && devices == old(devices)
      ensures pioBase == old(pioBase) && mmioBase == old(mmioBase)
      ensures ADDRESS_PORT_BASE <= port <= ADDRESS_PORT_TOP ==>
        status == Ok && unchanged(Objects()) &&
        configAddr == PartialWrite(old(configAddr), (port - ADDRESS_PORT_BASE) as bv32, size as bv32, value)
      ensures DATA_PORT_BASE <= port <= DATA_PORT_TOP && !old(AddrValid(configAddr)) ==>
        status == ErrOutOfRange && configAddr == old(configAddr) && unchanged(Objects())
      ensures DATA_PORT_BASE <= port <= DATA_PORT_TOP && old(AddrValid(configAddr)) ==>
        var d := devices[Type1Device(old(configAddr))];
        configAddr == old(configAddr) &&
        (status, d.Space()) == Write(old(d.Space()), DataRegister(configAddr, port), size as nat, value) &&
        d.globalIrq == old(d.globalIrq) &&
        forall o :: o in Objects() && o != d ==> o.bars == old(o.bars) && o.command == old(o.command)
      ensures !(ADDRESS_PORT_BASE <= port <= DATA_PORT_TOP) ==>
        status == ErrNotSupported && configAddr == old(configAddr) && unchanged(Objects())
    {
      if ADDRESS_PORT_BASE <= port <= ADDRESS_PORT_TOP {
        configAddr := PartialWrite(configAddr, (port - ADDRESS_PORT_BASE) as bv32, size as bv32, value);
        return Ok;
      }
      if DATA_PORT_BASE <= port <= DATA_PORT_TOP {
        var addr := configAddr;
        if !AddrValid(addr) {
          return ErrOutOfRange;
        }
        var d := devices[Type1Device(addr)];
        assert d in Objects();
        status := d.WriteConfig(DataRegister(addr, port), size as nat, value);
        return;
      }
      return ErrNotSupported;
    }

    /** MappedDevice: the first device slot and BAR, in order, that answers
        for `addr` in `aspace`, with the offset of `addr` in that BAR;
        NOT_FOUND when none does. */
    method MappedDevice(aspace: bv8, addr: nat) returns (r: Result<Mapping>)
      requires Valid()
      ensures r.Success? ==>
        var m := r.value;
        HoldsAt(m.slot, m.bar, aspace, addr) &&
        m.off == addr - BarBase(devices[m.slot].bars[m.bar]) &&
        forall i: nat, j: nat :: (i < m.slot || (i == m.slot && j < m.bar)) ==> !HoldsAt(i, j, aspace, addr)
      ensures r.Failure? ==> r.error == ErrNotFound && forall i: nat, j: nat :: !HoldsAt(i, j, aspace, addr)
    {
      var i := 0;
      while i < |devices|
        invariant i <= |devices|
        invariant forall i': nat, j: nat :: i' < i ==> !HoldsAt(i', j, aspace, addr)
      {
        var d := devices[i];
        if d == null {
          i := i + 1;
          continue;
        }
        var j := 0;
        while j < |d.bars|
          invariant j <= |d.bars|
          invariant forall j': nat :: j' < j ==> !HoldsAt(i, j', aspace, addr)
        {
          var b := d.bars[j];
          if BarHolds(b, d.command, aspace, addr) {
            return Success(Mapping(i, j, addr - BarBase(b)));
          }
          j := j + 1;
        }
        i := i + 1;
      }
      return Failure(ErrNotFound);
    }

    /** BAR `j` of the device in slot `i` answers for `addr` in `aspace`. */
    predicate HoldsAt(i: nat, j: nat, aspace: bv8, addr: nat)
      reads this, Objects()
    {
      i < |devices| && devices[i] != null && j < |devices[i].bars| &&
      BarHolds(devices[i].bars[j], devices[i].command, aspace, addr)
    }
  }
}
