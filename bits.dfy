/** Bit helpers of the hypervisor's register emulation: masks, bytes of a
    32-bit word, and the partial accesses guests make to 32-bit registers
    (the PCI configuration address port, a configuration-space word).
    Shifts in these accesses are whole bytes (0 to 3), so they are written
    as byte counts; widths are counted in bytes as well. Counts are 32-bit
    unsigned values, as the I/O port arithmetic that produces them is. */
module Bits {
  /** The word moved down by `n` bytes: w >> (8 * n). */
  function Down(w: bv32, n: bv32): bv32
    requires n < 4
  {
    if n == 0 then w else if n == 1 then w >> 8 else if n == 2 then w >> 16 else w >> 24
  }

  /** The word moved up by `n` bytes: w << (8 * n). */
  function Up(w: bv32, n: bv32): bv32
    requires n < 4
  {
    if n == 0 then w else if n == 1 then w << 8 else if n == 2 then w << 16 else w << 24
  }

  /** bit_mask<uint32_t>(8 * n): the low `n` bytes set, the whole word from
      4 bytes on. */
  function ByteMask(n: bv32): bv32
  {
    if n == 0 then 0 else if n == 1 then 0xFF else if n == 2 then 0xFFFF
    else if n == 3 then 0xFF_FFFF else 0xFFFF_FFFF
  }

  /** Byte `k` (0 is the least significant) of a 32-bit word. */
  function Byte(w: bv32, k: bv32): bv8
    requires k < 4
  {
    (Down(w, k) & 0xFF) as bv8
  }

  /** clear_bits: `x` with `size` bytes from byte `offset` cleared. */
  function ClearBits(x: bv32, size: bv32, offset: bv32): bv32
    requires offset < 4
  {
    x & !Up(ByteMask(size), offset)
  }

  /** A guest write of `size` bytes of `value` at byte `port` of a 32-bit
      register holding `reg`: the addressed bits are cleared, then the low
      bytes of the value are shifted into place. */
  function PartialWrite(reg: bv32, port: bv32, size: bv32, value: bv32): bv32
    requires port < 4
  {
    ClearBits(reg, size, port) | Up(value & ByteMask(size), port)
  }

  /** A guest read of `size` bytes at byte `port` of a register holding
      `reg`, into an I/O value that held `prior`: the low bytes of the
      value are replaced and the others kept. */
  function PartialRead(reg: bv32, port: bv32, size: bv32, prior: bv32): bv32
    requires port < 4
  {
    (prior & !ByteMask(size)) | (Down(reg, port) & ByteMask(size))
  }

  /** PciDevice::ReadConfig's extraction: the aligned word shifted down by
      the byte offset of the register and cut to `len` bytes. */
  function Extract(word: bv32, offset: bv32, len: bv32): bv32
    requires offset < 4
  {
    Down(word, offset) & ByteMask(len)
  }

  /** The mask of `len` bytes: all ones in its low `len` bytes, zero above
      (this is also the value of a read of a missing device). */
  lemma AllOnesBytes(len: bv32, k: bv32)
    requires k < 4
    ensures Byte(ByteMask(len), k) == if k < len then 0xFF else 0
  {
  }

  /** The bits of a register that a partial access of `size` bytes at byte
      `port` addresses. */
  function FieldMask(port: bv32, size: bv32): bv32
    requires port < 4
  {
    Up(ByteMask(size), port)
  }

  /** The accesses a guest makes to a 32-bit register through its four I/O
      ports: 1, 2 or 4 bytes from byte `port`, inside the register. */
  predicate Access(port: bv32, size: bv32)
  {
    (size == 1 || size == 2 || size == 4) && port < 4 && size <= 4 - port
  }


  /** A partial write puts the low bytes of the value into the addressed
      field of the register. */
  lemma PartialWriteField(reg: bv32, port: bv32, size: bv32, value: bv32)
    requires Access(port, size)
    ensures PartialWrite(reg, port, size, value) & FieldMask(port, size) == Up(value, port) & FieldMask(port, size)
  {
    if port == 0 && size == 1 {
      WriteField01(reg, port, size, value);
    } else if port == 0 && size == 2 {
      WriteField02(reg, port, size, value);
    } else if port == 0 && size == 4 {
      WriteField04(reg, port, size, value);
    } else if port == 1 && size == 1 {
      WriteField11(reg, port, size, value);
    } else if port == 1 && size == 2 {
      WriteField12(reg, port, size, value);
    } else if port == 2 && size == 1 {
      WriteField21(reg, port, size, value);
    } else if port == 2 && size == 2 {
      WriteField22(reg, port, size, value);
    } else {
      WriteField31(reg, port, size, value);
    }
  }

  // PartialWriteField for each access, with the port and width fixed.
  lemma WriteField01(reg: bv32, port: bv32, size: bv32, value: bv32)
    requires port == 0 && size == 1
    ensures PartialWrite(reg, port, size, value) & FieldMask(port, size) == Up(value, port) & FieldMask(port, size)
  {
  }

  lemma WriteField02(reg: bv32, port: bv32, size: bv32, value: bv32)
    requires port == 0 && size == 2
    ensures PartialWrite(reg, port, size, value) & FieldMask(port, size) == Up(value, port) & FieldMask(port, size)
  {
  }

  lemma WriteField04(reg: bv32, port: bv32, size: bv32, value: bv32)
    requires port == 0 && size == 4
    ensures PartialWrite(reg, port, size, value) & FieldMask(port, size) == Up(value, port) & FieldMask(port, size)
  {
  }

  lemma WriteField11(reg: bv32, port: bv32, size: bv32, value: bv32)
    requires port == 1 && size == 1
    ensures PartialWrite(reg, port, size, value) & FieldMask(port, size) == Up(value, port) & FieldMask(port, size)
  {
  }

  lemma WriteField12(reg: bv32, port: bv32, size: bv32, value: bv32)
    requires port == 1 && size == 2
    ensures PartialWrite(reg, port, size, value) & FieldMask(port, size) == Up(value, port) & FieldMask(port, size)
  {
  }

  lemma WriteField21(reg: bv32, port: bv32, size: bv32, value: bv32)
    requires port == 2 && size == 1
    ensures PartialWrite(reg, port, size, value) & FieldMask(port, size) == Up(value, port) & FieldMask(port, size)
  {
  }

  lemma WriteField22(reg: bv32, port: bv32, size: bv32, value: bv32)
    requires port == 2 && size == 2
    ensures PartialWrite(reg, port, size, value) & FieldMask(port, size) == Up(value, port) & FieldMask(port, size)
  {
  }

  lemma WriteField31(reg: bv32, port: bv32, size: bv32, value: bv32)
    requires port == 3 && size == 1
    ensures PartialWrite(reg, port, size, value) & FieldMask(port, size) == Up(value, port) & FieldMask(port, size)
  {
  }

  /** A partial write leaves every bit outside the addressed field as it
      was. */
  lemma PartialWriteKeeps(reg: bv32, port: bv32, size: bv32, value: bv32)
    requires Access(port, size)
    ensures PartialWrite(reg, port, size, value) & !FieldMask(port, size) == reg & !FieldMask(port, size)
  {
    if port == 0 && size == 1 {
      WriteKeeps01(reg, port, size, value);
    } else if port == 0 && size == 2 {
      WriteKeeps02(reg, port, size, value);
    } else if port == 0 && size == 4 {
      WriteKeeps04(reg, port, size, value);
    } else if port == 1 && size == 1 {
      WriteKeeps11(reg, port, size, value);
    } else if port == 1 && size == 2 {
      WriteKeeps12(reg, port, size, value);
    } else if port == 2 && size == 1 {
      WriteKeeps21(reg, port, size, value);
    } else if port == 2 && size == 2 {
      WriteKeeps22(reg, port, size, value);
    } else {
      WriteKeeps31(reg, port, size, value);
    }
  }

  // PartialWriteKeeps for each access, with the port and width fixed.
  lemma WriteKeeps01(reg: bv32, port: bv32, size: bv32, value: bv32)
    requires port == 0 && size == 1
    ensures PartialWrite(reg, port, size, value) & !FieldMask(port, size) == reg & !FieldMask(port, size)
  {
  }

  lemma WriteKeeps02(reg: bv32, port: bv32, size: bv32, value: bv32)
    requires port == 0 && size == 2
    ensures PartialWrite(reg, port, size, value) & !FieldMask(port, size) == reg & !FieldMask(port, size)
  {
  }

  lemma WriteKeeps04(reg: bv32, port: bv32, size: bv32, value: bv32)
    requires port == 0 && size == 4
    ensures PartialWrite(reg, port, size, value) & !FieldMask(port, size) == reg & !FieldMask(port, size)
  {
  }

  lemma WriteKeeps11(reg: bv32, port: bv32, size: bv32, value: bv32)
    requires port == 1 && size == 1
    ensures PartialWrite(reg, port, size, value) & !FieldMask(port, size) == reg & !FieldMask(port, size)
  {
  }

  lemma WriteKeeps12(reg: bv32, port: bv32, size: bv32, value: bv32)
    requires port == 1 && size == 2
    ensures PartialWrite(reg, port, size, value) & !FieldMask(port, size) == reg & !FieldMask(port, size)
  {
  }

  lemma WriteKeeps21(reg: bv32, port: bv32, size: bv32, value: bv32)
    requires port == 2 && size == 1
    ensures PartialWrite(reg, port, size, value) & !FieldMask(port, size) == reg & !FieldMask(port, size)
  {
  }

  lemma WriteKeeps22(reg: bv32, port: bv32, size: bv32, value: bv32)
    requires port == 2 && size == 2
    ensures PartialWrite(reg, port, size, value) & !FieldMask(port, size) == reg & !FieldMask(port, size)
  {
  }

  lemma WriteKeeps31(reg: bv32, port: bv32, size: bv32, value: bv32)
    requires port == 3 && size == 1
    ensures PartialWrite(reg, port, size, value) & !FieldMask(port, size) == reg & !FieldMask(port, size)
  {
  }

  /** Reading back, at the same port and width, a field just written gives
      the written bytes, wherever in the register the field lies. */
  lemma PartialRoundTrip(reg: bv32, port: bv32, size: bv32, value: bv32, prior: bv32)
    requires Access(port, size)
    ensures PartialRead(PartialWrite(reg, port, size, value), port, size, prior) & ByteMask(size) == value & ByteMask(size)
  {
    if port == 0 && size == 1 {
      RoundTrip01(reg, port, size, value, prior);
    } else if port == 0 && size == 2 {
      RoundTrip02(reg, port, size, value, prior);
    } else if port == 0 && size == 4 {
      RoundTrip04(reg, port, size, value, prior);
    } else if port == 1 && size == 1 {
      RoundTrip11(reg, port, size, value, prior);
    } else if port == 1 && size == 2 {
      RoundTrip12(reg, port, size, value, prior);
    } else if port == 2 && size == 1 {
      RoundTrip21(reg, port, size, value, prior);
    } else if port == 2 && size == 2 {
      RoundTrip22(reg, port, size, value, prior);
    } else {
      RoundTrip31(reg, port, size, value, prior);
    }
  }

  // PartialRoundTrip for each access, with the port and width fixed.
  lemma RoundTrip01(reg: bv32, port: bv32, size: bv32, value: bv32, prior: bv32)
    requires port == 0 && size == 1
    ensures PartialRead(PartialWrite(reg, port, size, value), port, size, prior) & ByteMask(size) == value & ByteMask(size)
  {
  }

  lemma RoundTrip02(reg: bv32, port: bv32, size: bv32, value: bv32, prior: bv32)
    requires port == 0 && size == 2
    ensures PartialRead(PartialWrite(reg, port, size, value), port, size, prior) & ByteMask(size) == value & ByteMask(size)
  {
  }

  lemma RoundTrip04(reg: bv32, port: bv32, size: bv32, value: bv32, prior: bv32)
    requires port == 0 && size == 4
    ensures PartialRead(PartialWrite(reg, port, size, value), port, size, prior) & ByteMask(size) == value & ByteMask(size)
  {
  }

  lemma RoundTrip11(reg: bv32, port: bv32, size: bv32, value: bv32, prior: bv32)
    requires port == 1 && size == 1
    ensures PartialRead(PartialWrite(reg, port, size, value), port, size, prior) & ByteMask(size) == value & ByteMask(size)
  {
  }

  lemma RoundTrip12(reg: bv32, port: bv32, size: bv32, value: bv32, prior: bv32)
    requires port == 1 && size == 2
    ensures PartialRead(PartialWrite(reg, port, size, value), port, size, prior) & ByteMask(size) == value & ByteMask(size)
  {
  }

  lemma RoundTrip21(reg: bv32, port: bv32, size: bv32, value: bv32, prior: bv32)
    requires port == 2 && size == 1
    ensures PartialRead(PartialWrite(reg, port, size, value), port, size, prior) & ByteMask(size) == value & ByteMask(size)
  {
  }

  lemma RoundTrip22(reg: bv32, port: bv32, size: bv32, value: bv32, prior: bv32)
    requires port == 2 && size == 2
    ensures PartialRead(PartialWrite(reg, port, size, value), port, size, prior) & ByteMask(size) == value & ByteMask(size)
  {
  }

  lemma RoundTrip31(reg: bv32, port: bv32, size: bv32, value: bv32, prior: bv32)
    requires port == 3 && size == 1
    ensures PartialRead(PartialWrite(reg, port, size, value), port, size, prior) & ByteMask(size) == value & ByteMask(size)
  {
  }

  /** ReadConfig's extraction takes exactly the addressed field: moved back
      up to its byte offset, the result is the word under the field's mask. */
  lemma ExtractField(word: bv32, port: bv32, size: bv32)
    requires Access(port, size)
    ensures Up(Extract(word, port, size), port) == word & FieldMask(port, size)
  {
    if port == 0 && size == 1 {
      ExtractField01(word, port, size);
    } else if port == 0 && size == 2 {
      ExtractField02(word, port, size);
    } else if port == 0 && size == 4 {
      ExtractField04(word, port, size);
    } else if port == 1 && size == 1 {
      ExtractField11(word, port, size);
    } else if port == 1 && size == 2 {
      ExtractField12(word, port, size);
    } else if port == 2 && size == 1 {
      ExtractField21(word, port, size);
    } else if port == 2 && size == 2 {
      ExtractField22(word, port, size);
    } else {
      ExtractField31(word, port, size);
    }
  }

  // ExtractField for each access, with the port and width fixed.
  lemma ExtractField01(word: bv32, port: bv32, size: bv32)
    requires port == 0 && size == 1
    ensures Up(Extract(word, port, size), port) == word & FieldMask(port, size)
  {
  }

  lemma ExtractField02(word: bv32, port: bv32, size: bv32)
    requires port == 0 && size == 2
    ensures Up(Extract(word, port, size), port) == word & FieldMask(port, size)
  {
  }

  lemma ExtractField04(word: bv32, port: bv32, size: bv32)
    requires port == 0 && size == 4
    ensures Up(Extract(word, port, size), port) == word & FieldMask(port, size)
  {
  }

  lemma ExtractField11(word: bv32, port: bv32, size: bv32)
    requires port == 1 && size == 1
    ensures Up(Extract(word, port, size), port) == word & FieldMask(port, size)
  {
  }

  lemma ExtractField12(word: bv32, port: bv32, size: bv32)
    requires port == 1 && size == 2
    ensures Up(Extract(word, port, size), port) == word & FieldMask(port, size)
  {
  }

  lemma ExtractField21(word: bv32, port: bv32, size: bv32)
    requires port == 2 && size == 1
    ensures Up(Extract(word, port, size), port) == word & FieldMask(port, size)
  {
  }

  lemma ExtractField22(word: bv32, port: bv32, size: bv32)
    requires port == 2 && size == 2
    ensures Up(Extract(word, port, size), port) == word & FieldMask(port, size)
  {
  }

  lemma ExtractField31(word: bv32, port: bv32, size: bv32)
    requires port == 3 && size == 1
    ensures Up(Extract(word, port, size), port) == word & FieldMask(port, size)
  {
  }

  /** A partial read puts the register's bits from byte `port` on into the
      low `size` bytes of the I/O value. */
  lemma PartialReadField(reg: bv32, port: bv32, size: bv32, prior: bv32)
    requires port < 4
    ensures PartialRead(reg, port, size, prior) & ByteMask(size) == Down(reg, port) & ByteMask(size)
  {
  }

  /** A partial read keeps the I/O value's bits above the `size` bytes
      read. */
  lemma PartialReadKeeps(reg: bv32, port: bv32, size: bv32, prior: bv32)
    requires port < 4
    ensures PartialRead(reg, port, size, prior) & !ByteMask(size) == prior & !ByteMask(size)
  {
  }

  /** The extracted value has no bits above the `len` bytes read. */
  lemma ExtractHigh(word: bv32, offset: bv32, len: bv32)
    requires offset < 4
    ensures Extract(word, offset, len) & !ByteMask(len) == 0
  {
  }
}
