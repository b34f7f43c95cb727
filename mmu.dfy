/** The x86 MMU's address checks, the translation between the kernel's
    architecture-independent mapping flags and the bits of a page-table
    entry (for the processor's page tables and for EPT), the cursor that
    walks a range of address space, and the loops that map, unmap and
    protect the entries of a last-level page table. Addresses are the
    source's 64-bit unsigned integers, held as naturals below 2^64 with
    the wrap-around of an addition written out; flags are bit-vectors of
    their C widths. */
module Mmu {
  import opened ZxStatus
  import Arith

  // ---------------------------------------------------------------------
  // Addresses

  /** 2^64: one more than the largest 64-bit address. */
  const ADDRESS_SPACE: nat := 0x1_0000_0000_0000_0000
  const PAGE_SIZE: nat := 0x1000
  const NO_OF_PT_ENTRIES: nat := 512

  /** The widths the kernel assumes before it asks the processor. */
  const DEFAULT_VADDR_WIDTH: nat := 48
  const DEFAULT_PADDR_WIDTH: nat := 32

  /** x86_mmu_early_init: a width the processor reports replaces the
      default only when it is wider (some emulators report nonsense
      narrow widths). */
  function TrimmedWidth(default: nat, reported: nat): (w: nat)
    ensures w >= default && w >= reported
    ensures w == default || w == reported
  {
    if reported > default then reported else default
  }

  /** The largest address of the lower canonical half for a linear address
      width `w`, e.g. 0x0000_7FFF_FFFF_FFFF for 48 bits. */
  function MaxLowHalf(w: nat): nat
    requires 1 <= w <= 64
  {
    Pow2(w - 1) - 1
  }

  /** The smallest address of the upper canonical half: the complement of
      MaxLowHalf in 64 bits. */
  function MinHighHalf(w: nat): nat
    requires 1 <= w <= 64
  {
    Pow2Divides(w - 1);
    U64_MAX - MaxLowHalf(w)
  }

  /** x86_is_vaddr_canonical: only the hole between the two halves is
      refused. */
  predicate Canonical(vaddr: nat, w: nat)
    requires 1 <= w <= 64
  {
    !(vaddr > MaxLowHalf(w) && vaddr < MinHighHalf(w))
  }

  /** The 64-bit address whose low `w` bits are `low` and whose upper bits
      all copy bit w-1: the architecture's definition of a canonical
      address. */
  function SignExtend(low: nat, w: nat): nat
    requires 1 <= w <= 64
    requires low < Pow2(w)
  {
    Pow2Divides(w);
    if low < Pow2(w - 1) then low else low + ADDRESS_SPACE - Pow2(w)
  }

  lemma {:induction false} Pow2Add(a: nat, b: nat)
    ensures Pow2(a + b) == Pow2(a) * Pow2(b)
    decreases a
  {
    if a > 0 {
      var x, y := Pow2(a - 1), Pow2(b);
      calc {
        Pow2(a + b);
        2 * Pow2(a - 1 + b);
        { Pow2Add(a - 1, b); }
        2 * (x * y);
        { MulTwice(x, y); }
        (2 * x) * y;
      }
    }
  }

  lemma MulTwice(x: nat, y: nat)
    ensures 2 * (x * y) == (2 * x) * y
  {
  }

  /** The powers of two the address arithmetic needs, as literals. */
  lemma Pow2Values()
    ensures Pow2(12) == PAGE_SIZE
    ensures Pow2(64) == ADDRESS_SPACE
  {
    assert Pow2(1) == 2;
    assert Pow2(2) == 4;
    assert Pow2(3) == 8;
    assert Pow2(4) == 16;
    Pow2Add(4, 4);
    assert Pow2(8) == 256;
    Pow2Add(8, 4);
    assert Pow2(12) == 4096;
    Pow2Add(8, 8);
    assert Pow2(16) == 0x1_0000;
    Pow2Add(16, 16);
    assert Pow2(32) == 0x1_0000_0000;
    Pow2Add(32, 32);
  }

  /** A width's power of two divides 2^64. */
  lemma Pow2Divides(w: nat)
    requires w <= 64
    ensures ADDRESS_SPACE == Pow2(w) * Pow2(64 - w)
    ensures Pow2(w) <= ADDRESS_SPACE
  {
    Pow2Add(w, 64 - w);
    Pow2Values();
    Arith.MulMono(1, Pow2(64 - w), Pow2(w));
  }

  /** The canonical check agrees with sign extension: an address passes
      exactly when it is the sign extension of its own low `w` bits. */
  lemma CanonicalIsSignExtended(vaddr: nat, w: nat)
    requires vaddr < ADDRESS_SPACE
    requires 1 <= w <= 64
    ensures Canonical(vaddr, w) <==> vaddr == SignExtend(vaddr % Pow2(w), w)
  {
    var h := Pow2(w - 1);
    assert Pow2(w) == 2 * h;
    Pow2Divides(w);
    Pow2Divides(w - 1);
    ModOfHalves(vaddr, h, ADDRESS_SPACE, Pow2(64 - w));
  }

  /** The remainders the canonical check depends on, for an address space
      of `n` bytes made of `q` blocks of 2h: below h the address is its own
      remainder; in the top h bytes the remainder is the address less all
      the blocks but the last, and at least h. */
  lemma ModOfHalves(v: nat, h: nat, n: nat, q: nat)
    requires h >= 1 && q >= 1 && n == (2 * h) * q && v < n
    ensures v < h ==> v % (2 * h) == v
    ensures v >= n - h ==> v % (2 * h) == v - (n - 2 * h) >= h
  {
    var p := 2 * h;
    if v < h {
      Arith.DivModUnique(v, p, 0, v);
    }
    if v >= n - h {
      assert p * q - p == p * (q - 1);
      Arith.DivModUnique(v, p, q - 1, v - (n - p));
    }
  }

  /** x86_mmu_check_vaddr: page aligned and canonical. */
  predicate CheckVaddr(vaddr: nat, w: nat)
    requires 1 <= w <= 64
  {
    vaddr % PAGE_SIZE == 0 && Canonical(vaddr, w)
  }

  /** x86_mmu_check_paddr: page aligned and at most 2^w - 1 for the
      physical address width `w` (the shift needs `w` below 64). */
  predicate CheckPaddr(paddr: nat, w: nat)
    requires w < 64
  {
    paddr % PAGE_SIZE == 0 && paddr <= Pow2(w) - 1
  }

  /** A physical address that passes the check starts a page that lies
      wholly inside the physical address space. */
  lemma CheckedPageFits(paddr: nat, w: nat)
    requires 12 <= w < 64
    requires CheckPaddr(paddr, w)
    ensures paddr + PAGE_SIZE <= Pow2(w)
  {
    Pow2Add(12, w - 12);
    Pow2Values();
    var k := Pow2(w - 12);
    assert Pow2(w) == PAGE_SIZE * k;
    var q := paddr / PAGE_SIZE;
    assert paddr == q * PAGE_SIZE;
    assert q < k;
    Arith.MulMono(q + 1, k, PAGE_SIZE);
  }

  // ---------------------------------------------------------------------
  // Page-table levels

  datatype Level = PT | PD | PDP | PML4

  /** The size of the region one entry at the level maps: 4 KiB, 2 MiB,
      1 GiB and 512 GiB. */
  function PageSize(level: Level): (ps: nat)
    ensures ps > 0 && ps % PAGE_SIZE == 0 && ADDRESS_SPACE % ps == 0
  {
    match level
    case PT => 0x1000
    case PD => 0x20_0000
    case PDP => 0x4000_0000
    case PML4 => 0x80_0000_0000
  }

  /** lower_level: the level below (the source asserts it is not PT). */
  function Lower(level: Level): Level
    requires level != PT
  {
    match level
    case PD => PT
    case PDP => PD
    case PML4 => PDP
  }

  /** A level maps 512 regions of the level below. */
  lemma LowerPageSize(level: Level)
    requires level != PT
    ensures PageSize(level) == NO_OF_PT_ENTRIES * PageSize(Lower(level))
  {
  }

  /** vaddr_to_index: the 9-bit index of the entry that maps `vaddr`. */
  function Index(level: Level, vaddr: nat): (i: nat)
    ensures i < NO_OF_PT_ENTRIES
  {
    (vaddr / PageSize(level)) % NO_OF_PT_ENTRIES
  }

  /** page_aligned. */
  predicate PageAligned(level: Level, vaddr: nat)
  {
    vaddr % PageSize(level) == 0
  }

  /** QueryVaddr: the physical address of `vaddr` under an entry of the
      level whose frame is `frame`, the offset within the page ORed in
      (for an aligned frame, the same as added). */
  function Translate(level: Level, frame: nat, vaddr: nat): (paddr: nat)
    requires level != PML4
    requires frame % PageSize(level) == 0
    ensures frame <= paddr < frame + PageSize(level)
    ensures paddr % PageSize(level) == vaddr % PageSize(level)
  {
    var ps := PageSize(level);
    var r := frame + vaddr % ps;
    Arith.DivModUnique(r, ps, frame / ps, vaddr % ps);
    r
  }

  // ---------------------------------------------------------------------
  // Architecture-independent mapping flags (32-bit `uint`)

  const ARCH_MMU_FLAG_CACHED: bv32 := 0
  const ARCH_MMU_FLAG_UNCACHED: bv32 := 1
  const ARCH_MMU_FLAG_UNCACHED_DEVICE: bv32 := 2
  const ARCH_MMU_FLAG_WRITE_COMBINING: bv32 := 3
  const ARCH_MMU_FLAG_CACHE_MASK: bv32 := 3
  const ARCH_MMU_FLAG_PERM_USER: bv32 := 0x4
  const ARCH_MMU_FLAG_PERM_READ: bv32 := 0x8
  const ARCH_MMU_FLAG_PERM_WRITE: bv32 := 0x10
  const ARCH_MMU_FLAG_PERM_EXECUTE: bv32 := 0x20

  /** Page-table entry bits (Intel SDM volume 3, section 4.5). */
  const X86_MMU_PG_P: bv64 := 0x1
  const X86_MMU_PG_RW: bv64 := 0x2
  const X86_MMU_PG_U: bv64 := 0x4
  const X86_MMU_PG_WT: bv64 := 0x8
  const X86_MMU_PG_CD: bv64 := 0x10
  const X86_MMU_PG_PS: bv64 := 0x80
  const X86_MMU_PG_PTE_PAT: bv64 := 0x80
  const X86_MMU_PG_G: bv64 := 0x100
  const X86_MMU_PG_LARGE_PAT: bv64 := 0x1000
  const X86_MMU_PG_NX: bv64 := 0x8000_0000_0000_0000

  /** The PAT entry a memory type selects, through the PAT, PCD and PWT
      bits: entry 0 write-back, entry 3 uncachable, entry 4 write-combining;
      for a 4 KiB entry the PAT bit is bit 7, for a large page bit 12. */
  const X86_MMU_PTE_PAT_WRITEBACK: bv64 := 0
  const X86_MMU_PTE_PAT_UNCACHABLE: bv64 := 0x18
  const X86_MMU_PTE_PAT_WRITE_COMBINING: bv64 := 0x80
  const X86_MMU_PTE_PAT_MASK: bv64 := 0x98
  const X86_MMU_LARGE_PAT_WRITEBACK: bv64 := 0
  const X86_MMU_LARGE_PAT_UNCACHABLE: bv64 := 0x18
  const X86_MMU_LARGE_PAT_WRITE_COMBINING: bv64 := 0x1000
  const X86_MMU_LARGE_PAT_MASK: bv64 := 0x1018

  /** The entry bit `b` when `on`, else nothing. */
  function Bit64(on: bool, b: bv64): bv64
  {
    if on then b else 0
  }

  function Bit32(on: bool, b: bv32): bv32
  {
    if on then b else 0
  }

  /** The memory-type bits of a terminal entry at the level. */
  function CacheBits(level: Level, flags: bv32): bv64
  {
    var c := flags & ARCH_MMU_FLAG_CACHE_MASK;
    if level != PT then
      if c == ARCH_MMU_FLAG_CACHED then X86_MMU_LARGE_PAT_WRITEBACK
      else if c == ARCH_MMU_FLAG_WRITE_COMBINING then X86_MMU_LARGE_PAT_WRITE_COMBINING
      else X86_MMU_LARGE_PAT_UNCACHABLE
    else
      if c == ARCH_MMU_FLAG_CACHED then X86_MMU_PTE_PAT_WRITEBACK
      else if c == ARCH_MMU_FLAG_WRITE_COMBINING then X86_MMU_PTE_PAT_WRITE_COMBINING
      else X86_MMU_PTE_PAT_UNCACHABLE
  }

  /** The permission bits of a terminal entry: RW for write, U for user,
      G for a kernel page table that uses global mappings, NX unless
      execute is asked for. */
  function PermBits(flags: bv32, global: bool): bv64
  {
    Bit64(flags & ARCH_MMU_FLAG_PERM_WRITE != 0, X86_MMU_PG_RW)
    | Bit64(flags & ARCH_MMU_FLAG_PERM_USER != 0, X86_MMU_PG_U)
    | Bit64(global, X86_MMU_PG_G)
    | Bit64(flags & ARCH_MMU_FLAG_PERM_EXECUTE == 0, X86_MMU_PG_NX)
  }

  /** X86PageTableMmu::terminal_flags. Every value of the two cache bits
      has a case, so the source's unimplemented default cannot be reached. */
  function TerminalFlags(level: Level, flags: bv32, global: bool): bv64
  {
    PermBits(flags, global) | CacheBits(level, flags)
  }

  /** The mapping flags a terminal entry at the level stands for; None
      where the source panics (a PAT selection it never writes). */
  function MmuFlags(pt: bv64, level: Level): Option<bv32>
  {
    var cache := CacheFlags(pt, level);
    if cache.None? then None else Some(PermFlags(pt) | cache.value)
  }

  /** The permissions a terminal entry grants: read always, write for RW,
      user for U, execute unless NX. */
  function PermFlags(pt: bv64): bv32
  {
    ARCH_MMU_FLAG_PERM_READ
    | Bit32(pt & X86_MMU_PG_RW != 0, ARCH_MMU_FLAG_PERM_WRITE)
    | Bit32(pt & X86_MMU_PG_U != 0, ARCH_MMU_FLAG_PERM_USER)
    | Bit32(pt & X86_MMU_PG_NX == 0, ARCH_MMU_FLAG_PERM_EXECUTE)
  }

  /** The bits PermFlags reads. */
  const PERM_BITS: bv64 := 0x8000_0000_0000_0006

  /** PermFlags depends on the RW, U and NX bits only. */
  lemma PermFlagsMasked(x: bv64, y: bv64)
    requires x & PERM_BITS == y & PERM_BITS
    ensures PermFlags(x) == PermFlags(y)
  {
    PermBitOf(x, y, X86_MMU_PG_RW);
    PermBitOf(x, y, X86_MMU_PG_U);
    PermBitOf(x, y, X86_MMU_PG_NX);
  }

  lemma PermBitOf(x: bv64, y: bv64, b: bv64)
    requires b == X86_MMU_PG_RW || b == X86_MMU_PG_U || b == X86_MMU_PG_NX
    requires x & PERM_BITS == y & PERM_BITS
    ensures (x & b != 0) == (y & b != 0)
  {
    assert x & b == (x & PERM_BITS) & b;
    assert y & b == (y & PERM_BITS) & b;
  }

  /** The memory type a terminal entry selects. */
  function CacheFlags(pt: bv64, level: Level): Option<bv32>
  {
    if level != PT then
      var c := pt & X86_MMU_LARGE_PAT_MASK;
      if c == X86_MMU_LARGE_PAT_WRITEBACK then Some(ARCH_MMU_FLAG_CACHED)
      else if c == X86_MMU_LARGE_PAT_UNCACHABLE then Some(ARCH_MMU_FLAG_UNCACHED)
      else if c == X86_MMU_LARGE_PAT_WRITE_COMBINING then Some(ARCH_MMU_FLAG_WRITE_COMBINING)
      else None
    else
      var c := pt & X86_MMU_PTE_PAT_MASK;
      if c == X86_MMU_PTE_PAT_WRITEBACK then Some(ARCH_MMU_FLAG_CACHED)
      else if c == X86_MMU_PTE_PAT_UNCACHABLE then Some(ARCH_MMU_FLAG_UNCACHED)
      else if c == X86_MMU_PTE_PAT_WRITE_COMBINING then Some(ARCH_MMU_FLAG_WRITE_COMBINING)
      else None
  }

  /** The mapping flags a terminal entry is expected to give back: read
      always, write, user and execute as asked, and the cache policy, a
      device mapping coming back as plain uncached (the two share a memory
      type). */
  function Restored(flags: bv32): bv32
  {
    var c := flags & ARCH_MMU_FLAG_CACHE_MASK;
    ARCH_MMU_FLAG_PERM_READ
    | (flags & (ARCH_MMU_FLAG_PERM_WRITE | ARCH_MMU_FLAG_PERM_USER | ARCH_MMU_FLAG_PERM_EXECUTE))
    | (if c == ARCH_MMU_FLAG_UNCACHED_DEVICE then ARCH_MMU_FLAG_UNCACHED else c)
  }

  /** Reading back the entry terminal_flags builds gives the flags it was
      built from, in the sense of Restored, at every level. */
  lemma MmuFlagsRoundTrip(level: Level, flags: bv32, global: bool)
    ensures MmuFlags(TerminalFlags(level, flags, global), level) == Some(Restored(flags))
  {
    var pt := TerminalFlags(level, flags, global);
    CacheRoundTrip(level, flags, global);
    PermRoundTrip(level, flags, global);
  }

  /** The memory type survives the round trip. */
  lemma CacheRoundTrip(level: Level, flags: bv32, global: bool)
    ensures CacheFlags(TerminalFlags(level, flags, global), level)
      == Some(Restored(flags) & ARCH_MMU_FLAG_CACHE_MASK)
  {
  }

  /** The permissions survive the round trip. */
  lemma PermRoundTrip(level: Level, flags: bv32, global: bool)
    ensures PermFlags(TerminalFlags(level, flags, global)) == Restored(flags) & !ARCH_MMU_FLAG_CACHE_MASK
  {
  }

  /** The entry maps a large page (PS set). */
  predicate LargePage(flags: bv64)
  {
    flags & X86_MMU_PG_PS != 0
  }

  /** X86PageTableMmu::split_flags, for a large-page entry at PD or PDP
      level whose flags have PS set: at PD level the new entries are 4 KiB
      entries, so PS is cleared and a large page's PAT bit (bit 12) moves
      to bit 7, where a 4 KiB entry keeps it; at PDP level the new entries
      are 2 MiB pages and the flags stay as they are. */
  function SplitFlags(level: Level, flags: bv64): bv64
    requires level == PD || level == PDP
    requires LargePage(flags)
  {
    if level == PD then
      var cleared := flags & !X86_MMU_PG_PS;
      if cleared & X86_MMU_PG_LARGE_PAT != 0
      then (cleared & !X86_MMU_PG_LARGE_PAT) | X86_MMU_PG_PTE_PAT
      else cleared
    else flags
  }

  /** Splitting a large page keeps what its entries mean: the smaller
      entries read back the same mapping flags as the large one. */
  lemma SplitKeepsMeaning(level: Level, flags: bv64)
    requires level == PD || level == PDP
    requires LargePage(flags)
    ensures MmuFlags(SplitFlags(level, flags), Lower(level)) == MmuFlags(flags, level)
  {
    if level == PD {
      SplitPdKeepsMeaning(flags);
    } else {
      SplitPdpKeepsMeaning(flags);
    }
  }

  /** A 1 GiB entry splits into 2 MiB entries with the same flags, and both
      levels read their memory type from the same bits. */
  lemma SplitPdpKeepsMeaning(flags: bv64)
    requires LargePage(flags)
    ensures MmuFlags(SplitFlags(PDP, flags), PD) == MmuFlags(flags, PDP)
  {
    assert SplitFlags(PDP, flags) == flags;
    assert CacheFlags(flags, PD) == CacheFlags(flags, PDP);
  }

  lemma SplitPdKeepsMeaning(flags: bv64)
    requires LargePage(flags)
    ensures MmuFlags(SplitFlags(PD, flags), PT) == MmuFlags(flags, PD)
  {
    SplitKeepsCache(flags);
    SplitKeepsPerms(flags);
    PermFlagsMasked(SplitFlags(PD, flags), flags);
  }

  lemma SplitKeepsCache(flags: bv64)
    requires LargePage(flags)
    ensures CacheFlags(SplitFlags(PD, flags), PT) == CacheFlags(flags, PD)
  {
    SplitMovesPat(flags);
  }

  /** At PD level the memory-type selection moves from the large-page
      bits to the 4 KiB bits unchanged. */
  lemma SplitMovesPat(flags: bv64)
    requires LargePage(flags)
    ensures SplitFlags(PD, flags) & X86_MMU_PTE_PAT_MASK
      == (if flags & X86_MMU_PG_LARGE_PAT != 0 then X86_MMU_PG_PTE_PAT else 0) | (flags & 0x18)
  {
  }

  lemma SplitKeepsPerms(flags: bv64)
    requires LargePage(flags)
    ensures SplitFlags(PD, flags) & PERM_BITS == flags & PERM_BITS
  {
  }

  // ---------------------------------------------------------------------
  // EPT entries

  const X86_EPT_R: bv64 := 0x1
  const X86_EPT_W: bv64 := 0x2
  const X86_EPT_X: bv64 := 0x4
  /** Memory type 6 (write-back) in bits 5:3. */
  const X86_EPT_WB: bv64 := 0x30

  /** kValidEptFlags: the only flags a guest physical mapping may ask
      for. */
  const VALID_EPT_FLAGS: bv32 := 0x38

  /** X86PageTableEpt::terminal_flags: write-back, with R, W and X as
      asked (only the cached policy is supported, which the source
      asserts). */
  function EptTerminalFlags(flags: bv32): bv64
  {
    X86_EPT_WB
    | Bit64(flags & ARCH_MMU_FLAG_PERM_READ != 0, X86_EPT_R)
    | Bit64(flags & ARCH_MMU_FLAG_PERM_WRITE != 0, X86_EPT_W)
    | Bit64(flags & ARCH_MMU_FLAG_PERM_EXECUTE != 0, X86_EPT_X)
  }

  /** X86PageTableEpt::pt_flags_to_mmu_flags. */
  function EptMmuFlags(pt: bv64): bv32
  {
    ARCH_MMU_FLAG_CACHED
    | Bit32(pt & X86_EPT_R != 0, ARCH_MMU_FLAG_PERM_READ)
    | Bit32(pt & X86_EPT_W != 0, ARCH_MMU_FLAG_PERM_WRITE)
    | Bit32(pt & X86_EPT_X != 0, ARCH_MMU_FLAG_PERM_EXECUTE)
  }

  /** X86PageTableEpt::split_flags: EPT entries need no relocation. */
  function EptSplitFlags(level: Level, flags: bv64): (r: bv64)
    requires level == PD || level == PDP
    ensures EptMmuFlags(r) == EptMmuFlags(flags)
  {
    flags
  }

  /** The EPT round trip: the permissions come back, and flags that pass
      the guest check of X86ArchVmAspace::Map come back exactly. */
  lemma EptRoundTrip(flags: bv32)
    ensures EptMmuFlags(EptTerminalFlags(flags))
      == flags & (ARCH_MMU_FLAG_PERM_READ | ARCH_MMU_FLAG_PERM_WRITE | ARCH_MMU_FLAG_PERM_EXECUTE)
  {
  }

  lemma EptGuestRoundTrip(flags: bv32)
    requires flags & !VALID_EPT_FLAGS == 0
    ensures EptMmuFlags(EptTerminalFlags(flags)) == flags
  {
    EptRoundTrip(flags);
  }

  // ---------------------------------------------------------------------
  // The mapping cursor

  /** 64-bit unsigned addition: the sum wraps at 2^64. */
  function Add64(a: nat, b: nat): (r: nat)
    requires a < ADDRESS_SPACE && b < ADDRESS_SPACE
    ensures r < ADDRESS_SPACE
    ensures r == (a + b) % ADDRESS_SPACE
  {
    if a + b < ADDRESS_SPACE then a + b else a + b - ADDRESS_SPACE
  }

  /** Two wrapping additions are one. */
  lemma Add64Twice(a: nat, x: nat, y: nat)
    requires a < ADDRESS_SPACE && x + y < ADDRESS_SPACE
    ensures Add64(Add64(a, x), y) == Add64(a, x + y)
  {
  }

  /** How far SkipEntry moves: to the next boundary of the level's pages,
      or to the end of the range if that comes first. */
  function Skipped(level: Level, vaddr: nat, size: nat): (k: nat)
    ensures k <= size
    ensures size > 0 ==> k > 0
  {
    var ps := PageSize(level);
    var rest := ps - vaddr % ps;
    if size > rest then rest else size
  }

  /** After a skip the cursor is either done or at a boundary of the
      level's pages, which RemoveMapping and UpdateMapping rely on. */
  lemma SkipLands(level: Level, vaddr: nat, size: nat)
    requires vaddr < ADDRESS_SPACE && size < ADDRESS_SPACE
    ensures var k := Skipped(level, vaddr, size);
      size - k == 0 || PageAligned(level, Add64(vaddr, k))
  {
    var ps := PageSize(level);
    var k := Skipped(level, vaddr, size);
    if size - k != 0 {
      var q := vaddr / ps;
      Arith.DivModUnique(vaddr + k, ps, q + 1, 0);
      if vaddr + k >= ADDRESS_SPACE {
        var n := ADDRESS_SPACE / ps;
        assert ADDRESS_SPACE == n * ps;
        Arith.DivModUnique(vaddr + k - ADDRESS_SPACE, ps, q + 1 - n, 0);
      }
    }
  }

  /** A skip keeps the end of the range where it was. */
  lemma SkipKeepsEnd(level: Level, vaddr: nat, size: nat)
    requires vaddr < ADDRESS_SPACE && size < ADDRESS_SPACE
    ensures var k := Skipped(level, vaddr, size);
      Add64(Add64(vaddr, k), size - k) == Add64(vaddr, size)
  {
  }

  /** MappingCursor: the part of a range still to be walked, a physical
      address, a virtual address and a size in bytes, each a 64-bit
      unsigned integer. */
  class MappingCursor {
    var paddr: nat
    var vaddr: nat
    var size: nat

    predicate Valid()
      reads this
    {
      paddr < ADDRESS_SPACE && vaddr < ADDRESS_SPACE && size < ADDRESS_SPACE
    }

    constructor (paddr: nat, vaddr: nat, size: nat)
      requires paddr < ADDRESS_SPACE && vaddr < ADDRESS_SPACE && size < ADDRESS_SPACE
      ensures Valid()
      ensures this.paddr == paddr && this.vaddr == vaddr && this.size == size
    {
      this.paddr, this.vaddr, this.size := paddr, vaddr, size;
    }

    /** SkipEntry: pass over a not-present entry at the level. */
    method SkipEntry(level: Level)
      requires Valid()
      modifies this
      ensures Valid()
      ensures paddr == old(paddr)
      ensures size == old(size) - Skipped(level, old(vaddr), old(size))
      ensures vaddr == Add64(old(vaddr), Skipped(level, old(vaddr), old(size)))
    {
      var ps := PageSize(level);
      var skippedSize := ps - vaddr % ps;
      var step := if size > skippedSize then skippedSize else size;
      size := size - step;
      vaddr := Add64(vaddr, step);
    }

    /** The cursor has moved `d` bytes on from the given position. */
    predicate MovedFrom(p0: nat, v0: nat, s0: nat, d: nat)
      reads this
      requires p0 < ADDRESS_SPACE && v0 < ADDRESS_SPACE && d < ADDRESS_SPACE
    {
      paddr == Add64(p0, d) && vaddr == Add64(v0, d) && size + d == s0
    }
  }

  // ---------------------------------------------------------------------
  // The last-level page table

  /** A page-table entry: not present, or present with the frame it maps
      and its flag bits (UpdateEntry writes `paddr | flags | P`; UnmapEntry
      writes 0). */
  datatype Pte = Absent | Present(paddr: nat, flags: bv64)

  /** The number of entries of a last-level table a cursor covers: from
      the entry of its virtual address to the end of the table or of the
      range, whichever comes first. */
  function PagesInTable(vaddr: nat, size: nat): (n: nat)
    ensures Index(PT, vaddr) + n <= NO_OF_PT_ENTRIES
    ensures n * PAGE_SIZE <= size
    ensures size % PAGE_SIZE == 0 ==>
      n * PAGE_SIZE == size || Index(PT, vaddr) + n == NO_OF_PT_ENTRIES
  {
    var room := NO_OF_PT_ENTRIES - Index(PT, vaddr);
    if size / PAGE_SIZE < room then size / PAGE_SIZE else room
  }

  /** The walk over a last-level table stops exactly when it reaches the
      end of the table or has used up the (page-multiple) range. */
  lemma WalkStops(vaddr: nat, size: nat, index: nat)
    requires size % PAGE_SIZE == 0
    requires Index(PT, vaddr) <= index <= Index(PT, vaddr) + PagesInTable(vaddr, size)
    ensures index == Index(PT, vaddr) + PagesInTable(vaddr, size)
      <==> index == NO_OF_PT_ENTRIES || (index - Index(PT, vaddr)) * PAGE_SIZE == size
  {
    var start, n := Index(PT, vaddr), PagesInTable(vaddr, size);
    var d: int := index - start;
    if index < start + n {
      Arith.MulMono(d + 1, n, PAGE_SIZE);
    }
  }

  /** The first present entry in [i, end), or `end` if there is none. */
  function FirstPresent(s: seq<Pte>, i: nat, end: nat): (k: nat)
    requires i <= end <= |s|
    ensures i <= k <= end
    ensures forall j | i <= j < k :: s[j].Absent?
    ensures k < end ==> s[k].Present?
    decreases end - i
  {
    if i == end then end
    else if s[i].Present? then i
    else FirstPresent(s, i + 1, end)
  }

  /** Entries [start, k) mapped to consecutive pages from `paddr` with
      the given flags, the others as they were. */
  function MapRun(s: seq<Pte>, start: nat, k: nat, paddr: nat, flags: bv64): (r: seq<Pte>)
    requires start <= k <= |s| <= NO_OF_PT_ENTRIES
    requires paddr < ADDRESS_SPACE
    ensures |r| == |s|
  {
    seq(|s|, i requires 0 <= i < |s| =>
      if start <= i < k then Present(Add64(paddr, (i - start) * PAGE_SIZE), flags) else s[i])
  }

  /** Entries [start, end) cleared, the others as they were. */
  function ClearRun(s: seq<Pte>, start: nat, end: nat): (r: seq<Pte>)
    requires start <= end <= |s|
    ensures |r| == |s|
  {
    seq(|s|, i requires 0 <= i < |s| => if start <= i < end then Absent else s[i])
  }

  /** The present entries of [start, end) given new flags, keeping their
      frames; the others as they were. */
  function ProtectRun(s: seq<Pte>, start: nat, end: nat, flags: bv64): (r: seq<Pte>)
    requires start <= end <= |s|
    ensures |r| == |s|
  {
    seq(|s|, i requires 0 <= i < |s| =>
      if start <= i < end && s[i].Present? then Present(s[i].paddr, flags) else s[i])
  }

  /** A mapping run stopped at the first present entry overwrites no
      present entry. */
  lemma MapOverwritesNothing(s: seq<Pte>, start: nat, end: nat, paddr: nat, flags: bv64)
    requires start <= end <= |s| <= NO_OF_PT_ENTRIES && paddr < ADDRESS_SPACE
    ensures var r := MapRun(s, start, FirstPresent(s, start, end), paddr, flags);
      forall i | 0 <= i < |s| && s[i].Present? :: r[i] == s[i]
  {
  }

  /** Clearing a range undoes any mapping run inside it: what the abort
      path of AddMapping relies on when it removes what it has mapped. */
  lemma ClearUndoesMap(s: seq<Pte>, start: nat, k: nat, end: nat, paddr: nat, flags: bv64)
    requires start <= k <= end <= |s| <= NO_OF_PT_ENTRIES && paddr < ADDRESS_SPACE
    ensures ClearRun(MapRun(s, start, k, paddr, flags), start, end) == ClearRun(s, start, end)
  {
  }

  /** Protecting neither maps nor unmaps, and keeps every frame. */
  lemma ProtectKeepsMappings(s: seq<Pte>, start: nat, end: nat, flags: bv64)
    requires start <= end <= |s|
    ensures var r := ProtectRun(s, start, end, flags);
      forall i | 0 <= i < |s| :: r[i].Present? == s[i].Present? && (r[i].Present? ==> r[i].paddr == s[i].paddr)
  {
  }

  /** Extending a mapping run by one entry writes that entry only. */
  lemma MapRunStep(s: seq<Pte>, start: nat, k: nat, paddr: nat, flags: bv64)
    requires start <= k < |s| <= NO_OF_PT_ENTRIES && paddr < ADDRESS_SPACE
    ensures (k - start) * PAGE_SIZE < ADDRESS_SPACE
    ensures MapRun(s, start, k + 1, paddr, flags)
      == MapRun(s, start, k, paddr, flags)[k := Present(Add64(paddr, (k - start) * PAGE_SIZE), flags)]
  {
    Arith.MulMono(k - start, NO_OF_PT_ENTRIES, PAGE_SIZE);
  }

  /** Extending a cleared run by one entry clears that entry only. */
  lemma ClearRunStep(s: seq<Pte>, start: nat, k: nat)
    requires start <= k < |s|
    ensures ClearRun(s, start, k + 1) == ClearRun(s, start, k)[k := Absent]
  {
  }

  /** Extending a protected run by one entry rewrites that entry only, and
      only if it is present. */
  lemma ProtectRunStep(s: seq<Pte>, start: nat, k: nat, flags: bv64)
    requires start <= k < |s|
    ensures ProtectRun(s, start, k + 1, flags)
      == ProtectRun(s, start, k, flags)[k := if s[k].Present? then Present(s[k].paddr, flags) else s[k]]
  {
  }

  /** One last-level page table: 512 entries. */
  class PageTable {
    const entries: array<Pte>

    predicate Valid()
      reads this
    {
      entries.Length == NO_OF_PT_ENTRIES
    }

    /** A freshly allocated table is zeroed: no entry is present. */
    constructor ()
      ensures Valid() && fresh(entries)
      ensures forall i | 0 <= i < entries.Length :: entries[i] == Absent
    {
      entries := new Pte[NO_OF_PT_ENTRIES](_ => Absent);
    }

    /** AddMappingL0: map consecutive pages from the cursor's entry on,
        until the range or the table ends; a present entry stops the walk
        with ALREADY_EXISTS, leaving the entries mapped so far and the
        cursor after them. */
    method AddMappingL0(flags: bv64, cursor: MappingCursor) returns (status: Status)
      requires Valid() && cursor.Valid() && cursor.size % PAGE_SIZE == 0
      modifies entries, cursor
      ensures cursor.Valid()
      ensures var start := Index(PT, old(cursor.vaddr));
        var end := start + PagesInTable(old(cursor.vaddr), old(cursor.size));
        var k := FirstPresent(old(entries[..]), start, end);
        && entries[..] == MapRun(old(entries[..]), start, k, old(cursor.paddr), flags)
        && status == (if k < end then ErrAlreadyExists else Ok)
        && cursor.MovedFrom(old(cursor.paddr), old(cursor.vaddr), old(cursor.size), (k - start) * PAGE_SIZE)
    {
      ghost var s0 := entries[..];
      ghost var p0, v0, z0 := cursor.paddr, cursor.vaddr, cursor.size;
      var start := Index(PT, cursor.vaddr);
      ghost var end := start + PagesInTable(v0, z0);
      var index := start;
      while index != NO_OF_PT_ENTRIES && cursor.size != 0
        invariant start <= index <= end
        invariant cursor.Valid()
        invariant cursor.MovedFrom(p0, v0, z0, (index - start) * PAGE_SIZE)
        invariant entries[..] == MapRun(s0, start, index, p0, flags)
        invariant FirstPresent(s0, start, end) == FirstPresent(s0, index, end)
        decreases end - index
      {
        WalkStops(v0, z0, index);
        if entries[index].Present? {
          assert entries[index] == s0[index];
          assert FirstPresent(s0, start, end) == index;
          return ErrAlreadyExists;
        }
        MapRunStep(s0, start, index, p0, flags);
        entries[index] := Present(cursor.paddr, flags);
        Add64Twice(p0, (index - start) * PAGE_SIZE, PAGE_SIZE);
        Add64Twice(v0, (index - start) * PAGE_SIZE, PAGE_SIZE);
        cursor.paddr := Add64(cursor.paddr, PAGE_SIZE);
        cursor.vaddr := Add64(cursor.vaddr, PAGE_SIZE);
        cursor.size := cursor.size - PAGE_SIZE;
        index := index + 1;
      }
      WalkStops(v0, z0, index);
      assert index == end && FirstPresent(s0, start, end) == end;
      return Ok;
    }

    /** RemoveMappingL0: clear every entry from the cursor's entry on
        until the range or the table ends; the result says whether any
        of them was present. */
    method RemoveMappingL0(cursor: MappingCursor) returns (unmapped: bool)
      requires Valid() && cursor.Valid() && cursor.size % PAGE_SIZE == 0
      modifies entries, cursor
      ensures cursor.Valid()
      ensures var start := Index(PT, old(cursor.vaddr));
        var end := start + PagesInTable(old(cursor.vaddr), old(cursor.size));
        && entries[..] == ClearRun(old(entries[..]), start, end)
        && unmapped == (FirstPresent(old(entries[..]), start, end) < end)
        && cursor.paddr == old(cursor.paddr)
        && cursor.vaddr == Add64(old(cursor.vaddr), (end - start) * PAGE_SIZE)
        && cursor.size == old(cursor.size) - (end - start) * PAGE_SIZE
    {
      ghost var s0 := entries[..];
      ghost var v0, z0 := cursor.vaddr, cursor.size;
      var start := Index(PT, cursor.vaddr);
      ghost var end := start + PagesInTable(v0, z0);
      unmapped := false;
      var index := start;
      while index != NO_OF_PT_ENTRIES && cursor.size != 0
        invariant start <= index <= end
        invariant cursor.Valid() && cursor.paddr == old(cursor.paddr)
        invariant cursor.vaddr == Add64(v0, (index - start) * PAGE_SIZE)
        invariant cursor.size + (index - start) * PAGE_SIZE == z0
        invariant entries[..] == ClearRun(s0, start, index)
        invariant unmapped == (FirstPresent(s0, start, end) < index)
        decreases end - index
      {
        WalkStops(v0, z0, index);
        ClearRunStep(s0, start, index);
        if entries[index].Present? {
          entries[index] := Absent;
          unmapped := true;
        }
        Add64Twice(v0, (index - start) * PAGE_SIZE, PAGE_SIZE);
        cursor.vaddr := Add64(cursor.vaddr, PAGE_SIZE);
        cursor.size := cursor.size - PAGE_SIZE;
        index := index + 1;
      }
      WalkStops(v0, z0, index);
    }

    /** UpdateMappingL0: give every present entry from the cursor's entry
        on, until the range or the table ends, the new flags, keeping its
        frame; entries that are not present are passed over. */
    method UpdateMappingL0(flags: bv64, cursor: MappingCursor)
      requires Valid() && cursor.Valid() && cursor.size % PAGE_SIZE == 0
      modifies entries, cursor
      ensures cursor.Valid()
      ensures var start := Index(PT, old(cursor.vaddr));
        var end := start + PagesInTable(old(cursor.vaddr), old(cursor.size));
        && entries[..] == ProtectRun(old(entries[..]), start, end, flags)
        && cursor.paddr == old(cursor.paddr)
        && cursor.vaddr == Add64(old(cursor.vaddr), (end - start) * PAGE_SIZE)
        && cursor.size == old(cursor.size) - (end - start) * PAGE_SIZE
    {
      ghost var s0 := entries[..];
      ghost var v0, z0 := cursor.vaddr, cursor.size;
      var start := Index(PT, cursor.vaddr);
      ghost var end := start + PagesInTable(v0, z0);
      var index := start;
      while index != NO_OF_PT_ENTRIES && cursor.size != 0
        invariant start <= index <= end
        invariant cursor.Valid() && cursor.paddr == old(cursor.paddr)
        invariant cursor.vaddr == Add64(v0, (index - start) * PAGE_SIZE)
        invariant cursor.size + (index - start) * PAGE_SIZE == z0
        invariant entries[..] == ProtectRun(s0, start, index, flags)
        decreases end - index
      {
        WalkStops(v0, z0, index);
        ProtectRunStep(s0, start, index, flags);
        var e := entries[index];
        if e.Present? {
          entries[index] := Present(e.paddr, flags);
        }
        Add64Twice(v0, (index - start) * PAGE_SIZE, PAGE_SIZE);
        cursor.vaddr := Add64(cursor.vaddr, PAGE_SIZE);
        cursor.size := cursor.size - PAGE_SIZE;
        index := index + 1;
      }
      WalkStops(v0, z0, index);
    }
  }

  // ---------------------------------------------------------------------
  // UnmapPages, MapPages, ProtectPages and the address-space wrappers

  /** The byte count handed to the walk: `count` pages, wrapping at 2^64
      as the size_t product does. It is always a whole number of pages,
      which the walks over a last-level table require. */
  function RangeSize(count: nat): (size: nat)
    ensures size < ADDRESS_SPACE && size % PAGE_SIZE == 0
    ensures count * PAGE_SIZE < ADDRESS_SPACE ==> size == count * PAGE_SIZE
  {
    Arith.MultipleCut(count * PAGE_SIZE, PAGE_SIZE, ADDRESS_SPACE);
    (count * PAGE_SIZE) % ADDRESS_SPACE
  }

  /** What an entry point returns: its status and the page count it writes
      back through its out-pointer, None where it writes nothing. */
  datatype Outcome = Outcome(status: Status, done: Option<nat>)

  /** X86PageTableBase::UnmapPages. The walk's own result is not reported,
      so only the address check can fail; an empty range returns at once
      without writing the count back. */
  function UnmapPages(vaddr: nat, count: nat, vw: nat): (r: Outcome)
    requires 1 <= vw <= 64
    ensures r.status == Ok <==> CheckVaddr(vaddr, vw)
    ensures r.status != Ok ==> r.status == ErrInvalidArgs
    ensures r.done.Some? <==> r.status == Ok && count != 0
    ensures r.done.Some? ==> r.done.value == count
  {
    if !CheckVaddr(vaddr, vw) then Outcome(ErrInvalidArgs, None)
    else if count == 0 then Outcome(Ok, None)
    else Outcome(Ok, Some(count))
  }

  /** X86PageTableBase::MapPages, given the status `added` of the
      AddMapping walk it starts (the multi-level walk is not modelled).
      A success needs valid addresses and, for a non-empty range, read
      permission and a successful walk; an empty range at valid addresses
      succeeds whatever the flags; a failure is INVALID_ARGS or the walk's
      own error; the mapped count is written back exactly when a non-empty
      range succeeded. */
  function MapPages(vaddr: nat, paddr: nat, count: nat, mmuFlags: bv32, vw: nat, pw: nat, added: Status): (r: Outcome)
    requires 1 <= vw <= 64 && pw < 64
    ensures r.status == Ok <==>
      CheckPaddr(paddr, pw) && CheckVaddr(vaddr, vw)
      && (count == 0 || (mmuFlags & ARCH_MMU_FLAG_PERM_READ != 0 && added == Ok))
    ensures r.status != Ok ==> r.status == ErrInvalidArgs || r.status == added
    ensures r.done.Some? <==> r.status == Ok && count != 0
    ensures r.done.Some? ==> r.done.value == count
  {
    if !CheckPaddr(paddr, pw) || !CheckVaddr(vaddr, vw) then Outcome(ErrInvalidArgs, None)
    else if count == 0 then Outcome(Ok, None)
    else if mmuFlags & ARCH_MMU_FLAG_PERM_READ == 0 then Outcome(ErrInvalidArgs, None)
    else if added != Ok then Outcome(added, None)
    else Outcome(Ok, Some(count))
  }

  /** X86PageTableBase::ProtectPages, given the status `updated` of the
      UpdateMapping walk it starts. No physical address is involved. */
  function ProtectPages(vaddr: nat, count: nat, mmuFlags: bv32, vw: nat, updated: Status): (r: Status)
    requires 1 <= vw <= 64
    ensures r == Ok <==>
      CheckVaddr(vaddr, vw) && (count == 0 || (mmuFlags & ARCH_MMU_FLAG_PERM_READ != 0 && updated == Ok))
    ensures r != Ok ==> r == ErrInvalidArgs || r == updated
  {
    if !CheckVaddr(vaddr, vw) then ErrInvalidArgs
    else if count == 0 then Ok
    else if mmuFlags & ARCH_MMU_FLAG_PERM_READ == 0 then ErrInvalidArgs
    else updated
  }

  /** Whether X86ArchVmAspace::Map and ::Protect hand the call on to the
      page table: the address must be inside the aspace (`inAspace`, the
      result of IsValidVaddr), and a guest aspace takes read, write and
      execute only. */
  predicate AspaceForwards(inAspace: bool, guest: bool, mmuFlags: bv32)
  {
    inAspace && !(guest && mmuFlags & !VALID_EPT_FLAGS != 0)
  }

  /** X86ArchVmAspace::Map: INVALID_ARGS unless it forwards, otherwise
      what MapPages returns. */
  function AspaceMap(inAspace: bool, guest: bool, mmuFlags: bv32, mapped: Outcome): (r: Outcome)
    ensures !AspaceForwards(inAspace, guest, mmuFlags) ==> r == Outcome(ErrInvalidArgs, None)
    ensures AspaceForwards(inAspace, guest, mmuFlags) ==> r == mapped
  {
    if AspaceForwards(inAspace, guest, mmuFlags) then mapped else Outcome(ErrInvalidArgs, None)
  }

  /** X86ArchVmAspace::Protect, likewise over ProtectPages. */
  function AspaceProtect(inAspace: bool, guest: bool, mmuFlags: bv32, protected: Status): (r: Status)
    ensures !AspaceForwards(inAspace, guest, mmuFlags) ==> r == ErrInvalidArgs
    ensures AspaceForwards(inAspace, guest, mmuFlags) ==> r == protected
  {
    if AspaceForwards(inAspace, guest, mmuFlags) then protected else ErrInvalidArgs
  }

  /** X86ArchVmAspace::Unmap: INVALID_ARGS outside the aspace, otherwise
      what UnmapPages returns (no flags to check). */
  function AspaceUnmap(inAspace: bool, unmapped: Outcome): (r: Outcome)
    ensures !inAspace ==> r == Outcome(ErrInvalidArgs, None)
    ensures inAspace ==> r == unmapped
  {
    if inAspace then unmapped else Outcome(ErrInvalidArgs, None)
  }

  /** The point of the guest check: every flag set a guest aspace forwards
      is one the EPT entries store exactly, so reading a guest mapping back
      gives the flags it was made with. */
  lemma GuestFlagsSurvive(inAspace: bool, mmuFlags: bv32)
    requires AspaceForwards(inAspace, true, mmuFlags)
    ensures EptMmuFlags(EptTerminalFlags(mmuFlags)) == mmuFlags
  {
    EptGuestRoundTrip(mmuFlags);
  }
}
