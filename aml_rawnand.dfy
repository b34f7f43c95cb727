/** The Amlogic raw NAND controller driver: ECC page sizes, the geometry
    decoded from the extended ID byte, the two out-of-band bytes kept per
    ECC page in the info buffer, the corrected-bitflip count of a read,
    block-aligned erase and the clock chosen from the chip timings. */
module AmlRawNand {
  import opened ZxStatus
  import Arith

  /** The controller's ECC modes that this code tells apart. */
  datatype EccMode = Bch8 | Bch8_1K | OtherEcc(code: nat)

  /** aml_get_ecc_pagesize. */
  function EccPageSize(mode: EccMode): (size: nat)
    ensures size == 0 <==> mode.OtherEcc?
    ensures size > 0 ==> size % 512 == 0 && size <= 1024
  {
    match mode
    case Bch8 => 512
    case Bch8_1K => 1024
    case OtherEcc(_) => 0
  }

  // ---------------------------------------------------------------------
  // Geometry from the extended ID byte (the fourth byte of READID)
  // ---------------------------------------------------------------------

  datatype Geometry = Geometry(writesize: nat, oobsize: nat, erasesize: nat, busWidth16: bool)

  /** Field codes of the extended ID byte: page size in bits 1:0, the
      out-of-band size per 512 bytes in bit 2, the erase block size in bits
      5:4 and the bus width in bit 6. */
  function PageCode(extid: bv8): nat { (extid & 0x03) as nat }
  function OobCode(extid: bv8): nat { ((extid >> 2) & 0x01) as nat }
  function EraseCode(extid: bv8): nat { ((extid >> 4) & 0x03) as nat }
  function BusCode(extid: bv8): nat { ((extid >> 6) & 0x01) as nat }

  /** `1024 << code`, `(64 * 1024) << code` for the two-bit codes. */
  function PageSizeOf(code: nat): nat
  {
    if code == 0 then 1024 else if code == 1 then 2048 else if code == 2 then 4096 else 8192
  }

  function BlockSizeOf(code: nat): nat
  {
    if code == 0 then 0x1_0000 else if code == 1 then 0x2_0000 else if code == 2 then 0x4_0000 else 0x8_0000
  }

  /** The geometry the driver sets from the extended ID byte: the
      out-of-band area holds 8 or 16 bytes per 512 bytes of page. */
  function DecodeExtId(extid: bv8): (g: Geometry)
    ensures Describable(g)
    ensures g.oobsize == (if extid & 0x04 != 0 then 16 else 8) * (g.writesize / 512)
    ensures g.busWidth16 <==> extid & 0x40 != 0
  {
    var writesize := PageSizeOf(PageCode(extid));
    Geometry(writesize,
             (if OobCode(extid) == 1 then 16 else 8) * (writesize / 512),
             BlockSizeOf(EraseCode(extid)),
             BusCode(extid) == 1)
  }

  /** The geometries an extended ID byte can describe. */
  predicate Describable(g: Geometry)
  {
    && g.writesize in {1024, 2048, 4096, 8192}
    && g.erasesize in {0x1_0000, 0x2_0000, 0x4_0000, 0x8_0000}
    && (g.oobsize == 8 * (g.writesize / 512) || g.oobsize == 16 * (g.writesize / 512))
  }

  function CodeOf(size: nat, unit: nat): nat
  {
    if size == unit then 0 else if size == 2 * unit then 1 else if size == 4 * unit then 2 else 3
  }

  /** The extended ID byte that describes a geometry, the unused bits 3
      and 7 clear. */
  function EncodeExtId(g: Geometry): bv8
  {
    var p := CodeOf(g.writesize, 1024);
    var o := if g.oobsize == 16 * (g.writesize / 512) then 1 else 0;
    var e := CodeOf(g.erasesize, 0x1_0000);
    (p as bv8) | ((o as bv8) << 2) | ((e as bv8) << 4) | (if g.busWidth16 then 0x40 else 0)
  }

  lemma ExtIdFields(extid: bv8)
    ensures extid & 0x77 == (PageCode(extid) as bv8) | ((OobCode(extid) as bv8) << 2)
      | ((EraseCode(extid) as bv8) << 4) | (if BusCode(extid) == 1 then 0x40 else 0)
  {
  }

  lemma EncodeFields(p: nat, o: nat, e: nat, bus: bool)
    requires p < 4 && o < 2 && e < 4
    ensures var x := (p as bv8) | ((o as bv8) << 2) | ((e as bv8) << 4) | (if bus then 0x40 else 0);
      PageCode(x) == p && OobCode(x) == o && EraseCode(x) == e && (BusCode(x) == 1 <==> bus)
  {
  }

  /** Encoding a decoded byte gives back every bit the driver reads. */
  lemma ExtIdRoundTrip(extid: bv8)
    ensures EncodeExtId(DecodeExtId(extid)) == extid & 0x77
  {
    var g := DecodeExtId(extid);
    assert CodeOf(g.writesize, 1024) == PageCode(extid);
    assert CodeOf(g.erasesize, 0x1_0000) == EraseCode(extid);
    assert (if g.oobsize == 16 * (g.writesize / 512) then 1 else 0) == OobCode(extid);
    ExtIdFields(extid);
  }

  /** Decoding the encoding of a describable geometry gives it back. */
  lemma GeometryRoundTrip(g: Geometry)
    requires Describable(g)
    ensures DecodeExtId(EncodeExtId(g)) == g
  {
    var p := CodeOf(g.writesize, 1024);
    var o := if g.oobsize == 16 * (g.writesize / 512) then 1 else 0;
    var e := CodeOf(g.erasesize, 0x1_0000);
    EncodeFields(p, o, e, g.busWidth16);
    assert PageSizeOf(p) == g.writesize;
    assert BlockSizeOf(e) == g.erasesize;
  }

  /** ffs: the 1-based index of the lowest set bit, 0 for 0. */
  function Ffs(x: nat): nat
  {
    if x == 0 then 0 else if x % 2 == 1 then 1 else 1 + Ffs(x / 2)
  }

  /** The page shift of a power-of-two page size is its base-2 logarithm. */
  lemma {:induction false} FfsPow2(k: nat)
    ensures Ffs(Pow2(k)) == k + 1
  {
    if k > 0 {
      FfsPow2(k - 1);
      assert Pow2(k) / 2 == Pow2(k - 1);
    }
  }

  /** An erase block holds a whole number of pages, at least eight. */
  lemma EraseBlockPages(writesize: nat, erasesize: nat)
    requires writesize in {1024, 2048, 4096, 8192}
    requires erasesize in {0x1_0000, 0x2_0000, 0x4_0000, 0x8_0000}
    ensures erasesize % writesize == 0 && erasesize / writesize >= 8
  {
    var k := erasesize / 0x1_0000;
    assert erasesize == k * 0x1_0000;
    var m := 0x1_0000 / writesize;
    assert 0x1_0000 == m * writesize && m >= 8;
    assert erasesize == (k * m) * writesize;
    Arith.MulDiv(k * m, writesize);
    Arith.MulMono(1, k, m);
  }

  /** The page shift (ffs of the page size, less one) names the page
      size. */
  lemma PageShift(writesize: nat)
    requires writesize in {1024, 2048, 4096, 8192}
    ensures Pow2(Ffs(writesize) - 1) == writesize
  {
    if writesize == 1024 {
      FfsPow2(10);
      assert Pow2(10) == 1024;
    } else if writesize == 2048 {
      FfsPow2(11);
      assert Pow2(11) == 2048;
    } else if writesize == 4096 {
      FfsPow2(12);
      assert Pow2(12) == 4096;
    } else {
      FfsPow2(13);
      assert Pow2(13) == 8192;
    }
  }

  /** erasesize_pages: the pages of an erase block. */
  function BlockPages(g: Geometry): (n: nat)
    requires Describable(g)
    ensures n * g.writesize == g.erasesize && n >= 8
  {
    EraseBlockPages(g.writesize, g.erasesize);
    g.erasesize / g.writesize
  }

  /** page_shift: ffs of the page size, less one. */
  function PageShiftOf(writesize: nat): (shift: nat)
    requires writesize in {1024, 2048, 4096, 8192}
    ensures Pow2(shift) == writesize
  {
    PageShift(writesize);
    Ffs(writesize) - 1
  }

  // ---------------------------------------------------------------------
  // Clock and timings
  // ---------------------------------------------------------------------

  /** The clock register word for a clock rate in MHz (aml_set_clock_rate,
      for the AXG family, with the always-on bit). */
  function ClockRegister(rate: nat): (word: bv32)
    ensures word & 0x9000_0000 == 0x9000_0000
  {
    var clk: bv32 :=
      if rate == 24 then 0x8000_0201
      else if rate == 112 then 0x8000_0249
      else if rate == 200 then 0x8000_0245
      else if rate == 250 then 0x8000_0244
      else 0x8000_0245;
    clk | (1 << 28)
  }

  /** The rates the driver programs are told apart by the register. */
  lemma ClockRegisterDistinct(a: nat, b: nat)
    requires a in {24, 112, 200, 250} && b in {24, 112, 200, 250}
    ensures ClockRegister(a) == ClockRegister(b) <==> a == b
  {
  }

  /** Any other rate gets the 200 MHz setting. */
  lemma ClockRegisterDefault(a: nat)
    requires !(a in {24, 112, 200, 250})
    ensures ClockRegister(a) == ClockRegister(200)
  {
  }

  /** The system clock aml_adjust_timings picks for a chip's maximum
      read-enable access time tREA in ns (0 means unspecified, taken as
      20 ns). */
  function TimingClockRate(tREAmax: nat): (rate: nat)
    ensures rate == 112 || rate == 200 || rate == 250
    ensures tREAmax == 0 ==> rate == 200
    ensures rate == 250 <==> 0 < tREAmax <= 16
    ensures rate == 112 <==> tREAmax > 30
  {
    var tREA := if tREAmax == 0 then 20 else tREAmax;
    if tREA > 30 then 112 else if tREA > 16 then 200 else 250
  }

  /** A slower chip never gets a faster clock. */
  lemma TimingClockMonotone(a: nat, b: nat)
    requires 0 < a <= b
    ensures TimingClockRate(b) <= TimingClockRate(a)
  {
  }

  // ---------------------------------------------------------------------
  // The info buffer: one 8-byte record per ECC page
  // ---------------------------------------------------------------------

  type EccCount = x: nat | x < 64

  /** aml_info_format: the two out-of-band bytes, the zero count, the
      6-bit corrected-error count (0x3f: uncorrectable) and the completed
      flag. */
  datatype Info = Info(infoBytes: bv16, zeroCnt: bv8, eccErrCnt: EccCount, completed: bool)

  /** Entries of the 4096-byte info buffer. */
  const INFO_ENTRIES: nat := 512
  const ECC_UNCORRECTABLE: nat := 0x3f
  /** The value that reports a blank (erased) page read through the
      scrambler; any negative value is an uncorrectable read to the
      caller. */
  const ECC_CHECK_RETURN_FF: int := -1

  function Lo(b: bv16): bv8 { (b & 0xff) as bv8 }
  function Hi(b: bv16): bv8 { ((b >> 8) & 0xff) as bv8 }
  function Pack(lo: bv8, hi: bv8): bv16 { (lo as bv16) | ((hi as bv16) << 8) }

  lemma PackUnpack(lo: bv8, hi: bv8)
    ensures Lo(Pack(lo, hi)) == lo && Hi(Pack(lo, hi)) == hi
  {
  }

  /** The out-of-band bytes of the first ECC pages, two per page, low
      byte first. */
  function OobOf(infos: seq<Info>): (oob: seq<bv8>)
    ensures |oob| == 2 * |infos|
  {
    if infos == [] then []
    else
      var last := infos[|infos| - 1];
      OobOf(infos[..|infos| - 1]) + [Lo(last.infoBytes), Hi(last.infoBytes)]
  }

  /** The info records after the first `n` get their out-of-band bytes
      from `oob`, the rest of each record and the later records kept. */
  function WithOob(infos: seq<Info>, oob: seq<bv8>, n: nat): (r: seq<Info>)
    requires n <= |infos| && 2 * n <= |oob|
    ensures |r| == |infos|
  {
    seq(|infos|, i requires 0 <= i < |infos| =>
      if i < n then infos[i].(infoBytes := Pack(oob[2 * i], oob[2 * i + 1])) else infos[i])
  }

  /** Writing the out-of-band bytes of `n` ECC pages and reading them
      back gives the bytes written. */
  lemma {:induction false} OobRoundTrip(infos: seq<Info>, oob: seq<bv8>, n: nat)
    requires n <= |infos| && 2 * n <= |oob|
    ensures OobOf(WithOob(infos, oob, n)[..n]) == oob[..2 * n]
  {
    if n > 0 {
      var w := WithOob(infos, oob, n);
      var w' := WithOob(infos, oob, n - 1);
      assert w[..n - 1] == w'[..n - 1];
      OobRoundTrip(infos, oob, n - 1);
      assert w[..n][..n - 1] == w[..n - 1];
      PackUnpack(oob[2 * (n - 1)], oob[2 * (n - 1) + 1]);
      assert oob[..2 * n] == oob[..2 * (n - 1)] + [oob[2 * n - 2], oob[2 * n - 1]];
    }
  }

  // ---------------------------------------------------------------------
  // Corrections of a read
  // ---------------------------------------------------------------------

  /** A page that cannot be corrected and, read through the scrambler,
      holds fewer zeroes than the ECC strength: a blank page. */
  predicate BlankPage(x: Info, randMode: bool, strength: nat)
  {
    x.eccErrCnt == ECC_UNCORRECTABLE && randMode && ((x.zeroCnt & 0x3f) as nat) < strength
  }

  /** The outcome of scanning the info records: the largest corrected
      count and the statistics so far, or a blank page found. */
  datatype Scan =
    | Partial(bitflips: nat, failed: nat, corrected: nat)
    | Blank(failed: nat, corrected: nat)

  function Max(a: nat, b: nat): nat { if a >= b then a else b }

  function ScanPages(infos: seq<Info>, randMode: bool, strength: nat): Scan
  {
    if infos == [] then Partial(0, 0, 0)
    else
      var x := infos[|infos| - 1];
      match ScanPages(infos[..|infos| - 1], randMode, strength)
      case Blank(f, c) => Blank(f, c)
      case Partial(b, f, c) =>
        if x.eccErrCnt == ECC_UNCORRECTABLE then
          if BlankPage(x, randMode, strength) then Blank(f, c) else Partial(b, f + 1, c)
        else Partial(Max(b, x.eccErrCnt), f, c + x.eccErrCnt)
  }

  /** The scan finds a blank page exactly when one of the records is
      one. */
  lemma {:induction false} ScanBlankIff(infos: seq<Info>, randMode: bool, strength: nat)
    ensures ScanPages(infos, randMode, strength).Blank?
      <==> exists i :: 0 <= i < |infos| && BlankPage(infos[i], randMode, strength)
  {
    if infos != [] {
      var init := infos[..|infos| - 1];
      ScanBlankIff(init, randMode, strength);
      if exists i :: 0 <= i < |init| && BlankPage(init[i], randMode, strength) {
        var i :| 0 <= i < |init| && BlankPage(init[i], randMode, strength);
        assert BlankPage(infos[i], randMode, strength);
      }
      if exists i :: 0 <= i < |infos| && BlankPage(infos[i], randMode, strength) {
        var i :| 0 <= i < |infos| && BlankPage(infos[i], randMode, strength);
        if i < |init| {
          assert BlankPage(init[i], randMode, strength);
        }
      }
    }
  }

  /** Without a blank page the result is the largest corrected count over
      the correctable records (0 if there is none). */
  lemma {:induction false} ScanMaxCorrections(infos: seq<Info>, randMode: bool, strength: nat)
    requires ScanPages(infos, randMode, strength).Partial?
    ensures var b := ScanPages(infos, randMode, strength).bitflips;
      && (forall i :: 0 <= i < |infos| && infos[i].eccErrCnt != ECC_UNCORRECTABLE ==> infos[i].eccErrCnt <= b)
      && (b == 0 || exists i :: 0 <= i < |infos| && infos[i].eccErrCnt != ECC_UNCORRECTABLE && infos[i].eccErrCnt == b)
  {
    if infos != [] {
      var init := infos[..|infos| - 1];
      var x := infos[|infos| - 1];
      assert ScanPages(init, randMode, strength).Partial?;
      ScanMaxCorrections(init, randMode, strength);
      var b0 := ScanPages(init, randMode, strength).bitflips;
      var b := ScanPages(infos, randMode, strength).bitflips;
      forall i | 0 <= i < |infos| && infos[i].eccErrCnt != ECC_UNCORRECTABLE
        ensures infos[i].eccErrCnt <= b
      {
        if i < |init| {
          assert init[i] == infos[i];
        }
      }
      if b != 0 {
        if x.eccErrCnt != ECC_UNCORRECTABLE && b == x.eccErrCnt {
          assert infos[|infos| - 1] == x;
        } else {
          assert b == b0;
          var i :| 0 <= i < |init| && init[i].eccErrCnt != ECC_UNCORRECTABLE && init[i].eccErrCnt == b0;
          assert infos[i] == init[i];
        }
      }
    }
  }

  /** Once a blank page is found, later records change nothing. */
  lemma {:induction false} ScanBlankStays(infos: seq<Info>, k: nat, randMode: bool, strength: nat)
    requires k <= |infos| && ScanPages(infos[..k], randMode, strength).Blank?
    ensures ScanPages(infos, randMode, strength) == ScanPages(infos[..k], randMode, strength)
    decreases |infos| - k
  {
    if k < |infos| {
      assert infos[..k + 1][..k] == infos[..k];
      ScanBlankStays(infos, k + 1, randMode, strength);
    } else {
      assert infos[..k] == infos;
    }
  }

  /** The chip and controller state the core reads and writes. */
  class RawNand {
    var writesize: nat
    var oobsize: nat
    var erasesize: nat
    var busWidth16: bool
    var erasesizePages: nat
    var pageShift: nat
    var chipsize: nat
    var chipSelect: nat
    var clockRegister: bv32
    // controller parameters
    var userMode: nat
    var randMode: bool
    var eccStrength: nat
    // statistics
    var statsFailed: nat
    var statsEccCorrected: nat
    /** The DMA info buffer. */
    const infoBuf: array<Info>

    ghost predicate Valid()
      reads this
    {
      infoBuf.Length == INFO_ENTRIES && writesize <= 8192
    }

    /** The controller before the chip is identified, with the default
        parameters (eight-bit ECC strength, two user bytes per ECC page,
        scrambler on, as page 0 needs). */
    constructor(infoBuf: array<Info>)
      requires infoBuf.Length == INFO_ENTRIES
      ensures Valid() && this.infoBuf == infoBuf
      ensures userMode == 2 && eccStrength == 8 && randMode
      ensures writesize == 0 && erasesizePages == 0 && statsFailed == 0 && statsEccCorrected == 0
    {
      writesize := 0;
      oobsize := 0;
      erasesize := 0;
      busWidth16 := false;
      erasesizePages := 0;
      pageShift := 0;
      chipsize := 0;
      chipSelect := 0;
      clockRegister := 0;
      userMode := 2;
      randMode := true;
      eccStrength := 8;
      statsFailed := 0;
      statsEccCorrected := 0;
      this.infoBuf := infoBuf;
    }

    /** aml_get_oob_byte: the two out-of-band bytes of every BCH8 ECC page
        of a NAND page, low byte first; only two user bytes per ECC page
        are supported. */
    method GetOobBytes() returns (status: Status, oob: seq<bv8>)
      requires Valid()
      ensures userMode != 2 ==> status == ErrNotSupported && oob == []
      ensures userMode == 2 ==>
        status == Ok && oob == OobOf(infoBuf[..writesize / EccPageSize(Bch8)])
    {
      var eccPages := writesize / EccPageSize(Bch8);
      if userMode != 2 {
        return ErrNotSupported, [];
      }
      oob := [];
      var i := 0;
      while i < eccPages
        invariant i <= eccPages && oob == OobOf(infoBuf[..i])
      {
        var info := infoBuf[i];
        assert infoBuf[..i + 1][..i] == infoBuf[..i];
        oob := oob + [Lo(info.infoBytes), Hi(info.infoBytes)];
        i := i + 1;
      }
      return Ok, oob;
    }

    /** aml_set_oob_byte: the first `eccPages` info records take their
        out-of-band bytes from `oob`. */
    method SetOobBytes(oob: seq<bv8>, eccPages: nat) returns (status: Status)
      requires Valid() && eccPages <= infoBuf.Length && 2 * eccPages <= |oob|
      modifies infoBuf
      ensures userMode != 2 ==> status == ErrNotSupported && infoBuf[..] == old(infoBuf[..])
      ensures userMode == 2 ==> status == Ok && infoBuf[..] == WithOob(old(infoBuf[..]), oob, eccPages)
    {
      if userMode != 2 {
        return ErrNotSupported;
      }
      var i := 0;
      while i < eccPages
        invariant i <= eccPages
        invariant forall j :: 0 <= j < i ==>
          infoBuf[j] == old(infoBuf[j]).(infoBytes := Pack(oob[2 * j], oob[2 * j + 1]))
        invariant forall j :: i <= j < infoBuf.Length ==> infoBuf[j] == old(infoBuf[j])
      {
        infoBuf[i] := infoBuf[i].(infoBytes := Pack(oob[2 * i], oob[2 * i + 1]));
        i := i + 1;
      }
      return Ok;
    }

    /** aml_get_ecc_corrections: the most bitflips corrected in any ECC
        page of the read, or ECC_CHECK_RETURN_FF at the first blank page;
        uncorrectable pages count as failed, corrected ones add to the
        corrected total. */
    method GetEccCorrections(eccPages: nat) returns (bitflips: int)
      requires eccPages <= infoBuf.Length
      modifies this`statsFailed, this`statsEccCorrected
      ensures var scan := ScanPages(infoBuf[..eccPages], randMode, eccStrength);
        && (scan.Blank? ==> bitflips == ECC_CHECK_RETURN_FF)
        && (scan.Partial? ==> bitflips == scan.bitflips)
        && statsFailed == old(statsFailed) + scan.failed
        && statsEccCorrected == old(statsEccCorrected) + scan.corrected
    {
      bitflips := 0;
      var i := 0;
      while i < eccPages
        invariant i <= eccPages
        invariant bitflips >= 0 && statsFailed >= old(statsFailed) && statsEccCorrected >= old(statsEccCorrected)
        invariant ScanPages(infoBuf[..i], randMode, eccStrength)
          == Partial(bitflips, statsFailed - old(statsFailed), statsEccCorrected - old(statsEccCorrected))
      {
        var info := infoBuf[i];
        assert infoBuf[..i + 1][..i] == infoBuf[..i];
        if info.eccErrCnt == 0x3f {
          var zeroCnt := info.zeroCnt & 0x3f;
          if randMode && (zeroCnt as nat) < eccStrength {
            ScanBlankStays(infoBuf[..eccPages], i + 1, randMode, eccStrength);
            assert infoBuf[..eccPages][..i + 1] == infoBuf[..i + 1];
            return ECC_CHECK_RETURN_FF;
          }
          statsFailed := statsFailed + 1;
          i := i + 1;
          continue;
        }
        statsEccCorrected := statsEccCorrected + info.eccErrCnt;
        bitflips := if bitflips >= info.eccErrCnt then bitflips else info.eccErrCnt;
        i := i + 1;
      }
      assert infoBuf[..i] == infoBuf[..eccPages];
    }

    /** aml_check_ecc_pages: a read is valid only when every ECC page
        completed. */
    method CheckEccPages(eccPages: nat) returns (status: Status)
      requires eccPages <= infoBuf.Length
      ensures status == Ok || status == ErrIo
      ensures status == Ok <==> forall i :: 0 <= i < eccPages ==> infoBuf[i].completed
    {
      var i := 0;
      while i < eccPages
        invariant i <= eccPages
        invariant forall j :: 0 <= j < i ==> infoBuf[j].completed
      {
        if !infoBuf[i].completed {
          return ErrIo;
        }
        i := i + 1;
      }
      return Ok;
    }

    /** aml_erase_block: only a page at the start of an erase block can
        be erased; the result is the chip's status after the erase
        (`waitStatus`). */
    method EraseBlock(nandpage: nat, waitStatus: Status) returns (status: Status)
      requires erasesizePages > 0
      modifies this`chipSelect
      ensures nandpage % erasesizePages != 0 ==> status == ErrInvalidArgs && chipSelect == old(chipSelect)
      ensures nandpage % erasesizePages == 0 ==> status == waitStatus && chipSelect == 0
    {
      if nandpage % erasesizePages != 0 {
        return ErrInvalidArgs;
      }
      chipSelect := 0;
      return waitStatus;
    }

    /** aml_adjust_timings: the system clock follows the chip's tREA. */
    method AdjustTimings(tRCmin: nat, tREAmax: nat, rHOHmin: nat)
      modifies this`clockRegister
      ensures clockRegister == ClockRegister(TimingClockRate(tREAmax))
    {
      var tREA := tREAmax;
      if tREA == 0 {
        tREA := 20;
      }
      var sysClkRate;
      if tREA > 30 {
        sysClkRate := 112;
      } else if tREA > 16 {
        sysClkRate := 200;
      } else {
        sysClkRate := 250;
      }
      clockRegister := ClockRegister(sysClkRate);
    }

    /** The extended-ID branch of aml_get_flash_type: page, out-of-band
        and erase block sizes and the bus width from the extended ID
        byte, then the pages per erase block and the page shift. */
    method DecodeGeometry(extid: bv8)
      modifies this`writesize, this`oobsize, this`erasesize, this`busWidth16, this`erasesizePages, this`pageShift
      ensures Geometry(writesize, oobsize, erasesize, busWidth16) == DecodeExtId(extid)
      ensures erasesizePages * writesize == erasesize && erasesizePages >= 8
      ensures Pow2(pageShift) == writesize
    {
      var g := DecodeExtId(extid);
      writesize, oobsize, erasesize, busWidth16 := g.writesize, g.oobsize, g.erasesize, g.busWidth16;
      erasesizePages := BlockPages(g);
      pageShift := PageShiftOf(g.writesize);
    }

    /** aml_get_flash_type after the ID bytes are read: an unknown chip
        is unavailable; otherwise the geometry comes from the extended
        ID byte, the chip size from the chip table, and the clock from
        its timings. */
    method GetFlashType(idData: seq<bv8>, chip: Option<ChipEntry>) returns (status: Status)
      requires |idData| == 8
      modifies this`writesize, this`oobsize, this`erasesize, this`busWidth16, this`erasesizePages
      modifies this`pageShift, this`chipsize, this`chipSelect, this`clockRegister
      ensures chip.None? ==> status == ErrUnavailable && writesize == old(writesize) && erasesize == old(erasesize)
      ensures chip.Some? ==>
        && status == Ok
        && Geometry(writesize, oobsize, erasesize, busWidth16) == DecodeExtId(idData[3])
        && erasesizePages * writesize == erasesize && erasesizePages >= 8
        && Pow2(pageShift) == writesize
        && chipsize == chip.value.chipsize
        && clockRegister == ClockRegister(TimingClockRate(chip.value.tREAmax))
    {
      chipSelect := 0;
      if chip.None? {
        return ErrUnavailable;
      }
      DecodeGeometry(idData[3]);
      chipsize := chip.value.chipsize;
      AdjustTimings(chip.value.tRCmin, chip.value.tREAmax, chip.value.rHOHmin);
      return Ok;
    }
  }

  /** The entry of the chip table that matched the maker and device IDs. */
  datatype ChipEntry = ChipEntry(chipsize: nat, tRCmin: nat, tREAmax: nat, rHOHmin: nat)
}
