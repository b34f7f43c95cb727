/** The minfs directory and file-extent logic: directory records (dirents)
    laid end to end, their validation, the append that splits a record, the
    unlink that coalesces free neighbours, the mapping from a file block to
    a direct or indirect slot, read clipping and truncation.

    The on-disk format header (block size, direct and indirect counts,
    dirent header size, maximum directory and file sizes, the record length
    mask) is not part of this model: its constants are the fields of
    `Format`. */
module Minfs {
  import opened ZxStatus
  import opened Arith
  import opened Text

  datatype Format = Format(
    blockSize: nat,          // bytes per block
    direct: nat,             // direct block slots in an inode
    indirect: nat,           // indirect block slots in an inode
    direntSize: nat,         // fixed header of a dirent
    maxDirectorySize: nat,   // directory records end here
    maxFileSize: nat,        // largest file length
    reclenMask: nat)         // largest encodable record length, plus one
  {
    predicate Valid()
    {
      blockSize >= 4 && blockSize % 4 == 0 && direntSize > 0 && maxDirectorySize > direntSize &&
      maxDirectorySize < 0x1_0000_0000 && direntSize + MAX_NAMELEN + 4 <= reclenMask
    }

    /** Block numbers an indirect block holds (uint32 entries). */
    function PerIndirect(): nat
      requires Valid()
    {
      blockSize / 4
    }
  }

  /** A dirent's name length is a single byte. */
  const MAX_NAMELEN: nat := 255

  // ---------------------------------------------------------------------
  // Raw records

  /** A dirent as read: inode number (0 for a free record), the record
      length field split into its last-record flag and its length bits,
      the name length and the type. */
  datatype RawDirent = RawDirent(ino: nat, last: bool, length: nat, namelen: nat, typ: nat)

  /** MinfsReclen: a record flagged last runs to the end of the directory;
      the subtraction is done in 32 bits. */
  function Reclen(de: RawDirent, off: nat, f: Format): (r: nat)
    ensures de.last && off <= f.maxDirectorySize < 0x1_0000_0000 ==> r == f.maxDirectorySize - off
    ensures !de.last ==> r == de.length
  {
    if de.last then (f.maxDirectorySize - off) % 0x1_0000_0000 else de.length
  }

  /** validate_dirent: the header was read in full, the record holds a
      header, stays inside the directory, is a multiple of 4 long, and a
      used record's name is non-empty and fits after the header. */
  function ValidateDirent(de: RawDirent, bytesRead: nat, off: nat, f: Format): (r: Status)
    ensures r == Ok || r == ErrIo
    ensures r == Ok <==>
      bytesRead >= f.direntSize && Reclen(de, off, f) >= f.direntSize &&
      off + Reclen(de, off, f) <= f.maxDirectorySize && Reclen(de, off, f) % 4 == 0 &&
      (de.ino != 0 ==> 1 <= de.namelen <= Reclen(de, off, f) - f.direntSize)
  {
    var reclen := Reclen(de, off, f);
    if bytesRead < f.direntSize || reclen < f.direntSize then ErrIo
    else if off + reclen > f.maxDirectorySize || reclen % 4 != 0 then ErrIo
    else if de.ino != 0 && (de.namelen == 0 || de.namelen > reclen - f.direntSize) then ErrIo
    else Ok
  }

  /** Where the directory walk is: this record and the one before it. */
  datatype Offsets = Offsets(off: nat, offPrev: nat)

  /** do_next_dirent: the walk moves past this record and remembers it as
      the previous one. */
  function NextDirent(de: RawDirent, offs: Offsets, f: Format): Offsets
  {
    Offsets(offs.off + Reclen(de, offs.off, f), offs.off)
  }

  /** A record that passes validate_dirent moves the walk strictly forward
      and never past the end of the directory, so vn_dir_for_each ends. */
  lemma NextDirentAdvances(de: RawDirent, bytesRead: nat, offs: Offsets, f: Format)
    requires f.Valid() && ValidateDirent(de, bytesRead, offs.off, f) == Ok
    ensures var r := NextDirent(de, offs, f);
      offs.off < r.off <= f.maxDirectorySize && r.offPrev == offs.off
  {
  }

  /** DirentSize: header plus name, rounded up to 4 bytes. */
  function DirentSize(namelen: nat, f: Format): (r: nat)
    ensures r % 4 == 0 && f.direntSize + namelen <= r < f.direntSize + namelen + 4
  {
    RoundUp(f.direntSize + namelen, 4)
  }

  /** A record of length `reclen` (a multiple of 4) holds a name of `n`
      bytes after the header exactly when its DirentSize fits. */
  lemma DirentSizeFits(n: nat, reclen: nat, f: Format)
    requires reclen % 4 == 0
    ensures f.direntSize + n <= reclen <==> DirentSize(n, f) <= reclen
  {
    if f.direntSize + n <= reclen {
      RoundUpLeast(f.direntSize + n, 4, reclen);
    }
  }

  // ---------------------------------------------------------------------
  // The directory as a sequence of records

  /** A record of the directory: inode (0 when free), type, name, its
      length and whether it is flagged last. */
  datatype Slot = Slot(ino: nat, typ: nat, name: string, reclen: nat, last: bool)

  /** Total length of the records. */
  function Extent(slots: seq<Slot>): nat
  {
    if slots == [] then 0 else Extent(slots[..|slots| - 1]) + slots[|slots| - 1].reclen
  }

  /** The offset record `k` starts at. */
  function Offset(slots: seq<Slot>, k: nat): nat
    requires k <= |slots|
  {
    Extent(slots[..k])
  }

  lemma {:induction false} ExtentConcat(a: seq<Slot>, b: seq<Slot>)
    ensures Extent(a + b) == Extent(a) + Extent(b)
    decreases |b|
  {
    if b != [] {
      var c := b[..|b| - 1];
      assert (a + b)[..|a + b| - 1] == a + c;
      ExtentConcat(a, c);
    } else {
      assert a + b == a;
    }
  }

  /** A well-formed directory: records with room for a header, 4-byte
      multiples, used records whose names fit, only the final record
      flagged last, lengths other than the last encodable, and the records
      covering the directory exactly. */
  predicate WellFormed(slots: seq<Slot>, f: Format)
  {
    f.Valid() && |slots| > 0 && Extent(slots) == f.maxDirectorySize &&
    forall k :: 0 <= k < |slots| ==> SlotOk(slots, k, f)
  }

  predicate SlotOk(slots: seq<Slot>, k: nat, f: Format)
    requires k < |slots|
  {
    var s := slots[k];
    s.reclen >= f.direntSize && s.reclen % 4 == 0 &&
    (s.ino != 0 ==> 1 <= |s.name| <= MAX_NAMELEN && f.direntSize + |s.name| <= s.reclen) &&
    (s.last <==> k == |slots| - 1) &&
    (!s.last ==> s.reclen < f.reclenMask)
  }

  /** Record `k` as vn_dir_for_each reads it from disk. */
  function RawAt(slots: seq<Slot>, k: nat): RawDirent
    requires k < |slots|
  {
    var s := slots[k];
    RawDirent(s.ino, s.last, s.reclen, |s.name|, s.typ)
  }

  /** Every record of a well-formed directory, read with its header in
      full, passes validate_dirent, and do_next_dirent takes the walk to
      the start of the next record with this one as the previous. */
  lemma RecordValidates(slots: seq<Slot>, k: nat, p: nat, bytesRead: nat, f: Format)
    requires WellFormed(slots, f) && k < |slots| && bytesRead >= f.direntSize
    ensures ValidateDirent(RawAt(slots, k), bytesRead, Offset(slots, k), f) == Ok
    ensures NextDirent(RawAt(slots, k), Offsets(Offset(slots, k), p), f) ==
      Offsets(Offset(slots, k + 1), Offset(slots, k))
  {
    assert SlotOk(slots, k, f);
    OffsetStep(slots, k);
    OffsetBelowExtent(slots, k + 1);
    if slots[k].last {
      assert k + 1 == |slots|;
      EndOffset(slots);
    }
  }

  /** The entry to be added: inode, type and name. */
  datatype NewEntry = NewEntry(ino: nat, typ: nat, name: string)

  /** cb_dir_append's test: a free record fits when it is long enough; a
      used record fits when the space after its own DirentSize is. */
  predicate Fits(s: Slot, need: nat, f: Format)
  {
    if s.ino == 0 then need <= s.reclen
    else DirentSize(|s.name|, f) <= s.reclen && need <= s.reclen - DirentSize(|s.name|, f)
  }

  /** The first record the entry fits in. */
  function FirstFit(slots: seq<Slot>, need: nat, f: Format, from: nat): (r: Option<nat>)
    requires from <= |slots|
    ensures r.Some? ==> from <= r.value < |slots| && Fits(slots[r.value], need, f)
    ensures r.Some? ==> forall j :: from <= j < r.value ==> !Fits(slots[j], need, f)
    ensures r.None? ==> forall j :: from <= j < |slots| ==> !Fits(slots[j], need, f)
    decreases |slots| - from
  {
    if from == |slots| then None
    else if Fits(slots[from], need, f) then Some(from)
    else FirstFit(slots, need, f, from + 1)
  }

  /** The records after cb_dir_append acts on record `k`: a free record is
      filled in place keeping its length; a used record is shrunk to its
      DirentSize and the new entry takes the rest, with the last flag
      moving to it. */
  function Placed(slots: seq<Slot>, k: nat, e: NewEntry, f: Format): (r: seq<Slot>)
    requires k < |slots| && Fits(slots[k], DirentSize(|e.name|, f), f)
  {
    var s := slots[k];
    if s.ino == 0 then slots[k := Slot(e.ino, e.typ, e.name, s.reclen, s.last)]
    else
      var size := DirentSize(|s.name|, f);
      slots[..k] + [s.(reclen := size, last := false), Slot(e.ino, e.typ, e.name, s.reclen - size, s.last)] +
      slots[k + 1..]
  }

  /** The conditions of SlotOk on a record of a run that replaces others;
      `atEnd` says whether the run ends the directory. */
  predicate PieceOk(m: seq<Slot>, i: nat, atEnd: bool, f: Format)
    requires i < |m|
  {
    var s := m[i];
    s.reclen >= f.direntSize && s.reclen % 4 == 0 &&
    (s.ino != 0 ==> 1 <= |s.name| <= MAX_NAMELEN && f.direntSize + |s.name| <= s.reclen) &&
    (s.last <==> (atEnd && i == |m| - 1)) &&
    (!s.last ==> s.reclen < f.reclenMask)
  }

  /** Replacing the records lo..hi by a run of the same total length whose
      records are in order keeps the directory well formed, keeps the
      records before lo at their offsets, and changes the used count by the
      difference. */
  lemma ReplaceRun(slots: seq<Slot>, lo: nat, hi: nat, m: seq<Slot>, atEnd: bool, f: Format)
    requires WellFormed(slots, f) && lo < hi <= |slots| && |m| > 0 && atEnd == (hi == |slots|)
    requires Extent(m) == Extent(slots[lo..hi])
    requires forall i :: 0 <= i < |m| ==> PieceOk(m, i, atEnd, f)
    ensures var r := slots[..lo] + m + slots[hi..];
      WellFormed(r, f) && r[..lo] == slots[..lo] &&
      UsedCount(r) + UsedCount(slots[lo..hi]) == UsedCount(slots) + UsedCount(m)
  {
    var pre, mid, post := slots[..lo], slots[lo..hi], slots[hi..];
    var r := pre + m + post;
    ReplaceCounts(pre, mid, m, post);
    Rejoin(slots, lo, hi);
    ReplaceSlotsOk(slots, lo, hi, m, atEnd, r, f);
    KeepsPrefix(pre, m, post);
  }

  lemma Rejoin(s: seq<Slot>, lo: nat, hi: nat)
    requires lo <= hi <= |s|
    ensures s == s[..lo] + s[lo..hi] + s[hi..]
  {
  }

  lemma KeepsPrefix(a: seq<Slot>, b: seq<Slot>, c: seq<Slot>)
    ensures (a + b + c)[..|a|] == a
  {
  }

  lemma ReplaceCounts(pre: seq<Slot>, mid: seq<Slot>, m: seq<Slot>, post: seq<Slot>)
    ensures Extent(pre + mid + post) == Extent(pre) + Extent(mid) + Extent(post)
    ensures Extent(pre + m + post) == Extent(pre) + Extent(m) + Extent(post)
    ensures UsedCount(pre + mid + post) == UsedCount(pre) + UsedCount(mid) + UsedCount(post)
    ensures UsedCount(pre + m + post) == UsedCount(pre) + UsedCount(m) + UsedCount(post)
  {
    ExtentConcat(pre + mid, post);
    ExtentConcat(pre, mid);
    ExtentConcat(pre + m, post);
    ExtentConcat(pre, m);
    UsedCountConcat(pre + mid, post);
    UsedCountConcat(pre, mid);
    UsedCountConcat(pre + m, post);
    UsedCountConcat(pre, m);
  }

  lemma ReplaceSlotsOk(slots: seq<Slot>, lo: nat, hi: nat, m: seq<Slot>, atEnd: bool, r: seq<Slot>, f: Format)
    requires lo < hi <= |slots| && |m| > 0 && atEnd == (hi == |slots|) && r == slots[..lo] + m + slots[hi..]
    requires forall j :: 0 <= j < |slots| ==> SlotOk(slots, j, f)
    requires forall i :: 0 <= i < |m| ==> PieceOk(m, i, atEnd, f)
    ensures forall j :: 0 <= j < |r| ==> SlotOk(r, j, f)
  {
    assert |r| == lo + |m| + (|slots| - hi);
    forall j | 0 <= j < |r| ensures SlotOk(r, j, f) {
      if j < lo {
        assert r[j] == slots[j] && SlotOk(slots, j, f);
        assert j != |r| - 1 && j != |slots| - 1;
      } else if j >= lo + |m| {
        var q := j - |m| + (hi - lo);
        assert r[j] == slots[q] && SlotOk(slots, q, f);
        assert j == |r| - 1 <==> q == |slots| - 1;
      } else {
        assert r[j] == m[j - lo] && PieceOk(m, j - lo, atEnd, f);
        assert j == |r| - 1 <==> (atEnd && j - lo == |m| - 1);
      }
    }
  }

  lemma ExtentPair(a: Slot, b: Slot)
    ensures Extent([a]) == a.reclen && UsedCount([a]) == (if a.ino != 0 then 1 else 0)
    ensures Extent([a, b]) == a.reclen + b.reclen
    ensures UsedCount([a, b]) == UsedCount([a]) + UsedCount([b])
  {
    assert [a][..0] == [];
    assert [b][..0] == [];
    assert [a, b][..1] == [a];
  }

  /** Placing an entry keeps the directory well formed, keeps the records
      before `k` where they were, adds one used record, and puts the new
      entry at `k` (filled) or right after the shrunk record (split). */
  lemma PlacedWellFormed(slots: seq<Slot>, k: nat, e: NewEntry, f: Format)
    requires WellFormed(slots, f) && k < |slots| && 1 <= |e.name| <= MAX_NAMELEN
    requires Fits(slots[k], DirentSize(|e.name|, f), f)
    requires e.ino != 0
    ensures WellFormed(Placed(slots, k, e, f), f)
    ensures UsedCount(Placed(slots, k, e, f)) == UsedCount(slots) + 1
    ensures Placed(slots, k, e, f)[..k] == slots[..k]
    ensures var r := Placed(slots, k, e, f);
      if slots[k].ino == 0 then (|r| == |slots| && r[k].ino == e.ino && r[k].name == e.name)
      else (|r| == |slots| + 1 && r[k + 1].ino == e.ino && r[k + 1].name == e.name &&
        r[k + 1].reclen == slots[k].reclen - DirentSize(|slots[k].name|, f) &&
        Offset(r, k + 1) == Offset(slots, k) + DirentSize(|slots[k].name|, f))
  {
    var s := slots[k];
    if s.ino == 0 {
      var t := Slot(e.ino, e.typ, e.name, s.reclen, s.last);
      assert Placed(slots, k, e, f) == slots[..k] + [t] + slots[k + 1..];
      PlacedFill(slots, k, t, f);
    } else {
      var size := DirentSize(|s.name|, f);
      var a := s.(reclen := size, last := false);
      var b := Slot(e.ino, e.typ, e.name, s.reclen - size, s.last);
      assert Placed(slots, k, e, f) == slots[..k] + [a, b] + slots[k + 1..];
      PlacedSplit(slots, k, a, b, f);
    }
  }

  /** The records after cb_dir_append, or None when no record has room:
      the entry goes to the first record it fits in. */
  function Appended(slots: seq<Slot>, e: NewEntry, f: Format): Option<seq<Slot>>
  {
    var k := FirstFit(slots, DirentSize(|e.name|, f), f, 0);
    if k.None? then None else Some(Placed(slots, k.value, e, f))
  }

  /** Appending keeps the directory well formed and adds one used record;
      it fails only when no record has room. */
  lemma AppendedWellFormed(slots: seq<Slot>, e: NewEntry, f: Format)
    requires WellFormed(slots, f) && 1 <= |e.name| <= MAX_NAMELEN && e.ino != 0
    ensures var r := Appended(slots, e, f);
      (r.None? <==> forall j :: 0 <= j < |slots| ==> !Fits(slots[j], DirentSize(|e.name|, f), f)) &&
      (r.Some? ==> WellFormed(r.value, f) && UsedCount(r.value) == UsedCount(slots) + 1)
  {
    var k := FirstFit(slots, DirentSize(|e.name|, f), f, 0);
    if k.Some? {
      PlacedWellFormed(slots, k.value, e, f);
    }
  }

  /** Filling a free record with an entry whose name fits it. */
  lemma PlacedFill(slots: seq<Slot>, k: nat, t: Slot, f: Format)
    requires WellFormed(slots, f) && k < |slots| && slots[k].ino == 0
    requires t.ino != 0 && 1 <= |t.name| <= MAX_NAMELEN && DirentSize(|t.name|, f) <= slots[k].reclen
    requires t.reclen == slots[k].reclen && t.last == slots[k].last
    ensures var r := slots[..k] + [t] + slots[k + 1..];
      WellFormed(r, f) && UsedCount(r) == UsedCount(slots) + 1 && r[..k] == slots[..k]
  {
    assert SlotOk(slots, k, f);
    assert slots[k..k + 1] == [slots[k]];
    ExtentPair(slots[k], t);
    ExtentPair(t, t);
    assert PieceOk([t], 0, k + 1 == |slots|, f);
    ReplaceRun(slots, k, k + 1, [t], k + 1 == |slots|, f);
  }

  /** Splitting a used record: it keeps its DirentSize and the entry takes
      the rest, with the last flag. */
  lemma PlacedSplit(slots: seq<Slot>, k: nat, a: Slot, b: Slot, f: Format)
    requires WellFormed(slots, f) && k < |slots| && slots[k].ino != 0
    requires a == slots[k].(reclen := DirentSize(|slots[k].name|, f), last := false)
    requires DirentSize(|slots[k].name|, f) <= slots[k].reclen
    requires b.ino != 0 && 1 <= |b.name| <= MAX_NAMELEN && DirentSize(|b.name|, f) <= b.reclen
    requires b.reclen == slots[k].reclen - DirentSize(|slots[k].name|, f) && b.last == slots[k].last
    ensures var r := slots[..k] + [a, b] + slots[k + 1..];
      WellFormed(r, f) && UsedCount(r) == UsedCount(slots) + 1 && r[..k] == slots[..k] &&
      Offset(r, k + 1) == Offset(slots, k) + a.reclen
  {
    var s := slots[k];
    assert SlotOk(slots, k, f);
    assert slots[k..k + 1] == [s];
    ExtentPair(s, s);
    ExtentPair(a, b);
    ExtentPair(b, b);
    assert PieceOk([a, b], 0, k + 1 == |slots|, f);
    assert PieceOk([a, b], 1, k + 1 == |slots|, f);
    ReplaceRun(slots, k, k + 1, [a, b], k + 1 == |slots|, f);
    var r := slots[..k] + [a, b] + slots[k + 1..];
    assert r[..k + 1] == slots[..k] + [a];
    ExtentConcat(slots[..k], [a]);
  }

  /** The first used record named `name`. */
  function FindName(slots: seq<Slot>, name: string, from: nat): (r: Option<nat>)
    requires from <= |slots|
    ensures r.Some? ==> from <= r.value < |slots| && slots[r.value].ino != 0 && slots[r.value].name == name
    ensures r.Some? ==> forall j :: from <= j < r.value ==> !(slots[j].ino != 0 && slots[j].name == name)
    ensures r.None? ==> forall j :: from <= j < |slots| ==> !(slots[j].ino != 0 && slots[j].name == name)
    decreases |slots| - from
  {
    if from == |slots| then None
    else if slots[from].ino != 0 && slots[from].name == name then Some(from)
    else FindName(slots, name, from + 1)
  }

  /** The records do_unlink merges around record `k`: the next one when
      `k` is not last and the next is free, and the previous one when it is
      free. */
  function MergeRange(slots: seq<Slot>, k: nat): (r: (nat, nat))
    requires k < |slots|
    ensures r.0 <= k < r.1 <= |slots| && r.1 <= r.0 + 3
    ensures r.0 == k || (r.0 == k - 1 && slots[k - 1].ino == 0)
    ensures r.1 == k + 1 || (r.1 == k + 2 && !slots[k].last && slots[k + 1].ino == 0)
    ensures forall j :: r.0 <= j < r.1 && j != k ==> slots[j].ino == 0
  {
    var withNext := !slots[k].last && k + 1 < |slots| && slots[k + 1].ino == 0;
    var withPrev := k > 0 && slots[k - 1].ino == 0;
    (if withPrev then k - 1 else k, if withNext then k + 2 else k + 1)
  }

  /** What do_unlink does to the records, or None when the coalesced
      length of a record that is not last cannot be encoded: record `k` is
      merged with the next record when it is free (taking over its last
      flag), then with the previous one when that is free, and the merged
      record becomes free. The second part is the offset of the merged
      record and whether it is last. */
  function Coalesced(slots: seq<Slot>, k: nat, f: Format): (r: Option<(seq<Slot>, nat, bool)>)
    requires k < |slots|
  {
    var (lo, hi) := MergeRange(slots, k);
    var size := Extent(slots[lo..hi]);
    var last := slots[hi - 1].last;
    if !last && size >= f.reclenMask then None
    else Some((slots[..lo] + [Slot(0, slots[k].typ, slots[k].name, size, last)] + slots[hi..], Offset(slots, lo), last))
  }

  /** Unlinking keeps the directory well formed and frees exactly one
      used record. */
  lemma CoalescedWellFormed(slots: seq<Slot>, k: nat, f: Format)
    requires WellFormed(slots, f) && k < |slots| && slots[k].ino != 0
    requires Coalesced(slots, k, f).Some?
    ensures WellFormed(Coalesced(slots, k, f).value.0, f)
    ensures UsedCount(Coalesced(slots, k, f).value.0) + 1 == UsedCount(slots)
  {
    var lo := MergeRange(slots, k).0;
    var hi := MergeRange(slots, k).1;
    var m := Slot(0, slots[k].typ, slots[k].name, Extent(slots[lo..hi]), slots[hi - 1].last);
    assert Coalesced(slots, k, f) == Some((slots[..lo] + [m] + slots[hi..], Offset(slots, lo), m.last));
    MergeRun(slots, lo, hi, k, m, f);
  }

  lemma MergeRun(slots: seq<Slot>, lo: nat, hi: nat, k: nat, m: Slot, f: Format)
    requires WellFormed(slots, f) && lo <= k < hi <= |slots| && k <= lo + 1 && hi <= k + 2 && slots[k].ino != 0
    requires forall j :: lo <= j < hi && j != k ==> slots[j].ino == 0
    requires m.ino == 0 && m.reclen == Extent(slots[lo..hi]) && m.last == slots[hi - 1].last
    requires !m.last ==> m.reclen < f.reclenMask
    ensures WellFormed(slots[..lo] + [m] + slots[hi..], f)
    ensures UsedCount(slots[..lo] + [m] + slots[hi..]) + 1 == UsedCount(slots)
  {
    assert SlotOk(slots, k, f);
    assert SlotOk(slots, hi - 1, f);
    MidAligned(slots, lo, hi, f);
    MidCovers(slots, lo, hi, k);
    MidUsed(slots, lo, hi, k);
    ExtentPair(m, m);
    assert PieceOk([m], 0, hi == |slots|, f);
    ReplaceRun(slots, lo, hi, [m], hi == |slots|, f);
  }

  /** Used records. */
  function UsedCount(slots: seq<Slot>): nat
  {
    if slots == [] then 0 else UsedCount(slots[..|slots| - 1]) + (if slots[|slots| - 1].ino != 0 then 1 else 0)
  }

  lemma {:induction false} UsedCountConcat(a: seq<Slot>, b: seq<Slot>)
    ensures UsedCount(a + b) == UsedCount(a) + UsedCount(b)
    decreases |b|
  {
    if b != [] {
      var c := b[..|b| - 1];
      assert (a + b)[..|a + b| - 1] == a + c;
      UsedCountConcat(a, c);
    } else {
      assert a + b == a;
    }
  }

  lemma MidAligned(slots: seq<Slot>, lo: nat, hi: nat, f: Format)
    requires WellFormed(slots, f) && lo < hi <= |slots| && hi <= lo + 3
    ensures Extent(slots[lo..hi]) % 4 == 0
  {
    var mid := slots[lo..hi];
    var q := 0;
    var i := 0;
    while i < |mid|
      invariant i <= |mid| && Extent(mid[..i]) == 4 * q
    {
      assert mid[..i + 1][..i] == mid[..i];
      assert SlotOk(slots, lo + i, f);
      q := q + mid[i].reclen / 4;
      i := i + 1;
    }
    assert mid[..i] == mid;
  }

  lemma MidCovers(slots: seq<Slot>, lo: nat, hi: nat, k: nat)
    requires lo <= k < hi <= |slots|
    ensures Extent(slots[lo..hi]) >= slots[k].reclen
  {
    var mid := slots[lo..hi];
    assert mid == slots[lo..k] + [slots[k]] + slots[k + 1..hi];
    ExtentConcat(slots[lo..k] + [slots[k]], slots[k + 1..hi]);
    ExtentConcat(slots[lo..k], [slots[k]]);
    assert [slots[k]][..0] == [];
  }

  lemma MidUsed(slots: seq<Slot>, lo: nat, hi: nat, k: nat)
    requires lo <= k < hi <= |slots| && hi <= k + 2 && k <= lo + 1 && slots[k].ino != 0
    requires forall j :: lo <= j < hi && j != k ==> slots[j].ino == 0
    ensures UsedCount(slots[lo..hi]) == 1
  {
    var mid := slots[lo..hi];
    var a := slots[lo..k];
    var b := slots[k + 1..hi];
    assert mid == a + [slots[k]] + b;
    UsedCountConcat(a + [slots[k]], b);
    UsedCountConcat(a, [slots[k]]);
    assert [slots[k]][..0] == [];
    assert UsedCount(a) == 0 by {
      if lo < k { assert a == [slots[k - 1]] && a[..0] == []; } else { assert a == []; }
    }
    assert UsedCount(b) == 0 by {
      if k + 1 < hi { assert b == [slots[k + 1]] && b[..0] == []; } else { assert b == []; }
    }
  }

  // ---------------------------------------------------------------------
  // The directory vnode

  /** The target of an unlink, as VnodeGet finds it. */
  datatype VnodeInfo = VnodeInfo(isDir: bool, direntCount: nat, refcount: nat)

  /** can_unlink: a directory must hold only "." and ".." and must not be
      open elsewhere. */
  function CanUnlink(v: VnodeInfo): (r: Status)
    ensures r == Ok <==> !v.isDir || (v.direntCount == 2 && v.refcount <= 1)
    ensures r != Ok ==> r == ErrBadState
  {
    if v.isDir && v.direntCount != 2 then ErrBadState
    else if v.isDir && v.refcount > 1 then ErrBadState
    else Ok
  }

  /** fs_rename's argument checks, before any lookup. */
  function RenameArgs(oldDirIsDir: bool, newDirIsDir: bool, oldName: string, newName: string): (r: Status)
    ensures r == Ok <==> oldDirIsDir && newDirIsDir && !IsDotName(oldName) && !IsDotName(newName)
    ensures !(oldDirIsDir && newDirIsDir) ==> r == ErrNotSupported
    ensures oldDirIsDir && newDirIsDir && (IsDotName(oldName) || IsDotName(newName)) ==> r == ErrBadState
  {
    if !(oldDirIsDir && newDirIsDir) then ErrNotSupported
    else if IsDotName(oldName) || IsDotName(newName) then ErrBadState
    else Ok
  }

  /** cb_dir_attempt_rename's checks on an existing destination: not the
      same inode, the same type, and removable. */
  function ReplaceCheck(srcIno: nat, srcTyp: nat, dst: Slot, dstInfo: VnodeInfo): (r: Status)
    ensures r == Ok <==> srcIno != dst.ino && srcTyp == dst.typ && CanUnlink(dstInfo) == Ok
  {
    if srcIno == dst.ino then ErrBadState
    else if srcTyp != dst.typ then ErrBadState
    else CanUnlink(dstInfo)
  }

  /** Where fill_dirent's write of the entry placed at record `k` ends:
      the entry starts at the record when it is free, and right after the
      record's own DirentSize when a used record is split. */
  function PlacedEnd(slots: seq<Slot>, k: nat, e: NewEntry, f: Format): nat
    requires k < |slots|
  {
    Offset(slots, k) + (if slots[k].ino == 0 then 0 else DirentSize(|slots[k].name|, f)) +
    DirentSize(|e.name|, f)
  }

  /** The bytes fill_dirent writes are the new entry's header and name, at
      the offset the entry has among the new records, inside the
      directory. */
  lemma PlacedEndIsEntry(slots: seq<Slot>, k: nat, e: NewEntry, f: Format)
    requires WellFormed(slots, f) && k < |slots| && 1 <= |e.name| <= MAX_NAMELEN && e.ino != 0
    requires Fits(slots[k], DirentSize(|e.name|, f), f)
    ensures var r := Placed(slots, k, e, f);
      var j := if slots[k].ino == 0 then k else k + 1;
      j < |r| && r[j].ino == e.ino && r[j].name == e.name &&
      Offset(r, j) + DirentSize(|e.name|, f) == PlacedEnd(slots, k, e, f) &&
      PlacedEnd(slots, k, e, f) <= f.maxDirectorySize
  {
    PlacedWellFormed(slots, k, e, f);
    var r := Placed(slots, k, e, f);
    var j := if slots[k].ino == 0 then k else k + 1;
    if slots[k].ino == 0 {
      assert r[..k] == slots[..k];
    }
    assert SlotOk(r, j, f);
    DirentSizeFits(|e.name|, r[j].reclen, f);
    OffsetStep(r, j);
    OffsetBelowExtent(r, j + 1);
  }

  /** inode.size after do_unlink: the merged record's header is rewritten
      at `off`, which grows the directory to cover it, and a merged record
      that is last truncates the directory just past that header. */
  function UnlinkedSize(size: nat, off: nat, last: bool, f: Format): nat
  {
    if last then off + f.direntSize else Max(size, off + f.direntSize)
  }

  function Max(a: nat, b: nat): nat
  {
    if a < b then b else a
  }

  class Directory {
    const fmt: Format
    /** The records, in offset order. */
    var slots: seq<Slot>
    /** inode.dirent_count, inode.seq_num and inode.size. */
    var direntCount: nat
    var seqNum: nat
    var size: nat

    /** The records are well formed and the dirent count is the number of
        used records. */
    ghost predicate Valid()
      reads this
    {
      WellFormed(slots, fmt) && direntCount == UsedCount(slots)
    }

    /** A new directory as fs_create makes it: minfs_dir_init writes "."
        for the directory itself and ".." for its parent, the second record
        flagged last, and the write of both records sets the size. */
    constructor (f: Format, self: nat, parent: nat, dirType: nat)
      requires f.Valid() && f.maxDirectorySize % 4 == 0
      requires DirentSize(1, f) + DirentSize(2, f) <= f.maxDirectorySize
      requires self != 0 && parent != 0
      ensures Valid() && fmt == f && seqNum == 0 && direntCount == 2
      ensures slots == [Slot(self, dirType, ".", DirentSize(1, f), false),
                        Slot(parent, dirType, "..", f.maxDirectorySize - DirentSize(1, f), true)]
      ensures size == DirentSize(1, f) + DirentSize(2, f)
    {
      var a := Slot(self, dirType, ".", DirentSize(1, f), false);
      var b := Slot(parent, dirType, "..", f.maxDirectorySize - DirentSize(1, f), true);
      ExtentPair(a, b);
      ExtentPair(b, b);
      assert [a, b][..1] == [a];
      assert SlotOk([a, b], 0, f) && SlotOk([a, b], 1, f);
      fmt := f;
      slots := [a, b];
      direntCount := 2;
      seqNum := 0;
      size := DirentSize(1, f) + DirentSize(2, f);
    }

    /** vn_dir_for_each with cb_dir_append: walks the records from offset
        0 while a header still fits before the end, and places the entry in
        the first record it fits in; ERR_NOT_FOUND when none has room. The
        write of the entry grows the size to cover it (the shrunk record's
        rewrite, before it, ends earlier). */
    method Append(e: NewEntry) returns (status: Status)
      requires Valid() && 1 <= |e.name| <= MAX_NAMELEN && e.ino != 0
      modifies this
      ensures Valid()
      ensures var k := FirstFit(old(slots), DirentSize(|e.name|, fmt), fmt, 0);
        if k.None? then (status == ErrNotFound && slots == old(slots) && direntCount == old(direntCount) &&
          seqNum == old(seqNum) && size == old(size))
        else (status == Ok && slots == Appended(old(slots), e, fmt).value &&
          direntCount == old(direntCount) + 1 && seqNum == old(seqNum) + 1 &&
          size == Max(old(size), PlacedEnd(old(slots), k.value, e, fmt)))
    {
      var k := FindRoom(slots, DirentSize(|e.name|, fmt), fmt);
      if k.None? {
        return ErrNotFound;
      }
      AppendedWellFormed(slots, e, fmt);
      size := Max(size, PlacedEnd(slots, k.value, e, fmt));
      slots := Placed(slots, k.value, e, fmt);
      direntCount := direntCount + 1;
      seqNum := seqNum + 1;
      return Ok;
    }

    /** The state vn_dir_for_each with cb_dir_unlink (cb_dir_force_unlink
        when `force`) leaves, from the records `os` and the inode fields
        `oc`, `oq` and `oz`: NOT_FOUND when no used record has the name;
        NOT_DIR or can_unlink's status unless forced; IO when the merged
        length cannot be encoded; otherwise do_unlink's records, one entry
        fewer, the next sequence number and the size after the merge.
        `unlinked` is the inode whose link count drops. */
    ghost predicate UnlinkedFrom(os: seq<Slot>, oc: nat, oq: nat, oz: nat, name: string, mustBeDir: bool,
                                 force: bool, info: nat -> VnodeInfo, status: Status, unlinked: Option<nat>)
      reads this
    {
      var k := FindName(os, name, 0);
      var kept := slots == os && direntCount == oc && seqNum == oq && size == oz && unlinked.None?;
      if k.None? then status == ErrNotFound && kept
      else
        var s := os[k.value];
        var v := info(s.ino);
        if !force && mustBeDir && !v.isDir then status == ErrNotDir && kept
        else if !force && CanUnlink(v) != Ok then status == CanUnlink(v) && kept
        else match Coalesced(os, k.value, fmt)
          case None => status == ErrIo && kept
          case Some((r, off, last)) =>
            status == Ok && unlinked == Some(s.ino) && slots == r && direntCount + 1 == oc &&
            seqNum == oq + 1 && size == UnlinkedSize(oz, off, last, fmt)
    }

    /** fs_unlink: the names "." and ".." are refused with BAD_STATE before
        any walk; any other name is unlinked with the vnode checks. */
    method FsUnlink(name: string, mustBeDir: bool, info: nat -> VnodeInfo)
      returns (status: Status, unlinked: Option<nat>)
      requires Valid()
      modifies this
      ensures Valid()
      ensures IsDotName(name) ==> status == ErrBadState && unlinked.None? && unchanged(this)
      ensures !IsDotName(name) ==>
        UnlinkedFrom(old(slots), old(direntCount), old(seqNum), old(size), name, mustBeDir, false, info,
                     status, unlinked)
    {
      if IsDotName(name) {
        return ErrBadState, None;
      }
      status, unlinked := Unlink(name, mustBeDir, false, info);
    }

    /** vn_dir_for_each with cb_dir_unlink (or cb_dir_force_unlink when
        `force`): the walk moves from record to record with do_next_dirent
        until the first used record named `name`, which is unlinked after
        its vnode passes the checks; `info` stands for VnodeGet on its
        inode. */
    method Unlink(name: string, mustBeDir: bool, force: bool, info: nat -> VnodeInfo)
      returns (status: Status, unlinked: Option<nat>)
      requires Valid()
      modifies this
      ensures Valid()
      ensures UnlinkedFrom(old(slots), old(direntCount), old(seqNum), old(size), name, mustBeDir, force, info,
                           status, unlinked)
    {
      var ss := slots;
      var k := 0;
      var offs := Offsets(0, 0);
      assert ss[..0] == [];
      while offs.off + fmt.direntSize < fmt.maxDirectorySize
        invariant unchanged(this) && ss == slots
        invariant k <= |ss| && offs == Offsets(Offset(ss, k), if k == 0 then 0 else Offset(ss, k - 1))
        invariant forall j :: 0 <= j < k ==> !(ss[j].ino != 0 && ss[j].name == name)
        decreases |ss| - k
      {
        EndOffset(ss);
        var s := ss[k];
        RecordValidates(ss, k, offs.offPrev, fmt.direntSize, fmt);
        if s.ino == 0 || s.name != name {
          offs := NextDirent(RawAt(ss, k), offs, fmt);
          k := k + 1;
          continue;
        }
        FindNameFrom(ss, name, k);
        var v := info(s.ino);
        if !force && mustBeDir && !v.isDir {
          return ErrNotDir, None;
        }
        if !force && CanUnlink(v) != Ok {
          return CanUnlink(v), None;
        }
        status := UnlinkAt(k);
        if status == Ok {
          unlinked := Some(s.ino);
        } else {
          unlinked := None;
        }
        return;
      }
      TailHasNoName(ss, k, name, fmt);
      FindNameFrom(ss, name, k);
      return ErrNotFound, None;
    }

    /** do_unlink on record `k`: coalesce, mark free, drop the directory's
        dirent count; the merged header is rewritten, and when the merged
        record is last the directory is truncated just past that header. */
    method UnlinkAt(k: nat) returns (status: Status)
      requires Valid() && k < |slots| && slots[k].ino != 0
      modifies this
      ensures Valid()
      ensures var c := Coalesced(old(slots), k, fmt);
        if c.None? then status == ErrIo && slots == old(slots) && direntCount == old(direntCount) &&
          seqNum == old(seqNum) && size == old(size)
        else
          var (r, off, last) := c.value;
          status == Ok && slots == r && direntCount + 1 == old(direntCount) &&
          seqNum == old(seqNum) + 1 && size == UnlinkedSize(old(size), off, last, fmt)
    {
      var c := Coalesced(slots, k, fmt);
      if c.None? {
        return ErrIo;
      }
      CoalescedWellFormed(slots, k, fmt);
      var (r, off, last) := c.value;
      slots := r;
      size := Max(size, off + fmt.direntSize);
      if last {
        var t := TruncateLength(size, off + fmt.direntSize, fmt);
        if t.Success? {
          size := t.value;
        }
      }
      direntCount := direntCount - 1;
      seqNum := seqNum + 1;
      return Ok;
    }
  }

  /** The walk of vn_dir_for_each with cb_dir_append: from offset 0, while
      a header still fits before the end, record after record with
      do_next_dirent, the first record with room for `need` bytes. */
  method FindRoom(ss: seq<Slot>, need: nat, f: Format) returns (k: Option<nat>)
    requires WellFormed(ss, f) && need > f.direntSize
    ensures k == FirstFit(ss, need, f, 0)
  {
    var i := 0;
    var offs := Offsets(0, 0);
    assert ss[..0] == [];
    while offs.off + f.direntSize < f.maxDirectorySize
      invariant i <= |ss| && offs == Offsets(Offset(ss, i), if i == 0 then 0 else Offset(ss, i - 1))
      invariant forall j :: 0 <= j < i ==> !Fits(ss[j], need, f)
      decreases |ss| - i
    {
      EndOffset(ss);
      var s := ss[i];
      assert SlotOk(ss, i, f);
      RecordValidates(ss, i, offs.offPrev, f.direntSize, f);
      if s.ino == 0 {
        if need > s.reclen {
          offs := NextDirent(RawAt(ss, i), offs, f);
          i := i + 1;
          continue;
        }
      } else {
        var used := DirentSize(|s.name|, f);
        DirentSizeFits(|s.name|, s.reclen, f);
        var extra := s.reclen - used;
        if extra < need {
          offs := NextDirent(RawAt(ss, i), offs, f);
          i := i + 1;
          continue;
        }
      }
      FirstFitFrom(ss, need, f, i);
      return Some(i);
    }
    TailHasNoRoom(ss, i, need, f);
    FirstFitFrom(ss, need, f, i);
    return None;
  }

  lemma EndOffset(slots: seq<Slot>)
    ensures Offset(slots, |slots|) == Extent(slots)
  {
    assert slots[..|slots|] == slots;
  }

  function Min(a: nat, b: nat): nat
  {
    if a < b then a else b
  }

  lemma OffsetStep(slots: seq<Slot>, k: nat)
    requires k < |slots|
    ensures Offset(slots, k + 1) == Offset(slots, k) + slots[k].reclen
  {
    assert slots[..k + 1][..k] == slots[..k];
  }

  /** Offsets never run past the extent. */
  lemma {:induction false} OffsetBelowExtent(slots: seq<Slot>, k: nat)
    requires k <= |slots|
    ensures Offset(slots, k) <= Extent(slots)
    decreases |slots| - k
  {
    if k < |slots| {
      OffsetStep(slots, k);
      OffsetBelowExtent(slots, k + 1);
    } else {
      assert slots[..k] == slots;
    }
  }

  /** Once a header no longer fits before the end, the records left are
      at most one, of exactly a header's length, which holds no name. */
  lemma TailHasNoRoom(slots: seq<Slot>, k: nat, need: nat, f: Format)
    requires WellFormed(slots, f) && k <= |slots| && need > f.direntSize
    requires Offset(slots, k) + f.direntSize >= f.maxDirectorySize
    ensures forall j :: k <= j < |slots| ==> !Fits(slots[j], need, f)
  {
    forall j | k <= j < |slots| ensures !Fits(slots[j], need, f) {
      TailRecord(slots, k, j, f);
      assert SlotOk(slots, j, f);
    }
  }

  lemma TailHasNoName(slots: seq<Slot>, k: nat, name: string, f: Format)
    requires WellFormed(slots, f) && k <= |slots|
    requires Offset(slots, k) + f.direntSize >= f.maxDirectorySize
    ensures forall j :: k <= j < |slots| ==> !(slots[j].ino != 0 && slots[j].name == name)
  {
    forall j | k <= j < |slots| ensures slots[j].ino == 0 {
      TailRecord(slots, k, j, f);
      assert SlotOk(slots, j, f);
    }
  }

  /** A record at or after `k` in such a tail is exactly a header long. */
  lemma TailRecord(slots: seq<Slot>, k: nat, j: nat, f: Format)
    requires WellFormed(slots, f) && k <= j < |slots|
    requires Offset(slots, k) + f.direntSize >= f.maxDirectorySize
    ensures slots[j].reclen <= f.direntSize
  {
    OffsetMono(slots, k, j);
    OffsetStep(slots, j);
    OffsetBelowExtent(slots, j + 1);
  }

  lemma {:induction false} OffsetMono(slots: seq<Slot>, a: nat, b: nat)
    requires a <= b <= |slots|
    ensures Offset(slots, a) <= Offset(slots, b)
    decreases b - a
  {
    if a < b {
      OffsetStep(slots, a);
      OffsetMono(slots, a + 1, b);
    }
  }

  lemma FirstFitFrom(slots: seq<Slot>, need: nat, f: Format, k: nat)
    requires k <= |slots|
    requires forall j :: 0 <= j < k ==> !Fits(slots[j], need, f)
    ensures FirstFit(slots, need, f, 0) == FirstFit(slots, need, f, k)
  {
    FirstFitSkip(slots, need, f, 0, k);
  }

  lemma {:induction false} FirstFitSkip(slots: seq<Slot>, need: nat, f: Format, from: nat, k: nat)
    requires from <= k <= |slots|
    requires forall j :: from <= j < k ==> !Fits(slots[j], need, f)
    ensures FirstFit(slots, need, f, from) == FirstFit(slots, need, f, k)
    decreases k - from
  {
    if from < k {
      FirstFitSkip(slots, need, f, from + 1, k);
    }
  }

  lemma FindNameFrom(slots: seq<Slot>, name: string, k: nat)
    requires k <= |slots|
    requires forall j :: 0 <= j < k ==> !(slots[j].ino != 0 && slots[j].name == name)
    ensures FindName(slots, name, 0) == FindName(slots, name, k)
  {
    FindNameSkip(slots, name, 0, k);
  }

  lemma {:induction false} FindNameSkip(slots: seq<Slot>, name: string, from: nat, k: nat)
    requires from <= k <= |slots|
    requires forall j :: from <= j < k ==> !(slots[j].ino != 0 && slots[j].name == name)
    ensures FindName(slots, name, from) == FindName(slots, name, k)
    decreases k - from
  {
    if from < k {
      FindNameSkip(slots, name, from + 1, k);
    }
  }

  // ---------------------------------------------------------------------
  // File blocks

  /** Where the n-th block of a file is recorded. */
  datatype BlockSlot = Direct(index: nat) | Indirect(i: nat, j: nat) | OutOfRange

  /** vn_get_bno's index arithmetic: direct below the direct count;
      otherwise entry j of indirect block i; i past the indirect count is
      ERR_OUT_OF_RANGE. */
  function BlockIndex(n: nat, f: Format): (r: BlockSlot)
    requires f.Valid()
    ensures n < f.direct <==> r.Direct?
    ensures r.Direct? ==> r.index == n
    ensures r.Indirect? ==>
      r.i < f.indirect && r.j < f.PerIndirect() && n == f.direct + r.i * f.PerIndirect() + r.j
    ensures r.OutOfRange? <==> n >= f.direct + f.indirect * f.PerIndirect()
  {
    if n < f.direct then Direct(n)
    else
      var m := n - f.direct;
      var per := f.PerIndirect();
      var i := m / per;
      var j := m % per;
      if i >= f.indirect then
        assert m >= f.indirect * per by {
          MulMono(f.indirect, i, per);
        }
        OutOfRange
      else
        assert m < f.indirect * per by {
          MulMono(i + 1, f.indirect, per);
        }
        Indirect(i, j)
  }

  /** Distinct blocks of a file never share a slot. */
  lemma BlockIndexInjective(n: nat, m: nat, f: Format)
    requires f.Valid() && n != m
    requires !BlockIndex(n, f).OutOfRange? && !BlockIndex(m, f).OutOfRange?
    ensures BlockIndex(n, f) != BlockIndex(m, f)
  {
  }

  // ---------------------------------------------------------------------
  // Reading and truncating

  /** _fs_read's clip to the end of the file. */
  function ReadLength(size: nat, off: nat, len: nat): (r: nat)
    ensures off >= size ==> r == 0
    ensures off < size ==> r == Min(len, size - off)
    ensures off + r <= size || r == 0
  {
    if off >= size then 0 else if len > size - off then size - off else len
  }

  /** _fs_truncate's effect on the length: shorter and equal lengths are
      taken; a longer one is ERR_INVALID_ARGS past the maximum file size,
      and otherwise becomes the length through a one-byte write at its
      end. */
  function TruncateLength(size: nat, len: nat, f: Format): (r: Result<nat>)
    ensures r.Failure? <==> len > size && len > f.maxFileSize
    ensures r.Failure? ==> r.error == ErrInvalidArgs
    ensures r.Success? ==> r.value == len
  {
    if len > size && len > f.maxFileSize then Failure(ErrInvalidArgs) else Success(len)
  }

  /** When shrinking, blocks from this one on are freed: the first block
      wholly past the new length. */
  function FirstFreedBlock(len: nat, f: Format): (r: nat)
    requires f.Valid()
    ensures r * f.blockSize >= len && (r == 0 || (r - 1) * f.blockSize < len)
  {
    var t := len / f.blockSize;
    FreedBlockBounds(len, f.blockSize);
    if len % f.blockSize == 0 then t else t + 1
  }

  lemma FreedBlockBounds(len: nat, b: nat)
    requires b > 0
    ensures len % b == 0 ==> (len / b) * b == len
    ensures len % b != 0 ==> (len / b) * b < len && (len / b + 1) * b >= len
  {
    var t := len / b;
    assert len == t * b + len % b;
    assert (t + 1) * b == t * b + b;
  }
}
