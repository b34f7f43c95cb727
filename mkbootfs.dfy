/** The older host tool that builds a BOOTFS image from manifests: trimming
    manifest fields, collecting entries in a list, and laying out their data
    at page-aligned offsets after the directory. */
module Mkbootfs {
  import opened ZxStatus
  import opened Arith
  import opened Text

  /** Fixed part of a directory entry (name length, data length, offset). */
  const FSENTRYSZ: nat := 12
  /** Size of the bootdata header written before the directory. */
  const BOOTDATA_HEADER_SIZE: nat := 32
  const PAGE_SIZE: nat := 4096

  /** The C library's `isspace` in the "C" locale. */
  predicate IsSpace(c: char)
  {
    c == ' ' || c == '\t' || c == '\n' || c == '\U{000b}' || c == '\U{000c}' || c == '\r'
  }

  /** The text without its leading white space. */
  function TrimStart(s: string): string
  {
    if s != [] && IsSpace(s[0]) then TrimStart(s[1..]) else s
  }

  /** The text without its trailing white space. */
  function TrimEnd(s: string): string
  {
    if s != [] && IsSpace(s[|s| - 1]) then TrimEnd(s[..|s| - 1]) else s
  }

  /** The text trim leaves: both ends stripped of white space. */
  function Trimmed(s: string): string
  {
    TrimEnd(TrimStart(s))
  }

  /** trim: the text with leading and trailing white space removed; white
      space inside is kept. */
  method Trim(s: string) returns (r: string)
    ensures r == Trimmed(s)
    ensures exists i, j ::
      0 <= i <= j <= |s| && r == s[i..j] &&
      (forall k :: 0 <= k < i ==> IsSpace(s[k])) && (forall k :: j <= k < |s| ==> IsSpace(s[k]))
    ensures r != [] ==> !IsSpace(r[0]) && !IsSpace(r[|r| - 1])
    ensures (forall k :: 0 <= k < |s| ==> IsSpace(s[k])) <==> r == []
  {
    var i := 0;
    while i < |s| && IsSpace(s[i])
      invariant i <= |s| && forall k :: 0 <= k < i ==> IsSpace(s[k])
      invariant TrimStart(s[i..]) == TrimStart(s)
    {
      assert s[i..][1..] == s[i + 1..];
      i := i + 1;
    }
    var j := |s|;
    assert s[i..j] == s[i..];
    while j > i && IsSpace(s[j - 1])
      invariant i <= j <= |s| && forall k :: j <= k < |s| ==> IsSpace(s[k])
      invariant TrimEnd(s[i..j]) == TrimEnd(s[i..])
    {
      assert s[i..j][..j - i - 1] == s[i..j - 1];
      j := j - 1;
    }
    r := s[i..j];
    if r == [] {
      assert i == j;
    } else {
      assert r[0] == s[i] && r[|r| - 1] == s[j - 1];
    }
  }

  /** An entry of the image: target name, name length with its NUL, data
      offset, data length and the host file it comes from. */
  datatype FsEntry = FsEntry(name: string, nameLength: nat, offset: nat, length: nat, srcPath: string)

  /** PAGEALIGN. */
  function PageAlign(n: nat): (r: nat)
    ensures r % PAGE_SIZE == 0 && n <= r < n + PAGE_SIZE
  {
    RoundUp(n, PAGE_SIZE)
  }

  /** Sum of the page-rounded lengths of the entries. */
  function DataSize(es: seq<FsEntry>): nat
  {
    if es == [] then 0 else DataSize(es[..|es| - 1]) + PageAlign(es[|es| - 1].length)
  }

  /** Directory bytes the entries take: name length plus the fixed part each. */
  function DirBytes(es: seq<FsEntry>): nat
  {
    if es == [] then 0 else DirBytes(es[..|es| - 1]) + es[|es| - 1].nameLength + FSENTRYSZ
  }

  /** import_manifest_entry: an entry for `dst`, or None when the name is
      empty, the file cannot be examined (`size` None) or is larger than
      INT32_MAX bytes. */
  function ManifestEntry(dst: string, src: string, size: Option<nat>): (r: Option<FsEntry>)
    ensures r.Some? <==> dst != [] && size.Some? && size.value <= INT32_MAX
    ensures r.Some? ==>
      r.value.name == dst && r.value.nameLength == |dst| + 1 &&
      r.value.length == size.value && r.value.srcPath == src && r.value.offset == 0
  {
    if dst == [] || size.None? || size.value > INT32_MAX then None
    else Some(FsEntry(dst, |dst| + 1, 0, size.value, src))
  }

  /** The entry import_manifest makes from a line whose first '=' is at
      `eq`: the trimmed text before it names the target, the trimmed text
      after it the source, whose size `sizeOf` gives. */
  function LineEntry(line: string, eq: nat, sizeOf: string -> Option<nat>): Option<FsEntry>
    requires eq < |line|
  {
    var src := Trimmed(line[eq + 1..]);
    ManifestEntry(Trimmed(line[..eq]), src, sizeOf(src))
  }

  /** A line import_manifest gets past: one without '=', or one whose
      entry is made. */
  predicate LineAccepted(line: string, sizeOf: string -> Option<nat>)
  {
    match IndexOf(line, '=')
      case None => true
      case Some(eq) => LineEntry(line, eq, sizeOf).Some?
  }

  /** The entries import_manifest adds for `lines`, in order, and whether
      it reaches the end: lines without '=' add nothing, and the first line
      whose entry is refused ends the import. */
  function ManifestEntries(lines: seq<string>, sizeOf: string -> Option<nat>): (seq<FsEntry>, bool)
  {
    if lines == [] then ([], true)
    else match IndexOf(lines[0], '=')
      case None => ManifestEntries(lines[1..], sizeOf)
      case Some(eq) =>
        match LineEntry(lines[0], eq, sizeOf)
          case None => ([], false)
          case Some(e) =>
            var (rest, ok) := ManifestEntries(lines[1..], sizeOf);
            ([e] + rest, ok)
  }

  /** The import reaches the end of the manifest exactly when every line is
      accepted; it adds at most one entry per line, and every entry is
      named, at most INT32_MAX bytes long and not yet placed. */
  lemma {:induction false} ManifestEntriesMeans(lines: seq<string>, sizeOf: string -> Option<nat>)
    ensures ManifestEntries(lines, sizeOf).1 <==> forall i :: 0 <= i < |lines| ==> LineAccepted(lines[i], sizeOf)
    ensures |ManifestEntries(lines, sizeOf).0| <= |lines|
    ensures var es := ManifestEntries(lines, sizeOf).0;
      forall k :: 0 <= k < |es| ==> es[k].name != [] && es[k].length <= INT32_MAX && es[k].offset == 0
  {
    if lines != [] {
      ManifestEntriesMeans(lines[1..], sizeOf);
      assert forall i :: 1 <= i < |lines| ==> lines[i] == lines[1..][i - 1];
      if LineAccepted(lines[0], sizeOf) {
        assert (forall i :: 0 <= i < |lines| ==> LineAccepted(lines[i], sizeOf)) <==>
               (forall i :: 0 <= i < |lines[1..]| ==> LineAccepted(lines[1..][i], sizeOf));
      }
    }
  }

  /** One line of the manifest: what ManifestEntries does with the line
      at `i`. */
  lemma ManifestStep(lines: seq<string>, i: nat, sizeOf: string -> Option<nat>)
    requires i < |lines|
    ensures var here := ManifestEntries(lines[i..], sizeOf);
      var next := ManifestEntries(lines[i + 1..], sizeOf);
      match IndexOf(lines[i], '=')
        case None => here == next
        case Some(eq) =>
          match LineEntry(lines[i], eq, sizeOf)
            case None => here == ([], false)
            case Some(e) => here == ([e] + next.0, next.1)
  {
    assert lines[i..][0] == lines[i];
    assert lines[i..][1..] == lines[i + 1..];
  }

  /** The body of import_manifest's loop for one line: whether it holds
      an '=', and then the entry import_manifest_entry makes from the
      trimmed target and source. */
  method ParseManifestLine(line: string, sizeOf: string -> Option<nat>) returns (hasEq: bool, e: Option<FsEntry>)
    ensures hasEq <==> IndexOf(line, '=').Some?
    ensures hasEq ==> e == LineEntry(line, IndexOf(line, '=').value, sizeOf)
  {
    var eq := IndexOf(line, '=');
    if eq.None? {
      return false, None;
    }
    var dst := Trim(line[..eq.value]);
    var src := Trim(line[eq.value + 1..]);
    return true, ManifestEntry(dst, src, sizeOf(src));
  }

  class Fs {
    /** The list from `first` to `last`, in order. */
    var entries: seq<FsEntry>

    constructor ()
      ensures entries == []
    {
      entries := [];
    }

    /** add_entry: appends at the tail and returns the directory bytes the
        entry needs. */
    method AddEntry(e: FsEntry) returns (n: nat)
      modifies this
      ensures entries == old(entries) + [e]
      ensures n == e.nameLength + FSENTRYSZ
    {
      entries := entries + [e];
      return e.nameLength + FSENTRYSZ;
    }

    /** import_manifest over the lines of a manifest: lines without '=' are
        skipped; the trimmed text before '=' is the target and the trimmed
        text after it the source. The first bad entry stops the import
        with -1, keeping the entries added before it; otherwise the header
        size grows by the directory bytes of the new entries. `sizeOf`
        stands for examining a host file. */
    method ImportManifest(lines: seq<string>, sizeOf: string -> Option<nat>, hdrsz: nat)
      returns (rc: int, newHdrsz: nat)
      modifies this
      ensures entries == old(entries) + ManifestEntries(lines, sizeOf).0
      ensures rc == (if ManifestEntries(lines, sizeOf).1 then 0 else -1)
      ensures rc == 0 ==> newHdrsz == hdrsz + DirBytes(ManifestEntries(lines, sizeOf).0)
      ensures rc == -1 ==> newHdrsz == hdrsz
    {
      var sz := 0;
      var i := 0;
      ghost var added: seq<FsEntry> := [];
      assert lines[0..] == lines;
      assert [] + ManifestEntries(lines, sizeOf).0 == ManifestEntries(lines, sizeOf).0;
      while i < |lines|
        invariant i <= |lines|
        invariant entries == old(entries) + added && sz == DirBytes(added)
        invariant ManifestEntries(lines, sizeOf) ==
          (added + ManifestEntries(lines[i..], sizeOf).0, ManifestEntries(lines[i..], sizeOf).1)
      {
        var line := lines[i];
        ManifestStep(lines, i, sizeOf);
        i := i + 1;
        var hasEq, e := ParseManifestLine(line, sizeOf);
        if !hasEq {
          continue;
        }
        if e.None? {
          assert added + [] == added;
          return -1, hdrsz;
        }
        var n := AddEntry(e.value);
        ghost var rest := ManifestEntries(lines[i..], sizeOf).0;
        assert added + ([e.value] + rest) == (added + [e.value]) + rest;
        added := added + [e.value];
        sz := sz + n;
      }
      assert lines[i..] == [];
      assert added + [] == added;
      return 0, hdrsz + sz;
    }

    /** The layout loop of main: after the bootdata header and the
        end-of-records entry, the directory is padded to a page; each entry
        gets the current offset, which then moves on by its page-rounded
        length; passing INT32_MAX is an error. A zero-length last entry adds
        one page of fill at the end. */
    method AssignOffsets(hsz: nat) returns (ok: bool, off: nat)
      modifies this
      ensures |entries| == |old(entries)|
      ensures forall k :: 0 <= k < |entries| ==>
        SameButOffset(entries[k], old(entries)[k])
      ensures ok <==> forall k :: 0 < k <= |entries| ==>
        OffsetOf(DataStart(hsz), old(entries), k) <= INT32_MAX
      ensures ok ==> forall k :: 0 <= k < |entries| ==>
        entries[k].offset == OffsetOf(DataStart(hsz), old(entries), k)
      ensures ok ==> off == ImageEnd(DataStart(hsz), old(entries))
    {
      var laid;
      ok, laid, off := LayOut(entries, DataStart(hsz));
      entries := laid;
    }
  }

  /** The loop of AssignOffsets on the entry list `es`, with the data
      starting at `base`. On failure the entries up to the one that overflowed
      carry their offsets. */
  method LayOut(es: seq<FsEntry>, base: nat) returns (ok: bool, cur: seq<FsEntry>, off: nat)
    ensures OnlyOffsets(cur, es)
    ensures ok <==> Fits(base, es)
    ensures ok ==> Placed(cur, es, base)
    ensures ok ==> off == ImageEnd(base, es)
  {
    cur := es;
    off := base;
    var i := 0;
    while i < |cur|
      invariant Laid(cur, es, base, i) && off == OffsetOf(base, es, i)
    {
      var e := cur[i];
      LayStep(cur, es, base, i);
      cur := cur[i := e.(offset := off)];
      OffsetStep(base, es, i);
      off := off + PageAlign(e.length);
      if off > INT32_MAX {
        assert !(OffsetOf(base, es, i + 1) <= INT32_MAX);
        return false, cur, off;
      }
      i := i + 1;
    }
    LaidAll(cur, es, base);
    if cur != [] && cur[|cur| - 1].length == 0 {
      off := off + PAGE_SIZE;
    }
    return true, cur, off;
  }

  /** Loop state of AssignOffsets: entries before `i` carry their offsets,
      all of which stay within INT32_MAX, the rest are untouched. */
  ghost predicate Laid(cur: seq<FsEntry>, es: seq<FsEntry>, base: nat, i: nat)
  {
    i <= |cur| && OnlyOffsets(cur, es) &&
    (forall k :: i <= k < |cur| ==> cur[k] == es[k]) &&
    (forall k :: 0 < k <= i ==> OffsetOf(base, es, k) <= INT32_MAX) &&
    (forall k :: 0 <= k < i ==> cur[k].offset == OffsetOf(base, es, k))
  }

  /** Laying out entry `i` keeps the loop state, and moves it on when the
      next offset stays within INT32_MAX. */
  lemma LayStep(cur: seq<FsEntry>, es: seq<FsEntry>, base: nat, i: nat)
    requires Laid(cur, es, base, i) && i < |cur|
    ensures var next := cur[i := cur[i].(offset := OffsetOf(base, es, i))];
      OnlyOffsets(next, es) &&
      (OffsetOf(base, es, i + 1) <= INT32_MAX ==> Laid(next, es, base, i + 1))
  {
    var next := cur[i := cur[i].(offset := OffsetOf(base, es, i))];
    forall k | 0 <= k < |next| ensures SameButOffset(next[k], es[k]) {
      if k != i { assert next[k] == cur[k]; }
    }
    if OffsetOf(base, es, i + 1) <= INT32_MAX {
      forall k | 0 < k <= i + 1 ensures OffsetOf(base, es, k) <= INT32_MAX {
      }
      forall k | 0 <= k < i + 1 ensures next[k].offset == OffsetOf(base, es, k) {
        if k != i { assert next[k] == cur[k]; }
      }
      forall k | i + 1 <= k < |next| ensures next[k] == es[k] {
        assert next[k] == cur[k];
      }
    }
  }

  /** The finished loop state gives the postconditions of AssignOffsets. */
  lemma LaidAll(cur: seq<FsEntry>, es: seq<FsEntry>, base: nat)
    requires Laid(cur, es, base, |cur|)
    ensures Fits(base, es) && Placed(cur, es, base)
  {
  }

  /** `cur` is `es` with, at most, different offsets. */
  ghost predicate OnlyOffsets(cur: seq<FsEntry>, es: seq<FsEntry>)
  {
    |cur| == |es| && forall k :: 0 <= k < |cur| ==> SameButOffset(cur[k], es[k])
  }

  /** Every entry of `es` ends within INT32_MAX when the data starts at `base`. */
  ghost predicate Fits(base: nat, es: seq<FsEntry>)
  {
    forall k :: 0 < k <= |es| ==> OffsetOf(base, es, k) <= INT32_MAX
  }

  /** Each entry of `cur` carries the offset the layout gives it. */
  ghost predicate Placed(cur: seq<FsEntry>, es: seq<FsEntry>, base: nat)
    requires |cur| == |es|
  {
    forall k :: 0 <= k < |cur| ==> cur[k].offset == OffsetOf(base, es, k)
  }

  /** The entries appended after `before` are exactly `added`. */
  lemma Appended(before: seq<FsEntry>, added: seq<FsEntry>)
    ensures var es := before + added;
      es[..|before|] == before && es[|before|..] == added &&
      forall k :: |before| <= k < |es| ==> es[k] == added[k - |before|]
  {
  }

  /** Two entries that differ at most in their offset. */
  predicate SameButOffset(a: FsEntry, b: FsEntry)
  {
    a.name == b.name && a.nameLength == b.nameLength && a.length == b.length && a.srcPath == b.srcPath
  }

  /** Where the data begins: the directory with the bootdata header and the
      end-of-records entry, rounded up to a page. */
  function DataStart(hsz: nat): (r: nat)
    ensures r % PAGE_SIZE == 0 && hsz + BOOTDATA_HEADER_SIZE + FSENTRYSZ <= r
  {
    PageAlign(hsz + BOOTDATA_HEADER_SIZE + FSENTRYSZ)
  }

  /** The offset the k-th entry gets (or, for k == |es|, where the data of
      the last entry ends). */
  function OffsetOf(base: nat, es: seq<FsEntry>, k: nat): nat
    requires k <= |es|
  {
    base + DataSize(es[..k])
  }

  lemma OffsetStep(base: nat, es: seq<FsEntry>, i: nat)
    requires i < |es|
    ensures OffsetOf(base, es, i + 1) == OffsetOf(base, es, i) + PageAlign(es[i].length)
  {
    assert es[..i + 1][..i] == es[..i];
  }

  /** The end of the image: past the last entry's data, plus one page of
      fill when the last entry is empty. */
  function ImageEnd(base: nat, es: seq<FsEntry>): nat
  {
    OffsetOf(base, es, |es|) + (if es != [] && es[|es| - 1].length == 0 then PAGE_SIZE else 0)
  }

  /** Offsets are page aligned and never decrease; an entry with data starts
      strictly after the one before it. */
  lemma OffsetsOrdered(base: nat, es: seq<FsEntry>, k: nat)
    requires base % PAGE_SIZE == 0 && k < |es|
    ensures OffsetOf(base, es, k) % PAGE_SIZE == 0
    ensures OffsetOf(base, es, k) + es[k].length <= OffsetOf(base, es, k + 1)
    ensures es[k].length > 0 ==> OffsetOf(base, es, k) < OffsetOf(base, es, k + 1)
  {
    assert es[..k + 1][..k] == es[..k];
    DataSizeAligned(es[..k]);
    DivModUnique(base + DataSize(es[..k]), PAGE_SIZE, base / PAGE_SIZE + DataSize(es[..k]) / PAGE_SIZE, 0);
  }

  lemma {:induction false} DataSizeAligned(es: seq<FsEntry>)
    ensures DataSize(es) % PAGE_SIZE == 0
  {
    if es != [] {
      var a := DataSize(es[..|es| - 1]);
      DataSizeAligned(es[..|es| - 1]);
      var b := PageAlign(es[|es| - 1].length);
      DivModUnique(a + b, PAGE_SIZE, a / PAGE_SIZE + b / PAGE_SIZE, 0);
    }
  }
}
