/** The in-memory filesystem of devmgr: files backed by a VMO that grows on
    write, read-only-sized VMO windows, and the dnode tree that names them
    (rename, unlink, link and automatically numbered links).

    A VMO is modelled as its bytes: its size is always whole pages (the
    kernel rounds a requested size up), a read or write moves the bytes that
    lie inside that size and nothing past it, and creating or resizing one
    can fail for want of memory (`vmoOk`). */
module Memfs {
  import opened ZxStatus
  import opened Text
  import Arith

  /** The largest file memfs lets a write or truncate produce. */
  const MAX_FILE_SIZE: nat := 8192 * 8192
  const PAGE_SIZE: nat := 4096

  type byte = bv8

  function Min(a: nat, b: nat): nat { if a < b then a else b }
  function Max(a: nat, b: nat): nat { if a < b then b else a }

  function Zeros(n: nat): (r: seq<byte>)
    ensures |r| == n && forall i :: 0 <= i < n ==> r[i] == 0
  {
    seq(n, _ => 0)
  }

  /** How many of `len` bytes at `off` lie inside an object of `size`
      bytes. */
  function Inside(size: nat, off: nat, len: nat): (r: nat)
    ensures r <= len && (r > 0 ==> off + r <= size)
    ensures off < size ==> r == Min(len, size - off)
    ensures off >= size ==> r == 0
  {
    if off >= size then 0 else Min(len, size - off)
  }

  /** `v` after setting its size to `n`: cut, or extended with zeros. */
  function Resized(v: seq<byte>, n: nat): (r: seq<byte>)
    ensures |r| == n
  {
    if n <= |v| then v[..n] else v + Zeros(n - |v|)
  }

  /** `v` with `d` written at `off`. */
  function Overwrite(v: seq<byte>, off: nat, d: seq<byte>): (r: seq<byte>)
    requires off + |d| <= |v|
    ensures |r| == |v|
  {
    v[..off] + d + v[off + |d|..]
  }

  /** `v` after mx_vmo_write of `d` at `off`: the bytes inside its size
      land, the rest is dropped. */
  function WriteInside(v: seq<byte>, off: nat, d: seq<byte>): (r: seq<byte>)
    ensures |r| == |v|
  {
    var n := Inside(|v|, off, |d|);
    if n == 0 then v else Overwrite(v, off, d[..n])
  }

  /** Resizing keeps the bytes below both sizes and reads zeros past the
      old size. */
  lemma ResizedAt(v: seq<byte>, n: nat, i: nat)
    requires i < n
    ensures i < |v| ==> Resized(v, n)[i] == v[i]
    ensures i >= |v| ==> Resized(v, n)[i] == 0
  {
  }

  /** The written range holds the data; every other byte is unchanged. */
  lemma OverwriteAt(v: seq<byte>, off: nat, d: seq<byte>)
    requires off + |d| <= |v|
    ensures Overwrite(v, off, d)[off..off + |d|] == d
    ensures forall i :: 0 <= i < |v| && !(off <= i < off + |d|) ==> Overwrite(v, off, d)[i] == v[i]
  {
    var r := Overwrite(v, off, d);
    assert r[off..off + |d|] == d;
  }

  /** A write lands the bytes that fit and leaves the rest of the object
      as it was; reading the range back gives the written bytes. */
  lemma WriteInsideAt(v: seq<byte>, off: nat, d: seq<byte>)
    ensures var n := Inside(|v|, off, |d|);
      (n > 0 ==> WriteInside(v, off, d)[off..off + n] == d[..n]) &&
      forall i :: 0 <= i < |v| && !(off <= i < off + n) ==> WriteInside(v, off, d)[i] == v[i]
  {
    var n := Inside(|v|, off, |d|);
    if n > 0 {
      OverwriteAt(v, off, d[..n]);
    }
  }

  /** `n` rounded up to whole pages: the size of a VMO made for `n` bytes
      (the kernel sizes VMOs in pages). */
  function PageUp(n: nat): (r: nat)
    ensures r % PAGE_SIZE == 0 && n <= r < n + PAGE_SIZE
    ensures n % PAGE_SIZE == 0 ==> r == n
    ensures n % PAGE_SIZE != 0 ==> r == n + (PAGE_SIZE - n % PAGE_SIZE)
    ensures r == Arith.RoundUp(n, PAGE_SIZE)
  {
    Arith.RoundUp(n, PAGE_SIZE)
  }

  lemma PageUpMonotone(a: nat, b: nat)
    requires a <= b
    ensures PageUp(a) <= PageUp(b)
  {
    Arith.RoundUpLeast(a, PAGE_SIZE, PageUp(b));
  }

  /** Setting the size of a VMO to the pages of `n`, when its bytes from
      `length` on are zero and so are those of `n`'s last page below
      `length`: the bytes below `n` are the file's first `n` bytes padded
      with zeros, and every byte past `n` is zero. */
  lemma ResizedFile(v: seq<byte>, length: nat, n: nat)
    requires length <= |v|
    requires forall i :: length <= i < |v| ==> v[i] == 0
    requires forall i :: n <= i < length && i < PageUp(n) ==> v[i] == 0
    ensures var w := Resized(v, PageUp(n));
      (forall i :: n <= i < |w| ==> w[i] == 0) && w[..n] == Resized(v[..length], n)
  {
    var w := Resized(v, PageUp(n));
    forall i | n <= i < |w|
      ensures w[i] == 0
    {
      ResizedAt(v, PageUp(n), i);
    }
    forall i | 0 <= i < n
      ensures w[..n][i] == Resized(v[..length], n)[i]
    {
      ResizedAt(v, PageUp(n), i);
      ResizedAt(v[..length], n, i);
    }
  }

  /** Writing `d` at `off` into a file grown to `newLength` (the old length
      or the clamped end of the write) lands nothing past the new length:
      the VMO's bytes past it stay zero. */
  lemma WrittenFile(v: seq<byte>, length: nat, newLength: nat, off: nat, d: seq<byte>)
    requires length <= MAX_FILE_SIZE && |v| == PageUp(length)
    requires forall i :: length <= i < |v| ==> v[i] == 0
    requires newLength == Max(length, Min(off + |d|, MAX_FILE_SIZE))
    ensures var w := WriteInside(Resized(v, PageUp(newLength)), off, d);
      |w| == PageUp(newLength) && (forall i :: newLength <= i < |w| ==> w[i] == 0) &&
      var n := Inside(|w|, off, |d|);
      n > 0 ==> off + n <= newLength && w[..newLength][off..off + n] == d[..n]
  {
    PageUpMonotone(length, newLength);
    var g := Resized(v, PageUp(newLength));
    forall i | length <= i < |g|
      ensures g[i] == 0
    {
      ResizedAt(v, PageUp(newLength), i);
    }
    var n := Inside(|g|, off, |d|);
    assert n > 0 ==> off + n <= newLength by {
      if n > 0 && off + |d| > MAX_FILE_SIZE {
        assert PageUp(MAX_FILE_SIZE) == MAX_FILE_SIZE;
      }
    }
    WriteInsideAt(g, off, d);
    var w := WriteInside(g, off, d);
    if n > 0 {
      assert w[..newLength][off..off + n] == w[off..off + n];
    }
  }

    /** The bytes VnodeFile::Truncate zeroes before shrinking into a
      partial page: from `n` to the end of its page or of the file,
      whichever comes first. */
  function PartialPageZeroed(v: seq<byte>, length: nat, n: nat): (r: seq<byte>)
    requires n < length <= |v|
    ensures |r| == |v|
    ensures forall i :: 0 <= i < |v| && !(n <= i < Min(PageUp(n), length)) ==> r[i] == v[i]
    ensures forall i :: n <= i < Min(PageUp(n), length) ==> r[i] == 0
  {
    var z := Zeros(Min(PageUp(n), length) - n);
    OverwriteAt(v, n, z);
    Overwrite(v, n, z)
  }

  /** The zeroing write of VnodeFile::Truncate, `ppage` bytes at `n`, lies
      inside the VMO and is the partial-page zeroing; it keeps the bytes
      below `n` and leaves the VMO ready to be cut to the pages of `n`. */
  lemma PartialPageWrite(v: seq<byte>, length: nat, n: nat, ppage: nat)
    requires n < length && |v| == PageUp(length) && n % PAGE_SIZE != 0
    requires forall i :: length <= i < |v| ==> v[i] == 0
    requires ppage == if n + (PAGE_SIZE - n % PAGE_SIZE) < length then PAGE_SIZE - n % PAGE_SIZE else length - n
    ensures Inside(|v|, n, ppage) == ppage
    ensures Overwrite(v, n, Zeros(ppage)) == PartialPageZeroed(v, length, n)
    ensures var z := PartialPageZeroed(v, length, n);
      && z[..n] == v[..n]
      && Resized(z[..length], n) == Resized(v[..length], n)
      && (forall i :: length <= i < |z| ==> z[i] == 0)
      && (forall i :: n <= i < length && i < PageUp(n) ==> z[i] == 0)
  {
    var z := PartialPageZeroed(v, length, n);
    assert z[..n] == v[..n];
    assert z[..length][..n] == v[..length][..n];
  }

  /** A file: its VMO (created on first write or truncate) and its length. */
  class VnodeFile {
    var hasVmo: bool
    var vmo: seq<byte>
    var length: nat

    /** The VMO holds the file in whole pages and the bytes past the file's
        length are zero; the file never passes the maximum size; before the
        VMO exists the file is empty. */
    ghost predicate Valid()
      reads this
    {
      && length <= MAX_FILE_SIZE
      && (hasVmo ==> |vmo| == PageUp(length) && forall i :: length <= i < |vmo| ==> vmo[i] == 0)
      && (!hasVmo ==> length == 0 && vmo == [])
    }

    /** The file's bytes. */
    ghost function Contents(): (r: seq<byte>)
      requires Valid()
      reads this
      ensures |r| == length
    {
      vmo[..length]
    }

    constructor ()
      ensures Valid() && !hasVmo && length == 0
    {
      hasVmo := false;
      vmo := [];
      length := 0;
    }

    /** VnodeFile::Read: nothing at or past the end or before the VMO
        exists; otherwise the VMO's bytes from `off`, which run to the end
        of the file's last page: the file's bytes, then zeros. */
    method Read(len: nat, off: nat) returns (data: seq<byte>)
      requires Valid()
      ensures off >= length ==> data == []
      ensures off < length ==> data == vmo[off..off + Min(len, PageUp(length) - off)]
      ensures |data| <= len
      ensures off < length ==> data[..Min(len, length - off)] == Contents()[off..off + Min(len, length - off)]
      ensures forall i :: 0 <= i < |data| && length <= off + i ==> data[i] == 0
    {
      if off >= length || !hasVmo {
        return [];
      }
      var n := Inside(|vmo|, off, len);
      data := vmo[off..off + n];
    }

    /** VnodeFile::Write: the new length is off + |data| clamped to the
        maximum; the VMO is created or grown to its pages, the bytes that
        fit are written, and the length only grows. Writing nothing at or
        past the maximum is ERR_FILE_BIG, the length having grown all the
        same. */
    method Write(data: seq<byte>, off: nat, vmoOk: bool) returns (r: Result<nat>)
      requires Valid()
      modifies this
      ensures Valid()
      ensures var newlen := Min(off + |data|, MAX_FILE_SIZE);
        if !vmoOk && (!old(hasVmo) || newlen > old(length)) then
          r == Failure(ErrNoMemory) && hasVmo == old(hasVmo) && vmo == old(vmo) && length == old(length)
        else
          var grown := Resized(old(vmo), PageUp(Max(old(length), newlen)));
          var n := Inside(|grown|, off, |data|);
          hasVmo && length == Max(old(length), newlen) &&
          vmo == WriteInside(grown, off, data) &&
          (if n == 0 && off >= MAX_FILE_SIZE then r == Failure(ErrFileBig) else r == Success(n))
      ensures r != Failure(ErrNoMemory) ==> (r == Failure(ErrFileBig) <==> off >= MAX_FILE_SIZE)
      ensures r.Success? && |data| > 0 ==> r.value > 0
      ensures r.Success? ==> r.value > 0 ==> Contents()[off..off + r.value] == data[..r.value]
    {
      var newlen := off + |data|;
      newlen := if newlen > MAX_FILE_SIZE then MAX_FILE_SIZE else newlen;
      ghost var grown := Resized(vmo, PageUp(Max(length, newlen)));
      WrittenFile(vmo, length, Max(length, newlen), off, data);
      if !hasVmo {
        if !vmoOk {
          return Failure(ErrNoMemory);
        }
        hasVmo := true;
        vmo := Zeros(PageUp(newlen));
        assert vmo == grown;
      } else if newlen > length {
        if !vmoOk {
          return Failure(ErrNoMemory);
        }
        vmo := Resized(vmo, PageUp(newlen));
      } else {
        assert vmo == grown;
      }
      var n := Inside(|vmo|, off, |data|);
      WriteInsideAt(vmo, off, data);
      vmo := WriteInside(vmo, off, data);
      if newlen > length {
        length := newlen;
      }
      if n == 0 && off >= MAX_FILE_SIZE {
        return Failure(ErrFileBig);
      }
      return Success(n);
    }

    /** VnodeFile::Truncate: the length is clamped to the maximum; a new
        VMO is created for it, or the VMO is resized to its pages, after
        zeroing the rest of the new last page when shrinking into a
        partial page. A failed zeroing write is ERR_IO and changes
        nothing; a failed creation or resize is ERR_NO_MEMORY, the zeroing
        having happened already. On success the file holds its old bytes
        below both lengths and zeros past the old length. */
    method Truncate(len: nat, vmoOk: bool, writeOk: bool) returns (status: Status)
      requires Valid()
      modifies this
      ensures Valid()
      ensures var n := Min(len, MAX_FILE_SIZE);
        var partial := old(hasVmo) && n < old(length) && n % PAGE_SIZE != 0;
        if partial && !writeOk then
          status == ErrIo && unchanged(this)
        else if !vmoOk then
          status == ErrNoMemory && hasVmo == old(hasVmo) && length == old(length) &&
          vmo == (if partial then PartialPageZeroed(old(vmo), old(length), n) else old(vmo))
        else
          status == Ok && hasVmo && length == n &&
          vmo == Resized(if partial then PartialPageZeroed(old(vmo), old(length), n) else old(vmo), PageUp(n))
      ensures status == Ok ==> Contents() == Resized(old(Contents()), length)
      ensures status != Ok ==> length == old(length) && Contents()[..Min(len, length)] == old(Contents())[..Min(len, length)]
    {
      var n := if len > MAX_FILE_SIZE then MAX_FILE_SIZE else len;
      var base := vmo;
      if !hasVmo {
        if !vmoOk {
          return ErrNoMemory;
        }
      } else if n < length && n % PAGE_SIZE != 0 {
        var ppage := PAGE_SIZE - n % PAGE_SIZE;
        ppage := if n + ppage < length then ppage else length - n;
        PartialPageWrite(vmo, length, n, ppage);
        // The zeroed range lies inside the VMO, so the write is never short.
        var actual := Inside(|vmo|, n, ppage);
        assert actual == ppage;
        if !writeOk {
          return ErrIo;
        }
        base := Overwrite(vmo, n, Zeros(ppage));
        if !vmoOk {
          vmo := base;
          return ErrNoMemory;
        }
      } else if !vmoOk {
        return ErrNoMemory;
      }
      ResizedFile(base, length, n);
      hasVmo := true;
      vmo := Resized(base, PageUp(n));
      length := n;
      return Ok;
    }
  }

  /** A window onto part of a VMO, fixed in size. */
  class VnodeVmo {
    var vmo: seq<byte>
    var offset: nat
    var length: nat

    ghost predicate Valid()
      reads this
    {
      offset + length <= |vmo|
    }

    constructor (v: seq<byte>, off: nat, len: nat)
      requires off + len <= |v|
      ensures Valid() && vmo == v && offset == off && length == len
    {
      vmo := v;
      offset := off;
      length := len;
    }

    /** VnodeVmo::Read: nothing past the end; otherwise the window's bytes
        from `off`, clipped to its length. */
    method Read(len: nat, off: nat) returns (data: seq<byte>)
      requires Valid()
      ensures off > length ==> data == []
      ensures off <= length ==> |data| == Min(len, length - off)
      ensures off <= length ==> data == vmo[offset + off..offset + off + |data|]
    {
      if off > length {
        return [];
      }
      var n := length - off;
      if len < n {
        n := len;
      }
      data := vmo[offset + off..offset + off + n];
    }

    /** VnodeVmo::Write: a write that would run past the window's length
        is ERR_NOT_SUPPORTED; otherwise the bytes land in the window. */
    method Write(data: seq<byte>, off: nat) returns (r: Result<nat>)
      requires Valid()
      modifies this
      ensures Valid() && offset == old(offset) && length == old(length)
      ensures off + |data| > length ==> r == Failure(ErrNotSupported) && vmo == old(vmo)
      ensures off + |data| <= length ==>
        r == Success(|data|) && vmo == Overwrite(old(vmo), offset + off, data)
    {
      if off + |data| > length {
        return Failure(ErrNotSupported);
      }
      vmo := Overwrite(vmo, offset + off, data);
      return Success(|data|);
    }
  }

  // ---------------------------------------------------------------------
  // The dnode tree

  /** "%03u" of a number below 1000: three decimal digits, zero padded. */
  function Dec3(n: nat): (r: string)
    requires n < 1000
    ensures |r| == 3 && forall i :: 0 <= i < 3 ==> '0' <= r[i] <= '9'
  {
    [Digit(n / 100), Digit(n / 10 % 10), Digit(n % 10)]
  }

  function Digit(d: nat): (c: char)
    requires d < 10
    ensures '0' <= c <= '9' && c as int - '0' as int == d
  {
    ('0' as int + d) as char
  }

  /** The number three decimal digits spell. */
  function Parse3(s: string): int
    requires |s| == 3
  {
    (s[0] as int - '0' as int) * 100 + (s[1] as int - '0' as int) * 10 + (s[2] as int - '0' as int)
  }

  /** The three digits read back as the number; so distinct numbers get
      distinct names. */
  lemma Dec3RoundTrip(n: nat)
    requires n < 1000
    ensures Parse3(Dec3(n)) == n
  {
    assert n == n / 100 * 100 + n / 10 % 10 * 10 + n % 10;
  }

  lemma Dec3Injective(a: nat, b: nat)
    requires a < 1000 && b < 1000 && Dec3(a) == Dec3(b)
    ensures a == b
  {
    Dec3RoundTrip(a);
    Dec3RoundTrip(b);
  }

  /** The name the i-th try takes from a counter at `s0`. */
  function TryName(s0: nat, i: nat): string
  {
    Dec3((s0 + i) % 1000)
  }

  /** The first of the tries from `i` to 999 whose name is not taken. */
  function FirstFreeTry(names: set<string>, s0: nat, i: nat): (r: Option<nat>)
    requires i <= 1000
    ensures r.Some? ==> i <= r.value < 1000 && TryName(s0, r.value) !in names
    ensures r.Some? ==> forall j :: i <= j < r.value ==> TryName(s0, j) in names
    ensures r.None? ==> forall j :: i <= j < 1000 ==> TryName(s0, j) in names
    decreases 1000 - i
  {
    if i == 1000 then None
    else if TryName(s0, i) !in names then Some(i)
    else FirstFreeTry(names, s0, i + 1)
  }

  /** The try the loop of _memfs_add_link stops at is the first free one. */
  lemma {:induction false} FirstFreeTryAt(names: set<string>, s0: nat, i: nat, n: nat)
    requires i <= n < 1000 && TryName(s0, n) !in names
    requires forall j :: i <= j < n ==> TryName(s0, j) in names
    ensures FirstFreeTry(names, s0, i) == Some(n)
    decreases n - i
  {
    if i < n {
      FirstFreeTryAt(names, s0, i + 1, n);
    }
  }

  /** The thousand tries from any counter cover every three-digit name:
      when all are taken, so is every name "000" to "999". */
  lemma TriesCoverAll(names: set<string>, s0: nat)
    requires forall j :: 0 <= j < 1000 ==> TryName(s0, j) in names
    ensures forall m :: 0 <= m < 1000 ==> Dec3(m) in names
  {
    forall m | 0 <= m < 1000 ensures Dec3(m) in names {
      var j := (m - s0 % 1000 + 1000) % 1000;
      assert (s0 + j) % 1000 == m;
      assert TryName(s0, j) in names;
    }
  }

  /** Whether walking up from `d` meets `src` before the root, within
      `fuel` steps. */
  function Under(parent: map<nat, nat>, d: nat, src: nat, fuel: nat): bool
    decreases fuel
  {
    fuel > 0 && d in parent && parent[d] != d && (d == src || Under(parent, parent[d], src, fuel - 1))
  }

  /** The dnode tree. Each dnode has a name, its children by name, a
      parent (a root, or a dnode not yet attached, is its own parent) and,
      once attached, the vnode it names; `dirs` holds the dnodes of
      directory type and `next` is above every dnode number. */
  datatype Tree = Tree(
    name: map<nat, string>,
    children: map<nat, map<string, nat>>,
    parent: map<nat, nat>,
    vnode: map<nat, nat>,
    dirs: set<nat>,
    next: nat)

  /** `c` is listed in `d` under `n`: it records `d` as its parent and `n`
      as its name, and names a vnode. */
  predicate Linked(t: Tree, c: nat, d: nat, n: string)
  {
    c in t.parent && t.parent[c] == d && c in t.name && t.name[c] == n && c != d && c in t.vnode
  }

  /** Every dnode has a name and a child list; every listed child points
      back at the directory that lists it. */
  predicate TreeOk(t: Tree)
  {
    t.children.Keys == t.parent.Keys && t.name.Keys == t.parent.Keys && t.vnode.Keys <= t.parent.Keys &&
    t.dirs <= t.parent.Keys &&
    (forall d :: d in t.parent ==> d < t.next) &&
    (forall d, n :: d in t.children && n in t.children[d] ==> Linked(t, t.children[d][n], d, n))
  }

  /** dn_lookup in a directory: the child listed under `nm`. */
  function Lookup(t: Tree, dir: nat, nm: string): (r: Option<nat>)
    ensures r.Some? <==> dir in t.children && nm in t.children[dir]
    ensures r.Some? && TreeOk(t) ==> Linked(t, r.value, dir, nm)
  {
    if dir in t.children && nm in t.children[dir] then Some(t.children[dir][nm]) else None
  }

  /** dn_allocate: a new detached dnode named `nm`, with no children. */
  function Allocated(t: Tree, nm: string): Tree
  {
    t.(name := t.name[t.next := nm], children := t.children[t.next := map[]],
       parent := t.parent[t.next := t.next], next := t.next + 1)
  }

  /** dn_delete: the dnode leaves the list it is on and the tree. */
  function Deleted(t: Tree, dn: nat): Tree
    requires dn in t.parent && dn in t.name
  {
    var p := t.parent[dn];
    var n := t.name[dn];
    var kids := if p in t.children && n in t.children[p] && t.children[p][n] == dn
      then t.children[p := t.children[p] - {n}] else t.children;
    Tree(t.name - {dn}, kids - {dn}, t.parent - {dn}, t.vnode - {dn}, t.dirs - {dn}, t.next)
  }

  /** list_move of the children of `from` to the empty `to`, and each moved
      child's parent pointed at `to`. */
  function Moved(t: Tree, from: nat, to: nat): Tree
    requires from in t.children
  {
    var kids := t.children[from];
    t.(children := t.children[to := kids][from := map[]], parent := Reparented(t.parent, kids.Values, to))
  }

  /** dn_attach plus the type flag: `dn` names vnode `vn`, as a directory
      or not. */
  function Attached(t: Tree, dn: nat, vn: nat, isDir: bool): Tree
  {
    t.(vnode := t.vnode[dn := vn], dirs := if isDir then t.dirs + {dn} else t.dirs - {dn})
  }

  /** dn_add_child: `dn` is listed in `dir` under its name. */
  function ChildAdded(t: Tree, dir: nat, dn: nat): Tree
    requires TreeOk(t) && dir in t.parent && dn in t.parent
  {
    var kids: map<string, nat> := t.children[dir][t.name[dn] := dn];
    t.(children := t.children[dir := kids], parent := t.parent[dn := dir])
  }

  /** Allocating gives a fresh dnode number and keeps the tree well formed. */
  lemma AllocatedOk(t: Tree, nm: string)
    requires TreeOk(t)
    ensures TreeOk(Allocated(t, nm)) && t.next !in t.parent
  {
  }

  /** Deleting a dnode without children keeps the tree well formed, takes
      exactly its own entry out of its directory and leaves every other
      child list alone. */
  lemma DeletedOk(t: Tree, dn: nat)
    requires TreeOk(t) && dn in t.parent && t.children[dn] == map[]
    ensures var r := Deleted(t, dn);
      TreeOk(r) && r.parent.Keys == t.parent.Keys - {dn} &&
      (forall d :: d in r.children && d != t.parent[dn] ==> r.children[d] == t.children[d])
    ensures forall d, n :: Lookup(t, d, n) == Some(dn) ==>
      d in Deleted(t, dn).children && Deleted(t, dn).children[d] == t.children[d] - {n}
  {
    var r := Deleted(t, dn);
    var p, nm := t.parent[dn], t.name[dn];
    forall d, n | d in r.children && n in r.children[d]
      ensures Linked(r, r.children[d][n], d, n)
    {
      var c := t.children[d][n];
      assert Linked(t, c, d, n);
      assert r.children[d][n] == c;
    }
    forall d, n | Lookup(t, d, n) == Some(dn)
      ensures d in r.children && r.children[d] == t.children[d] - {n}
    {
      assert Linked(t, dn, d, n);
    }
  }

  /** What deleting `dn` leaves alone: every other dnode keeps its parent,
      name and vnode, and every list entry not naming `dn` stays. The entry
      of `dn` under its own name in its parent goes. */
  lemma DeletedFrame(t: Tree, dn: nat)
    requires dn in t.parent && dn in t.name
    ensures var r := Deleted(t, dn);
      r.next == t.next && r.parent.Keys == t.parent.Keys - {dn} && r.dirs == t.dirs - {dn} &&
      r.vnode.Keys == t.vnode.Keys - {dn} && r.name.Keys == t.name.Keys - {dn} &&
      r.children.Keys == t.children.Keys - {dn}
    ensures var r := Deleted(t, dn);
      (forall d :: d in r.parent ==> r.parent[d] == t.parent[d]) &&
      (forall d :: d in r.name ==> r.name[d] == t.name[d]) &&
      (forall d :: d in r.vnode ==> r.vnode[d] == t.vnode[d])
    ensures var r := Deleted(t, dn);
      forall d, n :: d in t.children && d != dn && n in t.children[d] && t.children[d][n] != dn ==>
        n in r.children[d] && r.children[d][n] == t.children[d][n]
    ensures var r := Deleted(t, dn);
      forall d :: d in r.children ==> r.children[d].Keys <= t.children[d].Keys
    ensures var r := Deleted(t, dn); var p := t.parent[dn];
      p != dn && p in t.children && t.name[dn] in t.children[p] && t.children[p][t.name[dn]] == dn ==>
        t.name[dn] !in r.children[p]
  {
  }

  /** Moving the children of `from` to an empty detached `to` keeps the
      tree well formed. */
  lemma MovedOk(t: Tree, from: nat, to: nat)
    requires TreeOk(t) && from in t.parent && to in t.parent && from != to
    requires t.children[to] == map[] && t.parent[to] == to
    ensures var r := Moved(t, from, to);
      TreeOk(r) && r.children[to] == t.children[from] && r.children[from] == map[] &&
      r.parent.Keys == t.parent.Keys && r.parent[to] == to && r.parent[from] == t.parent[from] &&
      r.name == t.name && r.vnode == t.vnode && r.dirs == t.dirs && r.next == t.next &&
      (forall d :: d in r.children && d != from && d != to ==> r.children[d] == t.children[d])
  {
    var r := Moved(t, from, to);
    var kids := t.children[from];
    assert to !in kids.Values;
    assert from !in kids.Values;
    MovedFrame(t, from, to);
    forall d, n | d in r.children && n in r.children[d]
      ensures Linked(r, r.children[d][n], d, n)
    {
      if d == to {
        assert Linked(t, kids[n], from, n);
      } else {
        assert Linked(t, t.children[d][n], d, n);
      }
    }
  }

  /** What a move leaves alone, when neither directory is among the moved
      children. */
  lemma MovedFrame(t: Tree, from: nat, to: nat)
    requires from in t.parent && to in t.parent && from != to && from in t.children && t.parent[to] == to
    requires to !in t.children[from].Values && from !in t.children[from].Values
    ensures var r := Moved(t, from, to);
      r.children[to] == t.children[from] && r.children[from] == map[] &&
      r.parent.Keys == t.parent.Keys && r.parent[to] == to && r.parent[from] == t.parent[from] &&
      r.name == t.name && r.vnode == t.vnode && r.dirs == t.dirs && r.next == t.next &&
      (forall d :: d in r.children && d != from && d != to ==> r.children[d] == t.children[d])
  {
  }

  /** Attaching a vnode to a dnode keeps the tree well formed. */
  lemma AttachedOk(t: Tree, dn: nat, vn: nat, isDir: bool)
    requires TreeOk(t) && dn in t.parent
    ensures TreeOk(Attached(t, dn, vn, isDir))
  {
  }

  /** Listing a detached dnode under a name its new directory does not
      hold keeps the tree well formed and makes the name look it up. */
  lemma ChildAddedOk(t: Tree, dir: nat, dn: nat)
    requires TreeOk(t) && dir in t.parent && dn in t.parent && t.parent[dn] == dn && dn != dir
    requires dn in t.vnode && t.name[dn] !in t.children[dir]
    ensures TreeOk(ChildAdded(t, dir, dn))
    ensures Lookup(ChildAdded(t, dir, dn), dir, t.name[dn]) == Some(dn)
  {
  }

  /** memfs_can_unlink: a dnode with children, or one naming a mount
      point (a vnode in `remote`), cannot be unlinked. */
  function CanUnlink(t: Tree, remote: set<nat>, dn: nat): (s: Status)
    requires dn in t.children && dn in t.vnode
    ensures s == Ok || s == ErrBadState
    ensures s == Ok <==> t.children[dn] == map[] && t.vnode[dn] !in remote
  {
    if t.children[dn] != map[] then ErrBadState
    else if t.vnode[dn] in remote then ErrBadState
    else Ok
  }

  /** The checks of VnodeDir::Rename, in the order it makes them: both
      directories linked, no dot names, the source present, a file source
      only where no directory is demanded, a directory never moved under
      itself, and an existing target of the same kind, not the same vnode,
      and removable. */
  function RenameCheck(t: Tree, remote: set<nat>, olddir: nat, newdir: nat, oldname: string,
                       newname: string, srcMustBeDir: bool, dstMustBeDir: bool): Status
    requires TreeOk(t)
  {
    if !(olddir in t.dirs && newdir in t.dirs) then ErrBadState
    else if IsDotName(oldname) || IsDotName(newname) then ErrBadState
    else if Lookup(t, olddir, oldname).None? then ErrNotFound
    else
      var olddn := Lookup(t, olddir, oldname).value;
      if olddn !in t.dirs && (srcMustBeDir || dstMustBeDir) then ErrNotDir
      else if olddn in t.dirs && Under(t.parent, newdir, olddn, |t.parent|) then ErrInvalidArgs
      else if Lookup(t, newdir, newname).None? then Ok
      else
        var target := Lookup(t, newdir, newname).value;
        if t.vnode[olddn] == t.vnode[target] then ErrInvalidArgs
        else if (olddn in t.dirs) != (target in t.dirs) then ErrInvalidArgs
        else CanUnlink(t, remote, target)
  }

  /** A rename passes its checks exactly when the names are not dot names,
      the source exists, a directory is not moved below itself and any
      target is a different vnode of the same kind that can be unlinked. */
  lemma RenameCheckOk(t: Tree, remote: set<nat>, olddir: nat, newdir: nat, oldname: string,
                      newname: string, srcMustBeDir: bool, dstMustBeDir: bool)
    requires TreeOk(t)
    ensures RenameCheck(t, remote, olddir, newdir, oldname, newname, srcMustBeDir, dstMustBeDir) == Ok <==>
      olddir in t.dirs && newdir in t.dirs && !IsDotName(oldname) && !IsDotName(newname) &&
      oldname in t.children[olddir] &&
      (var olddn := t.children[olddir][oldname];
       (olddn in t.dirs || !(srcMustBeDir || dstMustBeDir)) &&
       (olddn in t.dirs ==> !Under(t.parent, newdir, olddn, |t.parent|)) &&
       (newname in t.children[newdir] ==>
         var target := t.children[newdir][newname];
         t.vnode[olddn] != t.vnode[target] && (olddn in t.dirs <==> target in t.dirs) &&
         t.children[target] == map[] && t.vnode[target] !in remote))
  {
  }

  /** The facts about the dnodes a rename touches that its checks
      establish: both directories exist, the source is listed in the old
      one and is not the new one, and a target is another dnode with no
      children. */
  predicate RenameShape(t: Tree, olddir: nat, newdir: nat, oldname: string, newname: string)
    requires TreeOk(t)
  {
    olddir in t.dirs && newdir in t.dirs && oldname in t.children[olddir] &&
    t.children[olddir][oldname] != newdir &&
    (newname in t.children[newdir] ==>
      t.children[newdir][newname] != t.children[olddir][oldname] &&
      t.children[t.children[newdir][newname]] == map[])
  }

  lemma RenameCheckShape(t: Tree, remote: set<nat>, olddir: nat, newdir: nat, oldname: string,
                         newname: string, srcMustBeDir: bool, dstMustBeDir: bool)
    requires TreeOk(t)
    requires RenameCheck(t, remote, olddir, newdir, oldname, newname, srcMustBeDir, dstMustBeDir) == Ok
    ensures RenameShape(t, olddir, newdir, oldname, newname)
  {
    var olddn := t.children[olddir][oldname];
    assert Linked(t, olddn, olddir, oldname);
    if olddn == newdir {
      assert olddn in t.dirs;
      assert Under(t.parent, newdir, olddn, |t.parent|);
    }
  }

  /** The first steps of a rename: a detached dnode named `newname` is
      allocated and any target under that name is deleted. */
  function Prepared(t: Tree, olddir: nat, newdir: nat, oldname: string, newname: string): Tree
    requires TreeOk(t) && RenameShape(t, olddir, newdir, oldname, newname)
  {
    var t1 := Allocated(t, newname);
    if newname in t.children[newdir] then
      var target := t.children[newdir][newname];
      assert Linked(t, target, newdir, newname);
      Deleted(t1, target)
    else t1
  }

  /** After the first steps of a rename the tree is well formed, holds the
      new detached dnode with no vnode, no longer lists anything under the
      new name, and still holds the source dnode, unchanged and listed under
      its name. */
  lemma PreparedOk(t: Tree, olddir: nat, newdir: nat, oldname: string, newname: string)
    requires TreeOk(t) && RenameShape(t, olddir, newdir, oldname, newname)
    ensures var r := Prepared(t, olddir, newdir, oldname, newname);
      TreeOk(r) && r.next == t.next + 1 &&
      t.next in r.parent && r.parent[t.next] == t.next && r.children[t.next] == map[] &&
      r.name[t.next] == newname && t.next !in r.vnode && t.next !in t.parent
    ensures var r := Prepared(t, olddir, newdir, oldname, newname);
      var olddn := t.children[olddir][oldname];
      olddn in r.parent && newdir in r.parent && newname !in r.children[newdir] &&
      r.children[olddn] == t.children[olddn] && olddn in r.vnode && r.vnode[olddn] == t.vnode[olddn] &&
      (olddn in r.dirs <==> olddn in t.dirs) && olddn != newdir && olddn != t.next &&
      Lookup(r, olddir, oldname) == Some(olddn)
  {
    var olddn := t.children[olddir][oldname];
    assert Linked(t, olddn, olddir, oldname);
    AllocatedOk(t, newname);
    var t1 := Allocated(t, newname);
    if newname in t.children[newdir] {
      var target := t.children[newdir][newname];
      assert Linked(t, target, newdir, newname);
      assert target != olddir by {
        assert oldname in t.children[olddir];
      }
      assert t1.parent[target] == newdir && t1.name[target] == newname;
      assert t1.children[newdir][newname] == target;
      DeletedOk(t1, target);
      DeletedFrame(t1, target);
      assert t1.children[olddir][oldname] == olddn;
    }
  }

  /** The middle steps of a rename: the children of `olddn` move to the
      detached `newdn` and `olddn` is deleted. */
  function Transferred(t: Tree, olddn: nat, newdn: nat, newdir: nat): (r: Tree)
    requires TreeOk(t) && olddn in t.parent && newdn in t.parent && newdir in t.parent
    requires olddn != newdn && olddn != newdir && newdn != newdir
    requires t.children[newdn] == map[] && t.parent[newdn] == newdn && newdn !in t.vnode
    ensures TreeOk(r) && r.next == t.next && olddn !in r.parent
    ensures newdn in r.parent && r.parent[newdn] == newdn && r.children[newdn] == t.children[olddn]
    ensures newdir in r.parent && r.children[newdir].Keys <= t.children[newdir].Keys
    ensures forall d, n :: Lookup(t, d, n) == Some(olddn) ==> Lookup(r, d, n) == None
    ensures r.name[newdn] == t.name[newdn] && newdn !in r.vnode
  {
    MovedOk(t, olddn, newdn);
    var t3 := Moved(t, olddn, newdn);
    DeletedOk(t3, olddn);
    Deleted(t3, olddn)
  }

  /** The tree after a rename that passed its checks: a new dnode named
      `newname` replaces any target, takes over the source's children, vnode
      and type, and is listed in `newdir`; the source dnode is gone. */
  function Renamed(t: Tree, olddir: nat, newdir: nat, oldname: string, newname: string): Tree
    requires TreeOk(t) && RenameShape(t, olddir, newdir, oldname, newname)
  {
    var olddn := t.children[olddir][oldname];
    var newdn := t.next;
    PreparedOk(t, olddir, newdir, oldname, newname);
    var t2 := Prepared(t, olddir, newdir, oldname, newname);
    var t4 := Transferred(t2, olddn, newdn, newdir);
    AttachedOk(t4, newdn, t.vnode[olddn], olddn in t.dirs);
    var t5 := Attached(t4, newdn, t.vnode[olddn], olddn in t.dirs);
    ChildAdded(t5, newdir, newdn)
  }

  /** After a rename the new name looks up a new dnode naming the source's
      vnode, of the source's type and with the source's children, and the
      tree stays well formed. */
  lemma RenamedOk(t: Tree, olddir: nat, newdir: nat, oldname: string, newname: string)
    requires TreeOk(t) && RenameShape(t, olddir, newdir, oldname, newname)
    ensures var r := Renamed(t, olddir, newdir, oldname, newname);
      var olddn := t.children[olddir][oldname];
      TreeOk(r) && Lookup(r, newdir, newname) == Some(t.next) && t.next !in t.parent &&
      r.vnode[t.next] == t.vnode[olddn] && (t.next in r.dirs <==> olddn in t.dirs) &&
      r.children[t.next] == t.children[olddn]
  {
    var olddn := t.children[olddir][oldname];
    var newdn := t.next;
    PreparedOk(t, olddir, newdir, oldname, newname);
    var t2 := Prepared(t, olddir, newdir, oldname, newname);
    var t4 := Transferred(t2, olddn, newdn, newdir);
    AttachedOk(t4, newdn, t.vnode[olddn], olddn in t.dirs);
    var t5 := Attached(t4, newdn, t.vnode[olddn], olddn in t.dirs);
    assert t5.name[newdn] == newname;
    ChildAddedOk(t5, newdir, newdn);
    var r := ChildAdded(t5, newdir, newdn);
    assert r.children[newdn] == t4.children[newdn];
    assert r.vnode == t5.vnode && r.dirs == t5.dirs;
    assert Renamed(t, olddir, newdir, oldname, newname) == r;
  }

  /** After a rename the old name is gone from the old directory, and the
      source dnode from the tree. */
  lemma RenamedRemovesOld(t: Tree, olddir: nat, newdir: nat, oldname: string, newname: string)
    requires TreeOk(t) && RenameShape(t, olddir, newdir, oldname, newname)
    ensures var r := Renamed(t, olddir, newdir, oldname, newname);
      t.children[olddir][oldname] !in r.parent && Lookup(r, olddir, oldname) == None
  {
    var olddn := t.children[olddir][oldname];
    var newdn := t.next;
    PreparedOk(t, olddir, newdir, oldname, newname);
    var t2 := Prepared(t, olddir, newdir, oldname, newname);
    var t4 := Transferred(t2, olddn, newdn, newdir);
    assert Lookup(t4, olddir, oldname) == None;
    AttachedOk(t4, newdn, t.vnode[olddn], olddn in t.dirs);
    var t5 := Attached(t4, newdn, t.vnode[olddn], olddn in t.dirs);
    var r := ChildAdded(t5, newdir, newdn);
    assert Renamed(t, olddir, newdir, oldname, newname) == r;
    assert olddn !in r.parent;
    assert olddir == newdir ==> oldname != newname;
    assert t5.name[newdn] == newname;
    assert Lookup(t5, olddir, oldname) == None;
    ChildAddedLookup(t5, newdir, newdn, olddir, oldname);
  }

  /** Listing `dn` in `dir` changes no other lookup. */
  lemma ChildAddedLookup(t: Tree, dir: nat, dn: nat, d: nat, n: string)
    requires TreeOk(t) && dir in t.parent && dn in t.parent && (d != dir || n != t.name[dn])
    ensures Lookup(ChildAdded(t, dir, dn), d, n) == Lookup(t, d, n)
  {
  }

  /** The tree after _memfs_add_link: a new dnode named `nm` for vnode
      `vn`, listed in `dir`. */
  function LinkAdded(t: Tree, dir: nat, nm: string, vn: nat, isDir: bool): Tree
    requires TreeOk(t) && dir in t.parent
  {
    AllocatedOk(t, nm);
    ChildAdded(Attached(Allocated(t, nm), t.next, vn, isDir), dir, t.next)
  }

  /** Adding a link under a free name makes the name look up the new
      dnode, which names the vnode, and keeps the tree well formed. */
  lemma LinkAddedOk(t: Tree, dir: nat, nm: string, vn: nat, isDir: bool)
    requires TreeOk(t) && dir in t.parent && nm !in t.children[dir]
    ensures var r := LinkAdded(t, dir, nm, vn, isDir);
      TreeOk(r) && Lookup(r, dir, nm) == Some(t.next) && r.vnode[t.next] == vn &&
      r.children[dir] == t.children[dir][nm := t.next]
  {
    AllocatedOk(t, nm);
    var t1 := Attached(Allocated(t, nm), t.next, vn, isDir);
    ChildAddedOk(t1, dir, t.next);
  }

  /** The counter of a directory vnode (zero until first used). */
  function SeqOf(seqcount: map<nat, nat>, v: nat): nat
  {
    if v in seqcount then seqcount[v] else 0
  }

  /** The name _memfs_add_link links under: the given one unless it is
      taken; without one, the first free "%03u" of the counter's next
      thousand values modulo 1000. None means ERR_ALREADY_EXISTS, and for
      an automatic name that happens only when all of "000" to "999" are
      taken. */
  function ChosenName(taken: set<string>, name: Option<string>, s0: nat): (r: Option<string>)
    ensures r.Some? ==> r.value !in taken
    ensures name.Some? ==> (r.Some? <==> name.value !in taken) && (r.Some? ==> r == name)
    ensures name.None? && r.Some? ==> exists m :: 0 <= m < 1000 && r.value == Dec3(m)
    ensures name.None? && r.None? ==> forall m :: 0 <= m < 1000 ==> Dec3(m) in taken
  {
    if name.Some? then (if name.value in taken then None else name)
    else
      var f := FirstFreeTry(taken, s0, 0);
      if f.Some? then Some(TryName(s0, f.value))
      else
        TriesCoverAll(taken, s0);
        None
  }

  /** The counter after an automatic name was sought: one past the try
      that found a free name, or a thousand further on. */
  function CounterAfter(taken: set<string>, s0: nat): (r: nat)
    ensures s0 < r <= s0 + 1000
  {
    var f := FirstFreeTry(taken, s0, 0);
    if f.Some? then s0 + f.value + 1 else s0 + 1000
  }

  /** The loop of _memfs_add_link that seeks an automatic name among the
      names a directory holds, from counter value `s0`; returns the name
      and the counter after the search. */
  method AutoName(taken: set<string>, s0: nat) returns (nm: Option<string>, counter: nat)
    ensures nm == ChosenName(taken, None, s0) && counter == CounterAfter(taken, s0)
  {
    counter := s0;
    var n := 0;
    while n < 1000
      invariant n <= 1000 && counter == s0 + n
      invariant FirstFreeTry(taken, s0, 0) == FirstFreeTry(taken, s0, n)
    {
      var tmp := Dec3(counter % 1000);
      assert tmp == TryName(s0, n);
      counter := counter + 1;
      TryStep(taken, s0, n);
      if tmp !in taken {
        assert FirstFreeTry(taken, s0, 0) == Some(n);
        return Some(tmp), counter;
      }
      n := n + 1;
    }
    assert FirstFreeTry(taken, s0, 0) == None;
    return None, counter;
  }

  /** One try of the search: a free name ends it, a taken one moves on. */
  lemma TryStep(names: set<string>, s0: nat, i: nat)
    requires i < 1000
    ensures FirstFreeTry(names, s0, i) ==
      if TryName(s0, i) !in names then Some(i) else FirstFreeTry(names, s0, i + 1)
  {
  }

  /** The parent pointers after each child in `moved` is pointed at `to`. */
  function Reparented(parent: map<nat, nat>, moved: set<nat>, to: nat): (r: map<nat, nat>)
    ensures r.Keys == parent.Keys
    ensures forall d :: d in r ==> r[d] == (if d in moved then to else parent[d])
  {
    map d | d in parent :: if d in moved then to else parent[d]
  }

  /** The loop of list_move's caller that points each moved child at its
      new parent, one child at a time. */
  method ReparentAll(parent: map<nat, nat>, kids: set<nat>, to: nat) returns (r: map<nat, nat>)
    requires kids <= parent.Keys
    ensures r == Reparented(parent, kids, to)
  {
    r := parent;
    assert r == Reparented(parent, {}, to);
    var todo := kids;
    ghost var done: set<nat> := {};
    while todo != {}
      invariant done <= kids && todo == kids - done
      invariant r == Reparented(parent, done, to)
      decreases todo
    {
      var c :| c in todo;
      ReparentStep(parent, done, c, to);
      r := r[c := to];
      done := done + {c};
      todo := todo - {c};
    }
  }

  /** Pointing one more child at `to`. */
  lemma ReparentStep(parent: map<nat, nat>, done: set<nat>, c: nat, to: nat)
    requires c in parent
    ensures Reparented(parent, done, to)[c := to] == Reparented(parent, done + {c}, to)
  {
  }

  /** The namespace of one memfs instance: the dnode tree, the vnodes that
      are mount points, and each directory vnode's link counter. */
  class Namespace {
    var tree: Tree
    var remote: set<nat>
    var seqcount: map<nat, nat>

    ghost predicate Valid()
      reads this
    {
      TreeOk(tree)
    }

    constructor (t: Tree, mounts: set<nat>)
      requires TreeOk(t)
      ensures Valid() && tree == t && remote == mounts && seqcount == map[]
    {
      tree := t;
      remote := mounts;
      seqcount := map[];
    }

    /** VnodeDir::Unlink: the directory must be linked, the name present,
        a directory where one is demanded, and the dnode removable; then
        it is deleted and only its entry leaves the directory. */
    method Unlink(dir: nat, nm: string, mustBeDir: bool) returns (status: Status)
      requires Valid()
      modifies this
      ensures Valid() && remote == old(remote) && seqcount == old(seqcount)
      ensures dir !in old(tree).dirs ==> status == ErrBadState
      ensures dir in old(tree).dirs && Lookup(old(tree), dir, nm).None? ==> status == ErrNotFound
      ensures dir in old(tree).dirs && Lookup(old(tree), dir, nm).Some? ==>
        var dn := Lookup(old(tree), dir, nm).value;
        status == (if dn !in old(tree).dirs && mustBeDir then ErrNotDir else CanUnlink(old(tree), remote, dn))
      ensures status != Ok ==> tree == old(tree)
      ensures status == Ok ==>
        tree == Deleted(old(tree), old(tree).children[dir][nm]) &&
        Lookup(tree, dir, nm) == None && tree.children[dir] == old(tree).children[dir] - {nm}
    {
      if dir !in tree.dirs {
        return ErrBadState;
      }
      var found := Lookup(tree, dir, nm);
      if found.None? {
        return ErrNotFound;
      }
      var dn := found.value;
      if dn !in tree.dirs && mustBeDir {
        return ErrNotDir;
      }
      status := CanUnlink(tree, remote, dn);
      if status != Ok {
        return status;
      }
      DeletedOk(tree, dn);
      tree := Deleted(tree, dn);
    }

    /** The list_move and the loop of VnodeDir::Rename that points each
        moved child at its new parent. */
    method MoveChildren(from: nat, to: nat)
      requires Valid() && from in tree.parent && to in tree.parent
      modifies this
      ensures tree == Moved(old(tree), from, to)
      ensures remote == old(remote) && seqcount == old(seqcount)
    {
      ghost var t0 := tree;
      var kids := tree.children[from];
      forall c | c in kids.Values
        ensures c in t0.parent
      {
        var n :| n in kids && kids[n] == c;
        assert Linked(t0, c, from, n);
      }
      var parent := ReparentAll(tree.parent, kids.Values, to);
      tree := tree.(children := tree.children[to := kids][from := map[]], parent := parent);
    }

    /** The walk of VnodeDir::Rename from the new directory up to its
        root, looking for the source; bounded by the number of dnodes. */
    method WalkMeets(newdir: nat, olddn: nat) returns (meets: bool)
      ensures meets == Under(tree.parent, newdir, olddn, |tree.parent|)
    {
      var parent := tree.parent;
      var observed := newdir;
      var steps := 0;
      while steps < |parent| && observed in parent && parent[observed] != observed
        invariant steps <= |parent|
        invariant Under(parent, newdir, olddn, |parent|) == Under(parent, observed, olddn, |parent| - steps)
        decreases |parent| - steps
      {
        if observed == olddn {
          return true;
        }
        observed := parent[observed];
        steps := steps + 1;
      }
      return false;
    }

    /** The validation half of VnodeDir::Rename: the status of its checks,
        in their order, changing nothing. */
    method RenameChecks(olddir: nat, newdir: nat, oldname: string, newname: string,
                        srcMustBeDir: bool, dstMustBeDir: bool) returns (status: Status)
      requires Valid()
      ensures status == RenameCheck(tree, remote, olddir, newdir, oldname, newname, srcMustBeDir, dstMustBeDir)
    {
      if !(olddir in tree.dirs && newdir in tree.dirs) {
        return ErrBadState;
      }
      if IsDotName(oldname) || IsDotName(newname) {
        return ErrBadState;
      }
      var found := Lookup(tree, olddir, oldname);
      if found.None? {
        return ErrNotFound;
      }
      var olddn := found.value;
      if olddn !in tree.dirs && (srcMustBeDir || dstMustBeDir) {
        return ErrNotDir;
      }
      if olddn in tree.dirs {
        var meets := WalkMeets(newdir, olddn);
        if meets {
          return ErrInvalidArgs;
        }
      }
      var target := Lookup(tree, newdir, newname);
      if target.Some? {
        var tdn := target.value;
        if tree.vnode[olddn] == tree.vnode[tdn] {
          return ErrInvalidArgs;
        }
        if (olddn in tree.dirs) != (tdn in tree.dirs) {
          return ErrInvalidArgs;
        }
        return CanUnlink(tree, remote, tdn);
      }
      return Ok;
    }

    /** The modification half of VnodeDir::Rename, from the allocation of
        the new dnode on. */
    method RenameApply(olddir: nat, newdir: nat, oldname: string, newname: string)
      requires Valid() && RenameShape(tree, olddir, newdir, oldname, newname)
      modifies this
      ensures Valid() && remote == old(remote) && seqcount == old(seqcount)
      ensures tree == Renamed(old(tree), olddir, newdir, oldname, newname)
    {
      ghost var t0 := tree;
      var olddn := tree.children[olddir][oldname];
      var newdn := tree.next;
      PreparedOk(tree, olddir, newdir, oldname, newname);
      tree := Prepared(tree, olddir, newdir, oldname, newname);
      ghost var t2 := tree;
      var vn := tree.vnode[olddn];
      var wasDir := olddn in tree.dirs;
      MoveChildren(olddn, newdn);
      MovedOk(t2, olddn, newdn);
      tree := Deleted(tree, olddn);
      assert tree == Transferred(t2, olddn, newdn, newdir);
      AttachedOk(tree, newdn, vn, wasDir);
      tree := Attached(tree, newdn, vn, wasDir);
      tree := ChildAdded(tree, newdir, newdn);
      RenamedOk(t0, olddir, newdir, oldname, newname);
    }

    /** VnodeDir::Rename: the checks, then the allocation of the new dnode
        (ERR_NO_MEMORY when it fails), then the changes, none of which
        fails. */
    method Rename(olddir: nat, newdir: nat, oldname: string, newname: string,
                  srcMustBeDir: bool, dstMustBeDir: bool, allocOk: bool) returns (status: Status)
      requires Valid()
      modifies this
      ensures Valid() && remote == old(remote) && seqcount == old(seqcount)
      ensures var c := RenameCheck(old(tree), remote, olddir, newdir, oldname, newname, srcMustBeDir, dstMustBeDir);
        status == (if c != Ok then c else if allocOk then Ok else ErrNoMemory)
      ensures status != Ok ==> tree == old(tree)
      ensures status == Ok ==>
        RenameShape(old(tree), olddir, newdir, oldname, newname) &&
        tree == Renamed(old(tree), olddir, newdir, oldname, newname)
    {
      status := RenameChecks(olddir, newdir, oldname, newname, srcMustBeDir, dstMustBeDir);
      if status != Ok {
        return;
      }
      if !allocOk {
        return ErrNoMemory;
      }
      RenameCheckShape(tree, remote, olddir, newdir, oldname, newname, srcMustBeDir, dstMustBeDir);
      RenameApply(olddir, newdir, oldname, newname);
    }

    /** The naming half of _memfs_add_link: the given name unless taken, or
        the first free automatic name, the counter advancing once per try. */
    method PickName(dir: nat, name: Option<string>) returns (nm: Option<string>)
      requires Valid() && dir in tree.vnode
      modifies this
      ensures tree == old(tree) && remote == old(remote)
      ensures nm == ChosenName(tree.children[dir].Keys, name, SeqOf(old(seqcount), tree.vnode[dir]))
      ensures name.Some? ==> seqcount == old(seqcount)
      ensures name.None? ==> seqcount == old(seqcount)[tree.vnode[dir] :=
        CounterAfter(tree.children[dir].Keys, SeqOf(old(seqcount), tree.vnode[dir]))]
    {
      if name.Some? {
        if name.value in tree.children[dir] {
          return None;
        }
        return name;
      }
      var v := tree.vnode[dir];
      var c;
      nm, c := AutoName(tree.children[dir].Keys, SeqOf(seqcount, v));
      seqcount := seqcount[v := c];
    }

    /** _memfs_add_link: link vnode `vn` into `dir` under `name`, or under
        an automatic three-digit name; a taken name is ERR_ALREADY_EXISTS
        and a failed dnode allocation ERR_NO_MEMORY. */
    method AddLink(dir: nat, name: Option<string>, vn: nat, isDir: bool, allocOk: bool) returns (status: Status)
      requires Valid() && dir in tree.vnode
      modifies this
      ensures Valid() && remote == old(remote)
      ensures var nm := ChosenName(old(tree).children[dir].Keys, name, SeqOf(old(seqcount), old(tree).vnode[dir]));
        (nm.None? ==> status == ErrAlreadyExists && tree == old(tree)) &&
        (nm.Some? && !allocOk ==> status == ErrNoMemory && tree == old(tree)) &&
        (nm.Some? && allocOk ==> status == Ok && tree == LinkAdded(old(tree), dir, nm.value, vn, isDir))
    {
      var nm := PickName(dir, name);
      if nm.None? {
        return ErrAlreadyExists;
      }
      if !allocOk {
        return ErrNoMemory;
      }
      LinkAddedOk(tree, dir, nm.value, vn, isDir);
      tree := LinkAdded(tree, dir, nm.value, vn, isDir);
      status := Ok;
    }
  }
}
