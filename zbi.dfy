/** The host tool that builds Zircon boot images (ZBI): the group filter and
    manifest reader that choose input files, the prefix option, the sizes
    and BOOTFS directory layout of the items it writes, and the checks it
    makes on an imported image and on a finished one. The constants are
    those of the ZBI format. */
module Zbi {
  import opened ZxStatus
  import opened Arith
  import opened Text

  /** Items are padded to this alignment. */
  const ZBI_ALIGNMENT: nat := 8
  /** Size of an item header. */
  const ITEM_HEADER_SIZE: nat := 32
  const BOOTFS_PAGE_SIZE: nat := 4096
  const BOOTFS_HEADER_SIZE: nat := 16
  /** Fixed part of a BOOTFS directory entry (name length, data length, data offset). */
  const BOOTFS_DIRENT_FIXED: nat := 12

  const TYPE_CONTAINER: nat := 0x544f_4f42
  const CONTAINER_MAGIC: nat := 0x868c_f7e6
  const ITEM_MAGIC: nat := 0xb578_1729
  const TYPE_STORAGE_BOOTFS: nat := 0x4253_4642
  const TYPE_DISCARD: nat := 0x5049_4b53
  const TYPE_KERNEL_PREFIX: nat := 0x004e_524b
  const TYPE_KERNEL_MASK: nat := 0x0100_0000

  /** Whether an item type is one of the kernel types (low 24 bits "KRN"). */
  predicate IsKernelType(t: nat)
  {
    t % TYPE_KERNEL_MASK == TYPE_KERNEL_PREFIX
  }

  /** The tool either goes on with a value or stops with a message. */
  datatype Fallible<T> = Done(value: T) | Fatal(reason: string)

  // ---------------------------------------------------------------------
  // Group filter

  /** The names in a comma-separated group list. */
  function GroupNames(groups: string): set<string>
  {
    set k | 0 <= k < |Split(groups, ',')| :: Split(groups, ',')[k]
  }

  class GroupFilter {
    /** None allows every group. */
    var groups: Option<set<string>>

    constructor ()
      ensures groups.None?
    {
      groups := None;
    }

    /** SetFilter: "all", or the pieces of a comma-separated list. */
    method SetFilter(arg: string)
      modifies this
      ensures groups == if arg == "all" then None else Some(GroupNames(arg))
    {
      if arg == "all" {
        groups := None;
        return;
      }
      var names: set<string> := {};
      var rest := arg;
      while IndexOf(rest, ',').Some?
        invariant names + GroupNames(rest) == GroupNames(arg)
        decreases |rest|
      {
        var i := IndexOf(rest, ',').value;
        names := names + {rest[..i]};
        assert GroupNames(rest) == {rest[..i]} + GroupNames(rest[i + 1..]) by {
          SplitFirst(rest, i);
        }
        rest := rest[i + 1..];
      }
      assert Split(rest, ',') == [rest];
      assert GroupNames(rest) == {rest} by {
        assert Split(rest, ',')[0] == rest;
        forall x | x in GroupNames(rest) ensures x == rest {
          var k :| 0 <= k < |Split(rest, ',')| && Split(rest, ',')[k] == x;
        }
      }
      names := names + {rest};
      groups := Some(names);
    }

    predicate Allows(group: string)
      reads this
    {
      groups.None? || group in groups.value
    }
  }

  lemma SplitFirst(s: string, i: nat)
    requires IndexOf(s, ',') == Some(i)
    ensures GroupNames(s) == {s[..i]} + GroupNames(s[i + 1..])
  {
    var parts := Split(s, ',');
    var tail := Split(s[i + 1..], ',');
    assert parts == [s[..i]] + tail;
    forall x | x in GroupNames(s)
      ensures x in {s[..i]} + GroupNames(s[i + 1..])
    {
      var k :| 0 <= k < |parts| && parts[k] == x;
      if k > 0 {
        assert tail[k - 1] == x;
      }
    }
    forall x | x in GroupNames(s[i + 1..])
      ensures x in GroupNames(s)
    {
      var k :| 0 <= k < |tail| && tail[k] == x;
      assert parts[k + 1] == x;
    }
    assert parts[0] == s[..i];
  }

  /** A filter written as a comma-separated list of names allows exactly
      those names. */
  lemma FilterListsNames(names: seq<string>)
    requires names != [] && forall k :: 0 <= k < |names| ==> ',' !in names[k]
    ensures GroupNames(Join(names, ',')) == set k | 0 <= k < |names| :: names[k]
  {
    SplitJoin(names, ',');
  }

  // ---------------------------------------------------------------------
  // Manifest entries

  /** AllowEntry as the source writes it, for a line whose '=' is at `eq`:
      where the `target=source` part begins, None when the filter rejects
      the entry. The group name is taken from the '{' onwards. */
  function AllowEntryAsWritten(filter: Option<set<string>>, line: string, eq: nat): Fallible<Option<nat>>
    requires eq < |line| && line[eq] == '='
  {
    if line[0] != '{' then Done(if filter.None? then Some(0) else None)
    else match IndexOf(line[1..eq + 1], '}')
      case None => Fatal("manifest entry has '{' but no '}'")
      case Some(j) =>
        var group := line[..j + 1];
        Done(if filter.None? || group in filter.value then Some(j + 2) else None)
  }

  /** With a filter naming just `name`, the entry `{name}=source` is
      rejected: the name looked up is `{name`, brace included. */
  lemma GroupedEntryRejectedAsWritten(name: string, source: string)
    requires '}' !in name
    ensures var line := "{" + name + "}=" + source;
      AllowEntryAsWritten(Some({name}), line, |name| + 2) == Done(None)
  {
    var line := "{" + name + "}=" + source;
    GroupedLine(name, source);
    assert |line[..|name| + 1]| != |name|;
  }

  /** The corrected AllowEntry admits the same entry, and its target
      starts right after the '}'. */
  lemma GroupedEntryAllowed(name: string, source: string)
    requires '}' !in name
    ensures var line := "{" + name + "}=" + source;
      AllowEntry(Some({name}), line, |name| + 2) == Done(Some(|name| + 2))
  {
    GroupedLine(name, source);
  }

  /** In `{name}=source` the '}' closing the group is found right after
      the name. */
  lemma GroupedLine(name: string, source: string)
    requires '}' !in name
    ensures var line := "{" + name + "}=" + source;
      |name| + 2 < |line| && line[0] == '{' && line[|name| + 2] == '=' &&
      IndexOf(line[1..|name| + 3], '}') == Some(|name|) && line[1..|name| + 1] == name
  {
    var line := "{" + name + "}=" + source;
    assert line[1..|name| + 3] == name + ['}'] + "=";
    IndexOfPrefix(name, "=", '}');
    assert line[1..|name| + 1] == name;
  }

  /** AllowEntry: an entry without a group is allowed only when the filter
      allows everything; `{name}` is looked up by the name between the
      braces. */
  function AllowEntry(filter: Option<set<string>>, line: string, eq: nat): (r: Fallible<Option<nat>>)
    requires eq < |line| && line[eq] == '='
    ensures r.Done? && r.value.Some? ==> r.value.value <= eq
  {
    if line[0] != '{' then Done(if filter.None? then Some(0) else None)
    else match IndexOf(line[1..eq + 1], '}')
      case None => Fatal("manifest entry has '{' but no '}'")
      case Some(j) =>
        var group := line[1..j + 1];
        Done(if filter.None? || group in filter.value then Some(j + 2) else None)
  }

  /** What AllowEntry decides, in terms of the braces of the line. */
  lemma AllowEntryMeans(filter: Option<set<string>>, line: string, eq: nat)
    requires eq < |line| && line[eq] == '='
    ensures var r := AllowEntry(filter, line, eq);
      r.Fatal? <==> line[0] == '{' && '}' !in line[1..eq + 1]
    ensures line[0] != '{' ==> AllowEntry(filter, line, eq) == Done(if filter.None? then Some(0) else None)
    ensures var r := AllowEntry(filter, line, eq);
      line[0] == '{' && r.Done? && r.value.Some? ==>
      var j := r.value.value - 1;
      1 <= j && line[j] == '}' && '}' !in line[1..j] &&
      (filter.None? || line[1..j] in filter.value)
    ensures var r := AllowEntry(filter, line, eq);
      line[0] == '{' && r.Done? && r.value.None? ==>
      filter.Some? && exists j :: 1 <= j <= eq && line[j] == '}' && '}' !in line[1..j] && line[1..j] !in filter.value
  {
    if line[0] == '{' {
      var w := line[1..eq + 1];
      match IndexOf(w, '}')
      case None =>
      case Some(j) =>
        assert w[j] == line[j + 1];
        assert w[..j] == line[1..j + 1];
    }
  }

  /** One manifest entry: where it goes in the image and where it comes from. */
  datatype Entry = Entry(target: string, source: string)

  /** One line of a manifest (without its newline): what ParseLineMeans
      states. */
  function ParseLine(filter: Option<set<string>>, prefix: string, line: string): Fallible<Option<Entry>>
  {
    match IndexOf(line, '=')
    case None => Fatal("manifest entry has no '=' separator")
    case Some(eq) =>
      match AllowEntry(filter, line, eq)
      case Fatal(m) => Fatal(m)
      case Done(None) => Done(None)
      case Done(Some(start)) => Done(Some(Entry(prefix + line[start..eq], line[eq + 1..])))
  }

  /** A manifest line without '=' is fatal; an allowed entry names the text
      before '=' (after any group) as target, under `prefix`, and the text
      after it as source. */
  lemma ParseLineMeans(filter: Option<set<string>>, prefix: string, line: string)
    ensures '=' !in line ==> ParseLine(filter, prefix, line).Fatal?
    ensures var r := ParseLine(filter, prefix, line);
      r.Done? && r.value.Some? ==>
      var eq := IndexOf(line, '=').value;
      var t := r.value.value.target;
      |prefix| <= |t| && t[..|prefix|] == prefix &&
      |t| - |prefix| <= eq && t[|prefix|..] == line[eq - (|t| - |prefix|)..eq] &&
      r.value.value.source == line[eq + 1..]
    ensures filter.None? && '=' in line && line != [] && line[0] != '{' ==>
      ParseLine(filter, prefix, line) ==
        Done(Some(Entry(prefix + line[..IndexOf(line, '=').value], line[IndexOf(line, '=').value + 1..])))
  {
  }

  /** Where the line starting at `pos` ends, counted from `pos`: the first
      '\n' at or after `pos`, None when the text has none (memchr). */
  function LineEnd(text: string, pos: nat): (r: Option<nat>)
    requires pos <= |text|
    ensures r.Some? ==> pos + r.value < |text| && text[pos + r.value] == '\n'
    decreases |text| - pos
  {
    if pos == |text| then None
    else if text[pos] == '\n' then Some(0)
    else match LineEnd(text, pos + 1)
      case None => None
      case Some(e) => Some(e + 1)
  }

  /** What Next returns from manifest position `pos` on, and the position
      after it: the first allowed entry, None at the end of the text, or the
      first fatal line; a last line without '\n' is fatal. Lines the group
      filter drops are skipped. */
  function NextSpec(filter: Option<set<string>>, prefix: string, text: string, pos: nat)
    : (Fallible<Option<Entry>>, nat)
    requires pos <= |text|
    decreases |text| - pos
  {
    if pos == |text| then (Done(None), pos)
    else match LineEnd(text, pos)
      case None => (Fatal("manifest file does not end with newline"), pos)
      case Some(e) =>
        match ParseLine(filter, prefix, text[pos..pos + e])
        case Done(None) => NextSpec(filter, prefix, text, pos + e + 1)
        case parsed => (parsed, pos + e + 1)
  }

  class ManifestReader {
    const text: string
    var pos: nat

    constructor (text: string)
      ensures this.text == text && pos == 0
    {
      this.text := text;
      pos := 0;
    }

    /** ManifestInputFileGenerator::Next. */
    method Next(filter: GroupFilter, prefix: string) returns (r: Fallible<Option<Entry>>)
      requires pos <= |text|
      modifies this
      ensures pos <= |text|
      ensures (r, pos) == NextSpec(filter.groups, prefix, text, old(pos))
    {
      while pos != |text|
        invariant pos <= |text|
        invariant NextSpec(filter.groups, prefix, text, pos) == NextSpec(filter.groups, prefix, text, old(pos))
        decreases |text| - pos
      {
        var eol := LineEnd(text, pos);
        if eol.None? {
          return Fatal("manifest file does not end with newline");
        }
        var line := text[pos..pos + eol.value];
        pos := pos + eol.value + 1;
        var parsed := ParseLine(filter.groups, prefix, line);
        if parsed.Fatal? || parsed.value.Some? {
          return parsed;
        }
      }
      return Done(None);
    }
  }

  // ---------------------------------------------------------------------
  // The --prefix option

  function StripLeadingSlashes(s: string): (r: string)
    ensures r == [] || r[0] != '/'
    ensures |r| <= |s| && r == s[|s| - |r|..]
    ensures forall k :: 0 <= k < |s| - |r| ==> s[k] == '/'
  {
    if s != [] && s[0] == '/' then StripLeadingSlashes(s[1..]) else s
  }

  /** The prefix option as the source writes it: leading slashes go, one
      trailing slash goes, and a non-empty result gets one slash added. */
  function NormalizePrefixAsWritten(arg: string): Fallible<string>
  {
    var p := StripLeadingSlashes(arg);
    var q := if p != [] && p[|p| - 1] == '/' then p[..|p| - 1] else p;
    if q == [] && arg != [] then Fatal("--prefix cannot be /")
    else Done(if q == [] then q else q + "/")
  }

  /** `a//` keeps both of its trailing slashes. */
  lemma PrefixKeepsDoubleSlashAsWritten()
    ensures NormalizePrefixAsWritten("a//") == Done("a//")
  {
    assert StripLeadingSlashes("a//") == "a//";
    assert "a//"[..2] == "a/";
    assert "a/" + "/" == "a//";
  }

  /** The prefix option with every trailing slash removed before one is
      added back: a non-empty prefix has no leading slash and exactly one
      trailing slash; only a non-empty option made of slashes alone is
      refused, and an empty option stays empty. */
  method NormalizePrefix(arg: string) returns (r: Fallible<string>)
    ensures r.Fatal? <==> arg != [] && forall k :: 0 <= k < |arg| ==> arg[k] == '/'
    ensures arg == [] ==> r == Done([])
    ensures r.Done? && r.value != [] ==>
      r.value[0] != '/' && r.value[|r.value| - 1] == '/' &&
      |r.value| >= 2 && r.value[|r.value| - 2] != '/'
    ensures r.Done? && r.value != [] ==>
      exists i, j :: 0 <= i < j <= |arg| && r.value == arg[i..j] + "/" &&
        (forall k :: 0 <= k < i ==> arg[k] == '/') && (forall k :: j <= k < |arg| ==> arg[k] == '/')
  {
    var i := 0;
    while i < |arg| && arg[i] == '/'
      invariant i <= |arg| && forall k :: 0 <= k < i ==> arg[k] == '/'
    {
      i := i + 1;
    }
    var j := |arg|;
    while j > i && arg[j - 1] == '/'
      invariant i <= j <= |arg| && forall k :: j <= k < |arg| ==> arg[k] == '/'
    {
      j := j - 1;
    }
    if i == j {
      if arg != [] {
        return Fatal("--prefix cannot be /");
      }
      return Done([]);
    }
    return Done(arg[i..j] + "/");
  }

  // ---------------------------------------------------------------------
  // Items

  /** Item::TotalSize: header plus payload padded to the ZBI alignment. */
  function TotalSize(payloadLength: nat): (n: nat)
    ensures n % ZBI_ALIGNMENT == 0
    ensures ITEM_HEADER_SIZE + payloadLength <= n < ITEM_HEADER_SIZE + payloadLength + ZBI_ALIGNMENT
  {
    ITEM_HEADER_SIZE + RoundUp(payloadLength, ZBI_ALIGNMENT)
  }

  datatype Header = Header(itemType: nat, length: nat, extra: nat, magic: nat)

  /** ImportFile's checks on the first header of a file: Done(false) when
      the file is not a ZBI container, fatal when it is one but its length
      disagrees with the file size or is misaligned. */
  function ImportCheck(fileSize: nat, h: Header): (r: Fallible<bool>)
    ensures r == Done(true) <==>
      fileSize > 2 * ITEM_HEADER_SIZE && h.itemType == TYPE_CONTAINER && h.extra == CONTAINER_MAGIC &&
      h.magic == ITEM_MAGIC && h.length == fileSize - ITEM_HEADER_SIZE && h.length % ZBI_ALIGNMENT == 0
    ensures r == Done(false) <==>
      fileSize <= 2 * ITEM_HEADER_SIZE ||
      !(h.itemType == TYPE_CONTAINER && h.extra == CONTAINER_MAGIC && h.magic == ITEM_MAGIC)
  {
    if fileSize <= 2 * ITEM_HEADER_SIZE then Done(false)
    else if !(h.itemType == TYPE_CONTAINER && h.extra == CONTAINER_MAGIC && h.magic == ITEM_MAGIC) then Done(false)
    else if fileSize - ITEM_HEADER_SIZE != h.length then Fatal("header size doesn't match file size")
    else if h.length % ZBI_ALIGNMENT != 0 then Fatal("ZBI item misaligned")
    else Done(true)
  }

  /** ImportFile's walk over the items of an accepted container: the first
      item follows the container header and each next one follows the
      previous one's TotalSize, until the end of the file is reached.
      `payloadLengthAt(p)` is the payload length in the item header at `p`. */
  method ItemPositions(fileSize: nat, payloadLengthAt: nat -> nat) returns (positions: seq<nat>)
    ensures |positions| >= 1 && positions[0] == ITEM_HEADER_SIZE
    ensures forall k :: 0 <= k < |positions| - 1 ==> positions[k] < fileSize
    ensures forall k :: 0 <= k < |positions| - 1 ==>
      positions[k + 1] == positions[k] + TotalSize(payloadLengthAt(positions[k]))
    ensures forall k :: 0 <= k < |positions| ==> positions[k] % ZBI_ALIGNMENT == 0
    ensures positions[|positions| - 1] + TotalSize(payloadLengthAt(positions[|positions| - 1])) >= fileSize
  {
    var pos: nat := ITEM_HEADER_SIZE;
    positions := [pos];
    while pos + TotalSize(payloadLengthAt(pos)) < fileSize
      invariant Walk(positions, fileSize, payloadLengthAt) && positions[|positions| - 1] == pos
      decreases fileSize - pos
    {
      ExtendWalk(positions, fileSize, payloadLengthAt);
      pos := pos + TotalSize(payloadLengthAt(pos));
      positions := positions + [pos];
    }
  }

  /** The item positions visited so far: starting after the container
      header, each inside the file and followed by the next at its
      TotalSize, all aligned. */
  ghost predicate Walk(positions: seq<nat>, fileSize: nat, payloadLengthAt: nat -> nat)
  {
    |positions| >= 1 && positions[0] == ITEM_HEADER_SIZE &&
    (forall k :: 0 <= k < |positions| - 1 ==> positions[k] < fileSize) &&
    (forall k :: 0 <= k < |positions| - 1 ==>
      positions[k + 1] == positions[k] + TotalSize(payloadLengthAt(positions[k]))) &&
    (forall k :: 0 <= k < |positions| ==> positions[k] % ZBI_ALIGNMENT == 0)
  }

  /** Stepping past an item that ends before the end of the file extends
      the walk. */
  lemma ExtendWalk(positions: seq<nat>, fileSize: nat, payloadLengthAt: nat -> nat)
    requires Walk(positions, fileSize, payloadLengthAt)
    requires var pos := positions[|positions| - 1]; pos + TotalSize(payloadLengthAt(pos)) < fileSize
    ensures var pos := positions[|positions| - 1];
      Walk(positions + [pos + TotalSize(payloadLengthAt(pos))], fileSize, payloadLengthAt)
  {
    var n := |positions|;
    var pos := positions[n - 1];
    var next := positions + [pos + TotalSize(payloadLengthAt(pos))];
    forall k | 0 <= k < n
      ensures next[k] < fileSize && next[k + 1] == next[k] + TotalSize(payloadLengthAt(next[k]))
    {
      assert next[k] == positions[k];
      if k + 1 < n {
        assert next[k + 1] == positions[k + 1];
      }
    }
    forall k | 0 <= k < n + 1
      ensures next[k] % ZBI_ALIGNMENT == 0
    {
      if k < n {
        assert next[k] == positions[k];
      }
    }
  }

  /** Number of BOOTFS items in a list of item types. */
  function CountBootfs(types: seq<nat>): nat
  {
    if types == [] then 0
    else (if types[0] == TYPE_STORAGE_BOOTFS then 1 else 0) + CountBootfs(types[1..])
  }

  /** IncompleteImage: None when the image can boot, else the reason. */
  function IncompleteImage(types: seq<nat>, arch: nat): (r: Option<string>)
    requires types != []
    ensures r.None? <==>
      IsKernelType(types[0]) && (types[0] == arch || arch == TYPE_DISCARD) && CountBootfs(types) == 1
    ensures !IsKernelType(types[0]) ==> r == Some("first item not KERNEL")
  {
    if !IsKernelType(types[0]) then Some("first item not KERNEL")
    else if types[0] != arch && arch != TYPE_DISCARD then Some("kernel arch mismatch")
    else if CountBootfs(types) == 0 then Some("no /boot BOOTFS item")
    else if CountBootfs(types) > 1 then Some("multiple BOOTFS items")
    else None
  }

  // ---------------------------------------------------------------------
  // BOOTFS layout

  /** An input file: its target name and its exact size. */
  datatype BootFile = BootFile(name: string, dataLength: nat)

  /** A directory entry as written: name length with its NUL, exact data
      length, and the offset of the data in the BOOTFS image. */
  datatype Dirent = Dirent(nameLength: nat, dataLength: nat, dataOffset: nat)

  datatype Bootfs = Bootfs(headerSize: nat, dirents: seq<Dirent>, length: nat)

  function PageAlign(n: nat): (r: nat)
    ensures r % BOOTFS_PAGE_SIZE == 0 && n <= r < n + BOOTFS_PAGE_SIZE
  {
    RoundUp(n, BOOTFS_PAGE_SIZE)
  }

  /** ZBI_BOOTFS_DIRENT_SIZE: a directory entry padded to 4 bytes. */
  function DirentSize(nameLength: nat): (r: nat)
    ensures r % 4 == 0 && BOOTFS_DIRENT_FIXED + nameLength <= r
  {
    RoundUp(BOOTFS_DIRENT_FIXED + nameLength, 4)
  }

  function DirSize(files: seq<BootFile>): nat
  {
    if files == [] then 0 else DirSize(files[..|files| - 1]) + DirentSize(|files[|files| - 1].name| + 1)
  }

  /** Page-rounded size of the data of the first files. */
  function BodySize(files: seq<BootFile>): (n: nat)
    ensures n % BOOTFS_PAGE_SIZE == 0
  {
    if files == [] then 0 else
      var n := BodySize(files[..|files| - 1]) + PageAlign(files[|files| - 1].dataLength);
      assert n % BOOTFS_PAGE_SIZE == 0 by {
        var a := BodySize(files[..|files| - 1]);
        var b := PageAlign(files[|files| - 1].dataLength);
        DivModUnique(n, BOOTFS_PAGE_SIZE, a / BOOTFS_PAGE_SIZE + b / BOOTFS_PAGE_SIZE, 0);
      }
      n
  }

  lemma BodySizeMono(files: seq<BootFile>, i: nat)
    requires i <= |files|
    ensures BodySize(files[..i]) <= BodySize(files)
    decreases |files| - i
  {
    if i < |files| {
      BodySizeMono(files, i + 1);
      assert files[..i + 1][..i] == files[..i];
    } else {
      assert files[..i] == files;
    }
  }

  /** CreateBootFS's first pass: directory and body sizes of all files,
      fatal at the first file whose size does not fit 32 bits. */
  method MeasureFiles(files: seq<BootFile>) returns (r: Fallible<(nat, nat)>)
    ensures r.Fatal? <==> exists k :: 0 <= k < |files| && files[k].dataLength > U32_MAX
    ensures r.Done? ==> r.value == (DirSize(files), BodySize(files))
  {
    var dirsize := 0;
    var bodysize := 0;
    var i := 0;
    while i < |files|
      invariant i <= |files| && dirsize == DirSize(files[..i]) && bodysize == BodySize(files[..i])
      invariant forall k :: 0 <= k < i ==> files[k].dataLength <= U32_MAX
    {
      if files[i].dataLength > U32_MAX {
        return Fatal("input file size exceeds format maximum");
      }
      assert files[..i + 1][..i] == files[..i];
      dirsize := dirsize + DirentSize(|files[i].name| + 1);
      bodysize := bodysize + PageAlign(files[i].dataLength);
      i := i + 1;
    }
    assert files[..i] == files;
    return Done((dirsize, bodysize));
  }

  /** CreateBootFS's second pass: one directory entry per file, data
      offsets running on from the end of the header. */
  method PlaceDirents(files: seq<BootFile>, headerSize: nat) returns (dirents: seq<Dirent>, dataOff: nat)
    ensures |dirents| == |files| && dataOff == headerSize + BodySize(files)
    ensures forall k :: 0 <= k < |files| ==>
      dirents[k] == Dirent(|files[k].name| + 1, files[k].dataLength, headerSize + BodySize(files[..k]))
  {
    dirents := [];
    dataOff := headerSize;
    var i := 0;
    while i < |files|
      invariant i <= |files| && |dirents| == i && dataOff == headerSize + BodySize(files[..i])
      invariant DirentsOf(files, headerSize, dirents)
    {
      BodySizeStep(files, i);
      ExtendDirents(files, headerSize, dirents);
      dirents := dirents + [Dirent(|files[i].name| + 1, files[i].dataLength, dataOff)];
      dataOff := dataOff + PageAlign(files[i].dataLength);
      i := i + 1;
    }
    assert files[..i] == files;
  }

  /** The entries of the first |dirents| files, each with its name length,
      data length and the data offset after the bodies before it. */
  ghost predicate DirentsOf(files: seq<BootFile>, headerSize: nat, dirents: seq<Dirent>)
  {
    |dirents| <= |files| &&
    forall k :: 0 <= k < |dirents| ==>
      dirents[k] == Dirent(|files[k].name| + 1, files[k].dataLength, headerSize + BodySize(files[..k]))
  }

  /** The entry of the next file extends the entries. */
  lemma ExtendDirents(files: seq<BootFile>, headerSize: nat, dirents: seq<Dirent>)
    requires DirentsOf(files, headerSize, dirents) && |dirents| < |files|
    ensures var i := |dirents|;
      DirentsOf(files, headerSize, dirents + [Dirent(|files[i].name| + 1, files[i].dataLength,
                                                     headerSize + BodySize(files[..i]))])
  {
    var i := |dirents|;
    var next := dirents + [Dirent(|files[i].name| + 1, files[i].dataLength, headerSize + BodySize(files[..i]))];
    forall k | 0 <= k < i + 1
      ensures next[k] == Dirent(|files[k].name| + 1, files[k].dataLength, headerSize + BodySize(files[..k]))
    {
      if k < i {
        assert next[k] == dirents[k];
      }
    }
  }

  /** The body of the first `i + 1` files is that of the first `i` and the
      page-rounded data of file `i`. */
  lemma BodySizeStep(files: seq<BootFile>, i: nat)
    requires i < |files|
    ensures BodySize(files[..i + 1]) == BodySize(files[..i]) + PageAlign(files[i].dataLength)
  {
    assert files[..i + 1][..i] == files[..i];
  }

  /** Data offsets computed from a page-aligned header are page aligned and
      each file's page-rounded data ends where the next file's begins. */
  lemma OffsetsChain(files: seq<BootFile>, headerSize: nat, k: nat)
    requires headerSize % BOOTFS_PAGE_SIZE == 0 && k < |files|
    ensures (headerSize + BodySize(files[..k])) % BOOTFS_PAGE_SIZE == 0
    ensures headerSize + BodySize(files[..k]) + PageAlign(files[k].dataLength) ==
      headerSize + BodySize(files[..k + 1])
  {
    var b := BodySize(files[..k]);
    DivModUnique(headerSize + b, BOOTFS_PAGE_SIZE, headerSize / BOOTFS_PAGE_SIZE + b / BOOTFS_PAGE_SIZE, 0);
    assert files[..k + 1][..k] == files[..k];
  }

  /** The image holds one entry per file, with the file's name length and
      data length, its data placed after the header and the page-rounded
      data of the files before it. */
  ghost predicate EntriesFor(files: seq<BootFile>, b: Bootfs)
  {
    |b.dirents| == |files| &&
    forall k :: 0 <= k < |files| ==> b.dirents[k] == DirentFor(files, b.headerSize, k)
  }

  /** The entry of file `k` after a header of `h` bytes. */
  ghost function DirentFor(files: seq<BootFile>, h: nat, k: nat): Dirent
    requires k < |files|
  {
    Dirent(|files[k].name| + 1, files[k].dataLength, h + BodySize(files[..k]))
  }

  /** Every data offset is page aligned and each file's page-rounded data
      ends where the next file's data begins, the last at the image's end. */
  ghost predicate PagesChained(files: seq<BootFile>, b: Bootfs)
    requires |b.dirents| == |files|
  {
    (forall k :: 0 <= k < |files| ==> b.dirents[k].dataOffset % BOOTFS_PAGE_SIZE == 0) &&
    (forall k :: 0 <= k < |files| - 1 ==>
      b.dirents[k].dataOffset + PageAlign(files[k].dataLength) == b.dirents[k + 1].dataOffset) &&
    (|files| > 0 ==>
      b.dirents[|files| - 1].dataOffset + PageAlign(files[|files| - 1].dataLength) == b.length)
  }

  lemma DirentsChain(files: seq<BootFile>, b: Bootfs)
    requires b.headerSize % BOOTFS_PAGE_SIZE == 0
    requires b.length == b.headerSize + BodySize(files)
    requires EntriesFor(files, b)
    ensures PagesChained(files, b)
  {
    var h := b.headerSize;
    forall k | 0 <= k < |files|
      ensures b.dirents[k].dataOffset % BOOTFS_PAGE_SIZE == 0
    {
      assert b.dirents[k] == DirentFor(files, h, k);
      DirentChainsAt(files, h, k);
    }
    forall k | 0 <= k < |files| - 1
      ensures b.dirents[k].dataOffset + PageAlign(files[k].dataLength) == b.dirents[k + 1].dataOffset
    {
      assert b.dirents[k] == DirentFor(files, h, k);
      assert b.dirents[k + 1] == DirentFor(files, h, k + 1);
      DirentChainsAt(files, h, k);
    }
    if |files| > 0 {
      var k := |files| - 1;
      assert b.dirents[k] == DirentFor(files, h, k);
      DirentChainsAt(files, h, k);
    }
  }

  /** The offsets of DirentsChain at entry `k`, for a page-aligned header
      of `h` bytes. */
  lemma DirentChainsAt(files: seq<BootFile>, h: nat, k: nat)
    requires h % BOOTFS_PAGE_SIZE == 0 && k < |files|
    ensures (h + BodySize(files[..k])) % BOOTFS_PAGE_SIZE == 0
    ensures k + 1 < |files| ==>
      h + BodySize(files[..k]) + PageAlign(files[k].dataLength) == h + BodySize(files[..k + 1])
    ensures k + 1 == |files| ==> h + BodySize(files[..k]) + PageAlign(files[k].dataLength) == h + BodySize(files)
  {
    OffsetsChain(files, h, k);
    if k + 1 == |files| {
      assert files[..k + 1] == files;
    }
  }

  /** CreateBootFS's layout: the header and directory take whole pages, and
      each file's data starts on a page boundary right after the previous
      file's page-rounded data; the data of the last file ends exactly at
      the length of the item. Sizes must fit the format's 32-bit fields. */
  method BootfsLayout(files: seq<BootFile>) returns (r: Fallible<Bootfs>)
    ensures r.Fatal? <==>
      (exists k :: 0 <= k < |files| && files[k].dataLength > U32_MAX) ||
      PageAlign(BOOTFS_HEADER_SIZE + DirSize(files)) + BodySize(files) > U32_MAX
    ensures r.Done? ==>
      var b := r.value;
      b.headerSize == PageAlign(BOOTFS_HEADER_SIZE + DirSize(files)) &&
      b.length == b.headerSize + BodySize(files) &&
      EntriesFor(files, b) && PagesChained(files, b)
  {
    var sizes := MeasureFiles(files);
    if sizes.Fatal? {
      return Fatal(sizes.reason);
    }
    var headerSize := PageAlign(BOOTFS_HEADER_SIZE + sizes.value.0);
    if headerSize + sizes.value.1 > U32_MAX {
      return Fatal("BOOTFS image size exceeds format maximum");
    }
    var dirents, dataOff := PlaceDirents(files, headerSize);
    var b := Bootfs(headerSize, dirents, dataOff);
    assert EntriesFor(files, b);
    DirentsChain(files, b);
    return Done(b);
  }
}
