/** The partition selection of the installer: reading directory entry
    names into a fixed buffer, finding GPT entries by type GUID, checking
    their size, and choosing the EFI and system partitions to install
    onto. */
module InstallFuchsia {
  import opened ZxStatus
  import Text

  /** Smallest acceptable system partition: 4 GiB. */
  const MIN_SIZE_SYSTEM_PART: nat := 4 * 1024 * 1024 * 1024
  /** Smallest acceptable EFI partition: 1 GiB. */
  const MIN_SIZE_EFI_PART: nat := 1024 * 1024 * 1024

  /** uint64_t arithmetic wraps modulo 2^64. */
  const U64_MODULUS: int := U64_MAX + 1

  // ---------------------------------------------------------------------
  // Directory entry names
  // ---------------------------------------------------------------------

  /** get_next_file_path: with no further entry the result is -1; when
      the name and its terminator do not fit in `maxNameLen` bytes, the
      result is the number of bytes missing and the buffer is untouched;
      otherwise the name is copied with its terminator and the result is
      0. The entry is what readdir returned (None at the end). */
  method GetNextFilePath(entry: Option<seq<char>>, maxNameLen: nat, nameOut: array<char>) returns (r: int)
    requires entry.Some? ==> Text.NUL !in entry.value
    requires maxNameLen <= nameOut.Length
    modifies nameOut
    ensures entry.None? ==> r == -1
    ensures entry.Some? ==> r >= 0 && (r > 0 <==> |entry.value| + 1 > maxNameLen)
    ensures r > 0 ==> r == |entry.value| + 1 - maxNameLen
    ensures r != 0 ==> nameOut[..] == old(nameOut[..])
    ensures r == 0 ==>
      && nameOut[..|entry.value| + 1] == entry.value + [Text.NUL]
      && nameOut[|entry.value| + 1..] == old(nameOut[|entry.value| + 1..])
      && Text.CString(nameOut[..]) == entry.value
  {
    if entry.None? {
      return -1;
    }
    var name := entry.value;
    var overrun := |name| - maxNameLen + 1;
    if overrun > 0 {
      return overrun;
    }
    var i := 0;
    while i < |name| + 1
      invariant i <= |name| + 1
      invariant forall k :: 0 <= k < i ==> nameOut[k] == (name + [Text.NUL])[k]
      invariant forall k :: i <= k < nameOut.Length ==> nameOut[k] == old(nameOut[k])
    {
      nameOut[i] := if i < |name| then name[i] else Text.NUL;
      i := i + 1;
    }
    assert nameOut[..] == name + [Text.NUL] + nameOut[|name| + 1..];
    Text.CStringOfTerminated(name, nameOut[|name| + 1..]);
    r := 0;
  }

  // ---------------------------------------------------------------------
  // GPT entries
  // ---------------------------------------------------------------------

  /** A 16-byte GUID. */
  type Guid = seq<bv8>

  /** One GPT partition entry: type GUID, unique GUID, and its first and
      last block (uint64). */
  datatype GptPartition = GptPartition(typeGuid: Guid, guid: Guid, first: nat, last: nat)

  /** The partition table as the installer sees it: an array of entry
      pointers, empty (NULL) where no entry is in use. */
  type Table = seq<Option<GptPartition>>

  /** Entry i is looked at by a search of the first n entries: it lies
      below n, and no entry up to it is empty (the search stops at the
      first empty one). */
  predicate Reached(table: Table, n: nat, i: nat)
  {
    ReachedFrom(table, 0, n, i)
  }

  /** The same for a search that begins at entry `start`. */
  predicate ReachedFrom(table: Table, start: nat, n: nat, i: nat)
  {
    start <= i < n && i < |table| && forall j :: start <= j <= i ==> table[j].Some?
  }

  /** find_partition_entries: the index of the first reached entry of the
      given type, or NOT_FOUND when no reached entry has it. */
  method FindPartitionEntries(table: Table, guid: Guid, tableSize: nat) returns (status: Status, partId: nat)
    requires tableSize <= |table|
    ensures status == Ok || status == ErrNotFound
    ensures status == Ok ==>
      && Reached(table, tableSize, partId) && table[partId].value.typeGuid == guid
      && forall j :: 0 <= j < partId ==> table[j].value.typeGuid != guid
    ensures status == ErrNotFound ==>
      forall j: nat :: Reached(table, tableSize, j) ==> table[j].value.typeGuid != guid
  {
    var idx := 0;
    while idx < tableSize && table[idx].Some?
      invariant idx <= tableSize
      invariant forall j :: 0 <= j < idx ==> table[j].Some? && table[j].value.typeGuid != guid
    {
      if table[idx].value.typeGuid == guid {
        return Ok, idx;
      }
      idx := idx + 1;
    }
    return ErrNotFound, 0;
  }

  /** The size in bytes check_partition_size computes: block size times
      block count, in wrapping uint64 arithmetic. */
  function PartitionSize(p: GptPartition, blockSize: nat): (size: nat)
    ensures size < U64_MODULUS
  {
    var count := (p.last - p.first + 1) % U64_MODULUS;
    var size := (blockSize * count) % U64_MODULUS;
    size
  }

  /** check_partition_size: the partition holds at least `minSize` bytes. */
  predicate CheckPartitionSize(p: GptPartition, minSize: nat, blockSize: nat)
  {
    PartitionSize(p, blockSize) >= minSize
  }

  /** Without wrap-around, the check is exactly "at least minSize bytes". */
  lemma CheckPartitionSizeMeans(p: GptPartition, minSize: nat, blockSize: nat)
    requires p.first <= p.last && blockSize * (p.last - p.first + 1) < U64_MODULUS
    ensures PartitionSize(p, blockSize) == blockSize * (p.last - p.first + 1)
    ensures CheckPartitionSize(p, minSize, blockSize) <==> blockSize * (p.last - p.first + 1) >= minSize
  {
    var count := p.last - p.first + 1;
    if blockSize > 0 {
      AtMostMultiple(count, blockSize);
      SmallMod(count);
      SmallMod(blockSize * count);
    }
  }

  lemma AtMostMultiple(c: nat, b: nat)
    requires b >= 1
    ensures c <= b * c
  {
  }

  lemma SmallMod(x: nat)
    requires x < U64_MODULUS
    ensures x % U64_MODULUS == x
  {
  }

  /** The wrapping product only ever under-reports: a partition of 2^64
      blocks computes to 0 bytes and is refused, however large it is. */
  lemma CheckPartitionSizeWraps()
    ensures var p := GptPartition([], [], 0, U64_MAX);
      && 2 * (p.last - p.first + 1) >= MIN_SIZE_EFI_PART
      && !CheckPartitionSize(p, MIN_SIZE_EFI_PART, 2)
  {
  }

  /** A partition find_partition accepts: of the type, and big enough. */
  predicate Fits(p: GptPartition, guid: Guid, minSize: nat, blockSize: nat)
  {
    p.typeGuid == guid && CheckPartitionSize(p, minSize, blockSize)
  }

  /** The first fitting entry from index i on, among the entries a search
      of the first n reaches. */
  function FirstFitFrom(table: Table, n: nat, guid: Guid, minSize: nat, blockSize: nat, i: nat): Option<nat>
    decreases |table| - i
  {
    if i >= n || i >= |table| || table[i].None? then None
    else if Fits(table[i].value, guid, minSize, blockSize) then Some(i)
    else FirstFitFrom(table, n, guid, minSize, blockSize, i + 1)
  }

  /** The first fitting entry of the table. */
  function FirstFit(table: Table, n: nat, guid: Guid, minSize: nat, blockSize: nat): Option<nat>
  {
    FirstFitFrom(table, n, guid, minSize, blockSize, 0)
  }

  /** FirstFitFrom finds the first fitting entry at or after i up to the
      first empty entry, and only that. */
  lemma {:induction false} FirstFitFromIsFirst(table: Table, n: nat, guid: Guid, minSize: nat, blockSize: nat, i: nat)
    ensures FirstFitFrom(table, n, guid, minSize, blockSize, i).Some? ==>
      var r := FirstFitFrom(table, n, guid, minSize, blockSize, i).value;
      && i <= r < n && r < |table|
      && (forall j :: i <= j <= r ==> table[j].Some?)
      && Fits(table[r].value, guid, minSize, blockSize)
      && forall j :: i <= j < r ==> !Fits(table[j].value, guid, minSize, blockSize)
    ensures FirstFitFrom(table, n, guid, minSize, blockSize, i).None? ==>
      forall j :: i <= j < n && j < |table| && (forall k :: i <= k <= j ==> table[k].Some?) ==>
        !Fits(table[j].value, guid, minSize, blockSize)
    decreases |table| - i
  {
    if i >= n || i >= |table| || table[i].None? {
    } else if Fits(table[i].value, guid, minSize, blockSize) {
    } else {
      FirstFitFromIsFirst(table, n, guid, minSize, blockSize, i + 1);
    }
  }

  /** FirstFit is the first reached entry that fits; None means no
      reached entry fits. */
  lemma FirstFitIsFirst(table: Table, n: nat, guid: Guid, minSize: nat, blockSize: nat)
    ensures FirstFit(table, n, guid, minSize, blockSize).Some? ==>
      var r := FirstFit(table, n, guid, minSize, blockSize).value;
      && Reached(table, n, r) && Fits(table[r].value, guid, minSize, blockSize)
      && forall j :: 0 <= j < r ==> !Fits(table[j].value, guid, minSize, blockSize)
    ensures FirstFit(table, n, guid, minSize, blockSize).None? ==>
      forall j: nat :: Reached(table, n, j) ==> !Fits(table[j].value, guid, minSize, blockSize)
  {
    FirstFitFromIsFirst(table, n, guid, minSize, blockSize, 0);
  }

  /** Entries of another type (or too small) in front of i change nothing
      about the first fit. */
  lemma {:induction false} FirstFitSkip(table: Table, n: nat, guid: Guid, minSize: nat, blockSize: nat,
                                        i: nat, k: nat)
    requires i + k <= n && i + k <= |table|
    requires forall j :: i <= j < i + k ==> table[j].Some? && !Fits(table[j].value, guid, minSize, blockSize)
    ensures FirstFitFrom(table, n, guid, minSize, blockSize, i) == FirstFitFrom(table, n, guid, minSize, blockSize, i + k)
    decreases k
  {
    if k > 0 {
      FirstFitSkip(table, n, guid, minSize, blockSize, i + 1, k - 1);
    }
  }

  /** When a search from i finds nothing of the type, nothing fits from
      i on. */
  lemma {:induction false} FirstFitNone(table: Table, n: nat, guid: Guid, minSize: nat, blockSize: nat, i: nat)
    requires i <= n <= |table|
    requires forall j: nat :: ReachedFrom(table, i, n, j) ==> table[j].value.typeGuid != guid
    ensures FirstFitFrom(table, n, guid, minSize, blockSize, i) == None
    decreases |table| - i
  {
    if i < n && table[i].Some? {
      assert ReachedFrom(table, i, n, i);
      forall j: nat | ReachedFrom(table, i + 1, n, j)
        ensures table[j].value.typeGuid != guid
      {
        assert ReachedFrom(table, i, n, j);
      }
      FirstFitNone(table, n, guid, minSize, blockSize, i + 1);
    }
  }

  /** find_partition: search for an entry of the type; one that is too
      small is passed over and the search resumes after it. The index
      returned is into the whole table. */
  method FindPartition(table: Table, guid: Guid, minSize: nat, blockSize: nat, tableSize: nat)
    returns (status: Status, partIndex: nat)
    requires tableSize <= |table|
    ensures status == Ok <==> FirstFit(table, tableSize, guid, minSize, blockSize).Some?
    ensures status != Ok ==> status == ErrNotFound
    ensures status == Ok ==> partIndex == FirstFit(table, tableSize, guid, minSize, blockSize).value
  {
    var partOffset := 0;
    while true
      invariant partOffset <= tableSize
      invariant FirstFitFrom(table, tableSize, guid, minSize, blockSize, partOffset)
             == FirstFit(table, tableSize, guid, minSize, blockSize)
      decreases tableSize - partOffset
    {
      var rc, k := FindPartitionEntries(table[partOffset..], guid, tableSize - partOffset);
      if rc != Ok {
        forall j: nat | ReachedFrom(table, partOffset, tableSize, j)
          ensures table[j].value.typeGuid != guid
        {
          var slice := table[partOffset..];
          forall m | 0 <= m <= j - partOffset
            ensures slice[m].Some?
          {
            assert slice[m] == table[partOffset + m];
          }
          assert Reached(slice, tableSize - partOffset, j - partOffset);
          assert slice[j - partOffset] == table[j];
        }
        FirstFitNone(table, tableSize, guid, minSize, blockSize, partOffset);
        return ErrNotFound, 0;
      }
      assert forall j :: partOffset <= j < partOffset + k ==>
        table[j].Some? && table[j].value.typeGuid != guid by {
        forall j | partOffset <= j < partOffset + k
          ensures table[j].Some? && table[j].value.typeGuid != guid
        {
          assert table[partOffset..][j - partOffset] == table[j];
        }
      }
      FirstFitSkip(table, tableSize, guid, minSize, blockSize, partOffset, k);
      var partition := table[partOffset + k].value;
      if CheckPartitionSize(partition, minSize, blockSize) {
        return Ok, partOffset + k;
      }
      partOffset := partOffset + k + 1;
    }
  }

  // ---------------------------------------------------------------------
  // The EFI partition to install onto
  // ---------------------------------------------------------------------

  /** One round of partition_for_install's EFI search, started at entry
      `partId`: no EFI partition at all; one at absolute index `index`
      that is accepted; or one at the start of the searched range, which
      is passed over and the search restarted at `partId`. */
  datatype EfiRound = NoEfi | Accepted(index: nat) | Restart(partId: nat)

  /** A round as written: the index find_partition reports is relative
      to the entry the search began at, but it is compared with 0 as if
      it were absolute, and the next round starts at that relative index
      plus one. */
  function EfiRoundAsWritten(table: Table, efiType: Guid, blockSize: nat, partId: nat): EfiRound
    requires partId <= |table|
  {
    match FirstFit(table[partId..], |table| - partId, efiType, MIN_SIZE_EFI_PART, blockSize)
    case None => NoEfi
    case Some(k) => if k > 0 then Accepted(partId + k) else Restart(k + 1)
  }

  /** With usable EFI partitions at entries 0 and 1, the second round
      starts where it began, so the search as written never ends. */
  lemma EfiSearchLoopsAsWritten(table: Table, efiType: Guid, blockSize: nat)
    requires |table| >= 2 && table[0].Some? && table[1].Some?
    requires Fits(table[0].value, efiType, MIN_SIZE_EFI_PART, blockSize)
    requires Fits(table[1].value, efiType, MIN_SIZE_EFI_PART, blockSize)
    ensures EfiRoundAsWritten(table, efiType, blockSize, 0) == Restart(1)
    ensures EfiRoundAsWritten(table, efiType, blockSize, 1) == Restart(1)
  {
    assert table[1..][0] == table[1];
  }

  /** The EFI partition the installer means to use: the first usable one
      that is not entry 0, which is taken to be the device's own. */
  function InstallEfi(table: Table, efiType: Guid, blockSize: nat): Option<nat>
  {
    match FirstFit(table, |table|, efiType, MIN_SIZE_EFI_PART, blockSize)
    case None => None
    case Some(i) =>
      if i > 0 then Some(i)
      else match FirstFit(table[1..], |table| - 1, efiType, MIN_SIZE_EFI_PART, blockSize)
        case None => None
        case Some(k) => Some(k + 1)
  }

  /** InstallEfi never picks entry 0 and picks a usable EFI partition. */
  lemma InstallEfiNotFirst(table: Table, efiType: Guid, blockSize: nat)
    ensures InstallEfi(table, efiType, blockSize).Some? ==>
      var i := InstallEfi(table, efiType, blockSize).value;
      && 0 < i < |table| && table[i].Some?
      && Fits(table[i].value, efiType, MIN_SIZE_EFI_PART, blockSize)
  {
    var n := |table|;
    FirstFitIsFirst(table, n, efiType, MIN_SIZE_EFI_PART, blockSize);
    if |table| > 0 {
      FirstFitIsFirst(table[1..], n - 1, efiType, MIN_SIZE_EFI_PART, blockSize);
      match FirstFit(table[1..], n - 1, efiType, MIN_SIZE_EFI_PART, blockSize)
      case None =>
      case Some(k) =>
        assert table[1..][k] == table[k + 1];
    }
  }

  /** Whenever the search as written accepts in its first round, it
      picks the intended partition. */
  lemma EfiFirstRoundAgrees(table: Table, efiType: Guid, blockSize: nat)
    requires EfiRoundAsWritten(table, efiType, blockSize, 0).Accepted?
    ensures InstallEfi(table, efiType, blockSize) == Some(EfiRoundAsWritten(table, efiType, blockSize, 0).index)
  {
    assert table[0..] == table;
  }

  /** partition_for_install's EFI search with the index made absolute: a
      usable EFI partition at entry 0 is passed over and the search
      resumes after it. */
  method FindInstallEfi(table: Table, efiType: Guid, blockSize: nat) returns (status: Status, partId: nat)
    ensures status == Ok <==> InstallEfi(table, efiType, blockSize).Some?
    ensures status != Ok ==> status == ErrNotFound
    ensures status == Ok ==> partId == InstallEfi(table, efiType, blockSize).value
  {
    var start := 0;
    while true
      invariant start <= 1 && start <= |table|
      invariant start == 1 ==> FirstFit(table, |table|, efiType, MIN_SIZE_EFI_PART, blockSize) == Some(0)
      decreases |table| - start
    {
      var rc, k := FindPartition(table[start..], efiType, MIN_SIZE_EFI_PART, blockSize, |table| - start);
      if rc != Ok {
        assert start == 0 ==> table[start..] == table;
        return ErrNotFound, 0;
      }
      if start + k > 0 {
        assert start == 0 ==> table[start..] == table;
        return Ok, start + k;
      }
      assert table[start..] == table;
      start := start + k + 1;
    }
  }

  /** The partitions partition_for_install chooses, with the EFI search
      made absolute: the EFI partition when asked for, and the first
      usable system partition of the whole table when asked for. */
  method SelectForInstall(table: Table, efiType: Guid, systemType: Guid, blockSize: nat,
                          wantEfi: bool, wantSystem: bool)
    returns (efi: Option<nat>, system: Option<nat>)
    ensures efi.Some? ==>
      && wantEfi && 0 < efi.value < |table| && table[efi.value].Some?
      && Fits(table[efi.value].value, efiType, MIN_SIZE_EFI_PART, blockSize)
    ensures efi == (if wantEfi then InstallEfi(table, efiType, blockSize) else None)
    ensures system.Some? ==>
      && wantSystem && Reached(table, |table|, system.value)
      && Fits(table[system.value].value, systemType, MIN_SIZE_SYSTEM_PART, blockSize)
    ensures system == (if wantSystem then FirstFit(table, |table|, systemType, MIN_SIZE_SYSTEM_PART, blockSize) else None)
  {
    InstallEfiNotFirst(table, efiType, blockSize);
    FirstFitIsFirst(table, |table|, systemType, MIN_SIZE_SYSTEM_PART, blockSize);
    efi, system := None, None;
    if wantEfi {
      var rc, id := FindInstallEfi(table, efiType, blockSize);
      if rc == Ok {
        efi := Some(id);
      }
    }
    if wantSystem {
      var rc, id := FindPartition(table, systemType, MIN_SIZE_SYSTEM_PART, blockSize, |table|);
      if rc == Ok {
        system := Some(id);
      }
    }
  }

  /** The directory holding the block devices. */
  const PATH_BLOCKDEVS: string := "/dev/class/block"

  /** The full device path of a found partition: the block device
      directory, a slash and the device name, provided it fits with its
      terminator in `maxPathLen` bytes; otherwise the name is left as it
      is (None). */
  function InstallPath(name: string, maxPathLen: nat): (path: Option<string>)
    ensures path.Some? <==> |name| + |PATH_BLOCKDEVS| + 2 <= maxPathLen
    ensures path.Some? ==>
      && |PATH_BLOCKDEVS| < |path.value| < maxPathLen
      && path.value[..|PATH_BLOCKDEVS|] == PATH_BLOCKDEVS
      && path.value[|PATH_BLOCKDEVS|] == '/'
      && path.value[|PATH_BLOCKDEVS| + 1..] == name
  {
    if |name| + |PATH_BLOCKDEVS| + 2 > maxPathLen then None
    else Some(PATH_BLOCKDEVS + "/" + name)
  }
}
