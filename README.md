# A verified model of core logic from an early Zircon tree

This project is a Dafny model of the rule-heavy core of the Zircon kernel,
its drivers and its host tools. It covers the parts whose behaviour can be
stated as a sequential state update, or as a pure function with explicit
error returns. Each source file of the core becomes one Dafny module:

- `Fvm` (system/dev/block/fvm/fvm.cpp): the FVM slice manager.
  - The allocation table and the per-partition slice maps.
  - Wrap-around free-slice search, all-or-nothing allocation with rollback, and freeing.
  - The extend/shrink argument checks.
  - Splitting a transfer across slices, and merging the pieces' completions (first error wins).
- `Zxcrypt` (system/dev/block/zxcrypt/device.cpp): the zxcrypt block device.
  - Request admission.
  - The wrap-around reservation of block windows.
  - The count of tasks in flight, which keeps the device alive.
  - The FIFO of deferred requests.
- `TraceEngine` (system/ulib/trace-engine/context.cpp): trace buffer accounting.
  - Buffer partition sizes, bump allocation with full marks, and rolling-buffer switching.
  - Index allocation and the string cache.
  - Record sizes.
- `Zbi` (system/host/zbi/zbi.cpp) and `Mkbootfs` (system/host/mkbootfs/mkbootfs.c): the boot image builders.
  - Manifests and group filters.
  - Item sizes, BOOTFS layout, and image checks.
- `FidlFlat` (system/host/fidl/lib/flat_ast.cpp): FIDL type shapes, scopes and resolution checks.
- `Minfs` (system/uapp/minfs/minfs-ops.cpp): minfs directory records, block mapping, and read and truncate lengths.
- `Memfs` (system/core/devmgr/vfs-memory.cpp): memfs files, VMO windows and the dnode tree.
- `Pci` (system/ulib/hypervisor/pci.cpp) and `Vcpu` (system/ulib/hypervisor/vcpu.c): the hypervisor's emulated PCI bus and legacy I/O devices.
- `VmExit` (kernel/arch/x86/hypervisor/vmexit.cpp): VM-exit decoders, the local APIC bitmap, XSETBV, the XSAVE size, and I/O exits.
- `Mmu` (kernel/arch/x86/mmu.cpp): x86 address checks, page-table flag translation, the mapping cursor, and last-level map, unmap and protect loops.
- `DpDisplay` (system/dev/display/intel-i915/dp-display.cpp): DisplayPort AUX messages, link-training adjustment, and the M/N ratio.
- `Xhci` (system/dev/usb/xhci/xhci-device-manager.c): xHCI route strings, endpoint intervals, the device command queue, and endpoint and slot state.
- `UsbVideo` (system/dev/video/usb-video/usb-video-stream.cpp): the USB Video Class request pool, streaming state and frame reassembly.
- `AmlRawNand` (system/dev/block/rawnand/aml-rawnand.c) and `AmlSdEmmc` (system/dev/block/aml-sd-emmc/aml-sd-emmc.c): the Amlogic NAND and SD/eMMC controllers.
- `PerfMon` (kernel/arch/x86/perf_mon.cpp) and `IntelPm` (system/dev/misc/cpu-trace/intel-pm.c): the kernel and driver halves of Intel performance monitoring.
- `InstallFuchsia` (system/uapp/install-fuchsia/install-fuchsia.c): the installer's partition selection.
- `Runtests` (system/uapp/runtests/runtests.cpp): the test runner's argument and path handling.

Four shared modules support the rest:

- `ZxStatus`: status codes, `Option` and `Result`.
- `Text`: character search, split and join.
- `Arith`: division and alignment facts.
- `Bits`: byte-wise access to 32-bit registers.

Things the source changes in place are modelled in place:

- Objects whose fields the source updates are classes whose methods modify those fields.
- Buffers are arrays.
- Loops are `while` loops with invariants.
- Each method is specified by functions of the old state and its inputs, and the properties the source promises are proved about those functions.

Hardware registers are bit-vectors of their C widths. I/O, hardware replies and calls into code outside these files are parameters.

## Model

| member | source | states |
|---|---|---|
| AmlRawNand.EccPageSize | system/dev/block/rawnand/aml-rawnand.c:47-63 | BCH8 ECC pages are 512 bytes, BCH8 1K pages 1024, and every other mode has no page size |
| AmlRawNand.DecodeExtId | system/dev/block/rawnand/aml-rawnand.c:668-682 | the extended ID byte always describes a page of 1, 2, 4 or 8 KiB, 8 or 16 spare bytes per 512-byte chunk of page, an erase block of 64 to 512 KiB and the bus width bit |
| AmlRawNand.ExtIdFields | system/dev/block/rawnand/aml-rawnand.c:668-682 | the page, spare, block and bus-width codes are exactly the bits of the ID byte that the decoding reads |
| AmlRawNand.EncodeFields | system/dev/block/rawnand/aml-rawnand.c:668-682 | codes packed into an ID byte are read back unchanged |
| AmlRawNand.ExtIdRoundTrip | system/dev/block/rawnand/aml-rawnand.c:668-682 | decoding an ID byte and encoding the geometry again recovers every bit the decoding reads |
| AmlRawNand.GeometryRoundTrip | system/dev/block/rawnand/aml-rawnand.c:668-682 | every geometry an ID byte can describe is the decoding of its own encoding |
| AmlRawNand.FfsPow2 | system/dev/block/rawnand/aml-rawnand.c:715 | ffs of 2^k is k + 1 |
| AmlRawNand.EraseBlockPages | system/dev/block/rawnand/aml-rawnand.c:712-713 | every decodable erase block is a whole number of pages, at least 8 |
| AmlRawNand.PageShift | system/dev/block/rawnand/aml-rawnand.c:715 | the page shift computed with ffs is the base-2 logarithm of the page size |
| AmlRawNand.BlockPages | system/dev/block/rawnand/aml-rawnand.c:712-713 | the pages per erase block times the page size is the erase block size, and there are at least 8 |
| AmlRawNand.PageShiftOf | system/dev/block/rawnand/aml-rawnand.c:715 | the page shift is the exponent of the page size |
| AmlRawNand.ClockRegister | system/dev/block/rawnand/aml-rawnand.c:373-402 | the clock register word always has the AXG always-on bit and the enable bit set |
| AmlRawNand.ClockRegisterDistinct | system/dev/block/rawnand/aml-rawnand.c:383-395 | the four known clock rates give four different register words |
| AmlRawNand.ClockRegisterDefault | system/dev/block/rawnand/aml-rawnand.c:396-398 | any other rate gets the 200 MHz word |
| AmlRawNand.TimingClockRate | system/dev/block/rawnand/aml-rawnand.c:417-433 | the clock is 250 MHz for a read access time up to 16 ns, 112 MHz above 30 ns, and 200 MHz otherwise, including when the chip gives none |
| AmlRawNand.TimingClockMonotone | system/dev/block/rawnand/aml-rawnand.c:427-432 | a slower chip never gets a faster clock |
| AmlRawNand.PackUnpack | system/dev/block/rawnand/aml-rawnand.c:216-217 | the two bytes packed into an info word are read back as they were packed |
| AmlRawNand.OobOf | system/dev/block/rawnand/aml-rawnand.c:212-218 | reading the out-of-band bytes yields two bytes per ECC page |
| AmlRawNand.WithOob | system/dev/block/rawnand/aml-rawnand.c:236-240 | writing the out-of-band bytes keeps the number of info records |
| AmlRawNand.OobRoundTrip | system/dev/block/rawnand/aml-rawnand.c:197-242 | out-of-band bytes written for n ECC pages read back as exactly those 2n bytes |
| AmlRawNand.ScanBlankIff | system/dev/block/rawnand/aml-rawnand.c:254-279 | the corrections scan reports a blank page exactly when some record is uncorrectable, scrambled and has fewer zeroes than the ECC strength |
| AmlRawNand.ScanMaxCorrections | system/dev/block/rawnand/aml-rawnand.c:280-283 | without a blank page, the reported bitflips bound the corrections of every correctable page and are zero or attained by one of them |
| AmlRawNand.ScanBlankStays | system/dev/block/rawnand/aml-rawnand.c:271-276 | once a blank page is found the rest of the records change nothing |
| AmlRawNand.RawNand.constructor | system/dev/block/rawnand/aml-rawnand.c:916-956 | a new controller uses user mode 2, ECC strength 8 and the scrambler, with no geometry and zeroed statistics |
| AmlRawNand.RawNand.GetOobBytes | system/dev/block/rawnand/aml-rawnand.c:197-220 | in user mode 2 the out-of-band bytes are those of every BCH8 ECC page of a page; any other mode is NOT_SUPPORTED |
| AmlRawNand.RawNand.SetOobBytes | system/dev/block/rawnand/aml-rawnand.c:222-242 | in user mode 2 the info records of the first ECC pages take the given bytes and nothing else changes; any other mode is NOT_SUPPORTED with nothing changed |
| AmlRawNand.RawNand.GetEccCorrections | system/dev/block/rawnand/aml-rawnand.c:248-284 | the loop returns the blank-page value when the scan finds one and the largest correctable count otherwise, adding the failed and corrected counts it passed to the statistics |
| AmlRawNand.RawNand.CheckEccPages | system/dev/block/rawnand/aml-rawnand.c:286-302 | the check succeeds exactly when every ECC page completed, and is an I/O error otherwise |
| AmlRawNand.RawNand.EraseBlock | system/dev/block/rawnand/aml-rawnand.c:606-619 | an erase of a page that does not start an erase block is INVALID_ARGS; otherwise chip 0 is selected and the wait's status returned |
| AmlRawNand.RawNand.AdjustTimings | system/dev/block/rawnand/aml-rawnand.c:417-439 | the clock register gets the word of the rate chosen from the read access time |
| AmlRawNand.RawNand.DecodeGeometry | system/dev/block/rawnand/aml-rawnand.c:668-715 | the geometry fields are the ID byte's decoding, with the pages per block and page shift consistent with it |
| AmlRawNand.RawNand.GetFlashType | system/dev/block/rawnand/aml-rawnand.c:621-730 | an unknown chip is UNAVAILABLE with the geometry unchanged; a known one takes its geometry from the fourth ID byte, its size from the table and its clock from the table's timings |
| AmlSdEmmc.WidthField | system/dev/block/aml-sd-emmc/aml-sd-emmc.c:159-171 | the value written for a supported bus width fits in the bus-width field |
| AmlSdEmmc.WidthRoundTrip | system/dev/block/aml-sd-emmc/aml-sd-emmc.c:154-178 | after a supported bus width is written into the config register, reading the field back gives that width |
| AmlSdEmmc.ClampFreq | system/dev/block/aml-sd-emmc/aml-sd-emmc.c:192-198 | a non-zero bus frequency is clamped into the controller's supported range and one already in range is kept; zero stays zero |
| AmlSdEmmc.SourceSelect | system/dev/block/aml-sd-emmc/aml-sd-emmc.c:200-206 | the clock source selector fits in its 2-bit field |
| AmlSdEmmc.HalveUp | system/dev/block/aml-sd-emmc/aml-sd-emmc.c:211-214 | halving a divider rounds up |
| AmlSdEmmc.DividerBounds | system/dev/block/aml-sd-emmc/aml-sd-emmc.c:200-208 | the single-rate divider is the source clock divided by the clamped frequency rounded down, from 1 to 60, so the bus never runs faster than asked |
| AmlSdEmmc.DdrDivider | system/dev/block/aml-sd-emmc/aml-sd-emmc.c:210-215 | in DDR mode the divider is the single-rate divider halved and rounded up, from 1 to 30 |
| AmlSdEmmc.DividerFits | system/dev/block/aml-sd-emmc/aml-sd-emmc.c:217 | the divider always fits in the 6-bit divider field |
| AmlSdEmmc.RequestStatus | system/dev/block/aml-sd-emmc/aml-sd-emmc.c:374-408 | a request succeeds exactly when none of the error bits is set; receive or transmit CRC errors are DATA_INTEGRITY, and every failure is one of DATA_INTEGRITY, IO_INVALID, TIMED_OUT or SHOULD_WAIT |
| AmlSdEmmc.BusyIsLastResort | system/dev/block/aml-sd-emmc/aml-sd-emmc.c:405-408 | SHOULD_WAIT is returned only when the core is busy and no other error bit is set |
| AmlSdEmmc.SdEmmc.constructor | system/dev/block/aml-sd-emmc/aml-sd-emmc.c:442-517 | the controller starts with the given config and clock registers |
| AmlSdEmmc.SdEmmc.SetBusWidth | system/dev/block/aml-sd-emmc/aml-sd-emmc.c:154-178 | a bus width other than 1, 4 or 8 bits is OUT_OF_RANGE with the config unchanged; otherwise the width field reads back as the width and the rest of the config is kept |
| AmlSdEmmc.SdEmmc.SetBusFreq | system/dev/block/aml-sd-emmc/aml-sd-emmc.c:185-222 | the clock register gets the divider for the clamped frequency (halved in DDR mode) and the matching source, with its other bits kept |
| AmlSdEmmc.SdEmmc.SetBusTiming | system/dev/block/aml-sd-emmc/aml-sd-emmc.c:256-285 | HS400 and HS-DDR turn on DDR mode, with data strobe checking for HS400 only, and halve the clock divider rounding up; any other timing turns DDR mode off and keeps the clock |
| AmlSdEmmc.WriteClockFields | system/dev/block/aml-sd-emmc/aml-sd-emmc.c:217-218 | writing the divider and source fields sets exactly those fields and keeps the rest of the clock register |
| AmlSdEmmc.HalveDivider | system/dev/block/aml-sd-emmc/aml-sd-emmc.c:270-277 | the clock divider is halved rounding up and the rest of the clock register is kept |
| DpDisplay.Header | system/dev/display/intel-i915/dp-display.cpp:92-102 | an Aux request header is four bytes |
| DpDisplay.HeaderRoundTrip | system/dev/display/intel-i915/dp-display.cpp:75-104 | for an accepted address and body size, the header decodes back to the low four bits of the command, the 20-bit address and the body size |
| DpDisplay.CommandNibble | system/dev/display/intel-i915/dp-display.cpp:92 | the first header byte's high nibble is the command's low four bits |
| DpDisplay.AddressBytes | system/dev/display/intel-i915/dp-display.cpp:92-94 | an address below 2^20 is recovered from the low nibble of the first byte and the next two bytes |
| DpDisplay.AuxMessage.SetDpAuxHeader | system/dev/display/intel-i915/dp-display.cpp:75-104 | the header is set exactly when the body size is 1..16 and the address fits in 20 bits; then the message is the 4-byte header and the rest of the buffer is untouched, otherwise nothing changes |
| DpDisplay.Retry | system/dev/display/intel-i915/dp-display.cpp:171-243 | the retrying send always consumes at least one attempt |
| DpDisplay.RetryStops | system/dev/display/intel-i915/dp-display.cpp:171-243 | the retrying send stops within the timeout and defer budgets, retries only after timeouts and AUX_DEFERs, succeeds exactly on an AUX_ACK with that reply, and gives up on a timeout or defer only when the third timeout or sixteenth defer arrives |
| DpDisplay.CountsSplit | system/dev/display/intel-i915/dp-display.cpp:185-226 | the timeouts and defers seen over a run of attempts are those of its first attempt plus those of the rest |
| DpDisplay.SendDpAuxMsgWithRetry | system/dev/display/intel-i915/dp-display.cpp:171-243 | the retry loop with its two counters computes exactly the retrying send |
| DpDisplay.ReadChunk | system/dev/display/intel-i915/dp-display.cpp:264-279 | a chunk read with an unacceptable header fails without sending anything, and a successful chunk never returns more bytes than were asked for |
| DpDisplay.Read | system/dev/display/intel-i915/dp-display.cpp:245-262 | a read never moves the channel backwards |
| DpDisplay.Prepend | system/dev/display/intel-i915/dp-display.cpp:258 | putting bytes already read in front of a transfer keeps whether it succeeded and where the channel stands |
| DpDisplay.ReadLength | system/dev/display/intel-i915/dp-display.cpp:245-262 | a successful read returns exactly the number of bytes asked for |
| DpDisplay.ReadBadAddress | system/dev/display/intel-i915/dp-display.cpp:80-84 | a non-empty read at an address of 21 bits or more fails without touching the channel |
| DpDisplay.DpAuxReadChunk | system/dev/display/intel-i915/dp-display.cpp:264-279 | the chunk read method computes the chunk read: the reply's bytes after its header, failing when there are more than asked for |
| DpDisplay.DpAuxRead | system/dev/display/intel-i915/dp-display.cpp:245-262 | the read loop computes the whole read: chunks of at most 16 bytes until done, stopping on a failed or empty chunk |
| DpDisplay.ReadTurn | system/dev/display/intel-i915/dp-display.cpp:247-259 | one turn of the read loop: a failed chunk or one of no bytes ends the whole read with a failure; otherwise the chunk holds at most the bytes still wanted, and the rest of the read continues after it with its bytes appended |
| DpDisplay.ReadStep | system/dev/display/intel-i915/dp-display.cpp:246-260 | one pass of the read loop fails on a failed or empty chunk and otherwise leaves a read of the remaining bytes after those received |
| DpDisplay.PrependTwice | system/dev/display/intel-i915/dp-display.cpp:258 | bytes prepended in two steps equal the same bytes prepended at once |
| DpDisplay.Write | system/dev/display/intel-i915/dp-display.cpp:281-302 | a write succeeds only for an acceptable address and body size and never moves the channel backwards |
| DpDisplay.WriteRequestDecodes | system/dev/display/intel-i915/dp-display.cpp:285-291 | a write request is the header followed by the body, at most 20 bytes, and its header decodes to the command, address and body size |
| DpDisplay.DpAuxWrite | system/dev/display/intel-i915/dp-display.cpp:281-302 | the write method computes the write: it succeeds exactly when the header is accepted, the send succeeds and the reply is one byte |
| DpDisplay.MaxSwing | system/dev/display/intel-i915/dp-display.cpp:371-378 | the requested swing bounds every lane's request |
| DpDisplay.MaxPreEmphasis | system/dev/display/intel-i915/dp-display.cpp:371-378 | the requested pre-emphasis bounds every lane's request |
| DpDisplay.MaximaAttained | system/dev/display/intel-i915/dp-display.cpp:371-378 | the swing and pre-emphasis taken are zero or some lane's request |
| DpDisplay.SwingChangedStep | system/dev/display/intel-i915/dp-display.cpp:394-395 | the voltage-change flag after one more lane is the flag so far or that lane's swing differing from the new one |
| DpDisplay.ClampedSwing | system/dev/display/intel-i915/dp-display.cpp:384-392 | the swing is reduced so that it is at most 2 and swing plus pre-emphasis is at most 3, and is only reduced as far as one of those limits |
| DpDisplay.BufTransLevelInTable | system/dev/display/intel-i915/dp-display.cpp:402-412 | every allowed swing and pre-emphasis pair selects a distinct one of the 9 buffer translation entries |
| DpDisplay.DpcdHandleAdjustRequest | system/dev/display/intel-i915/dp-display.cpp:366-420 | every lane is set to the maximum requested pre-emphasis and the clamped maximum requested swing with the two max-reached flags; it reports a voltage change exactly when some lane's swing differs, and selects that pair's buffer translation entry |
| DpDisplay.CalculateRatio | system/dev/display/intel-i915/dp-display.cpp:644-651 | the ratio's denominator is 2^23 and, for a ratio at most one, the numerator is the ratio times 2^23 rounded down |
| DpDisplay.RatioBounds | system/dev/display/intel-i915/dp-display.cpp:650 | the rounded-down quotient lies within one of the exact ratio and is at most 2^23 when the ratio is at most one |
| FidlFlat.AlignTo | system/host/fidl/lib/flat_ast.cpp:49-54 | the least multiple of the (power-of-two) alignment that is at least the size |
| FidlFlat.AlignToLeast | system/host/fidl/lib/flat_ast.cpp:49-54 | no aligned value at least the size is smaller than AlignTo's |
| FidlFlat.StructShapeAsWritten | system/host/fidl/lib/flat_ast.cpp:56-67 | the layout loop as written: the largest member alignment and the end of the last member, with no tail padding |
| FidlFlat.MemberOffset | system/host/fidl/lib/flat_ast.cpp:62-64 | each member is placed at an offset aligned for it |
| FidlFlat.StructTailNotPaddedAsWritten | system/host/fidl/lib/flat_ast.cpp:56-67 | a uint64 followed by a uint8 gets size 9 with alignment 8, a size that is not a multiple of the alignment |
| FidlFlat.StructShape | system/host/fidl/lib/flat_ast.cpp:56-72 | the corrected struct shape: a power-of-two alignment and a size that is a multiple of it |
| FidlFlat.StructAlignment | system/host/fidl/lib/flat_ast.cpp:56-67 | the struct alignment is the largest member alignment, 1 for an empty struct |
| FidlFlat.MembersInOrder | system/host/fidl/lib/flat_ast.cpp:56-67 | members come in order without overlapping, the last ends at the unpadded size, and all fit in the padded size |
| FidlFlat.SizeGrows | system/host/fidl/lib/flat_ast.cpp:56-67 | adding members never shrinks the unpadded size |
| FidlFlat.MaxSize | system/host/fidl/lib/flat_ast.cpp:78-79 | the largest member size, 0 for no members |
| FidlFlat.MaxAlignment | system/host/fidl/lib/flat_ast.cpp:78-80 | the largest member alignment, 1 for no members |
| FidlFlat.UnionShape | system/host/fidl/lib/flat_ast.cpp:74-83 | every member fits in the union and the size is a multiple of the largest alignment |
| FidlFlat.UnionLeast | system/host/fidl/lib/flat_ast.cpp:74-83 | no smaller aligned size holds every member |
| FidlFlat.FidlUnionShape | system/host/fidl/lib/flat_ast.cpp:85-90 | a FIDL union is a struct of a uint32 tag and the C union, with a power-of-two alignment (corrected: the struct around tag and union is laid out by the corrected StructShape, padded to its alignment) |
| FidlFlat.FidlUnionLayout | system/host/fidl/lib/flat_ast.cpp:85-90 | the tag is at offset 0, the union follows aligned for itself, and the whole is aligned for both (corrected: on the padded StructShape) |
| FidlFlat.CStructTypeShape | system/host/fidl/lib/flat_ast.cpp:56-67 | the loop computes StructShape, the padded layout |
| FidlFlat.CUnionTypeShape | system/host/fidl/lib/flat_ast.cpp:74-83 | the loop computes UnionShape |
| FidlFlat.FidlUnionTypeShape | system/host/fidl/lib/flat_ast.cpp:85-90 | the result is FidlUnionShape (corrected: on the padded StructShape) |
| FidlFlat.ArrayShape | system/host/fidl/lib/flat_ast.cpp:92-94 | count elements back to back, aligned as one element |
| FidlFlat.HeaderShape | system/host/fidl/lib/flat_ast.cpp:96-106 | a vector or string is 16 bytes aligned to 8 whatever its element and bound |
| FidlFlat.Scope.constructor | system/host/fidl/lib/flat_ast.cpp:363-364 | a new scope is empty |
| FidlFlat.Scope.Insert | system/host/fidl/lib/flat_ast.cpp:365-368 | insertion reports true exactly when the element was new, and the element is present afterwards |
| FidlFlat.PrimitiveShape | system/host/fidl/lib/flat_ast.cpp:525-566 | each primitive is its own size in alignment, a power of two |
| FidlFlat.ResolveType | system/host/fidl/lib/flat_ast.cpp:464-614 | an array resolves exactly when its element does and its count is in 1..2^64-1, to ArrayShape; a vector or string exactly when its element and bound are valid, to the 16-byte header; handles and requests are 4 bytes; primitives their own shape |
| FidlFlat.ResolveEnum | system/host/fidl/lib/flat_ast.cpp:328-359 | an enum resolves exactly when its underlying type is an integer primitive, with that primitive's shape |
| FidlFlat.MemberShapes | system/host/fidl/lib/flat_ast.cpp:395-402 | one shape per member, the member type's resolved shape |
| FidlFlat.ResolveParameters | system/host/fidl/lib/flat_ast.cpp:372-388 | a parameter list passes exactly when its names are distinct and every type resolves |
| FidlFlat.ResolveInterface | system/host/fidl/lib/flat_ast.cpp:361-390 | an interface passes exactly when its method names and ordinals are distinct and every request and response list passes |
| FidlFlat.MethodsStep | system/host/fidl/lib/flat_ast.cpp:365-388 | a method with a new name, a new ordinal and valid parameters extends the checked prefix |
| FidlFlat.ResolveMembers | system/host/fidl/lib/flat_ast.cpp:393-402 | the member shapes exactly when names are distinct and every type resolves |
| FidlFlat.ResolveStruct | system/host/fidl/lib/flat_ast.cpp:392-409 | a struct resolves exactly when its members do, to StructShape of their shapes (corrected: StructShape pads the size to the alignment) |
| FidlFlat.ResolveUnion | system/host/fidl/lib/flat_ast.cpp:411-428 | a union resolves exactly when its members do, to FidlUnionShape of their shapes (corrected: on the padded StructShape) |
| FidlFlat.FlattenEnum | system/host/fidl/lib/flat_ast.cpp:126-142 | an enum keeps its name and its subtype, uint32 when none is given |
| FidlFlat.ResolveConsts | system/host/fidl/lib/flat_ast.cpp:431-435 | the loop passes exactly when every constant's type resolves |
| FidlFlat.ResolveEnums | system/host/fidl/lib/flat_ast.cpp:437-441 | the loop passes exactly when every enum resolves |
| FidlFlat.ResolveInterfaces | system/host/fidl/lib/flat_ast.cpp:443-447 | the loop passes exactly when every interface passes |
| FidlFlat.ResolveAggregate | system/host/fidl/lib/flat_ast.cpp:392-428 | one struct or union passes exactly when its members resolve (corrected: on the padded StructShape) |
| FidlFlat.ResolveAggregates | system/host/fidl/lib/flat_ast.cpp:449-459 | the loop passes exactly when every struct (or union) passes |
| FidlFlat.Library.constructor | system/host/fidl/lib/flat_ast.cpp:236-291 | a new library holds no declarations |
| FidlFlat.Library.ConsumeEnums | system/host/fidl/lib/flat_ast.cpp:126-142 | the enums are appended, flattened, in order; nothing else changes |
| FidlFlat.Library.ConsumeInterface | system/host/fidl/lib/flat_ast.cpp:144-197 | nested constants and enums are appended first; the interface is added exactly when every method ordinal parses as a non-zero uint32 |
| FidlFlat.Library.ConsumeStruct | system/host/fidl/lib/flat_ast.cpp:199-220 | nested constants and enums, then the struct, are appended |
| FidlFlat.Library.Resolve | system/host/fidl/lib/flat_ast.cpp:430-462 | the library resolves exactly when every constant, enum, interface, struct and union does |
| Fvm.VPartitionManager.FindFreeSlice | system/dev/block/fvm/fvm.cpp:249-265 | ERR_NO_SPACE exactly when no physical slice is free; otherwise a free slice, the first free one met scanning from the hint (at least 1) up to the last slice and then wrapping round from 1 |
| Fvm.VPartitionManager.Rollback | system/dev/block/fvm/fvm.cpp:293-297 | undoing the mappings made so far gives the partition its old slice map back and frees every physical slice they took |
| Fvm.VPartitionManager.Place | system/dev/block/fvm/fvm.cpp:301-305 | one mapping step: the virtual slice takes the free physical slice, whose entry records the partition and the virtual slice, so the slice map and the slice table change at exactly those two places, the allocation invariant covers one more slice, and exactly that physical slice leaves the free set |
| Fvm.VPartitionManager.MapOne | system/dev/block/fvm/fvm.cpp:286-305 | one turn of the allocation loop: ERR_INVALID_ARGS exactly when the virtual slice was already mapped, ERR_NO_SPACE exactly when no physical slice is free, and either failure rolls back everything; on success one free slice fewer |
| Fvm.VPartitionManager.MapSlices | system/dev/block/fvm/fvm.cpp:286-306 | ERR_INVALID_ARGS when an already mapped virtual slice is reached before the free slices run out, ERR_NO_SPACE when fewer slices are free than asked for, and in both cases nothing changes; otherwise every slice of the range is mapped to a physical slice that was free |
| Fvm.VPartitionManager.AllocateSlices | system/dev/block/fvm/fvm.cpp:273-320 | a range past the virtual slice count is ERR_INVALID_ARGS and a killed partition ERR_BAD_STATE; otherwise the status of the mapping, then of the metadata write; on any failure the slice map and the owners of the physical slices are as before; on success each slice of the range is mapped to a formerly free physical slice now owned by the partition, and no other mapping changes |
| Fvm.VPartitionManager.FreeOne | system/dev/block/fvm/fvm.cpp:350-358 | unmaps one virtual slice, releases its physical slice when it had one, reports whether it had one, and changes nothing else |
| Fvm.VPartitionManager.FreeRange | system/dev/block/fvm/fvm.cpp:350-358 | every slice of the range ends unmapped, each physical slice they held is released, nothing outside the range changes, and the result says whether any was mapped |
| Fvm.VPartitionManager.FreeSlices | system/dev/block/fvm/fvm.cpp:328-373 | a range past the virtual slice count is ERR_INVALID_ARGS, a killed partition ERR_BAD_STATE and a failed device sync its status, all changing nothing; a start of 0 frees every slice; freeing nothing is ERR_INVALID_ARGS, otherwise the status of the metadata write; the partition is killed exactly when everything was freed from slice 0 and something was mapped |
| Fvm.FirstMapped | system/dev/block/fvm/fvm.cpp:286-291 | the first already mapped slice of a range, every slice before it being free |
| Fvm.ExtendRequest | system/dev/block/fvm/fvm.cpp:563-581 | an offset of 0 is ERR_OUT_OF_RANGE, a zero length with a valid offset is a no-op success, and the request is passed on exactly when offset and length are positive and their sum stays below 2^32 - 1 |
| Fvm.ShrinkRequest | system/dev/block/fvm/fvm.cpp:583-600 | an offset of 0 is ERR_OUT_OF_RANGE, a zero length with a valid offset is a no-op success, and the request is passed on exactly when offset and length are positive and their sum stays below the virtual slice count |
| Fvm.AllocRequest | system/dev/block/fvm/fvm.cpp:381-390 | a new partition is allocated from virtual slice 0 exactly when the slice count is positive and below 2^32 - 1; otherwise ERR_OUT_OF_RANGE |
| Fvm.ExtendShrinkBoundaries | system/dev/block/fvm/fvm.cpp:563-600 | the edges of the extend and shrink checks: offset 0 is refused, a zero length is accepted, and a range ending at the limit is refused while one ending just below it is passed on |
| Fvm.TilesTotal | system/dev/block/fvm/fvm.cpp:745-749 | pieces that follow each other from offset 0 up to the length add up to exactly the length, so nothing remains after the loop |
| Fvm.FirstPieceLength | system/dev/block/fvm/fvm.cpp:720-722 | the first piece of a split is never empty and never longer than a slice: it is the rest of the slice the transfer starts in |
| Fvm.AlignedSplitOverrunsSlice | system/dev/block/fvm/fvm.cpp:720-730 | as written, a slice-aligned transfer over two non-contiguous slices gets an empty first piece and a last piece twice a slice long |
| Fvm.ScanSlices | system/dev/block/fvm/fvm.cpp:677-686 | the scan says whether every slice of the range is mapped and, when they are, whether their physical slices follow each other |
| Fvm.PlanTxn | system/dev/block/fvm/fvm.cpp:642-755 | an unaligned offset is ERR_INVALID_ARGS and a length rounding down to zero completes at once; a slice that is unmapped or past the partition's map, or a split over more than 32 slices, is ERR_OUT_OF_RANGE; contiguous slices queue the transfer whole at its physical offset; otherwise the pieces cover the transfer exactly, one per slice, each inside its own physical slice (corrected: the first piece of a split is the corrected FirstPieceLength, the rest of the slice the transfer starts in) |
| Fvm.SplitAcrossSlices | system/dev/block/fvm/fvm.cpp:713-749 | one piece per slice spanned; the pieces follow each other and cover the transfer exactly, and each lies inside the physical slice of its virtual slice |
| Fvm.SplitLoop | system/dev/block/fvm/fvm.cpp:714-748 | the loop builds one piece per slice, covering the transfer, each inside its own slice (corrected: the first piece is the rest of its slice) |
| Fvm.SplitStep | system/dev/block/fvm/fvm.cpp:714-748 | one turn of the loop appends one piece and keeps the pieces chained and inside their slices (corrected: the first piece is the rest of its slice) |
| Fvm.SplitPiece | system/dev/block/fvm/fvm.cpp:718-744 | the first piece runs to the end of its slice, the last takes what remains, each between is a whole slice, and every piece lies inside its slice at the transfer offset reached so far (corrected: the first piece is the rest of its slice) |
| Fvm.ExtendPieces | system/dev/block/fvm/fvm.cpp:745 | appending the next piece keeps the pieces chained one after the other, each inside its own slice |
| Fvm.MiddleOffset | system/dev/block/fvm/fvm.cpp:727-728 | a middle piece's transfer offset, the first piece's length plus whole slices, is where the transfer enters that slice (corrected: the first piece is the rest of its slice) |
| Fvm.MultiTxnState.Complete | system/dev/block/fvm/fvm.cpp:621-640 | each completed piece counts once, the first error is kept, and the original transfer completes with that status exactly when the last piece does |
| Fvm.MergeStatus | system/dev/block/fvm/fvm.cpp:627-629 | a recorded error is never overwritten; with none recorded the piece's status is taken |
| Fvm.FirstError | system/dev/block/fvm/fvm.cpp:627-632 | Ok exactly when every piece succeeded; otherwise the status of the first failing piece |
| Fvm.MergeAllIsFirstError | system/dev/block/fvm/fvm.cpp:621-633 | whatever order the pieces complete in, the original transfer gets the first error of that order, or Ok |
| Fvm.MergeAllKeepsError | system/dev/block/fvm/fvm.cpp:627 | once an error is recorded, no later completion changes it |
| InstallFuchsia.GetNextFilePath | system/uapp/install-fuchsia/install-fuchsia.c:67-85 | -1 at the end of the directory; when the name and its terminator do not fit, the number of bytes missing with the buffer untouched; otherwise 0 with the name copied and terminated, so it reads back as the entry's name |
| InstallFuchsia.FindPartitionEntries | system/uapp/install-fuchsia/install-fuchsia.c:154-173 | the index of the first entry of the type before the first empty slot and within the table size; NOT_FOUND exactly when no such entry has the type |
| InstallFuchsia.PartitionSize | system/uapp/install-fuchsia/install-fuchsia.c:176-198 | the size is block size times block count, reduced modulo 2^64 |
| InstallFuchsia.CheckPartitionSizeMeans | system/uapp/install-fuchsia/install-fuchsia.c:176-198 | when the product does not wrap, the check accepts exactly the partitions of at least the minimum size |
| InstallFuchsia.CheckPartitionSizeWraps | system/uapp/install-fuchsia/install-fuchsia.c:176-198 | a partition spanning 2^64 blocks of 2 bytes computes to 0 bytes and is refused: the wrapping product under-reports |
| InstallFuchsia.FirstFitFromIsFirst | system/uapp/install-fuchsia/install-fuchsia.c:294-347 | the search from i finds the first entry at or after i, before the first empty slot, of the type and large enough, and only that |
| InstallFuchsia.FirstFitIsFirst | system/uapp/install-fuchsia/install-fuchsia.c:294-347 | find_partition's result is the first reached entry that fits; none means no reached entry fits |
| InstallFuchsia.FirstFitSkip | system/uapp/install-fuchsia/install-fuchsia.c:324-340 | passing over an entry that is of another type or too small does not change the first fit |
| InstallFuchsia.FirstFitNone | system/uapp/install-fuchsia/install-fuchsia.c:310-322 | when no reached entry from i on has the type, nothing fits from i on |
| InstallFuchsia.FindPartition | system/uapp/install-fuchsia/install-fuchsia.c:294-347 | OK exactly when some reached entry has the type and the minimum size, and then the index is the first such entry in the whole table; NOT_FOUND otherwise |
| InstallFuchsia.EfiSearchLoopsAsWritten | system/uapp/install-fuchsia/install-fuchsia.c:390-416 | with usable EFI partitions at entries 0 and 1, the index relative to the sub-table restarts the search at entry 1 again and again |
| InstallFuchsia.InstallEfiNotFirst | system/uapp/install-fuchsia/install-fuchsia.c:390-416 | the intended EFI choice is never entry 0, and is an EFI partition of at least 1 GiB |
| InstallFuchsia.EfiFirstRoundAgrees | system/uapp/install-fuchsia/install-fuchsia.c:390-416 | whenever the search as written accepts in its first round, it picks the intended partition |
| InstallFuchsia.FindInstallEfi | system/uapp/install-fuchsia/install-fuchsia.c:390-416 | OK exactly when some usable EFI partition other than entry 0 is reached, and then the index is the first such |
| InstallFuchsia.SelectForInstall | system/uapp/install-fuchsia/install-fuchsia.c:372-429 | the EFI choice when asked for, and the first system partition of at least 4 GiB when asked for (corrected: the EFI choice is the corrected FindInstallEfi, which continues after the absolute index of a skipped match) |
| InstallFuchsia.InstallPath | system/uapp/install-fuchsia/install-fuchsia.c:448-462 | the path is the block device directory, a slash and the name, given only when it fits with its terminator |
| IntelPm.InitOnce | system/dev/misc/cpu-trace/intel-pm.c:106-128 | no leaf 0AH or a version below 4 means no support; otherwise the version is EAX[7:0], the programmable count EAX[15:8] and the fixed count EDX[4:0] |
| IntelPm.KernelSupportImpliesDriver | system/dev/misc/cpu-trace/intel-pm.c:117-128 | whenever the kernel driver supports the PMU, this driver does too, with the same version and counter counts |
| IntelPm.SampleFreq | system/dev/misc/cpu-trace/intel-pm.c:179-213 | each of the eight sampling modes has its period (0 for tally); any other mode value is INVALID_ARGS |
| IntelPm.SampleFreqInjective | system/dev/misc/cpu-trace/intel-pm.c:179-213 | distinct modes give distinct sample frequencies |
| IntelPm.FixedEnable | system/dev/misc/cpu-trace/intel-pm.c:217-222 | the fixed-counter enable field holds the OS ring bit exactly when OS is asked for, and the USR bit exactly when USR is |
| IntelPm.FixedLimit | system/dev/misc/cpu-trace/intel-pm.c:229-231 | fixed_to_config looks at the hardware's fixed counters, but at most 3 |
| IntelPm.FixedCounter0 | system/dev/misc/cpu-trace/intel-pm.c:232-237 | fixed counter 0 is enabled in the global and fixed controls exactly when the hardware has it and it is selected, with the requested rings |
| IntelPm.FixedCounter1 | system/dev/misc/cpu-trace/intel-pm.c:232-237 | the same for fixed counter 1 |
| IntelPm.FixedCounter2 | system/dev/misc/cpu-trace/intel-pm.c:232-237 | the same for fixed counter 2 |
| IntelPm.FixedGlobalOnlyExisting | system/dev/misc/cpu-trace/intel-pm.c:229-237 | only enable bits of fixed counters the hardware has are set in the global control |
| IntelPm.FixedCtrlOnlyExisting | system/dev/misc/cpu-trace/intel-pm.c:229-237 | only fields of fixed counters the hardware has are set in the fixed-counter control |
| IntelPm.EventSelectEnabled | system/dev/misc/cpu-trace/intel-pm.c:248-263 | every programmed event has EN set and INT clear |
| IntelPm.EventSelectRings | system/dev/misc/cpu-trace/intel-pm.c:252-255 | the OS and USR bits are set exactly when those rings are asked for |
| IntelPm.EventSelectWritable | system/dev/misc/cpu-trace/intel-pm.c:248-263 | an in-range event selection only uses bits the kernel lets user space write |
| IntelPm.EventSelectEvent | system/dev/misc/cpu-trace/intel-pm.c:250 | the event code reads back from bits 0-7 |
| IntelPm.EventSelectUmask | system/dev/misc/cpu-trace/intel-pm.c:251 | the unit mask reads back from bits 8-15 |
| IntelPm.EventSelectCmask | system/dev/misc/cpu-trace/intel-pm.c:262 | the counter mask reads back from bits 24-31 |
| IntelPm.EventFlagBits | system/dev/misc/cpu-trace/intel-pm.c:256-261 | edge, any-thread and invert are set exactly when the event's flags ask for them |
| IntelPm.PmcBitsHas | system/dev/misc/cpu-trace/intel-pm.c:246-265 | programmable counter i is enabled in the global control exactly when it is among the first m programmed |
| IntelPm.PmcBitsMonotone | system/dev/misc/cpu-trace/intel-pm.c:246-265 | programming fewer counters sets a subset of the enable bits |
| IntelPm.PmcBitsKernel | system/dev/misc/cpu-trace/intel-pm.c:246-265 | the enable bits of all the hardware's programmable counters are the ones the kernel lets user space set |
| IntelPm.Used | system/dev/misc/cpu-trace/intel-pm.c:246 | the number of counters filled is the category's event count, capped by the hardware's counters |
| IntelPm.ProgrammableEvents | system/dev/misc/cpu-trace/intel-pm.c:246-265 | the first Used events are the category's event selections, the rest stay zero |
| IntelPm.CategoryToConfig | system/dev/misc/cpu-trace/intel-pm.c:242-269 | the loop leaves exactly ProgrammableEvents in the event registers and ORs the first Used enable bits into the global control |
| IntelPm.Converted | system/dev/misc/cpu-trace/intel-pm.c:271-317 | an accepted conversion holds the fixed counters when any is selected, the category's events unless the category is NONE, no debug control and the mode's sample frequency |
| IntelPm.SimpleConfigToCpuConfig | system/dev/misc/cpu-trace/intel-pm.c:271-317 | an unknown mode or a category past the table is INVALID_ARGS; otherwise the result is Converted |
| IntelPm.BuildConfig | system/dev/misc/cpu-trace/intel-pm.c:284-308 | building from zero, fixed counters then the category gives Converted |
| IntelPm.PmcBitsWithin | system/dev/misc/cpu-trace/intel-pm.c:246-265 | the programmable enable bits a conversion sets belong to counters the hardware has |
| IntelPm.GlobalWithin | system/dev/misc/cpu-trace/intel-pm.c:229-265 | every global control a conversion can produce lies inside the enable bits of the hardware's counters |
| IntelPm.EventsWritable | system/dev/misc/cpu-trace/intel-pm.c:246-265 | every event selection a conversion stages uses only writable bits |
| IntelPm.ConvertedGlobalWithin | system/dev/misc/cpu-trace/intel-pm.c:271-317 | the global control of a conversion enables only counters the hardware has |
| IntelPm.ConvertedFixedWithin | system/dev/misc/cpu-trace/intel-pm.c:215-240 | the fixed-counter control of a conversion programs only counters the hardware has |
| IntelPm.ConvertedEventsWritable | system/dev/misc/cpu-trace/intel-pm.c:242-269 | each event selection of a conversion uses only writable bits |
| IntelPm.ConvertedAcceptable | system/dev/misc/cpu-trace/intel-pm.c:271-317 | on hardware both drivers support, a conversion of in-range events passes the kernel's register checks |
| IntelPm.AssignBuffers | system/dev/misc/cpu-trace/intel-pm.c:613-625 | one buffer assignment per cpu in order, each of the whole buffer size |
| IntelPm.StartCalls | system/dev/misc/cpu-trace/intel-pm.c:588-664 | a start that goes through issues init, every buffer assignment, stage config and start, in that order |
| IntelPm.IpmDevice.constructor | system/dev/misc/cpu-trace/intel-pm.c:106-128 | the hardware description is read once at load, and no trace exists |
| IntelPm.IpmDevice.AllocTrace | system/dev/misc/cpu-trace/intel-pm.c:356-413 | refused without support, for an oversized buffer, for a buffer count other than the cpu count, or with a trace present; out of memory leaves no trace; on success the trace holds count buffers of the size |
| IntelPm.IpmDevice.FreeTrace | system/dev/misc/cpu-trace/intel-pm.c:415-430 | freeing an active trace is BAD_STATE; otherwise the trace is gone |
| IntelPm.IpmDevice.GetTraceConfig | system/dev/misc/cpu-trace/intel-pm.c:432-450 | reports the buffer count and size of the trace; BAD_STATE without one |
| IntelPm.IpmDevice.GetBufferInfo | system/dev/misc/cpu-trace/intel-pm.c:452-480 | BAD_STATE without a trace or while it is active; INVALID_ARGS for an index past the buffers |
| IntelPm.IpmDevice.GetBufferHandle | system/dev/misc/cpu-trace/intel-pm.c:482-510 | BAD_STATE without a trace; INVALID_ARGS for a descriptor past the buffers; otherwise the duplication status |
| IntelPm.IpmDevice.StagePerfConfig | system/dev/misc/cpu-trace/intel-pm.c:512-533 | BAD_STATE without a trace or while active; otherwise the configuration is staged as given |
| IntelPm.IpmDevice.StageSimplePerfConfig | system/dev/misc/cpu-trace/intel-pm.c:535-563 | as StagePerfConfig with the converted values; a refused conversion keeps the staged configuration |
| IntelPm.IpmDevice.GetPerfConfig | system/dev/misc/cpu-trace/intel-pm.c:565-586 | returns the staged configuration; BAD_STATE without a trace or a staged configuration |
| IntelPm.IpmDevice.Start | system/dev/misc/cpu-trace/intel-pm.c:588-664 | BAD_STATE without a trace, while active or unconfigured; INVALID_ARGS when no counter is enabled; a full start issues StartCalls and makes the trace active; a kernel refusal rolls back with fini |
| IntelPm.IpmDevice.Launch | system/dev/misc/cpu-trace/intel-pm.c:606-664 | the kernel calls of a start once the guards pass: init first, then the rest, rolled back on refusal |
| IntelPm.IpmDevice.Run | system/dev/misc/cpu-trace/intel-pm.c:612-664 | buffer assignments then stage and start; the first refusal is followed by fini |
| IntelPm.IpmDevice.Commit | system/dev/misc/cpu-trace/intel-pm.c:627-664 | stage then start; a refusal of either is followed by fini; active only when both succeed |
| IntelPm.IpmDevice.AssignAll | system/dev/misc/cpu-trace/intel-pm.c:613-625 | assigns cpus in order and stops at the first refusal, reporting its index |
| IntelPm.IpmDevice.Stop | system/dev/misc/cpu-trace/intel-pm.c:666-684 | BAD_STATE without a trace; the kernel is asked to stop, and only when it does is the trace inactive and fini issued |
| IntelPm.IpmDevice.Release | system/dev/misc/cpu-trace/intel-pm.c:747-752 | stop then free; the trace is gone whenever the kernel stopped it |
| Memfs.Inside | system/core/devmgr/vfs-memory.cpp:145-148 | the bytes of a write that land inside an object never run past its size, and are all that fit from the offset |
| Memfs.Resized | system/core/devmgr/vfs-memory.cpp:138-141 | resizing gives an object of exactly the new size |
| Memfs.ResizedAt | system/core/devmgr/vfs-memory.cpp:306-341 | resizing keeps every byte below both sizes and reads zeros past the old size |
| Memfs.OverwriteAt | system/core/devmgr/vfs-memory.cpp:161-173 | after a write inside the object the written range holds the data and every other byte is unchanged |
| Memfs.WriteInsideAt | system/core/devmgr/vfs-memory.cpp:145-148 | a write lands the bytes that fit, reads back as the written bytes, and leaves the rest of the object unchanged |
| Memfs.PageUp | system/core/devmgr/vfs-memory.cpp:136-141 | a VMO made for a byte count holds the fewest whole pages covering it |
| Memfs.ResizedFile | system/core/devmgr/vfs-memory.cpp:334-338 | setting the VMO of a file whose bytes past the length are zero to the pages of a new length leaves the file's old bytes below both lengths, zeros up to the new length, and zeros past it |
| Memfs.WrittenFile | system/core/devmgr/vfs-memory.cpp:136-159 | a write into a file grown to its new length lands nothing past that length, so the bytes past it stay zero, and the bytes written read back as the data |
| Memfs.PartialPageZeroed | system/core/devmgr/vfs-memory.cpp:317-328 | the zeroing before a shrink into a partial page clears the bytes from the new length to the end of its page or of the file, whichever comes first, and nothing else |
| Memfs.PartialPageWrite | system/core/devmgr/vfs-memory.cpp:324-333 | the zeroing write lies inside the VMO, so it is never short; it keeps the bytes below the new length and leaves zeros from there to the end of the new last page |
| Memfs.VnodeFile.Read | system/core/devmgr/vfs-memory.cpp:100-111 | a read at or past the end, or before the VMO exists, gives nothing; otherwise it gives the VMO's bytes from the offset up to the end of the file's last page, at most the requested count: the file's own bytes first, and zeros for every byte past the length |
| Memfs.VnodeFile.Write | system/core/devmgr/vfs-memory.cpp:126-159 | a failed VMO creation or growth is ERR_NO_MEMORY and changes nothing; otherwise the VMO is created or grown to the pages of the offset plus the data clamped to the maximum file size, the length grows to that end and never shrinks, the bytes that fit are written and read back as the data, and the rest of the file is kept; the VMO stays page-sized with zeros past the length; ERR_FILE_BIG exactly when the offset is at or past the maximum; a successful non-empty write reports at least one byte |
| Memfs.VnodeFile.Truncate | system/core/devmgr/vfs-memory.cpp:306-341 | the length becomes the requested one clamped to the maximum file size and the VMO its pages; on success the file keeps its bytes below both lengths and reads zeros past the old length; shrinking into a partial page first zeroes the rest of that page within the file: a failed zeroing write is ERR_IO and changes nothing, and a failed creation or resize is ERR_NO_MEMORY with the length unchanged and that zeroing already done |
| Memfs.VnodeVmo.Read | system/core/devmgr/vfs-memory.cpp:113-124 | a read past the window's length gives nothing; otherwise it gives the window's bytes from the offset, clipped to the window |
| Memfs.VnodeVmo.Write | system/core/devmgr/vfs-memory.cpp:161-173 | a write that would run past the window is ERR_NOT_SUPPORTED and changes nothing; otherwise all bytes land in the window at its offset and the rest of the VMO is unchanged |
| Memfs.Dec3RoundTrip | system/core/devmgr/vfs-memory.cpp:602 | the "%03u" name of a number below 1000 reads back as that number |
| Memfs.Dec3Injective | system/core/devmgr/vfs-memory.cpp:602 | distinct counter values below 1000 give distinct names |
| Memfs.FirstFreeTry | system/core/devmgr/vfs-memory.cpp:601-609 | the try found is free and every earlier try is taken; no try is found only when all remaining tries are taken |
| Memfs.FirstFreeTryAt | system/core/devmgr/vfs-memory.cpp:601-609 | the search stops at the first free try |
| Memfs.TriesCoverAll | system/core/devmgr/vfs-memory.cpp:601-609 | when all thousand tries from any counter value are taken, every name "000" to "999" is taken, so ERR_ALREADY_EXISTS means the directory has no free three-digit name |
| Memfs.Lookup | system/core/devmgr/vfs-memory.cpp:362 | a name is found exactly when the directory lists it, and in a well-formed tree the dnode found names that directory as parent and that name as its own |
| Memfs.AllocatedOk | system/core/devmgr/vfs-memory.cpp:403 | allocating a dnode gives a number not yet in use and keeps the tree well formed |
| Memfs.DeletedOk | system/core/devmgr/vfs-memory.cpp:302 | deleting a dnode without children keeps the tree well formed, removes exactly that dnode, takes only its own entry out of its directory and leaves every other child list alone |
| Memfs.DeletedFrame | system/core/devmgr/vfs-memory.cpp:412-413 | deleting a dnode leaves every other dnode's parent, name and vnode, and every entry that does not name it, as they were |
| Memfs.MovedOk | system/core/devmgr/vfs-memory.cpp:421-435 | moving the children of a dnode to an empty detached dnode keeps the tree well formed: the new dnode holds exactly the old children, the old one none, and nothing else changes |
| Memfs.MovedFrame | system/core/devmgr/vfs-memory.cpp:421-435 | a move changes only the two child lists and the moved children's parents |
| Memfs.AttachedOk | system/core/devmgr/vfs-memory.cpp:441-442 | attaching a vnode to a dnode keeps the tree well formed |
| Memfs.ChildAddedOk | system/core/devmgr/vfs-memory.cpp:448 | listing a detached dnode under a name its new directory does not hold keeps the tree well formed and makes the name look up that dnode |
| Memfs.ChildAddedLookup | system/core/devmgr/vfs-memory.cpp:448 | listing a dnode in a directory changes no other lookup |
| Memfs.CanUnlink | system/core/devmgr/vfs-memory.cpp:492-501 | unlinking is allowed exactly when the dnode has no children and its vnode is not a mount point; otherwise ERR_BAD_STATE |
| Memfs.RenameCheckOk | system/core/devmgr/vfs-memory.cpp:343-400 | a rename passes its checks exactly when both sides are linked directories, neither name is "." or "..", the source exists, a file is not demanded to be a directory, a directory is not moved below itself, and any existing target is another vnode of the same type that may be unlinked |
| Memfs.RenameCheckShape | system/core/devmgr/vfs-memory.cpp:343-400 | a rename that passes its checks has the shape the modifications rely on |
| Memfs.PreparedOk | system/core/devmgr/vfs-memory.cpp:401-414 | after the new dnode is allocated and any target deleted, the tree is well formed, holds the new detached dnode under the new name, no longer lists the new name in the destination, and still holds the source unchanged |
| Memfs.Transferred | system/core/devmgr/vfs-memory.cpp:421-439 | after the children move and the source dnode is deleted, the tree is well formed, the new dnode holds the source's children and every name that found the source finds nothing |
| Memfs.RenamedOk | system/core/devmgr/vfs-memory.cpp:401-450 | after a rename the new name in the destination looks up a new dnode naming the source's vnode, of the source's type and with the source's children, and the tree stays well formed |
| Memfs.RenamedRemovesOld | system/core/devmgr/vfs-memory.cpp:439 | after a rename the old name is gone from the old directory and the source dnode from the tree |
| Memfs.LinkAddedOk | system/core/devmgr/vfs-memory.cpp:616-620 | adding a link under a free name makes the name look up a new dnode naming the vnode, adds exactly that entry to the directory and keeps the tree well formed |
| Memfs.ChosenName | system/core/devmgr/vfs-memory.cpp:596-615 | the chosen name is never taken; a given name is chosen exactly when it is free; an automatic name is a three-digit name, and none is found only when every three-digit name is taken |
| Memfs.CounterAfter | system/core/devmgr/vfs-memory.cpp:601-602 | the counter advances by at least one and at most a thousand |
| Memfs.AutoName | system/core/devmgr/vfs-memory.cpp:601-609 | the loop returns the first free automatic name and the counter after the tries it made |
| Memfs.Reparented | system/core/devmgr/vfs-memory.cpp:424-435 | every moved child points at the new parent and every other dnode keeps its parent |
| Memfs.ReparentAll | system/core/devmgr/vfs-memory.cpp:424-435 | the loop points exactly the moved children at the new parent |
| Memfs.ReparentStep | system/core/devmgr/vfs-memory.cpp:434 | pointing one more child at the new parent extends the set of moved children by that child |
| Memfs.Namespace.Unlink | system/core/devmgr/vfs-memory.cpp:285-304 | ERR_BAD_STATE from an unlinked directory, ERR_NOT_FOUND for a missing name, ERR_NOT_DIR when a file is demanded to be a directory, otherwise the status of memfs_can_unlink; on success exactly that entry is removed and the name no longer looks up; on failure nothing changes |
| Memfs.Namespace.MoveChildren | system/core/devmgr/vfs-memory.cpp:421-435 | the children of one dnode move to the other and point at it |
| Memfs.Namespace.WalkMeets | system/core/devmgr/vfs-memory.cpp:371-380 | the walk from the destination up to its root meets the source exactly when the destination lies below it |
| Memfs.Namespace.RenameChecks | system/core/devmgr/vfs-memory.cpp:343-400 | the checks return the status the rename rules give, in their order, and change nothing |
| Memfs.Namespace.RenameApply | system/core/devmgr/vfs-memory.cpp:401-450 | the modifications take the tree to the renamed tree and keep it well formed |
| Memfs.Namespace.Rename | system/core/devmgr/vfs-memory.cpp:343-451 | a failed check returns its status, a failed allocation ERR_NO_MEMORY, and neither changes anything; a rename that passes leaves the renamed tree |
| Memfs.Namespace.PickName | system/core/devmgr/vfs-memory.cpp:596-615 | the name picked is the chosen name; the directory's counter moves only when a name is sought, by the number of tries made |
| Memfs.Namespace.AddLink | system/core/devmgr/vfs-memory.cpp:585-623 | a taken name, or no free automatic name, is ERR_ALREADY_EXISTS and a failed allocation ERR_NO_MEMORY, neither changing the tree; otherwise the vnode is linked under the chosen name |
| Minfs.Reclen | system/uapp/minfs/minfs-ops.cpp:378-398 | a record flagged last runs to the end of the largest directory; any other record has its stored length |
| Minfs.ValidateDirent | system/uapp/minfs/minfs-ops.cpp:377-393 | OK exactly when the header was read in full, the record holds a header, stays inside the directory, is a multiple of 4 long and, when used, holds a non-empty name after the header; IO otherwise |
| Minfs.NextDirentAdvances | system/uapp/minfs/minfs-ops.cpp:377-400 | after a record passes validate_dirent, do_next_dirent moves the walk strictly forward, not past the end of the directory, and remembers the record as the previous one |
| Minfs.RecordValidates | system/uapp/minfs/minfs-ops.cpp:377-400 | every record of a well-formed directory read with its whole header passes validate_dirent, and do_next_dirent takes the walk to the next record's offset with this record as the previous |
| Minfs.DirentSize | system/uapp/minfs/minfs-ops.cpp:582-611 | a record's size is its header and name rounded up to 4 bytes |
| Minfs.DirentSizeFits | system/uapp/minfs/minfs-ops.cpp:620-630 | a record of a length that is a multiple of 4 holds a name exactly when the name's DirentSize fits in it |
| Minfs.FirstFit | system/uapp/minfs/minfs-ops.cpp:618-653 | the first record from a position with room for the entry, None only when no record from there has room |
| Minfs.ReplaceRun | system/uapp/minfs/minfs-ops.cpp:428-500 | replacing a run of records by pieces of the same total length keeps the directory well formed, keeps the records before it in place and changes the used count by the difference |
| Minfs.PlacedWellFormed | system/uapp/minfs/minfs-ops.cpp:604-653 | placing an entry keeps the directory well formed, keeps the records before it, adds one used record, and puts the entry in the free record it fills or right after the used record it splits, at that record's DirentSize |
| Minfs.AppendedWellFormed | system/uapp/minfs/minfs-ops.cpp:618-699 | appending keeps the directory well formed and adds exactly one used record; it fails exactly when no record has room |
| Minfs.PlacedFill | system/uapp/minfs/minfs-ops.cpp:604-627 | filling a free record keeps the directory well formed and adds one used record |
| Minfs.PlacedSplit | system/uapp/minfs/minfs-ops.cpp:628-653 | splitting a used record leaves it its DirentSize and gives the entry the rest with the old last flag |
| Minfs.FindName | system/uapp/minfs/minfs-ops.cpp:402-412 | the first used record with the name, None only when no used record has it |
| Minfs.MergeRange | system/uapp/minfs/minfs-ops.cpp:428-472 | the records merged around an unlinked record are it, the next one when it is free and the record is not last, and the previous one when it is free |
| Minfs.CoalescedWellFormed | system/uapp/minfs/minfs-ops.cpp:428-500 | unlinking keeps the directory well formed and frees exactly one used record |
| Minfs.MergeRun | system/uapp/minfs/minfs-ops.cpp:428-482 | merging a used record with free neighbours into one free record keeps the directory well formed and frees one used record |
| Minfs.TailHasNoRoom | system/uapp/minfs/minfs-ops.cpp:667-699 | once a header no longer fits before the end, no remaining record has room for an entry, so stopping the walk there loses nothing |
| Minfs.TailHasNoName | system/uapp/minfs/minfs-ops.cpp:667-699 | once a header no longer fits before the end, no remaining record holds a name |
| Minfs.OffsetBelowExtent | system/uapp/minfs/minfs-ops.cpp:396-400 | record offsets never pass the end of the records |
| Minfs.CanUnlink | system/uapp/minfs/minfs-ops.cpp:414-426 | a file can always be unlinked; a directory only when it holds just "." and ".." and is not open elsewhere; BAD_STATE otherwise |
| Minfs.RenameArgs | system/uapp/minfs/minfs-ops.cpp:1250-1273 | NOT_SUPPORTED unless both parents are directories; BAD_STATE when either name is "." or ".."; otherwise OK |
| Minfs.ReplaceCheck | system/uapp/minfs/minfs-ops.cpp:553-575 | an existing destination can be replaced exactly when it is another inode of the same type that can be unlinked |
| Minfs.Directory.constructor | system/uapp/minfs/minfs-ops.cpp:1074-1084 | a new directory holds "." for itself and ".." for its parent (flagged last, running to the end), two entries, and a size of DirentSize(1) + DirentSize(2) |
| Minfs.PlacedEndIsEntry | system/uapp/minfs/minfs-ops.cpp:604-653 | the bytes fill_dirent writes are exactly the new entry's header and name at the entry's offset among the new records, and they lie inside the directory |
| Minfs.Directory.Append | system/uapp/minfs/minfs-ops.cpp:604-699 | NOT_FOUND with nothing changed when no record has room; otherwise the records become Appended's, with one more entry counted, the next sequence number, and the size grown to cover the entry written |
| Minfs.Directory.Unlink | system/uapp/minfs/minfs-ops.cpp:503-542 | NOT_FOUND when no used record has the name; NOT_DIR or the unlink check's status unless forced; IO when the merged length cannot be encoded; otherwise the records are coalesced, one entry fewer, the next sequence number and the size after the merge; nothing changes on failure |
| Minfs.Directory.FsUnlink | system/uapp/minfs/minfs-ops.cpp:1116-1135 | "." and ".." are refused with BAD_STATE and nothing changes; any other name is unlinked with the vnode checks |
| Minfs.Directory.UnlinkAt | system/uapp/minfs/minfs-ops.cpp:428-500 | the record is freed and merged with its free neighbours, the entry count drops by one, the sequence number moves on, the size grows to cover the rewritten header and a merged last record truncates the directory just past it; IO with nothing changed when the merged length would not fit |
| Minfs.FindRoom | system/uapp/minfs/minfs-ops.cpp:618-699 | the walk that stops when a header no longer fits finds exactly FirstFit's record |
| Minfs.BlockIndex | system/uapp/minfs/minfs-ops.cpp:255-329 | a file block maps to a direct slot below the direct count, otherwise to one entry of one indirect block, and past the indirect blocks is OUT_OF_RANGE |
| Minfs.BlockIndexInjective | system/uapp/minfs/minfs-ops.cpp:255-329 | distinct blocks of a file never share a slot |
| Minfs.ReadLength | system/uapp/minfs/minfs-ops.cpp:744-752 | a read at or past the end reads nothing; otherwise the length is clipped to the end of the file |
| Minfs.TruncateLength | system/uapp/minfs/minfs-ops.cpp:1144-1223 | any length becomes the new size except growing past the maximum file size, which is INVALID_ARGS |
| Minfs.FirstFreedBlock | system/uapp/minfs/minfs-ops.cpp:1152-1162 | the first block freed is the first wholly past the new length |
| Mkbootfs.Trim | system/host/mkbootfs/mkbootfs.c:58-73 | the result is the text with its leading and trailing white space removed and nothing else (Trimmed): it starts and ends with a non-space, and is empty exactly for all-space text |
| Mkbootfs.PageAlign | system/host/mkbootfs/mkbootfs.c:488 | rounding up to the 4096-byte page |
| Mkbootfs.ManifestEntry | system/host/mkbootfs/mkbootfs.c:75-102 | an entry exists exactly when the target name is non-empty and the source file's size is known and at most INT32_MAX; it carries the name, its length with terminator, the size and the source path |
| Mkbootfs.Fs.constructor | system/host/mkbootfs/mkbootfs.c:753 | a new list holds no entries |
| Mkbootfs.Fs.AddEntry | system/host/mkbootfs/mkbootfs.c:124-133 | the entry is appended at the tail and the directory bytes it needs are returned |
| Mkbootfs.ParseManifestLine | system/host/mkbootfs/mkbootfs.c:144-150 | a line holds an '=' or is skipped; with one, the entry is the one made from the trimmed text before the first '=' as target and the trimmed text after it as source, sized by that source |
| Mkbootfs.ManifestEntriesMeans | system/host/mkbootfs/mkbootfs.c:135-158 | the import reaches the end of the manifest exactly when every line is accepted, adds at most one entry per line, and every entry added is named, at most INT32_MAX bytes and not yet placed |
| Mkbootfs.Fs.ImportManifest | system/host/mkbootfs/mkbootfs.c:135-158 | the list grows by exactly ManifestEntries' entries (one per '=' line up to the first refused one, from its trimmed target and source and the source's size); the result is -1 exactly when a line is refused; on success the header size grows by the new entries' directory bytes, on failure it is unchanged |
| Mkbootfs.Fs.AssignOffsets | system/host/mkbootfs/mkbootfs.c:757-773 | entries keep everything but their offsets; success exactly when no running offset passes INT32_MAX, and then each entry's offset is its place after the page-aligned directory and the earlier entries' page-rounded data |
| Mkbootfs.LayOut | system/host/mkbootfs/mkbootfs.c:764-772 | the loop changes only offsets; it succeeds exactly when every offset fits, and then the entries are placed and the final offset is the image end |
| Mkbootfs.LayStep | system/host/mkbootfs/mkbootfs.c:765-771 | placing one more entry keeps the loop's invariant |
| Mkbootfs.LaidAll | system/host/mkbootfs/mkbootfs.c:764-772 | the finished loop has placed every entry within INT32_MAX |
| Mkbootfs.Appended | system/host/mkbootfs/mkbootfs.c:127-131 | the entries after the old ones are exactly those appended |
| Mkbootfs.DataStart | system/host/mkbootfs/mkbootfs.c:757-763 | the data begins on a page after the directory, the bootdata header and the end-of-records entry |
| Mkbootfs.OffsetStep | system/host/mkbootfs/mkbootfs.c:766-767 | each next offset is the previous one plus the page-rounded length |
| Mkbootfs.OffsetsOrdered | system/host/mkbootfs/mkbootfs.c:763-772 | offsets are page aligned, an entry's data ends before the next offset, and an entry with data starts strictly before the next |
| Mkbootfs.DataSizeAligned | system/host/mkbootfs/mkbootfs.c:767 | the data of all entries takes whole pages |
| Mmu.TrimmedWidth | kernel/arch/x86/mmu.cpp:1108-1116 | the virtual and physical address widths end up the larger of the built-in default and the width the processor reports, and are one of the two |
| Mmu.CanonicalIsSignExtended | kernel/arch/x86/mmu.cpp:67-83 | a 64-bit address is canonical for a given width exactly when it is the sign extension of its low bits of that width |
| Mmu.CheckedPageFits | kernel/arch/x86/mmu.cpp:104-114 | a physical address accepted by the page-aligned, in-width check leaves room for a whole page below the top of the physical address width |
| Mmu.PageSize | kernel/arch/x86/mmu.cpp:403-414 | the page size of every paging level is a whole number of 4 KiB pages and divides the 64-bit address space |
| Mmu.LowerPageSize | kernel/arch/x86/mmu.cpp:483-495 | a page at one level is exactly 512 pages of the level below, which is what splitting a large page relies on |
| Mmu.Index | kernel/arch/x86/mmu.cpp:559 | the table index taken from an address at any level is below the 512 entries of a page table |
| Mmu.Translate | kernel/arch/x86/mmu.cpp:1063-1083 | the physical address returned for a mapped page lies inside the mapped frame and keeps the address's offset within the page of that level |
| Mmu.PermFlagsMasked | kernel/arch/x86/mmu.cpp:290-332 | the permissions read back from an entry depend only on its present, writable, user and no-execute bits |
| Mmu.MmuFlagsRoundTrip | kernel/arch/x86/mmu.cpp:214-332 | turning architecture-independent flags into a terminal x86 entry and back gives back the requested permissions and cache policy at every level, with read always set |
| Mmu.CacheRoundTrip | kernel/arch/x86/mmu.cpp:214-332 | the cache policy read from a terminal entry is the one it was built with, whether the level puts the PAT bit at bit 7 or bit 12 |
| Mmu.PermRoundTrip | kernel/arch/x86/mmu.cpp:214-332 | the write, execute and user permissions read from a terminal entry are the ones it was built with |
| Mmu.SplitKeepsMeaning | kernel/arch/x86/mmu.cpp:266-283 | splitting a large page's flags for the level below keeps the permissions and cache policy the entry stood for |
| Mmu.SplitPdpKeepsMeaning | kernel/arch/x86/mmu.cpp:266-283 | splitting a 1 GiB page into 2 MiB pages keeps what the entry means |
| Mmu.SplitPdKeepsMeaning | kernel/arch/x86/mmu.cpp:266-283 | splitting a 2 MiB page into 4 KiB pages keeps what the entry means |
| Mmu.SplitKeepsCache | kernel/arch/x86/mmu.cpp:266-283 | splitting a 2 MiB page keeps its cache policy although the PAT bit moves |
| Mmu.SplitMovesPat | kernel/arch/x86/mmu.cpp:266-283 | splitting a 2 MiB page moves the large-page PAT bit to the 4 KiB PAT position and keeps the two cache-control bits |
| Mmu.SplitKeepsPerms | kernel/arch/x86/mmu.cpp:266-283 | splitting a 2 MiB page keeps the present, writable, user and no-execute bits |
| Mmu.EptSplitFlags | kernel/arch/x86/mmu.cpp:370-375 | splitting a large extended page table entry keeps the permissions it grants |
| Mmu.EptRoundTrip | kernel/arch/x86/mmu.cpp:352-396 | an extended page table entry built from flags grants back exactly the read, write and execute permissions requested |
| Mmu.EptGuestRoundTrip | kernel/arch/x86/mmu.cpp:57-58 | flags within the set a guest address space accepts come back unchanged from an extended page table entry |
| Mmu.GuestFlagsSurvive | kernel/arch/x86/mmu.cpp:1260-1281 | any flags a guest address space lets through to the page table are represented exactly by the extended page table entries it writes |
| Mmu.Add64 | kernel/arch/x86/mmu.cpp:412-413 | adding to a 64-bit address wraps modulo 2^64 |
| Mmu.Add64Twice | kernel/arch/x86/mmu.cpp:412-413 | advancing an address twice with wrap-around equals advancing it once by the sum |
| Mmu.Skipped | kernel/arch/x86/mmu.cpp:403-414 | skipping an absent entry never takes more than the cursor's remaining size and always makes progress while size remains |
| Mmu.SkipLands | kernel/arch/x86/mmu.cpp:403-414 | after skipping an absent entry the cursor is either exhausted or sits on the start of the next entry of that level |
| Mmu.SkipKeepsEnd | kernel/arch/x86/mmu.cpp:403-414 | skipping an entry keeps the end of the cursor's range where it was |
| Mmu.MappingCursor.SkipEntry | kernel/arch/x86/mmu.cpp:403-414 | the cursor's size shrinks and its virtual address advances by the amount skipped, its physical address is unchanged |
| Mmu.PagesInTable | kernel/arch/x86/mmu.cpp:693-706 | the 4 KiB pages a last-level walk visits stay within the table and within the cursor's size, and cover the whole size unless the table ends first |
| Mmu.WalkStops | kernel/arch/x86/mmu.cpp:693-706 | the last-level walk stops exactly when it reaches the end of the table or has consumed the cursor's size |
| Mmu.FirstPresent | kernel/arch/x86/mmu.cpp:819-835 | the walk that adds mappings stops at the first entry already present in the range, having seen only absent entries before it |
| Mmu.MapOverwritesNothing | kernel/arch/x86/mmu.cpp:810-835 | adding mappings never changes an entry that was already present |
| Mmu.ClearUndoesMap | kernel/arch/x86/mmu.cpp:684-706 | removing mappings over a range leaves the same table whether or not mappings were added there first |
| Mmu.ProtectKeepsMappings | kernel/arch/x86/mmu.cpp:924-950 | changing protections never maps or unmaps an entry and keeps each mapped entry's frame |
| Mmu.MapRunStep | kernel/arch/x86/mmu.cpp:819-835 | adding one more page to a run maps the next entry to the next physical page |
| Mmu.ClearRunStep | kernel/arch/x86/mmu.cpp:693-706 | removing one more page clears exactly the next entry |
| Mmu.ProtectRunStep | kernel/arch/x86/mmu.cpp:935-950 | protecting one more page rewrites the next entry's flags when it is present and leaves it alone otherwise |
| Mmu.PageTable.constructor | kernel/arch/x86/mmu.cpp:559 | a new page table has all 512 entries absent |
| Mmu.PageTable.AddMappingL0 | kernel/arch/x86/mmu.cpp:810-835 | the last-level walk maps consecutive pages until the range or the table ends, fails with ALREADY_EXISTS at the first present entry, and advances the cursor by the pages it mapped |
| Mmu.PageTable.RemoveMappingL0 | kernel/arch/x86/mmu.cpp:684-706 | the last-level walk clears every entry of the range within the table, reports whether any was present, and advances the cursor past them |
| Mmu.PageTable.UpdateMappingL0 | kernel/arch/x86/mmu.cpp:924-950 | the last-level walk gives every present entry of the range the new flags, leaves absent entries absent, and advances the cursor past them |
| Mmu.RangeSize | kernel/arch/x86/mmu.cpp:967 | the byte size of a page count is page aligned and equals count times the page size when that fits in 64 bits |
| Mmu.UnmapPages | kernel/arch/x86/mmu.cpp:952-978 | unmapping succeeds exactly for a canonical, page-aligned address, fails with INVALID_ARGS otherwise, and reports the page count as unmapped only when there was something to do |
| Mmu.MapPages | kernel/arch/x86/mmu.cpp:980-1016 | mapping succeeds exactly when both addresses pass their checks and, for a non-empty range, the flags include read and the table update succeeds; failures are INVALID_ARGS or the table's own status |
| Mmu.ProtectPages | kernel/arch/x86/mmu.cpp:1018-1043 | changing protections succeeds exactly when the address passes its check and, for a non-empty range, the flags include read and the table update succeeds |
| Mmu.AspaceMap | kernel/arch/x86/mmu.cpp:1260-1270 | an address space rejects a mapping with INVALID_ARGS when the address is outside it or a guest space gets flags beyond read, write and execute, and otherwise returns the page table's result |
| Mmu.AspaceProtect | kernel/arch/x86/mmu.cpp:1272-1281 | an address space rejects a protection change under the same two conditions and otherwise returns the page table's result |
| Mmu.AspaceUnmap | kernel/arch/x86/mmu.cpp:1253-1258 | an address space rejects an unmap outside its range with INVALID_ARGS and otherwise returns the page table's result |
| Bits.AllOnesBytes | system/ulib/hypervisor/pci.cpp:147-156 | the mask of len bytes is all ones in its low len bytes and zero above; a read of a missing device returns it |
| Bits.PartialWriteField | system/ulib/hypervisor/pci.cpp:218-231 | a partial write of the configuration address puts the low bytes of the value into the addressed bytes of the register |
| Bits.PartialWriteKeeps | system/ulib/hypervisor/pci.cpp:218-231 | a partial write leaves every bit outside the addressed bytes as it was |
| Bits.PartialRoundTrip | system/ulib/hypervisor/pci.cpp:183-231 | reading back, at the same port and width, bytes just written gives the written bytes, wherever in the register they lie |
| Bits.PartialReadField | system/ulib/hypervisor/pci.cpp:183-191 | a partial read of the configuration address puts the register's bits from the addressed byte on into the low bytes of the I/O value |
| Bits.PartialReadKeeps | system/ulib/hypervisor/pci.cpp:183-191 | a partial read keeps the I/O value's bits above the bytes read |
| Bits.ExtractField | system/ulib/hypervisor/pci.cpp:423-438 | the shift and mask of ReadConfig take exactly the addressed field: moved back to its byte offset the result is the word under the field's mask |
| Bits.ExtractHigh | system/ulib/hypervisor/pci.cpp:434-435 | the extracted value has no bit above the bytes read |
| Pci.CapLen | system/ulib/hypervisor/pci.cpp:253-256 | a capability's length rounded up to a 32-bit boundary, still fitting in a byte |
| Pci.CapBaseAligned | system/ulib/hypervisor/pci.cpp:258-271 | every capability starts on a 32-bit boundary, at or after the capability base |
| Pci.CapBaseMonotone | system/ulib/hypervisor/pci.cpp:258-271 | capabilities lie in list order: a later one never starts before an earlier one |
| Pci.FindFrom | system/ulib/hypervisor/pci.cpp:258-276 | a capability found lies in the list and starts where the lengths before it add up to |
| Pci.FindFromFirst | system/ulib/hypervisor/pci.cpp:258-276 | the search finds the first capability ending after the address, and for an address in the capability area one that starts at or before it; it finds none exactly when every capability ends at or before the address |
| Pci.NextPointerFindsNext | system/ulib/hypervisor/pci.cpp:303-308 | the next pointer of a capability that is not the last names the start of the next one, and searching that address finds it |
| Pci.FindAtBase | system/ulib/hypervisor/pci.cpp:258-271 | searching the start of a capability finds that capability, when no capability is empty |
| Pci.CapListEnds | system/ulib/hypervisor/pci.cpp:289-308 | the last capability's next pointer reads 0, ending the list, and a padding byte reads 0 |
| Pci.AssembleNext | system/ulib/hypervisor/pci.cpp:313 | one more byte shifted into its place extends the assembled word by that byte |
| Pci.PaddingZeros | system/ulib/hypervisor/pci.cpp:289-291 | from the capability's end on every value read is 0 |
| Pci.AssembleZeros | system/ulib/hypervisor/pci.cpp:289-291 | stopping at the capability's end gives the same word as reading zeros for the padding |
| Pci.AssembleBytes | system/ulib/hypervisor/pci.cpp:285-316 | the bytes of the assembled word are the four values in order |
| Pci.ReadConfig | system/ulib/hypervisor/pci.cpp:423-438 | a read fails exactly when reading its aligned word fails, with that word's status |
| Pci.ReadConfigField | system/ulib/hypervisor/pci.cpp:423-438 | for an access inside the word, ReadConfig returns exactly the addressed bytes of the aligned word |
| Pci.ReadConfigHigh | system/ulib/hypervisor/pci.cpp:434-435 | ReadConfig sets no bit above the bytes read |
| Pci.PackLow | system/ulib/hypervisor/pci.cpp:336-339 | the low half of a word packing two 16-bit registers reads back as the first |
| Pci.PackHigh | system/ulib/hypervisor/pci.cpp:336-339 | the high half of a word packing two 16-bit registers reads back as the second |
| Pci.WriteStatus | system/ulib/hypervisor/pci.cpp:449-490 | a configuration write is NOT_SUPPORTED exactly for a read-only register, a command write that is not 2 bytes and a BAR write that is not 4, and then changes nothing; every other write succeeds, a write to a reserved register being a no-op |
| Pci.WriteFrame | system/ulib/hypervisor/pci.cpp:449-490 | a configuration write never changes the attributes, the capabilities or the number of BARs; only a command write changes the command and only the named BAR can change |
| Pci.WriteKeepsOk | system/ulib/hypervisor/pci.cpp:449-490 | a configuration write keeps the configuration space well formed |
| Pci.ReadWord | system/ulib/hypervisor/pci.cpp:423-438 | a read returns the addressed bytes of its aligned word |
| Pci.ReadLow | system/ulib/hypervisor/pci.cpp:423-438 | a 2-byte read at the start of a word reads its low 16-bit register |
| Pci.ReadHigh | system/ulib/hypervisor/pci.cpp:423-438 | a 2-byte read in the middle of a word reads its high 16-bit register |
| Pci.IdentityWord | system/ulib/hypervisor/pci.cpp:336-339 | the first word holds the vendor id in its low half and the device id in its high half |
| Pci.SubsystemWord | system/ulib/hypervisor/pci.cpp:396-399 | the subsystem word holds the subsystem vendor id in its low half and the subsystem id in its high half |
| Pci.CommandWord | system/ulib/hypervisor/pci.cpp:344-353 | the second word holds the command in its low half and the status in its high half: interrupt status always, the capability-list bit when the device has capabilities |
| Pci.CommandWrite | system/ulib/hypervisor/pci.cpp:460-466 | a 2-byte command write succeeds, stores the low 16 bits of the value and leaves the status as it was |
| Pci.BarWord | system/ulib/hypervisor/pci.cpp:368-382 | an implemented BAR reads as its address with its address-space bit |
| Pci.BarWrite | system/ulib/hypervisor/pci.cpp:467-486 | a 4-byte write to an implemented BAR stores the value with the bits below the BAR's size cleared, and changes nothing else |
| Pci.BarSizing | system/ulib/hypervisor/pci.cpp:482-484 | after the guest writes all ones to a BAR, it reads back as the inverted size mask with the address-space bit |
| Pci.SizeFromReadback | system/ulib/hypervisor/pci.cpp:482-484 | from that sizing read the guest recovers the BAR's size by masking the flag bits, inverting and adding one |
| Pci.BarAddressRoundTrip | system/ulib/hypervisor/pci.cpp:482-484 | writing an address aligned to the BAR's size stores it unchanged |
| Pci.RoundUpPow2Least | system/ulib/hypervisor/pci.cpp:130 | the rounded size is the least power of two not below the size |
| Pci.PioStart | system/ulib/hypervisor/pci.cpp:131 | an I/O BAR starts at the first port at or after the free port that is a multiple of its rounded size |
| Pci.PlacePio | system/ulib/hypervisor/pci.cpp:125-132 | an I/O BAR gets the least power-of-two size that holds it, starts at the first port aligned to that size at or after the free port, and the free port moves to its end while the memory base stays |
| Pci.PlacePioRegs | system/ulib/hypervisor/pci.cpp:130-131 | the I/O BAR's registers take that start and size cut to 32 bits |
| Pci.PlaceMmio | system/ulib/hypervisor/pci.cpp:133-137 | a memory BAR starts at the free memory address and gets a whole number of pages, cut to 16 bits so that a size of 64 KiB or more wraps; the next BAR starts right after it and the port base stays |
| Pci.PlaceBarMoves | system/ulib/hypervisor/pci.cpp:117-138 | placing one BAR keeps its address space and moves the free addresses forward only |
| Pci.PlaceFromFrame | system/ulib/hypervisor/pci.cpp:117-138 | placement keeps every BAR's address space, changes nothing before the start or from the first unimplemented BAR on, and never moves the free addresses back |
| Pci.PlaceAllFrame | system/ulib/hypervisor/pci.cpp:117-138 | Connect's placement keeps every BAR's address space, changes nothing from the first unimplemented BAR on and never moves the free addresses back |
| Pci.PlaceBars | system/ulib/hypervisor/pci.cpp:117-138 | the loop places the BARs in order, stopping at the first unimplemented one, as PlaceAll describes |
| Pci.PciDevice.FindCapability | system/ulib/hypervisor/pci.cpp:258-276 | the loop finds what the capability search finds |
| Pci.PciDevice.ReadCapability | system/ulib/hypervisor/pci.cpp:278-318 | NOT_FOUND exactly when no capability holds the address; otherwise the word of capability bytes from the address, padding reading 0 |
| Pci.PciDevice.AssembleCapability | system/ulib/hypervisor/pci.cpp:285-314 | the loop assembles the four values read from the offset, stopping at the capability's end |
| Pci.PciDevice.WriteConfig | system/ulib/hypervisor/pci.cpp:449-490 | the device's configuration space and status change as the write rules say, and its interrupt does not |
| Pci.PciBus.Connect | system/ulib/hypervisor/pci.cpp:110-145 | a slot past the last is OUT_OF_RANGE and an occupied slot ALREADY_EXISTS, both changing nothing; otherwise the device takes the slot, its BARs are placed and the free addresses advance, I/O and memory decoding are enabled, it gets its slot's interrupt, and the trap setup's status is returned |
| Pci.PciBus.ReadIoPort | system/ulib/hypervisor/pci.cpp:181-214 | the address ports read the addressed bytes of the configuration address; the data ports read all ones for a missing device and otherwise the addressed register of the device, failing with its status and leaving the value; any other port is NOT_SUPPORTED |
| Pci.PciBus.WriteIoPort | system/ulib/hypervisor/pci.cpp:216-251 | the address ports change only the addressed bytes of the configuration address; the data ports are OUT_OF_RANGE for a missing device and otherwise write the addressed register of that device alone; any other port is NOT_SUPPORTED; the slots never change |
| Pci.PciBus.MappedDevice | system/ulib/hypervisor/pci.cpp:503-541 | the first slot and BAR, in order, that is enabled, of the asked address space and holds the address, with the address's offset in it; NOT_FOUND exactly when none does |
| PerfMon.DecodeCpuid | kernel/arch/x86/perf_mon.cpp:189-234 | the performance-monitoring CPUID leaf is accepted exactly when at most 8 programmable and 3 fixed counters are reported, both counter widths lie in 16..64 and the unsupported-event length is at most 7, and then yields the leaf's fields |
| PerfMon.FieldsFit | kernel/arch/x86/perf_mon.cpp:196-227 | every field taken from the leaf fits in the bits it was masked to |
| PerfMon.DecodeCpuidRoundTrip | kernel/arch/x86/perf_mon.cpp:189-234 | usable capabilities packed into a CPUID leaf decode back to themselves |
| PerfMon.LeafAFields | kernel/arch/x86/perf_mon.cpp:196-213 | the version, programmable count, programmable width and event-length fields sit in the four bytes of EAX |
| PerfMon.LeafDFields | kernel/arch/x86/perf_mon.cpp:221-227 | the fixed-counter count sits in the low 5 bits of EDX and the fixed-counter width in the 8 bits above them |
| PerfMon.PmcStep | kernel/arch/x86/perf_mon.cpp:243-244 | adding one programmable counter's overflow bit extends the status mask by that counter |
| PerfMon.FixedStep | kernel/arch/x86/perf_mon.cpp:245-246 | adding one fixed counter's overflow bit (at bit 32 plus its index) extends the fixed part of the mask by that counter |
| PerfMon.FixedCtrlStep | kernel/arch/x86/perf_mon.cpp:254-258 | adding one fixed counter's enable, any-thread and PMI bits extends the writable fixed-control mask by that counter's 4-bit field |
| PerfMon.PmiStep | kernel/arch/x86/perf_mon.cpp:371-377 | adding one fixed counter's PMI bit extends the PMI mask by that counter |
| PerfMon.PmiNone | kernel/arch/x86/perf_mon.cpp:371-377 | with no fixed counters the PMI mask is empty |
| PerfMon.PmiWritable | kernel/arch/x86/perf_mon.cpp:254-258 | the PMI bits that sampling mode sets are among the writable fixed-control bits |
| PerfMon.SetClearKeepsWritable | kernel/arch/x86/perf_mon.cpp:363-378 | setting or clearing writable bits in a register that holds only writable bits keeps it that way |
| PerfMon.EventIntBit | kernel/arch/x86/perf_mon.cpp:363-370 | setting or clearing the INT bit of a valid event selection keeps it valid and leaves the INT bit as asked |
| PerfMon.Masks | kernel/arch/x86/perf_mon.cpp:242-258 | the boot loops produce the overflow-status mask and the global-control writable mask covering exactly the existing counters, and the fixed-control writable mask of the existing fixed counters |
| PerfMon.Count | kernel/arch/x86/perf_mon.cpp:364 | a counter count read from the hardware is at most 8 |
| PerfMon.Width | kernel/arch/x86/perf_mon.cpp:423-427 | a counter width read from the hardware lies in 16..64 and is 64 exactly when the hardware says 64 |
| PerfMon.MaxCounterValue | kernel/arch/x86/perf_mon.cpp:422-427 | the largest value of a counter narrower than 64 bits is one less than 2 to its width |
| PerfMon.InitialValue | kernel/arch/x86/perf_mon.cpp:450-466 | a sampling counter starts exactly the sample frequency below its overflow, at a value the counter can hold |
| PerfMon.Filled | kernel/arch/x86/perf_mon.cpp:471-478 | a counter array has its first n counters set to the value and the rest zero |
| PerfMon.CounterStart | kernel/arch/x86/perf_mon.cpp:469-479 | in counting mode every counter starts at zero, in sampling mode the existing counters start at the initial value and the rest at zero |
| PerfMon.FillCounters | kernel/arch/x86/perf_mon.cpp:471-478 | the clearing and filling loops produce that counter array |
| PerfMon.SampleEvents | kernel/arch/x86/perf_mon.cpp:364-370 | the loop sets or clears the INT bit of each existing counter's event selection and leaves the others unchanged |
| PerfMon.PmiBits | kernel/arch/x86/perf_mon.cpp:371-377 | the loop collects the PMI bits of exactly the existing fixed counters |
| PerfMon.SampleFixed | kernel/arch/x86/perf_mon.cpp:371-377 | the loop sets or clears the PMI bits of the existing fixed counters in the fixed-control register |
| PerfMon.NoEvents | kernel/arch/x86/perf_mon.cpp:155-160 | a freshly allocated trace has all event selections zero |
| PerfMon.Perfmon.constructor | kernel/arch/x86/perf_mon.cpp:189-258 | perfmon is supported exactly when the leaf exists, decodes and reports version 4 or later, and the capabilities are then the leaf's fields; nothing is allocated or active |
| PerfMon.Perfmon.GetState | kernel/arch/x86/perf_mon.cpp:285-298 | state is reported only when perfmon is supported (NOT_SUPPORTED otherwise) and describes the counters, capabilities and the allocated and started flags |
| PerfMon.Perfmon.Init | kernel/arch/x86/perf_mon.cpp:300-327 | init fails with NOT_SUPPORTED, with BAD_STATE when active or already allocated, and with NO_MEMORY when allocation fails; on success one empty record per cpu, no events, and zeroed control registers, sample frequency and initial values; on failure nothing changes |
| PerfMon.Perfmon.AssignBuffer | kernel/arch/x86/perf_mon.cpp:329-359 | a buffer is accepted only for an allocated, inactive trace, an existing cpu, a zero start offset and a size between one counters record and the VMO's size, and then only that cpu's buffer changes |
| PerfMon.Perfmon.CheckConfig | kernel/arch/x86/perf_mon.cpp:398-432 | a configuration passes exactly when its registers and events hold only writable bits, freeze-on-PMI is off and the sample frequency fits both counter widths; otherwise INVALID_ARGS |
| PerfMon.Perfmon.CheckRegisters | kernel/arch/x86/perf_mon.cpp:398-415 | the register checks pass exactly when the control registers hold only their writable bits and freeze-on-PMI is not asked for |
| PerfMon.Perfmon.CheckEvents | kernel/arch/x86/perf_mon.cpp:416-421 | the event check passes exactly when every existing counter's event selection holds only writable bits |
| PerfMon.Perfmon.SetSamplingMode | kernel/arch/x86/perf_mon.cpp:363-378 | the INT bit of each existing counter's event selection and the PMI bit of each existing fixed counter are set when sampling is enabled and cleared otherwise |
| PerfMon.Perfmon.SetEventSampling | kernel/arch/x86/perf_mon.cpp:364-370 | the INT bit of each existing programmable counter is set or cleared as asked |
| PerfMon.Perfmon.SetFixedSampling | kernel/arch/x86/perf_mon.cpp:371-377 | the PMI bit of each existing fixed counter is set or cleared as asked |
| PerfMon.Perfmon.ResetCounters | kernel/arch/x86/perf_mon.cpp:469-479 | every cpu's counters are reset to zero, or to the initial values for the existing counters in sampling mode, and nothing else about the cpu changes |
| PerfMon.Perfmon.StageConfig | kernel/arch/x86/perf_mon.cpp:380-482 | staging fails with NOT_SUPPORTED, BAD_STATE when active or unallocated, and INVALID_ARGS exactly when the configuration is unacceptable, changing nothing then; on success the registers, events, initial values and counters are staged for the configuration |
| PerfMon.Perfmon.Apply | kernel/arch/x86/perf_mon.cpp:436-479 | applying an acceptable configuration stages its registers, its events with the sampling bits, its initial values and every cpu's counters |
| PerfMon.Perfmon.StoreSampling | kernel/arch/x86/perf_mon.cpp:436-467 | storing the configuration and then setting the sampling bits and initial values stages everything but the counters |
| PerfMon.Perfmon.SetInitialValues | kernel/arch/x86/perf_mon.cpp:447-466 | in sampling mode both initial values start the sample frequency below overflow |
| PerfMon.Perfmon.Store | kernel/arch/x86/perf_mon.cpp:436-441 | the configuration's registers, events and sample frequency are copied into the trace state |
| PerfMon.Perfmon.StagedWritable | kernel/arch/x86/perf_mon.cpp:380-482 | after staging an accepted configuration the registers to be written hold only writable bits, the debug control is zero, and each existing counter's INT bit is set exactly in sampling mode |
| PerfMon.Perfmon.Start | kernel/arch/x86/perf_mon.cpp:584-610 | start fails with NOT_SUPPORTED, BAD_STATE when already active or unallocated, or the buffer-mapping status; it succeeds exactly when it makes the trace active |
| PerfMon.Perfmon.Stop | kernel/arch/x86/perf_mon.cpp:655-683 | stop fails with NOT_SUPPORTED or BAD_STATE when unallocated and otherwise succeeds and leaves the trace inactive |
| PerfMon.Perfmon.Fini | kernel/arch/x86/perf_mon.cpp:713-726 | fini fails with NOT_SUPPORTED or BAD_STATE while active, and otherwise frees the trace state; it may be repeated |
| Runtests.Strtok | system/uapp/runtests/runtests.cpp:67-75 | one strtok_r step: the token is the first non-empty comma-free piece and scanning resumes after the comma that ends it |
| Runtests.NonEmpty | system/uapp/runtests/runtests.cpp:67-75 | all pieces are kept exactly when none is empty |
| Runtests.TokensAreNonEmptyPieces | system/uapp/runtests/runtests.cpp:67-75 | the tokens strtok_r yields are exactly the non-empty pieces between commas |
| Runtests.NameListPieces | system/uapp/runtests/runtests.cpp:51-75 | the count loop counts exactly the pieces of the name list |
| Runtests.ParseTestNamesSplit | system/uapp/runtests/runtests.cpp:51-79 | parsing succeeds exactly when no piece is empty, and then yields the pieces themselves, which join back into the list |
| Runtests.ParseTestNames | system/uapp/runtests/runtests.cpp:51-79 | success exactly when strtok_r yields as many tokens as the count loop counted, and then the names are those tokens |
| Runtests.CountTestNames | system/uapp/runtests/runtests.cpp:52-57 | one name plus one per comma after the first character |
| Runtests.Tokenize | system/uapp/runtests/runtests.cpp:65-75 | the first `count` tokens, or failure when there are fewer (corrected: a missing first token fails like the later ones) |
| Runtests.ParseTestNamesAsWritten | system/uapp/runtests/runtests.cpp:51-79 | the first name is stored without a NULL check, so a missing first name is returned with success |
| Runtests.ParseTestNamesLoneComma | system/uapp/runtests/runtests.cpp:65-66 | "," parses as one name that is NULL |
| Runtests.ParseTestNamesAsWrittenAgrees | system/uapp/runtests/runtests.cpp:51-79 | apart from that, the parse as written succeeds with real names exactly when the corrected one does, with the same names |
| Runtests.MatchTestNames | system/uapp/runtests/runtests.cpp:81-93 | every entry matches without a filter; otherwise an entry matches exactly when a filter name agrees with it on the first NAME_MAX characters |
| Runtests.StrnEqualShort | system/uapp/runtests/runtests.cpp:88 | for names shorter than NAME_MAX the comparison is equality |
| Runtests.StrnEqualLong | system/uapp/runtests/runtests.cpp:88 | longer names match as soon as their first NAME_MAX characters agree |
| Runtests.JoinedPathComponents | system/uapp/runtests/runtests.cpp:134-135 | the components of "parent/child" are those of the parent followed by those of the child |
| Runtests.JoinPath | system/uapp/runtests/runtests.cpp:134-142 | 0 exactly when the joined path fits with its terminator, and then the buffer reads back as the path; otherwise -1 with the truncated path written |
| Runtests.Snprintf | system/uapp/runtests/runtests.cpp:135 | the longest prefix of the text that fits is written, then a terminator; the rest of the buffer is unchanged |
| Runtests.WriteTruncated | system/uapp/runtests/runtests.cpp:135 | the buffer afterwards is Snprintf of the text |
| Runtests.SlashPrefixesAreParents | system/uapp/runtests/runtests.cpp:110-118 | the loop's intermediate directories are exactly the prefixes ending before a '/' past the first character, shortest first |
| Runtests.UpToFailureMeaning | system/uapp/runtests/runtests.cpp:110-122 | the mkdir calls are a prefix of the targets: all of them when none fails, otherwise up to and including the first failure |
| Runtests.MkDirAll | system/uapp/runtests/runtests.cpp:96-122 | ENAMETOOLONG without any mkdir when the path does not fit PATH_MAX; 0 at once when it exists; otherwise mkdir on each parent and then the path, stopping at the first failure, and 0 exactly when none fails |
| Runtests.CopyPath | system/uapp/runtests/runtests.cpp:98-99 | the buffer holds the path and its terminator |
| Runtests.MakeParents | system/uapp/runtests/runtests.cpp:110-118 | mkdir on each parent in order, stopping at the first failure, and the buffer holds the whole path again afterwards |
| Runtests.FailureStops | system/uapp/runtests/runtests.cpp:112-114 | a failing parent ends the calls there |
| Runtests.CutAt | system/uapp/runtests/runtests.cpp:112 | the buffer then reads back as the parent ending before the slash |
| Runtests.Strtol | system/uapp/runtests/runtests.cpp:439 | strtol with base 0: the value lies in the range of long (clamped) and the end index within the text |
| Runtests.ParseTimeout | system/uapp/runtests/runtests.cpp:437-445 | a timeout is accepted only when non-empty, read whole, and between 0 and INT_MAX |
| Runtests.ParseTimeoutDecimal | system/uapp/runtests/runtests.cpp:437-470 | the "%d" text of a timeout reads back as the same timeout when it is at most INT_MAX, and is refused otherwise |
| Runtests.ParseTimeoutZero | system/uapp/runtests/runtests.cpp:437-445 | "0" is accepted as 0 |
| Runtests.StrtolDecimal | system/uapp/runtests/runtests.cpp:439 | decimal digits without a leading zero are read whole, in base 10 |
| Runtests.ParseTimeoutTrailing | system/uapp/runtests/runtests.cpp:440 | a timeout followed by a non-digit is refused |
| Runtests.ParseTimeoutNegative | system/uapp/runtests/runtests.cpp:441 | a negative timeout is refused |
| Runtests.StrtolNegative | system/uapp/runtests/runtests.cpp:439 | a minus sign before a non-zero digit gives a negative value |
| Runtests.ParseTimeoutHex | system/uapp/runtests/runtests.cpp:439 | leading whitespace is skipped and "0x" selects hexadecimal: " 0x10" is 16 |
| Runtests.ParseTimeoutOctal | system/uapp/runtests/runtests.cpp:439 | a leading 0 selects octal: "010" is 8 |
| Runtests.ParseTimeoutBareHexPrefix | system/uapp/runtests/runtests.cpp:439-440 | "0x" with no hexadecimal digit stops after the 0 and is refused |
| Text.IndexOf | system/uapp/runtests/runtests.cpp:54 | strchr finds the first position of the character, or nothing exactly when the character does not occur |
| Text.Split | system/host/zbi/zbi.cpp:571-576 | splitting on a separator yields one more piece than there are separators, none of them containing it |
| Text.OccurrencesAbsent | system/uapp/runtests/runtests.cpp:54-57 | a string without the separator has none to count |
| Text.OccurrencesSplit | system/uapp/runtests/runtests.cpp:54-57 | the separators of a string are the first one plus those after it |
| Text.JoinSplit | system/host/zbi/zbi.cpp:571-576 | joining the pieces of a split with the separator gives back the original string |
| Text.SplitJoin | system/host/zbi/zbi.cpp:571-576 | splitting a join of separator-free pieces gives back those pieces |
| Text.IndexOfPrefix | system/host/zbi/zbi.cpp:572 | the first separator after a separator-free prefix is found right after that prefix |
| Text.SplitConcat | system/host/zbi/zbi.cpp:572-576 | splitting two strings joined by the separator gives the pieces of the first followed by those of the second |
| Text.CString | system/uapp/runtests/runtests.cpp:135 | the C string held in a buffer is its longest prefix without a NUL, followed by a NUL unless it fills the buffer |
| Text.CStringOfTerminated | system/uapp/runtests/runtests.cpp:135 | a buffer holding a NUL-free string followed by a NUL reads back as that string |
| TraceEngine.ComputeBufferSizes | system/ulib/trace-engine/context.cpp:1327-1389 | oneshot mode gives everything after the header to one rolling buffer; the other modes split it into a durable buffer and two equal rolling buffers of whole words, the durable buffer being the capped guess plus less than 16 bytes |
| TraceEngine.MarkRollingFull | system/ulib/trace-engine/context.cpp:1514-1523 | the full mark of a rolling buffer is set only when clear, so the first offset seen past the end is kept |
| TraceEngine.SwitchLocked | system/ulib/trace-engine/context.cpp:1525-1540 | the wrapped count advances by one, the new buffer starts at offset 0 with its full mark cleared, and the old buffer's mark is kept |
| TraceEngine.AllocRecordPlaces | system/ulib/trace-engine/context.cpp:1119-1196 | an oversized record changes nothing; a record handed out lies wholly inside the buffer the write counter points into, and the counter has moved past it |
| TraceEngine.AllocPassPlaces | system/ulib/trace-engine/context.cpp:1130-1142 | the same for one pass of the loop |
| TraceEngine.AllocRecordSwitchesAtMostOnce | system/ulib/trace-engine/context.cpp:1119-1196 | a record allocation switches rolling buffers at most once, never in oneshot mode, and leaves the durable counters alone |
| TraceEngine.DurableAllocFits | system/ulib/trace-engine/context.cpp:1285-1301 | a durable allocation succeeds exactly when it fits, at the old offset; on failure the offset snaps to the end and the full mark is set (stopping tracing) only if it was clear |
| TraceEngine.AllocIndexSpec | system/ulib/trace-engine/context.cpp:1303-1325 | an index is handed out exactly while the counter is at most the maximum; after that the counter is pinned at the maximum plus one |
| TraceEngine.IndexesIncrease | system/ulib/trace-engine/context.cpp:1303-1325 | successive indexes strictly increase, so none is reused, and the counter never passes the maximum plus one |
| TraceEngine.TraceContext.constructor | system/ulib/trace-engine/context.cpp:1327-1400 | a new context has the computed layout, all counters and marks at zero and the next indexes at 1 |
| TraceEngine.TraceContext.SnapRollingToEnd | system/ulib/trace-engine/context.cpp:1501-1551 | the rolling offset is put at the end of the buffer; nothing else changes |
| TraceEngine.TraceContext.MarkRollingBufferFull | system/ulib/trace-engine/context.cpp:1514-1523 | the counters become MarkRollingFull of the old ones |
| TraceEngine.TraceContext.MarkOneshotBufferFull | system/ulib/trace-engine/context.cpp:1500-1512 | the offset snaps to the end, buffer 0 is marked once and the record is counted as dropped |
| TraceEngine.TraceContext.SwitchRollingBufferLocked | system/ulib/trace-engine/context.cpp:1525-1540 | the counters become SwitchLocked of the old ones |
| TraceEngine.TraceContext.AllocAttempt | system/ulib/trace-engine/context.cpp:1130-1192 | one pass of the loop; a pass that does not finish is the first and leaves the context switched to the other buffer |
| TraceEngine.TraceContext.AllocRecord | system/ulib/trace-engine/context.cpp:1119-1196 | the record and the new counters are AllocRecordSpec of the old ones, so AllocRecordPlaces and AllocRecordSwitchesAtMostOnce hold of them |
| TraceEngine.TraceContext.AllocDurableRecord | system/ulib/trace-engine/context.cpp:1285-1301 | the record and the new counters are AllocDurableSpec of the old ones, so DurableAllocFits holds of them |
| TraceEngine.TraceContext.MarkRollingBufferSaved | system/ulib/trace-engine/context.cpp:1582-1597 | the saved buffer's full mark is cleared and nothing else changes |
| TraceEngine.TraceContext.AllocThreadIndex | system/ulib/trace-engine/context.cpp:1303-1313 | the thread index follows AllocIndexSpec with the thread maximum |
| TraceEngine.TraceContext.AllocStringIndex | system/ulib/trace-engine/context.cpp:1315-1325 | the string index follows AllocIndexSpec with the string maximum |
| TraceEngine.FindEntry | system/ulib/trace-engine/context.cpp:215-217 | the position of an entry for the literal, None only when no entry has it |
| TraceEngine.ThreadCache.constructor | system/ulib/trace-engine/context.cpp:200-203 | a new thread cache is empty and holds no generation |
| TraceEngine.ThreadCache.GetCurrent | system/ulib/trace-engine/context.cpp:194-209 | a cache of a newer generation refuses the caller; one of the same generation is kept; otherwise it is reset to the generation with no strings |
| TraceEngine.ThreadCache.CacheStringEntry | system/ulib/trace-engine/context.cpp:211-231 | the existing entry for the literal; a new entry at the end while fewer than 256 exist; none when the cache is full or of a newer generation |
| TraceEngine.Pad | system/ulib/trace-engine/context.cpp:247 | the byte count rounded up to the next multiple of 8 |
| TraceEngine.PadWords | system/ulib/trace-engine/context.cpp:328-338 | the padded size is the whole words plus one word for a partial tail, as PrepareWriteBytes advances |
| TraceEngine.SizeOfStringRef | system/ulib/trace-engine/context.cpp:245-249 | an indexed string takes no space; an inline one its length padded to words |
| TraceEngine.SizeOfThreadRef | system/ulib/trace-engine/context.cpp:251-256 | an indexed thread takes no space; an inline or unknown one two words |
| TraceEngine.SizeOfArgValue | system/ulib/trace-engine/context.cpp:258-283 | whole words: nothing for null and 32-bit values, at most a word for other scalars, and the string's size for strings |
| TraceEngine.SizeOfArg | system/ulib/trace-engine/context.cpp:285-289 | an argument takes at least its header word, in whole words |
| TraceEngine.ArgsSize | system/ulib/trace-engine/context.cpp:291-296 | a list of arguments takes whole words, at least one per argument |
| TraceEngine.SizeOfEncodedArgs | system/ulib/trace-engine/context.cpp:291-296 | the loop's total is ArgsSize of the list |
| TraceEngine.Payload.constructor | system/ulib/trace-engine/context.cpp:301-302 | a payload writes into the given memory at the given position |
| TraceEngine.Payload.PrepareWriteBytes | system/ulib/trace-engine/context.cpp:328-338 | the position moves by the padded length, the padding after the bytes is zeroed and nothing outside the reserved words changes |
| TraceEngine.Payload.WriteBytes | system/ulib/trace-engine/context.cpp:340-344 | the bytes are copied to the old position, followed by zero padding to a word; nothing else changes |
| UsbVideo.NextOffsetInRing | system/dev/video/usb-video/usb-video-stream.cpp:657-664 | advancing the write offset by one frame, with a single wrap, is addition modulo the ring size and stays inside the ring |
| UsbVideo.NextOffsetNextSlot | system/dev/video/usb-video/usb-video-stream.cpp:657-664 | in a ring of 30 frame slots, advancing from a slot's start lands on the next slot's start, and the last slot wraps to the first |
| UsbVideo.FrameFitsRing | system/dev/video/usb-video/usb-video-stream.cpp:749-753 | a frame of at most the maximum frame size, written at a slot's start, stays inside the ring, as the debug asserts expect |
| UsbVideo.NewRequests | system/dev/video/usb-video/usb-video-stream.cpp:258-276 | the allocation loop, pushing each new request at the head, leaves the free list newest first |
| UsbVideo.VideoStream.constructor | system/dev/video/usb-video/usb-video-stream.cpp:511-527 | a new stream is stopped with a ring of 30 frame slots and no requests |
| UsbVideo.VideoStream.AllocUsbRequests | system/dev/video/usb-video/usb-video-stream.cpp:242-279 | allocation is BAD_STATE unless stopped and reuses requests that are large enough; otherwise the old free requests are released and 8 new ones are allocated, stopping with NO_MEMORY at the first failure with the allocated size unchanged |
| UsbVideo.VideoStream.QueueRequest | system/dev/video/usb-video/usb-video-stream.cpp:576-582 | the head of the free list goes to the USB stack and the free count drops by one |
| UsbVideo.VideoStream.ReleaseRequest | system/dev/video/usb-video/usb-video-stream.cpp:589-590 | a completed request goes back to the head of the free list and the free count rises by one |
| UsbVideo.VideoStream.QueueAllFree | system/dev/video/usb-video/usb-video-stream.cpp:552-554 | every free request is handed to the USB stack and the free list is left empty |
| UsbVideo.VideoStream.StartStreaming | system/dev/video/usb-video/usb-video-stream.cpp:529-556 | starting is BAD_STATE unless stopped; otherwise the frame state is reset so the first payload starts a frame, a failed interface switch is returned, and on success the stream is started with every free request in flight |
| UsbVideo.VideoStream.StopStreaming | system/dev/video/usb-video/usb-video-stream.cpp:558-574 | stopping is BAD_STATE unless started, and otherwise moves to stopping and returns the interface switch's status |
| UsbVideo.VideoStream.ParsePayloadHeader | system/dev/video/usb-video/usb-video-stream.cpp:634-695 | a short or overlong header is INTERNAL with nothing changed; a toggled frame identifier starts a new, empty frame, counting it and advancing the ring offset only after an error-free frame; the error bit marks the frame bad and gives no header length |
| UsbVideo.VideoStream.ProcessPayload | system/dev/video/usb-video/usb-video-stream.cpp:697-759 | failed or empty responses and unreadable headers change nothing; otherwise the header moves to a new frame and along the ring as ParsePayloadHeader does, a bulk payload's byte count restarts when it reaches the maximum payload size or a short response arrives, and the data of an error-free frame is copied to the end of the frame in the ring, or marks it bad when it would overflow |
| UsbVideo.VideoStream.CountBulk | system/dev/video/usb-video/usb-video-stream.cpp:722-732 | the bulk byte count grows by the response, and returns to 0 when it reaches the maximum payload size or the response is short; isochronous streams leave it alone |
| UsbVideo.VideoStream.AppendData | system/dev/video/usb-video/usb-video-stream.cpp:740-758 | data that would overflow the frame marks it bad with the ring unchanged; otherwise the bytes after the header are copied just after the frame's bytes in the ring, the frame grows by them, and nothing else in the ring changes |
| UsbVideo.VideoStream.Requeue | system/dev/video/usb-video/usb-video-stream.cpp:599-601 | a completed request that is put back and queued again leaves the same requests in flight |
| UsbVideo.VideoStream.RequestComplete | system/dev/video/usb-video/usb-video-stream.cpp:584-602 | when not streaming, the request returns to the free list and the stream becomes stopped once none are in flight, and the frame, buffer, ring slot and counters are unchanged; while streaming, the payload is processed exactly as ProcessPayload states and the request is queued again, leaving the same requests in flight |
| Vcpu.ToBcd | system/ulib/hypervisor/vcpu.c:365-367 | the BCD byte of a number fits in a byte |
| Vcpu.BcdRoundTrip | system/ulib/hypervisor/vcpu.c:365-367 | every number below 100 becomes a valid BCD byte that reads back as the number |
| Vcpu.BcdInjective | system/ulib/hypervisor/vcpu.c:365-367 | two numbers below 100 never share a BCD byte |
| Vcpu.U8 | system/ulib/hypervisor/vcpu.c:376-392 | a value handed to a byte parameter is reduced modulo 256 and left alone when it already fits |
| Vcpu.RtcReadsCalendar | system/ulib/hypervisor/vcpu.c:369-393 | with a valid local time, the seconds, minutes, hours, day, month and year registers read, in BCD, the calendar value (the month counted from 1, the year from 2000) (corrected: the month register counts from 1) |
| Vcpu.RtcMonthInRange | system/ulib/hypervisor/vcpu.c:387-389 | the corrected month register reads a BCD month from 1 to 12 |
| Vcpu.RtcMonthAsWrittenOffByOne | system/ulib/hypervisor/vcpu.c:387-389 | as written, the month register reads one less than the calendar month, and 0 in January |
| Vcpu.RtcControl | system/ulib/hypervisor/vcpu.c:369-407 | no local time is INTERNAL for every register; register A reads 0; register B has the 24-hour flag and the daylight-saving flag exactly when it is in effect; any other register is NOT_SUPPORTED |
| Vcpu.VersionWordEntries | system/ulib/hypervisor/vcpu.c:180-185 | the I/O APIC version word carries the last redirection entry's index in bits 16 and up |
| Vcpu.VersionWordVersion | system/ulib/hypervisor/vcpu.c:180-185 | the version word carries the I/O APIC version in its low byte |
| Vcpu.IoApic.Access | system/ulib/hypervisor/vcpu.c:165-198 | a store to the select register stores the selector and is INVALID_ARGS above 255; through the window a load reads the selected register and a store changes only the id or the one redirection entry selected; anything else is NOT_SUPPORTED and changes nothing |
| Vcpu.PciConfigRead | system/ulib/hypervisor/vcpu.c:200-219 | a configuration read of a device number past the bus reads all ones of the access width, so a vendor ID reads 0xFFFF, which no vendor has; otherwise the device's own read answers |
| Vcpu.PciConfigWrite | system/ulib/hypervisor/vcpu.c:221-232 | a configuration write to a device number past the bus is OUT_OF_RANGE; otherwise the device's own write answers |
| Vcpu.ConfigDataValue | system/ulib/hypervisor/vcpu.c:482-500 | a read of the configuration data port succeeds exactly for the widths 1, 2 and 4, NOT_SUPPORTED otherwise, and sets no bit above the access width |
| Vcpu.Input | system/ulib/hypervisor/vcpu.c:413-537 | a port the handler answers itself succeeds only at its register's width, and every other width is IO_DATA_INTEGRITY (the clock port can fail first without a local time); a configuration data read sets no bit above its width; a port no device claims is NOT_SUPPORTED (corrected: the clock registers are the corrected Rtc, with the month counted from 1) |
| Vcpu.Output | system/ulib/hypervisor/vcpu.c:538-605 | a refused write changes no register, and a write changes at most the one register its port addresses: the RTC index, the i8042 command, the configuration address or PM1 enable |
| Vcpu.OutputStatus | system/ulib/hypervisor/vcpu.c:538-605 | writes to the i8042 data, timer, PIC and PM1 status ports are accepted whatever the devices would answer; the configuration data ports are OUT_OF_RANGE past the bus; a port no device claims is NOT_SUPPORTED |
| Vcpu.IoPorts.HandleInput | system/ulib/hypervisor/vcpu.c:413-537 | a read at a register's own width answers the register as the vCPU holds it, and another width is IO_DATA_INTEGRITY (corrected: the clock registers are the corrected Rtc) |
| Vcpu.AddressPortRoundTrip | system/ulib/hypervisor/vcpu.c:462-469 | a guest reading back the configuration address at the port and width it wrote gets the bytes it wrote |
| Vcpu.AddressPortKeeps | system/ulib/hypervisor/vcpu.c:559-574 | a write to the configuration address leaves the bytes it does not address, and every other port register, as they were |
| Vcpu.AddressPortReadHigh | system/ulib/hypervisor/vcpu.c:462-469 | a read of the configuration address sets no byte of the I/O value above the access width |
| Vcpu.RtcIndexSelects | system/ulib/hypervisor/vcpu.c:447-452 | after the index port selects a clock register, the data port reads that register (corrected: the clock registers are the corrected Rtc, with the month counted from 1) |
| Vcpu.I8042SelfTest | system/ulib/hypervisor/vcpu.c:453-457 | after the self-test command the i8042 data port reads the test response, after any other command 0 |
| Vcpu.WrongWidthRefused | system/ulib/hypervisor/vcpu.c:549-590 | the RTC index, i8042 command and PM1 enable ports refuse any other access width with IO_DATA_INTEGRITY and keep their value |
| Vcpu.DataPortMissingDevice | system/ulib/hypervisor/vcpu.c:470-500 | with the configuration address naming a slot past the bus, the data ports read all ones of the access width and a write is OUT_OF_RANGE changing nothing |
| Vcpu.IoPorts.HandleOutput | system/ulib/hypervisor/vcpu.c:538-605 | the port registers become those the output rules give, with their status |
| Vcpu.FeedKeepsBytes | system/ulib/hypervisor/vcpu.c:655-662 | no byte is lost, duplicated or reordered: the lines written out followed by the bytes left in the buffer are the pending bytes followed by the data |
| Vcpu.FeedLines | system/ulib/hypervisor/vcpu.c:655-662 | every line written out is a full buffer or ends at its first carriage return, and the buffer left over has room for another byte |
| Vcpu.Uart.Transmit | system/ulib/hypervisor/vcpu.c:655-662 | the console receives the lines the feed writes out and the buffer holds what is left |
| Vcpu.Uart.Handle | system/ulib/hypervisor/vcpu.c:645-696 | the transmit port feeds its bytes and raises the transmit-empty interrupt when enabled; the interrupt enable port sets the enable flag and the interrupt id from the byte; the line control port stores its byte; a wrong width on those two is IO_DATA_INTEGRITY, the interrupt id and modem ports are no-ops and any other port is INTERNAL, all changing nothing |
| VmExit.ExitReasonRoundTrip | kernel/arch/x86/hypervisor/vmexit.cpp:53-58 | decoding the exit reason field gives back the basic reason and the entry-failure flag it was made from |
| VmExit.ExitReasonBasic | kernel/arch/x86/hypervisor/vmexit.cpp:56-57 | the basic exit reason is the low 16 bits of the field |
| VmExit.ExitReasonFailure | kernel/arch/x86/hypervisor/vmexit.cpp:58 | the entry-failure flag is bit 31 of the field |
| VmExit.InterruptionIgnoresOtherBits | kernel/arch/x86/hypervisor/vmexit.cpp:80-85 | the interruption information depends only on the vector, type and valid bits |
| VmExit.InterruptionVector | kernel/arch/x86/hypervisor/vmexit.cpp:82 | the vector is the low byte |
| VmExit.InterruptionKind | kernel/arch/x86/hypervisor/vmexit.cpp:83 | the interruption type is bits 8 to 10 |
| VmExit.InterruptionValid | kernel/arch/x86/hypervisor/vmexit.cpp:84 | the valid flag is bit 31 |
| VmExit.IoLowBits | kernel/arch/x86/hypervisor/vmexit.cpp:87-91 | the size and flag bits of an I/O qualification fit in its low 6 bits |
| VmExit.PortOverLowBits | kernel/arch/x86/hypervisor/vmexit.cpp:87-92 | the port field in bits 16 to 31 and the low bits do not overlap |
| VmExit.DecodeIoOk | kernel/arch/x86/hypervisor/vmexit.cpp:87-93 | every qualification decodes to an access size from 1 to 8 |
| VmExit.IoRoundTrip | kernel/arch/x86/hypervisor/vmexit.cpp:87-93 | decoding an encoded I/O qualification gives back the access size, direction, string and repeat flags and port |
| VmExit.IoSizeField | kernel/arch/x86/hypervisor/vmexit.cpp:88 | the access size is the low 3 bits plus one |
| VmExit.LowSize | kernel/arch/x86/hypervisor/vmexit.cpp:88 | the low bits carry the access size minus one |
| VmExit.IoFlagFields | kernel/arch/x86/hypervisor/vmexit.cpp:89-91 | the direction, string and repeat flags are bits 3, 4 and 5 |
| VmExit.LowFlags | kernel/arch/x86/hypervisor/vmexit.cpp:89-91 | the low bits carry the direction, string and repeat flags |
| VmExit.IoPortField | kernel/arch/x86/hypervisor/vmexit.cpp:92 | the port is bits 16 to 31 |
| VmExit.IoEncodeDecode | kernel/arch/x86/hypervisor/vmexit.cpp:87-93 | decoding keeps exactly the bits the I/O qualification defines: re-encoding gives the qualification with every other bit cleared |
| VmExit.DecodeApicAccessOk | kernel/arch/x86/hypervisor/vmexit.cpp:95-98 | every qualification decodes to an offset below 4096 and an access type below 16 |
| VmExit.ApicAccessRoundTrip | kernel/arch/x86/hypervisor/vmexit.cpp:95-98 | decoding an encoded APIC-access qualification gives back its offset and access type |
| VmExit.ApicOffsetField | kernel/arch/x86/hypervisor/vmexit.cpp:96 | the offset is the low 12 bits |
| VmExit.ApicTypeField | kernel/arch/x86/hypervisor/vmexit.cpp:97 | the access type is bits 12 to 15 |
| VmExit.ApicEncodeDecode | kernel/arch/x86/hypervisor/vmexit.cpp:95-98 | decoding keeps exactly the low 16 bits of the qualification |
| VmExit.EptFaultFromQualification | kernel/arch/x86/hypervisor/vmexit.cpp:592-599 | the page fault is flagged not present exactly when bits 3 to 5 of the qualification are all clear, and a write exactly when bit 1 is set |
| VmExit.LocalApic.SetPending | kernel/arch/x86/hypervisor/vmexit.cpp:124-129 | the interrupt becomes pending and no other changes |
| VmExit.LocalApic.Pop | kernel/arch/x86/hypervisor/vmexit.cpp:113-122 | with nothing pending, nothing changes and none is returned; otherwise the highest pending interrupt is returned and cleared, and no other changes |
| VmExit.LocalApic.Scan | kernel/arch/x86/hypervisor/vmexit.cpp:116 | the first set bit of the bitmap, every earlier bit being clear, or the bitmap's size when none is set |
| VmExit.LocalApic.MaybeInterrupt | kernel/arch/x86/hypervisor/vmexit.cpp:140-153 | with interrupts enabled the highest pending interrupt is injected and cleared, never asking for an interrupt window; with interrupts disabled nothing is injected, the pending set stays, and a window is requested exactly when something is pending |
| VmExit.LocalApic.IssueInterrupt | kernel/arch/x86/hypervisor/vmexit.cpp:132-138 | the highest pending interrupt is injected and cleared, or, when none is pending, nothing changes |
| VmExit.Xcr0Checks | kernel/arch/x86/hypervisor/vmexit.cpp:617-625 | the XCR0 checks refuse a value exactly when it is not valid: a bit the processor does not support, x87 state off, or AVX state without SSE state |
| VmExit.XsetbvIff | kernel/arch/x86/hypervisor/vmexit.cpp:603-630 | XSETBV succeeds exactly when the guest enabled OSXSAVE, writes XCR0 (ecx 0), the processor's leaf could be read and the value is valid; on success XCR0 takes EDX:EAX |
| VmExit.UnsupportedBits | kernel/arch/x86/hypervisor/vmexit.cpp:620 | a value is unsupported exactly when it sets a bit outside the supported mask |
| VmExit.X87Bit | kernel/arch/x86/hypervisor/vmexit.cpp:622 | x87 state is off exactly when bit 0 is clear |
| VmExit.AvxBits | kernel/arch/x86/hypervisor/vmexit.cpp:624 | AVX without SSE is bit 2 set with bit 1 clear |
| VmExit.Xcr0Low | kernel/arch/x86/hypervisor/vmexit.cpp:619 | the low 32 bits of the new XCR0 come from EAX |
| VmExit.Xcr0High | kernel/arch/x86/hypervisor/vmexit.cpp:619 | the high 32 bits of the new XCR0 come from EDX |
| VmExit.XsaveSizeFromAtLeast | kernel/arch/x86/hypervisor/vmexit.cpp:194-209 | when the processor lays components out after the legacy region and the header, the size computed never falls below them |
| VmExit.ComponentEndAtLeast | kernel/arch/x86/hypervisor/vmexit.cpp:204-206 | a component placed after the legacy region and header ends after them |
| VmExit.XsaveSizeAtLeast | kernel/arch/x86/hypervisor/vmexit.cpp:194-209 | when the processor lays components out after the legacy region and the header, the XSAVE area is never smaller than 576 bytes |
| VmExit.XsaveSizeFromNoneEnabled | kernel/arch/x86/hypervisor/vmexit.cpp:196-199 | with no extended component enabled the size stays the legacy region plus the header |
| VmExit.ComputeXsaveSize | kernel/arch/x86/hypervisor/vmexit.cpp:194-209 | the loop returns the end of the last enabled component with a non-empty leaf (the legacy region and header when there is none), or INTERNAL when the leaf of an enabled component cannot be read |
| VmExit.GuestState.HandleXsetbv | kernel/arch/x86/hypervisor/vmexit.cpp:603-630 | a refused XSETBV returns its error and leaves XCR0 and the instruction pointer; an accepted one sets XCR0 to EDX:EAX and moves past the instruction; the general registers never change |
| VmExit.GuestState.HandleIo | kernel/arch/x86/hypervisor/vmexit.cpp:300-333 | a string or repeated I/O instruction is NOT_SUPPORTED and a missing trap returns the trap status, both leaving the guest untouched; otherwise the guest moves past the instruction and a packet names the port, size and direction; a 4-byte input clears RAX, an output carries RAX's low bytes and is queued when the trap has a port, and NEXT is returned otherwise |
| VmExit.IoInstructionFields | kernel/arch/x86/hypervisor/vmexit.cpp:304-324 | bits 4 and 5 of the qualification mark the string and repeat forms, and the low nibble 0xB marks a 4-byte input |
| Xhci.RouteField | system/dev/usb/xhci/xhci-device-manager.c:48-49 | the route string read from a slot context is 20 bits |
| Xhci.FirstFreeTier | system/dev/usb/xhci/xhci-device-manager.c:50-58 | the search stops at a 4-bit tier below bit 20 whose nibble is zero, or at bit 20 when none is |
| Xhci.FirstFreeTierSkips | system/dev/usb/xhci/xhci-device-manager.c:50-58 | every tier the search passes over is taken by a non-zero nibble |
| Xhci.SetTier | system/dev/usb/xhci/xhci-device-manager.c:54 | writing the port into a free tier sets that nibble to the port's low four bits and leaves every other nibble alone |
| Xhci.ChildRouteSkipsTaken | system/dev/usb/xhci/xhci-device-manager.c:41-60 | a child's port goes into the first free tier of its hub's route, and a hub whose five tiers are all taken passes its own route on unchanged |
| Xhci.ChildRouteSetsTier | system/dev/usb/xhci/xhci-device-manager.c:41-60 | when the hub's route has a free tier, the child's route holds the port there and agrees with the hub's route in every other tier |
| Xhci.ChildRouteFits | system/dev/usb/xhci/xhci-device-manager.c:41-60 | a child's route string still fits in the 20-bit field |
| Xhci.ChildStaysIn20Bits | system/dev/usb/xhci/xhci-device-manager.c:54 | putting a port into a tier below bit 20 keeps a 20-bit route within 20 bits |
| Xhci.GetRouteString | system/dev/usb/xhci/xhci-device-manager.c:41-60 | a device on the root hub has route 0, any other device its hub's route with its port in the first free tier |
| Xhci.Log2 | system/dev/usb/xhci/xhci-device-manager.c:199 | LOG2 of a positive number is the exponent of the largest power of two not above it |
| Xhci.Clamp | system/dev/usb/xhci/xhci-device-manager.c:198 | BOUNDS_CHECK keeps a value within the bounds and leaves a value already within them alone |
| Xhci.ComputeIntervalAsWritten | system/dev/usb/xhci/xhci-device-manager.c:201-236 | wherever the source's LOG2 is defined, compute_interval as written agrees with the corrected interval |
| Xhci.ZeroNakRateUndefinedAsWritten | system/dev/usb/xhci/xhci-device-manager.c:205-207 | a high-speed bulk endpoint with a NAK rate of 0 makes the source take LOG2 of 0 |
| Xhci.IntervalNakRate | system/dev/usb/xhci/xhci-device-manager.c:205-211 | a high-speed control or bulk endpoint with a non-zero NAK rate gets the largest power-of-two exponent not above it, at most 7; every other control or bulk endpoint gets 0 |
| Xhci.IntervalSlowInterrupt | system/dev/usb/xhci/xhci-device-manager.c:215-229 | a low- or full-speed interrupt endpoint polls at the largest power of two of 125 microsecond units not above its bInterval in milliseconds (clamped to 1..255), an exponent from 3 to 10 |
| Xhci.IntervalFullIsochronous | system/dev/usb/xhci/xhci-device-manager.c:218-226 | a full-speed isochronous endpoint's period of 2^(bInterval-1) frames, with bInterval clamped to 1..16, is converted to 125 microsecond units, an exponent from 3 to 18 |
| Xhci.IntervalFastPeriodic | system/dev/usb/xhci/xhci-device-manager.c:218-235 | a high- or super-speed periodic endpoint takes bInterval, clamped to 1..16, less one; an undefined speed gives 0 |
| Xhci.Pow2Plus3 | system/dev/usb/xhci/xhci-device-manager.c:223 | adding 3 to the exponent converts milliseconds to 125 microsecond units |
| Xhci.Log2Below | system/dev/usb/xhci/xhci-device-manager.c:199 | LOG2 of a number below 2^n is below n |
| Xhci.Ep0MaxPacket | system/dev/usb/xhci/xhci-device-manager.c:296-316 | below super speed the ep0 max packet size is one the speed allows, a legal reported size is kept and an illegal full-speed one becomes 8; at super speed the reported value is an exponent |
| Xhci.Ep0MaxPacketIdempotent | system/dev/usb/xhci/xhci-device-manager.c:296-316 | below super speed the fixed-up size fits in a byte and a second fix-up keeps it |
| Xhci.FindEnumerate | system/dev/usb/xhci/xhci-device-manager.c:770-778 | the search finds the first queued ENUMERATE for the hub and port, having passed only other commands |
| Xhci.EnumerateThenDisconnect | system/dev/usb/xhci/xhci-device-manager.c:760-782 | a device that disconnects while its ENUMERATE is still queued leaves the queue as it was before the ENUMERATE |
| Xhci.AfterDisconnectShape | system/dev/usb/xhci/xhci-device-manager.c:765-782 | a disconnect either withdraws exactly one pending ENUMERATE, keeping every other command, or appends one DISCONNECT when none is pending |
| Xhci.DeviceManager.constructor | system/dev/usb/xhci/xhci-device-manager.c:662-709 | the command queue starts empty |
| Xhci.DeviceManager.QueueCommand | system/dev/usb/xhci/xhci-device-manager.c:711-749 | a command is added at the tail of the queue |
| Xhci.DeviceManager.DeviceDisconnected | system/dev/usb/xhci/xhci-device-manager.c:765-782 | the disconnect reports OK and leaves the queue with the first matching ENUMERATE removed, or with a DISCONNECT appended |
| Xhci.DeviceManager.TakeCommand | system/dev/usb/xhci/xhci-device-manager.c:670-683 | the device thread takes the head of the queue, or nothing from an empty queue |
| Xhci.CompleteAll | system/dev/usb/xhci/xhci-device-manager.c:382-389 | every request is completed, in order, with the given status |
| Xhci.Endpoint.constructor | system/dev/usb/xhci/xhci-device-manager.c:347-351 | an endpoint starts with the given state and request lists |
| Xhci.Endpoint.StopEndpoint | system/dev/usb/xhci/xhci-device-manager.c:347-392 | stopping into RUNNING is INTERNAL and a non-running endpoint is BAD_STATE, both with nothing changed; a failed stop command is INTERNAL with the new state kept; otherwise the endpoint takes the new state and completes all pending and then all queued requests with the given status |
| Xhci.StopCompletesEach | system/dev/usb/xhci/xhci-device-manager.c:382-389 | stopping completes each request exactly once |
| Xhci.DisableSlotAsWritten | system/dev/usb/xhci/xhci-device-manager.c:238-256 | as written, releasing a slot keeps its speed |
| Xhci.DisableSlotKeepsSpeed | system/dev/usb/xhci/xhci-device-manager.c:255 | a released high-speed slot is not in the never-addressed state |
| Xhci.DisableSlotFrees | system/dev/usb/xhci/xhci-device-manager.c:238-256 | with the speed reset where it belongs, releasing returns any slot to the never-addressed state |
| Zbi.GroupFilter.constructor | system/host/zbi/zbi.cpp:565 | a new filter allows every group |
| Zbi.GroupFilter.SetFilter | system/host/zbi/zbi.cpp:567-578 | "all" allows every group; any other text allows exactly the pieces between its commas |
| Zbi.SplitFirst | system/host/zbi/zbi.cpp:571-574 | each step of the loop adds the text before the first comma and continues after it |
| Zbi.FilterListsNames | system/host/zbi/zbi.cpp:567-578 | a filter written as a comma-separated list of comma-free names allows exactly those names |
| Zbi.GroupedEntryRejectedAsWritten | system/host/zbi/zbi.cpp:660-675 | with a filter naming just "name", the line "{name}=source" is rejected, because the group looked up keeps its opening brace |
| Zbi.GroupedEntryAllowed | system/host/zbi/zbi.cpp:660-675 | the corrected check allows that line, with the target starting right after the closing brace |
| Zbi.GroupedLine | system/host/zbi/zbi.cpp:666-667 | in "{name}=source" the closing brace is found right after the name |
| Zbi.AllowEntryMeans | system/host/zbi/zbi.cpp:660-675 | fatal exactly when a line opens a group without closing it before '='; an ungrouped line is allowed only by a filter allowing all; a grouped one is allowed exactly when the name between the braces is allowed, and then the target starts after the brace (corrected: the group name is looked up without its brace) |
| Zbi.ParseLineMeans | system/host/zbi/zbi.cpp:617-651 | a line without '=' is fatal; an allowed line yields the prefix and the text before '=' as the target and the text after it as the source (corrected: on the corrected AllowEntry, which looks the group name up without its brace) |
| Zbi.ManifestReader.constructor | system/host/zbi/zbi.cpp:607-613 | the reader starts at the beginning of the manifest text |
| Zbi.ManifestReader.Next | system/host/zbi/zbi.cpp:617-651 | the next allowed entry and the position after its line, as NextSpec reads the lines in order; fatal for a missing newline or '=' (corrected: on the corrected AllowEntry) |
| Zbi.StripLeadingSlashes | system/host/zbi/zbi.cpp:1353-1355 | the result is a suffix with no leading slash, and only slashes were removed |
| Zbi.PrefixKeepsDoubleSlashAsWritten | system/host/zbi/zbi.cpp:1350-1366 | the option "a//" becomes the prefix "a//", since only one trailing slash is removed |
| Zbi.NormalizePrefix | system/host/zbi/zbi.cpp:1350-1366 | fatal exactly for a non-empty option made only of slashes; empty stays empty; otherwise the option's core between leading and trailing slashes followed by exactly one slash |
| Zbi.TotalSize | system/host/zbi/zbi.cpp:775-777 | an item takes its header plus its payload rounded up to the ZBI alignment |
| Zbi.ImportCheck | system/host/zbi/zbi.cpp:1159-1176 | a file is imported exactly when it is longer than two headers, starts with a container header and the container length matches the file and is aligned; it is passed over exactly when it is too short or not a container; otherwise fatal |
| Zbi.ItemPositions | system/host/zbi/zbi.cpp:1177-1185 | the first item follows the container header, each next one follows the previous one's TotalSize while inside the file, all aligned, and the last one reaches the end |
| Zbi.ExtendWalk | system/host/zbi/zbi.cpp:1181-1185 | stepping past an item that ends inside the file extends the walk |
| Zbi.IncompleteImage | system/host/zbi/zbi.cpp:1192-1214 | an image is complete exactly when its first item is a kernel of the requested architecture (or any) and it holds exactly one BOOTFS item; otherwise the reason |
| Zbi.PageAlign | system/host/zbi/zbi.cpp:1005-1020 | rounding up to the BOOTFS page size |
| Zbi.DirentSize | system/host/zbi/zbi.cpp:997-1042 | a directory entry, fixed part and name, padded to 4 bytes |
| Zbi.BodySize | system/host/zbi/zbi.cpp:1005-1006 | the body is whole pages |
| Zbi.BodySizeMono | system/host/zbi/zbi.cpp:1005-1006 | the body of the first files is no larger than the whole body |
| Zbi.MeasureFiles | system/host/zbi/zbi.cpp:993-1013 | fatal exactly when some file is larger than 32 bits; otherwise the directory and body sizes of all files |
| Zbi.PlaceDirents | system/host/zbi/zbi.cpp:1032-1047 | one entry per file holding its name length with terminator, its data length, and a data offset running on from the header by each earlier file's page-rounded data |
| Zbi.ExtendDirents | system/host/zbi/zbi.cpp:1032-1047 | the next file's entry extends the entries |
| Zbi.BodySizeStep | system/host/zbi/zbi.cpp:1005-1006 | the body of one more file adds its page-rounded data |
| Zbi.OffsetsChain | system/host/zbi/zbi.cpp:1038-1040 | offsets from a page-aligned header are page aligned and each file's page-rounded data ends where the next one's begins |
| Zbi.DirentsChain | system/host/zbi/zbi.cpp:1032-1048 | every data offset is page aligned and each file's data ends where the next file's starts, the last at the end of the image |
| Zbi.BootfsLayout | system/host/zbi/zbi.cpp:978-1048 | fatal exactly for a file over 32 bits or an image over 32 bits; otherwise the header and directory take whole pages and the files' data follow back to back on page boundaries, ending at the image length |
| Zxcrypt.CheckBlock | system/dev/block/zxcrypt/device.cpp:364-394 | other commands go to the parent; empty I/O completes with OK; an end past 2^64-1 is INVALID_ARGS; a range not wholly inside the device is OUT_OF_RANGE; everything else is admitted |
| Zxcrypt.FindRun | system/dev/block/zxcrypt/device.cpp:514-519 | the bitmap search finds the lowest run of clear bits inside the bounds, and finds nothing only when no such run exists |
| Zxcrypt.WrapSearchMissesStraddlingWindow | system/dev/block/zxcrypt/device.cpp:514-519 | on an all-clear map of 4 with the last reservation ending at 2, a request for 4 finds nothing though the whole map is free |
| Zxcrypt.WrapSearchFinds | system/dev/block/zxcrypt/device.cpp:504-531 | the reserved window is clear and the first that fits going round from the end of the last reservation; nothing is found only when no free window of the length exists |
| Zxcrypt.SetRange | system/dev/block/zxcrypt/device.cpp:522-536 | exactly the bits of the window take the new value |
| Zxcrypt.ReleaseUndoesAcquire | system/dev/block/zxcrypt/device.cpp:522-536 | clearing a window that was reserved from clear bits restores the bitmap |
| Zxcrypt.RetryAsWrittenSpins | system/dev/block/zxcrypt/device.cpp:457-468 | when the head request cannot get a window, a pass of the retry loop as written changes nothing and asks for another pass |
| Zxcrypt.RetryPassProgresses | system/dev/block/zxcrypt/device.cpp:457-468 | the corrected pass either takes the head off the queue or ends the loop with the queue unchanged |
| Zxcrypt.Device.constructor | system/dev/block/zxcrypt/device.cpp:55-80 | a new device is inactive, with no tasks, an all-clear bitmap and an empty queue |
| Zxcrypt.Device.AddTask | system/dev/block/zxcrypt/device.cpp:486-494 | BAD_STATE when inactive; otherwise one more task; nothing else changes |
| Zxcrypt.Device.FinishTask | system/dev/block/zxcrypt/device.cpp:496-502 | one task fewer; the device is removed when the count reaches 0 |
| Zxcrypt.Device.Init | system/dev/block/zxcrypt/device.cpp:82-198 | the device becomes active and holds one task of its own |
| Zxcrypt.Device.Unbind | system/dev/block/zxcrypt/device.cpp:308-322 | the device is inactive and its own task is finished |
| Zxcrypt.Device.FindClearRun | system/dev/block/zxcrypt/device.cpp:514-519 | the result is FindRun's window, NO_RESOURCES when there is none |
| Zxcrypt.Device.AcquireBlocks | system/dev/block/zxcrypt/device.cpp:504-531 | BAD_STATE when inactive; NO_RESOURCES when no window is free, dropping the count it added; otherwise the first window going round from the last reservation is set, the new task stays counted and the next search starts after it (corrected: the second search is the corrected WrapSearch, over the whole map from its start) |
| Zxcrypt.Device.ReleaseBlocks | system/dev/block/zxcrypt/device.cpp:533-542 | exactly the window is cleared (one past the end is left alone) and the request's task finishes |
| Zxcrypt.Device.EnqueueBlock | system/dev/block/zxcrypt/device.cpp:576-586 | the request joins the tail of the queue |
| Zxcrypt.Device.DequeueBlock | system/dev/block/zxcrypt/device.cpp:588-600 | the head request leaves the queue; nothing when it is empty |
| Zxcrypt.Device.RequeueBlock | system/dev/block/zxcrypt/device.cpp:602-610 | the request goes back to the head of the queue |
| Zxcrypt.Device.BlockQueue | system/dev/block/zxcrypt/device.cpp:360-409 | a request is forwarded, completed with CheckBlock's status, started in the window WrapSearch picks, deferred to the tail when none is free, or refused with BAD_STATE when the device is inactive (corrected: on the corrected WrapSearch) |
| Zxcrypt.Device.RetryDeferred | system/dev/block/zxcrypt/device.cpp:457-468 | the loop ends: the requests handled are a prefix of the queue taken in order, none of them left waiting for a window, and the rest keep their order; an inactive device empties the queue |
| Zxcrypt.Device.BlockRelease | system/dev/block/zxcrypt/device.cpp:446-469 | the finished window is released, then the deferred requests are retried in order from the head (corrected: the retry pass is the corrected RetryDeferred, which stops when the head has to wait again) |

## Left out

Across the model:
- Concurrency is sequential: locks, atomics, threads, IPIs and TLB flushes are not modelled, and each operation runs alone.
- Status codes are named values (`ZxStatus.Status`), not their integer encodings.
- Fvm.PlanTxn: does not model two failures of the split path: allocating the multi-transfer state (ERR_NO_MEMORY) and cloning a piece.

### Fvm
- Load, WriteFvmLocked and FindFreeVPartEntryLocked are left out. The metadata write's outcome is the `writeStatus` parameter, and the device sync before a free is `syncStatus`.
- The other ioctls and the VPartition transaction plumbing are left out.
- Fvm.PlanTxn: uses the corrected FirstPieceLength, the rest of the slice the transfer starts in; as written (PieceLengthsAsWritten) a slice-aligned offset gives an empty first piece and a last piece that runs past its slice.
- Fvm.SplitLoop: builds the corrected split, whose first piece is the rest of its slice; as written (PieceLengthsAsWritten) a slice-aligned offset gives an empty first piece and a last piece that runs past its slice.
- Fvm.SplitStep: appends the corrected SplitPiece, so every piece stays inside its slice even for a slice-aligned offset.
- Fvm.SplitPiece: the first piece is the corrected FirstPieceLength, sliceSize - offset % sliceSize, where the source's roundup(offset, slice_size) - offset is 0 for a slice-aligned offset.
- Fvm.MiddleOffset: adds the corrected first piece length, a whole slice for a slice-aligned offset, where the source adds the first piece's length of 0.
- Fvm.PlanTxn: virtual slice numbers are unbounded; the source casts offset / slice_size to uint32_t, which would truncate past 2^32 slices.
- Fvm.VPartitionManager.AllocateSlices: the virtual slice start is unbounded; the source casts the request offset to uint32_t.

### Zxcrypt
- The queue of deferred requests is a sequence; the intrusive linked list is not modelled.
- ProcessBlock, the cryptography and the worker threads are left out.
- Zxcrypt.Device.AcquireBlocks: uses the corrected WrapSearch, which searches the whole map from its start; as written (WrapSearchAsWritten) the second search covers only the blocks before the last reservation.
- Zxcrypt.Device.BlockQueue: picks its window with the corrected WrapSearch.
- Zxcrypt.Device.BlockRelease: retries with the corrected RetryDeferred, which stops the pass when the head has to wait again; as written (RetryPassAsWritten) the pass can spin for ever.

### TraceEngine
- The constants of the trace-engine headers are constructor parameters: maximum indexes, maximum record size, durable buffer size and the offset-plus-counter layout.
- IsOtherRollingBufferReady's body is not among these files. It is modelled as "the other buffer's full mark is 0".
- The consistency snap in StreamingBufferFullCheck is left out.
- The bytes of the records are not modelled; record sizes are.
- TraceEngine.ThreadCache.CacheStringEntry: entries are keyed by the literal's content; the source compares the literal's pointer, so two equal literals at different addresses share one entry here and get two there.

### Zbi
- Reading and writing files, compression, CRC computation and the output stream are left out. Their sizes and checks are modelled.
- Zbi.AllowEntryMeans: states the corrected AllowEntry, which looks the group name up without its opening brace; as written (AllowEntryAsWritten) a grouped entry is looked up with the brace.
- Zbi.ParseLineMeans: built on the corrected AllowEntry.
- Zbi.ManifestReader.Next: filters with the corrected AllowEntry.
- Zbi.ItemPositions: positions are unbounded; the source keeps them in uint32_t, which would wrap past 4 GiB of output.

### Mkbootfs
- The manifest is given as its lines; fgets' split of a line longer than 4095 bytes into several is not modelled.
- Host file examination is the `sizeOf` parameter.
- Copying the file data into the image is left out.
- Mkbootfs.Fs.ImportManifest: the header size is unbounded; the source accumulates it in an `unsigned`, and keeps entry offsets and lengths in uint32_t, which would wrap.

### FidlFlat
- The lexer, the parser and the code generators are not part of this model. The raw declarations are given as datatypes.
- FidlFlat.FidlUnionShape: built on the corrected StructShape, which pads the size to the alignment; as written (StructShapeAsWritten) the tag-and-union struct is not padded.
- FidlFlat.FidlUnionLayout: states the layout of the corrected, padded StructShape.
- FidlFlat.FidlUnionTypeShape: computes the corrected, padded shape.
- FidlFlat.ResolveStruct: resolves to the corrected, padded StructShape.
- FidlFlat.ResolveUnion: resolves to the FidlUnionShape built on the corrected StructShape.
- FidlFlat.ResolveAggregate: uses the corrected, padded shapes.
- FidlFlat.StructShape: sizes, offsets and alignments are unbounded; the wrap-around of the source's size_t arithmetic, and of the uint32 counts, on huge arrays is not modelled.

### Minfs
- Block I/O, the block and inode bitmaps, and copying file data are left out.
- The vnode behind a directory entry is a parameter (`VnodeInfo`).
- Minfs.Directory.Append: inode.size and inode.seq_num are unbounded; the source's uint32_t fields would wrap, though the size stays below maxDirectorySize, which is below 2^32.
- Minfs.Directory.UnlinkAt: seq_num is unbounded, as for Append.
- Minfs.Directory.FsUnlink: the ERR_NOT_SUPPORTED of a vnode that is not a directory is not modelled; the vnode is always a Directory.
- Minfs.Directory.Unlink: a record header that would be read past the directory's size is not modelled; the records are taken to fill the directory.
- Write and truncate I/O failures of directory updates are not modelled.

### Memfs
- dnode.c is not part of this model: lookup is a plain child lookup, and dn_create's type flag is a parameter.
- A VMO is its bytes, in whole pages. A failure to create or resize one is the `vmoOk` parameter, and a failure of Truncate's zeroing write is the `writeOk` parameter.
- Memfs.Namespace.PickName: the per-directory counter is unbounded; the source's unsigned seqcount_ wraps at 2^32, where the names would jump from 295 back to 000.
- Memfs.VnodeFile.Write: a failure of the write into the VMO itself, after its creation or growth, is not modelled; the write into a VMO of the right size is taken to succeed.

### Pci
- The ECAM accessors, the trap handler, interrupt delivery and bus initialisation are left out.
- SetupBarTraps's status is the `traps` parameter.

### Vcpu
- The number of IO APIC redirect entries is a parameter.
- The port numbers come from a header that is not part of this model; ports are named by what they address.
- The instruction decoder is not part of this model. A mismatched access direction is taken as ERR_NOT_SUPPORTED.
- These handlers are left out: the local APIC, PCI MMIO, memory, virtio block, the FIFO/UART loop, the vCPU loop, and state read/write.
- Vcpu.RtcReadsCalendar: states the corrected Rtc, whose month register counts from 1; as written (RtcAsWritten) it reads tm_mon, counted from 0.
- Vcpu.RtcIndexSelects: the data port reads the corrected Rtc.
- Vcpu.Input: the clock port reads the corrected Rtc.
- Vcpu.IoPorts.HandleInput: the clock port reads the corrected Rtc.

### VmExit
- The CPUID leaf 0xD read used by XSETBV is the `supported` parameter.
- Exit handlers other than those listed in the module's description are left out.

### Mmu
- These are left out: the multi-level walks (including SplitLargePage, GetMapping and QueryVaddr's walk), TLB invalidation, IPIs and the physical memory manager.
- The virtual and physical address widths are parameters.
- Several other inputs are parameters: the per-table terminal flags, the table walk's status in MapPages/UnmapPages/ProtectPages, and the result of IsValidVaddr.

### DpDisplay
- The register polling of SendDpAuxMsg is the `Channel` parameter.
- A failed read returns None. Bytes already copied into the caller's buffer are not modelled.
- These are left out: the link-training stages, DpcdReadPairedRegs, the I2C and DPCD wrappers, and the display initialisation.
- An I2C_DEFER reply counts as a failure, as in the source.

### Xhci
- These are left out: address_device, the enumeration flow, reset_endpoint, cancel_transfers and the slot search of disconnect handling.
- Also left out: root-hub port mapping, allocation failure in queue_command, enable_endpoint, configure_hub and the device thread's dispatch.
- Xhci.Ep0MaxPacket: a SuperSpeed size is 2 to the power bMaxPacketSize0, unbounded; the source's int shift `1 << mps` is undefined from an exponent of 31 on.

### UsbVideo
- These are left out:
  - ParseHeaderTimestamps, which only logs;
  - SetFormat and bandwidth selection;
  - the VMO creation of CreateDataVideoBuffer, because the buffer exists from construction;
  - the ring-buffer notifications.
- StartStreaming's check that a video buffer exists is therefore not modelled.
- The request counters go stale after AllocUsbRequests releases the free list. This is modelled as written.
- UsbVideo.VideoStream.ProcessPayload: the frame count and the byte counts are unbounded; the source's uint32_t counters wrap at 2^32.

### AmlRawNand
- These are left out: the hardware-ECC page read and write (DMA command sequences), the interrupt thread, page-0 initialisation, bind, buffer allocation, and the query/queue stubs.
- The register header is not part of this model. The ECC modes and the info-buffer layout are named values of the Amlogic layout.
- ECC_CHECK_RETURN_FF is taken as -1. Only its sign matters to the caller.
- The chip-table lookup is an `Option` parameter.

### AmlSdEmmc
- AmlSdEmmc.SdEmmc.SetBusFreq: requires `freq > 0`. For 0 the source has only a note about disabling the clock, and its divide by the unclamped frequency divides by zero.
- The register header (aml-sd-emmc.h) is not part of this model. Its masks and frequencies are named constants of the Amlogic layout.
- These are left out: hardware reset, building request commands and descriptors, the busy-wait, data copies, tuning and the interrupt path.

### PerfMon
- Several inputs are constructor parameters: the CPUID performance-monitoring leaf, IA32_PERF_CAPABILITIES and the CPU count.
- Allocation success and the buffer-mapping status are parameters.
- These are left out: the PMI handler, the per-CPU start/stop tasks, buffer mapping and unmapping, and record writing.
- PerfMon.InitialValue: the sample frequency is any natural up to the counter's maximum; the source holds it in a uint32_t.

### IntelPm
- The loop of fixed_to_config is written in closed form (`FixedGlobal`, `FixedCtrl`).
- The category tables (.inc files) are a parameter.
- The reply of get_buffer_info is never filled in, as in the source, and is not modelled.

### InstallFuchsia
- The EFI and system partition type GUIDs are parameters, because gpt.h is not part of this model.
- These are left out: find_partition_path's directory scan, unmount_all, write_partition (with its LZ4 decompression), reading the GPT, and main's loop.
- InstallFuchsia.SelectForInstall: built on the corrected FindInstallEfi, which continues after the absolute index of a skipped match; as written (EfiRoundAsWritten) two usable EFI partitions make the search loop forever.

### Runtests
- Runtests.ParseTestNames: requires a non-empty input. For "" the source's count loop reads past the terminator.
- stat and mkdir are parameters.
- Running tests, globbing and the environment variable are left out.
- Runtests.Tokenize: models the corrected loop, in which a missing first token fails like the later ones; as written (ParseTestNamesAsWritten) the first strtok_r result is stored unchecked.

## Findings

| source | as written | input that shows it | evidently intended | confidence | as-written member | corrected member |
|---|---|---|---|---|---|---|
| system/dev/block/zxcrypt/device.cpp:457-468 | after a release, a deferred request that gets ERR_NO_RESOURCES is requeued at the head; the `break` leaves only the `switch`, so the `while` dequeues the same request again | a deferred request longer than the whole block map: each pass leaves map, `last_` and queue unchanged, so the loop never ends | stop the retry pass when the head has to wait again | not executed | Zxcrypt.RetryPassAsWritten, Zxcrypt.RetryAsWrittenSpins | Zxcrypt.Device.RetryDeferred, Zxcrypt.RetryPassProgresses |
| system/dev/block/zxcrypt/device.cpp:514-519 | the second search covers only `[0, last_)`, so a free window that straddles `last_` is never found | an all-clear map of 4 blocks, `last_` = 2, a request for 4 blocks: no window is found | search the whole map from its start when `[last_, end)` has no room | not executed | Zxcrypt.WrapSearchAsWritten, Zxcrypt.WrapSearchMissesStraddlingWindow | Zxcrypt.WrapSearch, Zxcrypt.WrapSearchFinds |
| system/host/zbi/zbi.cpp:660-675 | the group name of a `{group}target=source` entry is looked up with its opening brace | filter `name`, entry `{name}=source`: the entry is rejected | look up the name between the braces | not executed | Zbi.AllowEntryAsWritten, Zbi.GroupedEntryRejectedAsWritten | Zbi.AllowEntry, Zbi.GroupedEntryAllowed |
| system/host/zbi/zbi.cpp:1350-1366 | only one trailing slash is removed before one is appended | `--prefix a//` keeps the prefix `a//` | exactly one trailing slash | not executed | Zbi.NormalizePrefixAsWritten, Zbi.PrefixKeepsDoubleSlashAsWritten | Zbi.NormalizePrefix |
| system/host/fidl/lib/flat_ast.cpp:56-67 | the C struct size is the end of the last member, not rounded up to the struct's alignment | members uint64 then uint8: size 9, alignment 8 | size padded to a multiple of the alignment (16 here), as C lays the struct out | not executed | FidlFlat.StructShapeAsWritten, FidlFlat.StructTailNotPaddedAsWritten | FidlFlat.StructShape, FidlFlat.CStructTypeShape |
| system/ulib/hypervisor/vcpu.c:387-389 | the RTC month register is `to_bcd(tm_mon)`, and `tm_mon` counts months from 0 | any date in January reads month 0 | `to_bcd(tm_mon + 1)`, a month in 1..12 | not executed | Vcpu.RtcAsWritten, Vcpu.RtcMonthAsWrittenOffByOne | Vcpu.Rtc, Vcpu.RtcMonthInRange |
| system/dev/usb/xhci/xhci-device-manager.c:205-207 | a high-speed control or bulk endpoint gets `LOG2(bInterval)`, undefined for a NAK rate of 0 | a high-speed bulk endpoint with bInterval 0 | Interval 0 for a NAK rate of 0 | not executed | Xhci.ComputeIntervalAsWritten, Xhci.ZeroNakRateUndefinedAsWritten | Xhci.ComputeInterval, Xhci.IntervalNakRate |
| system/dev/usb/xhci/xhci-device-manager.c:250-256 | `xhci_disable_slot` writes USB_SPEED_UNDEFINED into the port field, so the speed field keeps the old speed | a released high-speed slot still reports high speed | reset the speed field | not executed | Xhci.DisableSlotAsWritten, Xhci.DisableSlotKeepsSpeed | Xhci.DisableSlot, Xhci.DisableSlotFrees |
| system/uapp/install-fuchsia/install-fuchsia.c:390-416 | the EFI search restarts with the index returned by `find_partition`, which is relative to the entries searched, not absolute | usable EFI partitions at entries 0 and 1: every later round starts at entry 1 again, so the loop never ends | continue after the absolute index of the skipped match | not executed | InstallFuchsia.EfiRoundAsWritten, InstallFuchsia.EfiSearchLoopsAsWritten | InstallFuchsia.FindInstallEfi, InstallFuchsia.InstallEfiNotFirst |
| system/uapp/runtests/runtests.cpp:65-66 | the first `strtok_r` result is stored unchecked | the list `,` is accepted as one test name that is NULL | reject an empty first token like the others | not executed | Runtests.ParseTestNamesAsWritten, Runtests.ParseTestNamesLoneComma | Runtests.ParseTestNames, Runtests.ParseTestNamesSplit |
| system/dev/block/fvm/fvm.cpp:720-730 | the first piece of a split is `roundup(offset, slice) - offset`, which is 0 for a slice-aligned offset | a 2-slice transfer at offset 0 over non-contiguous slices gets pieces of 0 and 2 slices, and the second runs past its physical slice | the first piece is the rest of the slice the transfer starts in | not executed | Fvm.PieceLengthsAsWritten, Fvm.AlignedSplitOverrunsSlice | Fvm.FirstPieceLength, Fvm.SplitAcrossSlices |
