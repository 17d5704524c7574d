# Sidewinder PCIe bandwidth tool — a Dafny model of its core

The tool measures PCIe and DDR bandwidth on a Fidus Sidewinder card. It has
three parts with real contracts, and this project models all three:

- **`findContig` / `parseKMG`** (`contig.dfy`, module `Contig` and its
  property modules). They read the `memmap=nn[KMG]$ss[KMG]` boot parameter
  from the kernel command line and return the physical address of the
  reserved DMA buffer, or fail: unreadable command line, no `memmap=`, a zero
  address, or a buffer smaller than 1 GiB. `parseKMG` is a method with the
  source's digit-skipping loop. It is proved equal to a reference function
  `Kmg`, and the parameter's edge cases are lemmas about that function.
- **The `PciDevice` resource table and mapping lifecycle**. `pci.dfy`
  (module `PciResources`) covers `getResourceList`, the `getline` loop that
  turns `start end flags` lines into records, and `getIntegerFromFile`.
  `pci_device.dfy` (module `PciDevices`) covers:
  - the device search in `open`;
  - the `PciDevice` class, whose `resource` field is the member list
    `resource_`, with `Close`, `MapResources` and `Open` updating it in place;
  - a `Kernel` class that answers `mmap` from an oracle and records every
    `mmap`/`munmap` call.

  Each method is proved equal to an effect function (`MapEffect`,
  `OpenEffect`). `pci_device_props.dfy` proves what those effects
  guarantee: rollback, in-place mapping and no leaked mapping.
- **The measurement-engine register protocol** (`measure_bw.dfy`, module
  `MeasureBw`). The eleven-word register block is an array in class `Bar`,
  and every load, store and sleep goes onto a bus trace. The hardware is an
  oracle that changes words only while the program sleeps. Each test method
  (`MeasureReadBandwidth`, `MeasureWriteBandwidth`) and `Process` is proved
  equal to a function of the initial words (`Test`, `RunPlan`).
  `measure_bw_props.dfy` proves:
  - which registers a test stores, in what order;
  - that it polls until the control word reads 0;
  - that the result registers are read only after that;
  - that the cycle count is `(hi << 32) | lo`;
  - which stores the four tests of `process` make, in order.

`ctext.dfy` (module `CText`) models the C library routines the core depends
on: `c_str()`, `strchr`, `strstr`, and the base-0 conversion shared by
`strtol`, `strtoll` and `stoi`. `wrappers.dfy` holds `Option`, `Result` and
`Outcome`.

Behaviour of the code that its comments and intent do not make obvious,
and that the model follows:

- **A `0x` address after `$` scans to 0.** The header of `parseKMG`
  (cpp/FindContig.cpp:36-44) describes a number followed by `K`, `M` or `G`.
  The code converts with `strtol` base 0, which accepts `0x`, but then skips
  only decimal digits and requires `K`, `M` or `G` right after them. So in
  `memmap=4G$0x800000000` the `x` ends the scan with 0, and the command line
  fails with "no reserved buffer" whatever the size
  (`ContigProperties.ScanHexIsZero`, `ContigLemmas.ContigHexAddress`).
- **Resource fields are read by `strtoll` base 0.** A field with a `0x`
  prefix is hexadecimal (`CText.StrToLHex`, `PciResourceProperties.HexLineFields`),
  which is how sysfs writes them. A field with a leading `0` and no `x` is
  octal (`CText.StrToLOctal`). Any other field is decimal, so a field without
  a `0x` or leading-`0` prefix such as `1ff` reads as 1: the `f` stops the
  conversion.
- **Polling is bounded by fuel.** The code polls the control word without
  bound. The model bounds the poll with `fuel` sleeps and reports a test that
  never saw the engine idle as `None`. `Process` then stops, because the
  source would still be polling that test.
- **One `parseKMG` comment is wrong.** Its example "2K = 0x400"
  (cpp/FindContig.cpp:41) does not match the code, which computes
  2 * 1024 = 0x800 (`ContigProperties.ScanTwoKilo`).

`process` writes its four measurements as four consecutive calls.
`Bar.Process` runs the same four calls from the list `Plan(contigAddress)`,
in the same order, with the same arguments.

## Model

| member | source | states |
|---|---|---|
| CText.CStr | cpp/PciDevice.cpp:184 | the C view of a string is its longest prefix before the first NUL |
| CText.IndexOf | cpp/FindContig.cpp:49 | `strchr`: `None` exactly when the character is absent, else the index of its first occurrence |
| CText.IndexOfSub | cpp/FindContig.cpp:96 | `strstr`: `None` exactly when the pattern occurs nowhere, else its first occurrence |
| CText.RunLen | cpp/FindContig.cpp:61 | the leading run of digits of a base: every character in it is a digit, and the one after it is not |
| CText.StrToL | cpp/FindContig.cpp:58 | base-0 `strtol`: the end stays within the string, and converting nothing gives 0 |
| CText.StrToLHex | cpp/PciDevice.cpp:188-189 | a conversion starting at `0x` (or `0X`) and a hex digit reads the hex run after the prefix |
| CText.StrToLSpaceHex | cpp/PciDevice.cpp:189 | a conversion starting at one space then `0x` and a hex digit skips the space and reads the hex run |
| CText.StrToLDecimal | cpp/FindContig.cpp:58 | a conversion starting at digits 1-9 reads the decimal run, without sign |
| CText.StrToLOctal | cpp/FindContig.cpp:58 | a conversion starting at `0` (not `0x` plus a hex digit) reads octal, up to the first 8 or 9 |
| CText.StrToLNoDigits | cpp/FindContig.cpp:58 | a conversion starting at a non-digit, non-sign, non-space character converts nothing and gives 0 |
| CText.StrToLUnsigned | cpp/PciDevice.cpp:188 | without a leading sign or space the value is not negative |
| Contig.SkipDigits | cpp/FindContig.cpp:61 | the skip loop stops exactly at the end of the leading decimal-digit run |
| Contig.ScaleScanSuffix | cpp/FindContig.cpp:63-69 | the scan is value*1024, *1024*1024 or *1024*1024*1024 for K, M or G after the digit run, and 0 otherwise |
| Contig.ParseKmg | cpp/FindContig.cpp:46-70 | `parseKMG` returns the reference scan `Kmg`: 0 without the delimiter, else the scaled `strtol` value after it |
| Contig.FindContig | cpp/FindContig.cpp:80-115 | `findContig` returns the address or the error `ContigOutcome` gives, checking the zero address before the size |
| ContigProperties.KmgMissingDelimiter | cpp/FindContig.cpp:49-52 | a string without the delimiter scans to 0 |
| ContigProperties.ScanNonzeroShape | cpp/FindContig.cpp:58-69 | a nonzero scan has at least one decimal digit and a K, M or G right after the run |
| ContigProperties.ScanDecimal | cpp/FindContig.cpp:58-66 | a run starting with 1-9 scans to its decimal value times the suffix's scale |
| ContigProperties.ScanOctal | cpp/FindContig.cpp:58-66 | a run starting with 0 scans to its octal prefix's value times the scale of the suffix after the whole decimal run |
| ContigProperties.ScanOneDigit | cpp/FindContig.cpp:58-66 | one nonzero digit then a suffix scans to the digit times the scale |
| ContigProperties.ScanFourGig | cpp/FindContig.cpp:40 | "4G" scans to 0x1_0000_0000 |
| ContigProperties.ScanThreeMeg | cpp/FindContig.cpp:42 | "3M" scans to 0x30_0000 |
| ContigProperties.ScanTwoKilo | cpp/FindContig.cpp:41 | "2K" scans to 0x800, not the 0x400 of the comment |
| ContigProperties.OctalTenRun | cpp/FindContig.cpp:58-61 | in "010K" the decimal and octal runs are both three digits long, with octal value 8 |
| ContigProperties.ScanOctalExample | cpp/FindContig.cpp:58-64 | "010K" scans to 8192 |
| ContigProperties.ScanHexIsZero | cpp/FindContig.cpp:61-69 | text starting `0x` scans to 0 |
| ContigLemmas.ScanKiloAligned | cpp/FindContig.cpp:63-69 | every scan is a whole number of KiB |
| ContigLemmas.MemmapSize | cpp/FindContig.cpp:101-102 | the `=` scan reads right after the `=` of `memmap=` |
| ContigLemmas.MemmapTailStarts | cpp/FindContig.cpp:96 | the text from the `strstr` match on starts with `memmap=` |
| ContigLemmas.ContigMissingMemmap | cpp/FindContig.cpp:96-99 | without `memmap=` the command line is malformed |
| ContigLemmas.ContigSuccessShape | cpp/FindContig.cpp:101-114 | on success the address is the `$` scan, nonzero and KiB-aligned, and the size after `memmap=` is at least 1 GiB |
| ContigLemmas.ContigTooSmallShape | cpp/FindContig.cpp:108-111 | "too small" carries the size scan, below 1 GiB, and is reported only when the address is nonzero |
| ContigLemmas.ContigZeroAddress | cpp/FindContig.cpp:105-111 | once `memmap=` is found, "no reserved buffer" exactly when the `$` scan is 0, whatever the size |
| ContigLemmas.ContigHexAddress | cpp/FindContig.cpp:105-108 | a `0x` address right after the `$` fails with "no reserved buffer" |
| PciResources.SizeT | cpp/PciDevice.cpp:195 | conversion to `size_t` is the value modulo 2^64, unchanged when already in range |
| PciResources.FieldsResource | cpp/PciDevice.cpp:192-198 | a line with fields `start` and `end` gives no record exactly when `start` is 0, else an unmapped record with physAddr = start and size = end - start + 1 (mod 2^64) |
| PciResources.ParseLine | cpp/PciDevice.cpp:184-198 | the loop body's `strchr`/`strtoll` parse gives the line's record `LineResource` |
| PciResources.GetResourceList | cpp/PciDevice.cpp:166-206 | `getResourceList` returns `ResourceList(file)`: unreadable, no mappable resources, or the records in file order |
| PciResources.IntegerFromFile | cpp/PciDevice.cpp:116-131 | an unopenable id file reads -1; any value fits `int` |
| PciResourceProperties.HexLineFields | cpp/PciDevice.cpp:184-198 | a line "0x<a> 0x<b> ..." has start `a` and end `b` read in hexadecimal, and lists the region from `a` to `b` unless `a` is 0 |
| PciResourceProperties.PresentAppend | cpp/PciDevice.cpp:181-199 | the records of two runs of lines are appended in order |
| PciResourceProperties.PresentMembers | cpp/PciDevice.cpp:181-199 | every record listed comes from some line, and there are no more records than lines |
| PciResourceProperties.PresentEmptyIff | cpp/PciDevice.cpp:192-202 | no record exactly when every line was skipped |
| PciResourceProperties.ResourcesAppend | cpp/PciDevice.cpp:181-199 | `Resources(a + b) == Resources(a) + Resources(b)` |
| PciResourceProperties.ResourcesShape | cpp/PciDevice.cpp:192-198 | every record is unmapped, has a nonzero physical address and a size below 2^64 |
| PciResourceProperties.ResourcesEmptyIff | cpp/PciDevice.cpp:192-202 | no record exactly when every line's start field is 0 |
| PciResourceProperties.ResourcesSingle | cpp/PciDevice.cpp:188-198 | one line lists its own record, if any |
| PciResourceProperties.ResourcesSplit | cpp/PciDevice.cpp:181-199 | each line's record sits after those of earlier lines and before those of later ones |
| PciResourceProperties.ResourceListSuccessIff | cpp/PciDevice.cpp:175-205 | success exactly when the file opens and some line has a nonzero start; the value is the records |
| PciDevices.FirstMatch | cpp/PciDevice.cpp:234-253 | the index found holds a matching directory, and every entry before it is readable and does not match |
| PciDevices.FindDevice | cpp/PciDevice.cpp:225-256 | the `found`/`break` loop finds `FirstMatch(entries, vendor, device, 0)` |
| PciDevices.Unmaps | cpp/PciDevice.cpp:141-144 | `close` issues at most one `munmap` per entry |
| PciDevices.MmapCalls | cpp/PciDevice.cpp:93-96 | one `mmap` call per entry tried |
| PciDevices.Mapped | cpp/PciDevice.cpp:93-107 | mapping keeps the list length |
| PciDevices.FirstFailure | cpp/PciDevice.cpp:93-103 | the index returned is one `mmap` refuses, and every earlier entry was accepted |
| PciDevices.Kernel.Mmap | cpp/PciDevice.cpp:96 | `mmap` answers from the oracle and the call is appended to the trace |
| PciDevices.Kernel.Munmap | cpp/PciDevice.cpp:143 | the `munmap` call is appended to the trace |
| PciDevices.PciDevice.Close | cpp/PciDevice.cpp:138-148 | `close` unmaps the mapped entries in list order and leaves the list empty |
| PciDevices.PciDevice.MapResources | cpp/PciDevice.cpp:75-108 | the new list, the calls issued and the outcome are those of `MapEffect` |
| PciDevices.PciDevice.Open | cpp/PciDevice.cpp:220-263 | the new list, the calls issued and the outcome are those of `OpenEffect` |
| PciDevices.MapFailureAt | cpp/PciDevice.cpp:93-103 | a refusal at `i` after `i` acceptances is the rollback effect citing entry `i` |
| PciDevices.MapSuccess | cpp/PciDevice.cpp:93-107 | `mmap` accepting every entry gives the mapped list, one `mmap` per entry, and success |
| PciDeviceProperties.UnmapsExactlyMapped | cpp/PciDevice.cpp:141-147 | `close` gives back exactly the non-null base addresses, in order, maps nothing, and does nothing on an unmapped list (so a second call is harmless) |
| PciDeviceProperties.UnmapsOnly | cpp/PciDevice.cpp:141-144 | `close` issues only `munmap` calls |
| PciDeviceProperties.MmapCallsAddrs | cpp/PciDevice.cpp:93-106 | the addresses `mmap` handed out are the base addresses of the mapped list, in order |
| PciDeviceProperties.MapSuccessShape | cpp/PciDevice.cpp:86-107 | success exactly when `/dev/mem` opens and `mmap` accepts every entry; then every entry keeps its position, address and size and holds `mmap`'s non-null answer |
| PciDeviceProperties.MapWithoutDevMem | cpp/PciDevice.cpp:86-90 | without `/dev/mem` an unmapped list stays empty, no call is made, and the error is "must be root" |
| PciDeviceProperties.RolledBackAddrs | cpp/PciDevice.cpp:99-103 | the `close` after a refusal gives back the base addresses of the mapped prefix |
| PciDeviceProperties.MapFailureRollback | cpp/PciDevice.cpp:93-103 | at the first refusal: entries tried in order up to it, none after it, only `munmap`s follow, everything mapped is given back, the list is empty and the error cites the refused entry |
| PciDeviceProperties.MapNoLeak | cpp/PciDevice.cpp:86-107 | on failure every address `mmap` returned is unmapped in order; on success nothing is unmapped and the list holds exactly those addresses |
| PciDeviceProperties.ResourceListUnmapped | cpp/PciDevice.cpp:198 | `getResourceList` returns an unmapped list |
| PciDeviceProperties.OpenNotFound | cpp/PciDevice.cpp:228-256 | with no matching directory `open` only closes, holds nothing and fails with the ids asked for |
| PciDeviceProperties.FirstFailureNoneIff | cpp/PciDevice.cpp:93-107 | no refusal exactly when `mmap` accepts every entry |
| PciDeviceProperties.OpenFoundEffect | cpp/PciDevice.cpp:228-262 | once the directory is found and read, `open` is `close` followed by `mapResources` on its list |
| PciDeviceProperties.OpenEarlyFailure | cpp/PciDevice.cpp:228-259 | without a directory or a usable resource file `open` fails holding nothing, having issued only the `close` calls |
| PciDeviceProperties.OpenSuccess | cpp/PciDevice.cpp:220-263 | success exactly when a directory matches, it lists a resource, `/dev/mem` opens and every `mmap` succeeds; the list is then that directory's records in order, each mapped |
| PciDeviceProperties.OpenNoLeak | cpp/PciDevice.cpp:220-263 | on failure everything held before or mapped during `open` is given back and nothing is held; on success exactly the old mappings are given back |
| PciDeviceProperties.UnreadableIdMatchesOnlyMinusOne | cpp/PciDevice.cpp:124 | a directory with an unopenable id file is found only when -1 is the id asked for |
| MeasureBw.Hi32 | cpp/measure_bw.cpp:14 | `HI32(x)` fits in 32 bits |
| MeasureBw.Lo32 | cpp/measure_bw.cpp:15 | `LO32(x)` fits in 32 bits |
| MeasureBw.SplitCombine | cpp/measure_bw.cpp:14-15 | `(HI32(x) << 32) | LO32(x) == x` for every 64-bit `x` |
| MeasureBw.CombineSplit | cpp/measure_bw.cpp:85-89 | joining two halves and splitting again gives the halves back |
| MeasureBw.CombineExample | cpp/measure_bw.cpp:85-89 | a high half of 1 and a low half of 0 give 2^32 |
| MeasureBw.PlanFitsMapping | cpp/measure_bw.cpp:27-28 | both engines lie word-aligned inside any mapping that holds the DDR engine's block |
| MeasureBw.Bar.StoreWord | cpp/measure_bw.cpp:73 | a store changes one word and is appended to the bus |
| MeasureBw.Bar.LoadWord | cpp/measure_bw.cpp:85 | a load returns the word and is appended to the bus |
| MeasureBw.Bar.Sleep | cpp/measure_bw.cpp:82 | during `usleep` the words become the hardware's next state, and a pause is appended to the bus |
| MeasureBw.Bar.WaitIdle | cpp/measure_bw.cpp:82 | the poll loop's accesses, final words and outcome are those of `PollFrom` |
| MeasureBw.Bar.Configure | cpp/measure_bw.cpp:73-79 | the five configuration stores, in order, leave the words `Configured` describes |
| MeasureBw.Bar.MeasureReadBandwidth | cpp/measure_bw.cpp:65-90 | the read test's bus accesses, final words and count are those of `Test(.., ReadTest, ..)` |
| MeasureBw.Bar.MeasureWriteBandwidth | cpp/measure_bw.cpp:103-127 | the write test's bus accesses, final words and count are those of `Test(.., WriteTest, ..)` |
| MeasureBw.Bar.Process | cpp/measure_bw.cpp:139-214 | the four tests' bus accesses, final words and counts are those of `RunPlan(.., Plan(contigAddress), ..)` |
| MeasureBwProperties.RegistersDistinct | cpp/measure_bw.cpp:35-48 | the eleven register indices are distinct and below 11 |
| MeasureBwProperties.EnginesDisjoint | cpp/measure_bw.cpp:27-28 | both engine offsets are word-aligned, and the PCI block ends before the DDR block |
| MeasureBwProperties.BurstCountValue | cpp/measure_bw.cpp:145-155 | the burst count is `xferSize / burstSize`, and that many bursts cover 1 GiB exactly |
| MeasureBwProperties.PollShape | cpp/measure_bw.cpp:82 | a poll alternates control-word loads and sleeps, goes on only while the word is nonzero, sleeps at most `fuel` times, and is idle exactly when its last load saw 0 |
| MeasureBwProperties.PollFuelMonotone | cpp/measure_bw.cpp:82 | a poll that saw the engine idle gives the same result with more fuel |
| MeasureBwProperties.PollIdleAtOnce | cpp/measure_bw.cpp:82 | an idle engine is seen idle at the first load, without a sleep |
| MeasureBwProperties.ConfiguredFrame | cpp/measure_bw.cpp:73-79 | configuring changes only the five registers written, leaves the control word nonzero, and stores halves that join back to the target address |
| MeasureBwProperties.TestHasTrace | cpp/measure_bw.cpp:72-89 | a test's accesses are five stores, then a poll of the control word, then (only if the poll saw 0) the two result loads whose values the count joins |
| MeasureBwProperties.TestStores | cpp/measure_bw.cpp:73-79 | a test stores exactly: the direction's address pair (HI32, LO32), the burst size, the burst count, then the start code, in that order |
| MeasureBwProperties.SetupStoresAvoid | cpp/measure_bw.cpp:110-116 | no store goes to the other direction's address registers or to a result register, and every store stays inside the engine's block |
| MeasureBwProperties.TestWithinEngine | cpp/measure_bw.cpp:70-89 | every word a test loads or stores lies in its engine's eleven registers |
| MeasureBwProperties.TestEnds | cpp/measure_bw.cpp:82-89 | a finished test's last three accesses are the load that saw 0 and the high and low result loads, and the count is their join; an unfinished one ends on a nonzero control load |
| MeasureBwProperties.TestLoadsResultsAfterIdle | cpp/measure_bw.cpp:82-86 | the only loads of other words than the control word are the last two, and the control word reads 0 only right before them |
| MeasureBwProperties.RunStores | cpp/measure_bw.cpp:145-203 | a run stores the configurations of the tests it started, in plan order, and nothing after the first test that did not finish |
| MeasureBwProperties.ProcessStores | cpp/measure_bw.cpp:145-203 | `process` stores the PCI write, DDR write, PCI read and DDR read configurations, in that order, with the PCI tests on `contigAddress`, the DDR tests on 0, bursts of 2048 and 524288 bursts |
| MeasureBwProperties.ProcessPlanStores | cpp/measure_bw.cpp:155 | the four planned configurations written out: engines at words 0x400 and 0x800, directions and targets as in `process` |
| MeasureBwProperties.ProcessStopsEarly | cpp/measure_bw.cpp:155 | if the first test never finishes, only its configuration is stored |

## Left out

- File and device I/O is replaced by inputs. The command line and the resource and id files are given as `Option`s of their text, and the device directory as a sequence of `DirEntry` records. `/dev/mem` opening and `mmap` are oracles held by `Kernel`.
- The `FileDes` descriptor wrapper, `throwRuntime`'s message formatting (errors are datatype values), the default device directory, the global `PCI` singleton, and `main`.
- The floating-point bandwidth arithmetic and `printf` reporting in `process`.
- `usleep` timing, `volatile` and concurrency. The hardware changes words only during a sleep, as one oracle step that keeps the mapping's size.
- MeasureBw.Bar.WaitIdle: bounded by `fuel` sleeps, where the source polls without bound. A poll that runs out reports the engine busy (`idle == false`), and `Process` stops there.
- The link between `resourceList()[0].baseAddr + deviceAddress` and the register array. `Bar` holds the engine's mapping as its own array, addressed by word index (`deviceAddress / 4`).
- `munmap` results, which the source ignores.
- Undefined behaviour becomes a precondition:
  - a `parseKMG` product that overflows `int64_t` (`ParseKmg`, `FindContig`);
  - a resource line without a space, where `strtoll` gets a null pointer, and an `end - start + 1` that overflows `off_t` (`LineWellFormed`).
- Defined behaviour excluded by a precondition:
  - `strtoll` clamping a field to LLONG_MIN/LLONG_MAX and setting ERANGE: only the start field of every line, and the end field of a kept line, are required to lie in range (`LineWellFormed`);
  - `stoi` throwing `std::invalid_argument` or `std::out_of_range` on an id file (`IdFileReadable`, `ScanSafe`). PciDevices.PciDevice.Open: the exception would leave `open` after its `close()` (cpp/PciDevice.cpp:228) with `resource_` already empty; the model does not capture that error path.
- PciDevices.Kernel.Mmap: `mmapAnswer` is a function of the physical address and size only. Two entries with the same range always get the same answer, and no answer depends on earlier mappings or on the address space running out.
- CText.StrToL: values are unbounded integers. The callers' preconditions rule out `strtol`/`strtoll` range clamping instead of modelling it.
