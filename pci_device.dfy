/**
 * The mapping lifecycle of `PciDevice`: the search for a device directory
 * whose vendor and device ids match, and the member list `resource_`, which
 * `mapResources` fills with user-space addresses and `close` unmaps and
 * empties. The kernel is an object that answers `mmap` from a fixed oracle and
 * records every `mmap` and `munmap` call in a trace.
 */
module PciDevices {
  import opened Wrappers
  import opened PciResources

  /** A non-null user-space pointer. */
  type Addr = a: nat | a > 0 witness 1

  /** One system call the device issues, with `mmap`'s answer (`None` for `MAP_FAILED`). */
  datatype SysCall =
    | Mmap(physAddr: int, size: nat, result: Option<Addr>)
    | Munmap(addr: Addr, size: nat)

  /**
   * An entry of the devices directory: whether it is a directory, and what
   * its `vendor`, `device` and `resource` files hold (`None` when a file
   * cannot be opened).
   */
  datatype DirEntry = DirEntry(
    isDir: bool,
    vendorFile: Option<string>,
    deviceFile: Option<string>,
    resourceFile: Option<seq<string>>)

  /*
   * ---------------------------------------------------------------------
   * The device search in `open`
   * ---------------------------------------------------------------------
   */

  /** `stoi` does not throw on the id files of this entry (both are read for a directory). */
  predicate IdsReadable(e: DirEntry) {
    e.isDir ==> IdFileReadable(e.vendorFile) && IdFileReadable(e.deviceFile)
  }

  /** The entry is a directory whose vendor and device ids are the ones asked for. */
  predicate Matches(e: DirEntry, vendor: int, device: int)
    requires IdsReadable(e)
  {
    e.isDir && IntegerFromFile(e.vendorFile) == vendor && IntegerFromFile(e.deviceFile) == device
  }

  /** Every entry the search reaches from `i` on, up to and including the first match, has readable ids. */
  predicate ScanSafe(entries: seq<DirEntry>, vendor: int, device: int, i: nat)
    decreases |entries| - i
  {
    i >= |entries|
    || (IdsReadable(entries[i])
        && (Matches(entries[i], vendor, device) || ScanSafe(entries, vendor, device, i + 1)))
  }

  /** The index of the first matching entry from `i` on, if any. */
  function FirstMatch(entries: seq<DirEntry>, vendor: int, device: int, i: nat): (r: Option<nat>)
    requires ScanSafe(entries, vendor, device, i)
    ensures r.Some? ==> i <= r.value < |entries| && IdsReadable(entries[r.value])
                        && Matches(entries[r.value], vendor, device)
    ensures forall k :: i <= k < (if r.Some? then r.value else |entries|) ==>
              IdsReadable(entries[k]) && !Matches(entries[k], vendor, device)
    decreases |entries| - i
  {
    if i >= |entries| then None
    else if Matches(entries[i], vendor, device) then Some(i)
    else FirstMatch(entries, vendor, device, i + 1)
  }

  /** One entry of the search: a match ends it, anything else passes it on to the next entry. */
  lemma ScanStep(entries: seq<DirEntry>, vendor: int, device: int, i: nat)
    requires i < |entries| && ScanSafe(entries, vendor, device, i)
    ensures IdsReadable(entries[i])
    ensures Matches(entries[i], vendor, device) ==> FirstMatch(entries, vendor, device, i) == Some(i)
    ensures !Matches(entries[i], vendor, device) ==>
              ScanSafe(entries, vendor, device, i + 1)
              && FirstMatch(entries, vendor, device, i) == FirstMatch(entries, vendor, device, i + 1)
  {
  }

  /**
   * The loop of `open`: skip non-directories, read both ids of each
   * directory, and stop at the first one that matches.
   */
  method FindDevice(entries: seq<DirEntry>, vendor: int, device: int) returns (r: Option<nat>)
    requires ScanSafe(entries, vendor, device, 0)
    ensures r == FirstMatch(entries, vendor, device, 0)
  {
    var found := false;
    var i := 0;
    while i < |entries|
      invariant i <= |entries|
      invariant ScanSafe(entries, vendor, device, i)
      invariant FirstMatch(entries, vendor, device, i) == FirstMatch(entries, vendor, device, 0)
    {
      var entry := entries[i];
      ScanStep(entries, vendor, device, i);
      if !entry.isDir {
        i := i + 1;
        continue;
      }
      var thisVendor := IntegerFromFile(entry.vendorFile);
      var thisDevice := IntegerFromFile(entry.deviceFile);
      if thisVendor == vendor && thisDevice == device {
        found := true;
        break;
      }
      i := i + 1;
    }
    if !found {
      return None;
    }
    return Some(i);
  }

  /*
   * ---------------------------------------------------------------------
   * What mapping and unmapping do, as functions of the list
   * ---------------------------------------------------------------------
   */

  /** The `munmap` calls `close` issues: one per entry with a non-null base address, in list order. */
  function Unmaps(rs: seq<Resource>): (calls: seq<SysCall>)
    ensures |calls| <= |rs|
  {
    if |rs| == 0 then []
    else
      var last := rs[|rs| - 1];
      Unmaps(rs[..|rs| - 1]) + (if last.baseAddr != 0 then [Munmap(last.baseAddr, last.size)] else [])
  }

  /** The answer `mmap` gives for an entry. */
  function Attempt(m: (int, nat) -> Option<Addr>, r: Resource): Option<Addr> {
    m(r.physAddr, r.size)
  }

  /** The `mmap` call issued for an entry, with its answer. */
  function MmapCall(m: (int, nat) -> Option<Addr>, r: Resource): SysCall {
    Mmap(r.physAddr, r.size, Attempt(m, r))
  }

  /** The `mmap` calls issued for the entries of `rs`, in order, with their answers. */
  function MmapCalls(rs: seq<Resource>, m: (int, nat) -> Option<Addr>): (calls: seq<SysCall>)
    ensures |calls| == |rs|
  {
    seq(|rs|, k requires 0 <= k < |rs| => MmapCall(m, rs[k]))
  }

  /** An entry with the base address `mmap` gave it (an entry `mmap` refused keeps its own). */
  function MapEntry(m: (int, nat) -> Option<Addr>, r: Resource): Resource {
    match Attempt(m, r)
    case Some(a) => r.(baseAddr := a)
    case None => r
  }

  /** The entries of `rs`, each with the base address `mmap` gave it. */
  function Mapped(rs: seq<Resource>, m: (int, nat) -> Option<Addr>): (ms: seq<Resource>)
    ensures |ms| == |rs|
  {
    seq(|rs|, k requires 0 <= k < |rs| => MapEntry(m, rs[k]))
  }

  /** The index of the first entry `mmap` refuses, if any. */
  function FirstFailure(rs: seq<Resource>, m: (int, nat) -> Option<Addr>): (r: Option<nat>)
    ensures r.Some? ==> r.value < |rs| && Attempt(m, rs[r.value]).None?
    ensures forall k :: 0 <= k < (if r.Some? then r.value else |rs|) ==> Attempt(m, rs[k]).Some?
  {
    if |rs| == 0 then None
    else match FirstFailure(rs[..|rs| - 1], m)
      case Some(j) => Some(j)
      case None => if Attempt(m, rs[|rs| - 1]).None? then Some(|rs| - 1) else None
  }

  /** The list, the calls issued and the outcome of an operation on the device. */
  datatype Effect = Effect(resource: seq<Resource>, calls: seq<SysCall>, outcome: Outcome<PciError>)

  /**
   * `mapResources` on the list `rs`: without `/dev/mem`, close and fail;
   * otherwise map entry after entry, and at the first refusal close (which
   * unmaps what is mapped by then) and fail citing that entry.
   */
  function MapEffect(rs: seq<Resource>, devMemOpens: bool, m: (int, nat) -> Option<Addr>): Effect {
    if !devMemOpens then Effect([], Unmaps(rs), Fail(MustBeRoot))
    else match FirstFailure(rs, m)
      case None => Effect(Mapped(rs, m), MmapCalls(rs, m), Pass)
      case Some(j) =>
        Effect([], MmapCalls(rs[..j + 1], m) + Unmaps(Mapped(rs[..j], m) + rs[j..]),
               Fail(MmapFailed(rs[j].physAddr, rs[j].size)))
  }

  /** `open` can run without undefined behaviour or a `stoi` exception. */
  predicate OpenSafe(entries: seq<DirEntry>, vendor: int, device: int) {
    ScanSafe(entries, vendor, device, 0)
    && var found := FirstMatch(entries, vendor, device, 0);
       found.Some? && entries[found.value].resourceFile.Some? ==>
         LinesWellFormed(entries[found.value].resourceFile.value)
  }

  /**
   * `open` on a device holding `rs0`: close, find the device, read its
   * resource list, then map it.
   */
  function OpenEffect(rs0: seq<Resource>, entries: seq<DirEntry>, vendor: int, device: int,
                      devMemOpens: bool, m: (int, nat) -> Option<Addr>): Effect
    requires OpenSafe(entries, vendor, device)
  {
    var closing := Unmaps(rs0);
    match FirstMatch(entries, vendor, device, 0)
    case None => Effect([], closing, Fail(DeviceNotFound(vendor, device)))
    case Some(j) =>
      match ResourceList(entries[j].resourceFile)
      case Failure(e) => Effect([], closing, Fail(e))
      case Success(rs) =>
        var mapped := MapEffect(rs, devMemOpens, m);
        Effect(mapped.resource, closing + mapped.calls, mapped.outcome)
  }

  /*
   * ---------------------------------------------------------------------
   * The kernel and the device object
   * ---------------------------------------------------------------------
   */

  /**
   * The operating system as the device sees it: whether `/dev/mem` opens,
   * the address `mmap` returns for a physical range (or `MAP_FAILED`), and
   * the calls made so far.
   */
  class Kernel {
    const devMemOpens: bool
    const mmapAnswer: (int, nat) -> Option<Addr>
    var trace: seq<SysCall>

    constructor (devMemOpens: bool, mmapAnswer: (int, nat) -> Option<Addr>)
      ensures this.devMemOpens == devMemOpens && this.mmapAnswer == mmapAnswer
      ensures trace == []
    {
      this.devMemOpens := devMemOpens;
      this.mmapAnswer := mmapAnswer;
      trace := [];
    }

    method Mmap(physAddr: int, size: nat) returns (p: Option<Addr>)
      modifies this
      ensures p == mmapAnswer(physAddr, size)
      ensures trace == old(trace) + [SysCall.Mmap(physAddr, size, p)]
    {
      p := mmapAnswer(physAddr, size);
      trace := trace + [SysCall.Mmap(physAddr, size, p)];
    }

    method Munmap(addr: Addr, size: nat)
      modifies this
      ensures trace == old(trace) + [SysCall.Munmap(addr, size)]
    {
      trace := trace + [SysCall.Munmap(addr, size)];
    }
  }

  /** A PCI device and the list `resource_` of its memory-mappable resources. */
  class PciDevice {
    var resource: seq<Resource>

    constructor ()
      ensures resource == []
    {
      resource := [];
    }

    /** `close`: unmap every entry that is mapped, then empty the list. */
    method Close(k: Kernel)
      modifies this, k
      ensures resource == []
      ensures k.trace == old(k.trace) + Unmaps(old(resource))
    {
      var i := 0;
      while i < |resource|
        invariant i <= |resource| && resource == old(resource)
        invariant k.trace == old(k.trace) + Unmaps(resource[..i])
      {
        assert resource[..i + 1][..i] == resource[..i];
        var bar := resource[i];
        if bar.baseAddr != 0 {
          k.Munmap(bar.baseAddr, bar.size);
        }
        i := i + 1;
      }
      assert resource[..i] == resource;
      resource := [];
    }

    /** `mapResources`: give every entry the user-space address `mmap` returns for it. */
    method MapResources(k: Kernel) returns (o: Outcome<PciError>)
      modifies this, k
      ensures var e := MapEffect(old(resource), k.devMemOpens, k.mmapAnswer);
              resource == e.resource && k.trace == old(k.trace) + e.calls && o == e.outcome
    {
      if !k.devMemOpens {
        Close(k);
        return Fail(MustBeRoot);
      }
      ghost var rs := resource;
      ghost var m := k.mmapAnswer;
      var i := 0;
      while i < |resource|
        invariant i <= |resource| == |rs|
        invariant resource == Mapped(rs[..i], m) + rs[i..]
        invariant k.trace == old(k.trace) + MmapCalls(rs[..i], m)
        invariant forall j :: 0 <= j < i ==> Attempt(m, rs[j]).Some?
      {
        var bar := resource[i];
        MapStep(rs, m, i);
        var ptr := k.Mmap(bar.physAddr, bar.size);
        if ptr.None? {
          MapFailureAt(rs, m, i);
          ghost var mappedSoFar := resource;
          Close(k);
          Regroup(old(k.trace), MmapCalls(rs[..i], m), [MmapCall(m, bar)], Unmaps(mappedSoFar));
          return Fail(MmapFailed(bar.physAddr, bar.size));
        }
        resource := resource[i := bar.(baseAddr := ptr.value)];
        i := i + 1;
      }
      MapSuccess(rs, m);
      return Pass;
    }

    /** `open`: close, find the device directory, read its resource list and map it. */
    method Open(vendor: int, device: int, entries: seq<DirEntry>, k: Kernel) returns (o: Outcome<PciError>)
      requires OpenSafe(entries, vendor, device)
      modifies this, k
      ensures var e := OpenEffect(old(resource), entries, vendor, device, k.devMemOpens, k.mmapAnswer);
              resource == e.resource && k.trace == old(k.trace) + e.calls && o == e.outcome
    {
      Close(k);
      var found := FindDevice(entries, vendor, device);
      if found.None? {
        return Fail(DeviceNotFound(vendor, device));
      }
      var list := GetResourceList(entries[found.value].resourceFile);
      if list.Failure? {
        return Fail(list.error);
      }
      resource := list.value;
      o := MapResources(k);
      Regroup3(old(k.trace), Unmaps(old(resource)), MapEffect(list.value, k.devMemOpens, k.mmapAnswer).calls);
    }
  }

  /** Regrouping the calls made before and after a step. */
  lemma Regroup3(before: seq<SysCall>, a: seq<SysCall>, b: seq<SysCall>)
    ensures before + a + b == before + (a + b)
  {
  }

  /** Regrouping the calls made before, during and after a step. */
  lemma Regroup(before: seq<SysCall>, a: seq<SysCall>, b: seq<SysCall>, c: seq<SysCall>)
    ensures before + a + b + c == before + (a + b + c)
  {
  }

  /** One more entry extends the calls and the mapped prefix by that entry's `mmap`. */
  lemma MapStep(rs: seq<Resource>, m: (int, nat) -> Option<Addr>, i: nat)
    requires i < |rs|
    ensures (Mapped(rs[..i], m) + rs[i..])[i] == rs[i]
    ensures MmapCalls(rs[..i + 1], m) == MmapCalls(rs[..i], m) + [MmapCall(m, rs[i])]
    ensures Attempt(m, rs[i]).Some? ==>
              (Mapped(rs[..i], m) + rs[i..])[i := MapEntry(m, rs[i])] == Mapped(rs[..i + 1], m) + rs[i + 1..]
  {
    var pre := Mapped(rs[..i], m) + rs[i..];
    assert pre[i] == rs[i];
    if Attempt(m, rs[i]).Some? {
      var post := pre[i := MapEntry(m, rs[i])];
      assert forall j :: 0 <= j < |rs| ==> post[j] == (Mapped(rs[..i + 1], m) + rs[i + 1..])[j];
    }
  }

  /** The entry at `i` is refused after all before it were accepted: the failure effect. */
  lemma MapFailureAt(rs: seq<Resource>, m: (int, nat) -> Option<Addr>, i: nat)
    requires i < |rs| && Attempt(m, rs[i]).None?
    requires forall j :: 0 <= j < i ==> Attempt(m, rs[j]).Some?
    ensures MapEffect(rs, true, m) ==
              Effect([], MmapCalls(rs[..i + 1], m) + Unmaps(Mapped(rs[..i], m) + rs[i..]),
                     Fail(MmapFailed(rs[i].physAddr, rs[i].size)))
  {
    assert FirstFailure(rs, m) == Some(i);
  }

  /** Every entry accepted: the success effect. */
  lemma MapSuccess(rs: seq<Resource>, m: (int, nat) -> Option<Addr>)
    requires forall j :: 0 <= j < |rs| ==> Attempt(m, rs[j]).Some?
    ensures MapEffect(rs, true, m) == Effect(Mapped(rs, m), MmapCalls(rs, m), Pass)
    ensures Mapped(rs[..|rs|], m) + rs[|rs|..] == Mapped(rs, m)
    ensures MmapCalls(rs[..|rs|], m) == MmapCalls(rs, m)
  {
    assert FirstFailure(rs, m) == None;
    assert rs[..|rs|] == rs;
  }
}
