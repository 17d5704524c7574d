/**
 * What the mapping lifecycle guarantees: `close` unmaps exactly the mapped
 * entries, `mapResources` either maps every entry in place or rolls back
 * everything it mapped, and `open` leaks no mapping.
 */
module PciDeviceProperties {
  import opened Wrappers
  import opened PciResources
  import opened PciResourceProperties
  import opened PciDevices

  /** No entry of the list is mapped (as `getResourceList` returns it). */
  predicate Unmapped(rs: seq<Resource>) {
    forall k :: 0 <= k < |rs| ==> rs[k].baseAddr == 0
  }

  /** The non-null base addresses of a list, in order. */
  function BaseAddrs(rs: seq<Resource>): (addrs: seq<Addr>)
    ensures |addrs| <= |rs|
  {
    if |rs| == 0 then []
    else
      var last := rs[|rs| - 1];
      BaseAddrs(rs[..|rs| - 1]) + (if last.baseAddr != 0 then [last.baseAddr as Addr] else [])
  }

  /** The addresses a trace of calls obtained from `mmap`, in order. */
  function MappedAddrs(calls: seq<SysCall>): (addrs: seq<Addr>)
    ensures |addrs| <= |calls|
  {
    if |calls| == 0 then []
    else
      var last := calls[|calls| - 1];
      MappedAddrs(calls[..|calls| - 1]) + (if last.Mmap? && last.result.Some? then [last.result.value] else [])
  }

  /** The addresses a trace of calls gave back with `munmap`, in order. */
  function UnmappedAddrs(calls: seq<SysCall>): (addrs: seq<Addr>)
    ensures |addrs| <= |calls|
  {
    if |calls| == 0 then []
    else
      var last := calls[|calls| - 1];
      UnmappedAddrs(calls[..|calls| - 1]) + (if last.Munmap? then [last.addr] else [])
  }

  /*
   * Distribution over concatenation.
   */

  lemma {:induction false} BaseAddrsAppend(a: seq<Resource>, b: seq<Resource>)
    ensures BaseAddrs(a + b) == BaseAddrs(a) + BaseAddrs(b)
    decreases |b|
  {
    if |b| > 0 {
      var b' := b[..|b| - 1];
      assert (a + b)[..|a + b| - 1] == a + b';
      BaseAddrsAppend(a, b');
    } else {
      assert a + b == a;
    }
  }

  lemma {:induction false} CallAddrsAppend(a: seq<SysCall>, b: seq<SysCall>)
    ensures MappedAddrs(a + b) == MappedAddrs(a) + MappedAddrs(b)
    ensures UnmappedAddrs(a + b) == UnmappedAddrs(a) + UnmappedAddrs(b)
    decreases |b|
  {
    if |b| > 0 {
      var b' := b[..|b| - 1];
      assert (a + b)[..|a + b| - 1] == a + b';
      CallAddrsAppend(a, b');
    } else {
      assert a + b == a;
    }
  }

  /** A list no entry of which is mapped has no base address. */
  lemma {:induction false} BaseAddrsUnmapped(rs: seq<Resource>)
    requires Unmapped(rs)
    ensures BaseAddrs(rs) == []
  {
    if |rs| > 0 {
      BaseAddrsUnmapped(rs[..|rs| - 1]);
    }
  }

  /**
   * `close` gives back with `munmap` exactly the base addresses of the mapped
   * entries, in list order, and maps nothing; on an unmapped (or empty) list
   * it does nothing, so a second `close` is harmless.
   */
  lemma {:induction false} UnmapsExactlyMapped(rs: seq<Resource>)
    ensures UnmappedAddrs(Unmaps(rs)) == BaseAddrs(rs)
    ensures MappedAddrs(Unmaps(rs)) == []
    ensures Unmapped(rs) ==> Unmaps(rs) == []
  {
    if |rs| > 0 {
      var init := rs[..|rs| - 1];
      var last := rs[|rs| - 1];
      UnmapsExactlyMapped(init);
      var tail: seq<SysCall> := if last.baseAddr != 0 then [Munmap(last.baseAddr, last.size)] else [];
      CallAddrsAppend(Unmaps(init), tail);
      assert UnmappedAddrs(tail) == (if last.baseAddr != 0 then [last.baseAddr as Addr] else []) by {
        if last.baseAddr != 0 { assert tail[..0] == []; }
      }
      assert MappedAddrs(tail) == [] by {
        if last.baseAddr != 0 { assert tail[..0] == []; }
      }
    }
  }

  /** The `mmap` calls of a prefix are a prefix of the calls. */
  lemma MmapCallsPrefix(rs: seq<Resource>, m: (int, nat) -> Option<Addr>, n: nat)
    requires n <= |rs|
    ensures MmapCalls(rs, m)[..n] == MmapCalls(rs[..n], m)
    ensures Mapped(rs, m)[..n] == Mapped(rs[..n], m)
  {
  }

  /**
   * On an unmapped list, the addresses `mmap` handed out are the base
   * addresses of the mapped list, in order, and `mmap` alone unmaps nothing.
   */
  lemma {:induction false} MmapCallsAddrs(rs: seq<Resource>, m: (int, nat) -> Option<Addr>)
    requires Unmapped(rs)
    ensures MappedAddrs(MmapCalls(rs, m)) == BaseAddrs(Mapped(rs, m))
    ensures UnmappedAddrs(MmapCalls(rs, m)) == []
  {
    if |rs| > 0 {
      var n := |rs| - 1;
      var init := rs[..n];
      MmapCallsAddrs(init, m);
      MmapCallsPrefix(rs, m, n);
      var calls := MmapCalls(rs, m);
      var ms := Mapped(rs, m);
      assert calls[..|calls| - 1] == MmapCalls(init, m);
      assert ms[..|ms| - 1] == Mapped(init, m);
      assert calls[n] == MmapCall(m, rs[n]) && ms[n] == MapEntry(m, rs[n]);
    }
  }

  /*
   * mapResources
   */

  /**
   * `mapResources` succeeds exactly when `/dev/mem` opens and `mmap` accepts
   * every entry. Then it tried every entry once, in order, and each entry
   * keeps its position, physical address and size and now has the non-null
   * address `mmap` returned for it.
   */
  lemma MapSuccessShape(rs: seq<Resource>, devMemOpens: bool, m: (int, nat) -> Option<Addr>)
    ensures MapEffect(rs, devMemOpens, m).outcome.Pass? <==>
              devMemOpens && forall k :: 0 <= k < |rs| ==> Attempt(m, rs[k]).Some?
    ensures var e := MapEffect(rs, devMemOpens, m);
            e.outcome.Pass? ==>
              e.calls == MmapCalls(rs, m) && |e.resource| == |rs|
              && forall k :: 0 <= k < |rs| ==>
                   e.resource[k].baseAddr == Attempt(m, rs[k]).value > 0
                   && e.resource[k].physAddr == rs[k].physAddr && e.resource[k].size == rs[k].size
  {
    var e := MapEffect(rs, devMemOpens, m);
    if e.outcome.Pass? {
      forall k | 0 <= k < |rs|
        ensures e.resource[k] == rs[k].(baseAddr := Attempt(m, rs[k]).value)
      {
        assert e.resource[k] == MapEntry(m, rs[k]);
      }
    }
  }

  /**
   * Without `/dev/mem`, `mapResources` leaves the list empty and, on a list
   * nothing of which was mapped, issues no call at all.
   */
  lemma MapWithoutDevMem(rs: seq<Resource>, m: (int, nat) -> Option<Addr>)
    requires Unmapped(rs)
    ensures MapEffect(rs, false, m) == Effect([], [], Fail(MustBeRoot))
  {
    UnmapsExactlyMapped(rs);
  }

  /**
   * The addresses `mmap` handed out up to and including the first refusal
   * at `j` are the base addresses of the mapped prefix before `j`.
   */
  lemma TriedAddrs(rs: seq<Resource>, m: (int, nat) -> Option<Addr>, j: nat)
    requires Unmapped(rs) && j < |rs| && Attempt(m, rs[j]).None?
    ensures MappedAddrs(MmapCalls(rs[..j + 1], m)) == BaseAddrs(Mapped(rs[..j], m))
    ensures UnmappedAddrs(MmapCalls(rs[..j + 1], m)) == []
  {
    var p := rs[..j + 1];
    assert Unmapped(p);
    MmapCallsAddrs(p, m);
    assert p[..j] == rs[..j];
    MmapCallsPrefix(p, m, j);
    var mp := Mapped(p, m);
    assert mp[j] == rs[j];
    assert mp == Mapped(rs[..j], m) + [rs[j]];
    BaseAddrsAppend(Mapped(rs[..j], m), [rs[j]]);
    BaseAddrsUnmapped([rs[j]]);
  }

  /** What `close` gives back after a refusal at `j`: the base addresses of the mapped prefix. */
  lemma RolledBackAddrs(rs: seq<Resource>, m: (int, nat) -> Option<Addr>, j: nat)
    requires Unmapped(rs) && j <= |rs|
    ensures UnmappedAddrs(Unmaps(Mapped(rs[..j], m) + rs[j..])) == BaseAddrs(Mapped(rs[..j], m))
    ensures MappedAddrs(Unmaps(Mapped(rs[..j], m) + rs[j..])) == []
  {
    var left := Mapped(rs[..j], m) + rs[j..];
    UnmapsExactlyMapped(left);
    BaseAddrsAppend(Mapped(rs[..j], m), rs[j..]);
    assert Unmapped(rs[j..]);
    BaseAddrsUnmapped(rs[j..]);
  }

  /**
   * The first refusal stops `mapResources`: entries up to the refused one
   * are tried in order, no later entry is tried, everything mapped before
   * is unmapped in order, the list ends empty and the error cites the
   * refused entry.
   */
  lemma MapFailureRollback(rs: seq<Resource>, m: (int, nat) -> Option<Addr>, j: nat)
    requires Unmapped(rs)
    requires FirstFailure(rs, m) == Some(j)
    ensures MapEffect(rs, true, m).resource == []
    ensures MapEffect(rs, true, m).outcome == Fail(MmapFailed(rs[j].physAddr, rs[j].size))
    ensures MapEffect(rs, true, m).calls[..j + 1] == MmapCalls(rs[..j + 1], m)
    ensures forall c :: c in MapEffect(rs, true, m).calls[j + 1..] ==> c.Munmap?
    ensures UnmappedAddrs(MapEffect(rs, true, m).calls) == BaseAddrs(Mapped(rs[..j], m))
    ensures MappedAddrs(MapEffect(rs, true, m).calls) == BaseAddrs(Mapped(rs[..j], m))
  {
    MapFailureAt(rs, m, j);
    var tried := MmapCalls(rs[..j + 1], m);
    var left := Mapped(rs[..j], m) + rs[j..];
    var calls := tried + Unmaps(left);
    assert calls[..j + 1] == tried;
    assert calls[j + 1..] == Unmaps(left);
    UnmapsOnly(left);
    TriedAddrs(rs, m, j);
    RolledBackAddrs(rs, m, j);
    CallAddrsAppend(tried, Unmaps(left));
  }

  /** `close` issues only `munmap` calls. */
  lemma {:induction false} UnmapsOnly(rs: seq<Resource>)
    ensures forall c :: c in Unmaps(rs) ==> c.Munmap?
  {
    if |rs| > 0 {
      UnmapsOnly(rs[..|rs| - 1]);
    }
  }

  /**
   * `mapResources` on an unmapped list leaks nothing: when it fails, every
   * address `mmap` returned is given back with `munmap`, in the same order;
   * when it succeeds, nothing is unmapped and the list holds exactly the
   * addresses `mmap` returned.
   */
  lemma MapNoLeak(rs: seq<Resource>, devMemOpens: bool, m: (int, nat) -> Option<Addr>)
    requires Unmapped(rs)
    ensures var e := MapEffect(rs, devMemOpens, m);
            e.outcome.Fail? ==> e.resource == [] && UnmappedAddrs(e.calls) == MappedAddrs(e.calls)
    ensures var e := MapEffect(rs, devMemOpens, m);
            e.outcome.Pass? ==> UnmappedAddrs(e.calls) == [] && MappedAddrs(e.calls) == BaseAddrs(e.resource)
  {
    if !devMemOpens {
      MapWithoutDevMem(rs, m);
    } else if FirstFailure(rs, m).Some? {
      MapFailureRollback(rs, m, FirstFailure(rs, m).value);
    } else {
      MmapCallsAddrs(rs, m);
    }
  }

  /*
   * open
   */

  /** What `getResourceList` returns is an unmapped list. */
  lemma ResourceListUnmapped(file: Option<seq<string>>)
    requires ResourceList(file).Success?
    ensures Unmapped(ResourceList(file).value)
  {
    ResourcesShape(file.value);
    var rs := ResourceList(file).value;
    forall k | 0 <= k < |rs| ensures rs[k].baseAddr == 0 {
      assert rs[k] in rs;
    }
  }

  /**
   * `open` first closes what the device held; when no directory matches it
   * fails with the ids asked for and the device holds nothing.
   */
  lemma OpenNotFound(rs0: seq<Resource>, entries: seq<DirEntry>, vendor: int, device: int,
                     devMemOpens: bool, m: (int, nat) -> Option<Addr>)
    requires OpenSafe(entries, vendor, device)
    requires forall k :: 0 <= k < |entries| ==> IdsReadable(entries[k]) && !Matches(entries[k], vendor, device)
    ensures OpenEffect(rs0, entries, vendor, device, devMemOpens, m) ==
              Effect([], Unmaps(rs0), Fail(DeviceNotFound(vendor, device)))
  {
  }

  /** There is no first refusal exactly when `mmap` accepts every entry. */
  lemma FirstFailureNoneIff(rs: seq<Resource>, m: (int, nat) -> Option<Addr>)
    ensures FirstFailure(rs, m).None? <==> forall k :: 0 <= k < |rs| ==> Attempt(m, rs[k]).Some?
  {
    var r := FirstFailure(rs, m);
    if r.Some? {
      assert Attempt(m, rs[r.value]).None?;
    }
  }

  /** The effect of `open` once the device directory is found and its resource list read. */
  lemma OpenFoundEffect(rs0: seq<Resource>, entries: seq<DirEntry>, vendor: int, device: int,
                        devMemOpens: bool, m: (int, nat) -> Option<Addr>, j: nat, rs: seq<Resource>)
    requires OpenSafe(entries, vendor, device)
    requires FirstMatch(entries, vendor, device, 0) == Some(j)
    requires ResourceList(entries[j].resourceFile) == Success(rs)
    ensures OpenEffect(rs0, entries, vendor, device, devMemOpens, m) ==
              Effect(MapEffect(rs, devMemOpens, m).resource,
                     Unmaps(rs0) + MapEffect(rs, devMemOpens, m).calls,
                     MapEffect(rs, devMemOpens, m).outcome)
  {
  }

  /** Without a device directory or with an unusable resource file, `open` fails holding nothing. */
  lemma OpenEarlyFailure(rs0: seq<Resource>, entries: seq<DirEntry>, vendor: int, device: int,
                         devMemOpens: bool, m: (int, nat) -> Option<Addr>)
    requires OpenSafe(entries, vendor, device)
    requires var found := FirstMatch(entries, vendor, device, 0);
             found.None? || ResourceList(entries[found.value].resourceFile).Failure?
    ensures OpenEffect(rs0, entries, vendor, device, devMemOpens, m).resource == []
    ensures OpenEffect(rs0, entries, vendor, device, devMemOpens, m).calls == Unmaps(rs0)
    ensures OpenEffect(rs0, entries, vendor, device, devMemOpens, m).outcome.Fail?
  {
  }

  /**
   * `open` succeeds exactly when a directory matches, its resource file
   * lists some resource, `/dev/mem` opens and `mmap` accepts every entry.
   * The device then holds the resources of the first matching directory,
   * in file order, each mapped, and the calls are the `munmap`s of the old
   * list followed by one `mmap` per entry.
   */
  lemma OpenSuccess(rs0: seq<Resource>, entries: seq<DirEntry>, vendor: int, device: int,
                    devMemOpens: bool, m: (int, nat) -> Option<Addr>)
    requires OpenSafe(entries, vendor, device)
    ensures var e := OpenEffect(rs0, entries, vendor, device, devMemOpens, m);
            var found := FirstMatch(entries, vendor, device, 0);
            e.outcome.Pass? <==>
              found.Some? && ResourceList(entries[found.value].resourceFile).Success? && devMemOpens
              && FirstFailure(ResourceList(entries[found.value].resourceFile).value, m).None?
    ensures var e := OpenEffect(rs0, entries, vendor, device, devMemOpens, m);
            var found := FirstMatch(entries, vendor, device, 0);
            e.outcome.Pass? ==>
              var rs := Resources(entries[found.value].resourceFile.value);
              e.resource == Mapped(rs, m) && e.calls == Unmaps(rs0) + MmapCalls(rs, m)
              && forall k :: 0 <= k < |rs| ==> e.resource[k].baseAddr > 0
  {
    var found := FirstMatch(entries, vendor, device, 0);
    if found.Some? && ResourceList(entries[found.value].resourceFile).Success? {
      var rs := ResourceList(entries[found.value].resourceFile).value;
      OpenFoundEffect(rs0, entries, vendor, device, devMemOpens, m, found.value, rs);
      MapSuccessShape(rs, devMemOpens, m);
      FirstFailureNoneIff(rs, m);
    } else {
      OpenEarlyFailure(rs0, entries, vendor, device, devMemOpens, m);
    }
  }

  /**
   * `open` leaks no mapping: every address it gives back with `munmap` is
   * one the device held before or one `mmap` returned during the call, in
   * that order; on failure all of them are given back and the device holds
   * nothing, on success exactly the old ones are and the device holds the
   * new ones.
   */
  lemma OpenNoLeak(rs0: seq<Resource>, entries: seq<DirEntry>, vendor: int, device: int,
                   devMemOpens: bool, m: (int, nat) -> Option<Addr>)
    requires OpenSafe(entries, vendor, device)
    ensures var e := OpenEffect(rs0, entries, vendor, device, devMemOpens, m);
            e.outcome.Fail? ==>
              e.resource == [] && UnmappedAddrs(e.calls) == BaseAddrs(rs0) + MappedAddrs(e.calls)
    ensures var e := OpenEffect(rs0, entries, vendor, device, devMemOpens, m);
            e.outcome.Pass? ==>
              UnmappedAddrs(e.calls) == BaseAddrs(rs0) && MappedAddrs(e.calls) == BaseAddrs(e.resource)
  {
    var e := OpenEffect(rs0, entries, vendor, device, devMemOpens, m);
    UnmapsExactlyMapped(rs0);
    var found := FirstMatch(entries, vendor, device, 0);
    if found.Some? && ResourceList(entries[found.value].resourceFile).Success? {
      var rs := ResourceList(entries[found.value].resourceFile).value;
      OpenFoundEffect(rs0, entries, vendor, device, devMemOpens, m, found.value, rs);
      var me := MapEffect(rs, devMemOpens, m);
      assert e == Effect(me.resource, Unmaps(rs0) + me.calls, me.outcome);
      ResourceListUnmapped(entries[found.value].resourceFile);
      MapNoLeak(rs, devMemOpens, m);
      CallAddrsAppend(Unmaps(rs0), me.calls);
      assert UnmappedAddrs(e.calls) == BaseAddrs(rs0) + UnmappedAddrs(me.calls);
      assert MappedAddrs(e.calls) == MappedAddrs(me.calls);
    } else {
      OpenEarlyFailure(rs0, entries, vendor, device, devMemOpens, m);
      assert e.calls == Unmaps(rs0);
    }
  }

  /**
   * An id file that cannot be opened reads as -1, so the directory it
   * belongs to is never the one found unless -1 is the id asked for.
   */
  lemma UnreadableIdMatchesOnlyMinusOne(entries: seq<DirEntry>, vendor: int, device: int, k: nat)
    requires ScanSafe(entries, vendor, device, 0)
    requires k < |entries| && (entries[k].vendorFile.None? || entries[k].deviceFile.None?)
    requires FirstMatch(entries, vendor, device, 0) == Some(k)
    ensures entries[k].vendorFile.None? ==> vendor == -1
    ensures entries[k].deviceFile.None? ==> device == -1
  {
  }
}
