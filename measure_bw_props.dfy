/**
 * What the register protocol of `MeasureBw` promises: the stores a test
 * makes, the way it polls, where its result comes from, the words it
 * touches, and the stores of a whole `process` run.
 */
module MeasureBwProperties {
  import opened Wrappers
  import opened MeasureBw

  /*
   * ---------------------------------------------------------------------
   * Constants
   * ---------------------------------------------------------------------
   */

  /** The eleven register indices are distinct words of one block. */
  lemma RegistersDistinct()
    ensures REG_RADDR_H < REG_RADDR_L < REG_WADDR_H < REG_WADDR_L < REG_BLK_SIZE < REG_COUNT
            < REG_RRESULT_H < REG_RRESULT_L < REG_WRESULT_H < REG_WRESULT_L < REG_CTL_STAT < REGISTER_COUNT
  {
  }

  /** The PCI engine's block ends before the DDR engine's block begins. */
  lemma EnginesDisjoint()
    ensures MBW_PCI % 4 == 0 && MBW_DDR % 4 == 0
    ensures MBW_PCI / 4 + REGISTER_COUNT <= MBW_DDR / 4
  {
  }

  /** 1 GiB in bursts of 2048 bytes is 524288 bursts, and they cover the transfer exactly. */
  lemma BurstCountValue()
    ensures XFER_SIZE / BURST_SIZE as bv64 == BURST_COUNT as bv64
    ensures BURST_COUNT as bv64 * BURST_SIZE as bv64 == XFER_SIZE
  {
  }

  /*
   * ---------------------------------------------------------------------
   * The stores on a bus trace
   * ---------------------------------------------------------------------
   */

  /** The stores of a trace, in order. */
  function Stores(accesses: seq<Access>): (s: seq<Access>)
    ensures |s| <= |accesses|
    ensures forall i :: 0 <= i < |s| ==> s[i].Store?
  {
    if |accesses| == 0 then []
    else (if accesses[0].Store? then [accesses[0]] else []) + Stores(accesses[1..])
  }

  /** The stores of a trace are exactly the accesses of the trace that are stores. */
  lemma {:induction false} StoresMembers(accesses: seq<Access>)
    ensures forall a :: a in Stores(accesses) <==> a in accesses && a.Store?
  {
    if |accesses| > 0 {
      StoresMembers(accesses[1..]);
      assert accesses == [accesses[0]] + accesses[1..];
    }
  }

  /** The stores of two traces one after the other. */
  lemma {:induction false} StoresAppend(a: seq<Access>, b: seq<Access>)
    ensures Stores(a + b) == Stores(a) + Stores(b)
  {
    if |a| == 0 {
      assert a + b == b;
    } else {
      assert (a + b)[0] == a[0] && (a + b)[1..] == a[1..] + b;
      StoresAppend(a[1..], b);
    }
  }

  /** A trace that stores nothing. */
  lemma NoStores(accesses: seq<Access>)
    requires forall i :: 0 <= i < |accesses| ==> !accesses[i].Store?
    ensures Stores(accesses) == []
  {
    StoresMembers(accesses);
    if |Stores(accesses)| > 0 {
      assert Stores(accesses)[0] in Stores(accesses);
    }
  }

  /*
   * ---------------------------------------------------------------------
   * Polling
   * ---------------------------------------------------------------------
   */

  /** The accesses of a poll on `ctl`: loads and sleeps alternately, every load but the last seeing it busy. */
  ghost predicate PollTrace(p: seq<Access>, ctl: nat) {
    && |p| % 2 == 1
    && (forall i :: 0 <= i < |p| ==> if i % 2 == 0 then p[i].Load? && p[i].word == ctl else p[i] == Pause)
    && (forall i :: 0 <= i < |p| - 1 && p[i].Load? ==> p[i].value != 0)
  }

  /** A poll ends with a load of the control word it leaves, and is idle exactly when that load saw 0. */
  ghost predicate PollEnd(p: Poll, ctl: nat) {
    && ctl < |p.regs| && |p.accesses| > 0
    && p.accesses[|p.accesses| - 1] == Load(ctl, p.regs[ctl])
    && (p.idle <==> p.regs[ctl] == 0)
  }

  /**
   * A poll loads the control word and sleeps, alternately, going on only
   * while the control word is nonzero; it sleeps at most `fuel` times, and
   * it is idle exactly when its last load saw 0.
   */
  lemma {:induction false} PollShape(hardware: Hardware, regs: seq<bv32>, ctl: nat, fuel: nat)
    requires ctl < |regs|
    ensures PollTrace(PollFrom(hardware, regs, ctl, fuel).accesses, ctl)
    ensures |PollFrom(hardware, regs, ctl, fuel).accesses| <= 2 * fuel + 1
    ensures PollEnd(PollFrom(hardware, regs, ctl, fuel), ctl)
    decreases fuel
  {
    var p := PollFrom(hardware, regs, ctl, fuel);
    if regs[ctl] != 0 && fuel > 0 {
      var rest := PollFrom(hardware, Step(hardware, regs), ctl, fuel - 1);
      PollShape(hardware, Step(hardware, regs), ctl, fuel - 1);
      assert p.accesses == [Load(ctl, regs[ctl]), Pause] + rest.accesses;
      forall i | 2 <= i < |p.accesses|
        ensures p.accesses[i] == rest.accesses[i - 2] && (i - 2) % 2 == i % 2
      {
      }
    }
  }

  /** A poll that saw the engine idle sees the same with more sleeps allowed. */
  lemma {:induction false} PollFuelMonotone(hardware: Hardware, regs: seq<bv32>, ctl: nat, fuel: nat, more: nat)
    requires ctl < |regs| && fuel <= more
    requires PollFrom(hardware, regs, ctl, fuel).idle
    ensures PollFrom(hardware, regs, ctl, more) == PollFrom(hardware, regs, ctl, fuel)
    decreases fuel
  {
    if regs[ctl] != 0 {
      PollFuelMonotone(hardware, Step(hardware, regs), ctl, fuel - 1, more - 1);
    }
  }

  /** An engine that is idle already is seen idle at the first load, without a sleep. */
  lemma PollIdleAtOnce(hardware: Hardware, regs: seq<bv32>, ctl: nat, fuel: nat)
    requires ctl < |regs| && regs[ctl] == 0
    ensures PollFrom(hardware, regs, ctl, fuel).accesses == [Load(ctl, 0)]
    ensures PollFrom(hardware, regs, ctl, fuel).idle
  {
  }

  /*
   * ---------------------------------------------------------------------
   * One test
   * ---------------------------------------------------------------------
   */

  /** The other direction. */
  function Other(d: Direction): Direction {
    if d == ReadTest then WriteTest else ReadTest
  }

  /** Configuring an engine changes its five written registers and no other word. */
  lemma ConfiguredFrame(regs: seq<bv32>, d: Direction, base: nat, axiAddress: bv64, blockSize: bv32, blockCount: bv32)
    requires base + REGISTER_COUNT <= |regs|
    ensures forall i :: (0 <= i < |regs| && i != base + AddrHigh(d) && i != base + AddrLow(d) &&
                         i != base + REG_BLK_SIZE && i != base + REG_COUNT && i != base + REG_CTL_STAT) ==>
              Configured(regs, d, base, axiAddress, blockSize, blockCount)[i] == regs[i]
    ensures Configured(regs, d, base, axiAddress, blockSize, blockCount)[base + REG_CTL_STAT] != 0
    ensures Combine(Configured(regs, d, base, axiAddress, blockSize, blockCount)[base + AddrHigh(d)],
                    Configured(regs, d, base, axiAddress, blockSize, blockCount)[base + AddrLow(d)]) == axiAddress
  {
    SplitCombine(axiAddress);
  }

  /** A trace made only of stores keeps all of them. */
  lemma {:induction false} AllStores(accesses: seq<Access>)
    requires forall i :: 0 <= i < |accesses| ==> accesses[i].Store?
    ensures Stores(accesses) == accesses
  {
    if |accesses| > 0 {
      AllStores(accesses[1..]);
      assert accesses == [accesses[0]] + accesses[1..];
    }
  }

  /** The loads of the two result registers that end a finished test. */
  function ResultLoads(t: TestResult, d: Direction, base: nat): seq<Access>
    requires base + REGISTER_COUNT <= |t.regs|
  {
    [Load(base + ResultHigh(d), t.regs[base + ResultHigh(d)]), Load(base + ResultLow(d), t.regs[base + ResultLow(d)])]
  }

  /**
   * The accesses of test `t` on the engine at `base` in three parts: five
   * stores, a poll of the control word, and, when the poll's last load saw
   * 0, the loads of the two result registers, whose values the count joins.
   */
  ghost predicate TestTrace(t: TestResult, d: Direction, base: nat, setup: seq<Access>, poll: seq<Access>) {
    && base + REGISTER_COUNT <= |t.regs|
    && |setup| == 5 && (forall i :: 0 <= i < 5 ==> setup[i].Store?)
    && PollTrace(poll, base + REG_CTL_STAT) && (poll[|poll| - 1].value == 0 <==> t.cycles.Some?)
    && t.accesses == (if t.cycles.Some? then setup + poll + ResultLoads(t, d, base) else setup + poll)
    && (t.cycles.Some? ==> t.cycles.value == Combine(t.regs[base + ResultHigh(d)], t.regs[base + ResultLow(d)]))
  }

  /** Every test has that shape, with its configuration stores and its poll as the first two parts. */
  lemma TestHasTrace(hardware: Hardware, regs: seq<bv32>, d: Direction, base: nat,
                     axiAddress: bv64, blockSize: bv32, blockCount: bv32, fuel: nat)
    requires base + REGISTER_COUNT <= |regs|
    ensures TestTrace(Test(hardware, regs, d, base, axiAddress, blockSize, blockCount, fuel), d, base,
                      SetupStores(d, base, axiAddress, blockSize, blockCount),
                      PollFrom(hardware, Configured(regs, d, base, axiAddress, blockSize, blockCount), base + REG_CTL_STAT, fuel).accesses)
  {
    var configured := Configured(regs, d, base, axiAddress, blockSize, blockCount);
    var poll := PollFrom(hardware, configured, base + REG_CTL_STAT, fuel);
    PollShape(hardware, configured, base + REG_CTL_STAT, fuel);
    var setup := SetupStores(d, base, axiAddress, blockSize, blockCount);
    assert forall i :: 0 <= i < 5 ==> setup[i].Store?;
    var t := Test(hardware, regs, d, base, axiAddress, blockSize, blockCount, fuel);
    assert poll.accesses[|poll.accesses| - 1].value == poll.regs[base + REG_CTL_STAT];
    if poll.idle {
      assert t.accesses == setup + poll.accesses + ResultLoads(t, d, base);
    } else {
      assert t.accesses == setup + poll.accesses && t.cycles == None;
    }
  }

  /** The stores of such a trace are its first part. */
  lemma TraceStores(t: TestResult, d: Direction, base: nat, setup: seq<Access>, poll: seq<Access>)
    requires TestTrace(t, d, base, setup, poll)
    ensures Stores(t.accesses) == setup
  {
    AllStores(setup);
    NoStores(poll);
    StoresAppend(setup, poll);
    if t.cycles.Some? {
      NoStores(ResultLoads(t, d, base));
      StoresAppend(setup + poll, ResultLoads(t, d, base));
    }
  }

  /** Every word such a trace touches is a store's word, the control word or a result register. */
  lemma TraceWords(t: TestResult, d: Direction, base: nat, setup: seq<Access>, poll: seq<Access>)
    requires TestTrace(t, d, base, setup, poll)
    ensures forall x :: x in t.accesses && !x.Pause? ==>
              x in setup || x.word in {base + REG_CTL_STAT, base + ResultHigh(d), base + ResultLow(d)}
  {
    forall x | x in poll && !x.Pause?
      ensures x.word == base + REG_CTL_STAT
    {
      var i :| 0 <= i < |poll| && poll[i] == x;
    }
  }

  /**
   * How test `t` on the engine at `base` ends. When it never saw the engine
   * idle, its last access is a load of a nonzero control word. Otherwise
   * its last three accesses are a load of the control word that saw 0 and
   * the loads of the high and the low result register, and its count joins
   * the two values loaded.
   */
  ghost predicate EndsAsTest(t: TestResult, d: Direction, base: nat) {
    var a := t.accesses;
    var n := |a|;
    && base + REGISTER_COUNT <= |t.regs|
    && n >= 6
    && (t.cycles.None? ==> a[n - 1].Load? && a[n - 1].word == base + REG_CTL_STAT && a[n - 1].value != 0)
    && (t.cycles.Some? ==>
          && n >= 8
          && a[n - 3] == Load(base + REG_CTL_STAT, 0)
          && a[n - 2] == Load(base + ResultHigh(d), t.regs[base + ResultHigh(d)])
          && a[n - 1] == Load(base + ResultLow(d), t.regs[base + ResultLow(d)])
          && t.cycles.value == Combine(a[n - 2].value, a[n - 1].value))
  }

  /**
   * Test `t` loads nothing but the control word before its last two
   * accesses, and sees the control word at 0 only once, right before them.
   */
  ghost predicate ResultsLoadedLast(t: TestResult, base: nat) {
    var a := t.accesses;
    && (forall i :: 0 <= i < |a| && a[i].Load? && a[i].word != base + REG_CTL_STAT ==> t.cycles.Some? && i >= |a| - 2)
    && (forall i :: 0 <= i < |a| && a[i] == Load(base + REG_CTL_STAT, 0) ==> t.cycles.Some? && i == |a| - 3)
  }

  /** A trace of that shape ends as a test does. */
  lemma TraceEnds(t: TestResult, d: Direction, base: nat, setup: seq<Access>, poll: seq<Access>)
    requires TestTrace(t, d, base, setup, poll)
    ensures EndsAsTest(t, d, base)
  {
    assert poll[|poll| - 1].Load? by {
      assert (|poll| - 1) % 2 == 0;
    }
    if t.cycles.Some? {
      assert t.accesses[|t.accesses| - 3] == poll[|poll| - 1];
    }
  }

  /** In a trace of that shape the result registers are loaded last. */
  lemma TraceLoads(t: TestResult, d: Direction, base: nat, setup: seq<Access>, poll: seq<Access>)
    requires TestTrace(t, d, base, setup, poll)
    ensures ResultsLoadedLast(t, base)
  {
    var a := t.accesses;
    var m := |poll|;
    assert poll[m - 1].Load? by {
      assert (m - 1) % 2 == 0;
    }
    forall i | 0 <= i < |a|
      ensures i < 5 ==> a[i] == setup[i]
      ensures 5 <= i < 5 + m ==> a[i] == poll[i - 5]
      ensures 5 + m <= i ==> t.cycles.Some? && a[i] == ResultLoads(t, d, base)[i - 5 - m]
    {
    }
  }

  /**
   * A test stores exactly its five configuration stores, in order: the
   * direction's address pair, the burst size, the burst count, then the
   * start code.
   */
  lemma TestStores(hardware: Hardware, regs: seq<bv32>, d: Direction, base: nat,
                   axiAddress: bv64, blockSize: bv32, blockCount: bv32, fuel: nat)
    requires base + REGISTER_COUNT <= |regs|
    ensures Stores(Test(hardware, regs, d, base, axiAddress, blockSize, blockCount, fuel).accesses)
            == SetupStores(d, base, axiAddress, blockSize, blockCount)
  {
    TestHasTrace(hardware, regs, d, base, axiAddress, blockSize, blockCount, fuel);
    TraceStores(Test(hardware, regs, d, base, axiAddress, blockSize, blockCount, fuel), d, base,
                SetupStores(d, base, axiAddress, blockSize, blockCount),
                PollFrom(hardware, Configured(regs, d, base, axiAddress, blockSize, blockCount), base + REG_CTL_STAT, fuel).accesses);
  }

  /**
   * So a test never stores into the other direction's address registers or
   * into any result register, and every store sets a register of its own
   * engine to the value the configuration asks for.
   */
  lemma SetupStoresAvoid(d: Direction, base: nat, axiAddress: bv64, blockSize: bv32, blockCount: bv32)
    ensures forall x :: x in SetupStores(d, base, axiAddress, blockSize, blockCount) ==>
              && x.Store? && base <= x.word < base + REGISTER_COUNT
              && x.word != base + AddrHigh(Other(d)) && x.word != base + AddrLow(Other(d))
              && x.word != base + REG_RRESULT_H && x.word != base + REG_RRESULT_L
              && x.word != base + REG_WRESULT_H && x.word != base + REG_WRESULT_L
  {
  }

  /** Every word a test loads or stores lies in the engine's block of eleven registers. */
  lemma TestWithinEngine(hardware: Hardware, regs: seq<bv32>, d: Direction, base: nat,
                         axiAddress: bv64, blockSize: bv32, blockCount: bv32, fuel: nat)
    requires base + REGISTER_COUNT <= |regs|
    ensures forall x :: x in Test(hardware, regs, d, base, axiAddress, blockSize, blockCount, fuel).accesses && !x.Pause? ==>
              base <= x.word < base + REGISTER_COUNT
  {
    TestHasTrace(hardware, regs, d, base, axiAddress, blockSize, blockCount, fuel);
    SetupStoresAvoid(d, base, axiAddress, blockSize, blockCount);
    TraceWords(Test(hardware, regs, d, base, axiAddress, blockSize, blockCount, fuel), d, base,
               SetupStores(d, base, axiAddress, blockSize, blockCount),
               PollFrom(hardware, Configured(regs, d, base, axiAddress, blockSize, blockCount), base + REG_CTL_STAT, fuel).accesses);
  }

  /**
   * How a test ends: a test that never saw the engine idle gives no count,
   * and a finished one reads the two result registers right after the
   * load that saw the engine idle, and returns them joined.
   */
  lemma TestEnds(hardware: Hardware, regs: seq<bv32>, d: Direction, base: nat,
                 axiAddress: bv64, blockSize: bv32, blockCount: bv32, fuel: nat)
    requires base + REGISTER_COUNT <= |regs|
    ensures EndsAsTest(Test(hardware, regs, d, base, axiAddress, blockSize, blockCount, fuel), d, base)
  {
    TestHasTrace(hardware, regs, d, base, axiAddress, blockSize, blockCount, fuel);
    TraceEnds(Test(hardware, regs, d, base, axiAddress, blockSize, blockCount, fuel), d, base,
              SetupStores(d, base, axiAddress, blockSize, blockCount),
              PollFrom(hardware, Configured(regs, d, base, axiAddress, blockSize, blockCount), base + REG_CTL_STAT, fuel).accesses);
  }

  /** The result registers are read only after the poll saw the engine idle. */
  lemma TestLoadsResultsAfterIdle(hardware: Hardware, regs: seq<bv32>, d: Direction, base: nat,
                                  axiAddress: bv64, blockSize: bv32, blockCount: bv32, fuel: nat)
    requires base + REGISTER_COUNT <= |regs|
    ensures ResultsLoadedLast(Test(hardware, regs, d, base, axiAddress, blockSize, blockCount, fuel), base)
  {
    TestHasTrace(hardware, regs, d, base, axiAddress, blockSize, blockCount, fuel);
    TraceLoads(Test(hardware, regs, d, base, axiAddress, blockSize, blockCount, fuel), d, base,
               SetupStores(d, base, axiAddress, blockSize, blockCount),
               PollFrom(hardware, Configured(regs, d, base, axiAddress, blockSize, blockCount), base + REG_CTL_STAT, fuel).accesses);
  }

  /*
   * ---------------------------------------------------------------------
   * A whole run
   * ---------------------------------------------------------------------
   */

  /** The configuration stores of measurement `m` as `process` runs it. */
  function SetupOf(m: Measurement): seq<Access> {
    SetupStores(m.d, m.deviceAddress / 4, m.axiAddress, BURST_SIZE, BURST_COUNT)
  }

  /** The configuration stores of each measurement of a plan, one plan entry after another. */
  function PlanStores(plan: seq<Measurement>): seq<Access> {
    if |plan| == 0 then [] else SetupOf(plan[0]) + PlanStores(plan[1..])
  }

  /** The stores of the first `j + 1` measurements of a plan. */
  lemma PlanStoresPrefix(plan: seq<Measurement>, j: nat)
    requires j < |plan|
    ensures j == 0 ==> PlanStores(plan[..1]) == SetupOf(plan[0])
    ensures PlanStores(plan[..j + 1]) == SetupOf(plan[0]) + PlanStores(plan[1..][..j])
  {
    var started := plan[..j + 1];
    assert started[0] == plan[0] && started[1..] == plan[1..][..j];
    if j == 0 {
      assert PlanStores(started) == SetupOf(plan[0]) + [];
      assert SetupOf(plan[0]) + [] == SetupOf(plan[0]);
    }
  }

  /** What fits a mapping still fits it without its first measurement. */
  lemma PlanFitsTail(plan: seq<Measurement>, words: nat)
    requires PlanFits(plan, words) && |plan| > 0
    ensures PlanFits(plan[1..], words)
  {
    forall k | 0 <= k < |plan[1..]|
      ensures Fits(plan[1..][k], words)
    {
      assert plan[1..][k] == plan[k + 1];
    }
  }

  /**
   * A run stores the configurations of the measurements it started, in
   * plan order: all of them when every measurement finished, and up to the
   * first one that did not finish otherwise, with no store after it.
   */
  lemma {:induction false} RunStores(hardware: Hardware, regs: seq<bv32>, plan: seq<Measurement>, fuel: nat)
    requires PlanFits(plan, |regs|)
    ensures |RunPlan(hardware, regs, plan, fuel).cycles| == |plan| ==>
              Stores(RunPlan(hardware, regs, plan, fuel).accesses) == PlanStores(plan)
    ensures |RunPlan(hardware, regs, plan, fuel).cycles| < |plan| ==>
              Stores(RunPlan(hardware, regs, plan, fuel).accesses) == PlanStores(plan[..|RunPlan(hardware, regs, plan, fuel).cycles| + 1])
    decreases |plan|
  {
    if |plan| > 0 {
      var r := RunPlan(hardware, regs, plan, fuel);
      var m := plan[0];
      assert Fits(m, |regs|);
      var t := TestOf(hardware, regs, m, fuel);
      TestStores(hardware, regs, m.d, m.deviceAddress / 4, m.axiAddress, BURST_SIZE, BURST_COUNT, fuel);
      assert Stores(t.accesses) == SetupOf(m);
      if t.cycles.None? {
        assert r.accesses == t.accesses && |r.cycles| == 0;
        PlanStoresPrefix(plan, 0);
      } else {
        var rest := RunPlan(hardware, t.regs, plan[1..], fuel);
        assert r.accesses == t.accesses + rest.accesses && |r.cycles| == 1 + |rest.cycles|;
        PlanFitsTail(plan, |regs|);
        RunStores(hardware, t.regs, plan[1..], fuel);
        StoresAppend(t.accesses, rest.accesses);
        if |rest.cycles| < |plan[1..]| {
          PlanStoresPrefix(plan, |rest.cycles| + 1);
        }
      }
    }
  }

  /**
   * `process`: when all four measurements finish, the stores on the bus
   * are the PCI write, DDR write, PCI read and DDR read configurations, in
   * that order; the PCI tests target the buffer and the DDR tests address 0.
   */
  lemma ProcessStores(hardware: Hardware, regs: seq<bv32>, contigAddress: bv64, fuel: nat)
    requires MBW_DDR / 4 + REGISTER_COUNT <= |regs|
    ensures PlanFits(Plan(contigAddress), |regs|)
    ensures |RunPlan(hardware, regs, Plan(contigAddress), fuel).cycles| == 4 ==>
              Stores(RunPlan(hardware, regs, Plan(contigAddress), fuel).accesses) ==
                SetupStores(WriteTest, 0x400, contigAddress, BURST_SIZE, BURST_COUNT)
                + SetupStores(WriteTest, 0x800, 0, BURST_SIZE, BURST_COUNT)
                + SetupStores(ReadTest, 0x400, contigAddress, BURST_SIZE, BURST_COUNT)
                + SetupStores(ReadTest, 0x800, 0, BURST_SIZE, BURST_COUNT)
  {
    PlanFitsMapping(contigAddress, |regs|);
    RunStores(hardware, regs, Plan(contigAddress), fuel);
    ProcessPlanStores(contigAddress);
  }

  /** The configuration stores of the four measurements of `process`, written out. */
  lemma ProcessPlanStores(contigAddress: bv64)
    ensures |Plan(contigAddress)| == 4
    ensures PlanStores(Plan(contigAddress)) ==
              SetupStores(WriteTest, 0x400, contigAddress, BURST_SIZE, BURST_COUNT)
              + SetupStores(WriteTest, 0x800, 0, BURST_SIZE, BURST_COUNT)
              + SetupStores(ReadTest, 0x400, contigAddress, BURST_SIZE, BURST_COUNT)
              + SetupStores(ReadTest, 0x800, 0, BURST_SIZE, BURST_COUNT)
    ensures PlanStores(Plan(contigAddress)[..1]) == SetupStores(WriteTest, 0x400, contigAddress, BURST_SIZE, BURST_COUNT)
  {
    PlanStoresFour(Plan(contigAddress));
    PlanStoresPrefix(Plan(contigAddress), 0);
  }

  /** The stores of a four-measurement plan, written out. */
  lemma PlanStoresFour(plan: seq<Measurement>)
    requires |plan| == 4
    ensures PlanStores(plan) == SetupOf(plan[0]) + SetupOf(plan[1]) + SetupOf(plan[2]) + SetupOf(plan[3])
  {
    var p1, p2, p3 := plan[1..], plan[2..], plan[3..];
    assert p1[0] == plan[1] && p1[1..] == p2;
    assert p2[0] == plan[2] && p2[1..] == p3;
    assert p3[0] == plan[3] && p3[1..] == [];
    assert PlanStores(p3) == SetupOf(plan[3]) + [];
    assert SetupOf(plan[3]) + [] == SetupOf(plan[3]);
    assert PlanStores(p2) == SetupOf(plan[2]) + SetupOf(plan[3]);
    assert PlanStores(p1) == SetupOf(plan[1]) + (SetupOf(plan[2]) + SetupOf(plan[3]));
    assert PlanStores(plan) == SetupOf(plan[0]) + (SetupOf(plan[1]) + (SetupOf(plan[2]) + SetupOf(plan[3])));
    Regroup4(SetupOf(plan[0]), SetupOf(plan[1]), SetupOf(plan[2]), SetupOf(plan[3]));
  }

  lemma Regroup4(a: seq<Access>, b: seq<Access>, c: seq<Access>, e: seq<Access>)
    ensures a + (b + (c + e)) == a + b + c + e
  {
    assert b + (c + e) == b + c + e;
  }

  /** A run that stopped early stored nothing for the measurements after the one that did not finish. */
  lemma ProcessStopsEarly(hardware: Hardware, regs: seq<bv32>, contigAddress: bv64, fuel: nat)
    requires MBW_DDR / 4 + REGISTER_COUNT <= |regs|
    ensures PlanFits(Plan(contigAddress), |regs|)
    ensures |RunPlan(hardware, regs, Plan(contigAddress), fuel).cycles| == 0 ==>
              Stores(RunPlan(hardware, regs, Plan(contigAddress), fuel).accesses) == SetupStores(WriteTest, 0x400, contigAddress, BURST_SIZE, BURST_COUNT)
  {
    PlanFitsMapping(contigAddress, |regs|);
    RunStores(hardware, regs, Plan(contigAddress), fuel);
    ProcessPlanStores(contigAddress);
  }
}
