/**
 * The register protocol of the "measure bandwidth" engines. An engine is
 * a block of eleven 32-bit registers inside the memory-mapped resource 0
 * of the PCI device. A measurement writes the target address, the burst
 * size and the burst count, starts the engine, polls its control register
 * until the engine clears it, and reads back a 64-bit cycle count as two
 * halves. `process` runs four such measurements in a fixed order.
 *
 * The mapping is an array of words. The hardware is an oracle that gives
 * each word's next value while the program sleeps between polls. Every
 * load, store and sleep is recorded on a bus trace.
 */
module MeasureBw {
  import opened Wrappers

  /** Byte offsets of the two engines inside resource 0. */
  const MBW_PCI: nat := 0x1000
  const MBW_DDR: nat := 0x2000

  /** The engine's register map (word indices). */
  const REG_RADDR_H: nat := 0
  const REG_RADDR_L: nat := 1
  const REG_WADDR_H: nat := 2
  const REG_WADDR_L: nat := 3
  const REG_BLK_SIZE: nat := 4
  const REG_COUNT: nat := 5
  const REG_RRESULT_H: nat := 6
  const REG_RRESULT_L: nat := 7
  const REG_WRESULT_H: nat := 8
  const REG_WRESULT_L: nat := 9
  const REG_CTL_STAT: nat := 10
  const REGISTER_COUNT: nat := 11

  /** What is written to `CTL_STAT` to start a measurement. */
  const START_READ: bv32 := 1
  const START_WRITE: bv32 := 2

  /** `process` moves 1 GiB in bursts of 2048 bytes. */
  const XFER_SIZE: bv64 := 1024 * 1024 * 1024
  const BURST_SIZE: bv32 := 2048
  /** The burst count of every measurement, `xferSize / burstSize` (see `BurstCountValue`). */
  const BURST_COUNT: bv32 := 524288

  /*
   * ---------------------------------------------------------------------
   * Splitting and joining 64-bit values
   * ---------------------------------------------------------------------
   */

  /** `HI32(x)`: the upper 32 bits of `x`, as a 64-bit value. */
  function Hi32(x: bv64): (h: bv64)
    ensures h <= 0xFFFF_FFFF
  {
    (x >> 32) & 0xFFFF_FFFF
  }

  /** `LO32(x)`: the lower 32 bits of `x`, as a 64-bit value. */
  function Lo32(x: bv64): (l: bv64)
    ensures l <= 0xFFFF_FFFF
  {
    x & 0xFFFF_FFFF
  }

  /** `(hi << 32) | lo` on two register values widened to 64 bits. */
  function Combine(hi: bv32, lo: bv32): bv64 {
    ((hi as bv64) << 32) | (lo as bv64)
  }

  /** Splitting a value and joining the halves gives the value back. */
  lemma SplitCombine(x: bv64)
    ensures Combine(Hi32(x) as bv32, Lo32(x) as bv32) == x
    ensures (Hi32(x) << 32) | Lo32(x) == x
  {
  }

  /** Joining two halves and splitting the result gives the halves back. */
  lemma CombineSplit(hi: bv32, lo: bv32)
    ensures Hi32(Combine(hi, lo)) == hi as bv64
    ensures Lo32(Combine(hi, lo)) == lo as bv64
  {
  }

  /** So a high half of 1 and a low half of 0 give 2^32. */
  lemma CombineExample()
    ensures Combine(1, 0) == 0x1_0000_0000
  {
  }

  /*
   * ---------------------------------------------------------------------
   * What the bus sees
   * ---------------------------------------------------------------------
   */

  /** One access to the mapping: a load or a store of a word, or a sleep between polls. */
  datatype Access = Load(word: nat, value: bv32) | Store(word: nat, value: bv32) | Pause

  /**
   * The device behind the mapping: given the words before a sleep, the words
   * after it. The mapping keeps its size whatever the device answers.
   */
  type Hardware = seq<bv32> -> seq<bv32>

  /** The words after the hardware ran for one sleep. */
  function Step(hardware: Hardware, regs: seq<bv32>): (next: seq<bv32>)
    ensures |next| == |regs|
  {
    var next := hardware(regs);
    if |next| == |regs| then next else regs
  }

  /** The accesses of a poll, the words after it, and whether the engine was seen idle. */
  datatype Poll = Poll(accesses: seq<Access>, regs: seq<bv32>, idle: bool)

  /**
   * `while (engine[CTL_STAT]) usleep(...)`: load the control word; while it
   * is nonzero, sleep and load it again. `fuel` bounds the number of sleeps;
   * `idle` is false when the engine was still busy when it ran out.
   */
  function PollFrom(hardware: Hardware, regs: seq<bv32>, ctl: nat, fuel: nat): (p: Poll)
    requires ctl < |regs|
    ensures |p.regs| == |regs|
    decreases fuel
  {
    if regs[ctl] == 0 then Poll([Load(ctl, 0)], regs, true)
    else if fuel == 0 then Poll([Load(ctl, regs[ctl])], regs, false)
    else
      var rest := PollFrom(hardware, Step(hardware, regs), ctl, fuel - 1);
      Poll([Load(ctl, regs[ctl]), Pause] + rest.accesses, rest.regs, rest.idle)
  }

  /** A read test or a write test. */
  datatype Direction = ReadTest | WriteTest

  /** The address registers a test writes. */
  function AddrHigh(d: Direction): nat {
    if d == ReadTest then REG_RADDR_H else REG_WADDR_H
  }

  function AddrLow(d: Direction): nat {
    if d == ReadTest then REG_RADDR_L else REG_WADDR_L
  }

  /** The result registers a test reads. */
  function ResultHigh(d: Direction): nat {
    if d == ReadTest then REG_RRESULT_H else REG_WRESULT_H
  }

  function ResultLow(d: Direction): nat {
    if d == ReadTest then REG_RRESULT_L else REG_WRESULT_L
  }

  function StartCode(d: Direction): bv32 {
    if d == ReadTest then START_READ else START_WRITE
  }

  /** The five stores that configure and start an engine at word `base`, in order. */
  function SetupStores(d: Direction, base: nat, axiAddress: bv64, blockSize: bv32, blockCount: bv32): seq<Access> {
    [ Store(base + AddrHigh(d), Hi32(axiAddress) as bv32),
      Store(base + AddrLow(d), Lo32(axiAddress) as bv32),
      Store(base + REG_BLK_SIZE, blockSize),
      Store(base + REG_COUNT, blockCount),
      Store(base + REG_CTL_STAT, StartCode(d)) ]
  }

  /** The words after the five configuration stores. */
  function Configured(regs: seq<bv32>, d: Direction, base: nat, axiAddress: bv64, blockSize: bv32, blockCount: bv32)
    : (r: seq<bv32>)
    requires base + REGISTER_COUNT <= |regs|
    ensures |r| == |regs|
  {
    regs[base + AddrHigh(d) := Hi32(axiAddress) as bv32]
        [base + AddrLow(d) := Lo32(axiAddress) as bv32]
        [base + REG_BLK_SIZE := blockSize]
        [base + REG_COUNT := blockCount]
        [base + REG_CTL_STAT := StartCode(d)]
  }

  /** The accesses of a test, the words after it, and the cycle count (`None` if it never finished). */
  datatype TestResult = TestResult(accesses: seq<Access>, regs: seq<bv32>, cycles: Option<bv64>)

  /**
   * One measurement on the engine at word `base`: configure and start it,
   * poll until it is idle, then read the two result halves.
   */
  function Test(hardware: Hardware, regs: seq<bv32>, d: Direction, base: nat,
                axiAddress: bv64, blockSize: bv32, blockCount: bv32, fuel: nat): (t: TestResult)
    requires base + REGISTER_COUNT <= |regs|
    ensures |t.regs| == |regs|
  {
    var setup := SetupStores(d, base, axiAddress, blockSize, blockCount);
    var poll := PollFrom(hardware, Configured(regs, d, base, axiAddress, blockSize, blockCount), base + REG_CTL_STAT, fuel);
    if !poll.idle then TestResult(setup + poll.accesses, poll.regs, None)
    else
      var hi := poll.regs[base + ResultHigh(d)];
      var lo := poll.regs[base + ResultLow(d)];
      TestResult(setup + poll.accesses + [Load(base + ResultHigh(d), hi), Load(base + ResultLow(d), lo)],
                 poll.regs, Some(Combine(hi, lo)))
  }

  /** One step of `process`: the direction, the engine's byte offset and the target address. */
  datatype Measurement = Measurement(d: Direction, deviceAddress: nat, axiAddress: bv64)

  /** The four measurements of `process`, in order. */
  function Plan(contigAddress: bv64): seq<Measurement> {
    [ Measurement(WriteTest, MBW_PCI, contigAddress),
      Measurement(WriteTest, MBW_DDR, 0),
      Measurement(ReadTest, MBW_PCI, contigAddress),
      Measurement(ReadTest, MBW_DDR, 0) ]
  }

  /** The plan's engines fit in any mapping that holds the DDR engine's registers. */
  lemma PlanFitsMapping(contigAddress: bv64, words: nat)
    requires MBW_DDR / 4 + REGISTER_COUNT <= words
    ensures PlanFits(Plan(contigAddress), words)
  {
  }

  /** The engine `m` addresses fits in the mapping, at a word boundary. */
  predicate Fits(m: Measurement, words: nat) {
    m.deviceAddress % 4 == 0 && m.deviceAddress / 4 + REGISTER_COUNT <= words
  }

  /** Every engine of `plan` fits in a mapping of `words` words. */
  predicate PlanFits(plan: seq<Measurement>, words: nat) {
    forall k :: 0 <= k < |plan| ==> Fits(plan[k], words)
  }

  /** Measurement `m` as `process` runs it: 1 GiB in bursts of `BURST_SIZE` bytes. */
  function TestOf(hardware: Hardware, regs: seq<bv32>, m: Measurement, fuel: nat): (t: TestResult)
    requires Fits(m, |regs|)
    ensures |t.regs| == |regs|
  {
    Test(hardware, regs, m.d, m.deviceAddress / 4, m.axiAddress, BURST_SIZE, BURST_COUNT, fuel)
  }

  /** The results of running `plan` in order, stopping after the first measurement that never finishes. */
  datatype Run = Run(accesses: seq<Access>, regs: seq<bv32>, cycles: seq<bv64>)

  function RunPlan(hardware: Hardware, regs: seq<bv32>, plan: seq<Measurement>, fuel: nat): (r: Run)
    requires PlanFits(plan, |regs|)
    ensures |r.cycles| <= |plan|
    decreases |plan|
  {
    if |plan| == 0 then Run([], regs, [])
    else
      assert Fits(plan[0], |regs|);
      var t := TestOf(hardware, regs, plan[0], fuel);
      if t.cycles.None? then Run(t.accesses, t.regs, [])
      else
        var rest := RunPlan(hardware, t.regs, plan[1..], fuel);
        Run(t.accesses + rest.accesses, rest.regs, [t.cycles.value] + rest.cycles)
  }

  /*
   * ---------------------------------------------------------------------
   * The mapped resource and the measurement routines
   * ---------------------------------------------------------------------
   */

  /**
   * Resource 0 of the device as the program sees it: its words, the
   * hardware behind them, and the accesses made so far.
   */
  class Bar {
    const words: array<bv32>
    const hardware: Hardware
    var bus: seq<Access>

    constructor (words: array<bv32>, hardware: Hardware)
      ensures this.words == words && this.hardware == hardware && bus == []
    {
      this.words := words;
      this.hardware := hardware;
      bus := [];
    }

    method StoreWord(w: nat, v: bv32)
      requires w < words.Length
      modifies this, words
      ensures words[..] == old(words[..])[w := v]
      ensures bus == old(bus) + [Store(w, v)]
    {
      words[w] := v;
      bus := bus + [Store(w, v)];
    }

    method LoadWord(w: nat) returns (v: bv32)
      requires w < words.Length
      modifies this
      ensures v == words[w]
      ensures bus == old(bus) + [Load(w, v)]
    {
      v := words[w];
      bus := bus + [Load(w, v)];
    }

    /** `usleep`: the hardware runs and may change any word. */
    method Sleep()
      modifies this, words
      ensures words[..] == Step(hardware, old(words[..]))
      ensures bus == old(bus) + [Pause]
    {
      var next := Step(hardware, words[..]);
      forall i | 0 <= i < words.Length {
        words[i] := next[i];
      }
      bus := bus + [Pause];
    }

    /** The poll loop on the control word `ctl`, allowed `fuel` sleeps. */
    method WaitIdle(ctl: nat, fuel: nat) returns (idle: bool)
      requires ctl < words.Length
      modifies this, words
      ensures bus == old(bus) + PollFrom(hardware, old(words[..]), ctl, fuel).accesses
      ensures words[..] == PollFrom(hardware, old(words[..]), ctl, fuel).regs
      ensures idle == PollFrom(hardware, old(words[..]), ctl, fuel).idle
    {
      ghost var cur := words[..];
      ghost var whole := PollFrom(hardware, cur, ctl, fuel);
      ghost var done: seq<Access> := [];
      ghost var before := bus;
      var f := fuel;
      var status := LoadWord(ctl);
      while status != 0 && f > 0
        invariant cur == words[..] && ctl < |cur| && status == cur[ctl]
        invariant before == old(bus) + done && bus == before + [Load(ctl, status)]
        invariant var p := PollFrom(hardware, cur, ctl, f);
                  whole == Poll(done + p.accesses, p.regs, p.idle)
        decreases f
      {
        PollAgain(hardware, cur, ctl, f);
        ShiftPoll(done, [Load(ctl, status), Pause], PollFrom(hardware, Step(hardware, cur), ctl, f - 1).accesses);
        Regroup2(old(bus), done, [Load(ctl, status), Pause]);
        Sleep();
        cur := words[..];
        done := done + [Load(ctl, status), Pause];
        before := bus;
        f := f - 1;
        status := LoadWord(ctl);
      }
      PollDone(hardware, cur, ctl, f);
      Regroup2(old(bus), done, [Load(ctl, status)]);
      idle := status == 0;
    }

    /**
     * The configuration both measurement routines perform on the engine at
     * word `engine`: the target address into the direction's address
     * registers, then the burst size and count, then the start code.
     */
    method Configure(d: Direction, engine: nat, axiAddress: bv64, blockSize: bv32, blockCount: bv32)
      requires engine + REGISTER_COUNT <= words.Length
      modifies this, words
      ensures words[..] == Configured(old(words[..]), d, engine, axiAddress, blockSize, blockCount)
      ensures bus == old(bus) + SetupStores(d, engine, axiAddress, blockSize, blockCount)
    {
      StoreWord(engine + AddrHigh(d), Hi32(axiAddress) as bv32);
      StoreWord(engine + AddrLow(d), Lo32(axiAddress) as bv32);
      StoreWord(engine + REG_BLK_SIZE, blockSize);
      StoreWord(engine + REG_COUNT, blockCount);
      StoreWord(engine + REG_CTL_STAT, StartCode(d));
    }

    /** `measureReadBandwidth`: one read test on the engine at byte offset `deviceAddress`. */
    method MeasureReadBandwidth(deviceAddress: nat, axiAddress: bv64, blockSize: bv32, blockCount: bv32, fuel: nat)
      returns (cycles: Option<bv64>)
      requires deviceAddress % 4 == 0 && deviceAddress / 4 + REGISTER_COUNT <= words.Length
      modifies this, words
      ensures var t := Test(hardware, old(words[..]), ReadTest, deviceAddress / 4, axiAddress, blockSize, blockCount, fuel);
              bus == old(bus) + t.accesses && words[..] == t.regs && cycles == t.cycles
    {
      var engine := deviceAddress / 4;
      ghost var regs := words[..];
      ghost var start := bus;
      ghost var t := Test(hardware, regs, ReadTest, engine, axiAddress, blockSize, blockCount, fuel);
      ghost var setup := SetupStores(ReadTest, engine, axiAddress, blockSize, blockCount);
      Configure(ReadTest, engine, axiAddress, blockSize, blockCount);
      ghost var poll := PollFrom(hardware, words[..], engine + REG_CTL_STAT, fuel);
      TestSteps(hardware, regs, ReadTest, engine, axiAddress, blockSize, blockCount, fuel, setup, poll, t);
      var idle := WaitIdle(engine + REG_CTL_STAT, fuel);
      assert bus == start + setup + poll.accesses && words[..] == poll.regs && idle == poll.idle;
      if !idle {
        Regroup2(start, setup, poll.accesses);
        return None;
      }
      ghost var polled := bus;
      var resultHi := LoadWord(engine + REG_RRESULT_H);
      assert resultHi == poll.regs[engine + REG_RRESULT_H];
      var resultLo := LoadWord(engine + REG_RRESULT_L);
      assert resultLo == poll.regs[engine + REG_RRESULT_L];
      assert poll.idle && ResultHigh(ReadTest) == REG_RRESULT_H && ResultLow(ReadTest) == REG_RRESULT_L;
      ghost var results := [Load(engine + REG_RRESULT_H, resultHi), Load(engine + REG_RRESULT_L, resultLo)];
      assert t.accesses == setup + poll.accesses + results;
      Append2(polled, results[0], results[1]);
      assert bus == polled + results;
      Regroup3(start, setup, poll.accesses, results);
      return Some(Combine(resultHi, resultLo));
    }

    /** `measureWriteBandwidth`: one write test on the engine at byte offset `deviceAddress`. */
    method MeasureWriteBandwidth(deviceAddress: nat, axiAddress: bv64, blockSize: bv32, blockCount: bv32, fuel: nat)
      returns (cycles: Option<bv64>)
      requires deviceAddress % 4 == 0 && deviceAddress / 4 + REGISTER_COUNT <= words.Length
      modifies this, words
      ensures var t := Test(hardware, old(words[..]), WriteTest, deviceAddress / 4, axiAddress, blockSize, blockCount, fuel);
              bus == old(bus) + t.accesses && words[..] == t.regs && cycles == t.cycles
    {
      var engine := deviceAddress / 4;
      ghost var regs := words[..];
      ghost var start := bus;
      ghost var t := Test(hardware, regs, WriteTest, engine, axiAddress, blockSize, blockCount, fuel);
      ghost var setup := SetupStores(WriteTest, engine, axiAddress, blockSize, blockCount);
      Configure(WriteTest, engine, axiAddress, blockSize, blockCount);
      ghost var poll := PollFrom(hardware, words[..], engine + REG_CTL_STAT, fuel);
      TestSteps(hardware, regs, WriteTest, engine, axiAddress, blockSize, blockCount, fuel, setup, poll, t);
      var idle := WaitIdle(engine + REG_CTL_STAT, fuel);
      assert bus == start + setup + poll.accesses && words[..] == poll.regs && idle == poll.idle;
      if !idle {
        Regroup2(start, setup, poll.accesses);
        return None;
      }
      ghost var polled := bus;
      var resultHi := LoadWord(engine + REG_WRESULT_H);
      assert resultHi == poll.regs[engine + REG_WRESULT_H];
      var resultLo := LoadWord(engine + REG_WRESULT_L);
      assert resultLo == poll.regs[engine + REG_WRESULT_L];
      assert poll.idle && ResultHigh(WriteTest) == REG_WRESULT_H && ResultLow(WriteTest) == REG_WRESULT_L;
      ghost var results := [Load(engine + REG_WRESULT_H, resultHi), Load(engine + REG_WRESULT_L, resultLo)];
      assert t.accesses == setup + poll.accesses + results;
      Append2(polled, results[0], results[1]);
      assert bus == polled + results;
      Regroup3(start, setup, poll.accesses, results);
      return Some(Combine(resultHi, resultLo));
    }

    /**
     * `process`: the PCI write test, the DDR write test, the PCI read test
     * and the DDR read test, one after another. A test whose engine never
     * goes idle would keep the program polling for ever, so no later test
     * runs after it.
     */
    method Process(contigAddress: bv64, fuel: nat) returns (cycles: seq<bv64>)
      requires MBW_DDR / 4 + REGISTER_COUNT <= words.Length
      modifies this, words
      ensures PlanFits(Plan(contigAddress), words.Length)
      ensures var r := RunPlan(hardware, old(words[..]), Plan(contigAddress), fuel);
              bus == old(bus) + r.accesses && words[..] == r.regs && cycles == r.cycles
    {
      var plan := Plan(contigAddress);
      PlanFitsMapping(contigAddress, words.Length);
      ghost var start := words[..];
      ghost var ts: seq<TestResult> := [];
      cycles := [];
      var k := 0;
      while k < |plan|
        invariant k == |ts| <= |plan|
        invariant Chain(hardware, start, plan, fuel, ts)
        invariant k > 0 ==> ts[k - 1].cycles.Some?
        invariant words[..] == Before(start, ts, k)
        invariant bus == old(bus) + Accesses(ts)
        invariant cycles == Cycles(ts)
      {
        var m := plan[k];
        assert Fits(m, words.Length);
        ghost var t := Test(hardware, words[..], m.d, m.deviceAddress / 4, m.axiAddress, BURST_SIZE, BURST_COUNT, fuel);
        ChainSnoc(hardware, start, plan, fuel, ts, t, m.d, m.deviceAddress, m.axiAddress);
        var c;
        if m.d == ReadTest {
          c := MeasureReadBandwidth(m.deviceAddress, m.axiAddress, BURST_SIZE, BURST_COUNT, fuel);
        } else {
          c := MeasureWriteBandwidth(m.deviceAddress, m.axiAddress, BURST_SIZE, BURST_COUNT, fuel);
        }
        assert words[..] == t.regs && c == t.cycles;
        assert bus == old(bus) + Accesses(ts) + t.accesses;
        ChainStep(old(bus), ts, t);
        ts := ts + [t];
        if c.None? {
          ChainRun(hardware, start, plan, fuel, ts);
          return;
        }
        cycles := cycles + [c.value];
        k := k + 1;
      }
      ChainRun(hardware, start, plan, fuel, ts);
    }
  }

  /** A busy control word with fuel left: one load, one sleep, then the rest of the poll. */
  lemma PollAgain(hardware: Hardware, regs: seq<bv32>, ctl: nat, fuel: nat)
    requires ctl < |regs| && regs[ctl] != 0 && fuel > 0
    ensures var rest := PollFrom(hardware, Step(hardware, regs), ctl, fuel - 1);
            PollFrom(hardware, regs, ctl, fuel) == Poll([Load(ctl, regs[ctl]), Pause] + rest.accesses, rest.regs, rest.idle)
  {
  }

  /** An idle control word, or no fuel left: the poll is the one load. */
  lemma PollDone(hardware: Hardware, regs: seq<bv32>, ctl: nat, fuel: nat)
    requires ctl < |regs| && (regs[ctl] == 0 || fuel == 0)
    ensures PollFrom(hardware, regs, ctl, fuel) == Poll([Load(ctl, regs[ctl])], regs, regs[ctl] == 0)
  {
  }

  /** `Test` in its two cases: the poll gave up, or the engine went idle and the results were read. */
  lemma TestSteps(hardware: Hardware, regs: seq<bv32>, d: Direction, base: nat,
                  axiAddress: bv64, blockSize: bv32, blockCount: bv32, fuel: nat,
                  setup: seq<Access>, poll: Poll, t: TestResult)
    requires base + REGISTER_COUNT <= |regs|
    requires setup == SetupStores(d, base, axiAddress, blockSize, blockCount)
    requires poll == PollFrom(hardware, Configured(regs, d, base, axiAddress, blockSize, blockCount), base + REG_CTL_STAT, fuel)
    requires t == Test(hardware, regs, d, base, axiAddress, blockSize, blockCount, fuel)
    ensures base + REGISTER_COUNT <= |poll.regs| && t.regs == poll.regs
    ensures !poll.idle ==> t.accesses == setup + poll.accesses && t.cycles == None
    ensures poll.idle ==>
              && t.accesses == setup + poll.accesses + [Load(base + ResultHigh(d), poll.regs[base + ResultHigh(d)]),
                                                        Load(base + ResultLow(d), poll.regs[base + ResultLow(d)])]
              && t.cycles == Some(Combine(poll.regs[base + ResultHigh(d)], poll.regs[base + ResultLow(d)]))
  {
  }

  lemma Append2(a: seq<Access>, x: Access, y: Access)
    ensures a + [x] + [y] == a + [x, y]
  {
  }

  lemma Regroup2(a: seq<Access>, b: seq<Access>, c: seq<Access>)
    ensures a + b + c == a + (b + c)
  {
  }

  lemma Regroup3(a: seq<Access>, b: seq<Access>, c: seq<Access>, e: seq<Access>)
    ensures a + b + c + e == a + (b + c + e)
  {
  }

  /** The words a chain of tests starts from at position `i`: the words the previous test left. */
  function Before(start: seq<bv32>, ts: seq<TestResult>, i: nat): seq<bv32>
    requires i <= |ts|
  {
    if i == 0 then start else ts[i - 1].regs
  }

  /**
   * `ts` are the results of the first `|ts|` measurements of `plan`, each
   * run on the words the previous one left, every one but the last finished.
   */
  ghost predicate Chain(hardware: Hardware, start: seq<bv32>, plan: seq<Measurement>, fuel: nat, ts: seq<TestResult>) {
    && PlanFits(plan, |start|) && |ts| <= |plan|
    && (forall i :: 0 <= i < |ts| ==> |ts[i].regs| == |start|)
    && (forall i {:trigger Before(start, ts, i)} :: 0 <= i < |ts| ==> ts[i] == TestOf(hardware, Before(start, ts, i), plan[i], fuel))
    && (forall i :: 0 <= i < |ts| - 1 ==> ts[i].cycles.Some?)
  }

  /** The accesses of a chain of tests, in order. */
  function Accesses(ts: seq<TestResult>): seq<Access> {
    if |ts| == 0 then [] else ts[0].accesses + Accesses(ts[1..])
  }

  /** The cycle count a test contributes: one entry when it finished, none when it stopped. */
  function CyclesOf(t: TestResult): seq<bv64> {
    if t.cycles.Some? then [t.cycles.value] else []
  }

  /** The cycle counts of the finished tests of a chain, in order. */
  function Cycles(ts: seq<TestResult>): seq<bv64> {
    if |ts| == 0 then [] else CyclesOf(ts[0]) + Cycles(ts[1..])
  }

  lemma {:induction false} AccessesSnoc(ts: seq<TestResult>, t: TestResult)
    ensures Accesses(ts + [t]) == Accesses(ts) + t.accesses
  {
    if |ts| == 0 {
      assert [] + [t] == [t];
      assert Accesses([t]) == t.accesses + Accesses([t][1..]);
      assert [t][1..] == [];
    } else {
      var u := ts + [t];
      assert u[0] == ts[0] && u[1..] == ts[1..] + [t];
      AccessesSnoc(ts[1..], t);
      assert Accesses(u) == ts[0].accesses + (Accesses(ts[1..]) + t.accesses);
    }
  }

  lemma {:induction false} CyclesSnoc(ts: seq<TestResult>, t: TestResult)
    ensures Cycles(ts + [t]) == Cycles(ts) + CyclesOf(t)
  {
    if |ts| == 0 {
      assert [] + [t] == [t];
      assert Cycles([t]) == CyclesOf(t) + Cycles([t][1..]);
      assert [t][1..] == [];
    } else {
      var u := ts + [t];
      assert u[0] == ts[0] && u[1..] == ts[1..] + [t];
      CyclesSnoc(ts[1..], t);
      assert Cycles(u) == CyclesOf(ts[0]) + (Cycles(ts[1..]) + CyclesOf(t));
    }
  }

  /** The bus and the cycle counts after one more test of a chain. */
  lemma ChainStep(bus: seq<Access>, ts: seq<TestResult>, t: TestResult)
    ensures bus + Accesses(ts) + t.accesses == bus + Accesses(ts + [t])
    ensures Cycles(ts + [t]) == Cycles(ts) + CyclesOf(t)
  {
    AccessesSnoc(ts, t);
    Regroup2(bus, Accesses(ts), t.accesses);
    CyclesSnoc(ts, t);
  }

  /** A finished chain grows by the next measurement of the plan, run on the words the chain left. */
  lemma ChainSnoc(hardware: Hardware, start: seq<bv32>, plan: seq<Measurement>, fuel: nat, ts: seq<TestResult>,
                  t: TestResult, d: Direction, deviceAddress: nat, axiAddress: bv64)
    requires Chain(hardware, start, plan, fuel, ts) && |ts| < |plan|
    requires |ts| > 0 ==> ts[|ts| - 1].cycles.Some?
    requires plan[|ts|] == Measurement(d, deviceAddress, axiAddress)
    requires Fits(plan[|ts|], |start|)
    requires t == Test(hardware, Before(start, ts, |ts|), d, deviceAddress / 4, axiAddress, BURST_SIZE, BURST_COUNT, fuel)
    ensures Chain(hardware, start, plan, fuel, ts + [t])
  {
    var ts' := ts + [t];
    var regs := Before(start, ts, |ts|);
    assert |regs| == |start| by {
      if |ts| > 0 {
        assert regs == ts[|ts| - 1].regs;
      }
    }
    forall i | 0 <= i < |ts'|
      ensures |ts'[i].regs| == |start|
    {
      if i < |ts| {
        assert ts'[i] == ts[i];
      }
    }
    forall i | 0 <= i < |ts'| - 1
      ensures ts'[i].cycles.Some?
    {
      assert ts'[i] == ts[i];
    }
    forall i | 0 <= i < |ts'|
      ensures ts'[i] == TestOf(hardware, Before(start, ts', i), plan[i], fuel)
    {
      if i < |ts| {
        assert ts'[i] == ts[i] && Before(start, ts', i) == Before(start, ts, i);
      } else {
        assert Before(start, ts', i) == Before(start, ts, |ts|);
      }
    }
  }

  /** Dropping the first test of a chain leaves a chain of the rest of the plan from the words it left. */
  lemma ChainTail(hardware: Hardware, start: seq<bv32>, plan: seq<Measurement>, fuel: nat, ts: seq<TestResult>)
    requires Chain(hardware, start, plan, fuel, ts) && |ts| > 1
    ensures Chain(hardware, ts[0].regs, plan[1..], fuel, ts[1..])
  {
    var start' := ts[0].regs;
    forall k | 0 <= k < |plan[1..]|
      ensures Fits(plan[1..][k], |start'|)
    {
      assert plan[1..][k] == plan[k + 1];
    }
    forall i | 0 <= i < |ts[1..]|
      ensures ts[1..][i] == TestOf(hardware, Before(start', ts[1..], i), plan[1..][i], fuel)
    {
      assert ts[1..][i] == ts[i + 1] && plan[1..][i] == plan[i + 1];
      assert Before(start', ts[1..], i) == Before(start, ts, i + 1);
    }
    forall i | 0 <= i < |ts[1..]| - 1
      ensures ts[1..][i].cycles.Some?
    {
      assert ts[1..][i] == ts[i + 1];
    }
  }

  /**
   * A chain that covers the whole plan, or ends in a test that never
   * finished, is the run of the plan.
   */
  lemma {:induction false} ChainRun(hardware: Hardware, start: seq<bv32>, plan: seq<Measurement>, fuel: nat, ts: seq<TestResult>)
    requires Chain(hardware, start, plan, fuel, ts) && |ts| > 0
    requires |ts| == |plan| || ts[|ts| - 1].cycles.None?
    ensures RunPlan(hardware, start, plan, fuel) == Run(Accesses(ts), ts[|ts| - 1].regs, Cycles(ts))
    decreases |ts|
  {
    var t := ts[0];
    assert Before(start, ts, 0) == start;
    assert t == TestOf(hardware, start, plan[0], fuel);
    if |ts| == 1 {
      assert ts[1..] == [];
      if t.cycles.Some? {
        assert plan[1..] == [];
      }
    } else {
      assert t.cycles.Some?;
      ChainTail(hardware, start, plan, fuel, ts);
      ChainRun(hardware, t.regs, plan[1..], fuel, ts[1..]);
      assert ts[1..][|ts[1..]| - 1] == ts[|ts| - 1];
    }
  }

  /** Prepending to the accesses of a poll regroups. */
  lemma ShiftPoll(done: seq<Access>, step: seq<Access>, rest: seq<Access>)
    ensures done + (step + rest) == (done + step) + rest
  {
  }
}
