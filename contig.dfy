/**
 * Locating the contiguous DMA buffer that the Linux boot parameter
 * `memmap=nn[KMG]$ss[KMG]` reserves: `parseKMG` and `findContig`.
 * The command line file is an input: `None` when it cannot be opened,
 * otherwise its first line.
 */
module Contig {
  import opened Wrappers
  import opened CText

  const ONE_GIG: nat := 0x4000_0000
  /** 2^63: the first value a signed 64-bit `int64_t` cannot hold. */
  const INT64_LIMIT: nat := 0x8000_0000_0000_0000
  const MEMMAP: string := "memmap="

  datatype ContigError =
    | CmdlineUnreadable        // "Can't open /proc/cmdline"
    | MalformedCmdline         // no "memmap=" on the line
    | NoReservedBuffer         // the '$' scan gave 0
    | BufferTooSmall(size: nat) // the '=' scan gave less than 1 GiB

  predicate IsScaleSuffix(c: char) {
    c == 'K' || c == 'M' || c == 'G'
  }

  function Scale(c: char): (m: nat)
    requires IsScaleSuffix(c)
  {
    if c == 'K' then 0x400 else if c == 'M' then 0x10_0000 else 0x4000_0000
  }

  /**
   * What `parseKMG(delim, s)` returns, computed on unbounded integers: the scan
   * of the text after the first `delim`, or 0 when the delimiter is missing.
   */
  function Kmg(delim: char, s: CString): nat {
    match IndexOf(s, delim)
    case None => 0
    case Some(i) => ScaleScan(s[i + 1..])
  }

  /**
   * The scan of the text `t` after the delimiter: its `strtol` value scaled by
   * the K, M or G that must immediately follow the run of decimal digits at its
   * start; 0 when any other character (or the end) follows the run.
   */
  function ScaleScan(t: string): nat {
    var n := RunLen(t, 10);
    if n < |t| && IsScaleSuffix(t[n]) then
      StrToLUnsigned(t);
      var value: nat := StrToL(t).value;
      value * Scale(t[n])
    else 0
  }

  /** The scan with the scale written as the multiplications of `parseKMG`. */
  lemma ScaleScanSuffix(t: string)
    ensures var n := RunLen(t, 10);
            n < |t| && IsScaleSuffix(t[n]) ==> StrToL(t).value >= 0
    ensures var n := RunLen(t, 10);
            ScaleScan(t) ==
              if n < |t| && t[n] == 'K' then StrToL(t).value * 1024
              else if n < |t| && t[n] == 'M' then StrToL(t).value * 1024 * 1024
              else if n < |t| && t[n] == 'G' then StrToL(t).value * 1024 * 1024 * 1024
              else 0
  {
    var n := RunLen(t, 10);
    if n < |t| && IsScaleSuffix(t[n]) {
      StrToLUnsigned(t);
      var v := StrToL(t).value;
      if t[n] == 'M' {
        assert v * 1024 * 1024 == v * 0x10_0000;
      } else if t[n] == 'G' {
        assert v * 1024 * 1024 * 1024 == v * 0x4000_0000;
      }
    }
  }

  /**
   * The digit skip of `parseKMG`: how far the pointer moves over the decimal
   * digits at the start of `t`.
   */
  method SkipDigits(t: string) returns (n: nat)
    ensures n == RunLen(t, 10)
  {
    n := 0;
    while n < |t| && '0' <= t[n] <= '9'
      invariant n <= |t|
      invariant RunLen(t, 10) == n + RunLen(t[n..], 10)
    {
      assert t[n..][1..] == t[n + 1..];
      n := n + 1;
    }
  }

  /**
   * `parseKMG`: find the delimiter, convert what follows with `strtol` base 0,
   * step over the decimal digits and scale by the suffix found there.
   * The text after the delimiter stands for the pointer one past it.
   * The scaled value must fit a signed 64-bit integer (overflow is undefined).
   */
  method ParseKmg(delim: char, s: CString) returns (r: nat)
    requires delim != NUL
    requires Kmg(delim, s) < INT64_LIMIT
    ensures r == Kmg(delim, s)
    ensures r < INT64_LIMIT
  {
    var found := IndexOf(s, delim);
    if found.None? {
      return 0;
    }
    var t := s[found.value + 1..];
    var value := StrToL(t).value;
    var n := SkipDigits(t);
    ScaleScanSuffix(t);
    if n < |t| && t[n] == 'K' {
      return value * 1024;
    }
    if n < |t| && t[n] == 'M' {
      return value * 1024 * 1024;
    }
    if n < |t| && t[n] == 'G' {
      return value * 1024 * 1024 * 1024;
    }
    return 0;
  }

  /** The text from the first "memmap=" on, where both scans start. */
  function MemmapTail(text: CString): Option<CString> {
    match IndexOfSub(text, MEMMAP)
    case None => None
    case Some(p) => Some(text[p..])
  }

  /** What `findContig` returns or throws for a given command line. */
  function ContigOutcome(cmdline: Option<string>): Result<nat, ContigError> {
    if cmdline.None? then Failure(CmdlineUnreadable)
    else
      match MemmapTail(CStr(cmdline.value))
      case None => Failure(MalformedCmdline)
      case Some(tail) =>
        var size := Kmg('=', tail);
        var physAddr := Kmg('$', tail);
        if physAddr == 0 then Failure(NoReservedBuffer)
        else if size < ONE_GIG then Failure(BufferTooSmall(size))
        else Success(physAddr)
  }

  /** Neither scan of the command line overflows a signed 64-bit integer. */
  predicate ScansFit(cmdline: Option<string>) {
    cmdline.Some? && MemmapTail(CStr(cmdline.value)).Some? ==>
      var tail := MemmapTail(CStr(cmdline.value)).value;
      Kmg('=', tail) < INT64_LIMIT && Kmg('$', tail) < INT64_LIMIT
  }

  /** `findContig`: the physical address of the reserved buffer, or the error it throws. */
  method FindContig(cmdline: Option<string>) returns (r: Result<nat, ContigError>)
    requires ScansFit(cmdline)
    ensures r == ContigOutcome(cmdline)
  {
    if cmdline.None? {
      return Failure(CmdlineUnreadable);
    }
    var line := CStr(cmdline.value);
    var p := IndexOfSub(line, MEMMAP);
    if p.None? {
      return Failure(MalformedCmdline);
    }
    var size := ParseKmg('=', line[p.value..]);
    var physAddr := ParseKmg('$', line[p.value..]);
    if physAddr == 0 {
      return Failure(NoReservedBuffer);
    }
    if size < ONE_GIG {
      return Failure(BufferTooSmall(size));
    }
    return Success(physAddr);
  }
}

module ContigProperties {
  import opened Wrappers
  import opened CText
  import opened Contig

  /** Without the delimiter the scan gives 0. */
  lemma KmgMissingDelimiter(delim: char, s: CString)
    requires delim !in s
    ensures Kmg(delim, s) == 0
  {
  }

  /**
   * A nonzero scan needs at least one decimal digit at the start and a K, M or
   * G right after the digits: a suffix alone converts nothing.
   */
  lemma ScanNonzeroShape(t: string)
    requires ScaleScan(t) != 0
    ensures 0 < RunLen(t, 10) < |t| && IsScaleSuffix(t[RunLen(t, 10)])
  {
    if RunLen(t, 10) == 0 && |t| > 0 && IsScaleSuffix(t[0]) {
      StrToLNoDigits(t);
    }
  }

  /** A digit run that does not start with 0 is read in decimal and scaled. */
  lemma ScanDecimal(t: string)
    requires |t| > 0 && '1' <= t[0] <= '9'
    requires RunLen(t, 10) < |t| && IsScaleSuffix(t[RunLen(t, 10)])
    ensures ScaleScan(t) == DigitsValue(t[..RunLen(t, 10)], 10) * Scale(t[RunLen(t, 10)])
  {
    StrToLDecimal(t);
  }

  /**
   * A digit run that starts with 0 is read by `strtol` as octal, up to the
   * first 8 or 9, while the suffix is still looked for after the whole run.
   */
  lemma ScanOctal(t: string)
    requires |t| > 0 && t[0] == '0'
    requires RunLen(t, 10) < |t| && IsScaleSuffix(t[RunLen(t, 10)])
    ensures ScaleScan(t) == DigitsValue(t[..RunLen(t, 8)], 8) * Scale(t[RunLen(t, 10)])
  {
    assert RunLen(t, 10) >= 1;
    assert !HasHexPrefix(t, 0) by {
      if |t| > 2 {
        assert DigitVal(t[1]) < 10 || IsScaleSuffix(t[1]);
      }
    }
    StrToLOctal(t);
  }

  /** One nonzero digit followed by a K, M or G scans to that digit times the scale. */
  lemma ScanOneDigit(t: string)
    requires |t| >= 2 && '1' <= t[0] <= '9' && IsScaleSuffix(t[1])
    ensures ScaleScan(t) == DigitVal(t[0]) * Scale(t[1])
  {
    assert RunLen(t, 10) == 1 by {
      assert t[1..][0] == t[1];
    }
    assert t[..1][..0] == [];
    ScanDecimal(t);
  }

  /** The first example of the `parseKMG` comment: "4G" is 0x1_0000_0000. */
  lemma ScanFourGig(t: string)
    requires |t| == 2 && t[0] == '4' && t[1] == 'G'
    ensures ScaleScan(t) == 0x1_0000_0000
  {
    ScanOneDigit(t);
    assert ScaleScan(t) == DigitVal(t[0]) * 0x4000_0000;
  }

  /** The example "3M" of the `parseKMG` comment is 0x30_0000. */
  lemma ScanThreeMeg(t: string)
    requires |t| == 2 && t[0] == '3' && t[1] == 'M'
    ensures ScaleScan(t) == 0x30_0000
  {
    ScanOneDigit(t);
    assert ScaleScan(t) == DigitVal(t[0]) * 0x10_0000;
  }

  /**
   * The example "2K" of the `parseKMG` comment: the comment puts it at 0x400,
   * the code gives 2 * 1024 = 0x800.
   */
  lemma ScanTwoKilo(t: string)
    requires |t| == 2 && t[0] == '2' && t[1] == 'K'
    ensures ScaleScan(t) == 0x800
    ensures ScaleScan(t) != 0x400
  {
    ScanOneDigit(t);
    assert ScaleScan(t) == DigitVal(t[0]) * 0x400;
  }

  /** The run "010" followed by K: three digits in either base, octal value 8. */
  lemma OctalTenRun(t: string)
    requires |t| == 4 && t[0] == '0' && t[1] == '1' && t[2] == '0' && t[3] == 'K'
    ensures RunLen(t, 10) == 3 && RunLen(t, 8) == 3
    ensures DigitsValue(t[..3], 8) == 8
  {
    assert t[1..][1..][1..][0] == 'K';
    var ds := t[..3];
    assert ds[..1][..0] == [];
    assert DigitsValue(ds[..1], 8) == 0;
    assert ds[..2][..1] == ds[..1];
    assert DigitsValue(ds[..2], 8) == 1;
    assert ds[..2] == ds[..|ds| - 1];
  }

  /** "010K": the run 010 is octal for 8, so the scan gives 8 * 1024, not 10 * 1024. */
  lemma ScanOctalExample(t: string)
    requires |t| == 4 && t[0] == '0' && t[1] == '1' && t[2] == '0' && t[3] == 'K'
    ensures ScaleScan(t) == 8192
  {
    OctalTenRun(t);
    ScanOctal(t);
    assert ScaleScan(t) == DigitsValue(t[..3], 8) * 0x400;
  }

  /**
   * A `0x` at the start scans to 0: the digit skip stops at the `x`, which is
   * not a scale suffix, whatever the hexadecimal digits say.
   */
  lemma ScanHexIsZero(t: string)
    requires |t| >= 2 && t[0] == '0' && t[1] == 'x'
    ensures ScaleScan(t) == 0
  {
    assert RunLen(t, 10) == 1 by {
      assert t[1..][0] == 'x';
    }
  }
}

module ContigLemmas {
  import opened Wrappers
  import opened CText
  import opened Contig
  import opened ContigProperties

  /** Every nonzero scan is a whole number of KiB, since each suffix scales by a multiple of 1024. */
  lemma ScanKiloAligned(t: string)
    ensures ScaleScan(t) % 0x400 == 0
  {
    var n := RunLen(t, 10);
    if n < |t| && IsScaleSuffix(t[n]) {
      StrToLUnsigned(t);
      ScaledKiloAligned(StrToL(t).value, t[n]);
    }
  }

  lemma ScaledKiloAligned(v: nat, c: char)
    requires IsScaleSuffix(c)
    ensures (v * Scale(c)) % 0x400 == 0
  {
    var k := if c == 'K' then v else if c == 'M' then v * 0x400 else v * 0x10_0000;
    assert v * Scale(c) == k * 0x400;
  }

  /**
   * The size scan of the text from "memmap=" on reads right after that `=`:
   * "memmap" holds no `=`.
   */
  lemma MemmapSize(tail: CString)
    requires |tail| >= |MEMMAP| && tail[..|MEMMAP|] == MEMMAP
    ensures IndexOf(tail, '=') == Some(6)
    ensures Kmg('=', tail) == ScaleScan(tail[7..])
  {
    MemmapFirstEquals(tail);
  }

  lemma MemmapFirstEquals(tail: CString)
    requires |tail| >= |MEMMAP| && tail[..|MEMMAP|] == MEMMAP
    ensures IndexOf(tail, '=') == Some(6)
  {
    var head := tail[..|MEMMAP|];
    assert head == ['m', 'e', 'm', 'm', 'a', 'p', '='];
    assert tail[6] == head[6];
    forall k | 0 <= k < 6
      ensures tail[k] != '='
    {
      assert tail[k] == head[k];
    }
    IndexOfFirst(tail, '=', 6);
  }

  /** The text from "memmap=" on starts with "memmap=". */
  lemma MemmapTailStarts(text: CString)
    requires MemmapTail(text).Some?
    ensures var tail := MemmapTail(text).value;
            |tail| >= |MEMMAP| && tail[..|MEMMAP|] == MEMMAP
  {
    var p := IndexOfSub(text, MEMMAP).value;
    assert text[p..][..|MEMMAP|] == text[p..p + |MEMMAP|];
  }

  /** A command line without "memmap=" before its first NUL is malformed. */
  lemma ContigMissingMemmap(line: string)
    requires forall k: nat :: !OccursAt(CStr(line), MEMMAP, k)
    ensures ContigOutcome(Some(line)) == Failure(MalformedCmdline)
  {
  }

  /**
   * On success the address is nonzero and a whole number of KiB, the size
   * read right after "memmap=" is at least 1 GiB, and both come from scans of
   * the text from the first "memmap=" on.
   */
  lemma ContigSuccessShape(line: string, addr: nat)
    requires ContigOutcome(Some(line)) == Success(addr)
    ensures MemmapTail(CStr(line)).Some?
    ensures var tail := MemmapTail(CStr(line)).value;
            addr == Kmg('$', tail) && ScaleScan(tail[|MEMMAP|..]) >= ONE_GIG
    ensures addr > 0 && addr % 0x400 == 0
  {
    var tail := MemmapTail(CStr(line)).value;
    MemmapTailStarts(CStr(line));
    MemmapSize(tail);
    var i := IndexOf(tail, '$').value;
    ScanKiloAligned(tail[i + 1..]);
  }

  /**
   * Too small a buffer is reported with its size: under 1 GiB and a whole
   * number of KiB, and only once the address scan gave a nonzero value.
   */
  lemma ContigTooSmallShape(line: string, size: nat)
    requires ContigOutcome(Some(line)) == Failure(BufferTooSmall(size))
    ensures MemmapTail(CStr(line)).Some?
    ensures var tail := MemmapTail(CStr(line)).value;
            size == ScaleScan(tail[|MEMMAP|..]) && Kmg('$', tail) != 0
    ensures size < ONE_GIG && size % 0x400 == 0
  {
    var tail := MemmapTail(CStr(line)).value;
    MemmapTailStarts(CStr(line));
    MemmapSize(tail);
    ScanKiloAligned(tail[|MEMMAP|..]);
  }

  /**
   * The address is checked before the size: once `memmap=` is found, the
   * outcome is "no reserved buffer" exactly when the `$` scan is 0, whatever
   * the size scan gives.
   */
  lemma ContigZeroAddress(line: string)
    requires MemmapTail(CStr(line)).Some?
    ensures ContigOutcome(Some(line)) == Failure(NoReservedBuffer) <==> Kmg('$', MemmapTail(CStr(line)).value) == 0
  {
  }

  /**
   * An address written in hexadecimal right after the `$` ("memmap=4G$0x...")
   * scans to 0, so the command line is reported as having no reserved buffer,
   * whatever the size.
   */
  lemma ContigHexAddress(line: string, i: nat)
    requires MemmapTail(CStr(line)).Some?
    requires var tail := MemmapTail(CStr(line)).value;
             IndexOf(tail, '$') == Some(i) && i + 2 < |tail| && tail[i + 1] == '0' && tail[i + 2] == 'x'
    ensures ContigOutcome(Some(line)) == Failure(NoReservedBuffer)
  {
    var tail := MemmapTail(CStr(line)).value;
    ScanHexIsZero(tail[i + 1..]);
  }
}
