/**
 * The resource table of a PCI device: `getResourceList`, which turns the
 * lines of the device's sysfs `resource` file into resource records, and
 * `getIntegerFromFile`, which reads the vendor and device ids. Files are
 * inputs: `None` when the file cannot be opened, otherwise its lines (or,
 * for an id file, its first line).
 */
module PciResources {
  import opened Wrappers
  import opened CText

  /** The range of `off_t`, a signed 64-bit integer. */
  const INT64_MIN: int := -0x8000_0000_0000_0000
  const INT64_MAX: int := 0x7FFF_FFFF_FFFF_FFFF
  /** The range of `int`, a signed 32-bit integer. */
  const INT32_MIN: int := -0x8000_0000
  const INT32_MAX: int := 0x7FFF_FFFF
  /** `size_t` arithmetic is modulo 2^64. */
  const SIZE_MODULUS: nat := 0x1_0000_0000_0000_0000

  predicate InInt64(v: int) {
    INT64_MIN <= v <= INT64_MAX
  }

  /** Conversion of a signed value to `size_t`: modulo 2^64. */
  function SizeT(v: int): (n: nat)
    ensures n < SIZE_MODULUS
    ensures (n - v) % SIZE_MODULUS == 0
    ensures 0 <= v < SIZE_MODULUS ==> n == v
  {
    v % SIZE_MODULUS
  }

  /**
   * A `resource_t`: the user-space address the region is mapped at (0 for
   * the null pointer, i.e. not mapped), its length in bytes and its physical
   * address.
   */
  datatype Resource = Resource(baseAddr: nat, size: nat, physAddr: int)

  datatype PciError =
    | ResourceFileUnreadable          // "Can't open .../resource"
    | NoMappableResources             // every line had a zero start
    | MustBeRoot                      // "/dev/mem" could not be opened
    | MmapFailed(physAddr: int, size: nat)
    | DeviceNotFound(vendor: int, device: int)

  /** The first field of a resource line: `strtoll` base 0 from the start of the C string. */
  function StartField(line: string): int {
    StrToL(CStr(line)).value
  }

  /**
   * The second field: `strtoll` base 0 from the first space of the C string
   * on. Without a space the source passes a null pointer (undefined behaviour,
   * excluded by `LineWellFormed`); the value 0 stands in for it.
   */
  function EndField(line: string): int {
    var c := CStr(line);
    match IndexOf(c, ' ')
    case None => 0
    case Some(p) => StrToL(c[p..]).value
  }

  /**
   * The line is one the model reads as the source does. It has a space:
   * without one `strtoll` gets a null pointer, which is undefined behaviour.
   * The start field is not clamped by `strtoll`. For a kept line (start not
   * 0), the end field is not clamped either, and `end - start + 1` does not
   * overflow `off_t` (undefined behaviour). Clamping to LLONG_MIN/LLONG_MAX
   * is defined behaviour that the model does not reproduce; it is excluded
   * here instead.
   */
  predicate LineWellFormed(line: string) {
    ' ' in CStr(line)
    && InInt64(StartField(line))
    && (StartField(line) != 0 ==>
          InInt64(EndField(line))
          && InInt64(EndField(line) - StartField(line))
          && InInt64(EndField(line) - StartField(line) + 1))
  }

  /** Every line is well formed (instantiated only where a line's well-formedness is asked for). */
  predicate LinesWellFormed(lines: seq<string>) {
    forall k {:trigger LineWellFormed(lines[k])} :: 0 <= k < |lines| ==> LineWellFormed(lines[k])
  }

  /**
   * The record of a line with start field `start` and end field `end`: none
   * when the start address is 0, otherwise an unmapped entry whose size is
   * `end - start + 1` converted to `size_t`.
   */
  function FieldsResource(start: int, end: int): (r: Option<Resource>)
    ensures r.None? <==> start == 0
    ensures r.Some? ==> r.value.baseAddr == 0 && r.value.physAddr == start && r.value.size < SIZE_MODULUS
    ensures r.Some? && 0 <= end - start + 1 < SIZE_MODULUS ==> r.value.size == end - start + 1
  {
    if start == 0 then None else Some(Resource(0, SizeT(end - start + 1), start))
  }

  /** The record one line contributes. */
  function LineResource(line: string): Option<Resource> {
    FieldsResource(StartField(line), EndField(line))
  }

  /** A line whose fields are `start` and `end` contributes the record of those fields. */
  lemma LineResourceFields(line: string, start: int, end: int)
    requires StartField(line) == start && EndField(line) == end
    ensures LineResource(line) == if start == 0 then None else Some(Resource(0, SizeT(end - start + 1), start))
  {
    assert LineResource(line) == FieldsResource(start, end);
  }

  /** The two fields of a line are the conversions at its start and at its first space. */
  lemma LineFields(line: string, p1: string, p2: nat, start: int, end: int)
    requires p1 == CStr(line) && IndexOf(p1, ' ') == Some(p2)
    requires start == StrToL(p1).value && end == StrToL(p1[p2..]).value
    ensures StartField(line) == start && EndField(line) == end
  {
  }

  /** The record (if any) of each line, line by line. */
  function LineRecords(lines: seq<string>): (recs: seq<Option<Resource>>)
    ensures |recs| == |lines|
  {
    seq(|lines|, k requires 0 <= k < |lines| => LineResource(lines[k]))
  }

  /** The record an optional record contributes: none or one. */
  function Listed(o: Option<Resource>): (rs: seq<Resource>)
    ensures |rs| <= 1
  {
    match o
    case None => []
    case Some(r) => [r]
  }

  /** The records present in a sequence of optional records, in order. */
  function Present(recs: seq<Option<Resource>>): seq<Resource> {
    if |recs| == 0 then [] else Present(recs[..|recs| - 1]) + Listed(recs[|recs| - 1])
  }

  /** The records of a sequence of lines, in file order. */
  function Resources(lines: seq<string>): seq<Resource> {
    Present(LineRecords(lines))
  }

  /** One more optional record appends what it holds. */
  lemma PresentSnoc(recs: seq<Option<Resource>>, i: nat)
    requires i < |recs|
    ensures Present(recs[..i + 1]) == Present(recs[..i]) + Listed(recs[i])
  {
    assert recs[..i + 1][..i] == recs[..i];
  }

  /**
   * The body of `getResourceList`'s loop for one line: `strtoll` from the
   * start of the line and from its first space; `None` when the start is 0
   * (the line is skipped), otherwise the record to append.
   */
  method ParseLine(line: string) returns (bar: Option<Resource>)
    requires LineWellFormed(line)
    ensures bar == LineResource(line)
  {
    var p1 := CStr(line);
    var p2 := IndexOf(p1, ' ').value;
    var startingAddress := StrToL(p1).value;
    var endingAddress := StrToL(p1[p2..]).value;
    LineFields(line, p1, p2, startingAddress, endingAddress);
    LineResourceFields(line, startingAddress, endingAddress);
    if startingAddress == 0 {
      return None;
    }
    var size := SizeT(endingAddress - startingAddress + 1);
    return Some(Resource(0, size, startingAddress));
  }

  /** What `getResourceList` returns or throws for a given resource file. */
  function ResourceList(file: Option<seq<string>>): Result<seq<Resource>, PciError> {
    if file.None? then Failure(ResourceFileUnreadable)
    else if Resources(file.value) == [] then Failure(NoMappableResources)
    else Success(Resources(file.value))
  }

  /**
   * `getResourceList`: read the file line by line and append the record of
   * every line whose start address is not 0.
   */
  method GetResourceList(file: Option<seq<string>>) returns (r: Result<seq<Resource>, PciError>)
    requires file.Some? ==> LinesWellFormed(file.value)
    ensures r == ResourceList(file)
  {
    if file.None? {
      return Failure(ResourceFileUnreadable);
    }
    var lines := file.value;
    ghost var recs := LineRecords(lines);
    var result: seq<Resource> := [];
    var i := 0;
    while i < |lines|
      invariant i <= |lines|
      invariant result == Present(recs[..i])
    {
      assert LineWellFormed(lines[i]);
      var bar := ParseLine(lines[i]);
      PresentSnoc(recs, i);
      i := i + 1;
      if bar.None? {
        continue;
      }
      result := result + [bar.value];
    }
    assert recs[..i] == recs;
    if result == [] {
      return Failure(NoMappableResources);
    }
    return Success(result);
  }

  /**
   * Whether `stoi` reads the id file without throwing: the file is missing,
   * or its first line converts within `int`. Otherwise `stoi` throws
   * `std::invalid_argument` (nothing converted) or `std::out_of_range`, an
   * error path the model excludes by this precondition.
   */
  predicate IdFileReadable(file: Option<string>) {
    file.Some? ==>
      var n := StrToL(CStr(file.value));
      n.end > 0 && INT32_MIN <= n.value <= INT32_MAX
  }

  /** `getIntegerFromFile`: -1 for a file that cannot be opened, else `stoi` base 0 of its first line. */
  function IntegerFromFile(file: Option<string>): (r: int)
    requires IdFileReadable(file)
    ensures INT32_MIN <= r <= INT32_MAX
    ensures file.None? ==> r == -1
  {
    if file.None? then -1 else StrToL(CStr(file.value)).value
  }
}

module PciResourceProperties {
  import opened Wrappers
  import opened CText
  import opened PciResources

  lemma {:induction false} PresentAppend(a: seq<Option<Resource>>, b: seq<Option<Resource>>)
    ensures Present(a + b) == Present(a) + Present(b)
    decreases |b|
  {
    if |b| == 0 {
      assert a + b == a;
    } else {
      var b' := b[..|b| - 1];
      assert (a + b)[..|a + b| - 1] == a + b';
      PresentAppend(a, b');
    }
  }

  lemma {:induction false} PresentMembers(recs: seq<Option<Resource>>)
    ensures |Present(recs)| <= |recs|
    ensures forall r :: r in Present(recs) ==> Some(r) in recs
  {
    if |recs| > 0 {
      var init := recs[..|recs| - 1];
      PresentMembers(init);
      assert forall o :: o in init ==> o in recs;
    }
  }

  lemma {:induction false} PresentEmptyIff(recs: seq<Option<Resource>>)
    ensures Present(recs) == [] <==> forall k :: 0 <= k < |recs| ==> recs[k].None?
  {
    if |recs| > 0 {
      var init := recs[..|recs| - 1];
      PresentEmptyIff(init);
      assert forall k :: 0 <= k < |init| ==> init[k] == recs[k];
    }
  }

  /** The records of two runs of lines are the records of each, in file order. */
  lemma ResourcesAppend(a: seq<string>, b: seq<string>)
    ensures Resources(a + b) == Resources(a) + Resources(b)
  {
    assert LineRecords(a + b) == LineRecords(a) + LineRecords(b) by {
      forall k | 0 <= k < |a + b|
        ensures LineRecords(a + b)[k] == (LineRecords(a) + LineRecords(b))[k]
      {
        if k < |a| {
          assert (a + b)[k] == a[k];
        } else {
          assert (a + b)[k] == b[k - |a|];
        }
      }
    }
    PresentAppend(LineRecords(a), LineRecords(b));
  }

  /**
   * Every record is unmapped, has a nonzero physical address and a size that
   * fits `size_t`; there are never more records than lines.
   */
  lemma ResourcesShape(lines: seq<string>)
    ensures |Resources(lines)| <= |lines|
    ensures forall r :: r in Resources(lines) ==> r.baseAddr == 0 && r.physAddr != 0 && r.size < SIZE_MODULUS
  {
    var recs := LineRecords(lines);
    PresentMembers(recs);
    forall r | r in Resources(lines)
      ensures r.baseAddr == 0 && r.physAddr != 0 && r.size < SIZE_MODULUS
    {
      var k :| 0 <= k < |recs| && recs[k] == Some(r);
      assert LineResource(lines[k]) == Some(r);
    }
  }

  /** No record at all exactly when every line has a zero start address. */
  lemma ResourcesEmptyIff(lines: seq<string>)
    ensures Resources(lines) == [] <==> forall k :: 0 <= k < |lines| ==> StartField(lines[k]) == 0
  {
    var recs := LineRecords(lines);
    PresentEmptyIff(recs);
    assert forall k :: 0 <= k < |lines| ==> recs[k] == LineResource(lines[k]);
  }

  /** A single line lists its own record, if any. */
  lemma ResourcesSingle(line: string)
    ensures Resources([line]) == Listed(LineResource(line))
  {
    var recs := LineRecords([line]);
    assert recs == [recs[0]];
    assert Present([recs[0]]) == Present([]) + Listed(recs[0]);
  }

  /**
   * Each line contributes its record (none for a zero start) right after the
   * records of the lines before it and before those of the lines after it.
   */
  lemma ResourcesSplit(lines: seq<string>, k: nat)
    requires k < |lines|
    ensures Resources(lines) ==
              Resources(lines[..k]) + Listed(LineResource(lines[k])) + Resources(lines[k + 1..])
  {
    assert lines == lines[..k] + [lines[k]] + lines[k + 1..];
    ResourcesAppend(lines[..k] + [lines[k]], lines[k + 1..]);
    ResourcesAppend(lines[..k], [lines[k]]);
    ResourcesSingle(lines[k]);
  }

  /** `getResourceList` succeeds exactly when the file opens and some line has a nonzero start. */
  lemma ResourceListSuccessIff(file: Option<seq<string>>)
    ensures ResourceList(file).Success? <==>
              file.Some? && exists k :: 0 <= k < |file.value| && StartField(file.value[k]) != 0
    ensures ResourceList(file).Success? ==> ResourceList(file).value == Resources(file.value)
  {
    if file.Some? {
      ResourcesEmptyIff(file.value);
    }
  }

  /** Every character of `ds` is a digit in base 16. */
  predicate HexDigits(ds: string) {
    forall i :: 0 <= i < |ds| ==> DigitVal(ds[i]) < 16
  }

  /** The middle of `p + (x + y)` is `x`, and what follows `p` is `x + y`. */
  lemma MiddleSlice(p: string, x: string, y: string)
    ensures (p + (x + y))[|p|..] == x + y
    ensures (p + (x + y))[|p|..|p| + |x|] == x
  {
    var s := p + (x + y);
    assert forall i :: 0 <= i < |x| ==> s[|p| + i] == x[i];
  }

  /** The hex digits `a` followed by a non-hex character (or nothing) form a run of length `|a|`. */
  lemma HexRun(a: string, rest: string)
    requires HexDigits(a)
    requires |rest| > 0 ==> DigitVal(rest[0]) >= 16
    ensures RunLen(a + rest, 16) == |a|
  {
    var t := a + rest;
    assert forall i :: 0 <= i < |a| ==> t[i] == a[i];
    assert |rest| > 0 ==> t[|a|] == rest[0];
    RunLenExact(t, 16, |a|);
  }

  /** `strtoll` on "0x<a> ..." reads `a` in hexadecimal and stops at the space. */
  lemma HexStartField(line: string, a: string, rest: string)
    requires line == "0x" + (a + rest) && |a| > 0 && HexDigits(a)
    requires |rest| > 0 && rest[0] == ' '
    ensures StrToL(line) == Conversion(DigitsValue(a, 16), 2 + |a|)
  {
    MiddleSlice("0x", a, rest);
    HexRun(a, rest);
    assert line[2] == a[0];
    StrToLHex(line);
  }

  /** `strtoll` on " 0x<b>..." skips the space and reads `b` in hexadecimal. */
  lemma HexEndField(tail: string, b: string, rest: string)
    requires tail == " 0x" + (b + rest) && |b| > 0 && HexDigits(b)
    requires |rest| > 0 ==> DigitVal(rest[0]) >= 16
    ensures StrToL(tail) == Conversion(DigitsValue(b, 16), 3 + |b|)
  {
    MiddleSlice(" 0x", b, rest);
    HexRun(b, rest);
    assert tail[3] == b[0];
    StrToLSpaceHex(tail);
  }

  /** The layout of "0x<a> 0x<b>...": no NUL, the first space right after `a`, and the second field after it. */
  lemma HexLineShape(line: string, a: string, b: string, rest: string)
    requires line == "0x" + (a + (" 0x" + (b + rest)))
    requires HexDigits(a) && HexDigits(b) && NUL !in rest
    ensures NUL !in line && CStr(line) == line
    ensures IndexOf(line, ' ') == Some(2 + |a|)
    ensures line[2 + |a|..] == " 0x" + (b + rest)
  {
    var p2 := 2 + |a|;
    var tail := " 0x" + (b + rest);
    MiddleSlice("0x", a, tail);
    assert line[p2..] == tail by {
      assert forall i :: 0 <= i < |tail| ==> line[p2 + i] == tail[i];
    }
    assert line[p2] == ' ';
    assert DigitVal(NUL) == 36 && DigitVal(' ') == 36;
    forall i | 0 <= i < |line|
      ensures line[i] != NUL
    {
      if 2 <= i < p2 { assert line[i] == a[i - 2]; }
      else if p2 + 3 <= i < p2 + 3 + |b| { assert line[i] == b[i - p2 - 3]; }
      else if p2 + 3 + |b| <= i { assert line[i] == rest[i - p2 - 3 - |b|]; }
    }
    assert ' ' !in line[..p2] by {
      assert forall i :: 2 <= i < p2 ==> line[i] == a[i - 2];
    }
  }

  /**
   * A sysfs line whose first two fields carry `0x` is read in hexadecimal:
   * "0x<a> 0x<b> ..." has start field `a` and end field `b` in base 16, and
   * lists the region from `a` to `b` unless `a` is 0.
   */
  lemma HexLineFields(line: string, a: string, b: string, rest: string)
    requires line == "0x" + (a + (" 0x" + (b + rest)))
    requires |a| > 0 && HexDigits(a) && |b| > 0 && HexDigits(b)
    requires NUL !in rest && (|rest| > 0 ==> DigitVal(rest[0]) >= 16)
    ensures StartField(line) == DigitsValue(a, 16) && EndField(line) == DigitsValue(b, 16)
    ensures LineResource(line) ==
              if DigitsValue(a, 16) == 0 then None
              else Some(Resource(0, SizeT(DigitsValue(b, 16) - DigitsValue(a, 16) + 1), DigitsValue(a, 16)))
  {
    var p2 := 2 + |a|;
    var tail := " 0x" + (b + rest);
    HexLineShape(line, a, b, rest);
    HexStartField(line, a, tail);
    HexEndField(tail, b, rest);
    LineFields(line, line, p2, DigitsValue(a, 16), DigitsValue(b, 16));
    LineResourceFields(line, DigitsValue(a, 16), DigitsValue(b, 16));
  }
}
