/**
 * The C library text routines the core relies on: the C-string view of a
 * `std::string`, `strchr`, `strstr`, and the base-0 integer conversion shared
 * by `strtol`, `strtoll` and `stoi`. Values are unbounded: range clamping is
 * excluded by the callers' preconditions.
 */
module CText {
  import opened Wrappers

  const NUL: char := '\0'

  /** The characters of a C string, up to (and without) its terminator. */
  type CString = s: string | NUL !in s

  /** `s.c_str()` as C sees it: everything before the first NUL. */
  function CStr(s: string): (r: CString)
    ensures |r| <= |s| && r == s[..|r|]
    ensures |r| < |s| ==> s[|r|] == NUL
    ensures NUL !in s ==> r == s
  {
    match IndexOf(s, NUL)
    case None => s
    case Some(i) => s[..i]
  }

  /** `strchr`: the index of the first occurrence of `c`, if any. */
  function IndexOf(s: string, c: char): (r: Option<nat>)
    ensures r.None? <==> c !in s
    ensures r.Some? ==> r.value < |s| && s[r.value] == c && c !in s[..r.value]
  {
    if |s| == 0 then None
    else if s[0] == c then Some(0)
    else
      assert s == [s[0]] + s[1..];
      match IndexOf(s[1..], c)
      case None => None
      case Some(i) =>
        assert s[..i + 1] == [s[0]] + s[1..][..i];
        Some(i + 1)
  }

  /** `strchr` stops at the first occurrence: an index holding `c` with no `c` before it is the answer. */
  lemma IndexOfFirst(s: string, c: char, i: nat)
    requires i < |s| && s[i] == c
    requires forall k :: 0 <= k < i ==> s[k] != c
    ensures IndexOf(s, c) == Some(i)
  {
    assert s[..i + 1][i] == c;
  }

  predicate OccursAt(s: string, pat: string, k: nat) {
    k + |pat| <= |s| && s[k..k + |pat|] == pat
  }

  lemma OccursAtShift(s: string, pat: string, k: nat)
    requires |s| > 0
    ensures OccursAt(s, pat, k + 1) <==> OccursAt(s[1..], pat, k)
  {
    if k + 1 + |pat| <= |s| {
      assert s[k + 1..k + 1 + |pat|] == s[1..][k..k + |pat|];
    }
  }

  /** `strstr`: the index of the first occurrence of `pat`, if any. */
  function IndexOfSub(s: string, pat: string): (r: Option<nat>)
    ensures r.None? <==> forall k: nat :: !OccursAt(s, pat, k)
    ensures r.Some? ==> OccursAt(s, pat, r.value)
    ensures r.Some? ==> forall k: nat :: k < r.value ==> !OccursAt(s, pat, k)
    decreases |s|
  {
    if |s| < |pat| then None
    else if s[..|pat|] == pat then
      assert OccursAt(s, pat, 0);
      Some(0)
    else
      match IndexOfSub(s[1..], pat)
      case None =>
        assert forall k: nat :: !OccursAt(s, pat, k) by {
          forall k: nat ensures !OccursAt(s, pat, k) {
            if k > 0 { OccursAtShift(s, pat, k - 1); }
          }
        }
        None
      case Some(i) =>
        assert forall k: nat :: k < i + 1 ==> !OccursAt(s, pat, k) by {
          forall k: nat | k < i + 1 ensures !OccursAt(s, pat, k) {
            if k > 0 { OccursAtShift(s, pat, k - 1); }
          }
        }
        OccursAtShift(s, pat, i);
        Some(i + 1)
  }

  /** `isspace` in the C locale. */
  predicate IsSpace(c: char) {
    c == ' ' || c == '\t' || c == '\n' || c == '\r' || c == '\U{000B}' || c == '\U{000C}'
  }

  /** The value of a digit character in bases up to 36; 36 for anything else. */
  function DigitVal(c: char): (d: nat)
    ensures d <= 36
    ensures d < 10 <==> '0' <= c <= '9'
  {
    if '0' <= c <= '9' then c as nat - '0' as nat
    else if 'a' <= c <= 'z' then c as nat - 'a' as nat + 10
    else if 'A' <= c <= 'Z' then c as nat - 'A' as nat + 10
    else 36
  }

  /** Length of the leading run of white space. */
  function SpaceLen(s: string): (n: nat)
    ensures n <= |s|
    ensures n < |s| ==> !IsSpace(s[n])
  {
    if |s| > 0 && IsSpace(s[0]) then 1 + SpaceLen(s[1..]) else 0
  }

  /** Length of the leading run of characters that are digits in `base`. */
  function RunLen(s: string, base: nat): (n: nat)
    ensures n <= |s|
    ensures forall i :: 0 <= i < n ==> DigitVal(s[i]) < base
    ensures n < |s| ==> DigitVal(s[n]) >= base
  {
    if |s| > 0 && DigitVal(s[0]) < base then 1 + RunLen(s[1..], base) else 0
  }

  /** The number written by the digits `ds` in `base`, most significant first. */
  function DigitsValue(ds: string, base: nat): nat {
    if |ds| == 0 then 0 else DigitsValue(ds[..|ds| - 1], base) * base + DigitVal(ds[|ds| - 1])
  }

  /** What `strtol` returns and where its end pointer stops (0 when nothing was converted). */
  datatype Conversion = Conversion(value: int, end: nat)

  predicate HasHexPrefix(s: string, j: nat) {
    j + 2 < |s| && s[j] == '0' && (s[j + 1] == 'x' || s[j + 1] == 'X') && DigitVal(s[j + 2]) < 16
  }

  /**
   * `strtol(s, &end, 0)`: skip white space, take an optional sign, then read
   * hexadecimal after `0x`/`0X`, octal after a leading `0`, decimal otherwise,
   * up to the first character that is not a digit of that base.
   */
  function StrToL(s: string): (n: Conversion)
    ensures n.end <= |s|
    ensures n.end == 0 ==> n.value == 0
  {
    var i := SpaceLen(s);
    var negative := i < |s| && s[i] == '-';
    var j := if i < |s| && (s[i] == '+' || s[i] == '-') then i + 1 else i;
    var base := if HasHexPrefix(s, j) then 16 else if j < |s| && s[j] == '0' then 8 else 10;
    var k := if base == 16 then j + 2 else j;
    var len := RunLen(s[k..], base);
    if len == 0 then Conversion(0, 0)
    else
      var magnitude: int := DigitsValue(s[k..k + len], base);
      Conversion(if negative then -magnitude else magnitude, k + len)
  }

  /** A conversion that starts at a digit reads that digit's base and never negates. */
  lemma StrToLDecimal(s: string)
    requires |s| > 0 && '1' <= s[0] <= '9'
    ensures StrToL(s) == Conversion(DigitsValue(s[..RunLen(s, 10)], 10), RunLen(s, 10))
  {
    assert !IsSpace(s[0]) && s[0] != '0' && s[0] != '+' && s[0] != '-';
    assert SpaceLen(s) == 0;
    assert !HasHexPrefix(s, 0);
    assert s[0..] == s;
    assert RunLen(s, 10) > 0;
  }

  /** A conversion that starts at `0` (and is not `0x` followed by a hex digit) reads octal. */
  lemma StrToLOctal(s: string)
    requires |s| > 0 && s[0] == '0' && !HasHexPrefix(s, 0)
    ensures StrToL(s) == Conversion(DigitsValue(s[..RunLen(s, 8)], 8), RunLen(s, 8))
  {
    assert SpaceLen(s) == 0;
    assert s[0..] == s;
    assert RunLen(s, 8) > 0;
  }

  /** A conversion that starts at `0x` or `0X` followed by a hex digit reads hexadecimal after the prefix. */
  lemma StrToLHex(s: string)
    requires HasHexPrefix(s, 0)
    ensures StrToL(s) == Conversion(DigitsValue(s[2..2 + RunLen(s[2..], 16)], 16), 2 + RunLen(s[2..], 16))
  {
    assert !IsSpace(s[0]) && s[0] != '+' && s[0] != '-';
    assert SpaceLen(s) == 0;
    assert s[2..][0] == s[2];
    assert RunLen(s[2..], 16) > 0;
  }

  /** A conversion that starts at one space and then `0x` or `0X` with a hex digit reads hexadecimal after the prefix. */
  lemma StrToLSpaceHex(s: string)
    requires |s| > 0 && IsSpace(s[0]) && HasHexPrefix(s, 1)
    ensures StrToL(s) == Conversion(DigitsValue(s[3..3 + RunLen(s[3..], 16)], 16), 3 + RunLen(s[3..], 16))
  {
    assert !IsSpace(s[1]) && s[1] != '+' && s[1] != '-';
    assert SpaceLen(s[1..]) == 0;
    assert SpaceLen(s) == 1;
    assert s[3..][0] == s[3];
    assert RunLen(s[3..], 16) > 0;
  }

  /** A leading run that ends where a non-digit starts has exactly that length. */
  lemma RunLenExact(s: string, base: nat, n: nat)
    requires n <= |s|
    requires forall i :: 0 <= i < n ==> DigitVal(s[i]) < base
    requires n < |s| ==> DigitVal(s[n]) >= base
    ensures RunLen(s, base) == n
  {
  }

  /** A conversion that starts at a character that is neither space, sign nor digit converts nothing. */
  lemma StrToLNoDigits(s: string)
    requires |s| > 0 && !IsSpace(s[0]) && s[0] != '+' && s[0] != '-' && DigitVal(s[0]) >= 10
    ensures StrToL(s) == Conversion(0, 0)
  {
    assert SpaceLen(s) == 0;
    assert !HasHexPrefix(s, 0);
    assert s[0..] == s;
  }

  /** Without a leading sign or space the converted value is never negative. */
  lemma StrToLUnsigned(s: string)
    requires |s| > 0 && !IsSpace(s[0]) && s[0] != '-'
    ensures StrToL(s).value >= 0
  {
  }
}
