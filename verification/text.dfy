/**
 Small string and option helpers shared by the model of the format checker:
 Option/Result wrappers, prefix tests, character counting, Python's notion of
 whitespace, decimal rendering and parsing of integers, and Python's slice
 semantics on sequences.
 */
module Text {

  /** A value that may be absent (Python's `None`). */
  datatype Option<+T> = None | Some(value: T) {
    function GetOr(default: T): T {
      match this
      case Some(v) => v
      case None => default
    }
  }

  /** The exceptions the modelled code can raise. */
  datatype Error =
    | ValueError(msg: string)
    | KeyError(key: string)
    | TypeError(msg: string)

  /** A computation that either succeeds or raises one of the errors above. */
  datatype Result<+T> = Success(value: T) | Failure(error: Error) {
    predicate IsFailure() {
      Failure?
    }
    function PropagateFailure<U>(): Result<U>
      requires Failure?
    {
      Failure(error)
    }
    function Extract(): T
      requires Success?
    {
      value
    }
  }

  /** `s.startswith(p)` */
  predicate StartsWith(s: string, p: string) {
    |p| <= |s| && s[..|p|] == p
  }

  /** True iff `s` contains no line feed (what Python's `.` refuses to match). */
  predicate NoNewline(s: string) {
    '\n' !in s
  }

  /** `s` without one trailing line feed, if it has one: the part before the
      position where Python's `$` also matches. */
  function StripFinalNewline(s: string): string {
    if |s| > 0 && s[|s| - 1] == '\n' then s[..|s| - 1] else s
  }

  /** Index of the first occurrence of `c` in `s` (`s.index(c)`). */
  function IndexOf(s: string, c: char): (k: nat)
    requires c in s
    ensures k < |s| && s[k] == c && c !in s[..k]
  {
    if s[0] == c then 0 else 1 + IndexOf(s[1..], c)
  }

  /** `s.count(c)` for a one-character needle: the number of occurrences of `c`. */
  function Count(s: string, c: char): nat {
    CountFrom(s, c, 0)
  }

  /** The occurrences of `c` in `s[i..]`. */
  function CountFrom(s: string, c: char, i: nat): nat
    decreases |s| - i
  {
    if i >= |s| then 0 else (if s[i] == c then 1 else 0) + CountFrom(s, c, i + 1)
  }

  /** Counting agrees with the multiplicity of `c` in the multiset of characters. */
  lemma {:induction false} CountIsMultiplicity(s: string, c: char, i: nat)
    requires i <= |s|
    ensures CountFrom(s, c, i) == multiset(s[i..])[c]
    decreases |s| - i
  {
    if i < |s| {
      CountIsMultiplicity(s, c, i + 1);
      assert s[i..] == [s[i]] + s[i + 1..];
    }
  }

  /** A character that does not occur is counted zero times. */
  lemma CountAbsent(s: string, c: char)
    requires c !in s
    ensures Count(s, c) == 0
  {
    CountIsMultiplicity(s, c, 0);
    assert s[0..] == s;
  }

  /** Counting is additive over a split of the string. */
  lemma CountSplit(s: string, c: char, k: nat)
    requires k <= |s|
    ensures Count(s, c) == Count(s[..k], c) + Count(s[k..], c)
  {
    CountIsMultiplicity(s, c, 0);
    CountIsMultiplicity(s[..k], c, 0);
    CountIsMultiplicity(s[k..], c, 0);
    assert s[0..] == s && s[..k][0..] == s[..k] && s[k..][0..] == s[k..];
    assert s == s[..k] + s[k..];
  }

  /** Python's `str.isspace` on one character (what the regex class `\s` matches). */
  predicate IsSpace(c: char) {
    || ('\t' <= c <= '\r')
    || ('\U{1c}' <= c <= ' ')
    || c == '\U{85}' || c == '\U{a0}' || c == '\U{1680}'
    || ('\U{2000}' <= c <= '\U{200a}')
    || c == '\U{2028}' || c == '\U{2029}' || c == '\U{202f}' || c == '\U{205f}' || c == '\U{3000}'
  }

  /** Concatenation of lines, Python's `"".join(lines)`. */
  function Join(lines: seq<string>): string {
    if |lines| == 0 then [] else lines[0] + Join(lines[1..])
  }

  // ---------------------------------------------------------------- decimals

  predicate IsDigit(c: char) {
    '0' <= c <= '9'
  }

  predicate AllDigits(s: string) {
    forall i :: 0 <= i < |s| ==> IsDigit(s[i])
  }

  /** The longest prefix of `s` made of ASCII digits (what `\d+` consumes). */
  function DigitRun(s: string): (r: string)
    ensures AllDigits(r) && StartsWith(s, r)
    ensures |r| < |s| ==> !IsDigit(s[|r|])
  {
    if |s| > 0 && IsDigit(s[0]) then [s[0]] + DigitRun(s[1..]) else []
  }

  /** `int(s)` for a string of ASCII digits. */
  function DigitsToNat(s: string): nat
    requires AllDigits(s)
  {
    if |s| == 0 then 0
    else 10 * DigitsToNat(s[..|s| - 1]) + (s[|s| - 1] as int - '0' as int)
  }

  /** Decimal digits as `"%i"` writes them: a lone `0`, or no leading zero. */
  predicate NoLeadingZero(s: string) {
    |s| > 0 && AllDigits(s) && (s[0] == '0' ==> |s| == 1)
  }

  /** The text `"%i"` writes for some integer: canonical digits, with a minus
      sign only in front of a non-zero magnitude. */
  predicate CanonicalInt(s: string) {
    if |s| > 0 && s[0] == '-' then NoLeadingZero(s[1..]) && s[1] != '0'
    else NoLeadingZero(s)
  }

  /** The decimal rendering of `n` without leading zeros. */
  function NatToDigits(n: nat): (r: string)
    ensures |r| > 0 && AllDigits(r)
    ensures r[0] == '0' <==> n == 0
    ensures NoLeadingZero(r)
  {
    var d := [(('0' as int) + n % 10) as char];
    if n < 10 then d else NatToDigits(n / 10) + d
  }

  /** `"%i" % i`: a minus sign for negative numbers, then the digits. */
  function IntToString(i: int): (r: string)
    ensures |r| > 0 && ':' !in r
    ensures r[0] == '-' <==> i < 0
    ensures CanonicalInt(r)
  {
    if i < 0 then "-" + NatToDigits(-i) else NatToDigits(i)
  }

  /** Reads back a string rendered by `IntToString`. */
  function ParseInt(s: string): Option<int> {
    if |s| > 0 && s[0] == '-' then
      (if |s| > 1 && AllDigits(s[1..]) then Some(0 - DigitsToNat(s[1..])) else None)
    else if |s| > 0 && AllDigits(s) then Some(DigitsToNat(s))
    else None
  }

  lemma {:induction false} DigitsRoundTrip(n: nat)
    ensures DigitsToNat(NatToDigits(n)) == n
  {
    var r := NatToDigits(n);
    var d := [(('0' as int) + n % 10) as char];
    if n >= 10 {
      DigitsRoundTrip(n / 10);
      assert r[..|r| - 1] == NatToDigits(n / 10);
    }
  }

  /** Decimal rendering is injective on integers: `ParseInt` inverts it. */
  lemma IntRoundTrip(i: int)
    ensures ParseInt(IntToString(i)) == Some(i)
  {
    if i < 0 {
      DigitsRoundTrip(-i);
      assert IntToString(i)[1..] == NatToDigits(-i);
    } else {
      DigitsRoundTrip(i);
    }
  }

  /** A canonical digit string other than `0` denotes a positive number. */
  lemma {:induction false} LeadingNonZeroPositive(s: string)
    requires |s| > 0 && AllDigits(s) && s[0] != '0'
    ensures DigitsToNat(s) > 0
  {
    if |s| > 1 {
      LeadingNonZeroPositive(s[..|s| - 1]);
    }
  }

  /** Canonical digits are the only rendering of their value. */
  lemma {:induction false} CanonicalDigitsUnique(s: string)
    requires NoLeadingZero(s)
    ensures s == NatToDigits(DigitsToNat(s))
  {
    var n := DigitsToNat(s);
    if |s| > 1 {
      var p := s[..|s| - 1];
      LeadingNonZeroPositive(p);
      CanonicalDigitsUnique(p);
      assert n / 10 == DigitsToNat(p) && n % 10 == s[|s| - 1] as int - '0' as int;
    }
  }

  /** `IntToString` writes the one canonical text of each integer: any
      canonical text that reads back to `i` is that rendering. */
  lemma CanonicalIntUnique(s: string, i: int)
    requires CanonicalInt(s) && ParseInt(s) == Some(i)
    ensures s == IntToString(i)
  {
    if s[0] == '-' {
      CanonicalDigitsUnique(s[1..]);
      LeadingNonZeroPositive(s[1..]);
    } else {
      CanonicalDigitsUnique(s);
    }
  }

  /** `DigitRun` stops exactly at the end of a rendered number followed by a non-digit. */
  lemma {:induction false} DigitRunOfDigits(d: string, rest: string)
    requires AllDigits(d)
    requires |rest| == 0 || !IsDigit(rest[0])
    ensures DigitRun(d + rest) == d
  {
    if |d| > 0 {
      assert (d + rest)[1..] == d[1..] + rest;
      DigitRunOfDigits(d[1..], rest);
    } else {
      assert d + rest == rest;
    }
  }

  // ---------------------------------------------------------------- slicing

  /** Python's normalisation of one slice bound against a sequence of length `len`. */
  function SliceBound(i: int, len: nat): (r: nat)
    ensures r <= len
    ensures 0 <= i <= len ==> r == i
  {
    if i < 0 then (if i + len < 0 then 0 else i + len)
    else if i > len then len
    else i
  }

  /** Python's `s[i:j]` with a step of one: negative bounds count from the end,
      bounds are clamped, and a reversed range is empty. */
  function PySlice<T>(s: seq<T>, i: int, j: int): (r: seq<T>)
    ensures 0 <= i <= j <= |s| ==> r == s[i..j]
    ensures |r| <= |s|
  {
    var lo := SliceBound(i, |s|);
    var hi := SliceBound(j, |s|);
    if hi <= lo then [] else s[lo..hi]
  }
}
