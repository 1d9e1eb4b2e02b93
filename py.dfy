/**
 * The few Python string and number built-ins the controller's protocol code
 * relies on, with the edge cases it meets: slicing that clamps instead of
 * failing, prefix tests, lexicographic string comparison, `int()` and its
 * ValueError, `str(int)`, `bytes.fromhex` and ASCII decoding, `split(" ")`,
 * `strip()`, `lower()` and `rjust`.
 *
 * Exceptions that the controller lets escape are values of `Exception`, and
 * an operation that may raise one returns a `Result`.
 */
module Py {

  datatype Option<T> = None | Some(value: T)

  /** The Python exceptions the modelled code can raise. */
  datatype Exception = ValueError | IndexError | UnicodeDecodeError | AssertionError | NameError

  datatype Result<T> = Ok(value: T) | Err(error: Exception)

  type byte = x: int | 0 <= x < 256

  // ---------------------------------------------------------------------------
  // Slicing and prefixes

  /** `s.startswith(prefix)` */
  predicate StartsWith(s: string, prefix: string) {
    |prefix| <= |s| && s[..|prefix|] == prefix
  }

  function Min(a: int, b: int): int { if a < b then a else b }

  /** `s[lo:]` for a non-negative `lo`: empty when `lo` is past the end, never an error. */
  function From(s: string, lo: nat): (r: string)
    ensures |r| == if lo <= |s| then |s| - lo else 0
    ensures forall k :: 0 <= k < |r| ==> r[k] == s[lo + k]
  {
    if lo <= |s| then s[lo..] else ""
  }

  /** `s[lo:hi]` for non-negative bounds: clamped to the string, never an error. */
  function Slice(s: string, lo: nat, hi: nat): (r: string)
    ensures |r| == if lo < hi && lo < |s| then Min(hi, |s|) - lo else 0
    ensures forall k :: 0 <= k < |r| ==> r[k] == s[lo + k]
  {
    if lo < hi && lo < |s| then s[lo..Min(hi, |s|)] else ""
  }

  /** `d.get(key, default)` */
  function Get(d: map<string, string>, key: string, default: string): string {
    if key in d then d[key] else default
  }

  // ---------------------------------------------------------------------------
  // Lexicographic comparison of `str` values (by code point, a proper prefix is smaller)

  predicate LexLess(a: string, b: string)
    decreases |a|
  {
    if |a| == 0 then |b| > 0
    else if |b| == 0 then false
    else if a[0] != b[0] then a[0] < b[0]
    else LexLess(a[1..], b[1..])
  }

  /** `a <= b` on Python strings */
  predicate LexLe(a: string, b: string) {
    a == b || LexLess(a, b)
  }

  // ---------------------------------------------------------------------------
  // Whitespace, case

  /** The ASCII whitespace characters `strip()`, `int()` and `bytes.fromhex` skip. */
  predicate IsSpace(c: char) {
    c == ' ' || c == '\t' || c == '\n' || c == '\r' || c == '\U{0B}' || c == '\U{0C}'
  }

  predicate NoSpace(s: string) {
    forall i :: 0 <= i < |s| ==> !IsSpace(s[i])
  }

  function StripLeft(s: string): string {
    if |s| > 0 && IsSpace(s[0]) then StripLeft(s[1..]) else s
  }

  function StripRight(s: string): string {
    if |s| > 0 && IsSpace(s[|s| - 1]) then StripRight(s[..|s| - 1]) else s
  }

  /** `s.strip()`: leading and trailing whitespace removed. */
  function Strip(s: string): string {
    StripRight(StripLeft(s))
  }

  lemma StripNoSpace(s: string)
    requires NoSpace(s)
    ensures Strip(s) == s
  {
    if |s| > 0 {
      assert !IsSpace(s[0]) && !IsSpace(s[|s| - 1]);
    }
  }

  function LowerChar(c: char): char {
    if 'A' <= c <= 'Z' then (c as int + 32) as char else c
  }

  /** `s.lower()` on the ASCII letters. */
  function Lower(s: string): (r: string)
    ensures |r| == |s|
    ensures forall i :: 0 <= i < |s| ==> r[i] == LowerChar(s[i])
  {
    seq(|s|, i requires 0 <= i < |s| => LowerChar(s[i]))
  }

  /** Lower-casing leaves a string without upper-case letters unchanged. */
  lemma LowerNoUpper(s: string)
    requires forall i :: 0 <= i < |s| ==> !('A' <= s[i] <= 'Z')
    ensures Lower(s) == s
  {
  }

  /** `s.rjust(width, fill)` */
  function RJust(s: string, width: nat, fill: char): (r: string)
    ensures |r| == if |s| < width then width else |s|
    ensures r[|r| - |s|..] == s
    ensures forall i :: 0 <= i < |r| - |s| ==> r[i] == fill
  {
    if |s| < width then seq(width - |s|, _ => fill) + s else s
  }

  // ---------------------------------------------------------------------------
  // split(" ") and " ".join(...)

  /** `s.split(sep)` for a one-character separator: consecutive separators give empty fields. */
  function Split(s: string, sep: char): (r: seq<string>)
    ensures |r| >= 1
    ensures |r| == 1 <==> sep !in s
    decreases |s|
  {
    if s == "" then [""]
    else
      var rest := Split(s[1..], sep);
      if s[0] == sep then [""] + rest
      else [[s[0]] + rest[0]] + rest[1..]
  }

  /** `sep.join(parts)` */
  function Join(parts: seq<string>, sep: char): string
    decreases |parts|
  {
    if |parts| == 0 then ""
    else if |parts| == 1 then parts[0]
    else parts[0] + [sep] + Join(parts[1..], sep)
  }

  lemma {:induction false} JoinSplit(s: string, sep: char)
    ensures Join(Split(s, sep), sep) == s
    decreases |s|
  {
    if s != "" {
      var rest := Split(s[1..], sep);
      JoinSplit(s[1..], sep);
      if s[0] == sep {
        assert Split(s, sep) == [""] + rest;
        assert s == [sep] + s[1..];
      } else {
        assert Split(s, sep) == [[s[0]] + rest[0]] + rest[1..];
        if |rest| > 1 {
          assert Join(rest, sep) == rest[0] + [sep] + Join(rest[1..], sep);
        }
        assert s == [s[0]] + s[1..];
      }
    }
  }

  /** Index of the first occurrence of `c` in `s`. */
  function IndexOf(s: string, c: char): (i: nat)
    requires c in s
    ensures i < |s| && s[i] == c && c !in s[..i]
  {
    if s[0] == c then 0 else IndexOf(s[1..], c) + 1
  }

  /** The first field runs up to the first separator; the other fields are the split of what follows it. */
  lemma {:induction false} SplitFirst(s: string, sep: char)
    ensures Split(s, sep)[0] == if sep in s then s[..IndexOf(s, sep)] else s
    ensures sep in s ==> Split(s, sep)[1..] == Split(s[IndexOf(s, sep) + 1..], sep)
    decreases |s|
  {
    if s != "" && s[0] != sep {
      var t := s[1..];
      SplitFirst(t, sep);
      assert sep in s <==> sep in t;
      if sep in t {
        assert s[..IndexOf(s, sep)] == [s[0]] + t[..IndexOf(t, sep)];
        assert s[IndexOf(s, sep) + 1..] == t[IndexOf(t, sep) + 1..];
      } else {
        assert s == [s[0]] + t;
      }
    }
  }

  /** Rejoining every field after the first gives back exactly the text after the first separator. */
  lemma {:induction false} JoinTail(s: string, sep: char)
    requires sep in s
    ensures Join(Split(s, sep)[1..], sep) == s[IndexOf(s, sep) + 1..]
    decreases |s|
  {
    var rest := Split(s[1..], sep);
    if s[0] == sep {
      JoinSplit(s[1..], sep);
    } else {
      assert sep in s[1..];
      JoinTail(s[1..], sep);
      assert Split(s, sep)[1..] == rest[1..];
    }
  }

  // ---------------------------------------------------------------------------
  // Decimal numbers: int() and str()

  predicate IsDigit(c: char) { '0' <= c <= '9' }

  function DigitValue(c: char): int requires IsDigit(c) { c as int - '0' as int }

  function DigitChar(d: int): char requires 0 <= d < 10 { ('0' as int + d) as char }

  predicate IsDigits(t: string) {
    |t| > 0 && forall i :: 0 <= i < |t| ==> IsDigit(t[i])
  }

  /** The value of a non-empty run of decimal digits (leading zeros allowed). */
  function DigitsValue(t: string): (n: nat)
    requires forall i :: 0 <= i < |t| ==> IsDigit(t[i])
    decreases |t|
  {
    if |t| == 0 then 0 else DigitsValue(t[..|t| - 1]) * 10 + DigitValue(t[|t| - 1])
  }

  /** `int(s)`: surrounding whitespace, an optional sign, then decimal digits; anything else raises ValueError. */
  function ParseInt(s: string): Option<int> {
    var t := Strip(s);
    if |t| > 0 && (t[0] == '+' || t[0] == '-') then
      if IsDigits(t[1..]) then
        var v: int := DigitsValue(t[1..]);
        Some(if t[0] == '-' then -v else v)
      else None
    else if IsDigits(t) then Some(DigitsValue(t))
    else None
  }

  function NatToString(n: nat): (r: string)
    ensures IsDigits(r)
  {
    if n < 10 then [DigitChar(n)] else NatToString(n / 10) + [DigitChar(n % 10)]
  }

  /** `str(n)` (and `"%d" % n`): an optional minus sign, then the decimal digits without leading zeros. */
  function IntToString(n: int): string {
    if n < 0 then "-" + NatToString(-n) else NatToString(n)
  }

  lemma {:induction false} NatToStringValue(n: nat)
    ensures DigitsValue(NatToString(n)) == n
    decreases n
  {
    if n >= 10 {
      NatToStringValue(n / 10);
      var t := NatToString(n);
      assert t[..|t| - 1] == NatToString(n / 10);
    }
  }

  /** `int()` of a plain run of digits is its value. */
  lemma ParseIntDigits(t: string)
    requires IsDigits(t)
    ensures ParseInt(t) == Some(DigitsValue(t))
  {
    assert NoSpace(t) by {
      forall i | 0 <= i < |t| ensures !IsSpace(t[i]) { assert IsDigit(t[i]); }
    }
    StripNoSpace(t);
    assert IsDigit(t[0]);
  }

  /** `int(str(n)) == n` */
  lemma ParseIntToString(n: int)
    ensures ParseInt(IntToString(n)) == Some(n)
  {
    var m: nat := if n < 0 then -n else n;
    var digits := NatToString(m);
    NatToStringValue(m);
    assert NoSpace(digits) by {
      forall i | 0 <= i < |digits| ensures !IsSpace(digits[i]) {
        assert IsDigit(digits[i]);
      }
    }
    if n < 0 {
      var t := "-" + digits;
      assert t == IntToString(n);
      assert NoSpace(t) by {
        forall i | 0 <= i < |t| ensures !IsSpace(t[i]) {
          if i > 0 { assert t[i] == digits[i - 1]; }
        }
      }
      StripNoSpace(t);
      assert t[1..] == digits;
    } else {
      assert digits == IntToString(n);
      StripNoSpace(digits);
      assert IsDigit(digits[0]);
    }
  }

  // ---------------------------------------------------------------------------
  // Hexadecimal bytes and ASCII

  predicate IsHexDigit(c: char) {
    '0' <= c <= '9' || 'a' <= c <= 'f' || 'A' <= c <= 'F'
  }

  function HexValue(c: char): (v: int)
    requires IsHexDigit(c)
    ensures 0 <= v < 16
  {
    if '0' <= c <= '9' then c as int - '0' as int
    else if 'a' <= c <= 'f' then c as int - 'a' as int + 10
    else c as int - 'A' as int + 10
  }

  /** The upper-case hex digit of `d`. */
  function HexChar(d: int): (c: char)
    requires 0 <= d < 16
    ensures IsHexDigit(c) && HexValue(c) == d && !IsSpace(c)
  {
    if d < 10 then ('0' as int + d) as char else ('A' as int + d - 10) as char
  }

  /**
   * `bytes.fromhex(s)`: whitespace between byte pairs is skipped; every other
   * character must belong to a pair of hex digits, otherwise ValueError.
   */
  function FromHex(s: string): Result<seq<byte>>
    decreases |s|
  {
    if |s| == 0 then Ok([])
    else if IsSpace(s[0]) then FromHex(s[1..])
    else if |s| == 1 || !IsHexDigit(s[0]) || !IsHexDigit(s[1]) then Err(ValueError)
    else
      match FromHex(s[2..])
      case Err(e) => Err(e)
      case Ok(bs) => Ok([16 * HexValue(s[0]) + HexValue(s[1])] + bs)
  }

  /** `bytes.hex().upper()`: two hex digits per byte. */
  function ToHex(bs: seq<byte>): (r: string)
    ensures |r| == 2 * |bs|
  {
    if bs == [] then "" else [HexChar(bs[0] / 16), HexChar(bs[0] % 16)] + ToHex(bs[1..])
  }

  lemma {:induction false} FromHexToHex(bs: seq<byte>)
    ensures FromHex(ToHex(bs)) == Ok(bs)
  {
    if bs != [] {
      var h := ToHex(bs);
      FromHexToHex(bs[1..]);
      assert h[2..] == ToHex(bs[1..]);
      assert [bs[0]] + bs[1..] == bs;
    }
  }

  /** Without whitespace, `bytes.fromhex` succeeds exactly on an even number of hex digits, one byte per pair. */
  lemma {:induction false} FromHexNoSpace(s: string)
    requires NoSpace(s)
    ensures FromHex(s).Ok? <==> |s| % 2 == 0 && forall i :: 0 <= i < |s| ==> IsHexDigit(s[i])
    ensures FromHex(s).Ok? ==> |FromHex(s).value| == |s| / 2
    decreases |s|
  {
    if |s| == 1 {
      assert !IsSpace(s[0]);
    } else if |s| >= 2 {
      assert !IsSpace(s[0]);
      var t := s[2..];
      assert NoSpace(t) by {
        forall i | 0 <= i < |t| ensures !IsSpace(t[i]) { assert t[i] == s[i + 2]; }
      }
      FromHexNoSpace(t);
      assert (forall i :: 0 <= i < |s| ==> IsHexDigit(s[i])) <==>
        IsHexDigit(s[0]) && IsHexDigit(s[1]) && forall i :: 0 <= i < |t| ==> IsHexDigit(t[i])
      by {
        if IsHexDigit(s[0]) && IsHexDigit(s[1]) && forall i :: 0 <= i < |t| ==> IsHexDigit(t[i]) {
          forall i | 0 <= i < |s| ensures IsHexDigit(s[i]) {
            if i >= 2 { assert s[i] == t[i - 2]; }
          }
        }
      }
    }
  }

  /** Byte k of a successful decode of a space-free string is hex pair k. */
  lemma {:induction false} FromHexValues(s: string)
    requires NoSpace(s) && FromHex(s).Ok?
    ensures forall k :: 0 <= k < |FromHex(s).value| ==>
      2 * k + 1 < |s| && IsHexDigit(s[2 * k]) && IsHexDigit(s[2 * k + 1]) &&
      FromHex(s).value[k] == 16 * HexValue(s[2 * k]) + HexValue(s[2 * k + 1])
    decreases |s|
  {
    if |s| > 0 {
      assert !IsSpace(s[0]);
      var t := s[2..];
      assert NoSpace(t) by {
        forall i | 0 <= i < |t| ensures !IsSpace(t[i]) { assert t[i] == s[i + 2]; }
      }
      FromHexValues(t);
      var bs := FromHex(s).value;
      forall k | 0 <= k < |bs|
        ensures 2 * k + 1 < |s| && IsHexDigit(s[2 * k]) && IsHexDigit(s[2 * k + 1]) &&
          bs[k] == 16 * HexValue(s[2 * k]) + HexValue(s[2 * k + 1])
      {
        if k > 0 {
          assert bs[k] == FromHex(t).value[k - 1];
          assert s[2 * k] == t[2 * (k - 1)] && s[2 * k + 1] == t[2 * (k - 1) + 1];
        }
      }
    }
  }

  /** Decoding a space-free even-length prefix and the rest separately gives the same bytes. */
  lemma {:induction false} FromHexAppend(a: string, b: string)
    requires |a| % 2 == 0 && NoSpace(a) && FromHex(a).Ok? && FromHex(b).Ok?
    ensures FromHex(a + b) == Ok(FromHex(a).value + FromHex(b).value)
    decreases |a|
  {
    if |a| > 0 {
      assert !IsSpace(a[0]);
      var t := a[2..];
      assert NoSpace(t) by {
        forall i | 0 <= i < |t| ensures !IsSpace(t[i]) { assert t[i] == a[i + 2]; }
      }
      assert |a| >= 2 && IsHexDigit(a[0]) && IsHexDigit(a[1]);
      var x: byte := 16 * HexValue(a[0]) + HexValue(a[1]);
      assert FromHex(t).Ok? && FromHex(a).value == [x] + FromHex(t).value;
      FromHexAppend(t, b);
      var ab := a + b;
      assert ab[2..] == t + b && ab[0] == a[0] && ab[1] == a[1];
      assert FromHex(ab) == Ok([x] + FromHex(t + b).value);
      assert [x] + (FromHex(t).value + FromHex(b).value) == ([x] + FromHex(t).value) + FromHex(b).value;
    } else {
      assert a + b == b && FromHex(a).value == [];
      assert FromHex(a).value + FromHex(b).value == FromHex(b).value;
    }
  }

  predicate IsAscii(bs: seq<byte>) {
    forall i :: 0 <= i < |bs| ==> bs[i] < 128
  }

  /** `bs.decode('ascii')`: UnicodeDecodeError on any byte of 128 or more. */
  function AsciiDecode(bs: seq<byte>): (r: Result<string>)
    ensures r.Ok? <==> IsAscii(bs)
    ensures r.Ok? ==> |r.value| == |bs| && forall i :: 0 <= i < |bs| ==> r.value[i] as int == bs[i]
  {
    if IsAscii(bs) then Ok(seq(|bs|, i requires 0 <= i < |bs| => bs[i] as char)) else Err(UnicodeDecodeError)
  }

  predicate IsAsciiText(s: string) {
    forall i :: 0 <= i < |s| ==> s[i] as int < 128
  }

  /** `s.encode('ascii')` for text that is ASCII. */
  function AsciiEncode(s: string): (bs: seq<byte>)
    requires IsAsciiText(s)
    ensures |bs| == |s| && IsAscii(bs)
  {
    seq(|s|, i requires 0 <= i < |s| => s[i] as int)
  }
}
