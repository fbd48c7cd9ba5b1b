/**
 * The C library and Arduino `String` operations the firmware relies on:
 * `isspace`, `String::trim`, `String::indexOf`, `strlcpy`, `snprintf("%08X")`
 * and `strtoul(s, nullptr, 16)`. Text is a sequence of characters, and each
 * `char` stands for one byte (one `char`) of the C string: lengths and
 * capacities count bytes, as `strlcpy` and `sizeof` do. The target is a 32-bit
 * ESP32, where `unsigned long` is 32 bits wide.
 */
module Text {
  import opened Uint32

  /** `isspace` in the "C" locale: space, \t, \n, \v, \f and \r. */
  predicate IsSpace(c: char)
  {
    c == ' ' || c == '\t' || c == '\n' || c == '\U{B}' || c == '\U{C}' || c == '\r'
  }

  // ---------------------------------------------------------------- trimming

  /** Leading white space dropped, as `String::trim()` and `strtoul` both do. */
  function TrimStart(s: string): (r: string)
    ensures |r| <= |s| && r == s[|s| - |r|..]
    ensures r == [] || !IsSpace(r[0])
  {
    if s != [] && IsSpace(s[0]) then TrimStart(s[1..]) else s
  }

  function TrimEnd(s: string): (r: string)
    ensures |r| <= |s| && r == s[..|r|]
    ensures r == [] || !IsSpace(r[|r| - 1])
  {
    if s != [] && IsSpace(s[|s| - 1]) then TrimEnd(s[..|s| - 1]) else s
  }

  /** `String::trim()`: drops leading and trailing white space. */
  function Trim(s: string): (r: string)
    ensures r == [] || (!IsSpace(r[0]) && !IsSpace(r[|r| - 1]))
  {
    var t := TrimStart(s);
    assert t == s[|s| - |t|..];
    TrimEnd(t)
  }

  /** Only white space is dropped from the front. */
  lemma {:induction false} TrimStartDropsSpace(s: string)
    ensures forall k :: 0 <= k < |s| - |TrimStart(s)| ==> IsSpace(s[k])
  {
    if s != [] && IsSpace(s[0]) {
      TrimStartDropsSpace(s[1..]);
      forall k | 1 <= k < |s| - |TrimStart(s)|
        ensures IsSpace(s[k])
      {
        assert s[k] == s[1..][k - 1];
      }
    }
  }

  /** Only white space is dropped from the back. */
  lemma {:induction false} TrimEndDropsSpace(s: string)
    ensures forall k :: |TrimEnd(s)| <= k < |s| ==> IsSpace(s[k])
  {
    if s != [] && IsSpace(s[|s| - 1]) {
      TrimEndDropsSpace(s[..|s| - 1]);
    }
  }

  /** `Trim(s)` is the slice `s[i..j]`, and everything outside it is white space. */
  lemma TrimBounds(s: string) returns (i: nat, j: nat)
    ensures i <= j <= |s| && Trim(s) == s[i..j]
    ensures forall k :: 0 <= k < i ==> IsSpace(s[k])
    ensures forall k :: j <= k < |s| ==> IsSpace(s[k])
  {
    var t := TrimStart(s);
    var e := TrimEnd(t);
    i := |s| - |t|;
    j := i + |e|;
    TrimStartDropsSpace(s);
    TrimEndDropsSpace(t);
    assert t == s[i..] && e == t[..|e|];
    forall k | j <= k < |s|
      ensures IsSpace(s[k])
    {
      assert s[k] == t[k - i];
    }
  }

  /** Text with no white space at either end is left as it is. */
  lemma TrimUnchanged(s: string)
    requires s == [] || (!IsSpace(s[0]) && !IsSpace(s[|s| - 1]))
    ensures Trim(s) == s
  {
  }

  /** `String::indexOf(c)`: the first position of `c`, or -1. */
  function IndexOf(s: string, c: char): (r: int)
    ensures -1 <= r < |s|
    ensures r == -1 <==> c !in s
    ensures r >= 0 ==> s[r] == c && c !in s[..r]
  {
    if s == [] then -1
    else if s[0] == c then 0
    else
      var k := IndexOf(s[1..], c);
      assert s[1..][..(if k < 0 then 0 else k)] == s[1..(if k < 0 then 1 else k + 1)];
      if k < 0 then -1 else k + 1
  }

  /** `String::lastIndexOf(c)`: the last position of `c`, or -1. */
  function LastIndexOf(s: string, c: char): (r: int)
    ensures -1 <= r < |s|
    ensures r == -1 <==> c !in s
    ensures r >= 0 ==> s[r] == c && c !in s[r + 1..]
  {
    if s == [] then -1
    else if s[|s| - 1] == c then |s| - 1
    else
      var init := s[..|s| - 1];
      var k := LastIndexOf(init, c);
      assert s == init + [s[|s| - 1]];
      assert k >= 0 ==> s[k + 1..] == init[k + 1..] + [s[|s| - 1]];
      k
  }

  /** `String::endsWith(suffix)`. */
  predicate EndsWith(s: string, suffix: string)
  {
    |suffix| <= |s| && s[|s| - |suffix|..] == suffix
  }

  // ------------------------------------------------------------- C strings

  /** What a `const char*` denotes: the characters before the first NUL. */
  function CStr(s: string): (r: string)
    ensures r <= s && '\0' !in r
    ensures '\0' !in s ==> r == s
  {
    if s == [] || s[0] == '\0' then "" else [s[0]] + CStr(s[1..])
  }

  /**
   * `strlcpy(dst, src, size)` with `size >= 1`: `dst` receives at most
   * `size - 1` characters of the C string `src`, then a terminator.
   */
  function Strlcpy(src: string, size: nat): (dst: string)
    requires size >= 1
    ensures |dst| < size && '\0' !in dst && dst <= src
    ensures |src| < size && '\0' !in src ==> dst == src
    ensures |dst| == if |CStr(src)| < size then |CStr(src)| else size - 1
  {
    var c := CStr(src);
    if |c| < size then c else c[..size - 1]
  }

  // ------------------------------------------------------------ hex digits

  predicate IsHexDigit(c: char)
  {
    '0' <= c <= '9' || 'A' <= c <= 'F' || 'a' <= c <= 'f'
  }

  /** A digit as `%X` prints it: 0-9 then upper-case A-F. */
  predicate IsUpperHexDigit(c: char)
  {
    '0' <= c <= '9' || 'A' <= c <= 'F'
  }

  predicate AllHex(s: string)
  {
    forall i :: 0 <= i < |s| ==> IsHexDigit(s[i])
  }

  function DigitValue(c: char): (v: nat)
    requires IsHexDigit(c)
    ensures v < 16
  {
    if '0' <= c <= '9' then c as int - '0' as int
    else if 'A' <= c <= 'F' then c as int - 'A' as int + 10
    else c as int - 'a' as int + 10
  }

  function UpperDigit(v: nat): (c: char)
    requires v < 16
    ensures IsUpperHexDigit(c) && IsHexDigit(c) && DigitValue(c) == v
  {
    if v < 10 then ('0' as int + v) as char else ('A' as int + v - 10) as char
  }

  /** The value of a run of hex digits, most significant first. */
  function HexValue(s: string): nat
    requires AllHex(s)
  {
    if s == [] then 0 else HexValue(s[..|s| - 1]) * 16 + DigitValue(s[|s| - 1])
  }

  function Pow16(n: nat): (p: nat)
    ensures p >= 1
  {
    if n == 0 then 1 else 16 * Pow16(n - 1)
  }

  /** `v` printed in upper-case hex, zero-padded to exactly `width` digits. */
  function HexDigits(v: nat, width: nat): (s: string)
    requires v < Pow16(width)
    ensures |s| == width && AllHex(s) && HexValue(s) == v
    ensures forall i :: 0 <= i < |s| ==> IsUpperHexDigit(s[i])
  {
    if width == 0 then ""
    else
      var s := HexDigits(v / 16, width - 1) + [UpperDigit(v % 16)];
      assert s[..|s| - 1] == HexDigits(v / 16, width - 1);
      s
  }

  /** `snprintf(buf, 16, "%08X", v)`: eight upper-case hex digits, zero-padded. */
  function Format08X(v: U32): (s: string)
    ensures |s| == 8 && AllHex(s) && HexValue(s) == v
    ensures forall i :: 0 <= i < |s| ==> IsUpperHexDigit(s[i])
  {
    assert Pow16(8) == Modulus;
    HexDigits(v, 8)
  }

  /** Distinct values print differently. */
  lemma Format08XInjective(a: U32, b: U32)
    requires Format08X(a) == Format08X(b)
    ensures a == b
  {
  }

  // ----------------------------------------------------------------- strtoul

  /** The longest prefix of `s` made of hex digits. */
  function HexRun(s: string): (d: string)
    ensures d <= s && AllHex(d)
    ensures |d| == |s| || !IsHexDigit(s[|d|])
  {
    if s != [] && IsHexDigit(s[0]) then [s[0]] + HexRun(s[1..]) else []
  }

  /**
   * `strtoul(s, nullptr, 16)` on a target with 32-bit `unsigned long`: skip
   * leading white space, accept one sign, accept a `0x`/`0X` prefix when a hex
   * digit follows it, read the longest run of hex digits and stop at the first
   * other character. A magnitude above `ULONG_MAX` saturates to `ULONG_MAX`; a
   * minus sign negates modulo 2^32. No digits at all gives 0.
   */
  function Strtoul16(s: string): (r: U32)
  {
    var t := TrimStart(s);
    Signed(t != [] && t[0] == '-', HexValue(HexRun(PrefixSkipped(SignSkipped(t)))))
  }

  /** One leading sign, if any, dropped. */
  function SignSkipped(t: string): string
  {
    if t != [] && (t[0] == '-' || t[0] == '+') then t[1..] else t
  }

  /** A `0x`/`0X` prefix dropped, only when a hex digit follows it. */
  function PrefixSkipped(u: string): string
  {
    if |u| >= 3 && u[0] == '0' && (u[1] == 'x' || u[1] == 'X') && IsHexDigit(u[2]) then u[2..] else u
  }

  /** The result for a magnitude: saturated to `ULONG_MAX`, negated modulo 2^32 after a minus. */
  function Signed(negative: bool, magnitude: nat): U32
  {
    if magnitude > Max then Max
    else if negative then (Modulus - magnitude) % Modulus
    else magnitude
  }

  /** The run of hex digits ends at the first character that is not one. */
  lemma {:induction false} HexRunStopsAt(d: string, rest: string)
    requires AllHex(d)
    requires rest == [] || !IsHexDigit(rest[0])
    ensures HexRun(d + rest) == d
  {
    if d != [] {
      assert (d + rest)[1..] == d[1..] + rest;
      HexRunStopsAt(d[1..], rest);
    } else {
      assert d + rest == rest;
    }
  }

  /**
   * Parsing stops at the first non-hex character after the eight digits, so
   * `strtoul` of `Format08X(v)` followed by such a character (or nothing) is `v`.
   */
  lemma Strtoul16OfFormatted(v: U32, rest: string)
    requires rest == [] || !IsHexDigit(rest[0])
    ensures Strtoul16(Format08X(v) + rest) == v
  {
    var d := Format08X(v);
    assert (d + rest)[1] == d[1];
    Strtoul16OfDigits(d, rest);
  }

  /**
   * A run of hex digits `d` with no `0x` prefix, followed by text that does
   * not go on with a digit, is read as the value of `d` when that fits.
   */
  lemma Strtoul16OfDigits(d: string, rest: string)
    requires d != [] && AllHex(d) && HexValue(d) <= Max
    requires rest == [] || !IsHexDigit(rest[0])
    requires |d + rest| < 2 || ((d + rest)[1] != 'x' && (d + rest)[1] != 'X')
    ensures Strtoul16(d + rest) == HexValue(d)
  {
    var s := d + rest;
    HexRunStopsAt(d, rest);
    assert s[0] == d[0];
    DigitsReadFromStart(s);
  }

  /** Before such text `strtoul` skips nothing: no white space, no sign, no prefix. */
  lemma DigitsReadFromStart(s: string)
    requires s != [] && IsHexDigit(s[0])
    requires |s| < 2 || (s[1] != 'x' && s[1] != 'X')
    ensures TrimStart(s) == s && !(s[0] == '-')
    ensures PrefixSkipped(SignSkipped(s)) == s
  {
    assert !IsSpace(s[0]);
  }

}
