/**
 * The behaviour of the C library routines the status bar relies on, on
 * strings of characters: C strings held in buffers, strncmp, and the integer
 * conversions done by sscanf's and fscanf's %d and by atof.
 */
module Libc {
  import opened Wrappers

  /** isspace in the C locale: the characters %d and atof skip before a number. */
  predicate IsSpace(c: char) {
    c == ' ' || c == '\t' || c == '\n' || c == '\r' || c == '\U{0B}' || c == '\U{0C}'
  }

  predicate IsDigit(c: char) {
    '0' <= c <= '9'
  }

  predicate AllDigits(s: string) {
    forall i :: 0 <= i < |s| ==> IsDigit(s[i])
  }

  predicate AllSpaces(s: string) {
    forall i :: 0 <= i < |s| ==> IsSpace(s[i])
  }

  /** Character i of the C string with contents s; past the end sits the terminator. */
  function CharAt(s: string, i: nat): char {
    if i < |s| then s[i] else '\0'
  }

  /** The C string a character buffer holds: everything before its first NUL. */
  function CStr(buf: string): (s: string)
    ensures s <= buf
    ensures '\0' !in s
    ensures |s| < |buf| ==> buf[|s|] == '\0'
  {
    if buf == [] || buf[0] == '\0' then [] else [buf[0]] + CStr(buf[1..])
  }

  /** A buffer whose prefix s is followed by a NUL holds the same C string as s alone. */
  lemma {:induction false} CStrStopsAtNul(s: string, t: string)
    requires t != [] && t[0] == '\0'
    ensures CStr(s + t) == CStr(s)
  {
    if s != [] && s[0] != '\0' {
      assert (s + t)[1..] == s[1..] + t;
      CStrStopsAtNul(s[1..], t);
    }
  }

  /** Without a NUL, the whole buffer is the C string. */
  lemma {:induction false} CStrOfNulFree(s: string)
    requires '\0' !in s
    ensures CStr(s) == s
  {
    if s != [] {
      assert '\0' !in s[1..];
      CStrOfNulFree(s[1..]);
    }
  }

  /** strncmp(a, b, n) == 0, for the C strings with contents a and b. */
  predicate StrnEqual(a: string, b: string, n: nat)
    decreases n
  {
    n == 0 ||
    (CharAt(a, 0) == CharAt(b, 0) &&
     (CharAt(a, 0) == '\0' || StrnEqual(a[1..], b[1..], n - 1)))
  }

  /** Comparing the first |b| characters with strncmp succeeds exactly when b is a prefix of a. */
  lemma {:induction false} StrnEqualIsPrefix(a: string, b: string)
    requires '\0' !in a && '\0' !in b
    ensures StrnEqual(a, b, |b|) <==> b <= a
  {
    if b != [] {
      if a != [] && a[0] == b[0] {
        assert '\0' !in a[1..] && '\0' !in b[1..];
        StrnEqualIsPrefix(a[1..], b[1..]);
        assert b <= a <==> b[1..] <= a[1..];
      }
    }
  }

  /** The input with its leading white space removed. */
  function SkipSpace(s: string): (t: string)
    ensures t == [] || !IsSpace(t[0])
  {
    if s != [] && IsSpace(s[0]) then SkipSpace(s[1..]) else s
  }

  /** The number of leading decimal digits. */
  function DigitCount(s: string): (k: nat)
    ensures k <= |s| && AllDigits(s[..k])
    ensures k < |s| ==> !IsDigit(s[k])
  {
    if s != [] && IsDigit(s[0]) then 1 + DigitCount(s[1..]) else 0
  }

  /** The value of a string of decimal digits, most significant first. */
  function DigitsValue(d: string): nat
    requires AllDigits(d)
  {
    if d == [] then 0 else DigitsValue(d[..|d| - 1]) * 10 + (d[|d| - 1] as int - '0' as int)
  }

  /** The value of the leading run of digits, absent when there is none. */
  function Unsigned(s: string): Option<nat> {
    var k := DigitCount(s);
    if k == 0 then None else Some(DigitsValue(s[..k]))
  }

  /**
   * The integer that %d converts at the start of s: leading white space, an
   * optional sign and one or more digits. None is a matching failure or end of
   * input, where the destination variable is left as it was.
   */
  function ScanInt(s: string): Option<int> {
    Signed(SkipSpace(s))
  }

  /** The conversion once the white space is skipped: an optional sign, then digits. */
  function Signed(t: string): Option<int> {
    if t != [] && (t[0] == '-' || t[0] == '+') then
      match Unsigned(t[1..])
      case Some(v) => Some(if t[0] == '-' then -(v as int) else v)
      case None => None
    else
      match Unsigned(t)
      case Some(v) => Some(v)
      case None => None
  }

  /** sscanf(s, "%d", &dest): dest afterwards. */
  function Sscanf(s: string, dest: int): int {
    ScanInt(s).GetOr(dest)
  }

  /** atof(s) on integer text: the converted integer, 0 when nothing converts. */
  function Atof(s: string): int {
    ScanInt(s).GetOr(0)
  }

  function DigitChar(d: nat): (c: char)
    requires d < 10
    ensures IsDigit(c) && c as int - '0' as int == d
  {
    (d + '0' as int) as char
  }

  /** The decimal numeral of n, as the kernel writes counters into its files. */
  function NatDecimal(n: nat): (s: string)
    ensures s != [] && AllDigits(s)
    decreases n
  {
    if n < 10 then [DigitChar(n)] else NatDecimal(n / 10) + [DigitChar(n % 10)]
  }

  /** The decimal numeral of i, with a leading '-' when negative. */
  function Decimal(i: int): string {
    if i < 0 then "-" + NatDecimal(-i) else NatDecimal(i)
  }

  lemma {:induction false} NatDecimalValue(n: nat)
    ensures DigitsValue(NatDecimal(n)) == n
    decreases n
  {
    if n >= 10 {
      var s := NatDecimal(n);
      assert s[..|s| - 1] == NatDecimal(n / 10);
      NatDecimalValue(n / 10);
    }
  }

  lemma {:induction false} DigitCountOf(d: string, rest: string)
    requires AllDigits(d)
    requires rest == [] || !IsDigit(rest[0])
    ensures DigitCount(d + rest) == |d|
  {
    if d != [] {
      assert (d + rest)[1..] == d[1..] + rest;
      DigitCountOf(d[1..], rest);
    }
  }

  lemma {:induction false} UnsignedOf(n: nat, rest: string)
    requires rest == [] || !IsDigit(rest[0])
    ensures Unsigned(NatDecimal(n) + rest) == Some(n)
  {
    var d := NatDecimal(n);
    DigitCountOf(d, rest);
    assert (d + rest)[..|d|] == d;
    NatDecimalValue(n);
  }

  lemma {:induction false} SkipSpaces(ws: string, s: string)
    requires AllSpaces(ws)
    ensures SkipSpace(ws + s) == SkipSpace(s)
  {
    if ws != [] {
      assert (ws + s)[0] == ws[0] && IsSpace(ws[0]);
      assert (ws + s)[1..] == ws[1..] + s;
      assert SkipSpace(ws + s) == SkipSpace(ws[1..] + s);
      SkipSpaces(ws[1..], s);
    } else {
      assert ws + s == s;
    }
  }

  /** %d skips any white space before the number. */
  lemma ScanIntSkipsSpace(ws: string, t: string)
    requires AllSpaces(ws)
    ensures ScanInt(ws + t) == ScanInt(t)
  {
    SkipSpaces(ws, t);
  }

  lemma {:induction false} ScanNatDecimal(n: nat, rest: string)
    requires rest == [] || !IsDigit(rest[0])
    ensures ScanInt(NatDecimal(n) + rest) == Some(n)
  {
    var d := NatDecimal(n);
    var t := d + rest;
    assert t[0] == d[0];
    assert IsDigit(t[0]);
    assert !IsSpace(t[0]);
    assert SkipSpace(t) == t;
    UnsignedOf(n, rest);
    assert Signed(t) == Some(n);
  }

  lemma {:induction false} ScanNegDecimal(i: int, rest: string)
    requires i < 0
    requires rest == [] || !IsDigit(rest[0])
    ensures ScanInt(Decimal(i) + rest) == Some(i)
  {
    var u := NatDecimal(-i) + rest;
    var t := "-" + u;
    assert Decimal(i) + rest == t;
    assert SkipSpace(t) == t by {
      assert t[0] == '-';
    }
    UnsignedOf(-i, rest);
    SignedMinus(u, -i);
  }

  /** A minus sign before digits worth n converts to -n. */
  lemma SignedMinus(u: string, n: nat)
    requires Unsigned(u) == Some(n)
    ensures Signed("-" + u) == Some(-(n as int))
  {
    assert ("-" + u)[1..] == u;
  }

  /**
   * %d reads back the decimal numeral of any integer, whatever white space
   * precedes it and whatever non-digit follows it.
   */
  lemma {:induction false} ScanDecimal(ws: string, i: int, rest: string)
    requires AllSpaces(ws)
    requires rest == [] || !IsDigit(rest[0])
    ensures ScanInt(ws + Decimal(i) + rest) == Some(i)
  {
    assert ws + Decimal(i) + rest == ws + (Decimal(i) + rest);
    ScanIntSkipsSpace(ws, Decimal(i) + rest);
    if i < 0 {
      ScanNegDecimal(i, rest);
    } else {
      ScanNatDecimal(i, rest);
    }
  }
}
