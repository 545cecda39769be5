/** The `YYYYMMDDHHMMSS` extension of `Date`, used to name snapshots: the year
    followed by month, day, hours, minutes and seconds, each padded to two
    characters by `pad2`. Numbers become strings as JavaScript's `String` does
    for integers. */
module Timestamp {

  /** The fields the extension reads: `getFullYear()`, `getMonth()` (0 for
      January), `getDate()`, `getHours()`, `getMinutes()`, `getSeconds()`. */
  datatype DateTime = DateTime(year: int, month: int, day: int, hours: int, minutes: int, seconds: int)

  predicate IsDigits(s: string) {
    forall i :: 0 <= i < |s| ==> '0' <= s[i] <= '9'
  }

  function DigitChar(d: int): char
    requires 0 <= d < 10
  {
    (48 + d) as char
  }

  /** The number a string of decimal digits denotes. */
  function DigitsValue(s: string): nat
    requires IsDigits(s)
  {
    if s == [] then 0 else DigitsValue(s[..|s| - 1]) * 10 + ((s[|s| - 1] as int) - 48)
  }

  lemma DigitsValueAppend(s: string, d: int)
    requires IsDigits(s) && 0 <= d < 10
    ensures IsDigits(s + [DigitChar(d)])
    ensures DigitsValue(s + [DigitChar(d)]) == DigitsValue(s) * 10 + d
  {
    assert (s + [DigitChar(d)])[..|s|] == s;
  }

  /** `String(n)` for a non-negative integer: its decimal digits without
      leading zeros, which read back as n. */
  function NatToString(n: nat): (r: string)
    ensures IsDigits(r) && DigitsValue(r) == n
    ensures (|r| == 1) == (n < 10)
    ensures (r[0] == '0') == (n == 0)
    ensures 10 <= n < 100 ==> |r| == 2
    ensures 100 <= n < 1000 ==> |r| == 3
    ensures 1000 <= n < 10000 ==> |r| == 4
  {
    if n < 10 then [DigitChar(n)]
    else
      var r := NatToString(n / 10) + [DigitChar(n % 10)];
      DigitsValueAppend(NatToString(n / 10), n % 10);
      r
  }

  /** `String(n)` for any integer: a minus sign before negative numbers. */
  function IntToString(n: int): string {
    if n < 0 then "-" + NatToString(-n) else NatToString(n)
  }

  /** `pad2(n)`: a leading "0" for every n below 10. For 0 <= n < 100 the
      result is exactly two digits that read back as n. */
  function Pad2(n: int): (r: string)
    ensures 0 <= n < 100 ==> IsDigits(r) && |r| == 2 && DigitsValue(r) == n
  {
    if n < 10 then "0" + IntToString(n) else IntToString(n)
  }

  /** `date.YYYYMMDDHHMMSS()`. */
  function Format(d: DateTime): string {
    IntToString(d.year) + Pad2(d.month + 1) + Pad2(d.day) + Pad2(d.hours) + Pad2(d.minutes) + Pad2(d.seconds)
  }

  predicate InRange(d: DateTime) {
    && 1000 <= d.year <= 9999
    && 0 <= d.month <= 11
    && 1 <= d.day <= 31
    && 0 <= d.hours <= 23
    && 0 <= d.minutes <= 59
    && 0 <= d.seconds <= 59
  }

  lemma DigitsConcat(a: string, b: string)
    requires IsDigits(a) && IsDigits(b)
    ensures IsDigits(a + b)
  {
  }

  lemma Split(a: string, b: string)
    ensures (a + b)[..|a|] == a && (a + b)[|a|..] == b
  {
  }

  lemma SliceOfPrefix(t: string, i: nat, j: nat, k: nat)
    requires i <= j <= k <= |t|
    ensures t[i..j] == t[..k][i..j]
  {
  }

  /** The layout of six concatenated strings of lengths 4, 2, 2, 2, 2, 2. */
  lemma SixFields(y: string, mo: string, da: string, h: string, mi: string, s: string)
    requires |y| == 4 && |mo| == 2 && |da| == 2 && |h| == 2 && |mi| == 2 && |s| == 2
    ensures var t := y + mo + da + h + mi + s;
      && |t| == 14
      && t[0..4] == y && t[4..6] == mo && t[6..8] == da
      && t[8..10] == h && t[10..12] == mi && t[12..14] == s
  {
    var p2 := y + mo;
    var p3 := p2 + da;
    var p4 := p3 + h;
    var p5 := p4 + mi;
    var t := p5 + s;
    Split(p5, s);
    assert t[12..14] == s;
    Split(p4, mi);
    SliceOfPrefix(t, 10, 12, 12);
    Split(p3, h);
    SliceOfPrefix(t, 8, 10, 12);
    SliceOfPrefix(p5, 8, 10, 10);
    Split(p2, da);
    SliceOfPrefix(t, 6, 8, 12);
    SliceOfPrefix(p5, 6, 8, 10);
    SliceOfPrefix(p4, 6, 8, 8);
    Split(y, mo);
    SliceOfPrefix(t, 4, 6, 12);
    SliceOfPrefix(p5, 4, 6, 10);
    SliceOfPrefix(p4, 4, 6, 8);
    SliceOfPrefix(p3, 4, 6, 6);
    SliceOfPrefix(t, 0, 4, 12);
    SliceOfPrefix(p5, 0, 4, 10);
    SliceOfPrefix(p4, 0, 4, 8);
    SliceOfPrefix(p3, 0, 4, 6);
    SliceOfPrefix(p2, 0, 4, 4);
  }

  /** Reads a 14-digit timestamp back into its fields (month 0 for January). */
  function Parse(t: string): DateTime
    requires |t| == 14 && IsDigits(t)
  {
    DateTime(DigitsValue(t[0..4]), DigitsValue(t[4..6]) - 1, DigitsValue(t[6..8]),
             DigitsValue(t[8..10]), DigitsValue(t[10..12]), DigitsValue(t[12..14]))
  }

  /** For a four-digit year and in-range fields the timestamp is 14 digits
      and each field can be read back from its fixed position. */
  lemma FormatParse(d: DateTime)
    requires InRange(d)
    ensures |Format(d)| == 14 && IsDigits(Format(d))
    ensures Parse(Format(d)) == d
  {
    var y, mo, da, h, mi, s := IntToString(d.year), Pad2(d.month + 1), Pad2(d.day), Pad2(d.hours), Pad2(d.minutes), Pad2(d.seconds);
    var t := y + mo + da + h + mi + s;
    assert Format(d) == t;
    DigitsConcat(y, mo);
    DigitsConcat(y + mo, da);
    DigitsConcat(y + mo + da, h);
    DigitsConcat(y + mo + da + h, mi);
    DigitsConcat(y + mo + da + h + mi, s);
    SixFields(y, mo, da, h, mi, s);
  }
}
