/**
 * Decimal rendering of integers (`String(n)`, `n.toString()`), `padStart`,
 * `Array.prototype.join`, and a decimal reader used to state round trips.
 */
module Strings {

  predicate IsDigit(c: char) {
    '0' <= c <= '9'
  }

  predicate AllDigits(s: string) {
    forall i :: 0 <= i < |s| ==> IsDigit(s[i])
  }

  function DigitChar(d: nat): (c: char)
    requires d < 10
    ensures IsDigit(c) && c as int - '0' as int == d
  {
    ('0' as int + d) as char
  }

  /** The value of a string of decimal digits (the empty string reads as 0). */
  function DigitsValue(s: string): nat
    requires AllDigits(s)
  {
    if s == [] then 0
    else DigitsValue(s[..|s| - 1]) * 10 + (s[|s| - 1] as int - '0' as int)
  }

  /** `String(n)` for a non-negative integer: its shortest decimal form. */
  function NatToString(n: nat): (r: string)
    ensures |r| >= 1 && AllDigits(r)
    ensures DigitsValue(r) == n
    ensures r[0] == '0' ==> n == 0 && |r| == 1
  {
    if n < 10 then [DigitChar(n)]
    else
      var prefix := NatToString(n / 10);
      var r := prefix + [DigitChar(n % 10)];
      assert r[..|r| - 1] == prefix;
      r
  }

  /** `String(i)` for an integer: a minus sign before the magnitude when negative. */
  function IntToString(i: int): (r: string)
    ensures i >= 0 ==> r == NatToString(i)
    ensures i < 0 ==> r == "-" + NatToString(-i)
  {
    if i < 0 then "-" + NatToString(-i) else NatToString(i)
  }

  /** `s.padStart(width, [c])`: fills on the left up to `width`, never truncates. */
  function PadStart(s: string, width: nat, c: char): (r: string)
    ensures |r| == if |s| >= width then |s| else width
    ensures r[|r| - |s|..] == s
    ensures forall i :: 0 <= i < |r| - |s| ==> r[i] == c
  {
    if |s| >= width then s else seq(width - |s|, _ => c) + s
  }

  /** `parts.join(sep)`. */
  function Join(parts: seq<string>, sep: string): string
  {
    if |parts| == 0 then ""
    else if |parts| == 1 then parts[0]
    else parts[0] + sep + Join(parts[1..], sep)
  }

  /** Leading zeros do not change the value of a digit string. */
  lemma {:induction false} LeadingZerosValue(z: string, s: string)
    requires forall i :: 0 <= i < |z| ==> z[i] == '0'
    requires AllDigits(s)
    ensures AllDigits(z + s) && DigitsValue(z + s) == DigitsValue(s)
  {
    if s == [] {
      assert z + s == z;
      if z != [] {
        LeadingZerosValue(z[..|z| - 1], []);
        assert z[..|z| - 1] + [] == z[..|z| - 1];
        assert (z + s)[..|z + s| - 1] == z[..|z| - 1];
      }
    } else {
      var init := s[..|s| - 1];
      LeadingZerosValue(z, init);
      assert (z + s)[..|z + s| - 1] == z + init;
    }
  }

  /**
   * `String(n).padStart(width, "0")` for a non-negative integer: all digits, at
   * least `width` of them, reading back as `n`.
   */
  function ZeroPad(n: nat, width: nat): (r: string)
    ensures AllDigits(r) && DigitsValue(r) == n
    ensures |r| >= width && |r| >= 1
    ensures width >= 1 && n < Pow10(width) ==> |r| == width
  {
    var d := NatToString(n);
    PaddedValue(d, width);
    if width >= 1 && n < Pow10(width) then
      ShortestFits(n, width);
      PadStart(d, width, '0')
    else
      PadStart(d, width, '0')
  }

  /** `String(n).padStart(width, "0")` for an integer that may be negative. */
  function PadNumber(n: int, width: nat): string {
    PadStart(IntToString(n), width, '0')
  }

  lemma PadNumberNonNegative(n: int, width: nat)
    requires n >= 0
    ensures PadNumber(n, width) == ZeroPad(n, width)
  {
  }

  lemma PaddedValue(d: string, width: nat)
    requires AllDigits(d)
    ensures AllDigits(PadStart(d, width, '0'))
    ensures DigitsValue(PadStart(d, width, '0')) == DigitsValue(d)
  {
    var r := PadStart(d, width, '0');
    var z := r[..|r| - |d|];
    assert r == z + d;
    LeadingZerosValue(z, d);
  }

  lemma ShortestFits(n: nat, width: nat)
    requires width >= 1 && n < Pow10(width)
    ensures |NatToString(n)| <= width
  {
    var d := NatToString(n);
    DigitsBound(d);
    if |d| > width {
      Pow10Monotone(width, |d| - 1);
    }
  }

  function Pow10(k: nat): (p: nat)
    ensures p >= 1
  {
    if k == 0 then 1 else 10 * Pow10(k - 1)
  }

  lemma {:induction false} Pow10Monotone(i: nat, j: nat)
    requires i <= j
    ensures Pow10(i) <= Pow10(j)
  {
    if i < j {
      Pow10Monotone(i, j - 1);
    }
  }

  /** A number below 10^k has at most k digits (its shortest decimal form). */
  lemma {:induction false} DigitsBound(d: string)
    requires |d| >= 1 && AllDigits(d) && (d[0] == '0' ==> |d| == 1)
    ensures DigitsValue(d) >= Pow10(|d| - 1) || |d| == 1
    ensures DigitsValue(d) < Pow10(|d|)
  {
    if |d| > 1 {
      var init := d[..|d| - 1];
      assert init[0] == d[0];
      DigitsBound(init);
    }
  }

  /** Joining one more part adds the separator and the part at the end. */
  lemma {:induction false} JoinAppend(parts: seq<string>, last: string, sep: string)
    requires |parts| >= 1
    ensures Join(parts + [last], sep) == Join(parts, sep) + sep + last
  {
    if |parts| > 1 {
      assert (parts + [last])[1..] == parts[1..] + [last];
      JoinAppend(parts[1..], last, sep);
    }
  }

  /** The texts `f` gives the items of `s`, in order. */
  function MapStrings<T>(f: T -> string, s: seq<T>): (r: seq<string>)
    ensures |r| == |s|
  {
    seq(|s|, i requires 0 <= i < |s| => f(s[i]))
  }

  lemma MapStringsAppend<T>(f: T -> string, s: seq<T>, x: T)
    ensures MapStrings(f, s + [x]) == MapStrings(f, s) + [f(x)]
  {
    var a, b := MapStrings(f, s + [x]), MapStrings(f, s) + [f(x)];
    assert forall i | 0 <= i < |s| :: a[i] == f(s[i]) == b[i];
  }

  /** Two maps agreeing on every item give the same texts. */
  lemma MapStringsAgree<T>(f: T -> string, g: T -> string, s: seq<T>)
    requires forall i | 0 <= i < |s| :: f(s[i]) == g(s[i])
    ensures MapStrings(f, s) == MapStrings(g, s)
  {
  }

  lemma MapStringsSingle<T>(f: T -> string, x: T)
    ensures MapStrings(f, [x]) == [f(x)]
  {
  }

  /** A non-empty sequence is its prefix followed by its last item. */
  lemma SplitLast<T>(s: seq<T>)
    requires |s| > 0
    ensures s[..|s| - 1] + [s[|s| - 1]] == s
  {
  }

}
