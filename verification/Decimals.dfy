/**
 * Numbers as text, the way the scripting language writes and reads them: toFixed (section 15.7.4.5 of ECMA-262
 * edition 5.1), parseInt with radix 10, parseFloat, and trim. Numbers are exact.
 */
module Decimals {
  import opened Wrappers

  function Pow10(k: nat): (p: nat)
    ensures p > 0
  {
    if k == 0 then 1 else 10 * Pow10(k - 1)
  }

  predicate IsDigit(c: char) {
    '0' <= c <= '9'
  }

  function Digit(d: nat): (c: char)
    requires d < 10
    ensures IsDigit(c)
  {
    ['0', '1', '2', '3', '4', '5', '6', '7', '8', '9'][d]
  }

  function Value(c: char): nat
    requires IsDigit(c)
  {
    c as int - '0' as int
  }

  ghost predicate AllDigits(s: string) {
    forall i :: 0 <= i < |s| ==> IsDigit(s[i])
  }

  /** The number a string of digits stands for. */
  function NumberOf(s: string): nat
    requires AllDigits(s)
  {
    if s == "" then 0 else 10 * NumberOf(s[..|s| - 1]) + Value(s[|s| - 1])
  }

  /** Decimal digits without leading zeros. */
  function Digits(n: nat): (s: string)
    ensures |s| > 0
  {
    if n < 10 then [Digit(n)] else Digits(n / 10) + [Digit(n % 10)]
  }

  /** The last w decimal digits, zeros included. */
  function FixedDigits(n: nat, w: nat): (s: string)
    ensures |s| == w && AllDigits(s)
  {
    if w == 0 then "" else FixedDigits(n / 10, w - 1) + [Digit(n % 10)]
  }

  function Zeros(k: nat): (s: string)
    ensures |s| == k
  {
    if k == 0 then "" else Zeros(k - 1) + "0"
  }

  function PadTo(s: string, k: nat): (t: string)
    ensures |t| == if |s| < k then k else |s|
  {
    if |s| < k then Zeros(k - |s|) + s else s
  }

  /** The integer n for which n / 10^f - x is closest to zero, the larger one of two. */
  function Nearest(x: real, f: nat): int {
    (x * (Pow10(f) as real) + 0.5).Floor
  }

  /** toFixed for a number from zero up to 10^21. */
  function ToFixed(x: real, f: nat): (s: string)
    requires x >= 0.0 && f > 0
    ensures |s| >= f + 2 && s[|s| - f - 1] == '.'
  {
    var m := PadTo(Digits(Nearest(x, f)), f + 1);
    m[..|m| - f] + "." + m[|m| - f..]
  }

  predicate IsSpace(c: char) {
    || '\t' <= c <= '\r' || c == ' ' || c == '\U{00A0}' || c == '\U{FEFF}' || c == '\U{2028}' || c == '\U{2029}'
    || c == '\U{1680}' || '\U{2000}' <= c <= '\U{200A}' || c == '\U{202F}' || c == '\U{205F}' || c == '\U{3000}'
  }

  function TrimLeft(s: string): string {
    if s != "" && IsSpace(s[0]) then TrimLeft(s[1..]) else s
  }

  function TrimRight(s: string): string {
    if s != "" && IsSpace(s[|s| - 1]) then TrimRight(s[..|s| - 1]) else s
  }

  function Trim(s: string): string {
    TrimRight(TrimLeft(s))
  }

  /** The index of the first occurrence of a character, or -1. */
  function IndexOf(s: string, c: char): (i: int)
    ensures -1 <= i < |s|
    ensures i == -1 ==> c !in s
    ensures i >= 0 ==> s[i] == c && c !in s[..i]
  {
    if s == "" then -1
    else if s[0] == c then 0
    else
      var i := IndexOf(s[1..], c);
      assert i >= 0 ==> s[..i + 1] == [s[0]] + s[1..][..i];
      if i == -1 then -1 else i + 1
  }

  function Split(s: string, c: char): (parts: seq<string>)
    ensures |parts| > 0
  {
    var i := IndexOf(s, c);
    if i == -1 then [s] else [s[..i]] + Split(s[i + 1..], c)
  }

  /** The length of the longest prefix of digits. */
  function DigitRun(s: string): (n: nat)
    ensures n <= |s| && AllDigits(s[..n]) && (n < |s| ==> !IsDigit(s[n]))
  {
    if s == "" || !IsDigit(s[0]) then 0
    else
      var n := DigitRun(s[1..]);
      assert s[..n + 1] == [s[0]] + s[1..][..n];
      n + 1
  }

  function SignLength(s: string): (n: nat)
    ensures n <= |s|
  {
    if s != "" && (s[0] == '-' || s[0] == '+') then 1 else 0
  }

  /** parseInt(s, 10), None for NaN. */
  function ParseInt(s: string): Option<int> {
    var t := TrimLeft(s);
    var rest := t[SignLength(t)..];
    var n := DigitRun(rest);
    if n == 0 then None
    else
      var value: int := NumberOf(rest[..n]);
      Some(if t[0] == '-' then -value else value)
  }

  function PowerOfTen(e: int): real
    decreases if e < 0 then -e else e
  {
    if e == 0 then 1.0 else if e > 0 then 10.0 * PowerOfTen(e - 1) else PowerOfTen(e + 1) / 10.0
  }

  /** The exponent part at the front of s, and how much of s it takes up. */
  function Exponent(s: string): (r: (int, nat))
    ensures r.1 <= |s|
  {
    if s == "" || (s[0] != 'e' && s[0] != 'E') then (0, 0)
    else
      var sign := SignLength(s[1..]);
      var n := DigitRun(s[1 + sign..]);
      if n == 0 then (0, 0)
      else
        var e: int := NumberOf(s[1 + sign..][..n]);
        (if s[1] == '-' then -e else e, 1 + sign + n)
  }

  function DecimalValue(whole: string, fraction: string, exponent: int): real
    requires AllDigits(whole) && AllDigits(fraction)
  {
    (NumberOf(whole) as real + NumberOf(fraction) as real / (Pow10(|fraction|) as real)) * PowerOfTen(exponent)
  }

  /** The digits after the point, if s goes on with a point. */
  function Fraction(s: string): (f: string)
    ensures AllDigits(f) && |f| < if s == "" then 1 else |s|
  {
    if s != "" && s[0] == '.' then s[1..][..DigitRun(s[1..])] else ""
  }

  /** The longest prefix of s that is an unsigned decimal number: its value and length; None when there is none. */
  function UnsignedDecimal(s: string): (r: Option<(real, nat)>)
    ensures r.Some? ==> 0 < r.value.1 <= |s|
  {
    var n := DigitRun(s);
    var fraction := Fraction(s[n..]);
    if n == 0 && fraction == "" then None
    else
      var end := if n < |s| && s[n] == '.' then n + 1 + |fraction| else n;
      var e := Exponent(s[end..]);
      Some((DecimalValue(s[..n], fraction, e.0), end + e.1))
  }

  /** parseFloat with what follows the number in the trimmed text, None for NaN. */
  function ParseFloat(s: string): Option<(real, string)> {
    var t := TrimLeft(s);
    var sign := SignLength(t);
    var r := UnsignedDecimal(t[sign..]);
    if r.None? then None
    else Some((if t != "" && t[0] == '-' then -r.value.0 else r.value.0, t[sign + r.value.1..]))
  }

  // ---------- properties ----------

  /** toFixed is off by at most half a unit of its last place. */
  lemma NearestIsNear(x: real, f: nat)
    ensures var scaled := x * (Pow10(f) as real);
            -0.5 < Nearest(x, f) as real - scaled <= 0.5
  {
  }

  lemma {:induction false} NumberOfFixed(n: nat, w: nat)
    requires n < Pow10(w)
    ensures NumberOf(FixedDigits(n, w)) == n
  {
    if w > 0 {
      NumberOfFixed(n / 10, w - 1);
      var front := FixedDigits(n / 10, w - 1);
      assert (front + [Digit(n % 10)])[..w - 1] == front;
    }
  }

  lemma PadOneMore(n: nat, k: nat)
    requires k >= 1
    ensures PadTo(Digits(n), k + 1) == PadTo(Digits(n / 10), k) + [Digit(n % 10)]
  {
    if n < 10 {
      assert Digits(n) == [Digit(n)] && Digits(n / 10) == "0" && n % 10 == n;
      assert Zeros(k) == Zeros(k - 1) + "0";
    } else {
      assert Digits(n) == Digits(n / 10) + [Digit(n % 10)];
      PadSnoc(Digits(n / 10), Digit(n % 10), k);
    }
  }

  lemma PadSnoc(s: string, c: char, k: nat)
    ensures PadTo(s + [c], k + 1) == PadTo(s, k) + [c]
  {
    if |s| < k {
      assert Zeros(k - |s|) + (s + [c]) == Zeros(k - |s|) + s + [c];
    }
  }

  lemma TwoPlaces(n: nat)
    ensures PadTo(Digits(n), 3) == Digits(n / 100) + FixedDigits(n, 2)
  {
    PadOneMore(n, 2);
    PadOneMore(n / 10, 1);
    assert n / 10 / 10 == n / 100;
  }

  lemma ThreePlaces(n: nat)
    ensures PadTo(Digits(n), 4) == Digits(n / 1000) + FixedDigits(n, 3)
  {
    PadOneMore(n, 3);
    TwoPlaces(n / 10);
    assert FixedDigits(n, 3) == FixedDigits(n / 10, 2) + [Digit(n % 10)];
    assert n / 10 / 100 == n / 1000;
  }

  /** What toFixed writes: the integer part without leading zeros, a point and two or three decimals. */
  lemma ToFixedShape(x: real, f: nat)
    requires x >= 0.0 && 2 <= f <= 3
    ensures Nearest(x, f) >= 0
    ensures ToFixed(x, f) == Digits(Nearest(x, f) / if f == 2 then 100 else 1000) + "." + FixedDigits(Nearest(x, f), f)
  {
    var n := Nearest(x, f);
    if f == 2 {
      TwoPlaces(n);
    } else {
      ThreePlaces(n);
    }
  }
}
