/** Latitudes and longitudes as degrees and minutes. The source's two sides differ in the constants of the axis only. */
module Positions {
  import opened Wrappers
  import opened Decimals

  datatype Axis = Latitude | Longitude {
    /** The number of digits for whole degrees. */
    function Width(): nat {
      if Latitude? then 2 else 3
    }

    /** One more than the largest whole number of degrees that fits. */
    function Scale(): nat {
      if Latitude? then 100 else 1000
    }

    function Letter(negative: bool): char {
      if Latitude? then (if negative then 'S' else 'N') else if negative then 'W' else 'E'
    }
  }

  datatype Parsed = Number(value: real) | NotANumber | FormatException

  // ---------- formatting ----------

  function Abs(x: real): real {
    if x < 0.0 then -x else x
  }

  function Degrees(x: real): nat {
    Abs(x).Floor
  }

  /** The minutes in thousandths, rounded as toFixed(3) rounds them: up to and including 60.000. */
  function MilliMinutes(x: real): nat {
    Nearest((Abs(x) - Degrees(x) as real) * 60.0, 3)
  }

  /** A position text: fixed-width degrees, minutes with two and three digits, and a hemisphere letter. */
  function Text(axis: Axis, degrees: nat, milliMinutes: nat, negative: bool): string {
    FixedDigits(degrees, axis.Width()) + " " + MinutesText(milliMinutes) + [axis.Letter(negative)]
  }

  function MinutesText(milliMinutes: nat): string {
    FixedDigits(milliMinutes / 1000, 2) + "." + FixedDigits(milliMinutes, 3)
  }

  /** What the degrees are divided by, so that toFixed prints them as decimals of fixed width. */
  function Quotient(axis: Axis, degrees: nat): (q: real)
    ensures q >= 0.0
  {
    if axis.Latitude? then degrees as real / 100.0 else degrees as real / 1000.0
  }

  /** The degrees as they are printed: what follows the first two characters of the quotient's text. */
  function DegreesText(axis: Axis, degrees: nat): string {
    (Digits(degrees / axis.Scale()) + "." + FixedDigits(degrees, axis.Width()))[2..]
  }

  /** formatLatitude and formatLongitude. */
  method Format(axis: Axis, x: real) returns (s: string)
    ensures s == Formatted(axis, x)
    ensures Degrees(x) < axis.Scale() ==> s == Text(axis, Degrees(x), MilliMinutes(x), x < 0.0)
  {
    var negative, rest := false, x;
    if rest < 0.0 {
      negative := true;
      rest := rest * -1.0;
    }
    var hours := rest.Floor;
    rest := (rest - hours as real) * 60.0;
    assert hours == Degrees(x) && Nearest(rest, 3) == MilliMinutes(x);
    var minutes := FormatMinutes(rest);
    var degrees := ToFixed(Quotient(axis, hours), axis.Width());
    DegreesShape(axis, hours);
    s := degrees[2..] + " " + minutes + [axis.Letter(negative)];
    if hours < axis.Scale() {
      DegreesInRange(axis, hours);
    }
  }

  /** The zero-padding loop: it adds at most one zero. */
  method FormatMinutes(minutes: real) returns (str: string)
    requires 0.0 <= minutes < 60.0
    ensures str == MinutesText(Nearest(minutes, 3))
  {
    str := ToFixed(minutes, 3);
    ghost var n := Nearest(minutes, 3);
    assert Pow10(3) == 1000;
    ToFixedShape(minutes, 3);
    OneZeroPads(n);
    ghost var unpadded := str;
    while IndexOf(str, '.') < 2
      invariant str == unpadded || str == MinutesText(n)
      decreases 2 - IndexOf(str, '.')
    {
      str := "0" + str;
    }
  }

  /** Minutes below 100 have their point at the third character, if need be after one zero is put in front. */
  lemma OneZeroPads(n: nat)
    requires n < 100000
    ensures IndexOf(MinutesText(n), '.') == 2
    ensures var unpadded := Digits(n / 1000) + "." + FixedDigits(n, 3);
            if IndexOf(unpadded, '.') < 2 then IndexOf(unpadded, '.') == 1 && "0" + unpadded == MinutesText(n)
            else unpadded == MinutesText(n)
  {
    var whole, decimals := Digits(n / 1000), FixedDigits(n, 3);
    TwoDigits(n / 1000);
    IndexFollows(whole, '.', decimals);
    DigitIsPlain(FixedDigits(n / 1000, 2));
    IndexFollows(FixedDigits(n / 1000, 2), '.', decimals);
    assert "0" + (whole + "." + decimals) == "0" + whole + "." + decimals;
  }

  /** Rounding may carry the minutes up to 60.000, and no further. */
  lemma MinutesFit(x: real)
    ensures MilliMinutes(x) <= 60000
  {
    assert Pow10(3) == 1000;
  }

  /** A number below 100 has one or two digits; with a zero in front of a single digit these are its fixed digits. */
  lemma TwoDigits(k: nat)
    requires k < 100
    ensures |Digits(k)| <= 2 && '.' !in Digits(k)
    ensures FixedDigits(k, 2) == if |Digits(k)| == 1 then "0" + Digits(k) else Digits(k)
  {
    assert FixedDigits(k, 2) == FixedDigits(k / 10, 1) + [Digit(k % 10)];
    assert FixedDigits(k / 10, 1) == [Digit(k / 10)];
    if k < 10 {
      assert Digits(k) == [Digit(k)] && Digit(k / 10) == '0';
    } else {
      assert Digits(k / 10) == [Digit(k / 10)];
    }
  }

  lemma {:induction false} IndexFollows(front: string, c: char, back: string)
    requires c !in front
    ensures IndexOf(front + [c] + back, c) == |front|
  {
    if front != "" {
      IndexFollows(front[1..], c, back);
      assert (front + [c] + back)[1..] == front[1..] + [c] + back;
    }
  }

  lemma NearestOfQuotient(axis: Axis, degrees: nat)
    ensures Nearest(Quotient(axis, degrees), axis.Width()) == degrees
  {
    assert Pow10(2) == 100 && Pow10(3) == 1000;
  }

  lemma DegreesShape(axis: Axis, degrees: nat)
    ensures ToFixed(Quotient(axis, degrees), axis.Width())[2..] == DegreesText(axis, degrees)
  {
    NearestOfQuotient(axis, degrees);
    ToFixedShape(Quotient(axis, degrees), axis.Width());
  }

  lemma DegreesInRange(axis: Axis, degrees: nat)
    requires degrees < axis.Scale()
    ensures DegreesText(axis, degrees) == FixedDigits(degrees, axis.Width())
  {
    assert Digits(0) == "0";
  }

  // ---------- parsing ----------

  /** The text is a hexadecimal zero, which parseFloat reads as zero as well. */
  predicate IsHexZero(t: string) {
    |t| >= 3 && t[0] == '0' && (t[1] == 'x' || t[1] == 'X') && forall i :: 2 <= i < |t| ==> t[i] == '0'
  }

  /** The hours, minutes and hemisphere of a formatted position; None where the source throws. */
  function SplitFormattedPos(posStr: string): Option<(string, string, string)> {
    var n := if posStr == "" then 0 else |posStr| - 1;
    var posParts := Split(Trim(posStr[..n]), ' ');
    if |posParts| != 2 then None else Some((posParts[0], posParts[1], posStr[n..]))
  }

  /** Upper case, as far as it yields a hemisphere letter: also the long s becomes an S. */
  function ToUpper(c: char): char {
    if 'a' <= c <= 'z' then (c as int - 'a' as int + 'A' as int) as char
    else if c == '\U{017F}' then 'S'
    else c
  }

  /** parseLat and parseLon. */
  function ParseParts(axis: Axis, hours: string, minutes: string, hemisphere: string): Parsed {
    var h, m, letter := ParseInt(hours), ParseFloat(minutes), Trim(hemisphere);
    if |letter| != 1 || (ToUpper(letter[0]) != axis.Letter(false) && ToUpper(letter[0]) != axis.Letter(true)) then
      FormatException
    else if h.None? || m.None? then NotANumber
    else
      var value := h.value as real + m.value.0 / 60.0;
      Number(if ToUpper(letter[0]) == axis.Letter(true) then -value else value)
  }

  /** parseLatitude and parseLongitude. */
  function Parse(axis: Axis, value: string): Parsed {
    var parsed := ParseFloat(value);
    if IndexOf(Trim(value), ' ') < 0 && parsed.Some? && (Trim(parsed.value.1) == "" || IsHexZero(Trim(value))) then
      Number(parsed.value.0)
    else
      var parts := SplitFormattedPos(value);
      if parts.None? then FormatException
      else ParseParts(axis, parts.value.0, parts.value.1, parts.value.2)
  }

  lemma TrimNothing(s: string)
    requires s != "" && !IsSpace(s[0]) && !IsSpace(s[|s| - 1])
    ensures TrimLeft(s) == Trim(s) == s
  {
  }

  lemma SplitTwo(a: string, b: string, c: char)
    requires c !in a && c !in b
    ensures Split(a + [c] + b, c) == [a, b]
  {
    IndexFollows(a, c, b);
    var s := a + [c] + b;
    assert s[..|a|] == a && s[|a| + 1..] == b;
  }

  lemma {:induction false} DigitRunAll(a: string, b: string)
    requires AllDigits(a) && (b != "" ==> !IsDigit(b[0]))
    ensures DigitRun(a + b) == |a|
  {
    if a != "" {
      DigitRunAll(a[1..], b);
      assert (a + b)[1..] == a[1..] + b;
    }
  }

  /** A digit is neither a sign nor a space nor a point. */
  lemma DigitIsPlain(s: string)
    requires AllDigits(s)
    ensures ' ' !in s && '.' !in s && SignLength(s) == 0
    ensures s != "" ==> !IsSpace(s[0]) && !IsSpace(s[|s| - 1])
  {
  }

  lemma ParseIntOfFixed(n: nat, w: nat)
    requires 0 < w && n < Pow10(w)
    ensures ParseInt(FixedDigits(n, w)) == Some(n)
  {
    var s := FixedDigits(n, w);
    DigitIsPlain(s);
    DigitRunAll(s, "");
    assert s + "" == s && s[..w] == s && TrimLeft(s) == s && s[0..] == s;
    assert s[0] != '-' && s[0] != '+';
    NumberOfFixed(n, w);
  }

  lemma NumberOfStep(n: nat, w: nat)
    ensures NumberOf(FixedDigits(n, w + 1)) == 10 * NumberOf(FixedDigits(n / 10, w)) + n % 10
  {
    var front := FixedDigits(n / 10, w);
    assert (front + [Digit(n % 10)])[..w] == front;
  }

  /** The last digit of a remainder, and what stands before it. */
  lemma RemainderStep(n: nat, power: nat)
    requires power > 0
    ensures 10 * (n / 10 % power) + n % 10 == n % (10 * power)
  {
    var q, r := n / 10 / power, n / 10 % power;
    assert n / 10 == power * q + r;
    assert n == 10 * (power * q + r) + n % 10;
    assert 10 * (power * q + r) == (10 * power) * q + 10 * r;
    RemainderIsUnique(n, 10 * power, q, 10 * r + n % 10);
  }

  lemma RemainderIsUnique(n: nat, d: nat, q: nat, r: nat)
    requires n == d * q + r && r < d
    ensures n % d == r
  {
    var k: int := n / d - q;
    assert r - n % d == d * k;
    assert k >= 1 ==> d * k >= d;
    assert k <= -1 ==> d * k + d <= 0;
  }

  /** Fixed digits stand for the number's remainder. */
  lemma {:induction false} NumberOfRemainder(n: nat, w: nat)
    ensures NumberOf(FixedDigits(n, w)) == n % Pow10(w)
  {
    if w > 0 {
      NumberOfStep(n, w - 1);
      NumberOfRemainder(n / 10, w - 1);
      RemainderStep(n, Pow10(w - 1));
    }
  }

  /** A number with a point, and nothing after it. */
  lemma DecimalWithPoint(s: string, whole: string, decimals: string, x: real)
    requires AllDigits(whole) && AllDigits(decimals) && whole != "" && s == whole + "." + decimals
    requires x == DecimalValue(whole, decimals, 0)
    ensures UnsignedDecimal(s) == Some((x, |s|))
  {
    var n := |whole|;
    assert s == whole + ("." + decimals);
    DigitRunAll(whole, "." + decimals);
    assert s[..n] == whole && s[n..] == "." + decimals && s[|s|..] == "";
    FractionAll(decimals);
  }

  lemma FractionAll(decimals: string)
    requires AllDigits(decimals)
    ensures Fraction("." + decimals) == decimals
  {
    DigitRunAll(decimals, "");
    assert ("." + decimals)[1..] == decimals && decimals + "" == decimals;
  }

  lemma MinutesValue(n: nat)
    requires n < 100000
    ensures DecimalValue(FixedDigits(n / 1000, 2), FixedDigits(n, 3), 0) == n as real / 1000.0
  {
    assert Pow10(2) == 100 && Pow10(3) == 1000;
    NumberOfFixed(n / 1000, 2);
    NumberOfRemainder(n, 3);
    assert n == 1000 * (n / 1000) + n % 1000;
  }

  /** parseFloat of a text that starts with a digit. */
  lemma ParsePlain(s: string, x: real, n: nat)
    requires s != "" && IsDigit(s[0]) && UnsignedDecimal(s) == Some((x, n))
    ensures ParseFloat(s) == Some((x, s[n..]))
  {
    DigitStarts(s);
  }

  lemma DigitStarts(s: string)
    requires s != "" && IsDigit(s[0])
    ensures TrimLeft(s) == s && SignLength(s) == 0 && s[0] != '-' && s[SignLength(s)..] == s
  {
  }

  lemma MinutesTextDecimal(n: nat)
    requires n < 100000
    ensures UnsignedDecimal(MinutesText(n)) == Some((n as real / 1000.0, 6))
  {
    MinutesValue(n);
    DecimalWithPoint(MinutesText(n), FixedDigits(n / 1000, 2), FixedDigits(n, 3), n as real / 1000.0);
  }

  lemma MinutesTextShape(n: nat)
    ensures |MinutesText(n)| == 6 && IsDigit(MinutesText(n)[0])
  {
    assert MinutesText(n)[0] == FixedDigits(n / 1000, 2)[0];
  }

  /** parseFloat reads the minutes text exactly, and to its end. */
  lemma ParseMinutes(n: nat)
    requires n < 100000
    ensures ParseFloat(MinutesText(n)) == Some((n as real / 1000.0, ""))
  {
    MinutesTextShape(n);
    MinutesTextDecimal(n);
    ParsePlain(MinutesText(n), n as real / 1000.0, 6);
  }

  /** Two words of plain characters, one space between them and a letter at the end, split into three parts. */
  lemma SplitWords(d: string, m: string, letter: char)
    requires d != "" && m != "" && ' ' !in d && ' ' !in m && !IsSpace(d[0]) && !IsSpace(m[|m| - 1]) && !IsSpace(letter)
    ensures var text := d + " " + m + [letter];
            IndexOf(Trim(text), ' ') >= 0 && SplitFormattedPos(text) == Some((d, m, [letter]))
  {
    var body := d + " " + m;
    var text := body + [letter];
    assert text[..|text| - 1] == body && text[|text| - 1..] == [letter];
    assert body[0] == d[0] && body[|body| - 1] == m[|m| - 1];
    TrimNothing(body);
    TrimNothing(text);
    assert text[|d|] == ' ';
    SplitTwo(d, m, ' ');
  }

  /** A position text splits into its three parts. */
  lemma SplitText(axis: Axis, degrees: nat, milliMinutes: nat, negative: bool)
    ensures var text := Text(axis, degrees, milliMinutes, negative);
            && IndexOf(Trim(text), ' ') >= 0
            && SplitFormattedPos(text) == Some((FixedDigits(degrees, axis.Width()), MinutesText(milliMinutes),
                                                [axis.Letter(negative)]))
  {
    var d, m := FixedDigits(degrees, axis.Width()), MinutesText(milliMinutes);
    DigitIsPlain(d);
    MinutesArePlain(milliMinutes);
    SplitWords(d, m, axis.Letter(negative));
  }

  lemma MinutesArePlain(milliMinutes: nat)
    ensures var m := MinutesText(milliMinutes);
            |m| == 6 && ' ' !in m && !IsSpace(m[|m| - 1])
  {
    var whole, decimals := FixedDigits(milliMinutes / 1000, 2), FixedDigits(milliMinutes, 3);
    DigitIsPlain(whole);
    DigitIsPlain(decimals);
    assert MinutesText(milliMinutes)[5] == decimals[2];
  }

  /** The number a position text stands for. */
  function Meaning(degrees: nat, milliMinutes: nat, negative: bool): real {
    var value := degrees as real + milliMinutes as real / 1000.0 / 60.0;
    if negative then -value else value
  }

  lemma LetterIsKnown(axis: Axis, negative: bool)
    ensures Trim([axis.Letter(negative)]) == [axis.Letter(negative)]
    ensures ToUpper(axis.Letter(negative)) == axis.Letter(negative)
    ensures axis.Letter(true) != axis.Letter(false)
  {
    TrimNothing([axis.Letter(negative)]);
  }

  lemma ParsePartsOf(axis: Axis, hours: string, minutes: string, negative: bool, h: int, m: real, rest: string)
    requires ParseInt(hours) == Some(h) && ParseFloat(minutes) == Some((m, rest))
    ensures ParseParts(axis, hours, minutes, [axis.Letter(negative)])
            == Number(if negative then -(h as real + m / 60.0) else h as real + m / 60.0)
  {
    LetterIsKnown(axis, negative);
  }

  lemma ParseUsesParts(axis: Axis, value: string)
    requires IndexOf(Trim(value), ' ') >= 0 && SplitFormattedPos(value).Some?
    ensures var parts := SplitFormattedPos(value).value;
            Parse(axis, value) == ParseParts(axis, parts.0, parts.1, parts.2)
  {
  }

  lemma ParseTextParts(axis: Axis, degrees: nat, milliMinutes: nat, negative: bool)
    ensures Parse(axis, Text(axis, degrees, milliMinutes, negative))
            == ParseParts(axis, FixedDigits(degrees, axis.Width()), MinutesText(milliMinutes), [axis.Letter(negative)])
  {
    SplitText(axis, degrees, milliMinutes, negative);
    ParseUsesParts(axis, Text(axis, degrees, milliMinutes, negative));
  }

  lemma PartsMeaning(axis: Axis, degrees: nat, milliMinutes: nat, negative: bool)
    requires degrees < axis.Scale() && milliMinutes < 100000
    ensures ParseParts(axis, FixedDigits(degrees, axis.Width()), MinutesText(milliMinutes), [axis.Letter(negative)])
            == Number(Meaning(degrees, milliMinutes, negative))
  {
    WidthFits(axis);
    ParseIntOfFixed(degrees, axis.Width());
    ParseMinutes(milliMinutes);
    ParsePartsOf(axis, FixedDigits(degrees, axis.Width()), MinutesText(milliMinutes), negative,
                 degrees, milliMinutes as real / 1000.0, "");
  }

  /** Parsing a position text, minutes of 60.000 and more included, gives the number it stands for. */
  lemma ParseText(axis: Axis, degrees: nat, milliMinutes: nat, negative: bool)
    requires degrees < axis.Scale() && milliMinutes < 100000
    ensures Parse(axis, Text(axis, degrees, milliMinutes, negative)) == Number(Meaning(degrees, milliMinutes, negative))
  {
    ParseTextParts(axis, degrees, milliMinutes, negative);
    PartsMeaning(axis, degrees, milliMinutes, negative);
  }

  lemma WidthFits(axis: Axis)
    ensures Pow10(axis.Width()) == axis.Scale() && axis.Width() > 0
  {
    assert Pow10(2) == 100 && Pow10(3) == 1000;
  }

  /** Formatting and parsing again comes back within 1/120000 of a degree, also when the minutes round up to 60.000. */
  method FormatThenParse(axis: Axis, x: real) returns (text: string)
    requires Abs(x) < axis.Scale() as real
    ensures Parse(axis, text).Number?
    ensures Abs(Parse(axis, text).value - x) <= 1.0 / 120000.0
  {
    text := Format(axis, x);
    MinutesFit(x);
    ParseText(axis, Degrees(x), MilliMinutes(x), x < 0.0);
    RoundingIsSmall(x);
  }

  lemma RoundingIsSmall(x: real)
    ensures Abs(Meaning(Degrees(x), MilliMinutes(x), x < 0.0) - x) <= 1.0 / 120000.0
  {
    var minutes := (Abs(x) - Degrees(x) as real) * 60.0;
    assert Pow10(3) == 1000;
    NearestIsNear(minutes, 3);
    var n := MilliMinutes(x);
    assert -0.5 < n as real - minutes * 1000.0 <= 0.5;
    assert Abs(x) == Degrees(x) as real + minutes / 60.0;
  }

  /** The text that a number formats to. */
  function Formatted(axis: Axis, x: real): string {
    DegreesText(axis, Degrees(x)) + " " + MinutesText(MilliMinutes(x)) + [axis.Letter(x < 0.0)]
  }

  /**
   * A canonical text, with minutes below 60, is formatted again to itself after parsing, with one family of exceptions:
   * southern or western zero, whose hemisphere letter is lost.
   */
  lemma ParseThenFormat(axis: Axis, degrees: nat, milliMinutes: nat, negative: bool)
    requires degrees < axis.Scale() && milliMinutes < 60000
    ensures var text := Text(axis, degrees, milliMinutes, negative);
            && Parse(axis, text).Number?
            && (Formatted(axis, Parse(axis, text).value) == text <==> !(negative && degrees == 0 && milliMinutes == 0))
  {
    ParseText(axis, degrees, milliMinutes, negative);
    MeaningIsExact(degrees, milliMinutes, negative);
    DegreesInRange(axis, degrees);
    var x := Meaning(degrees, milliMinutes, negative);
    var text := Text(axis, degrees, milliMinutes, negative);
    assert Formatted(axis, x) == Text(axis, degrees, milliMinutes, x < 0.0);
    assert text[|text| - 1] == axis.Letter(negative);
    assert Formatted(axis, x)[|text| - 1] == axis.Letter(x < 0.0);
  }

  lemma MeaningIsExact(degrees: nat, milliMinutes: nat, negative: bool)
    requires milliMinutes < 60000
    ensures var x := Meaning(degrees, milliMinutes, negative);
            && Degrees(x) == degrees && MilliMinutes(x) == milliMinutes
            && (x < 0.0 <==> negative && (degrees > 0 || milliMinutes > 0))
  {
    var x := Meaning(degrees, milliMinutes, negative);
    assert Pow10(3) == 1000;
    assert Abs(x) == degrees as real + milliMinutes as real / 60000.0;
    assert 0.0 <= milliMinutes as real / 60000.0 < 1.0;
    assert (Abs(x) - degrees as real) * 60.0 * 1000.0 == milliMinutes as real;
  }
}
