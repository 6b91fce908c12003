/** Position texts character by character: what is written for a number, and what a text is read as. */
module PositionTexts {
  import opened Wrappers
  import opened Decimals
  import opened Positions

  /** Reading digits one after the other. */
  lemma DigitsAreRead(s: string, c: char)
    requires AllDigits(s) && '0' <= c <= '9'
    ensures AllDigits(s + [c]) && NumberOf(s + [c]) == 10 * NumberOf(s) + (c as int - '0' as int)
    ensures NumberOf("") == 0
  {
    assert (s + [c])[..|s|] == s;
  }

  // ---------- formatting ----------

  /** A text of w digits for n, a space, m thousandths as two and three digits around a point, and a letter. */
  ghost predicate Shaped(s: string, w: nat, n: int, m: int, letter: char) {
    && |s| == w + 8
    && AllDigits(s[..w]) && NumberOf(s[..w]) == n && s[w] == ' '
    && AllDigits(s[w + 1..w + 3]) && s[w + 3] == '.' && AllDigits(s[w + 4..w + 7])
    && 1000 * NumberOf(s[w + 1..w + 3]) + NumberOf(s[w + 4..w + 7]) == m
    && s[w + 7] == letter
  }

  /** The whole degrees, the minutes rounded to thousandths, and N or E from zero up, S or W below. */
  lemma FormattedExactly(axis: Axis, x: real)
    requires -(if axis.Latitude? then 100.0 else 1000.0) < x < if axis.Latitude? then 100.0 else 1000.0
    ensures var a := if x < 0.0 then -x else x;
            Shaped(Formatted(axis, x), if axis.Latitude? then 2 else 3, a.Floor,
                   ((a - a.Floor as real) * 60.0 * 1000.0 + 0.5).Floor,
                   if axis.Latitude? then (if x < 0.0 then 'S' else 'N') else if x < 0.0 then 'W' else 'E')
  {
    InRange(axis, x);
    Thousandths(x);
    DegreesInRange(axis, Degrees(x));
    MinutesFit(x);
    TextIsShaped(axis, Degrees(x), MilliMinutes(x), x < 0.0);
    assert Formatted(axis, x) == Text(axis, Degrees(x), MilliMinutes(x), x < 0.0);
  }

  lemma InRange(axis: Axis, x: real)
    requires -(if axis.Latitude? then 100.0 else 1000.0) < x < if axis.Latitude? then 100.0 else 1000.0
    ensures Degrees(x) < axis.Scale()
  {
  }

  lemma Thousandths(x: real)
    ensures var a := if x < 0.0 then -x else x;
            Degrees(x) == a.Floor && MilliMinutes(x) == ((a - a.Floor as real) * 60.0 * 1000.0 + 0.5).Floor
  {
    assert Pow10(3) == 1000;
  }

  lemma TextIsShaped(axis: Axis, n: nat, m: nat, negative: bool)
    requires n < axis.Scale() && m < 100000
    ensures Shaped(Text(axis, n, m, negative), axis.Width(), n, m, axis.Letter(negative))
  {
    var d, whole, decimals := FixedDigits(n, axis.Width()), FixedDigits(m / 1000, 2), FixedDigits(m, 3);
    WidthFits(axis);
    NumberOfFixed(n, axis.Width());
    MinutesNumbers(m);
    PiecesAreShaped(d, whole, decimals, MinutesText(m), axis.Letter(negative));
  }

  lemma PiecesAreShaped(d: string, whole: string, decimals: string, minutes: string, letter: char)
    requires AllDigits(d) && AllDigits(whole) && AllDigits(decimals) && |whole| == 2 && |decimals| == 3
    requires minutes == whole + "." + decimals
    ensures Shaped(d + " " + minutes + [letter], |d|, NumberOf(d), 1000 * NumberOf(whole) + NumberOf(decimals), letter)
  {
    var s, w := d + " " + minutes + [letter], |d|;
    assert s[..w] == d && s[w + 1..w + 3] == whole && s[w + 4..w + 7] == decimals;
  }

  lemma MinutesNumbers(m: nat)
    requires m < 100000
    ensures 1000 * NumberOf(FixedDigits(m / 1000, 2)) + NumberOf(FixedDigits(m, 3)) == m
  {
    assert Pow10(2) == 100 && Pow10(3) == 1000;
    NumberOfFixed(m / 1000, 2);
    NumberOfRemainder(m, 3);
  }

  // ---------- parsing ----------

  /** What digits with decimals stand for. */
  ghost function Decimal(whole: string, decimals: string): real
    requires AllDigits(whole) && AllDigits(decimals)
  {
    NumberOf(whole) as real + NumberOf(decimals) as real / (Pow10(|decimals|) as real)
  }

  lemma ParseIntOfDigits(s: string)
    requires AllDigits(s) && s != ""
    ensures ParseInt(s) == Some(NumberOf(s))
  {
    DigitStarts(s);
    DigitIsPlain(s);
    DigitRunAll(s, "");
    assert s + "" == s && s[..|s|] == s;
  }

  lemma ParseFloatOfDecimal(whole: string, decimals: string)
    requires AllDigits(whole) && AllDigits(decimals) && whole != ""
    ensures ParseFloat(whole + "." + decimals) == Some((Decimal(whole, decimals), ""))
  {
    var s := whole + "." + decimals;
    DecimalWithPoint(s, whole, decimals, Decimal(whole, decimals));
    assert s[0] == whole[0] && s[|s|..] == "";
    ParsePlain(s, Decimal(whole, decimals), |s|);
  }

  /** The hemisphere that a letter stands for; None for any other character. */
  ghost function South(axis: Axis, letter: char): Option<bool> {
    if axis.Latitude? then
      if letter == 'S' || letter == 's' || letter == '\U{017F}' then Some(true)
      else if letter == 'N' || letter == 'n' then Some(false)
      else None
    else
      if letter == 'W' || letter == 'w' then Some(true)
      else if letter == 'E' || letter == 'e' then Some(false)
      else None
  }

  /** Degrees and minutes of a hemisphere: negative in the south and west. */
  ghost function Reading(axis: Axis, letter: char, degrees: int, minutes: real): Parsed {
    match South(axis, letter)
    case Some(south) => Number(if south then -(degrees as real + minutes / 60.0) else degrees as real + minutes / 60.0)
    case None => FormatException
  }

  /**
   * Whole degrees, a space, minutes with decimals and a letter, however many digits there are: degrees and minutes of
   * the letter's hemisphere, and an exception if it stands for none.
   */
  lemma ShapedTextParses(axis: Axis, text: string, d: string, whole: string, decimals: string, letter: char)
    requires AllDigits(d) && d != "" && AllDigits(whole) && whole != "" && AllDigits(decimals) && !IsSpace(letter)
    requires text == d + " " + (whole + "." + decimals) + [letter]
    ensures Parse(axis, text) == Reading(axis, letter, NumberOf(d), Decimal(whole, decimals))
  {
    PartsRead(d, whole, decimals, whole + "." + decimals);
    WordsParse(axis, text, d, whole + "." + decimals, letter, NumberOf(d), Decimal(whole, decimals));
  }

  /** Both words of a position text, and what they are read as. */
  lemma PartsRead(d: string, whole: string, decimals: string, m: string)
    requires AllDigits(d) && d != "" && AllDigits(whole) && whole != "" && AllDigits(decimals)
    requires m == whole + "." + decimals
    ensures ' ' !in d && !IsSpace(d[0]) && m != "" && ' ' !in m && !IsSpace(m[|m| - 1])
    ensures ParseInt(d) == Some(NumberOf(d)) && ParseFloat(m) == Some((Decimal(whole, decimals), ""))
  {
    DigitIsPlain(d);
    DecimalIsOneWord(whole, decimals);
    ParseIntOfDigits(d);
    ParseFloatOfDecimal(whole, decimals);
  }

  lemma WordsParse(axis: Axis, text: string, d: string, m: string, letter: char, h: int, x: real)
    requires text == d + " " + m + [letter]
    requires d != "" && m != "" && ' ' !in d && ' ' !in m && !IsSpace(d[0]) && !IsSpace(m[|m| - 1]) && !IsSpace(letter)
    requires ParseInt(d) == Some(h) && ParseFloat(m) == Some((x, ""))
    ensures Parse(axis, text) == Reading(axis, letter, h, x)
  {
    SplitWords(d, m, letter);
    ParseUsesParts(axis, text);
    HemisphereParses(axis, d, m, letter, h, x);
  }

  lemma DecimalIsOneWord(whole: string, decimals: string)
    requires AllDigits(whole) && whole != "" && AllDigits(decimals)
    ensures var m := whole + "." + decimals;
            ' ' !in m && !IsSpace(m[|m| - 1])
  {
    DigitIsPlain(whole);
    DigitIsPlain(decimals);
    var m := whole + "." + decimals;
    assert m[|m| - 1] == if decimals == "" then '.' else decimals[|decimals| - 1];
  }

  lemma HemisphereParses(axis: Axis, hours: string, minutes: string, letter: char, h: int, m: real)
    requires ParseInt(hours) == Some(h) && ParseFloat(minutes) == Some((m, "")) && !IsSpace(letter)
    ensures ParseParts(axis, hours, minutes, [letter]) == Reading(axis, letter, h, m)
  {
    TrimNothing([letter]);
  }

  /** Digits, with or without a point and more digits. */
  function Unsigned(whole: string, decimals: string, point: bool): string {
    if point then whole + "." + decimals else whole
  }

  function Signed(minus: bool, s: string): string {
    if minus then "-" + s else s
  }

  /** A plain number, with a minus sign or without one: the number itself, whatever the axis. */
  lemma PlainNumberParses(axis: Axis, text: string, whole: string, decimals: string, minus: bool, point: bool)
    requires AllDigits(whole) && AllDigits(decimals) && whole != "" && (decimals != "" ==> point)
    requires text == Signed(minus, Unsigned(whole, decimals, point))
    ensures Parse(axis, text) == Number(if minus then -Decimal(whole, decimals) else Decimal(whole, decimals))
  {
    SignedRead(text, whole, decimals, minus, point, Decimal(whole, decimals));
    OneWordParses(axis, text, if minus then -Decimal(whole, decimals) else Decimal(whole, decimals));
  }

  lemma SignedRead(text: string, whole: string, decimals: string, minus: bool, point: bool, x: real)
    requires AllDigits(whole) && AllDigits(decimals) && whole != "" && (decimals != "" ==> point)
    requires x == Decimal(whole, decimals) && text == Signed(minus, Unsigned(whole, decimals, point))
    ensures text != "" && ' ' !in text && !IsSpace(text[0]) && !IsSpace(text[|text| - 1])
            && ParseFloat(text) == Some((if minus then -x else x, ""))
  {
    UnsignedPlain(whole, decimals, point);
    PlainIsOneWord(whole, decimals, minus, point);
    SignedPlain(Unsigned(whole, decimals, point), minus, x);
  }

  lemma OneWordParses(axis: Axis, text: string, x: real)
    requires text != "" && ' ' !in text && !IsSpace(text[0]) && !IsSpace(text[|text| - 1])
    requires ParseFloat(text) == Some((x, ""))
    ensures Parse(axis, text) == Number(x)
  {
    TrimNothing(text);
    assert Trim("") == "";
  }

  lemma UnsignedPlain(whole: string, decimals: string, point: bool)
    requires AllDigits(whole) && AllDigits(decimals) && whole != "" && (decimals != "" ==> point)
    ensures var s := Unsigned(whole, decimals, point);
            UnsignedDecimal(s) == Some((Decimal(whole, decimals), |s|)) && s[0] == whole[0]
  {
    if point {
      DecimalWithPoint(whole + "." + decimals, whole, decimals, Decimal(whole, decimals));
    } else {
      assert whole + "" == whole && whole[..|whole|] == whole && whole[|whole|..] == "";
      DigitRunAll(whole, "");
    }
  }

  lemma PlainIsOneWord(whole: string, decimals: string, minus: bool, point: bool)
    requires AllDigits(whole) && AllDigits(decimals) && whole != "" && (decimals != "" ==> point)
    ensures var text := Signed(minus, Unsigned(whole, decimals, point));
            text != "" && ' ' !in text && !IsSpace(text[0]) && !IsSpace(text[|text| - 1])
  {
    DigitIsPlain(whole);
    DigitIsPlain(decimals);
  }

  lemma SignedPlain(s: string, minus: bool, x: real)
    requires s != "" && IsDigit(s[0]) && UnsignedDecimal(s) == Some((x, |s|))
    ensures ParseFloat(Signed(minus, s)) == Some((if minus then -x else x, ""))
  {
    assert s[|s|..] == "";
    if minus {
      MinusParses(s, x);
    } else {
      ParsePlain(s, x, |s|);
    }
  }

  lemma MinusParses(s: string, x: real)
    requires UnsignedDecimal(s) == Some((x, |s|))
    ensures ParseFloat("-" + s) == Some((-x, ""))
  {
    var text := "-" + s;
    MinusStarts(s);
    assert text[1 + |s|..] == "";
  }

  lemma MinusStarts(s: string)
    ensures TrimLeft("-" + s) == "-" + s && SignLength("-" + s) == 1 && ("-" + s)[1..] == s
  {
  }

  // ---------- other texts ----------

  /** Digits with a sign, and digits times a power of ten. */
  ghost function SignedNumber(sign: string, digits: string): int
    requires AllDigits(digits)
  {
    if sign == "-" then 0 - NumberOf(digits) else NumberOf(digits)
  }

  ghost function Scaled(whole: string, n: int): real
    requires AllDigits(whole)
  {
    NumberOf(whole) as real * PowerOfTen(n)
  }

  /** A number with an exponent: tail is its letter, sign and digits. */
  lemma ExponentParses(axis: Axis, text: string, whole: string, tail: string, e: char, sign: string, digits: string)
    requires AllDigits(whole) && whole != "" && AllDigits(digits) && digits != "" && (e == 'e' || e == 'E')
    requires sign == "" || sign == "+" || sign == "-"
    requires tail == [e] + (sign + digits) && text == whole + tail
    ensures Parse(axis, text) == Number(Scaled(whole, SignedNumber(sign, digits)))
  {
    ExponentIsRead(tail, e, sign, digits, sign + digits);
    ExponentIsOneWord(text, whole, tail, e, sign, digits);
    FloatWithExponent(text, whole, tail, SignedNumber(sign, digits));
    OneWordParses(axis, text, Scaled(whole, SignedNumber(sign, digits)));
  }

  lemma FloatWithExponent(text: string, whole: string, tail: string, n: int)
    requires AllDigits(whole) && whole != "" && tail != "" && (tail[0] == 'e' || tail[0] == 'E')
    requires text == whole + tail && Exponent(tail) == (n, |tail|)
    ensures ParseFloat(text) == Some((Scaled(whole, n), ""))
  {
    UnsignedWithExponent(text, whole, tail, n);
    ParsePlain(text, Scaled(whole, n), |text|);
    assert text[|text|..] == "";
  }

  lemma ExponentIsRead(tail: string, e: char, sign: string, digits: string, rest: string)
    requires AllDigits(digits) && digits != "" && (e == 'e' || e == 'E') && (sign == "" || sign == "+" || sign == "-")
    requires rest == sign + digits && tail == [e] + rest
    ensures Exponent(tail) == (SignedNumber(sign, digits), |tail|)
  {
    SignIsRead(sign, digits, rest);
    DigitRunAll(digits, "");
    assert digits + "" == digits && digits[..|digits|] == digits;
    assert tail[1..] == rest && tail[1 + |sign|..] == digits;
  }

  lemma SignIsRead(sign: string, digits: string, rest: string)
    requires AllDigits(digits) && digits != "" && (sign == "" || sign == "+" || sign == "-") && rest == sign + digits
    ensures SignLength(rest) == |sign| && rest[|sign|..] == digits && (rest[0] == '-' <==> sign == "-")
  {
    assert rest[0] == if sign == "" then digits[0] else sign[0];
  }

  lemma UnsignedWithExponent(text: string, whole: string, tail: string, n: int)
    requires AllDigits(whole) && whole != "" && tail != "" && (tail[0] == 'e' || tail[0] == 'E')
    requires text == whole + tail && Exponent(tail) == (n, |tail|)
    ensures UnsignedDecimal(text) == Some((Scaled(whole, n), |text|))
  {
    DigitRunAll(whole, tail);
    assert text[..|whole|] == whole && text[|whole|..] == tail;
    WholeValue(whole, n);
  }

  lemma WholeValue(whole: string, n: int)
    requires AllDigits(whole)
    ensures DecimalValue(whole, "", n) == Scaled(whole, n)
  {
    assert Pow10(0) == 1 && NumberOf("") == 0;
  }

  lemma ExponentIsOneWord(text: string, whole: string, tail: string, e: char, sign: string, digits: string)
    requires AllDigits(whole) && whole != "" && AllDigits(digits) && digits != "" && (e == 'e' || e == 'E')
    requires sign == "" || sign == "+" || sign == "-"
    requires tail == [e] + (sign + digits) && text == whole + tail
    ensures ' ' !in text && IsDigit(text[0]) && !IsSpace(text[0]) && !IsSpace(text[|text| - 1])
  {
    DigitIsPlain(whole);
    DigitIsPlain(digits);
    assert text[|text| - 1] == digits[|digits| - 1];
  }

  /** One more place. */
  lemma TenTimes(n: int)
    ensures PowerOfTen(0) == 1.0 && PowerOfTen(n + 1) == 10.0 * PowerOfTen(n)
  {
  }

  /** A hexadecimal zero, which the comparison of the parsed number with the text accepts. */
  lemma HexZeroParses(axis: Axis, text: string, x: char, zeros: string)
    requires (x == 'x' || x == 'X') && zeros != "" && (forall i :: 0 <= i < |zeros| ==> zeros[i] == '0')
    requires text == "0" + ([x] + zeros)
    ensures Parse(axis, text) == Number(0.0)
  {
    ZeroIsRead(text, [x] + zeros);
    HexZeroIsOneWord(text, x, zeros);
    TrimNothing(text);
  }

  /** Of such a text parseFloat takes the zero in front. */
  lemma ZeroIsRead(text: string, tail: string)
    requires tail != "" && (tail[0] == 'x' || tail[0] == 'X') && text == "0" + tail
    ensures ParseFloat(text) == Some((0.0, tail))
  {
    DigitRunAll("0", tail);
    assert text[..1] == "0" && text[1..] == tail;
    assert NumberOf("0") == 0;
    WholeValue("0", 0);
    assert UnsignedDecimal(text) == Some((0.0, 1));
    ParsePlain(text, 0.0, 1);
  }

  lemma HexZeroIsOneWord(text: string, x: char, zeros: string)
    requires (x == 'x' || x == 'X') && zeros != "" && (forall i :: 0 <= i < |zeros| ==> zeros[i] == '0')
    requires text == "0" + ([x] + zeros)
    ensures ' ' !in text && !IsSpace(text[0]) && !IsSpace(text[|text| - 1]) && IsHexZero(text)
  {
    assert text[1] == x && forall i :: 2 <= i < |text| ==> text[i] == zeros[i - 2];
  }

  /** Without a blank inside and not a number: an exception. */
  lemma OneWordIsRejected(axis: Axis, text: string)
    requires text != "" && ' ' !in text && !IsSpace(text[0]) && !IsSpace(text[|text| - 1])
    requires ParseFloat(text).None?
    ensures Parse(axis, text) == FormatException
  {
    var body := text[..|text| - 1];
    OneWordSplits(body);
  }

  lemma OneWordSplits(body: string)
    requires ' ' !in body
    ensures |Split(Trim(body), ' ')| == 1
  {
    TrimKeeps(body, ' ');
  }

  lemma TrimKeeps(s: string, c: char)
    requires c !in s
    ensures c !in Trim(s)
  {
    TrimLeftKeeps(s, c);
    TrimRightKeeps(TrimLeft(s), c);
  }

  lemma {:induction false} TrimLeftKeeps(s: string, c: char)
    requires c !in s
    ensures c !in TrimLeft(s)
  {
    if s != "" && IsSpace(s[0]) {
      TrimLeftKeeps(s[1..], c);
    }
  }

  lemma {:induction false} TrimRightKeeps(s: string, c: char)
    requires c !in s
    ensures c !in TrimRight(s)
  {
    if s != "" && IsSpace(s[|s| - 1]) {
      TrimRightKeeps(s[..|s| - 1], c);
    }
  }

  /** Three words before the letter: an exception. */
  lemma ThreeWordsAreRejected(axis: Axis, text: string, a: string, b: string, c: string, letter: char)
    requires a != "" && c != "" && ' ' !in a && ' ' !in b && ' ' !in c && !IsSpace(letter)
    requires !IsSpace(a[0]) && !IsSpace(c[|c| - 1]) && text == a + " " + (b + " " + c) + [letter]
    ensures Parse(axis, text) == FormatException
  {
    var body := a + " " + (b + " " + c);
    assert text[..|text| - 1] == body && text[|text| - 1..] == [letter];
    assert body[0] == a[0] && body[|body| - 1] == c[|c| - 1];
    TrimNothing(body);
    TrimNothing(text);
    assert text[|a|] == ' ';
    SplitThree(a, b, c);
  }

  lemma SplitThree(a: string, b: string, c: string)
    requires ' ' !in a && ' ' !in b && ' ' !in c
    ensures Split(a + " " + (b + " " + c), ' ') == [a, b, c]
  {
    var s := a + [' '] + (b + " " + c);
    IndexFollows(a, ' ', b + " " + c);
    assert s[..|a|] == a && s[|a| + 1..] == b + " " + c;
    SplitTwo(b, c, ' ');
  }

  /** Two words of which one is no number, and a proper letter: not a number. */
  lemma WordsThatAreNoNumbers(axis: Axis, text: string, d: string, m: string, letter: char)
    requires text == d + " " + m + [letter] && South(axis, letter).Some?
    requires d != "" && m != "" && ' ' !in d && ' ' !in m && !IsSpace(d[0]) && !IsSpace(m[|m| - 1])
    requires ParseInt(d).None? || ParseFloat(m).None?
    ensures Parse(axis, text) == NotANumber
  {
    SplitWords(d, m, letter);
    ParseUsesParts(axis, text);
    TrimNothing([letter]);
  }

  /** What parseInt and parseFloat do not take for a number: a text that starts with no digit, sign, point or space. */
  lemma NoNumber(s: string)
    requires s == "" || (!IsDigit(s[0]) && s[0] != '-' && s[0] != '+' && s[0] != '.' && !IsSpace(s[0]))
    ensures ParseInt(s).None? && ParseFloat(s).None?
  {
    assert TrimLeft(s) == s && SignLength(s) == 0 && s[0..] == s;
    assert DigitRun(s) == 0 && Fraction(s) == "";
  }
}
