/** pkg/utils/strings.go: durations as text, in seconds with up to two decimals or in milliseconds. */
module DurationText {
  import opened Common
  import opened Decimal

  const MILLISECOND := 1_000_000
  const HUNDREDTH := 10 * MILLISECOND

  /** strings.TrimRight with a one-character set. */
  function TrimRight(s: string, c: char): string {
    if s != "" && s[|s| - 1] == c then TrimRight(s[..|s| - 1], c) else s
  }

  /** `%.2f` of a number of seconds that rounds to h hundredths. */
  function TwoDecimals(h: nat): string {
    Text(h / 100) + "." + [DigitOf(h / 10 % 10), DigitOf(h % 10)]
  }

  /** DurationSeconds of a duration that rounds to h hundredths of a second. */
  function SecondsText(h: nat): string {
    TrimRight(TrimRight(TwoDecimals(h), '0'), '.') + "s"
  }

  /** h is a nearest number of hundredths; which one is taken for a tie is left open. */
  predicate Rounded(d: nat, h: nat) {
    -HUNDREDTH <= 2 * (h * HUNDREDTH - d) <= HUNDREDTH
  }

  // ---- Reading back, as time.ParseDuration does

  /** The digits of a fraction, as a number of nanoseconds. */
  function FractionNanos(digits: string, unit: nat): nat
    requires AllDigits(digits)
    decreases |digits|
  {
    if digits == "" then 0 else DigitValue(digits[0]) * (unit / 10) + FractionNanos(digits[1..], unit / 10)
  }

  /** Digits, optionally a point and more digits, and "s". None if the text has another shape. */
  function ReadSeconds(s: string): Option<int> {
    if s == "" || s[|s| - 1] != 's' then None
    else
      var body := s[..|s| - 1];
      var whole := DigitPrefix(body);
      var rest := body[|whole|..];
      if whole == "" then None
      else if rest == "" then Some(Value(whole) * 1_000_000_000)
      else if rest[0] == '.' && AllDigits(rest[1..]) then
        Some(Value(whole) * 1_000_000_000 + FractionNanos(rest[1..], 1_000_000_000))
      else None
  }

  lemma {:induction false} DigitPrefixOf(digits: string, rest: string)
    requires AllDigits(digits) && (rest == "" || !IsDigit(rest[0]))
    ensures DigitPrefix(digits + rest) == digits
  {
    if digits == "" {
      assert digits + rest == rest;
    } else {
      assert (digits + rest)[1..] == digits[1..] + rest;
      assert forall i :: 0 <= i < |digits[1..]| ==> digits[1..][i] == digits[i + 1];
      DigitPrefixOf(digits[1..], rest);
      assert digits == [digits[0]] + digits[1..];
    }
  }

  lemma TrimStep(s: string, c: char, t: char)
    ensures TrimRight(s + [t], c) == if t == c then TrimRight(s, c) else s + [t]
  {
    assert (s + [t])[..|s + [t]| - 1] == s;
  }

  /** Trimming never gets past the point: the digits before it stay as they are. */
  lemma SecondsTextIs(h: nat)
    ensures var whole, a, b := Text(h / 100), DigitOf(h / 10 % 10), DigitOf(h % 10);
            SecondsText(h) == whole + (if b != '0' then "." + [a, b] else if a != '0' then "." + [a] else "") + "s"
  {
    var whole, a, b := Text(h / 100), DigitOf(h / 10 % 10), DigitOf(h % 10);
    assert TwoDecimals(h) == whole + "." + [a] + [b];
    TrimStep(whole + "." + [a], '0', b);
    TrimStep(whole + ".", '0', a);
    TrimStep(whole, '0', '.');
    TrimStep(whole + "." + [a], '.', b);
    TrimStep(whole + ".", '.', a);
    TrimStep(whole, '.', '.');
    assert whole + ['.'] == whole + ".";
    var last := whole[|whole| - 1];
    assert IsDigit(last);
    assert TrimRight(whole, '.') == whole;
    assert whole + "." + [a] == whole + ("." + [a]);
    assert whole + "." + [a] + [b] == whole + ("." + [a, b]);
    assert whole + "" == whole;
  }

  lemma LastOff(body: string, c: char)
    ensures var s := body + [c]; s != "" && s[|s| - 1] == c && s[..|s| - 1] == body
  {
  }

  lemma ReadWhole(body: string, whole: string)
    requires whole != "" && AllDigits(whole) && whole == DigitPrefix(body) && body[|whole|..] == ""
    ensures ReadSeconds(body + "s") == Some(Value(whole) * 1_000_000_000)
  {
    LastOff(body, 's');
  }

  lemma ReadPointed(body: string, whole: string, fraction: string)
    requires whole != "" && AllDigits(whole) && AllDigits(fraction) && whole == DigitPrefix(body)
    requires body[|whole|..] == ['.'] + fraction
    ensures ReadSeconds(body + "s") == Some(Value(whole) * 1_000_000_000 + FractionNanos(fraction, 1_000_000_000))
  {
    LastOff(body, 's');
    assert body[|whole|..][1..] == fraction;
  }

  lemma ReadText(whole: string, fraction: string)
    requires whole != "" && AllDigits(whole) && AllDigits(fraction)
    ensures ReadSeconds(whole + (if fraction == "" then "" else "." + fraction) + "s")
            == Some(Value(whole) * 1_000_000_000 + FractionNanos(fraction, 1_000_000_000))
  {
    var rest := if fraction == "" then "" else "." + fraction;
    DigitPrefixOf(whole, rest);
    assert (whole + rest)[|whole|..] == rest;
    if fraction == "" {
      ReadWhole(whole + rest, whole);
    } else {
      ReadPointed(whole + rest, whole, fraction);
    }
  }

  lemma FractionOf(a: char, b: char)
    requires IsDigit(a) && IsDigit(b)
    ensures FractionNanos("", 1_000_000_000) == 0
    ensures FractionNanos([a], 1_000_000_000) == DigitValue(a) * 100_000_000
    ensures FractionNanos([a, b], 1_000_000_000) == DigitValue(a) * 100_000_000 + DigitValue(b) * 10_000_000
  {
    assert [a][1..] == "";
    assert [a, b][1..] == [b];
    assert [b][1..] == "";
    assert FractionNanos([b], 100_000_000) == DigitValue(b) * 10_000_000 + FractionNanos("", 10_000_000);
  }

  lemma Digits(h: nat)
    ensures h == h / 100 * 100 + (h / 10 % 10) * 10 + h % 10
  {
    assert h / 100 == h / 10 / 10;
  }

  /** The printed text reads back as exactly the rounded hundredths. */
  lemma SecondsRoundTrip(h: nat)
    ensures ReadSeconds(SecondsText(h)) == Some(h * HUNDREDTH)
  {
    var whole, a, b := Text(h / 100), DigitOf(h / 10 % 10), DigitOf(h % 10);
    SecondsTextIs(h);
    ValueOfText(h / 100);
    FractionOf(a, b);
    Digits(h);
    ReadText(whole, if b != '0' then [a, b] else if a != '0' then [a] else "");
  }

  lemma Nearest(d: nat, h: nat)
    requires Rounded(d, h)
    ensures -5 * MILLISECOND <= h * HUNDREDTH - d <= 5 * MILLISECOND
    ensures d % HUNDREDTH == 0 ==> h == d / HUNDREDTH
  {
  }

  /** So the text of a duration is within 5 ms of it, and exact for a multiple of 10 ms. */
  lemma SecondsWithinFiveMillis(d: nat, h: nat)
    requires Rounded(d, h)
    ensures ReadSeconds(SecondsText(h)).Some?
    ensures -5 * MILLISECOND <= ReadSeconds(SecondsText(h)).value - d <= 5 * MILLISECOND
    ensures d % HUNDREDTH == 0 ==> ReadSeconds(SecondsText(h)).value == d
  {
    SecondsRoundTrip(h);
    Nearest(d, h);
  }

  /** DurationMillSeconds: the duration in milliseconds, cut toward zero. */
  function MillisText(d: int): string {
    (if d > -MILLISECOND then Text(if d < 0 then 0 else d / MILLISECOND) else "-" + Text((-d) / MILLISECOND)) + "ms"
  }

  /** Digits and "ms". */
  function ReadUnsigned(s: string): Option<nat> {
    var digits := DigitPrefix(s);
    if digits == "" || s[|digits|..] != "ms" then None else Some(Value(digits) * MILLISECOND)
  }

  /** With an optional minus sign; None for any other text. */
  function ReadMillis(s: string): Option<int> {
    if s != "" && s[0] == '-' then
      match ReadUnsigned(s[1..])
      case None => None
      case Some(n) => Some(0 - n)
    else
      match ReadUnsigned(s)
      case None => None
      case Some(n) => Some(n)
  }

  lemma ReadUnsignedText(t: string)
    requires t != "" && AllDigits(t)
    ensures ReadUnsigned(t + "ms") == Some(Value(t) * MILLISECOND)
  {
    DigitPrefixOf(t, "ms");
    assert (t + "ms")[|t|..] == "ms";
  }

  lemma ReadSigned(u: string, n: nat)
    requires u != "" && u[0] != '-' && ReadUnsigned(u) == Some(n)
    ensures ReadMillis(u) == Some(n) && ReadMillis("-" + u) == Some(0 - n)
  {
    assert ("-" + u)[1..] == u;
  }

  lemma Glued(a: string, b: string, c: string)
    ensures a + b + c == a + (b + c)
  {
  }

  lemma ReadMillisText(n: nat)
    ensures ReadMillis(Text(n) + "ms") == Some(n * MILLISECOND)
    ensures ReadMillis("-" + Text(n) + "ms") == Some(0 - n * MILLISECOND)
  {
    var t := Text(n);
    ValueOfText(n);
    ReadUnsignedText(t);
    assert (t + "ms")[0] != '-' by {
      assert IsDigit(t[0]);
    }
    ReadSigned(t + "ms", n * MILLISECOND);
    Glued("-", t, "ms");
  }

  /** Milliseconds lose less than one millisecond, and never lengthen the duration. */
  lemma MillisLoseLessThanOne(d: int)
    ensures ReadMillis(MillisText(d)).Some?
    ensures var back := ReadMillis(MillisText(d)).value;
            if d >= 0 then 0 <= d - back < MILLISECOND else 0 <= back - d < MILLISECOND
  {
    ReadMillisText(if d > -MILLISECOND then (if d < 0 then 0 else d / MILLISECOND) else (-d) / MILLISECOND);
  }
}
