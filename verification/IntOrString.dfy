/** pkg/types/intstr/intstr.go: values that are an integer or a string, kept as text; and the sampling of
    pkg/utils/kubernetes.go that they control. */
module IntOrString {
  import opened Decimal
  import opened Common

  const MIN_INT64 := -0x8000_0000_0000_0000
  const MAX_INT64 := 0x7fff_ffff_ffff_ffff

  /** strconv.ParseInt in base 10: an optional sign and digits only. */
  function ParseInt(s: string, min: int, max: int): Option<int> {
    var digits := if s != "" && s[0] in {'+', '-'} then s[1..] else s;
    if digits == "" || !AllDigits(digits) then None
    else
      var value: int := if s[0] == '-' then -(Value(digits) as int) else Value(digits);
      if min <= value <= max then Some(value) else None
  }

  function IntText(v: int): string {
    if v < 0 then "-" + Text(-v) else Text(v)
  }

  lemma ParseDigits(t: string, min: int, max: int)
    requires t != "" && AllDigits(t)
    ensures ParseInt(t, min, max) == if min <= Value(t) <= max then Some(Value(t)) else None
    ensures ParseInt("-" + t, min, max) == if min <= 0 - Value(t) <= max then Some(0 - Value(t)) else None
    ensures '%' !in t
  {
    assert IsDigit(t[0]);
    assert ("-" + t)[1..] == t;
  }

  lemma ParseText(v: int, min: int, max: int)
    ensures ParseInt(IntText(v), min, max) == if min <= v <= max then Some(v) else None
  {
    var n := if v < 0 then -v else v;
    ValueOfText(n);
    ParseDigits(Text(n), min, max);
  }

  /** Type: Atoi reads a 64-bit int. */
  predicate IsInt(s: string) { ParseInt(s, MIN_INT64, MAX_INT64).Some? }

  /** Int32 panics, here None, on anything but an int32. */
  function Int32(s: string): Option<int> { ParseInt(s, MIN_INT32, MAX_INT32) }

  function FromInt32(v: int): string { IntText(v) }

  /** strings.Cut at the first '%'; None if there is none. */
  function CutPercent(s: string): Option<(string, string)> {
    if s == "" then None
    else if s[0] == '%' then Some(("", s[1..]))
    else match CutPercent(s[1..])
      case None => None
      case Some((prefix, suffix)) => Some(([s[0]] + prefix, suffix))
  }

  datatype Percentage = Percent(value: int) | NotAPercentage | Panic

  function AsPercentage(s: string): Percentage {
    if IsInt(s) then NotAPercentage
    else match CutPercent(s)
      case None => NotAPercentage
      case Some((prefix, suffix)) =>
        if suffix != "" || !IsInt(prefix) then NotAPercentage
        else match Int32(prefix)
          case Some(v) => Percent(v)
          case None => Panic
  }

  lemma {:induction false} CutIs(s: string)
    ensures match CutPercent(s)
            case None => '%' !in s
            case Some((prefix, suffix)) => '%' !in prefix && s == prefix + "%" + suffix
  {
    if s != "" && s[0] != '%' {
      CutIs(s[1..]);
      assert s == [s[0]] + s[1..];
    } else if s != "" {
      assert s == "" + "%" + s[1..];
    }
  }

  lemma {:induction false} CutOf(prefix: string, suffix: string)
    requires '%' !in prefix
    ensures CutPercent(prefix + "%" + suffix) == Some((prefix, suffix))
  {
    var s := prefix + "%" + suffix;
    if prefix == "" {
      assert s[1..] == suffix;
    } else {
      assert s[0] == prefix[0] && prefix[0] in prefix;
      assert s[1..] == prefix[1..] + "%" + suffix;
      CutOf(prefix[1..], suffix);
      assert prefix == [prefix[0]] + prefix[1..];
    }
  }

  lemma DigitsOnly(s: string, min: int, max: int)
    requires ParseInt(s, min, max).Some?
    ensures '%' !in s
  {
    var digits := if s[0] in {'+', '-'} then s[1..] else s;
    forall i | 0 <= i < |s| ensures s[i] != '%' {
      if s[0] !in {'+', '-'} {
        assert digits[i] == s[i];
      } else if i > 0 {
        assert digits[i - 1] == s[i];
      }
    }
  }

  /** Every int32 is read back from its text. */
  lemma FromInt32RoundTrip(v: int)
    requires MIN_INT32 <= v <= MAX_INT32
    ensures IsInt(FromInt32(v)) && Int32(FromInt32(v)) == Some(v)
  {
    ParseText(v, MIN_INT32, MAX_INT32);
    ParseText(v, MIN_INT64, MAX_INT64);
  }

  /** And followed by a percent sign it is that percentage. */
  lemma PercentageRoundTrip(v: int)
    requires MIN_INT32 <= v <= MAX_INT32
    ensures AsPercentage(FromInt32(v) + "%") == Percent(v)
  {
    FromInt32RoundTrip(v);
    AsPercentageExactly(FromInt32(v) + "%", FromInt32(v));
    DigitsOnly(FromInt32(v), MIN_INT32, MAX_INT32);
  }

  /** A percentage is a percent sign after an int, and nothing else; reading one panics exactly when the int
      does not fit 32 bits. */
  lemma AsPercentageExactly(s: string, prefix: string)
    ensures s == prefix + "%" && IsInt(prefix) ==>
              AsPercentage(s) == match Int32(prefix) case Some(v) => Percent(v) case None => Panic
    ensures AsPercentage(s) != NotAPercentage ==> s != "" && s[|s| - 1] == '%' && IsInt(s[..|s| - 1])
  {
    CutIs(s);
    if IsInt(s) {
      DigitsOnly(s, MIN_INT64, MAX_INT64);
    }
    if s == prefix + "%" && IsInt(prefix) {
      DigitsOnly(prefix, MIN_INT64, MAX_INT64);
      CutOf(prefix, "");
      assert prefix + "%" + "" == prefix + "%";
      assert '%' in s;
    }
    if AsPercentage(s) != NotAPercentage {
      var (cut, suffix) := CutPercent(s).value;
      assert s == cut + "%";
      assert s[..|s| - 1] == cut;
    }
  }

  // ---- Sample

  datatype Sampled<T> = Pods(pods: seq<T>) | Refused | SamplePanic

  /** math.Round of n/100, for which halves go away from zero. */
  function RoundHundredths(n: int): int {
    if n >= 0 then (2 * n + 100) / 200 else -((-2 * n + 100) / 200)
  }

  function Max(a: int, b: int): int { if a > b then a else b }

  function Prefix<T>(pods: seq<T>, size: int): Sampled<T> {
    if size > |pods| then Refused else if size < 0 then SamplePanic else Pods(pods[..size])
  }

  function Sample<T>(pods: seq<T>, count: string): Sampled<T> {
    if IsInt(count) then
      (match Int32(count)
       case Some(n) => Prefix(pods, n)
       case None => SamplePanic)
    else
      match AsPercentage(count)
      case NotAPercentage => Refused
      case Panic => SamplePanic
      case Percent(p) => if p == 0 then Pods([]) else Prefix(pods, Max(1, RoundHundredths(|pods| * p)))
  }

  /** The size for a percentage of n pods. */
  function PercentSize(n: nat, p: int): int { Max(1, RoundHundredths(n * p)) }

  lemma SizeBounds(n: nat, p: nat)
    requires n > 0 && 1 <= p <= 100
    ensures 1 <= PercentSize(n, p) <= n
    ensures PercentSize(n, p) > 1 ==> -100 <= 2 * (100 * PercentSize(n, p) - n * p) <= 100
    ensures PercentSize(n, p) == 1 ==> 2 * n * p < 300
  {
    assert n * p <= n * 100;
    assert n * p > 0;
  }

  lemma SizeMonotone(n: nat, p: nat, q: nat)
    requires p <= q
    ensures PercentSize(n, p) <= PercentSize(n, q)
  {
    assert n * p <= n * q;
  }

  /** For 1 to 100 percent of a non-empty list, Sample gives a prefix of at least one pod, within half a pod of the
      exact share unless the minimum of one applies, and no fewer pods for a higher percentage. */
  lemma SamplePercentage<T>(pods: seq<T>, p: nat, q: nat)
    requires pods != [] && 1 <= p <= q <= 100
    ensures var n := PercentSize(|pods|, p);
            && 1 <= n <= |pods|
            && Sample(pods, FromInt32(p) + "%") == Pods(pods[..n])
            && (n > 1 ==> -100 <= 2 * (100 * n - |pods| * p) <= 100)
            && (n == 1 ==> 2 * |pods| * p < 300)
            && n <= PercentSize(|pods|, q)
  {
    SizeBounds(|pods|, p);
    SizeMonotone(|pods|, p, q);
    PercentageRoundTrip(p);
    PercentageIsNoInt(p);
  }

  lemma PercentageIsNoInt(p: int)
    ensures !IsInt(FromInt32(p) + "%")
  {
    var s := FromInt32(p) + "%";
    assert s[|s| - 1] == '%';
    if IsInt(s) {
      DigitsOnly(s, MIN_INT64, MAX_INT64);
    }
  }

  /** The exact share of n pods, rounded up. */
  function RoundedUp(n: nat, p: nat): nat { (n * p + 99) / 100 }

  lemma SizeIsRoundedUpIff(n: nat, p: nat)
    requires n > 0 && 1 <= p <= 100
    ensures PercentSize(n, p) == RoundedUp(n, p) <==> n * p < 100 || n * p % 100 == 0 || n * p % 100 >= 50
    ensures RoundedUp(n, p) <= n
  {
    assert 0 < n * p <= n * 100;
  }

  /** The comment on Sample has the number rounded up. It is rounded to the nearest, so for 1 to 100 percent of a
      non-empty list that is what one gets exactly if the share is below one pod, a whole number of pods, or at least
      half a pod past one. */
  lemma SampleRoundsUpIff<T>(pods: seq<T>, p: nat)
    requires pods != [] && 1 <= p <= 100
    ensures var n := |pods|;
            && RoundedUp(n, p) <= n
            && (Sample(pods, FromInt32(p) + "%") == Pods(pods[..RoundedUp(n, p)])
                <==> n * p < 100 || n * p % 100 == 0 || n * p % 100 >= 50)
  {
    SamplePercentage(pods, p, p);
    SizeIsRoundedUpIff(|pods|, p);
    var size, up := PercentSize(|pods|, p), RoundedUp(|pods|, p);
    assert |pods[..size]| == size && |pods[..up]| == up;
  }

  /** A quarter of five pods is one pod, not two. */
  lemma SampleRoundsDown<T>(pods: seq<T>)
    requires |pods| == 5
    ensures Sample(pods, FromInt32(25) + "%") == Pods(pods[..1]) != Pods(pods[..RoundedUp(5, 25)])
  {
    SamplePercentage(pods, 25, 25);
    SampleRoundsUpIff(pods, 25);
  }

  lemma OtherSize(n: nat, p: int)
    ensures n == 0 || p < 0 ==> PercentSize(n, p) == 1
    ensures n > 0 && p > 100 ==> if n * (p - 100) < 50 then PercentSize(n, p) == n else PercentSize(n, p) > n
  {
    var size, more := n * p, n * (p - 100);
    assert more == size - n * 100;
    if p <= 0 {
      assert size <= 0;
    } else if p > 100 {
      assert more >= 0;
    }
  }

  /** The other percentages: zero takes nothing; a negative one counts as the minimum of one pod; of an empty list
      nothing but zero percent can be taken; more than 100 percent is refused unless it rounds to the whole list. */
  lemma SampleOtherPercentage<T>(pods: seq<T>, p: int)
    requires MIN_INT32 <= p <= MAX_INT32 && (p <= 0 || p > 100 || pods == [])
    ensures Sample(pods, FromInt32(p) + "%") ==
            if p == 0 then Pods([])
            else if pods == [] then Refused
            else if p < 0 then Pods(pods[..1])
            else if |pods| * (p - 100) < 50 then Pods(pods)
            else Refused
  {
    PercentageRoundTrip(p);
    PercentageIsNoInt(p);
    OtherSize(|pods|, p);
    assert pods[..|pods|] == pods;
  }

  /** A number takes that many pods and is refused if there are fewer; but it panics if it is negative, and also if it
      is too large for 32 bits, unless it is too large for 64 bits as well, when it is no number any more. */
  lemma SampleNumber<T>(pods: seq<T>, n: int)
    ensures Sample(pods, IntText(n)) ==
            if !(MIN_INT64 <= n <= MAX_INT64) then Refused
            else if n < 0 || n > MAX_INT32 then SamplePanic
            else if n > |pods| then Refused
            else Pods(pods[..n])
  {
    ParseText(n, MIN_INT64, MAX_INT64);
    ParseText(n, MIN_INT32, MAX_INT32);
    if !(MIN_INT64 <= n <= MAX_INT64) {
      var digits := Text(if n < 0 then -n else n);
      ParseDigits(digits, MIN_INT64, MAX_INT64);
      CutIs(IntText(n));
    }
  }

  /** A count that Sample panics on, for any list: an int that is negative or no int32, or such an int that is no int32
      before a percent sign. */
  predicate Panics(count: string) {
    || (IsInt(count) && (Int32(count).None? || Int32(count).value < 0))
    || (&& count != "" && count[|count| - 1] == '%'
        && IsInt(count[..|count| - 1]) && Int32(count[..|count| - 1]).None?)
  }

  /** Over every text of a count, which reaches Sample as the user gave it. */
  lemma SamplePanicsIff<T>(pods: seq<T>, count: string)
    ensures Sample(pods, count) == SamplePanic <==> Panics(count)
  {
    var prefix := if count != "" then count[..|count| - 1] else "";
    AsPercentageExactly(count, prefix);
    if IsInt(count) {
      DigitsOnly(count, MIN_INT64, MAX_INT64);
      assert count != "" ==> count[|count| - 1] in count;
    } else if count != "" && count[|count| - 1] == '%' {
      assert count == prefix + "%";
    }
  }

  /** The text of an int is digits, at least one, behind at most one sign. */
  lemma IntsAreDigits(s: string)
    requires IsInt(s)
    ensures s != "" && IsDigit(s[|s| - 1])
    ensures forall i :: 1 <= i < |s| ==> IsDigit(s[i])
    ensures IsDigit(s[0]) || (s[0] in {'+', '-'} && |s| > 1)
  {
    var digits := if s != "" && s[0] in {'+', '-'} then s[1..] else s;
    assert digits != "" && AllDigits(digits);
    if s[0] in {'+', '-'} {
      forall i | 1 <= i < |s| ensures IsDigit(s[i]) {
        assert s[i] == digits[i - 1];
      }
    }
  }

  /** A text that is neither an int nor one followed by a percent sign is refused. */
  lemma SampleRefusesOtherText<T>(pods: seq<T>, count: string)
    requires !IsInt(count) && !(count != "" && count[|count| - 1] == '%' && IsInt(count[..|count| - 1]))
    ensures Sample(pods, count) == Refused
  {
    AsPercentageExactly(count, "");
  }

  /** A leading plus sign and leading zeros are read as well. */
  lemma ReadsSignAndZeros(n: nat)
    requires n <= MAX_INT32
    ensures Int32("+" + Text(n)) == Int32("0" + Text(n)) == Some(n)
  {
    ValueOfText(n);
    assert ("+" + Text(n))[1..] == Text(n);
    LeadingZero(Text(n));
    assert AllDigits("0" + Text(n)) && ("0" + Text(n))[0] == '0';
  }

  lemma {:induction false} LeadingZero(digits: string)
    requires AllDigits(digits)
    ensures AllDigits("0" + digits) && Value("0" + digits) == Value(digits)
    decreases |digits|
  {
    if digits == "" {
      assert ("0" + digits)[..0] == "";
    } else {
      LeadingZero(digits[..|digits| - 1]);
      assert ("0" + digits)[..|digits|] == "0" + digits[..|digits| - 1];
    }
  }

  /** Three billion is not negative, yet it panics instead of being refused. */
  lemma LargeNumberPanics<T>(pods: seq<T>)
    ensures Panics(IntText(3_000_000_000)) && Sample(pods, IntText(3_000_000_000)) == SamplePanic
  {
    SampleNumber(pods, 3_000_000_000);
    SamplePanicsIff(pods, IntText(3_000_000_000));
  }
}
