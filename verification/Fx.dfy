/** Exact exchange rates, half-up conversion and basis-point fees (src/fx.rs). */
module Fx {
  import opened Common
  import opened Decimal

  datatype ArithmeticError = InvalidRate | InvalidScale | InvalidAmount | Overflow | DestinationTooSmall

  // The rate coefficient / 10^scale.
  datatype ExactRate = ExactRate(coefficient: int, scale: nat)

  datatype FeeCalculation = FeeCalculation(fee: int, totalSourceDebit: int)

  // The whole and fractional digits of an acceptable rate text. (The joint limit of 30 digits
  // follows from the separate limits.)
  function RateDigits(input: string): (r: Option<(string, string)>)
    ensures r.Some? ==> AllDigits(r.value.0) && AllDigits(r.value.1) && |r.value.1| <= 12
  {
    var (whole, fractional) := SplitPoint(input);
    if || whole == "" || !AllDigits(whole) || !AllDigits(fractional)
       || |whole| > 18 || |fractional| > 12 || |whole| + |fractional| > 30
    then None
    else Some((whole, fractional))
  }

  function ParseRate(input: string): (r: Result<ExactRate, ArithmeticError>)
    ensures r.Ok? ==> r.value.coefficient > 0 && r.value.scale <= 12
  {
    match RateDigits(input)
    case None => Err(InvalidRate)
    case Some((whole, fractional)) =>
      var coefficient := Value(whole + fractional);
      if coefficient <= 0 then Err(InvalidRate) else Ok(ExactRate(coefficient, |fractional|))
  }

  // Division of big integers truncates toward zero.
  function TruncatedQuotient(n: int, d: int): int
    requires d > 0
  {
    if n >= 0 then n / d else -(-n / d)
  }

  function HalfUpDivide(numerator: int, denominator: int): Result<int, ArithmeticError> {
    if denominator <= 0 then Err(InvalidAmount) else
    var quotient := TruncatedQuotient(numerator, denominator);
    var remainder := numerator - quotient * denominator;
    Ok(if remainder * 2 >= denominator then quotient + 1 else quotient)
  }

  function CalculateFee(source: int, feeBps: int): Result<FeeCalculation, ArithmeticError> {
    if source <= 0 || !(0 <= feeBps <= 10_000) then Err(InvalidAmount) else
    match HalfUpDivide(source * feeBps, 10_000)
    case Err(e) => Err(e)
    case Ok(fee) =>
      if !InI64(fee) || !InI64(source + fee) then Err(Overflow)
      else Ok(FeeCalculation(fee, source + fee))
  }

  function CalculateDestination(source: int, sourceScale: nat, destinationScale: nat, rate: ExactRate)
    : Result<int, ArithmeticError>
  {
    if source <= 0 then Err(InvalidAmount)
    else if sourceScale > 18 || destinationScale > 18 then Err(InvalidScale)
    else
      match HalfUpDivide(Numerator(source, destinationScale, rate), Denominator(sourceScale, rate))
      case Err(e) => Err(e)
      case Ok(rounded) =>
        if rounded == 0 then Err(DestinationTooSmall)
        else if InI64(rounded) then Ok(rounded)
        else Err(Overflow)
  }

  function Numerator(source: int, destinationScale: nat, rate: ExactRate): int {
    source * rate.coefficient * Pow10(destinationScale)
  }

  function Denominator(sourceScale: nat, rate: ExactRate): int {
    Pow10(rate.scale) * Pow10(sourceScale)
  }

  /* -------------------- rounding -------------------- */

  // q is the fraction n / d rounded half up: q - 1/2 <= n / d < q + 1/2, without the division.
  ghost predicate RoundsHalfUp(n: int, d: int, q: int) {
    (2 * q - 1) * d <= 2 * n < (2 * q + 1) * d
  }

  lemma HalfUpExact(n: nat, d: nat)
    requires d > 0
    ensures HalfUpDivide(n, d).Ok? && HalfUpDivide(n, d).value >= 0
    ensures RoundsHalfUp(n, d, HalfUpDivide(n, d).value)
  {
    var quotient := TruncatedQuotient(n, d);
    assert n == quotient * d + n % d;
    assert (2 * quotient + 1) * d == 2 * (quotient * d) + d;
    assert (2 * quotient - 1) * d == 2 * (quotient * d) - d;
    assert (2 * quotient + 3) * d == 2 * (quotient * d) + 3 * d;
  }

  lemma MulCancel(a: int, b: int, k: int)
    requires k > 0 && a * k < b * k
    ensures a < b
  {
  }

  lemma MulMonotone(a: int, b: int, k: int)
    requires a <= b && k >= 0
    ensures a * k <= b * k
  {
  }

  // A fraction that is not larger does not round to more; so equal fractions round alike, and
  // every fraction has one half-up rounding.
  lemma RoundingMonotone(n1: int, d1: int, q1: int, n2: int, d2: int, q2: int)
    requires d1 > 0 && d2 > 0 && n1 * d2 <= n2 * d1
    requires RoundsHalfUp(n1, d1, q1) && RoundsHalfUp(n2, d2, q2)
    ensures q1 <= q2
  {
    var low, high := 2 * q1 - 1, 2 * q2 + 1;
    MulMonotone(low * d1, 2 * n1, d2);
    assert (high * d2) * d1 > 2 * n2 * d1 by {
      if (high * d2) * d1 <= (2 * n2) * d1 {
        MulMonotone(2 * n2 + 1, high * d2, d1);
      }
    }
    Cross(low, high, n1, d1, n2, d2);
    MulCancel(low, high, d1 * d2);
  }

  lemma Cross(low: int, high: int, n1: int, d1: int, n2: int, d2: int)
    requires d1 > 0 && d2 > 0 && n1 * d2 <= n2 * d1
    requires (low * d1) * d2 <= (2 * n1) * d2 && (high * d2) * d1 > 2 * n2 * d1
    ensures d1 * d2 > 0 && low * (d1 * d2) < high * (d1 * d2)
  {
    assert low * (d1 * d2) == (low * d1) * d2;
    assert high * (d1 * d2) == (high * d2) * d1;
    assert (2 * n1) * d2 == 2 * (n1 * d2);
    assert 2 * n2 * d1 == 2 * (n2 * d1);
  }

  /* -------------------- conversion -------------------- */

  // q is the amount times the rate times 10^(destination scale - source scale), rounded half up.
  ghost predicate ConvertsTo(source: int, sourceScale: nat, destinationScale: nat, rate: ExactRate, q: int) {
    RoundsHalfUp(source * rate.coefficient * Pow10(destinationScale), Pow10(rate.scale) * Pow10(sourceScale), q)
  }

  // The order of the rates' rational values, by cross multiplication.
  ghost predicate RateAtMost(rate: ExactRate, other: ExactRate) {
    rate.coefficient * Pow10(other.scale) <= other.coefficient * Pow10(rate.scale)
  }

  lemma FractionsPositive(source: int, sourceScale: nat, destinationScale: nat, rate: ExactRate)
    requires source > 0 && rate.coefficient > 0
    ensures Numerator(source, destinationScale, rate) > 0 && Denominator(sourceScale, rate) > 0
  {
    assert source * rate.coefficient > 0;
  }

  // Which fractions round to zero, and which beyond i64.
  lemma HalfUpRange(n: nat, d: nat)
    requires d > 0
    ensures HalfUpDivide(n, d).Ok?
    ensures var q := HalfUpDivide(n, d).value;
            q >= 0 && RoundsHalfUp(n, d, q) && (q == 0 <==> 2 * n < d) && (q > I64_MAX <==> 2 * n >= (2 * I64_MAX + 1) * d)
  {
    HalfUpExact(n, d);
    var q := HalfUpDivide(n, d).value;
    if q >= 1 {
      MulMonotone(1, 2 * q - 1, d);
    }
    if q > I64_MAX {
      MulMonotone(2 * I64_MAX + 1, 2 * q - 1, d);
    } else {
      MulMonotone(2 * q + 1, 2 * I64_MAX + 1, d);
    }
  }

  // A conversion answers with a half-up rounding of the exact amount, is too small exactly below
  // half a unit, and overflows exactly from half a unit above the largest i64.
  lemma DestinationExact(source: int, sourceScale: Scale, destinationScale: Scale, rate: ExactRate)
    requires source > 0 && rate.coefficient > 0
    ensures var n := source * rate.coefficient * Pow10(destinationScale);
            var d := Pow10(rate.scale) * Pow10(sourceScale);
            var r := CalculateDestination(source, sourceScale, destinationScale, rate);
            && (r.Ok? ==> 0 < r.value <= I64_MAX && ConvertsTo(source, sourceScale, destinationScale, rate, r.value))
            && (r == Err(DestinationTooSmall) <==> 2 * n < d)
            && (r == Err(Overflow) <==> 2 * n >= (2 * I64_MAX + 1) * d)
            && (r.Err? ==> r == Err(DestinationTooSmall) || r == Err(Overflow))
  {
    FractionsPositive(source, sourceScale, destinationScale, rate);
    HalfUpRange(Numerator(source, destinationScale, rate), Denominator(sourceScale, rate));
  }

  // No other number is a half-up rounding of the exact amount.
  lemma DestinationUnique(source: int, sourceScale: Scale, destinationScale: Scale, rate: ExactRate, q: int)
    requires source > 0 && rate.coefficient > 0
    requires ConvertsTo(source, sourceScale, destinationScale, rate, q)
    ensures CalculateDestination(source, sourceScale, destinationScale, rate) ==
            if q == 0 then Err(DestinationTooSmall) else if q <= I64_MAX then Ok(q) else Err(Overflow)
  {
    var n := Numerator(source, destinationScale, rate);
    var d := Denominator(sourceScale, rate);
    FractionsPositive(source, sourceScale, destinationScale, rate);
    HalfUpExact(n, d);
    RoundingMonotone(n, d, q, n, d, HalfUpDivide(n, d).value);
    RoundingMonotone(n, d, HalfUpDivide(n, d).value, n, d, q);
  }

  lemma CrossOrder(
      source: int, larger: int, sourceScale: nat, destinationScale: nat, rate: ExactRate, higher: ExactRate)
    requires 0 < source <= larger && rate.coefficient > 0 && higher.coefficient > 0
    requires RateAtMost(rate, higher)
    ensures Numerator(source, destinationScale, rate) * Denominator(sourceScale, higher)
         <= Numerator(larger, destinationScale, higher) * Denominator(sourceScale, rate)
  {
    var c, k, p, r := rate.coefficient, higher.coefficient, Pow10(rate.scale), Pow10(higher.scale);
    CrossOrderOf(source, larger, c, k, p, r, Pow10(sourceScale), Pow10(destinationScale));
  }

  lemma CrossOrderOf(a: int, b: int, c: int, k: int, p: int, r: int, s: int, t: int)
    requires 0 < a <= b && 0 < c && 0 < k && 0 < p && 0 < r && 0 < s && 0 < t && c * r <= k * p
    ensures (a * c * t) * (r * s) <= (b * k * t) * (p * s)
  {
    Regroup(a, c, t, r, s);
    Regroup(b, k, t, p, s);
    MulMonotone(c * r, k * p, a);
    assert 0 <= k * p;
    MulMonotone(a, b, k * p);
    assert 0 <= t * s;
    MulMonotone(a * (c * r), b * (k * p), t * s);
  }

  lemma Regroup(a: int, c: int, t: int, r: int, s: int)
    ensures (a * c * t) * (r * s) == (a * (c * r)) * (t * s)
  {
    assert (a * c * t) * (r * s) == ((a * c * t) * r) * s;
    assert (a * c * t) * r == (a * c) * (t * r);
    assert (a * c) * (t * r) == ((a * c) * r) * t;
    assert (a * c) * r == a * (c * r);
    assert ((a * (c * r)) * t) * s == (a * (c * r)) * (t * s);
  }

  // Larger amounts and higher rates never convert to less.
  lemma DestinationMonotone(
      source: int, larger: int, sourceScale: Scale, destinationScale: Scale, rate: ExactRate, higher: ExactRate)
    requires 0 < source <= larger && rate.coefficient > 0 && higher.coefficient > 0
    requires RateAtMost(rate, higher)
    ensures var low := CalculateDestination(source, sourceScale, destinationScale, rate);
            var high := CalculateDestination(larger, sourceScale, destinationScale, higher);
            && (low.Ok? && high.Ok? ==> low.value <= high.value)
            && (low == Err(Overflow) ==> high == Err(Overflow))
            && (high == Err(DestinationTooSmall) ==> low == Err(DestinationTooSmall))
  {
    var n1, d1 := Numerator(source, destinationScale, rate), Denominator(sourceScale, rate);
    var n2, d2 := Numerator(larger, destinationScale, higher), Denominator(sourceScale, higher);
    FractionsPositive(source, sourceScale, destinationScale, rate);
    FractionsPositive(larger, sourceScale, destinationScale, higher);
    HalfUpExact(n1, d1);
    HalfUpExact(n2, d2);
    CrossOrder(source, larger, sourceScale, destinationScale, rate, higher);
    RoundingMonotone(n1, d1, HalfUpDivide(n1, d1).value, n2, d2, HalfUpDivide(n2, d2).value);
  }

  // Only the rational value of the rate matters, not how its text spells it.
  lemma DestinationDependsOnValue(
      source: int, sourceScale: Scale, destinationScale: Scale, rate: ExactRate, other: ExactRate)
    requires source > 0 && rate.coefficient > 0 && other.coefficient > 0
    requires RateAtMost(rate, other) && RateAtMost(other, rate)
    ensures CalculateDestination(source, sourceScale, destinationScale, rate) ==
            CalculateDestination(source, sourceScale, destinationScale, other)
  {
    DestinationMonotone(source, source, sourceScale, destinationScale, rate, other);
    DestinationMonotone(source, source, sourceScale, destinationScale, other, rate);
    DestinationExact(source, sourceScale, destinationScale, rate);
    DestinationExact(source, sourceScale, destinationScale, other);
  }

  lemma BeyondI64()
    ensures I64_MAX < Pow10(19)
  {
    assert Pow10(6) == 1_000_000;
    PowerSplit(6, 6);
    PowerSplit(6, 12);
    PowerSplit(1, 18);
  }

  lemma CoefficientBound(text: string)
    requires ParseRate(text).Ok?
    ensures 0 < ParseRate(text).value.coefficient < Pow10(30)
  {
    var digits := RateDigits(text).value.0 + RateDigits(text).value.1;
    ValueBound(digits);
    PowerMonotone(|digits|, 30);
  }

  lemma ProductBound(a: int, m: int, b: int, n: int)
    requires 0 < a < m && 0 < b <= n
    ensures 0 < a * b < m * n
  {
    MulMonotone(1, a, b);
    MulMonotone(b, n, a);
    MulMonotone(a + 1, m, n);
    assert a * n == n * a && (a + 1) * n == a * n + n;
  }

  // The numerator needs more than 128 bits but stays below 10^67.
  lemma NumeratorBound(source: int, destinationScale: Scale, text: string)
    requires 0 < source <= I64_MAX && ParseRate(text).Ok?
    ensures 0 < source * ParseRate(text).value.coefficient * Pow10(destinationScale) < Pow10(67)
  {
    var c := ParseRate(text).value.coefficient;
    BeyondI64();
    CoefficientBound(text);
    ProductBound(source, Pow10(19), c, Pow10(30));
    PowerSplit(19, 30);
    PowerMonotone(destinationScale, 18);
    ProductBound(source * c, Pow10(49), Pow10(destinationScale), Pow10(18));
    PowerSplit(49, 18);
  }

  // The acceptable rate texts: 1 to 18 digits and at most 12 decimals; the point may stand alone.
  ghost predicate RateText(text: string, whole: string, fraction: string) {
    && (text == whole + ("." + fraction) || (text == whole && fraction == ""))
    && AllDigits(whole) && AllDigits(fraction) && 1 <= |whole| <= 18 && |fraction| <= 12
  }

  lemma RateTextSplit(text: string, whole: string, fraction: string)
    requires RateText(text, whole, fraction)
    ensures SplitPoint(text) == (whole, fraction)
  {
    if text == whole + ("." + fraction) {
      assert forall i :: 0 <= i < |whole| ==> text[i] == whole[i] && IsDigit(whole[i]);
      FirstPoint(text, |whole|);
      assert text[..|whole|] == whole && text[|whole| + 1..] == fraction;
    } else {
      assert forall i :: 0 <= i < |whole| ==> IsDigit(text[i]);
      assert text[..|text|] == text;
    }
  }

  // A rate text denotes its digits over the power of ten of its decimals; only zero is no rate.
  lemma RateCharacterised(text: string, whole: string, fraction: string)
    requires RateText(text, whole, fraction)
    ensures AllDigits(whole + fraction)
    ensures ParseRate(text) ==
            if Value(whole + fraction) > 0 then Ok(ExactRate(Value(whole + fraction), |fraction|)) else Err(InvalidRate)
  {
    RateTextSplit(text, whole, fraction);
  }

  // Every other text is rejected.
  lemma RateRejected(text: string)
    ensures RateDigits(text).None? <==> !exists whole, fraction :: RateText(text, whole, fraction)
  {
    forall whole, fraction | RateText(text, whole, fraction) ensures RateDigits(text).Some? {
      RateTextSplit(text, whole, fraction);
    }
    if RateDigits(text).Some? {
      var (whole, fraction) := RateDigits(text).value;
      var p := PointAt(text);
      if p < |text| {
        assert text == text[..p] + ("." + text[p + 1..]);
      } else {
        assert text[..p] == text;
      }
      assert RateText(text, whole, fraction);
    }
  }

  // The text with zeros appended to its fractional digits.
  function WithZeros(text: string, zeros: nat): string {
    text + (if '.' in text then "" else ".") + Zeros(zeros)
  }

  // Appended zeros leave the parsed rate's value as it was.
  lemma AppendedZeros(text: string, zeros: nat)
    requires ParseRate(text).Ok? && ParseRate(text).value.scale + zeros <= 12
    ensures ParseRate(WithZeros(text, zeros)).Ok?
    ensures RateAtMost(ParseRate(WithZeros(text, zeros)).value, ParseRate(text).value)
    ensures RateAtMost(ParseRate(text).value, ParseRate(WithZeros(text, zeros)).value)
  {
    var (whole, fractional) := RateDigits(text).value;
    DigitsExtended(text, zeros);
    ParsesAlike(text, WithZeros(text, zeros), whole, fractional, zeros);
  }

  lemma ParsesAlike(text: string, longer: string, whole: string, fractional: string, zeros: nat)
    requires RateDigits(text) == Some((whole, fractional))
    requires RateDigits(longer) == Some((whole, fractional + Zeros(zeros)))
    requires ParseRate(text).Ok?
    ensures ParseRate(longer).Ok?
    ensures RateAtMost(ParseRate(longer).value, ParseRate(text).value)
    ensures RateAtMost(ParseRate(text).value, ParseRate(longer).value)
  {
    var digits := whole + fractional;
    SameValue(digits, |fractional|, zeros);
    assert whole + (fractional + Zeros(zeros)) == digits + Zeros(zeros);
    ParseOfDigits(longer, whole, fractional + Zeros(zeros), Value(digits + Zeros(zeros)));
  }

  lemma ParseOfDigits(longer: string, whole: string, fractional: string, coefficient: int)
    requires RateDigits(longer) == Some((whole, fractional))
    requires Value(whole + fractional) == coefficient > 0
    ensures ParseRate(longer) == Ok(ExactRate(coefficient, |fractional|))
  {
  }

  lemma SameValue(digits: string, scale: nat, zeros: nat)
    requires AllDigits(digits)
    ensures AllDigits(digits + Zeros(zeros))
    ensures Value(digits + Zeros(zeros)) * Pow10(scale) == Value(digits) * Pow10(scale + zeros)
    ensures Value(digits) > 0 ==> Value(digits + Zeros(zeros)) > 0
  {
    ValueExtended(digits, zeros);
    PowerSplit(scale, zeros);
    Commute(Value(digits), Pow10(zeros), Pow10(scale));
  }

  lemma Commute(c: int, t: int, p: int)
    ensures (c * t) * p == c * (p * t)
  {
  }

  lemma DigitsExtended(text: string, zeros: nat)
    requires RateDigits(text).Some? && |RateDigits(text).value.1| + zeros <= 12
    ensures RateDigits(WithZeros(text, zeros)) ==
            Some((RateDigits(text).value.0, RateDigits(text).value.1 + Zeros(zeros)))
  {
    SplitExtended(text, Zeros(zeros));
  }

  lemma ValueExtended(digits: string, zeros: nat)
    requires AllDigits(digits)
    ensures AllDigits(digits + Zeros(zeros)) && Value(digits + Zeros(zeros)) == Value(digits) * Pow10(zeros)
    ensures Value(digits) > 0 ==> Value(digits + Zeros(zeros)) > 0
  {
    ValueZeros(zeros);
    ValueConcat(digits, Zeros(zeros));
    Positive(Value(digits), Pow10(zeros));
  }

  lemma Positive(a: nat, b: nat)
    requires b > 0
    ensures a > 0 ==> a * b > 0
  {
  }

  lemma SplitExtended(text: string, tail: string)
    ensures SplitPoint(text + (if '.' in text then "" else ".") + tail) == (SplitPoint(text).0, SplitPoint(text).1 + tail)
  {
    var (whole, fractional) := SplitPoint(text);
    var stem := text + (if '.' in text then "" else ".");
    var p := PointAt(text);
    assert stem[p] == '.' && stem[..p] == whole && stem[p + 1..] == fractional;
    var longer := stem + tail;
    assert longer[p] == '.' && longer[..p] == whole && longer[p + 1..] == fractional + tail;
    FirstPoint(longer, p);
  }

  /* -------------------- fees -------------------- */

  // The fee is the half-up rounding of amount * bps / 10000.
  lemma FeeExact(source: int, feeBps: int)
    requires 0 < source <= I64_MAX && 0 <= feeBps <= 10_000
    ensures var r := CalculateFee(source, feeBps);
            && HalfUpDivide(source * feeBps, 10_000).Ok?
            && var fee := HalfUpDivide(source * feeBps, 10_000).value;
            && RoundsHalfUp(source * feeBps, 10_000, fee)
            && 0 <= fee <= source
            && r == if source + fee > I64_MAX then Err(Overflow) else Ok(FeeCalculation(fee, source + fee))
  {
    assert 0 <= source * feeBps <= source * 10_000;
    HalfUpExact(source * feeBps, 10_000);
  }

  lemma FeeMonotone(source: int, larger: int, feeBps: int, higherBps: int)
    requires source <= larger <= I64_MAX && feeBps <= higherBps
    requires CalculateFee(source, feeBps).Ok? && CalculateFee(larger, higherBps).Ok?
    ensures CalculateFee(source, feeBps).value.fee <= CalculateFee(larger, higherBps).value.fee
  {
    FeeExact(source, feeBps);
    FeeExact(larger, higherBps);
    ProductMonotone(source, larger, feeBps, higherBps);
  }

  lemma ProductMonotone(a: nat, b: nat, c: nat, d: nat)
    requires a <= b && c <= d
    ensures a * c <= b * d
  {
    assert a * c <= a * d;
    assert a * d <= b * d;
  }

  ghost function Total(amounts: seq<int>): int {
    if amounts == [] then 0 else Total(amounts[..|amounts| - 1]) + amounts[|amounts| - 1]
  }

  ghost predicate Chargeable(amounts: seq<int>, feeBps: int) {
    forall i :: 0 <= i < |amounts| ==> amounts[i] <= I64_MAX && CalculateFee(amounts[i], feeBps).Ok?
  }

  ghost function TotalFee(amounts: seq<int>, feeBps: int): int
    requires Chargeable(amounts, feeBps)
  {
    if amounts == [] then 0
    else TotalFee(amounts[..|amounts| - 1], feeBps) + CalculateFee(amounts[|amounts| - 1], feeBps).value.fee
  }

  lemma {:induction false} RoundingDrift(amounts: seq<int>, feeBps: int)
    requires Chargeable(amounts, feeBps)
    ensures -10_000 * |amounts| <= 20_000 * TotalFee(amounts, feeBps) - 2 * (Total(amounts) * feeBps) <= 10_000 * |amounts|
    ensures amounts != [] ==> -10_000 * |amounts| < 20_000 * TotalFee(amounts, feeBps) - 2 * (Total(amounts) * feeBps)
  {
    if amounts != [] {
      var front, last := amounts[..|amounts| - 1], amounts[|amounts| - 1];
      RoundingDrift(front, feeBps);
      FeeExact(last, feeBps);
      FeeStep(Total(front), last, feeBps, CalculateFee(last, feeBps).value.fee);
    }
  }

  lemma FeeStep(total: int, last: int, feeBps: int, fee: int)
    requires RoundsHalfUp(last * feeBps, 10_000, fee)
    ensures (total + last) * feeBps == total * feeBps + last * feeBps
    ensures -10_000 < 20_000 * fee - 2 * (last * feeBps) <= 10_000
  {
  }

  // Splitting one amount into n parts changes the total fee by at most n / 2 minor units.
  lemma SplittingFee(amounts: seq<int>, feeBps: int)
    requires amounts != [] && Chargeable(amounts, feeBps)
    requires Total(amounts) <= I64_MAX && CalculateFee(Total(amounts), feeBps).Ok?
    ensures var change := TotalFee(amounts, feeBps) - CalculateFee(Total(amounts), feeBps).value.fee;
            -|amounts| <= 2 * change <= |amounts|
  {
    RoundingDrift(amounts, feeBps);
    FeeExact(Total(amounts), feeBps);
  }
}
