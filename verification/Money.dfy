/** Decimal money texts and integer minor units (src/money.rs). */
module Money {
  import opened Common
  import opened Decimal

  datatype Currency = Currency(code: string, scale: Scale)

  datatype MoneyError = Malformed | TooManyFractionalDigits | Negative | Overflow

  const CURRENCIES: seq<Currency> :=
    [Currency("PLN", 2), Currency("EUR", 2), Currency("USD", 2), Currency("JPY", 0)]

  // The characters with the Unicode White_Space property.
  predicate IsWhitespace(c: char) {
    var n := c as int;
    || 0x09 <= n <= 0x0d || n == 0x20 || n == 0x85 || n == 0xa0 || n == 0x1680
    || 0x2000 <= n <= 0x200a || n == 0x2028 || n == 0x2029 || n == 0x202f || n == 0x205f || n == 0x3000
  }

  function Trim(s: string): (t: string)
    ensures t == s <==> s == "" || (!IsWhitespace(s[0]) && !IsWhitespace(s[|s| - 1]))
    ensures |t| <= |s|
  {
    if s == "" then s
    else if IsWhitespace(s[0]) then Trim(s[1..])
    else if IsWhitespace(s[|s| - 1]) then Trim(s[..|s| - 1])
    else s
  }

  function ToAsciiUppercase(s: string): (t: string)
    ensures |t| == |s|
  {
    seq(|s|, i requires 0 <= i < |s| => if 'a' <= s[i] <= 'z' then s[i] - ' ' else s[i])
  }

  function FindCurrency(code: string, currencies: seq<Currency>): Option<Currency> {
    if currencies == [] then None
    else if currencies[0].code == code then Some(currencies[0])
    else FindCurrency(code, currencies[1..])
  }

  function CurrencyOf(input: string): Option<Currency> {
    FindCurrency(ToAsciiUppercase(Trim(input)), CURRENCIES)
  }

  // An unsigned decimal read into an i128; None is the overflow error.
  function ParseI128(digits: string): Option<nat>
    requires AllDigits(digits) && digits != ""
  {
    if Value(digits) <= I128_MAX then Some(Value(digits)) else None
  }

  // The sign, the whole part and the fractional part of an acceptable text.
  datatype Parts = Parts(negative: bool, whole: string, fractional: string)

  function Scan(input: string): (r: Option<Parts>)
    ensures r.Some? ==>
              r.value.whole != "" && AllDigits(r.value.whole) && AllDigits(r.value.fractional)
  {
    if input == "" || Trim(input) != input then None else
    var negative := input[0] == '-';
    var digits := if negative then input[1..] else input;
    var (whole, fractional) := SplitPoint(digits);
    // A second point leaves a '.' in the fractional part, which is no digit.
    if whole == "" || ('.' in digits && fractional == "") || !AllDigits(whole) || !AllDigits(fractional)
    then None
    else Some(Parts(negative, whole, fractional))
  }

  function ParseMinorUnits(input: string, scale: Scale): (r: Result<int, MoneyError>)
    ensures r.Ok? ==> InI64(r.value)
  {
    match Scan(input)
    case None => Err(Malformed)
    case Some(parts) =>
      if |parts.fractional| > scale then Err(TooManyFractionalDigits)
      else MinorUnits(parts.negative, parts.whole, parts.fractional, scale)
  }

  // The checked i128 arithmetic behind the grammar check.
  function MinorUnits(negative: bool, whole: string, fractional: string, scale: Scale): (r: Result<int, MoneyError>)
    requires AllDigits(whole) && whole != "" && AllDigits(fractional) && |fractional| <= scale
    ensures r.Ok? ==> InI64(r.value)
  {
    var factor := Pow10(scale);
    var minor := if fractional == "" then Some(0) else ParseI128(fractional);
    if ParseI128(whole).None? || minor.None? then Err(Overflow) else
    var shifted := if fractional == "" then 0 else minor.value * Pow10(scale - |fractional|);
    var product := ParseI128(whole).value * factor;
    if product > I128_MAX || product + shifted > I128_MAX then Err(Overflow) else
    var amount := if negative then -(product + shifted) else product + shifted;
    if InI64(amount) then Ok(amount) else Err(Overflow)
  }

  function ParseInitialBalance(input: string, scale: Scale): (r: Result<int, MoneyError>)
    ensures r.Ok? ==> 0 <= r.value <= I64_MAX
  {
    match ParseMinorUnits(input, scale)
    case Err(e) => Err(e)
    case Ok(amount) => if amount < 0 then Err(Negative) else Ok(amount)
  }

  function FormatMinorUnits(amount: int, scale: Scale): string {
    var absolute := if amount < 0 then -amount else amount;
    var factor := Pow10(scale);
    (if amount < 0 then "-" else "")
    + (Digits(Quotient(absolute, factor))
       + (if scale > 0 then "." + ZeroPadded(Remainder(absolute, factor), scale) else ""))
  }

  // The text is built by successive writes to one growing string.
  method WriteMinorUnits(amount: int, scale: Scale) returns (output: string)
    requires InI64(amount)
    ensures output == FormatMinorUnits(amount, scale)
  {
    var negative := amount < 0;
    var absolute := if negative then -amount else amount;
    var factor := Pow10(scale);
    var whole, fractional := Quotient(absolute, factor), Remainder(absolute, factor);
    output := "";
    if negative {
      output := output + "-";
    }
    output := output + Digits(whole);
    if scale > 0 {
      output := output + "." + ZeroPadded(fractional, scale);
    }
  }

  /* -------------------- what the texts mean -------------------- */

  // The grammar: an optional minus sign, digits, and optionally a point with further digits.
  ghost predicate Grammatical(input: string, negative: bool, whole: string, fraction: string) {
    && whole != "" && AllDigits(whole) && AllDigits(fraction)
    && input == (if negative then "-" else "") + (whole + (if fraction == "" then "" else "." + fraction))
  }

  // The exact value of a grammatical text, counted in units of 10^-scale.
  ghost function Denoted(negative: bool, whole: string, fraction: string, scale: Scale): int
    requires AllDigits(whole) && AllDigits(fraction) && |fraction| <= scale
  {
    ValueConcat(whole, fraction);
    var magnitude := Value(whole + fraction) * Pow10(scale - |fraction|);
    if negative then -magnitude else magnitude
  }

  // A text names a supported currency, and every currency is named by its own code.
  lemma {:induction false} FoundIsListed(code: string, currencies: seq<Currency>)
    ensures FindCurrency(code, currencies).Some? ==> FindCurrency(code, currencies).value in currencies
  {
    if currencies != [] && currencies[0].code != code {
      FoundIsListed(code, currencies[1..]);
    }
  }

  predicate Uppercase(code: string) {
    code != "" && forall i :: 0 <= i < |code| ==> 'A' <= code[i] <= 'Z'
  }

  lemma UppercaseStays(code: string)
    requires Uppercase(code)
    ensures Trim(code) == code && ToAsciiUppercase(code) == code
  {
  }

  lemma {:induction false} FindsListed(currency: Currency, currencies: seq<Currency>)
    requires currency in currencies
    requires forall i, j :: 0 <= i < j < |currencies| ==> currencies[i].code != currencies[j].code
    ensures FindCurrency(currency.code, currencies) == Some(currency)
  {
    if currencies[0] != currency {
      FindsListed(currency, currencies[1..]);
    }
  }

  lemma CodesDiffer()
    ensures forall i, j :: 0 <= i < j < |CURRENCIES| ==> CURRENCIES[i].code != CURRENCIES[j].code
    ensures forall i :: 0 <= i < |CURRENCIES| ==> Uppercase(CURRENCIES[i].code)
  {
    assert "PLN"[0] == 'P' && "EUR"[0] == 'E' && "USD"[0] == 'U' && "JPY"[0] == 'J';
  }

  lemma NamesItself(currency: Currency)
    requires currency in CURRENCIES
    ensures CurrencyOf(currency.code) == Some(currency)
  {
    CodesDiffer();
    UppercaseStays(currency.code);
    FindsListed(currency, CURRENCIES);
  }

  // One currency has one scale.
  lemma CodeTellsScale(a: Currency, b: Currency)
    requires a in CURRENCIES && b in CURRENCIES && a.code == b.code
    ensures a == b
  {
    NamesItself(a);
    NamesItself(b);
  }

  predicate Blank(s: string) {
    forall i :: 0 <= i < |s| ==> IsWhitespace(s[i])
  }

  // The word has the letters of the code, in either case.
  ghost predicate Spells(word: string, code: string) {
    |word| == |code| &&
    forall i :: 0 <= i < |code| ==> word[i] == code[i] || ('A' <= code[i] <= 'Z' && word[i] == code[i] + ' ')
  }

  ghost predicate Padded(input: string, left: string, word: string, right: string) {
    input == left + word + right && Blank(left) && Blank(right)
  }

  lemma PaddedLeft(s: string, left: string, word: string, right: string)
    requires s != "" && IsWhitespace(s[0]) && Padded(s[1..], left, word, right)
    ensures Padded(s, [s[0]] + left, word, right)
  {
    assert s == [s[0]] + s[1..];
  }

  lemma PaddedRight(s: string, left: string, word: string, right: string)
    requires s != "" && IsWhitespace(s[|s| - 1]) && Padded(s[..|s| - 1], left, word, right)
    ensures Padded(s, left, word, right + [s[|s| - 1]])
  {
    assert s == s[..|s| - 1] + [s[|s| - 1]];
  }

  lemma {:induction false} TrimTakesPadding(s: string) returns (left: string, right: string)
    ensures Padded(s, left, Trim(s), right)
    decreases |s|
  {
    left, right := "", "";
    if s != "" && IsWhitespace(s[0]) {
      left, right := TrimTakesPadding(s[1..]);
      PaddedLeft(s, left, Trim(s), right);
      left := [s[0]] + left;
    } else if s != "" && IsWhitespace(s[|s| - 1]) {
      left, right := TrimTakesPadding(s[..|s| - 1]);
      PaddedRight(s, left, Trim(s), right);
      right := right + [s[|s| - 1]];
    } else {
      assert s == "" + s + "";
    }
  }

  lemma {:induction false} TrimsPadding(left: string, word: string, right: string)
    requires Blank(left) && Blank(right) && word != ""
    requires !IsWhitespace(word[0]) && !IsWhitespace(word[|word| - 1])
    ensures Trim(left + word + right) == word
    decreases |left| + |right|
  {
    var s := left + word + right;
    if left != "" {
      TrimsPadding(left[1..], word, right);
      assert s[1..] == left[1..] + word + right;
    } else if right != "" {
      TrimsPadding(left, word, right[..|right| - 1]);
      assert s[..|s| - 1] == left + word + right[..|right| - 1];
    } else {
      assert s == word;
    }
  }

  lemma {:induction false} FoundHasCode(code: string, currencies: seq<Currency>)
    ensures FindCurrency(code, currencies).Some? ==> FindCurrency(code, currencies).value.code == code
  {
    if currencies != [] && currencies[0].code != code {
      FoundHasCode(code, currencies[1..]);
    }
  }

  lemma SpellingIsUppercased(word: string, code: string)
    requires Uppercase(code)
    ensures Spells(word, code) <==> ToAsciiUppercase(word) == code
  {
    if ToAsciiUppercase(word) == code {
      forall i | 0 <= i < |code| ensures word[i] == code[i] || ('A' <= code[i] <= 'Z' && word[i] == code[i] + ' ') {
        assert code[i] == ToAsciiUppercase(word)[i];
      }
    }
  }

  predicate Supported(currency: Currency) {
    match currency.scale
    case 0 => currency.code == "JPY"
    case 2 => currency.code == "PLN" || currency.code == "EUR" || currency.code == "USD"
    case _ => false
  }

  lemma ListedIsSupported(currency: Currency)
    ensures currency in CURRENCIES <==> Supported(currency)
  {
    assert CURRENCIES[0] == Currency("PLN", 2) && CURRENCIES[1] == Currency("EUR", 2);
    assert CURRENCIES[2] == Currency("USD", 2) && CURRENCIES[3] == Currency("JPY", 0);
  }

  // The texts that name a supported currency: its code, in upper or lower case, between white space.
  lemma CurrencyRecognised(input: string, currency: Currency)
    ensures CurrencyOf(input) == Some(currency) <==>
            Supported(currency) &&
            exists left, word, right :: Padded(input, left, word, right) && Spells(word, currency.code)
  {
    CodesDiffer();
    ListedIsSupported(currency);
    if CurrencyOf(input) == Some(currency) {
      FoundIsListed(ToAsciiUppercase(Trim(input)), CURRENCIES);
      FoundHasCode(ToAsciiUppercase(Trim(input)), CURRENCIES);
      SpellingIsUppercased(Trim(input), currency.code);
      var left, right := TrimTakesPadding(input);
      assert Padded(input, left, Trim(input), right) && Spells(Trim(input), currency.code);
    }
    forall left, word, right | currency in CURRENCIES && Padded(input, left, word, right) && Spells(word, currency.code)
      ensures CurrencyOf(input) == Some(currency)
    {
      SpellingIsUppercased(word, currency.code);
      TrimsPadding(left, word, right);
      FindsListed(currency, CURRENCIES);
    }
  }

  lemma SplitOfParts(whole: string, fraction: string)
    requires AllDigits(whole) && AllDigits(fraction)
    ensures var digits := whole + (if fraction == "" then "" else "." + fraction);
            SplitPoint(digits) == (whole, fraction) && ('.' in digits <==> fraction != "")
  {
    if fraction == "" {
      SplitWhole(whole);
    } else {
      SplitJoined(whole, fraction);
    }
  }

  lemma SplitWhole(whole: string)
    requires AllDigits(whole)
    ensures SplitPoint(whole + "") == (whole, "") && '.' !in whole + ""
  {
    assert whole + "" == whole;
    assert forall i :: 0 <= i < |whole| ==> IsDigit(whole[i]);
    assert whole[..|whole|] == whole;
  }

  lemma SplitJoined(whole: string, fraction: string)
    requires AllDigits(whole)
    ensures SplitPoint(whole + ("." + fraction)) == (whole, fraction) && '.' in whole + ("." + fraction)
  {
    var digits := whole + ("." + fraction);
    assert forall i :: 0 <= i < |whole| ==> digits[i] == whole[i] && IsDigit(whole[i]);
    assert digits[|whole|] == '.';
    FirstPoint(digits, |whole|);
    assert digits[..|whole|] == whole && digits[|whole| + 1..] == fraction;
  }

  lemma PowersOfTen()
    ensures Pow10(18) == 1_000_000_000_000_000_000
  {
    assert Pow10(6) == 1_000_000;
    PowerSplit(6, 6);
    PowerSplit(6, 12);
  }

  // The i128 intermediates never change the outcome: only the final value decides.
  lemma MinorUnitsExact(negative: bool, whole: string, fraction: string, scale: Scale)
    requires AllDigits(whole) && whole != "" && AllDigits(fraction) && |fraction| <= scale
    ensures var exact := Denoted(negative, whole, fraction, scale);
            MinorUnits(negative, whole, fraction, scale) == if InI64(exact) then Ok(exact) else Err(Overflow)
  {
    DenotedSum(whole, fraction, scale);
    ValueBound(fraction);
    PowerMonotone(|fraction|, 18);
    PowersOfTen();
  }

  lemma LessTimes(a: nat, b: nat, c: nat)
    requires a < b && c > 0
    ensures 0 <= a * c < b * c
  {
  }

  // The fraction is scaled without a check; it cannot leave i128.
  lemma ScalingFits(fraction: string, scale: Scale)
    requires AllDigits(fraction) && |fraction| <= scale
    ensures 0 <= Value(fraction) * Pow10(scale - |fraction|) < Pow10(scale) <= I128_MAX
  {
    ValueBound(fraction);
    PowerSplit(|fraction|, scale - |fraction|);
    LessTimes(Value(fraction), Pow10(|fraction|), Pow10(scale - |fraction|));
    PowerMonotone(scale, 18);
    PowersOfTen();
  }

  lemma DenotedSum(whole: string, fraction: string, scale: Scale)
    requires AllDigits(whole) && AllDigits(fraction) && |fraction| <= scale
    ensures AllDigits(whole + fraction)
    ensures var rest := Pow10(scale - |fraction|);
            && Value(whole + fraction) * rest == Value(whole) * Pow10(scale) + Value(fraction) * rest
            && Value(whole) <= Value(whole) * Pow10(scale) && 0 <= Value(fraction) * rest
            && (fraction == "" ==> Value(fraction) * rest == 0)
  {
    ValueConcat(whole, fraction);
    PowerSplit(|fraction|, scale - |fraction|);
    Distribute(Value(whole), Pow10(|fraction|), Value(fraction), Pow10(scale - |fraction|));
  }

  lemma Distribute(w: nat, shift: nat, f: nat, rest: nat)
    requires shift > 0 && rest > 0
    ensures (w * shift + f) * rest == w * (shift * rest) + f * rest
    ensures w <= w * (shift * rest) && 0 <= f * rest
  {
    assert (w * shift) * rest == w * (shift * rest);
    assert shift * rest >= 1;
  }

  // Every text is decided by its grammar, its number of fraction digits and its exact value alone.
  lemma ParseCharacterised(input: string, scale: Scale, negative: bool, whole: string, fraction: string)
    requires Grammatical(input, negative, whole, fraction)
    ensures ParseMinorUnits(input, scale) ==
            if |fraction| > scale then Err(TooManyFractionalDigits)
            else if InI64(Denoted(negative, whole, fraction, scale)) then Ok(Denoted(negative, whole, fraction, scale))
            else Err(Overflow)
  {
    GrammaticalIsScanned(input, negative, whole, fraction);
    if |fraction| <= scale {
      MinorUnitsExact(negative, whole, fraction, scale);
    }
  }

  // An opening balance is refused besides only for being negative.
  lemma InitialBalanceCharacterised(input: string, scale: Scale, negative: bool, whole: string, fraction: string)
    requires Grammatical(input, negative, whole, fraction)
    ensures ParseInitialBalance(input, scale) ==
            if |fraction| > scale then Err(TooManyFractionalDigits)
            else if !InI64(Denoted(negative, whole, fraction, scale)) then Err(Overflow)
            else if Denoted(negative, whole, fraction, scale) < 0 then Err(Negative)
            else Ok(Denoted(negative, whole, fraction, scale))
  {
    ParseCharacterised(input, scale, negative, whole, fraction);
  }

  // Malformed is exactly the answer to the texts outside the grammar.
  lemma ParseMalformed(input: string, scale: Scale)
    ensures ParseMinorUnits(input, scale) == Err(Malformed)
            <==> !exists negative, whole, fraction :: Grammatical(input, negative, whole, fraction)
  {
    forall negative, whole, fraction | Grammatical(input, negative, whole, fraction)
      ensures ParseMinorUnits(input, scale) != Err(Malformed)
    {
      ParseCharacterised(input, scale, negative, whole, fraction);
    }
    if ParseMinorUnits(input, scale) != Err(Malformed) {
      ScannedIsGrammatical(input);
    }
  }

  lemma ScannedIsGrammatical(input: string)
    requires Scan(input).Some?
    ensures Grammatical(input, Scan(input).value.negative, Scan(input).value.whole, Scan(input).value.fractional)
  {
    var negative := input[0] == '-';
    var digits := if negative then input[1..] else input;
    PartsOfSplit(digits);
    Signed(input, negative, digits);
  }

  lemma Signed(input: string, negative: bool, digits: string)
    requires input != "" && negative == (input[0] == '-') && digits == (if negative then input[1..] else input)
    ensures input == (if negative then "-" else "") + digits
  {
  }

  lemma GrammaticalIsScanned(input: string, negative: bool, whole: string, fraction: string)
    requires Grammatical(input, negative, whole, fraction)
    ensures Scan(input) == Some(Parts(negative, whole, fraction))
  {
    var digits := whole + (if fraction == "" then "" else "." + fraction);
    assert input == (if negative then "-" else "") + digits;
    assert IsDigit(digits[0]) && IsDigit(digits[|digits| - 1]);
    assert Trim(input) == input;
    assert (if input[0] == '-' then input[1..] else input) == digits;
    SplitOfParts(whole, fraction);
  }

  lemma PartsOfSplit(digits: string)
    requires '.' in digits ==> SplitPoint(digits).1 != ""
    ensures digits == SplitPoint(digits).0 + (if SplitPoint(digits).1 == "" then "" else "." + SplitPoint(digits).1)
  {
    var p := PointAt(digits);
    if p < |digits| {
      assert digits[p] in digits;
      Rejoin(digits, p);
    } else {
      assert digits[..p] == digits;
    }
  }

  lemma Rejoin(s: string, p: nat)
    requires p < |s| && s[p] == '.'
    ensures s == s[..p] + ("." + s[p + 1..])
  {
  }

  // The formatted text of a number, taken apart along the grammar.
  lemma FormatParts(amount: int, scale: Scale) returns (whole: string, fraction: string)
    ensures Grammatical(FormatMinorUnits(amount, scale), amount < 0, whole, fraction)
    ensures |fraction| == scale && NoLeadingZero(whole)
    ensures Denoted(amount < 0, whole, fraction, scale) == amount
  {
    var absolute := if amount < 0 then -amount else amount;
    var factor := Pow10(scale);
    whole := Digits(Quotient(absolute, factor));
    fraction := if scale > 0 then ZeroPadded(Remainder(absolute, factor), scale) else "";
    DigitsValue(Quotient(absolute, factor));
    if scale > 0 {
      ZeroPaddedValue(Remainder(absolute, factor), scale);
    }
    ValueConcat(whole, fraction);
  }

  lemma FormatThenParse(amount: int, scale: Scale)
    requires InI64(amount)
    ensures ParseMinorUnits(FormatMinorUnits(amount, scale), scale) == Ok(amount)
  {
    var whole, fraction := FormatParts(amount, scale);
    ParseCharacterised(FormatMinorUnits(amount, scale), scale, amount < 0, whole, fraction);
  }

  // Formatting what was read returns the text itself exactly when the text already has all its
  // fraction digits, no superfluous leading zero, and no minus sign before a zero.
  lemma ParseThenFormat(input: string, scale: Scale, negative: bool, whole: string, fraction: string)
    requires Grammatical(input, negative, whole, fraction) && |fraction| <= scale
    requires InI64(Denoted(negative, whole, fraction, scale))
    ensures var amount := Denoted(negative, whole, fraction, scale);
            FormatMinorUnits(amount, scale) == input
            <==> |fraction| == scale && NoLeadingZero(whole) && (negative ==> amount != 0)
  {
    if FormatMinorUnits(Denoted(negative, whole, fraction, scale), scale) == input {
      FormattedIsCanonical(input, scale, negative, whole, fraction);
    }
    if |fraction| == scale && NoLeadingZero(whole) && (negative ==> Denoted(negative, whole, fraction, scale) != 0) {
      CanonicalIsFormatted(input, scale, negative, whole, fraction);
    }
  }

  lemma FormattedIsCanonical(input: string, scale: Scale, negative: bool, whole: string, fraction: string)
    requires Grammatical(input, negative, whole, fraction) && |fraction| <= scale
    requires FormatMinorUnits(Denoted(negative, whole, fraction, scale), scale) == input
    ensures |fraction| == scale && NoLeadingZero(whole)
    ensures negative ==> Denoted(negative, whole, fraction, scale) != 0
  {
    var amount := Denoted(negative, whole, fraction, scale);
    var w, f := FormatParts(amount, scale);
    PartsUnique(input, negative, whole, fraction, amount < 0, w, f);
  }

  lemma CanonicalIsFormatted(input: string, scale: Scale, negative: bool, whole: string, fraction: string)
    requires Grammatical(input, negative, whole, fraction) && |fraction| == scale && NoLeadingZero(whole)
    requires negative ==> Denoted(negative, whole, fraction, scale) != 0
    ensures FormatMinorUnits(Denoted(negative, whole, fraction, scale), scale) == input
  {
    var amount := Denoted(negative, whole, fraction, scale);
    ValueConcat(whole, fraction);
    FormatOfDigits(whole, fraction, scale, if amount < 0 then -amount else amount);
  }

  lemma FormatOfDigits(whole: string, fraction: string, scale: Scale, absolute: nat)
    requires AllDigits(whole) && AllDigits(fraction) && |fraction| == scale && NoLeadingZero(whole)
    requires absolute == Value(whole) * Pow10(scale) + Value(fraction)
    ensures Digits(Quotient(absolute, Pow10(scale))) == whole
    ensures scale > 0 ==> ZeroPadded(Remainder(absolute, Pow10(scale)), scale) == fraction
  {
    ValueBound(fraction);
    QuotientUnique(absolute, Pow10(scale), Value(whole), Value(fraction));
    DigitsUnique(whole);
    if scale > 0 {
      ZeroPaddedValue(Value(fraction), scale);
      ValueInjective(ZeroPadded(Value(fraction), scale), fraction);
    }
  }

  lemma PartsUnique(input: string, n1: bool, w1: string, f1: string, n2: bool, w2: string, f2: string)
    requires Grammatical(input, n1, w1, f1) && Grammatical(input, n2, w2, f2)
    ensures n1 == n2 && w1 == w2 && f1 == f2
  {
    GrammaticalIsScanned(input, n1, w1, f1);
    GrammaticalIsScanned(input, n2, w2, f2);
  }
}
