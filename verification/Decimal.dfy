/** Decimal digit strings: their values, and the texts Rust prints for natural numbers. */
module Decimal {

  predicate IsDigit(c: char) {
    '0' <= c <= '9'
  }

  predicate AllDigits(s: string) {
    forall i :: 0 <= i < |s| ==> IsDigit(s[i])
  }

  function Value(s: string): nat
    requires AllDigits(s)
  {
    if s == "" then 0 else 10 * Value(s[..|s| - 1]) + (s[|s| - 1] - '0') as int
  }

  function Pow10(n: nat): (p: nat)
    ensures p > 0
  {
    if n == 0 then 1 else 10 * Pow10(n - 1)
  }

  function Digit(n: nat): (c: char)
    requires n < 10
    ensures IsDigit(c) && (c - '0') as int == n
  {
    '0' + n as char
  }

  // The shortest text of a number, as the `{}` placeholder prints it.
  function Digits(n: nat): (s: string)
    ensures s != "" && AllDigits(s)
  {
    if n < 10 then [Digit(n)] else Digits(n / 10) + [Digit(n % 10)]
  }

  function Zeros(n: nat): (s: string)
    ensures |s| == n && forall i :: 0 <= i < n ==> s[i] == '0'
  {
    if n == 0 then "" else "0" + Zeros(n - 1)
  }

  // The text of a number filled with zeros to a width, as `{:0width$}` prints it.
  function ZeroPadded(n: nat, width: nat): (s: string)
    ensures AllDigits(s)
  {
    var digits := Digits(n);
    if |digits| >= width then digits else Zeros(width - |digits|) + digits
  }

  function Quotient(n: nat, d: nat): (q: nat)
    requires d > 0
  {
    n / d
  }

  function Remainder(n: nat, d: nat): (r: nat)
    requires d > 0
    ensures r < d && n == Quotient(n, d) * d + r
  {
    n % d
  }

  predicate NoLeadingZero(s: string) {
    s == "0" || (s != "" && s[0] != '0')
  }

  // Where the first '.' stands, or the length of the text.
  function PointAt(s: string): (p: nat)
    ensures p <= |s|
    ensures forall i :: 0 <= i < p ==> s[i] != '.'
    ensures p < |s| ==> s[p] == '.'
  {
    if s == "" || s[0] == '.' then 0 else 1 + PointAt(s[1..])
  }

  // The parts around the first '.'; without one the second part is empty.
  function SplitPoint(s: string): (string, string) {
    var p := PointAt(s);
    (s[..p], if p < |s| then s[p + 1..] else "")
  }

  lemma FirstPoint(s: string, p: nat)
    requires p < |s| && s[p] == '.' && forall i :: 0 <= i < p ==> s[i] != '.'
    ensures PointAt(s) == p
  {
  }

  lemma {:induction false} PowerSplit(a: nat, b: nat)
    ensures Pow10(a + b) == Pow10(a) * Pow10(b)
  {
    if a > 0 {
      PowerSplit(a - 1, b);
    }
  }

  lemma {:induction false} PowerMonotone(a: nat, b: nat)
    requires a <= b
    ensures Pow10(a) <= Pow10(b)
  {
    if a < b {
      PowerMonotone(a, b - 1);
    }
  }

  lemma {:induction false} ValueConcat(a: string, b: string)
    requires AllDigits(a) && AllDigits(b)
    ensures AllDigits(a + b)
    ensures Value(a + b) == Value(a) * Pow10(|b|) + Value(b)
  {
    if b == "" {
      assert a + b == a;
    } else {
      var front, last := b[..|b| - 1], (b[|b| - 1] - '0') as int;
      ValueConcat(a, front);
      var power := Pow10(|front|);
      assert (a + b)[..|a + b| - 1] == a + front;
      assert Value(a + b) == 10 * Value(a + front) + last;
      assert Value(a) * Pow10(|b|) == 10 * (Value(a) * power) by {
        Times10(Value(a), power);
      }
    }
  }

  lemma Times10(a: nat, power: nat)
    ensures a * (10 * power) == 10 * (a * power)
  {
  }

  lemma {:induction false} ValueBound(s: string)
    requires AllDigits(s)
    ensures Value(s) < Pow10(|s|)
  {
    if s != "" {
      ValueBound(s[..|s| - 1]);
    }
  }

  lemma {:induction false} ValueZeros(n: nat)
    ensures AllDigits(Zeros(n)) && Value(Zeros(n)) == 0
  {
    if n > 0 {
      ValueZeros(n - 1);
      ValueConcat("0", Zeros(n - 1));
    }
  }

  lemma {:induction false} DigitsValue(n: nat)
    ensures Value(Digits(n)) == n
    ensures NoLeadingZero(Digits(n))
    ensures forall width: nat :: 0 < width && n < Pow10(width) ==> |Digits(n)| <= width
  {
    if n >= 10 {
      DigitsValue(n / 10);
      var front := Digits(n / 10);
      assert (front + [Digit(n % 10)])[..|front|] == front;
      forall width: nat | 0 < width && n < Pow10(width)
        ensures |Digits(n)| <= width
      {
        assert n / 10 < Pow10(width - 1);
        assert width > 1;
      }
    }
  }

  lemma ZeroPaddedValue(n: nat, width: nat)
    requires 0 < width && n < Pow10(width)
    ensures |ZeroPadded(n, width)| == width && Value(ZeroPadded(n, width)) == n
  {
    DigitsValue(n);
    PaddingValue(width - |Digits(n)|, Digits(n));
  }

  lemma {:induction false} PaddingValue(zeros: nat, s: string)
    requires AllDigits(s)
    ensures AllDigits(Zeros(zeros) + s) && Value(Zeros(zeros) + s) == Value(s)
  {
    if zeros == 0 {
      assert Zeros(zeros) + s == s;
    } else {
      PaddingValue(zeros - 1, s);
      assert Zeros(zeros) + s == "0" + (Zeros(zeros - 1) + s);
      LeadingZero(Zeros(zeros - 1) + s);
    }
  }

  lemma {:induction false} LeadingZero(s: string)
    requires AllDigits(s)
    ensures AllDigits("0" + s) && Value("0" + s) == Value(s)
  {
    if s != "" {
      LeadingZero(s[..|s| - 1]);
      assert ("0" + s)[..|s|] == "0" + s[..|s| - 1];
    }
  }

  // Two digit strings of one length and one value are the same string.
  lemma {:induction false} ValueInjective(a: string, b: string)
    requires AllDigits(a) && AllDigits(b) && |a| == |b| && Value(a) == Value(b)
    ensures a == b
  {
    if a != "" {
      var n := |a| - 1;
      ValueInjective(a[..n], b[..n]);
      assert a == a[..n] + [a[n]] && b == b[..n] + [b[n]];
    }
  }

  // The shortest text is the only one without a leading zero.
  lemma {:induction false} DigitsUnique(s: string)
    requires AllDigits(s) && NoLeadingZero(s)
    ensures Digits(Value(s)) == s
  {
    var n := |s| - 1;
    assert s == s[..n] + [s[n]];
    if n > 0 {
      DigitsUnique(s[..n]);
      LeadingDigit(s[..n]);
      DigitAppended(Value(s[..n]), s[n]);
    }
  }

  lemma DigitAppended(m: nat, c: char)
    requires m > 0 && IsDigit(c)
    ensures Digits(10 * m + (c - '0') as int) == Digits(m) + [c]
  {
    var d := (c - '0') as int;
    assert (10 * m + d) / 10 == m && (10 * m + d) % 10 == d;
  }

  lemma {:induction false} LeadingDigit(s: string)
    requires AllDigits(s) && s != "" && s[0] != '0'
    ensures Value(s) > 0
  {
    if |s| > 1 {
      LeadingDigit(s[..|s| - 1]);
    }
  }

  lemma QuotientUnique(n: nat, d: nat, q: nat, r: nat)
    requires n == q * d + r && r < d
    ensures Quotient(n, d) == q && Remainder(n, d) == r
  {
    var q', r' := Quotient(n, d), Remainder(n, d);
    if q' > q {
      MultipleGap(q', q, d);
    } else if q > q' {
      MultipleGap(q, q', d);
    }
  }

  lemma {:induction false} MultipleGap(a: nat, b: nat, d: nat)
    requires a > b
    ensures a * d >= b * d + d
  {
    assert a * d == (a - 1) * d + d;
    if a > b + 1 {
      MultipleGap(a - 1, b, d);
    }
  }
}
