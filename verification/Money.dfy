/** Exact money: half-even rounding, currency conversion, and what rounding can do to a sum. */
module Money {
  import opened Outcomes

  function Abs(n: int): nat { if n < 0 then -n else n }

  function RoundHalfEven(numerator: int, denominator: int): int
    requires denominator > 0
  {
    var absolute := Abs(numerator);
    var quotient, remainder := absolute / denominator, absolute % denominator;
    var twice := remainder * 2;
    var rounded := if twice > denominator || (twice == denominator && quotient % 2 == 1) then quotient + 1
        else quotient;
    if numerator < 0 then -rounded else rounded
  }

  /** A nearest multiple of the denominator, the even one when two are equally near. */
  predicate IsHalfEven(rounded: int, numerator: int, denominator: int) {
    && 2 * Abs(rounded * denominator - numerator) <= denominator
    && (2 * Abs(rounded * denominator - numerator) == denominator ==> rounded % 2 == 0)
  }

  lemma RoundIsHalfEven(numerator: int, denominator: int)
    requires denominator > 0
    ensures IsHalfEven(RoundHalfEven(numerator, denominator), numerator, denominator)
  {
    RoundNonNegative(Abs(numerator), denominator);
    if numerator < 0 {
      NegatedProduct(RoundHalfEven(-numerator, denominator), denominator);
    }
  }

  lemma RoundNonNegative(a: nat, d: int)
    requires d > 0
    ensures IsHalfEven(RoundHalfEven(a, d), a, d)
  {
    var q, r := a / d, a % d;
    assert Abs(a) == a;
    DivisionParts(a, d);
    ProductGap(q + 1, q, d);
    var rounded := RoundHalfEven(a, d);
    if rounded == q {
      assert rounded * d - a == -r;
    } else {
      assert rounded == q + 1;
      assert rounded * d - a == d - r;
    }
  }

  lemma DivisionParts(a: nat, d: int)
    requires d > 0
    ensures a == (a / d) * d + a % d && 0 <= a % d < d
  {
  }

  lemma NegatedProduct(x: int, d: int)
    ensures (-x) * d == -(x * d)
  {
  }

  lemma ProductGap(x: int, y: int, d: int)
    requires x > y && d > 0
    ensures x == y + 1 ==> x * d == y * d + d
    ensures x >= y + 2 ==> x * d >= y * d + 2 * d
  {
    assert x * d - y * d == (x - y) * d;
    if x >= y + 2 {
      ProductAtLeast(x - y, 2, d);
    }
  }

  /** The two conditions leave no choice: half-even rounding is the only function meeting them. */
  lemma HalfEvenUnique(x: int, y: int, numerator: int, denominator: int)
    requires denominator > 0 && IsHalfEven(x, numerator, denominator) && IsHalfEven(y, numerator, denominator)
    ensures x == y
  {
    HalfEvenOrdered(x, y, numerator, numerator, denominator);
    HalfEvenOrdered(y, x, numerator, numerator, denominator);
  }

  lemma HalfEvenOrdered(x: int, y: int, n: int, m: int, d: int)
    requires d > 0 && n <= m && IsHalfEven(x, n, d) && IsHalfEven(y, m, d)
    ensures x <= y
  {
    if x > y {
      ProductGap(x, y, d);
      HalfEvenNotBelow(x, y, x * d, y * d, n, m, d);
    }
  }

  lemma HalfEvenNotBelow(x: int, y: int, xd: int, yd: int, n: int, m: int, d: int)
    requires d > 0 && n <= m && (x == y + 1 ==> xd == yd + d) && (x >= y + 2 ==> xd >= yd + 2 * d)
    requires 2 * Abs(xd - n) <= d && (2 * Abs(xd - n) == d ==> x % 2 == 0)
    requires 2 * Abs(yd - m) <= d && (2 * Abs(yd - m) == d ==> y % 2 == 0)
    ensures x <= y
  {
  }

  lemma ProductAtLeast(a: int, b: int, d: int)
    requires a >= b && d >= 0
    ensures a * d >= b * d
  {
  }

  lemma RoundMonotone(n: int, m: int, d: int)
    requires d > 0 && n <= m
    ensures RoundHalfEven(n, d) <= RoundHalfEven(m, d)
  {
    RoundIsHalfEven(n, d);
    RoundIsHalfEven(m, d);
    HalfEvenOrdered(RoundHalfEven(n, d), RoundHalfEven(m, d), n, m, d);
  }

  lemma RoundOdd(n: int, d: int)
    requires d > 0
    ensures RoundHalfEven(-n, d) == -RoundHalfEven(n, d)
  {
    assert Abs(-n) == Abs(n);
  }

  /** As an exact quotient, the rounded value is at most half a unit away. */
  lemma RoundWithinHalf(n: int, d: int)
    requires d > 0
    ensures -0.5 <= RoundHalfEven(n, d) as real - n as real / d as real <= 0.5
  {
    RoundIsHalfEven(n, d);
    QuotientOff(RoundHalfEven(n, d), n, d);
  }

  lemma QuotientOff(r: int, n: int, d: int)
    requires d > 0 && -d <= 2 * (r * d - n) <= d
    ensures -0.5 <= r as real - n as real / d as real <= 0.5
  {
    var q := n as real / d as real;
    DivideBack(n as real, d as real);
    IntegerProduct(r, d);
    BoundedFactor(r as real - q, d as real, r as real * d as real - n as real);
  }

  lemma DivideBack(n: real, d: real)
    requires d > 0.0
    ensures (n / d) * d == n
  {
  }

  lemma IntegerProduct(r: int, d: int)
    ensures (r * d) as real == r as real * d as real
  {
  }

  lemma BoundedFactor(x: real, d: real, product: real)
    requires d > 0.0 && x * d == product && -d <= 2.0 * product <= d
    ensures -0.5 <= x <= 0.5
  {
    if x > 0.5 {
      ScaleLess(0.5, x, d);
    } else if x < -0.5 {
      ScaleLess(x, -0.5, d);
    }
  }

  lemma ScaleLess(x: real, y: real, s: real)
    requires x < y && s > 0.0
    ensures x * s < y * s
  {
  }

  // ---- Conversion ----

  datatype Rate = Rate(currency: string, unscaled: int, scale: nat)
  datatype FxPolicy = FxPolicy(rates: seq<Rate>, targetScale: nat)
  datatype Amount = Amount(unscaled: int, scale: nat, currency: string)

  function Pow10(n: nat): (p: int)
    ensures p > 0
  {
    if n == 0 then 1 else 10 * Pow10(n - 1)
  }

  function FindRate(rates: seq<Rate>, currency: string): Option<Rate> {
    if rates == [] then None else if rates[0].currency == currency then Some(rates[0])
        else FindRate(rates[1..], currency)
  }

  function Numerator(unscaled: int, rate: int, targetPower: int): int {
    unscaled * rate * targetPower
  }

  function Convert(amount: Amount, policy: FxPolicy): Result<int> {
    var rate := FindRate(policy.rates, amount.currency);
    if rate.None? then Err
    else Ok(RoundHalfEven(Numerator(amount.unscaled, rate.value.unscaled, Pow10(policy.targetScale)),
                          Pow10(amount.scale + rate.value.scale)))
  }

  /** The converted amount before rounding, in target units. */
  ghost function ExactlyConverted(amount: Amount, policy: FxPolicy): real
    requires Convert(amount, policy).Ok?
  {
    var rate := FindRate(policy.rates, amount.currency).value;
    Numerator(amount.unscaled, rate.unscaled, Pow10(policy.targetScale)) as real / Pow10(amount.scale + rate.scale) as real
  }

  function SumConverted(amounts: seq<Amount>, policy: FxPolicy): Result<int> {
    if amounts == [] then Ok(0)
    else
      var head :- Convert(amounts[0], policy);
      var rest :- SumConverted(amounts[1..], policy);
      Ok(head + rest)
  }

  ghost function ExactSum(amounts: seq<Amount>, policy: FxPolicy): real
    requires SumConverted(amounts, policy).Ok?
  {
    if amounts == [] then 0.0 else ExactlyConverted(amounts[0], policy) + ExactSum(amounts[1..], policy)
  }

  /** A sum of n converted amounts is within n/2 target units of the exact sum. */
  lemma {:induction false} SumWithinHalfEach(amounts: seq<Amount>, policy: FxPolicy)
    requires SumConverted(amounts, policy).Ok?
    ensures -(|amounts| as real / 2.0) <= SumConverted(amounts, policy).value as real - ExactSum(amounts, policy)
    ensures SumConverted(amounts, policy).value as real - ExactSum(amounts, policy) <= |amounts| as real / 2.0
  {
    if amounts != [] {
      SumWithinHalfEach(amounts[1..], policy);
      var rate := FindRate(policy.rates, amounts[0].currency).value;
      RoundWithinHalf(Numerator(amounts[0].unscaled, rate.unscaled, Pow10(policy.targetScale)),
                      Pow10(amounts[0].scale + rate.scale));
    }
  }

  /** With a rate that is not negative, conversion keeps the sign and the order of amounts of one currency and scale. */
  lemma ConvertMonotone(a: Amount, b: Amount, policy: FxPolicy)
    requires a.currency == b.currency && a.scale == b.scale && a.unscaled <= b.unscaled
    requires Convert(a, policy).Ok? && FindRate(policy.rates, a.currency).value.unscaled >= 0
    ensures Convert(b, policy).Ok? && Convert(a, policy).value <= Convert(b, policy).value
    ensures a.unscaled >= 0 ==> Convert(a, policy).value >= 0
  {
    var rate := FindRate(policy.rates, a.currency).value;
    var p, d := Pow10(policy.targetScale), Pow10(a.scale + rate.scale);
    var n, m := Numerator(a.unscaled, rate.unscaled, p), Numerator(b.unscaled, rate.unscaled, p);
    NumeratorMonotone(a.unscaled, b.unscaled, rate.unscaled, p);
    RoundMonotone(n, m, d);
    if a.unscaled >= 0 {
      NumeratorMonotone(0, a.unscaled, rate.unscaled, p);
      RoundMonotone(0, n, d);
      RoundZero(d);
    }
  }

  lemma RoundZero(d: int)
    requires d > 0
    ensures RoundHalfEven(0, d) == 0
  {
    RoundOdd(0, d);
  }

  lemma NumeratorMonotone(x: int, y: int, rate: int, p: int)
    requires x <= y && rate >= 0 && p > 0
    ensures Numerator(x, rate, p) <= Numerator(y, rate, p) && Numerator(0, rate, p) == 0
  {
    ProductAtLeast(y, x, rate);
    ProductAtLeast(y * rate, x * rate, p);
  }

  // ---- Conversion, said of decimal fractions ----

  ghost function Tens(n: nat): (t: real)
    ensures t > 0.0
  {
    if n == 0 then 1.0 else 10.0 * Tens(n - 1)
  }

  /** The number that digits with so many decimals are written for. */
  ghost function Decimal(unscaled: int, scale: nat): real { unscaled as real / Tens(scale) }

  ghost predicate FirstRate(rates: seq<Rate>, rate: Rate) {
    exists i :: 0 <= i < |rates| && rates[i] == rate && forall j :: 0 <= j < i ==> rates[j].currency != rate.currency
  }

  lemma {:induction false} RateFound(rates: seq<Rate>, currency: string)
    ensures FindRate(rates, currency).None? <==> forall i :: 0 <= i < |rates| ==> rates[i].currency != currency
    ensures forall rate :: FindRate(rates, currency) == Some(rate) <==> rate.currency == currency && FirstRate(rates, rate)
  {
    if rates != [] {
      RateFound(rates[1..], currency);
      assert forall i :: 0 < i < |rates| ==> rates[i] == rates[1..][i - 1];
      forall rate: Rate | rates[0].currency != currency && rate.currency == currency
        ensures FirstRate(rates, rate) <==> FirstRate(rates[1..], rate)
      {
        FirstRateLater(rates, rate);
      }
      assert rates[0].currency == currency ==> FirstRate(rates, rates[0]);
    }
  }

  lemma FirstRateLater(rates: seq<Rate>, rate: Rate)
    requires rates != [] && rates[0].currency != rate.currency
    ensures FirstRate(rates, rate) <==> FirstRate(rates[1..], rate)
  {
    var tail := rates[1..];
    if i :| 0 <= i < |rates| && rates[i] == rate && forall j :: 0 <= j < i ==> rates[j].currency != rate.currency {
      assert tail[i - 1] == rate && forall j :: 0 <= j < i - 1 ==> tail[j] == rates[j + 1];
    }
    if i :| 0 <= i < |tail| && tail[i] == rate && forall j :: 0 <= j < i ==> tail[j].currency != rate.currency {
      assert rates[i + 1] == rate && forall j :: 0 < j < i + 1 ==> rates[j] == tail[j - 1];
    }
  }

  lemma {:induction false} TensPositive(n: nat)
    ensures Tens(n) > 0.0 && Pow10(n) as real == Tens(n)
  {
    if n > 0 {
      TensPositive(n - 1);
    }
  }

  lemma {:induction false} TensAdd(a: nat, b: nat)
    ensures Tens(a + b) == Tens(a) * Tens(b)
  {
    if a > 0 {
      TensAdd(a - 1, b);
    }
  }

  lemma ProductOfFractions(x: real, y: real, p: real, a: real, b: real)
    requires a > 0.0 && b > 0.0
    ensures x * y * p / (a * b) == x / a * (y / b) * p
  {
    var u, v := x / a, y / b;
    DivideBack(x, a);
    DivideBack(y, b);
    assert x * y * p == (u * a) * (v * b) * p;
    assert (u * a) * (v * b) * p == (u * v * p) * (a * b);
    CancelFactor(u * v * p, a * b);
  }

  lemma CancelFactor(q: real, d: real)
    requires d > 0.0
    ensures q * d / d == q
  {
  }

  /** An amount of a listed currency converts; the result is within half a target unit of the amount times the rate. */
  lemma ConvertMeans(amount: Amount, policy: FxPolicy, rate: Rate)
    requires rate.currency == amount.currency && FirstRate(policy.rates, rate)
    ensures Convert(amount, policy).Ok? && Near(Convert(amount, policy).value, Exact(amount, rate, policy.targetScale))
  {
    RateFound(policy.rates, amount.currency);
    ConvertedBy(amount, policy, rate);
  }

  lemma ConvertedBy(amount: Amount, policy: FxPolicy, rate: Rate)
    requires FindRate(policy.rates, amount.currency) == Some(rate)
    ensures Convert(amount, policy).Ok? && Near(Convert(amount, policy).value, Exact(amount, rate, policy.targetScale))
  {
    var n, d := ExactQuotient(amount, rate, policy.targetScale);
    RoundedNear(n, d, Exact(amount, rate, policy.targetScale));
    assert Convert(amount, policy).value == RoundHalfEven(n, d);
  }

  ghost predicate Near(rounded: int, exact: real) { -0.5 <= rounded as real - exact <= 0.5 }

  lemma RoundedNear(n: int, d: int, exact: real)
    requires d > 0 && n as real / d as real == exact
    ensures Near(RoundHalfEven(n, d), exact)
  {
    RoundWithinHalf(n, d);
  }

  ghost function Exact(amount: Amount, rate: Rate, target: nat): real {
    Decimal(amount.unscaled, amount.scale) * Decimal(rate.unscaled, rate.scale) * Tens(target)
  }

  lemma ExactQuotient(amount: Amount, rate: Rate, target: nat) returns (n: int, d: int)
    ensures n == Numerator(amount.unscaled, rate.unscaled, Pow10(target)) && d == Pow10(amount.scale + rate.scale)
    ensures d > 0 && n as real / d as real == Exact(amount, rate, target)
  {
    n, d := Numerator(amount.unscaled, rate.unscaled, Pow10(target)), Pow10(amount.scale + rate.scale);
    ExactProduct(amount.unscaled, amount.scale, rate.unscaled, rate.scale, target);
  }


  lemma SameQuotient(n: real, d: real, x: real, y: real, p: real, a: real, b: real, u: real, v: real)
    requires a > 0.0 && b > 0.0 && n == x * y * p && d == a * b && u == x / a && v == y / b
    ensures d != 0.0 && n / d == u * v * p
  {
    ProductOfFractions(x, y, p, a, b);
  }

  lemma ProductOfPowers(a: nat, b: nat)
    ensures Pow10(a + b) as real == Tens(a) * Tens(b)
  {
    TensPositive(a + b);
    TensAdd(a, b);
  }

  lemma NumeratorIs(x: int, y: int, target: nat)
    ensures Numerator(x, y, Pow10(target)) as real == x as real * y as real * Tens(target)
  {
    TensPositive(target);
    RealProduct(x, y, Pow10(target));
  }

  lemma ExactProduct(x: int, a: nat, y: int, b: nat, target: nat)
    ensures Numerator(x, y, Pow10(target)) as real / Pow10(a + b) as real
         == Decimal(x, a) * Decimal(y, b) * Tens(target)
  {
    NumeratorIs(x, y, target);
    ProductOfPowers(a, b);
    SameQuotient(Numerator(x, y, Pow10(target)) as real, Pow10(a + b) as real, x as real, y as real, Tens(target), Tens(a), Tens(b),
                 Decimal(x, a), Decimal(y, b));
  }

  lemma RealProduct(x: int, y: int, p: int)
    ensures (x * y * p) as real == x as real * y as real * p as real
  {
    IntegerProduct(x, y);
    IntegerProduct(x * y, p);
  }

  /** Without a rate for its currency an amount does not convert. */
  lemma ConvertsExactlyWhen(amount: Amount, policy: FxPolicy)
    ensures Convert(amount, policy).Ok?
       <==> exists i :: 0 <= i < |policy.rates| && policy.rates[i].currency == amount.currency
  {
    RateFound(policy.rates, amount.currency);
  }
}
