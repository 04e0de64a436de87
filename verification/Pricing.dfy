/** Credit pricing: one exact rounding up, over unbounded integers and over 64-bit ones. */
module Pricing {

  const MAX_INT64 := 0x7FFF_FFFF_FFFF_FFFF

  newtype int64 = x: int | -0x8000_0000_0000_0000 <= x <= 0x7FFF_FFFF_FFFF_FFFF

  const CREDIT_MICRO_USD: int64 := 10
  const MULTIPLIER_NUMERATOR: int64 := 7
  const MULTIPLIER_DENOMINATOR: int64 := 2

  datatype Error = InvalidCost | InvalidDuration | PricingOverflow

  datatype Result = Ok(credits: int64) | Err(error: Error)

  function Product(values: seq<int64>): int {
    if values == [] then 1 else Product(values[..|values| - 1]) * (values[|values| - 1] as int)
  }

  predicate AnyNegative(values: seq<int64>) {
    exists k :: 0 <= k < |values| && values[k] < 0
  }

  predicate AnyNotPositive(values: seq<int64>) {
    exists k :: 0 <= k < |values| && values[k] <= 0
  }

  /** q is n / d, rounded up. */
  predicate IsCeiling(q: int, n: int, d: int) {
    d * (q - 1) < n <= d * q
  }

  /** What a price must be: the exact ceiling of the quotient of the products, if 64 bits hold it. */
  ghost predicate IsPrice(r: Result, numerators: seq<int64>, denominators: seq<int64>) {
    if AnyNegative(numerators) then r == Err(InvalidCost)
    else if AnyNotPositive(denominators) then r == Err(PricingOverflow)
    else match r
         case Ok(q) => IsCeiling(q as int, Product(numerators), Product(denominators))
         case Err(e) => e.PricingOverflow? && Product(numerators) > Product(denominators) * MAX_INT64
  }

  lemma ProductMore(values: seq<int64>, k: nat)
    requires k < |values|
    ensures Product(values[..k + 1]) == Product(values[..k]) * (values[k] as int)
  {
    assert values[..k + 1][..k] == values[..k];
  }

  lemma ProductsGrow(a: int, b: int)
    requires a >= 0 && b >= 0
    ensures a * b >= 0 && (a > 0 && b > 0 ==> a * b > 0)
  {}

  lemma RoundUp(n: int, d: int)
    requires n >= 0 && d > 0
    ensures var q := n / d + if n % d != 0 then 1 else 0; q >= 0 && IsCeiling(q, n, d)
  {
    var q := n / d;
    assert n == d * q + n % d;
    assert d * (q + 1) == d * q + d && d * (q - 1) == d * q - d;
  }

  lemma TimesGrows(d: int, a: int, b: int)
    requires d > 0
    ensures a <= b <==> d * a <= d * b
  {
    var gap := if a <= b then b - a else a - b;
    assert d * b == d * a + d * (b - a);
    assert d * (b - a) == if a <= b then d * gap else -(d * gap);
    TimesPositive(d, gap);
  }

  lemma TimesPositive(d: int, n: nat)
    requires d > 0
    ensures d * n >= 0 && (n > 0 ==> d * n > 0)
  {}

  lemma TooBig(q: int, n: int, d: int, most: int)
    requires IsCeiling(q, n, d) && d > 0 && q > most
    ensures n > d * most
  {
    TimesGrows(d, most, q - 1);
  }

  method CheckedCeilProduct(numerators: seq<int64>, denominators: seq<int64>) returns (r: Result)
    ensures IsPrice(r, numerators, denominators)
  {
    var numerator := 1;
    for k := 0 to |numerators|
      invariant numerator >= 0 && numerator == Product(numerators[..k])
      invariant !AnyNegative(numerators[..k])
    {
      if numerators[k] < 0 { return Err(InvalidCost); }
      ProductMore(numerators, k);
      ProductsGrow(numerator, numerators[k] as int);
      numerator := numerator * (numerators[k] as int);
    }
    assert numerators[..|numerators|] == numerators;
    var denominator := 1;
    for k := 0 to |denominators|
      invariant denominator > 0 && denominator == Product(denominators[..k])
      invariant !AnyNotPositive(denominators[..k])
    {
      if denominators[k] <= 0 { return Err(PricingOverflow); }
      ProductMore(denominators, k);
      ProductsGrow(denominator, denominators[k] as int);
      denominator := denominator * (denominators[k] as int);
    }
    assert denominators[..|denominators|] == denominators;
    RoundUp(numerator, denominator);
    var quotient := numerator / denominator;
    if numerator % denominator != 0 {
      quotient := quotient + 1;
    }
    if quotient > MAX_INT64 {
      TooBig(quotient, numerator, denominator, MAX_INT64);
      return Err(PricingOverflow);
    }
    return Ok(quotient as int64);
  }

  // ----- the fast path -----

  function CeilDiv(numerator: int64, denominator: int64): int64
    requires numerator >= 0 && denominator > 1
  {
    numerator / denominator + if numerator % denominator != 0 then 1 else 0
  }

  /** ceil(providerMicroUSD * 7 / 20) without leaving 64 bits. */
  function CreditsFromProviderCost(providerMicroUSD: int64): Result {
    if providerMicroUSD < 0 then Err(InvalidCost)
    else if providerMicroUSD == 0 then Ok(0)
    else if providerMicroUSD > 0x7FFF_FFFF_FFFF_FFFF / MULTIPLIER_NUMERATOR then Err(PricingOverflow)
    else Ok(CeilDiv(providerMicroUSD * MULTIPLIER_NUMERATOR, CREDIT_MICRO_USD * MULTIPLIER_DENOMINATOR))
  }

  method CreditsFromProviderCostNanoUSD(providerNanoUSD: int64) returns (r: Result)
    ensures IsNanoPrice(r, providerNanoUSD)
    ensures IsPrice(r, [providerNanoUSD, MULTIPLIER_NUMERATOR], [1_000, CREDIT_MICRO_USD, MULTIPLIER_DENOMINATOR])
  {
    if providerNanoUSD < 0 {
      assert [providerNanoUSD, MULTIPLIER_NUMERATOR][0] < 0;
      return Err(InvalidCost);
    }
    r := CheckedCeilProduct(
      [providerNanoUSD, MULTIPLIER_NUMERATOR], [1_000, CREDIT_MICRO_USD, MULTIPLIER_DENOMINATOR]);
    NanoProducts(providerNanoUSD);
  }

  lemma NanoProducts(providerNanoUSD: int64)
    ensures Product([providerNanoUSD, MULTIPLIER_NUMERATOR]) == providerNanoUSD as int * 7
    ensures Product([1_000, CREDIT_MICRO_USD, MULTIPLIER_DENOMINATOR]) == 20_000
  {
    var n, d := [providerNanoUSD, MULTIPLIER_NUMERATOR], [1_000 as int64, CREDIT_MICRO_USD, MULTIPLIER_DENOMINATOR];
    assert n[..1] == [providerNanoUSD] && n[..1][..0] == [];
    assert Product(n[..1]) == providerNanoUSD as int;
    assert d[..2] == [1_000 as int64, CREDIT_MICRO_USD] && d[..2][..1] == [1_000 as int64] && d[..2][..1][..0] == [];
    assert Product(d[..2][..1]) == 1_000;
    assert Product(d[..2]) == 10_000;
  }

  ghost predicate IsNanoPrice(r: Result, nano: int64) {
    if nano < 0 then r == Err(InvalidCost)
    else r.Ok? && IsCeiling(r.credits as int, nano as int * 7, 20_000)
  }

  lemma OneCeiling(q: int, p: int, n: int, d: int)
    requires d > 0 && IsCeiling(q, n, d) && IsCeiling(p, n, d)
    ensures q == p
  {
    TimesGrows(d, q, p - 1);
    TimesGrows(d, p, q - 1);
  }

  /** The fast path is exact where it answers, and refuses exactly the costs above a seventh of the
      64-bit range, although their price would fit as well. */
  lemma FastPathIsExact(micro: int64)
    requires micro >= 0
    ensures var r, q := CreditsFromProviderCost(micro), (micro as int * 7 + 19) / 20;
            && IsCeiling(q, micro as int * 7, 20) && q <= MAX_INT64
            && r == if micro as int > MAX_INT64 / 7 then Err(PricingOverflow) else Ok(q as int64)
  {}

  /** A cost in micro-dollars is priced the same on both paths, whenever both accept it. */
  lemma PathsAgree(micro: int64, nano: int64, exact: Result)
    requires micro >= 0 && nano as int == 1_000 * (micro as int) && IsNanoPrice(exact, nano)
    requires CreditsFromProviderCost(micro).Ok?
    ensures exact == CreditsFromProviderCost(micro)
  {
    FastPathIsExact(micro);
    OneCeiling(exact.credits as int, (micro as int * 7 + 19) / 20, nano as int * 7, 20_000);
  }

  // ----- policies and audio -----

  method CreditsFromProviderCostNanoUSDWithPolicy(
    providerNanoUSD: int64, creditMicroUSD: int64, multiplierNumerator: int64, multiplierDenominator: int64)
    returns (r: Result)
    ensures if providerNanoUSD < 0 then r == Err(InvalidCost)
            else if creditMicroUSD <= 0 || multiplierNumerator <= 0 || multiplierDenominator <= 0
            then r == Err(PricingOverflow)
            else IsPrice(r, [providerNanoUSD, multiplierNumerator], [1_000, creditMicroUSD, multiplierDenominator])
  {
    if providerNanoUSD < 0 { return Err(InvalidCost); }
    if creditMicroUSD <= 0 || multiplierNumerator <= 0 || multiplierDenominator <= 0 { return Err(PricingOverflow); }
    r := CheckedCeilProduct([providerNanoUSD, multiplierNumerator], [1_000, creditMicroUSD, multiplierDenominator]);
  }

  method CreditsForAudioWithPolicy(
    durationSeconds: int64, nanoUSDPerHour: int64, creditMicroUSD: int64, multiplierNumerator: int64,
    multiplierDenominator: int64) returns (r: Result)
    ensures if durationSeconds < 0 || nanoUSDPerHour < 0 then r == Err(InvalidDuration)
            else if durationSeconds == 0 || nanoUSDPerHour == 0 then r == Ok(0)
            else IsPrice(
                   r, [durationSeconds, nanoUSDPerHour, multiplierNumerator],
                   [3_600, 1_000, creditMicroUSD, multiplierDenominator])
  {
    if durationSeconds < 0 || nanoUSDPerHour < 0 { return Err(InvalidDuration); }
    if durationSeconds == 0 || nanoUSDPerHour == 0 { return Ok(0); }
    r := CheckedCeilProduct(
      [durationSeconds, nanoUSDPerHour, multiplierNumerator], [3_600, 1_000, creditMicroUSD, multiplierDenominator]);
  }

  // ----- prices together -----

  /** A larger cost is priced no lower. */
  lemma PriceGrows(a: int, b: int, d: int, p: int, q: int)
    requires d > 0 && a <= b && IsCeiling(p, a, d) && IsCeiling(q, b, d)
    ensures p <= q
  {
    TimesGrows(d, q, p - 1);
  }

  /** None of the factors is negative, and none of the divisors is zero or negative. */
  predicate AreCosts(numerators: seq<int64>, denominators: seq<int64>) {
    !AnyNegative(numerators) && !AnyNotPositive(denominators)
  }

  lemma {:induction false} ProductPositive(values: seq<int64>)
    ensures !AnyNegative(values) ==> Product(values) >= 0
    ensures !AnyNotPositive(values) ==> Product(values) > 0
  {
    if values != [] {
      var front, last := values[..|values| - 1], values[|values| - 1] as int;
      ProductPositive(front);
      assert !AnyNegative(values) ==> !AnyNegative(front) && last >= 0;
      assert !AnyNotPositive(values) ==> !AnyNotPositive(front) && last > 0;
      if !AnyNegative(values) { ProductsGrow(Product(front), last); }
      if !AnyNotPositive(values) { ProductsGrow(Product(front), last); }
    }
  }

  /** What is billed grows with its cost: a larger cost is priced no lower, and if its price fits in 64
      bits, so does the price of the smaller one. */
  lemma PriceIsMonotone(a: seq<int64>, b: seq<int64>, denominators: seq<int64>, p: Result, q: Result)
    requires AreCosts(a, denominators) && AreCosts(b, denominators) && Product(a) <= Product(b)
    requires IsPrice(p, a, denominators) && IsPrice(q, b, denominators)
    ensures q.Ok? ==> p.Ok? && p.credits <= q.credits
  {
    var d := Product(denominators);
    ProductPositive(denominators);
    if q.Ok? {
      TimesGrows(d, q.credits as int, MAX_INT64);
      assert d * MAX_INT64 == Product(denominators) * MAX_INT64;
      assert p.Ok?;
      PriceGrows(Product(a), Product(b), d, p.credits as int, q.credits as int);
    }
  }

  function Sum(values: seq<int>): int {
    if values == [] then 0 else Sum(values[..|values| - 1]) + values[|values| - 1]
  }

  ghost predicate ArePrices(prices: seq<int>, costs: seq<int>, d: int) {
    |prices| == |costs| && forall k :: 0 <= k < |costs| ==> IsCeiling(prices[k], costs[k], d)
  }

  lemma {:induction false} PartsBound(prices: seq<int>, costs: seq<int>, d: int)
    requires d > 0 && ArePrices(prices, costs, d)
    ensures d * (Sum(prices) - |prices|) + |prices| <= Sum(costs) <= d * Sum(prices)
  {
    if prices != [] {
      var n := |prices| - 1;
      var front := Sum(prices[..n]);
      PartsBound(prices[..n], costs[..n], d);
      assert IsCeiling(prices[n], costs[n], d);
      assert d * (front + prices[n]) == d * front + d * prices[n];
      assert d * (front + prices[n] - n - 1) == d * (front - n) + d * (prices[n] - 1);
    }
  }

  /** Charged in n parts, a cost comes to at least its own price, and to less than n credits more. */
  lemma PartsCostLittleMore(prices: seq<int>, costs: seq<int>, d: int, whole: int)
    requires d > 0 && costs != [] && ArePrices(prices, costs, d) && IsCeiling(whole, Sum(costs), d)
    ensures whole <= Sum(prices) <= whole + |costs| - 1
  {
    PartsBound(prices, costs, d);
    TimesGrows(d, Sum(prices), whole - 1);
    TimesGrows(d, whole, Sum(prices) - |prices|);
  }

  function Products(parts: seq<seq<int64>>): seq<int> {
    seq(|parts|, k requires 0 <= k < |parts| => Product(parts[k]))
  }

  function Credits(prices: seq<Result>): seq<int> {
    seq(|prices|, k requires 0 <= k < |prices| => if prices[k].Ok? then prices[k].credits as int else 0)
  }

  /** Charges that are priced one by one, when every price fits. */
  ghost predicate ArePriced(prices: seq<Result>, parts: seq<seq<int64>>, denominators: seq<int64>) {
    && |prices| == |parts|
    && forall k :: 0 <= k < |parts| ==>
         prices[k].Ok? && AreCosts(parts[k], denominators) && IsPrice(prices[k], parts[k], denominators)
  }

  /** Charged in n parts, a cost comes to at least its own price, and to less than n credits more,
      whatever the policy. */
  lemma SplitChargeCostsLittleMore(
    parts: seq<seq<int64>>, whole: seq<int64>, denominators: seq<int64>, prices: seq<Result>, price: Result)
    requires parts != [] && ArePriced(prices, parts, denominators) && Product(whole) == Sum(Products(parts))
    requires AreCosts(whole, denominators) && price.Ok? && IsPrice(price, whole, denominators)
    ensures price.credits as int <= Sum(Credits(prices)) <= price.credits as int + |parts| - 1
  {
    ProductPositive(denominators);
    PartsCostLittleMore(Credits(prices), Products(parts), Product(denominators), price.credits as int);
  }

  function WithFirst(costs: seq<int64>, factors: seq<int64>): seq<seq<int64>> {
    seq(|costs|, k requires 0 <= k < |costs| => [costs[k]] + factors)
  }

  function Ints(values: seq<int64>): seq<int> {
    seq(|values|, k requires 0 <= k < |values| => values[k] as int)
  }

  lemma {:induction false} ProductFirst(cost: int64, factors: seq<int64>)
    ensures Product([cost] + factors) == cost as int * Product(factors)
  {
    var all := [cost] + factors;
    if factors == [] {
      assert all[..0] == [];
    } else {
      var front := factors[..|factors| - 1];
      assert all[..|all| - 1] == [cost] + front;
      ProductFirst(cost, front);
      Regroup(cost as int, Product(front), factors[|factors| - 1] as int);
    }
  }

  lemma Regroup(a: int, b: int, c: int)
    ensures a * b * c == a * (b * c)
  {}

  /** Costs that differ in their first factor add up as that factor does. */
  lemma {:induction false} FirstFactorsAdd(costs: seq<int64>, factors: seq<int64>)
    ensures Sum(Products(WithFirst(costs, factors))) == Sum(Ints(costs)) * Product(factors)
  {
    if costs != [] {
      var n := |costs| - 1;
      FirstFactorsAdd(costs[..n], factors);
      ProductFirst(costs[n], factors);
      assert Products(WithFirst(costs, factors))[..n] == Products(WithFirst(costs[..n], factors));
      assert Ints(costs)[..n] == Ints(costs[..n]);
      var front, last, f := Sum(Ints(costs[..n])), costs[n] as int, Product(factors);
      assert (front + last) * f == front * f + last * f;
    }
  }

  /** A provider's cost, or the length of a recording, charged in parts under one policy. */
  lemma PartsOfACharge(
    costs: seq<int64>, whole: int64, factors: seq<int64>, denominators: seq<int64>, prices: seq<Result>, price: Result)
    requires costs != [] && whole as int == Sum(Ints(costs))
    requires ArePriced(prices, WithFirst(costs, factors), denominators)
    requires AreCosts([whole] + factors, denominators) && price.Ok? && IsPrice(price, [whole] + factors, denominators)
    ensures price.credits as int <= Sum(Credits(prices)) <= price.credits as int + |costs| - 1
  {
    FirstFactorsAdd(costs, factors);
    ProductFirst(whole, factors);
    SplitChargeCostsLittleMore(WithFirst(costs, factors), [whole] + factors, denominators, prices, price);
  }
}
