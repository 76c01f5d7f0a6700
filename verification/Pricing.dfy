/**
 The pricing engine: integer costs with 64-bit overflow checks, rounding up to credits,
 and the margin by which a reserve estimate exceeds the nominal cost.
 */
module Pricing {
  import opened Basics
  import opened Int64

  type int64 = x: int | InRange(x) witness 0

  /** Micro-units per million tokens. */
  datatype Prices = Prices(input: int64, output: int64, cached: int64, reasoning: int64)

  datatype Pricer = Pricer(perCredit: int64, models: map<string, Prices>)

  datatype Usage = Usage(model: string, input: int64, output: int64, cached: int64, reasoning: int64)

  const MICRO_UNITS_PER_MTOK: int := 1_000_000
  const DEFAULT_PER_CREDIT: int := 1000
  const MARGIN_NUM: int := 6
  const MARGIN_DEN: int := 5

  /** Exact weighted token cost, before division by a million. */
  function Numerator(m: Prices, u: Usage): int {
    u.input * m.input + u.output * m.output + u.cached * m.cached + u.reasoning * m.reasoning
  }

  predicate NonNegative(m: Prices, u: Usage) {
    && u.input >= 0 && u.output >= 0 && u.cached >= 0 && u.reasoning >= 0
    && m.input >= 0 && m.output >= 0 && m.cached >= 0 && m.reasoning >= 0
  }

  /** The inputs that `cost` must price: nothing negative, and an exact numerator that fits. */
  predicate Priceable(m: Prices, u: Usage) {
    NonNegative(m, u) && Numerator(m, u) <= MAX
  }

  /** Rounding-up division in 64 bits, as the program computes it. */
  function IntDivCeil(a: int64, b: int64): int64
    requires b > 0
  {
    if a <= 0 then 0 else (QuotInRange(Wrap(a + b - 1), b); Quot(Wrap(a + b - 1), b))
  }

  lemma QuotInRange(a: int, b: int)
    requires b > 0 && InRange(a)
    ensures InRange(Quot(a, b))
  {
    if a >= 0 {
      DivShrinks(a, b);
    } else {
      DivShrinks(-a, b);
    }
  }

  /** The micro-units per credit that conversions use: a size that is not positive means the default. */
  function CreditSize(p: Pricer): (r: int64)
    ensures r > 0
  {
    if p.perCredit <= 0 then DEFAULT_PER_CREDIT else p.perCredit
  }

  // ---- The overflow-checked sum ---------------------------------------------------------

  function Pairs(m: Prices, u: Usage): seq<(int64, int64)> {
    [(u.input, m.input), (u.output, m.output), (u.cached, m.cached), (u.reasoning, m.reasoning)]
  }

  function Times(a: int, b: int): int { a * b }

  /** Exact sum of the first `n` products. */
  function Dot(values: seq<(int64, int64)>, n: nat): int
    requires n <= |values|
  {
    if n == 0 then 0 else Dot(values, n - 1) + Times(values[n - 1].0, values[n - 1].1)
  }

  lemma TimesNonNegative(a: int, b: int)
    requires a >= 0 && b >= 0
    ensures Times(a, b) >= 0
  {
  }

  lemma {:induction false} DotMonotone(values: seq<(int64, int64)>, i: nat, n: nat)
    requires i <= n <= |values|
    requires forall k :: 0 <= k < n ==> values[k].0 >= 0 && values[k].1 >= 0
    ensures 0 <= Dot(values, i) <= Dot(values, n)
  {
    if n > 0 {
      TimesNonNegative(values[n - 1].0, values[n - 1].1);
      if i < n {
        DotMonotone(values, i, n - 1);
      } else {
        DotMonotone(values, n - 1, n - 1);
      }
    }
  }

  lemma DotIsNumerator(m: Prices, u: Usage)
    ensures Dot(Pairs(m, u), 4) == Numerator(m, u)
  {
    var v := Pairs(m, u);
    assert Dot(v, 4) == Dot(v, 3) + Times(v[3].0, v[3].1);
    assert Dot(v, 3) == Dot(v, 2) + Times(v[2].0, v[2].1);
    assert Dot(v, 2) == Dot(v, 1) + Times(v[1].0, v[1].1);
    assert Dot(v, 1) == Dot(v, 0) + Times(v[0].0, v[0].1);
  }

  /** The division test detects a product that does not fit, and only that. */
  lemma ProductCheck(a: int, b: int)
    requires a >= 0 && b >= 0
    ensures Times(a, b) > MAX <==> a != 0 && b > MAX / a
  {
    if a != 0 {
      var q := MAX / a;
      DivBounds(MAX, a);
      if b > q {
        MulMonotone(q + 1, b, a);
      } else {
        MulMonotone(b, q, a);
      }
    }
  }

  predicate AllNonNegative(values: seq<(int64, int64)>) {
    forall k :: 0 <= k < |values| ==> values[k].0 >= 0 && values[k].1 >= 0
  }

  /**
   The loop accepts exactly the non-negative inputs whose sum of products fits, and then
   returns that sum: its checks refuse nothing that fits, and let nothing wrap.
   */
  method Accumulate(values: seq<(int64, int64)>) returns (r: Result<int64>)
    ensures r.Ok? <==> AllNonNegative(values) && Dot(values, |values|) <= MAX
    ensures r.Ok? ==> r.value == Dot(values, |values|)
    ensures r.Err? ==> r.error == PricingOverflow
  {
    var numerator: int64 := 0;
    var i := 0;
    while i < |values|
      invariant 0 <= i <= |values|
      invariant forall k :: 0 <= k < i ==> values[k].0 >= 0 && values[k].1 >= 0
      invariant numerator == Dot(values, i) <= MAX
    {
      var tokens, price := values[i].0, values[i].1;
      if tokens < 0 || price < 0 {
        return Err(PricingOverflow);
      }
      ProductCheck(tokens, price);
      TimesNonNegative(tokens, price);
      DotMonotone(values, i, i);
      if AllNonNegative(values) {
        DotMonotone(values, i + 1, |values|);
      }
      if tokens != 0 && price > MAX / tokens {
        return Err(PricingOverflow);
      }
      var product: int64 := Wrap(Times(tokens, price));
      if numerator > MAX - product {
        return Err(PricingOverflow);
      }
      numerator := Wrap(numerator + product);
      i := i + 1;
    }
    r := Ok(numerator);
  }

  lemma PairsNonNegative(m: Prices, u: Usage)
    ensures AllNonNegative(Pairs(m, u)) <==> NonNegative(m, u)
  {
    var v := Pairs(m, u);
    assert v[0] == (u.input, m.input) && v[1] == (u.output, m.output);
    assert v[2] == (u.cached, m.cached) && v[3] == (u.reasoning, m.reasoning);
  }

  /** The cost in micro-units. */
  function Cost(p: Pricer, u: Usage): Result<int64> {
    if u.model !in p.models then Err(UnknownModel)
    else
      var m := p.models[u.model];
      if !Priceable(m, u) then Err(PricingOverflow)
      else (NumeratorInRange(m, u); Ok(IntDivCeil(Numerator(m, u), MICRO_UNITS_PER_MTOK)))
  }

  lemma NumeratorInRange(m: Prices, u: Usage)
    requires NonNegative(m, u)
    ensures Numerator(m, u) >= 0
  {
    assert u.input * m.input >= 0 && u.output * m.output >= 0;
    assert u.cached * m.cached >= 0 && u.reasoning * m.reasoning >= 0;
  }

  method ComputeCost(p: Pricer, u: Usage) returns (r: Result<int64>)
    ensures r == Cost(p, u)
  {
    if u.model !in p.models {
      return Err(UnknownModel);
    }
    var sum := Accumulate(Pairs(p.models[u.model], u));
    DotIsNumerator(p.models[u.model], u);
    PairsNonNegative(p.models[u.model], u);
    if sum.Err? {
      return sum;
    }
    return Ok(IntDivCeil(sum.value, MICRO_UNITS_PER_MTOK));
  }

  function Credits(p: Pricer, u: Usage): Result<int64> {
    var cost := Cost(p, u);
    if cost.Err? then cost else Ok(IntDivCeil(cost.value, CreditSize(p)))
  }

  /** The usage an estimate prices: the input and the largest output, nothing cached. */
  function Nominal(model: string, input: int64, maxOutput: int64): Usage {
    Usage(model, input, maxOutput, 0, 0)
  }

  function EstimateMax(p: Pricer, model: string, input: int64, maxOutput: int64): Result<int64> {
    if input < 0 || maxOutput < 0 then Err(InvalidArgument)
    else
      var cost := Cost(p, Nominal(model, input, maxOutput));
      if cost.Err? then cost
      else if cost.value > MAX / MARGIN_NUM then Err(PricingOverflow)
      else
        var mu := IntDivCeil(Wrap(cost.value * MARGIN_NUM), MARGIN_DEN);
        var credits := IntDivCeil(mu, CreditSize(p));
        Ok(if credits < 1 then 1 else credits)
  }

  // ---- Rounding -------------------------------------------------------------------------

  /** 64-bit rounding-up division is exact precisely while the addition inside it does not wrap. */
  lemma IntDivCeilExact(a: int, b: int)
    requires 0 <= a <= MAX && 0 < b <= MAX
    ensures IntDivCeil(a, b) == CeilDiv(a, b) <==> a == 0 || a + b - 1 <= MAX
    ensures a + b - 1 > MAX ==> IntDivCeil(a, b) <= 0
  {
    if a == 0 {
      CeilDivUnique(0, b, 0);
    } else if a + b - 1 > MAX {
      WrapOnce(a + b - 1);
      assert CeilDiv(a, b) >= 1 by { MulReflectsLess(0, CeilDiv(a, b), b); }
    }
  }

  /** The result is at most a given bound exactly when the exact one is, or the addition wraps. */
  lemma IntDivCeilAtMost(a: int, b: int, q: int)
    requires 0 <= a <= MAX && 0 < b <= MAX && q >= 0
    ensures IntDivCeil(a, b) <= q <==> a + b - 1 > MAX || a <= q * b
  {
    IntDivCeilExact(a, b);
    CeilDivAtMost(a, b, q);
  }

  /** The result is negative exactly when the addition wraps far enough below zero. */
  lemma IntDivCeilNegativeIff(a: int, b: int)
    requires 0 <= a <= MAX && 0 < b <= MAX
    ensures IntDivCeil(a, b) < 0 <==> a + b - 1 > MAX && a + 2 * b - 1 <= MODULUS
  {
    if a + b - 1 > MAX {
      WrapOnce(a + b - 1);
      var lost := MODULUS - (a + b - 1);
      DivBounds(lost, b);
      if lost >= b {
        MulReflectsLess(0, lost / b, b);
      } else {
        DivUnique(lost, b, 0);
      }
    } else if a > 0 {
      DivShrinks(a + b - 1, b);
    }
  }

  /** Largest numerator that survives the first rounding. */
  const MAX_NUMERATOR: int := MAX - (MICRO_UNITS_PER_MTOK - 1)

  /**
   For every priceable usage the reported cost is the exact cost rounded up precisely when
   the numerator is at most MAX_NUMERATOR. Above that the final addition wraps and the
   cost comes out at or below zero.
   */
  lemma CostExact(p: Pricer, u: Usage)
    requires u.model in p.models && Priceable(p.models[u.model], u)
    ensures var n := Numerator(p.models[u.model], u);
            && Cost(p, u).Ok?
            && (Cost(p, u).value == CeilDiv(n, MICRO_UNITS_PER_MTOK) <==> n <= MAX_NUMERATOR)
            && (n > MAX_NUMERATOR ==> Cost(p, u).value <= 0)
  {
    NumeratorInRange(p.models[u.model], u);
    IntDivCeilExact(Numerator(p.models[u.model], u), MICRO_UNITS_PER_MTOK);
  }

  /** A usage whose cost in micro-units is wrongly reported as not positive. */
  lemma CostWrapsNearTheLimit(p: Pricer)
    requires p.models == map["m" := Prices(1, 0, 0, 0)]
    ensures var u := Usage("m", MAX, 0, 0, 0);
            Cost(p, u).Ok? && Cost(p, u).value <= 0 && Numerator(p.models["m"], u) == MAX
  {
    var u := Usage("m", MAX, 0, 0, 0);
    assert Numerator(p.models["m"], u) == MAX;
    CostExact(p, u);
  }

  /** Costs of usages within the limit are small enough for every later step. */
  const MAX_COST: int := MAX / MICRO_UNITS_PER_MTOK

  lemma CostBounded(n: int)
    requires 0 <= n <= MAX_NUMERATOR
    ensures 0 <= CeilDiv(n, MICRO_UNITS_PER_MTOK) <= MAX_COST
  {
    CeilDivBound(n, MICRO_UNITS_PER_MTOK, MAX_COST);
    MulReflectsLess(-1, CeilDiv(n, MICRO_UNITS_PER_MTOK), MICRO_UNITS_PER_MTOK);
  }

  /** Micro-units of a usage, rounded up once. */
  function RoundedCost(m: Prices, u: Usage): int { CeilDiv(Numerator(m, u), MICRO_UNITS_PER_MTOK) }

  /**
   Rounding twice loses nothing: the charge is the exact cost divided by a million times
   the credit size, rounded up once. This holds precisely when neither rounding's addition
   wraps, a condition on the exact cost and the credit size.
   */
  lemma CreditsExact(p: Pricer, u: Usage)
    requires u.model in p.models && Priceable(p.models[u.model], u)
    ensures var n, size := Numerator(p.models[u.model], u), CreditSize(p);
            && Credits(p, u).Ok?
            && MICRO_UNITS_PER_MTOK * size > 0
            && (Credits(p, u).value == CeilDiv(n, MICRO_UNITS_PER_MTOK * size)
                <==> n == 0 || (n <= MAX_NUMERATOR && RoundedCost(p.models[u.model], u) + size - 1 <= MAX))
  {
    var n, size := Numerator(p.models[u.model], u), CreditSize(p);
    var mu := RoundedCost(p.models[u.model], u);
    CostExact(p, u);
    NumeratorInRange(p.models[u.model], u);
    NestedCeil(n, MICRO_UNITS_PER_MTOK, size);
    if n <= MAX_NUMERATOR {
      CostBounded(n);
      IntDivCeilExact(mu, size);
      assert n == 0 <==> mu == 0;
    } else {
      MulReflectsLess(0, CeilDiv(n, MICRO_UNITS_PER_MTOK * size), MICRO_UNITS_PER_MTOK * size);
    }
  }

  /**
   Which usages are charged more than a given number of credits: those whose exact cost
   exceeds that many credits, unless one of the two additions wraps, which makes the charge
   zero or less.
   */
  lemma ChargeAtMostIff(p: Pricer, u: Usage, credits: int)
    requires u.model in p.models && Priceable(p.models[u.model], u) && credits >= 0
    ensures var n, mu, size := Numerator(p.models[u.model], u), RoundedCost(p.models[u.model], u), CreditSize(p);
            && Credits(p, u).Ok?
            && (Credits(p, u).value <= credits <==>
                  n > MAX_NUMERATOR || mu + size - 1 > MAX || n <= credits * (MICRO_UNITS_PER_MTOK * size))
  {
    var n, mu, size := Numerator(p.models[u.model], u), RoundedCost(p.models[u.model], u), CreditSize(p);
    CostExact(p, u);
    NumeratorInRange(p.models[u.model], u);
    if n <= MAX_NUMERATOR {
      CostBounded(n);
      IntDivCeilAtMost(mu, size, credits);
      NestedAtMost(n, MICRO_UNITS_PER_MTOK, size, credits);
    }
  }

  /**
   Which usages are charged a negative number of credits: those whose rounded cost wraps
   the second addition, but falls short of it by at least one credit size.
   */
  lemma NegativeChargeIff(p: Pricer, u: Usage)
    requires u.model in p.models && Priceable(p.models[u.model], u)
    ensures var n, mu, size := Numerator(p.models[u.model], u), RoundedCost(p.models[u.model], u), CreditSize(p);
            && Credits(p, u).Ok?
            && (Credits(p, u).value < 0 <==>
                  n <= MAX_NUMERATOR && mu + size - 1 > MAX && mu + 2 * size - 1 <= MODULUS)
  {
    var n, mu, size := Numerator(p.models[u.model], u), RoundedCost(p.models[u.model], u), CreditSize(p);
    CostExact(p, u);
    NumeratorInRange(p.models[u.model], u);
    if n <= MAX_NUMERATOR {
      CostBounded(n);
      IntDivCeilNegativeIff(mu, size);
    }
  }

  /** Micro-units after the reserve margin. */
  function WithMargin(mu: int): int { CeilDiv(mu * MARGIN_NUM, MARGIN_DEN) }

  /** Largest result of the margin, and the credit sizes for which no later addition can wrap. */
  const MAX_ESTIMATE: int := (MAX_COST * MARGIN_NUM + MARGIN_DEN - 1) / MARGIN_DEN
  const SAFE_PER_CREDIT: int := MAX - MAX_ESTIMATE + 1

  lemma MarginBounded(mu: int)
    requires 0 <= mu <= MAX_COST
    ensures 0 <= mu <= WithMargin(mu) <= MAX_ESTIMATE
  {
    CeilDivMonotone(mu * MARGIN_NUM, MAX_COST * MARGIN_NUM, MARGIN_DEN);
  }

  /** An estimate is at least one credit, so for credit sizes that make its last addition wrap it is still right. */
  lemma LastRoundingExact(w: int, size: int)
    requires 0 <= w <= MAX_ESTIMATE && 0 < size <= MAX
    ensures Max(1, IntDivCeil(w, size)) == Max(1, CeilDiv(w, size))
  {
    IntDivCeilExact(w, size);
    if w + size - 1 > MAX {
      CeilDivBound(w, size, 1);
    }
  }

  /**
   For every credit size the margin guard never fires and the estimate is the exact one.
   Up to SAFE_PER_CREDIT no step of it wraps.
   */
  lemma EstimateWithinLimit(p: Pricer, model: string, input: int64, maxOutput: int64)
    requires model in p.models && input >= 0 && maxOutput >= 0
    requires Priceable(p.models[model], Nominal(model, input, maxOutput))
    requires Numerator(p.models[model], Nominal(model, input, maxOutput)) <= MAX_NUMERATOR
    ensures var mu, size := RoundedCost(p.models[model], Nominal(model, input, maxOutput)), CreditSize(p);
            && 0 <= mu <= MAX / MARGIN_NUM
            && EstimateMax(p, model, input, maxOutput) == Ok(Max(1, CeilDiv(WithMargin(mu), size)))
            && (size <= SAFE_PER_CREDIT ==> WithMargin(mu) + size - 1 <= MAX)
  {
    var u := Nominal(model, input, maxOutput);
    var n, mu := Numerator(p.models[model], u), RoundedCost(p.models[model], u);
    NumeratorInRange(p.models[model], u);
    CostExact(p, u);
    CostBounded(n);
    MarginBounded(mu);
    IntDivCeilExact(mu * MARGIN_NUM, MARGIN_DEN);
    LastRoundingExact(WithMargin(mu), CreditSize(p));
  }

  /**
   The estimate of every acceptable quote is exact if and only if its cost does not wrap or
   is worth at most a credit.
   */
  lemma EstimateExact(p: Pricer, model: string, input: int64, maxOutput: int64)
    requires model in p.models && input >= 0 && maxOutput >= 0
    requires Priceable(p.models[model], Nominal(model, input, maxOutput))
    ensures var n := Numerator(p.models[model], Nominal(model, input, maxOutput));
            var exact := WithMargin(RoundedCost(p.models[model], Nominal(model, input, maxOutput)));
            && EstimateMax(p, model, input, maxOutput).Ok?
            && (EstimateMax(p, model, input, maxOutput).value == Max(1, CeilDiv(exact, CreditSize(p)))
                <==> n <= MAX_NUMERATOR || exact <= CreditSize(p))
  {
    var u := Nominal(model, input, maxOutput);
    if Numerator(p.models[model], u) <= MAX_NUMERATOR {
      EstimateWithinLimit(p, model, input, maxOutput);
    } else {
      CostExact(p, u);
      CeilDivAtMost(WithMargin(RoundedCost(p.models[model], u)), CreditSize(p), 1);
    }
  }

  // ---- The reserve margin ---------------------------------------------------------------

  /** Five times the actual weighted cost is at most six times the nominal one. */
  predicate WithinMargin(m: Prices, u: Usage, input: int64, maxOutput: int64) {
    MARGIN_DEN * Numerator(m, u) <= MARGIN_NUM * Numerator(m, Nominal(u.model, input, maxOutput))
  }

  lemma MarginDominates(actual: int, nominal: int)
    requires 0 <= actual && 0 <= nominal && MARGIN_DEN * actual <= MARGIN_NUM * nominal
    ensures CeilDiv(actual, MICRO_UNITS_PER_MTOK) <= WithMargin(CeilDiv(nominal, MICRO_UNITS_PER_MTOK))
  {
    CeilDivBound(actual, MICRO_UNITS_PER_MTOK, WithMargin(CeilDiv(nominal, MICRO_UNITS_PER_MTOK)));
  }

  lemma CoveredWithinLimit(p: Pricer, u: Usage, input: int64, maxOutput: int64)
    requires Credits(p, u).Ok? && EstimateMax(p, u.model, input, maxOutput).Ok?
    requires Numerator(p.models[u.model], Nominal(u.model, input, maxOutput)) <= MAX_NUMERATOR
    requires WithinMargin(p.models[u.model], u, input, maxOutput)
    ensures Credits(p, u).value <= EstimateMax(p, u.model, input, maxOutput).value
  {
    var m, size := p.models[u.model], CreditSize(p);
    var actual, nominal := RoundedCost(m, u), RoundedCost(m, Nominal(u.model, input, maxOutput));
    NumeratorInRange(m, u);
    NumeratorInRange(m, Nominal(u.model, input, maxOutput));
    EstimateWithinLimit(p, u.model, input, maxOutput);
    MarginDominates(Numerator(m, u), Numerator(m, Nominal(u.model, input, maxOutput)));
    CostExact(p, u);
    if Numerator(m, u) <= MAX_NUMERATOR {
      CostBounded(Numerator(m, u));
      IntDivCeilExact(actual, size);
      CeilDivMonotone(actual, WithMargin(nominal), size);
    }
  }

  /** A quote whose own cost wraps is estimated at a single credit. */
  lemma WrappedQuote(p: Pricer, model: string, input: int64, maxOutput: int64)
    requires EstimateMax(p, model, input, maxOutput).Ok?
    requires Numerator(p.models[model], Nominal(model, input, maxOutput)) > MAX_NUMERATOR
    ensures EstimateMax(p, model, input, maxOutput) == Ok(1)
  {
    CostExact(p, Nominal(model, input, maxOutput));
  }

  /** The quote's cost does not wrap, or the charge wraps, or the usage is worth at most a credit. */
  predicate Coverable(p: Pricer, u: Usage, input: int64, maxOutput: int64)
    requires u.model in p.models
  {
    var m, size := p.models[u.model], CreditSize(p);
    || Numerator(m, Nominal(u.model, input, maxOutput)) <= MAX_NUMERATOR
    || Numerator(m, u) > MAX_NUMERATOR
    || RoundedCost(m, u) + size - 1 > MAX
    || Numerator(m, u) <= MICRO_UNITS_PER_MTOK * size
  }

  /**
   Reserve-margin theorem, for every credit size: whenever charge and estimate exist and the
   actual cost is within the margin, the charge is at most the estimate if and only if the
   quote's own cost does not wrap, or the charge does, or the usage is worth at most a
   credit.
   */
  lemma EstimateCoversCharge(p: Pricer, u: Usage, input: int64, maxOutput: int64)
    requires Credits(p, u).Ok? && EstimateMax(p, u.model, input, maxOutput).Ok?
    requires WithinMargin(p.models[u.model], u, input, maxOutput)
    ensures Credits(p, u).value <= EstimateMax(p, u.model, input, maxOutput).value <==>
            Coverable(p, u, input, maxOutput)
  {
    if Numerator(p.models[u.model], Nominal(u.model, input, maxOutput)) <= MAX_NUMERATOR {
      CoveredWithinLimit(p, u, input, maxOutput);
    } else {
      WrappedQuote(p, u.model, input, maxOutput);
      ChargeAtMostIff(p, u, 1);
    }
  }

  /** A quote whose cost wraps does not cover even a plain usage inside it. */
  lemma WrappedQuoteExceeded(p: Pricer)
    requires p == Pricer(1000, map["m" := Prices(1, 0, 0, 0)])
    ensures var u, input := Usage("m", MAX_NUMERATOR, 0, 0, 0), MAX_NUMERATOR + 1;
            && WithinMargin(p.models["m"], u, input, 0)
            && EstimateMax(p, "m", input, 0) == Ok(1) && Credits(p, u).Ok? && Credits(p, u).value > 1
  {
    var u, input := Usage("m", MAX_NUMERATOR, 0, 0, 0), MAX_NUMERATOR + 1;
    assert Numerator(p.models["m"], u) == MAX_NUMERATOR;
    assert Numerator(p.models["m"], Nominal("m", input, 0)) == input;
    CostExact(p, Nominal("m", input, 0));
    WrappedQuote(p, "m", input, 0);
    CostBounded(MAX_NUMERATOR);
    ChargeAtMostIff(p, u, 1);
  }

  /**
   The credits that a quote amounts to, from its exact cost: one if that wraps, else with
   the margin and at least one.
   */
  function QuotedCredits(p: Pricer, model: string, input: int64, maxOutput: int64): int
    requires model in p.models
  {
    var m, q := p.models[model], Nominal(model, input, maxOutput);
    if Numerator(m, q) > MAX_NUMERATOR then 1 else Max(1, CeilDiv(WithMargin(RoundedCost(m, q)), CreditSize(p)))
  }

  /**
   Exactly when a charge exceeds its estimate, for every usage and every quote, in terms of
   the two exact costs and the credit size: the usage costs more than the credits quoted
   and neither addition of the charge wraps.
   */
  lemma ChargeExceedsEstimateIff(p: Pricer, u: Usage, input: int64, maxOutput: int64)
    requires Credits(p, u).Ok? && EstimateMax(p, u.model, input, maxOutput).Ok?
    ensures var m, size, quoted := p.models[u.model], CreditSize(p), QuotedCredits(p, u.model, input, maxOutput);
            Credits(p, u).value > EstimateMax(p, u.model, input, maxOutput).value <==>
              && Numerator(m, u) > quoted * (MICRO_UNITS_PER_MTOK * size)
              && Numerator(m, u) <= MAX_NUMERATOR && RoundedCost(m, u) + size - 1 <= MAX
  {
    if Numerator(p.models[u.model], Nominal(u.model, input, maxOutput)) <= MAX_NUMERATOR {
      EstimateWithinLimit(p, u.model, input, maxOutput);
    } else {
      WrappedQuote(p, u.model, input, maxOutput);
    }
    ChargeAtMostIff(p, u, QuotedCredits(p, u.model, input, maxOutput));
  }

  /** A usage within the quoted token counts, with nothing cached and no reasoning, is within the margin. */
  lemma PlainUsageWithinMargin(m: Prices, u: Usage, input: int64, maxOutput: int64)
    requires NonNegative(m, u) && u.cached == 0 && u.reasoning == 0
    requires u.input <= input && u.output <= maxOutput
    ensures WithinMargin(m, u, input, maxOutput)
  {
    assert u.input * m.input <= input * m.input;
    assert u.output * m.output <= maxOutput * m.output;
    assert 0 <= u.input * m.input && 0 <= u.output * m.output;
  }

  /** Reasoning tokens are outside the quote: with them a charge can exceed its estimate. */
  lemma ReasoningCanExceedEstimate(p: Pricer)
    requires p == Pricer(1, map["m" := Prices(0, 1_000_000, 0, 1_000_000)])
    ensures var u := Usage("m", 0, 10, 0, 10);
            Credits(p, u) == Ok(20) && EstimateMax(p, "m", 0, 10) == Ok(12)
  {
    var u := Usage("m", 0, 10, 0, 10);
    assert Numerator(p.models["m"], u) == 20_000_000;
    assert Numerator(p.models["m"], Nominal("m", 0, 10)) == 10_000_000;
  }

  /** Up to SAFE_PER_CREDIT no usage at all is charged a negative amount. */
  lemma ChargesNonNegative(p: Pricer, u: Usage)
    requires CreditSize(p) <= SAFE_PER_CREDIT && Credits(p, u).Ok?
    ensures Credits(p, u).value >= 0
  {
    NumeratorInRange(p.models[u.model], u);
    NegativeChargeIff(p, u);
    if Numerator(p.models[u.model], u) <= MAX_NUMERATOR {
      CostBounded(Numerator(p.models[u.model], u));
      MarginBounded(RoundedCost(p.models[u.model], u));
    }
  }

  /** Without the bound a positive cost can be charged as a negative number of credits. */
  lemma NegativeChargePossible(p: Pricer)
    requires p == Pricer(MAX, map["m" := Prices(1_000_000, 0, 0, 0)])
    ensures Credits(p, Usage("m", 2, 0, 0, 0)) == Ok(-1)
  {
    var u := Usage("m", 2, 0, 0, 0);
    assert Numerator(p.models["m"], u) == 2_000_000;
    assert Cost(p, u) == Ok(2);
    WrapOnce(2 + MAX - 1);
    DivUnique(MAX + 1, MAX, 1);
  }

  // ---- What the prices and constants mean -----------------------------------------------

  /** The cost is the sum over the four token classes of tokens times the price of that class. */
  lemma NumeratorPerClass(m: Prices, model: string, n: int64)
    ensures Numerator(m, Usage(model, n, 0, 0, 0)) == n * m.input
    ensures Numerator(m, Usage(model, 0, n, 0, 0)) == n * m.output
    ensures Numerator(m, Usage(model, 0, 0, n, 0)) == n * m.cached
    ensures Numerator(m, Usage(model, 0, 0, 0, n)) == n * m.reasoning
  {
  }

  lemma NumeratorAdds(m: Prices, u: Usage)
    ensures Numerator(m, u) ==
            Numerator(m, Usage(u.model, u.input, 0, 0, 0)) + Numerator(m, Usage(u.model, 0, u.output, 0, 0))
                             + Numerator(m, Usage(u.model, 0, 0, u.cached, 0)) +
                               Numerator(m, Usage(u.model, 0, 0, 0, u.reasoning))
  {
  }

  predicate OrdinaryPrices(m: Prices) {
    && 0 <= m.input <= MAX_COST - 1 && 0 <= m.output <= MAX_COST - 1
    && 0 <= m.cached <= MAX_COST - 1 && 0 <= m.reasoning <= MAX_COST - 1
  }

  lemma MillionOfOne(p: Pricer, u: Usage, price: int)
    requires u.model in p.models && Priceable(p.models[u.model], u) && 0 <= price < MAX_COST
    requires Numerator(p.models[u.model], u) == 1_000_000 * price
    ensures Cost(p, u) == Ok(price) && RoundedCost(p.models[u.model], u) == price
  {
    CostExact(p, u);
    CeilDivUnique(1_000_000 * price, MICRO_UNITS_PER_MTOK, price);
  }

  /** A million tokens of a class cost exactly the price of that class. */
  lemma MillionTokens(p: Pricer, model: string)
    requires model in p.models && OrdinaryPrices(p.models[model])
    ensures Cost(p, Usage(model, 1_000_000, 0, 0, 0)) == Ok(p.models[model].input)
    ensures Cost(p, Usage(model, 0, 1_000_000, 0, 0)) == Ok(p.models[model].output)
    ensures Cost(p, Usage(model, 0, 0, 1_000_000, 0)) == Ok(p.models[model].cached)
    ensures Cost(p, Usage(model, 0, 0, 0, 1_000_000)) == Ok(p.models[model].reasoning)
  {
    var m := p.models[model];
    NumeratorPerClass(m, model, 1_000_000);
    MillionOfOne(p, Usage(model, 1_000_000, 0, 0, 0), m.input);
    MillionOfOne(p, Usage(model, 0, 1_000_000, 0, 0), m.output);
    MillionOfOne(p, Usage(model, 0, 0, 1_000_000, 0), m.cached);
    MillionOfOne(p, Usage(model, 0, 0, 0, 1_000_000), m.reasoning);
  }

  /**
   An estimate for a million tokens is six fifths of the price, of the input or of the
   output, and at least a credit.
   */
  lemma EstimateMillion(p: Pricer, model: string)
    requires model in p.models && OrdinaryPrices(p.models[model])
    ensures EstimateMax(p, model, 1_000_000, 0) ==
            Ok(Max(1, CeilDiv(CeilDiv(p.models[model].input * 6, 5), CreditSize(p))))
    ensures EstimateMax(p, model, 0, 1_000_000) ==
            Ok(Max(1, CeilDiv(CeilDiv(p.models[model].output * 6, 5), CreditSize(p))))
  {
    var m := p.models[model];
    NumeratorPerClass(m, model, 1_000_000);
    MillionOfOne(p, Usage(model, 1_000_000, 0, 0, 0), m.input);
    MillionOfOne(p, Usage(model, 0, 1_000_000, 0, 0), m.output);
    EstimateWithinLimit(p, model, 1_000_000, 0);
    EstimateWithinLimit(p, model, 0, 1_000_000);
  }

  /** A credit is as many micro-units as configured, and 1000 if that is not positive. */
  lemma CreditSizeMeans(p: Pricer)
    ensures p.perCredit > 0 ==> CreditSize(p) == p.perCredit
    ensures p.perCredit <= 0 ==> CreditSize(p) == 1000
  {
  }

  /** Which error is reported for what. */
  lemma PricingErrors(p: Pricer, u: Usage, input: int64, maxOutput: int64)
    ensures u.model !in p.models ==> Cost(p, u) == Err(UnknownModel)
    ensures u.model in p.models && !Priceable(p.models[u.model], u) ==> Cost(p, u) == Err(PricingOverflow)
    ensures Cost(p, u).Err? ==> Credits(p, u) == Cost(p, u)
    ensures input < 0 || maxOutput < 0 ==> EstimateMax(p, u.model, input, maxOutput) == Err(InvalidArgument)
    ensures input >= 0 && maxOutput >= 0 && u.model !in p.models ==>
              EstimateMax(p, u.model, input, maxOutput) == Err(UnknownModel)
  {
  }
}
