/** The L2 gas price controller of gas-oracle. Floating point is modelled by exact reals. */
module GasPricing {
  import opened Common

  function Ceil(x: real): int { -((-x).Floor) }

  function MinReal(a: real, b: real): real { if a <= b then a else b }

  function MaxReal(a: real, b: real): real { if a >= b then a else b }

  datatype Pricer = Pricer(curPrice: nat, floorPrice: nat, maxChange: real)

  predicate Valid(p: Pricer) { 1 <= p.floorPrice <= p.curPrice && p.maxChange > 0.0 }

  /** The clamped ratio of usage to target. */
  function Change(p: Pricer, avg: real, target: real): real
    requires target >= 1.0
  {
    var proportion := avg / target;
    if proportion >= 1.0 then MinReal(proportion, 1.0 + p.maxChange) else MaxReal(proportion, 1.0 - p.maxChange)
  }

  function Scaled(floor: nat, cur: real, change: real): int { Max(floor, Ceil(cur * change)) }

  /** `None` is the error return: negative usage or a target below one. */
  function NextPrice(p: Pricer, avg: real, target: real): (r: Option<int>)
    ensures r.Some? ==> r.value >= p.floorPrice
  {
    if avg < 0.0 || target < 1.0 then None else Some(Scaled(p.floorPrice, Max(1, p.curPrice) as real, Change(p, avg, target)))
  }

  /** `NewGasPricer`; `None` is a refused configuration. */
  function NewPricer(cur: nat, floor: nat, maxChange: real): (r: Option<Pricer>)
    ensures r.Some? <==> floor >= 1 && maxChange > 0.0
    ensures r.Some? ==> Valid(r.value) && r.value.floorPrice == floor && r.value.maxChange == maxChange
    ensures r.Some? ==> cur <= r.value.curPrice && (r.value.curPrice == cur || r.value.curPrice == floor)
  {
    if floor < 1 || maxChange <= 0.0 then None else Some(Pricer(Max(cur, floor), floor, maxChange))
  }

  class GasPricer {
    var curPrice: nat
    var avgGasPerSecondLastEpoch: real
    const floorPrice: nat
    const maxChangePerEpoch: real

    function State(): Pricer
      reads this
    {
      Pricer(curPrice, floorPrice, maxChangePerEpoch)
    }

    constructor (p: Pricer)
      requires Valid(p)
      ensures State() == p
    {
      curPrice, floorPrice, maxChangePerEpoch := p.curPrice, p.floorPrice, p.maxChange;
      avgGasPerSecondLastEpoch := 0.0;
    }

    method CompleteEpoch(avg: real, target: real) returns (price: Option<nat>)
      requires Valid(State())
      modifies this
      ensures Valid(State()) && price == NextPrice(old(State()), avg, target)
      ensures State() == old(State()).(curPrice := if price.Some? then price.value else old(curPrice))
      ensures avgGasPerSecondLastEpoch == if price.Some? then avg else old(avgGasPerSecondLastEpoch)
    {
      var next := NextPrice(State(), avg, target);
      if next.None? {
        return None;
      }
      curPrice := next.value;
      avgGasPerSecondLastEpoch := avg;
      price := Some(curPrice);
    }
  }

  // ----- one epoch -----

  lemma DivMonotone(a: real, b: real, t: real)
    requires a <= b && t >= 1.0
    ensures a / t <= b / t
  {
  }

  lemma ChangeMonotone(p: Pricer, avg: real, avg': real, target: real)
    requires Valid(p) && 0.0 <= avg <= avg' && target >= 1.0
    ensures 0.0 <= Change(p, avg, target) <= Change(p, avg', target) <= 1.0 + p.maxChange
  {
    DivMonotone(0.0, avg, target);
    DivMonotone(avg, avg', target);
  }

  lemma ScaleMonotone(k: real, a: real, b: real)
    requires k >= 0.0 && a <= b
    ensures k * a <= k * b
  {
  }

  lemma CeilMonotone(a: real, b: real)
    requires a <= b
    ensures Ceil(a) <= Ceil(b)
  {
  }

  lemma ScaledMonotone(floor: nat, cur: real, a: real, b: real)
    requires cur >= 0.0 && a <= b
    ensures Scaled(floor, cur, a) <= Scaled(floor, cur, b)
  {
    ScaleMonotone(cur, a, b);
    CeilMonotone(cur * a, cur * b);
  }

  /** More usage never lowers the next price. */
  lemma PriceMonotone(p: Pricer, avg: real, avg': real, target: real)
    requires Valid(p) && 0.0 <= avg <= avg' && target >= 1.0
    ensures NextPrice(p, avg, target).value <= NextPrice(p, avg', target).value
  {
    ChangeMonotone(p, avg, avg', target);
    ScaledMonotone(p.floorPrice, Max(1, p.curPrice) as real, Change(p, avg, target), Change(p, avg', target));
  }

  /** At the target the price stays. */
  lemma FixedAtTarget(p: Pricer, target: real)
    requires Valid(p) && target >= 1.0
    ensures NextPrice(p, target, target) == Some(p.curPrice)
  {
    assert target / target == 1.0;
    assert Change(p, target, target) == 1.0;
  }

  lemma ScaledBound(floor: nat, cur: real, m: real)
    requires 1.0 <= floor as real <= cur && m > 0.0
    ensures Scaled(floor, cur, 1.0 + m) as real <= cur * (1.0 + m) + 1.0
  {
  }

  lemma PriceStepBound(p: Pricer, avg: real, target: real)
    requires Valid(p) && NextPrice(p, avg, target).Some?
    ensures p.floorPrice <= NextPrice(p, avg, target).value
    ensures NextPrice(p, avg, target).value as real <= p.curPrice as real * (1.0 + p.maxChange) + 1.0
  {
    ChangeMonotone(p, avg, avg, target);
    ScaledMonotone(p.floorPrice, p.curPrice as real, Change(p, avg, target), 1.0 + p.maxChange);
    ScaledBound(p.floorPrice, p.curPrice as real, p.maxChange);
  }

  /** At the floor, or so low that the largest step is less than one unit. */
  predicate AtRest(floor: nat, m: real, price: real) { price == floor as real || price * m < 1.0 }

  lemma ScaledIdle(floor: nat, price: nat, cur: real, m: real)
    requires 1 <= floor <= price && cur == price as real && m > 0.0
    ensures floor <= Scaled(floor, cur, 1.0 - m) <= price
    ensures Scaled(floor, cur, 1.0 - m) == price <==> AtRest(floor, m, cur)
  {
  }

  lemma ZeroUsageChange(p: Pricer, target: real)
    requires Valid(p) && p.maxChange <= 1.0 && target >= 1.0
    ensures Change(p, 0.0, target) == 1.0 - p.maxChange
  {
  }

  /** The price strictly falls without usage, except at the rest points. */
  lemma ZeroUsageStep(p: Pricer, target: real)
    requires Valid(p) && p.maxChange <= 1.0 && target >= 1.0
    ensures p.floorPrice <= NextPrice(p, 0.0, target).value <= p.curPrice
    ensures NextPrice(p, 0.0, target).value == p.curPrice <==> AtRest(p.floorPrice, p.maxChange, p.curPrice as real)
  {
    ZeroUsageChange(p, target);
    ScaledIdle(p.floorPrice, p.curPrice, p.curPrice as real, p.maxChange);
  }

  // ----- many epochs -----

  datatype Epoch = Epoch(avg: real, target: real)

  predicate Completes(p: Pricer, price: nat, e: Epoch, next: nat) {
    NextPrice(p.(curPrice := price), e.avg, e.target) == Some(next)
  }

  /** Prices of consecutive completed epochs. */
  predicate IsTrajectory(p: Pricer, prices: seq<nat>, epochs: seq<Epoch>) {
    && |prices| == |epochs| + 1
    && prices[0] == p.curPrice
    && forall i | 0 <= i < |epochs| :: Completes(p, prices[i], epochs[i], prices[i + 1])
  }

  /** The largest price reachable from `p` in n epochs, rounding included. */
  function Ceiling(p: real, m: real, n: nat): real {
    if n == 0 then p else Ceiling(p, m, n - 1) * (1.0 + m) + 1.0
  }

  lemma ChainBounds(x: real, y: real, b: real, g: real)
    requires x <= b && y <= x * g + 1.0 && g > 0.0
    ensures y <= b * g + 1.0
  {
  }

  lemma StepKeepsBound(p: Pricer, price: nat, e: Epoch, next: nat, b: real)
    requires Valid(p) && p.floorPrice <= price && Completes(p, price, e, next) && price as real <= b
    ensures p.floorPrice <= next && next as real <= b * (1.0 + p.maxChange) + 1.0
  {
    PriceStepBound(p.(curPrice := price), e.avg, e.target);
    ChainBounds(price as real, next as real, b, 1.0 + p.maxChange);
  }

  lemma {:induction false} TrajectoryCeiling(p: Pricer, prices: seq<nat>, epochs: seq<Epoch>, n: nat)
    requires Valid(p) && IsTrajectory(p, prices, epochs) && n < |prices|
    ensures p.floorPrice <= prices[n]
    ensures prices[n] as real <= Ceiling(p.curPrice as real, p.maxChange, n)
  {
    if n > 0 {
      TrajectoryCeiling(p, prices, epochs, n - 1);
      assert Completes(p, prices[n - 1], epochs[n - 1], prices[n - 1 + 1]);
      StepKeepsBound(p, prices[n - 1], epochs[n - 1], prices[n], Ceiling(p.curPrice as real, p.maxChange, n - 1));
    }
  }

  function Pow(x: real, n: nat): real { if n == 0 then 1.0 else Pow(x, n - 1) * x }

  /** (p + 1/m)(1 + m)^n - 1/m */
  function ClosedForm(p: real, m: real, n: nat): real
    requires m > 0.0
  {
    (p + 1.0 / m) * Pow(1.0 + m, n) - 1.0 / m
  }

  lemma Regroup(a: real, w: real, g: real, k: real, m: real)
    requires g == 1.0 + m && k * m == 1.0
    ensures (a * w - k) * g + 1.0 == a * (w * g) - k
  {
  }

  lemma {:induction false} CeilingClosedForm(p: real, m: real, n: nat)
    requires m > 0.0
    ensures Ceiling(p, m, n) == ClosedForm(p, m, n)
  {
    if n > 0 {
      CeilingClosedForm(p, m, n - 1);
      Regroup(p + 1.0 / m, Pow(1.0 + m, n - 1), 1.0 + m, 1.0 / m, m);
    }
  }

  /** After n epochs of any usage: floor <= price <= (p + 1/m)(1 + m)^n - 1/m. */
  lemma TrajectoryBound(p: Pricer, prices: seq<nat>, epochs: seq<Epoch>, n: nat)
    requires Valid(p) && IsTrajectory(p, prices, epochs) && n < |prices|
    ensures p.floorPrice <= prices[n]
    ensures prices[n] as real <= ClosedForm(p.curPrice as real, p.maxChange, n)
  {
    TrajectoryCeiling(p, prices, epochs, n);
    CeilingClosedForm(p.curPrice as real, p.maxChange, n);
  }

  lemma IdleStep(p: Pricer, price: nat, e: Epoch, next: nat)
    requires Valid(p) && p.maxChange <= 1.0 && p.floorPrice <= price && e.avg == 0.0 && Completes(p, price, e, next)
    ensures p.floorPrice <= next <= price
    ensures next == price <==> AtRest(p.floorPrice, p.maxChange, price as real)
  {
    ZeroUsageStep(p.(curPrice := price), e.target);
  }

  /** Without usage every run comes to rest, in at most as many epochs as the price is above the floor. */
  lemma {:induction false} IdleComesToRest(p: Pricer, prices: seq<nat>, epochs: seq<Epoch>, n: nat)
    requires Valid(p) && p.maxChange <= 1.0 && IsTrajectory(p, prices, epochs) && n < |prices|
    requires forall i | 0 <= i < n :: epochs[i].avg == 0.0
    ensures p.floorPrice <= prices[n] <= p.curPrice
    ensures AtRest(p.floorPrice, p.maxChange, prices[n] as real) || prices[n] + n <= p.curPrice
    ensures n >= p.curPrice - p.floorPrice ==> AtRest(p.floorPrice, p.maxChange, prices[n] as real)
  {
    if n > 0 {
      IdleComesToRest(p, prices, epochs, n - 1);
      assert Completes(p, prices[n - 1], epochs[n - 1], prices[n - 1 + 1]);
      IdleStep(p, prices[n - 1], epochs[n - 1], prices[n]);
    }
  }

  // ----- the rule, from outside -----

  /** The change is the ratio of usage to target, cut off at one maximal change below and above one. */
  lemma ChangeIs(p: Pricer, avg: real, target: real)
    requires Valid(p) && target >= 1.0
    ensures 1.0 - p.maxChange <= Change(p, avg, target) <= 1.0 + p.maxChange
    ensures 1.0 - p.maxChange <= avg / target <= 1.0 + p.maxChange ==> Change(p, avg, target) == avg / target
    ensures avg / target < 1.0 - p.maxChange ==> Change(p, avg, target) == 1.0 - p.maxChange
    ensures avg / target > 1.0 + p.maxChange ==> Change(p, avg, target) == 1.0 + p.maxChange
  {
  }

  /** The next price is the least whole number that is neither below the floor nor below the changed price; only a
      negative usage and a target below one are refused. */
  lemma NextPriceIs(p: Pricer, avg: real, target: real, n: int)
    requires Valid(p)
    ensures NextPrice(p, avg, target).None? <==> avg < 0.0 || target < 1.0
    ensures NextPrice(p, avg, target).Some? ==>
            var next, exact := NextPrice(p, avg, target).value, p.curPrice as real * Change(p, avg, target);
            && next >= p.floorPrice && next as real >= exact
            && (n >= p.floorPrice && n as real >= exact ==> next <= n)
  {
  }
}
