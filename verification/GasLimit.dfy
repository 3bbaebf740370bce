/** `CalcGasLimit` of l2geth with its 64-bit wrap-around, and the dynamics of repeated steps. */
module GasLimit {
  import opened Common

  type uint64 = x: nat | x < UINT64

  const DIVISOR: nat := 1024
  const MIN_GAS_LIMIT: uint64 := 4000000

  function Add(a: uint64, b: uint64): uint64 { (a + b) % UINT64 }

  function Sub(a: uint64, b: uint64): uint64 { (a - b + UINT64) % UINT64 }

  function Decay(limit: uint64): uint64 { Sub(limit / DIVISOR, 1) }

  function Contrib(used: uint64): uint64 { Add(used, used / 2) / DIVISOR }

  /** The limit before the floor and the ceiling are looked at. */
  function Raw(limit: uint64, used: uint64): uint64 {
    var next := Add(Sub(limit, Decay(limit)), Contrib(used));
    if next < MIN_GAS_LIMIT then MIN_GAS_LIMIT else next
  }

  function CalcGasLimit(limit: uint64, used: uint64, floor: uint64, ceil: uint64): uint64 {
    var raw := Raw(limit, used);
    if raw < floor then
      var up := Add(limit, Decay(limit));
      if up > floor then floor else up
    else if raw > ceil then
      var down := Sub(limit, Decay(limit));
      if down < ceil then ceil else down
    else raw
  }

  /** The largest limit a block header may carry. */
  const MAX_GAS_LIMIT: uint64 := 0x7fff_ffff_ffff_ffff

  lemma Fits(a: uint64, b: uint64)
    ensures a + b < UINT64 ==> Add(a, b) == a + b
    ensures a >= b ==> Sub(a, b) == a - b
  {
  }

  /** From 1024 on nothing wraps. */
  lemma NoWrap(limit: uint64, used: uint64)
    requires DIVISOR <= limit <= MAX_GAS_LIMIT && used <= limit
    ensures Decay(limit) == limit / DIVISOR - 1
    ensures Contrib(used) == (used + used / 2) / DIVISOR
    ensures Add(limit, Decay(limit)) == limit + limit / DIVISOR - 1
    ensures Sub(limit, Decay(limit)) == limit - limit / DIVISOR + 1
    ensures Raw(limit, used) ==
            var next := limit - limit / DIVISOR + 1 + (used + used / 2) / DIVISOR;
            if next < MIN_GAS_LIMIT then MIN_GAS_LIMIT else next
  {
    Fits(limit / DIVISOR, 1);
    Fits(used, used / 2);
    Fits(limit, limit / DIVISOR - 1);
    Fits(limit - limit / DIVISOR + 1, (used + used / 2) / DIVISOR);
  }

  /** Below 1024 the decay wraps, and the step goes to the minimum. */
  lemma Wraps(limit: uint64, used: uint64)
    requires limit < DIVISOR && used <= limit
    ensures Sub(limit, Decay(limit)) == limit + 1 && Raw(limit, used) == MIN_GAS_LIMIT
  {
    assert Decay(limit) == UINT64 - 1;
    assert Sub(limit, UINT64 - 1) == limit + 1;
    Fits(used, used / 2);
    Fits(limit + 1, Contrib(used));
  }

  /** The bound of section 4.3.4 (Block Header Validity) of the Ethereum Yellow Paper. */
  predicate Allowed(limit: uint64, next: uint64) {
    next - limit < limit / DIVISOR && limit - next < limit / DIVISOR
  }

  predicate Call(limit: uint64, used: uint64, floor: uint64, ceil: uint64) { used <= limit && floor <= ceil }

  lemma StepAllowed(limit: uint64, used: uint64, floor: uint64, ceil: uint64)
    requires limit <= MAX_GAS_LIMIT && limit + limit / DIVISOR > MIN_GAS_LIMIT && Call(limit, used, floor, ceil)
    ensures Allowed(limit, CalcGasLimit(limit, used, floor, ceil))
  {
    NoWrap(limit, used);
    var q := limit / DIVISOR;
    assert (used + used / 2) / DIVISOR <= (limit + limit / 2) / DIVISOR <= 3 * (q + 1) / 2;
  }

  lemma StepForbidden(limit: uint64)
    requires limit + limit / DIVISOR <= MIN_GAS_LIMIT
    ensures Call(limit, 0, MIN_GAS_LIMIT, MIN_GAS_LIMIT)
    ensures !Allowed(limit, CalcGasLimit(limit, 0, MIN_GAS_LIMIT, MIN_GAS_LIMIT))
  {
  }

  /** Every step from a limit is allowed exactly when the limit is within one step of the minimum, or above. */
  lemma AllowedIff(limit: uint64)
    requires limit <= MAX_GAS_LIMIT
    ensures (forall used: uint64, floor: uint64, ceil: uint64 | Call(limit, used, floor, ceil) ::
               Allowed(limit, CalcGasLimit(limit, used, floor, ceil)))
            <==> limit + limit / DIVISOR > MIN_GAS_LIMIT
  {
    if limit + limit / DIVISOR > MIN_GAS_LIMIT {
      forall used: uint64, floor: uint64, ceil: uint64 | Call(limit, used, floor, ceil) {
        StepAllowed(limit, used, floor, ceil);
      }
    } else {
      StepForbidden(limit);
    }
  }

  predicate Inside(limit: uint64, floor: uint64, ceil: uint64) { floor <= limit <= ceil }

  /** The interval is closed under steps, except at a ceiling so low that the decay wraps. */
  lemma ClosedIff(limit: uint64, used: uint64, floor: uint64, ceil: uint64)
    requires limit <= MAX_GAS_LIMIT && used <= limit && Inside(limit, floor, ceil)
    ensures Inside(CalcGasLimit(limit, used, floor, ceil), floor, ceil) <==> limit >= DIVISOR || limit < ceil
  {
    if limit < DIVISOR { Wraps(limit, used); } else { NoWrap(limit, used); }
  }

  /** How far a limit is from the interval. */
  function Distance(limit: uint64, floor: uint64, ceil: uint64): nat {
    if limit < floor then floor - limit else if limit > ceil then limit - ceil else 0
  }

  /** One step takes at least the decay off the distance. */
  lemma StepCloser(limit: uint64, used: uint64, floor: uint64, ceil: uint64)
    requires DIVISOR <= limit <= MAX_GAS_LIMIT && Call(limit, used, floor, ceil)
    ensures Distance(CalcGasLimit(limit, used, floor, ceil), floor, ceil) <=
            Max(0, Distance(limit, floor, ceil) - Decay(limit))
  {
    NoWrap(limit, used);
  }

  predicate IsRun(limits: seq<uint64>, used: seq<uint64>, floor: uint64, ceil: uint64) {
    && |limits| == |used| + 1
    && forall i | 0 <= i < |used| ::
         used[i] <= limits[i] && limits[i + 1] == CalcGasLimit(limits[i], used[i], floor, ceil)
  }

  /** Limits from which no step helps: the decay is zero below a floor above the minimum, or the ceiling is so low
      that the decay is used up before it is reached. */
  predicate Stuck(limit: uint64, floor: uint64, ceil: uint64) {
    (floor > MIN_GAS_LIMIT && DIVISOR <= limit < 2 * DIVISOR) || (limit > ceil && ceil < 2 * DIVISOR - 1)
  }

  /** A bound on the steps to the interval: wrapped decay counts down to zero and then jumps to the floor. */
  function Rank(limit: uint64, floor: uint64, ceil: uint64): nat {
    if floor > MIN_GAS_LIMIT && limit < DIVISOR then limit + 1 else Distance(limit, floor, ceil)
  }

  predicate Configured(floor: uint64, ceil: uint64) { floor <= ceil <= MAX_GAS_LIMIT }

  lemma StuckStep(limit: uint64, used: uint64, floor: uint64, ceil: uint64)
    requires limit <= MAX_GAS_LIMIT && used <= limit && Configured(floor, ceil) && Stuck(limit, floor, ceil)
    ensures var next := CalcGasLimit(limit, used, floor, ceil); next <= MAX_GAS_LIMIT && Stuck(next, floor, ceil)
  {
    if limit < DIVISOR { Wraps(limit, used); } else { NoWrap(limit, used); }
  }

  lemma SmallStep(limit: uint64, used: uint64, floor: uint64, ceil: uint64)
    requires limit < DIVISOR && used <= limit && Configured(floor, ceil)
    requires !Inside(limit, floor, ceil) && !Stuck(limit, floor, ceil)
    ensures var next := CalcGasLimit(limit, used, floor, ceil);
            && next <= MAX_GAS_LIMIT && !Stuck(next, floor, ceil)
            && Rank(next, floor, ceil) < Rank(limit, floor, ceil)
  {
    Wraps(limit, used);
    assert Decay(limit) == UINT64 - 1;
    assert Add(limit, UINT64 - 1) == if limit == 0 then UINT64 - 1 else limit - 1;
  }

  lemma LargeStep(limit: uint64, used: uint64, floor: uint64, ceil: uint64)
    requires DIVISOR <= limit <= MAX_GAS_LIMIT && used <= limit && Configured(floor, ceil)
    requires !Inside(limit, floor, ceil) && !Stuck(limit, floor, ceil)
    ensures var next := CalcGasLimit(limit, used, floor, ceil);
            && next <= MAX_GAS_LIMIT && !Stuck(next, floor, ceil)
            && Rank(next, floor, ceil) < Rank(limit, floor, ceil)
  {
    NoWrap(limit, used);
  }

  predicate HasEntered(limits: seq<uint64>, n: nat, floor: uint64, ceil: uint64) {
    exists i: nat :: i <= n && i < |limits| && Inside(limits[i], floor, ceil)
  }

  /** From a limit that is not stuck every run enters the interval within its rank. */
  lemma {:induction false} RunEnters(limits: seq<uint64>, used: seq<uint64>, floor: uint64, ceil: uint64, n: nat)
    requires IsRun(limits, used, floor, ceil) && Configured(floor, ceil) && n < |limits|
    requires limits[0] <= MAX_GAS_LIMIT && !Stuck(limits[0], floor, ceil)
    ensures HasEntered(limits, n, floor, ceil) ||
            (Rank(limits[n], floor, ceil) + n <= Rank(limits[0], floor, ceil) && limits[n] <= MAX_GAS_LIMIT
             && !Stuck(limits[n], floor, ceil))
    ensures n >= Rank(limits[0], floor, ceil) ==> HasEntered(limits, n, floor, ceil)
  {
    if n > 0 {
      RunEnters(limits, used, floor, ceil, n - 1);
      if !HasEntered(limits, n - 1, floor, ceil) {
        var l, u := limits[n - 1], used[n - 1];
        assert u <= l && limits[n - 1 + 1] == CalcGasLimit(l, u, floor, ceil);
        if l < DIVISOR { SmallStep(l, u, floor, ceil); } else { LargeStep(l, u, floor, ceil); }
      }
    }
    if Rank(limits[n], floor, ceil) == 0 { assert Inside(limits[n], floor, ceil); }
  }

  lemma {:induction false} StuckForever(limits: seq<uint64>, used: seq<uint64>, floor: uint64, ceil: uint64, n: nat)
    requires IsRun(limits, used, floor, ceil) && Configured(floor, ceil) && n < |limits|
    requires limits[0] <= MAX_GAS_LIMIT && Stuck(limits[0], floor, ceil)
    ensures limits[n] <= MAX_GAS_LIMIT && Stuck(limits[n], floor, ceil) && !Inside(limits[n], floor, ceil)
  {
    if n > 0 {
      StuckForever(limits, used, floor, ceil, n - 1);
      assert used[n - 1] <= limits[n - 1] && limits[n - 1 + 1] == CalcGasLimit(limits[n - 1], used[n - 1], floor, ceil);
      StuckStep(limits[n - 1], used[n - 1], floor, ceil);
    }
  }

  /** Runs can be as long as one likes. */
  lemma {:induction false} RunExists(limit: uint64, floor: uint64, ceil: uint64, n: nat)
    returns (limits: seq<uint64>, used: seq<uint64>)
    ensures IsRun(limits, used, floor, ceil) && |limits| == n + 1 && limits[0] == limit
  {
    if n == 0 {
      limits, used := [limit], [];
    } else {
      limits, used := RunExists(limit, floor, ceil, n - 1);
      limits, used := limits + [CalcGasLimit(limits[n - 1], 0, floor, ceil)], used + [0];
    }
  }

  /** Within a fixed number of steps every run from this limit has been in the interval. */
  ghost predicate EveryRunEnters(limit: uint64, floor: uint64, ceil: uint64) {
    exists n: nat :: EntersWithin(limit, floor, ceil, n)
  }

  ghost predicate EntersWithin(limit: uint64, floor: uint64, ceil: uint64, n: nat) {
    forall limits: seq<uint64>, used: seq<uint64>
      | IsRun(limits, used, floor, ceil) && |limits| > n && limits[0] == limit :: HasEntered(limits, n, floor, ceil)
  }

  /** Every run from a limit enters the interval exactly when the limit is not stuck. */
  lemma EntersIff(limit: uint64, floor: uint64, ceil: uint64)
    requires limit <= MAX_GAS_LIMIT && Configured(floor, ceil)
    ensures EveryRunEnters(limit, floor, ceil) <==> !Stuck(limit, floor, ceil)
  {
    if Stuck(limit, floor, ceil) {
      forall n: nat ensures !EntersWithin(limit, floor, ceil, n) {
        var limits, used := RunExists(limit, floor, ceil, n);
        forall i: nat | i < |limits| { StuckForever(limits, used, floor, ceil, i); }
        assert !HasEntered(limits, n, floor, ceil);
      }
    } else {
      var n := Rank(limit, floor, ceil);
      forall limits: seq<uint64>, used: seq<uint64>
        | IsRun(limits, used, floor, ceil) && |limits| > n && limits[0] == limit
        ensures HasEntered(limits, n, floor, ceil)
      {
        RunEnters(limits, used, floor, ceil, n);
      }
      assert EntersWithin(limit, floor, ceil, n);
    }
  }

  /** With a ceiling of at least 1024 a run that has entered the interval stays there. */
  lemma {:induction false} RunStays(limits: seq<uint64>, used: seq<uint64>, floor: uint64, ceil: uint64, i: nat, n: nat)
    requires IsRun(limits, used, floor, ceil) && Configured(floor, ceil) && DIVISOR <= ceil && i <= n < |limits|
    requires Inside(limits[i], floor, ceil)
    ensures Inside(limits[n], floor, ceil)
  {
    if i < n {
      RunStays(limits, used, floor, ceil, i, n - 1);
      assert used[n - 1] <= limits[n - 1] && limits[n - 1 + 1] == CalcGasLimit(limits[n - 1], used[n - 1], floor, ceil);
      ClosedIff(limits[n - 1], used[n - 1], floor, ceil);
    }
  }

  // ----- the rule in plain integers -----

  /** The limit moves by the decay against usage above two thirds, not below the minimum, and by at most the decay
      towards an interval it would miss. */
  function IdealLimit(limit: nat, used: nat, floor: nat, ceil: nat): int {
    var decay := limit / 1024 - 1;
    var target := Max(4000000, limit - decay + 3 * used / 2 / 1024);
    if target < floor then Min(floor, limit + decay)
    else if target > ceil then Max(ceil, limit - decay)
    else target
  }

  lemma HalfMore(used: nat)
    ensures used + used / 2 == 3 * used / 2
  {
  }

  /** From 1024 on the 64-bit code computes that rule. */
  lemma RefinesIdeal(limit: uint64, used: uint64, floor: uint64, ceil: uint64)
    requires DIVISOR <= limit <= MAX_GAS_LIMIT && used <= limit
    ensures CalcGasLimit(limit, used, floor, ceil) == IdealLimit(limit, used, floor, ceil)
  {
    NoWrap(limit, used);
    HalfMore(used);
  }
}
