/** `GasPriceUpdater.UpdateGasPrice` of gas-oracle: which blocks each completed epoch paid for. */
module EpochAccounting {
  import opened Common
  import opened GasPricing

  /** Gas used per block, as the node reports it. */
  type GasOf = nat -> nat

  /** The environment of one call: the head, the blocks that can be fetched, the target, the publication. */
  datatype Call = Call(latest: Option<nat>, fetchOk: nat -> bool, target: real, publishOk: bool)

  /** A completed epoch: blocks after `from` up to `to`, and the gas it was charged with. */
  datatype EpochRange = EpochRange(from: nat, to: nat, gas: nat)

  datatype Books = Books(start: nat, pricer: Pricer, epochs: seq<EpochRange>)

  datatype Report = Failed | Idle | Updated(published: bool)

  /** The gas of the blocks after `from` up to `to`. */
  function GasBetween(gas: GasOf, from: nat, to: nat): nat
    decreases to
  {
    if to <= from then 0 else GasBetween(gas, from, to - 1) + gas(to)
  }

  predicate Fetchable(call: Call, from: nat, to: nat) { forall i | from < i <= to :: call.fetchOk(i) }

  /** One call, without the loop. */
  function Update(gas: GasOf, epochSeconds: nat, b: Books, call: Call): (Report, Books)
    requires epochSeconds >= 1
  {
    if call.latest.None? || call.latest.value < b.start then (Failed, b)
    else if call.latest.value == b.start then (Idle, b)
    else if !Fetchable(call, b.start, call.latest.value) then (Failed, b)
    else
      var total := GasBetween(gas, b.start, call.latest.value);
      var price := NextPrice(b.pricer, total as real / epochSeconds as real, call.target);
      if price.None? then (Failed, b)
      else (Updated(call.publishOk),
            Books(call.latest.value, b.pricer.(curPrice := price.value),
                  b.epochs + [EpochRange(b.start, call.latest.value, total)]))
  }

  class GasPriceUpdater {
    var epochStartBlockNumber: nat
    const gasPricer: GasPricer
    const epochLengthSeconds: nat
    ghost var epochs: seq<EpochRange>

    ghost predicate Ready()
      reads this, gasPricer
    {
      epochLengthSeconds >= 1 && Valid(gasPricer.State())
    }

    ghost function State(): Books
      reads this, gasPricer
    {
      Books(epochStartBlockNumber, gasPricer.State(), epochs)
    }

    constructor (pricer: GasPricer, start: nat, epochSeconds: nat)
      requires Valid(pricer.State()) && epochSeconds >= 1
      ensures Ready() && State() == Books(start, pricer.State(), []) && gasPricer == pricer
      ensures epochLengthSeconds == epochSeconds
    {
      gasPricer, epochStartBlockNumber, epochLengthSeconds, epochs := pricer, start, epochSeconds, [];
    }

    /** The accumulation loop; `None` is a block that could not be fetched. */
    method AccumulateGas(gas: GasOf, call: Call, latest: nat) returns (total: Option<nat>)
      requires epochStartBlockNumber < latest
      ensures total == if Fetchable(call, epochStartBlockNumber, latest)
                       then Some(GasBetween(gas, epochStartBlockNumber, latest)) else None
    {
      var sum, i := 0, epochStartBlockNumber + 1;
      while i <= latest
        invariant epochStartBlockNumber + 1 <= i <= latest + 1
        invariant sum == GasBetween(gas, epochStartBlockNumber, i - 1)
        invariant Fetchable(call, epochStartBlockNumber, i - 1)
      {
        if !call.fetchOk(i) {
          return None;
        }
        sum := sum + gas(i);
        i := i + 1;
      }
      total := Some(sum);
    }

    method UpdateGasPrice(gas: GasOf, call: Call) returns (report: Report)
      requires Ready()
      modifies this, gasPricer
      ensures Ready() && (report, State()) == Update(gas, epochLengthSeconds, old(State()), call)
    {
      if call.latest.None? {
        return Failed;
      }
      var latest := call.latest.value;
      if latest < epochStartBlockNumber {
        return Failed;
      }
      if latest == epochStartBlockNumber {
        return Idle;
      }
      var total := AccumulateGas(gas, call, latest);
      if total.None? {
        return Failed;
      }
      var price := gasPricer.CompleteEpoch(total.value as real / epochLengthSeconds as real, call.target);
      if price.None? {
        return Failed;
      }
      epochs := epochs + [EpochRange(epochStartBlockNumber, latest, total.value)];
      epochStartBlockNumber := latest;
      report := Updated(call.publishOk);
    }
  }

  // ----- whole runs -----

  /** Consecutive ranges from `first` to `last`, each charged with exactly its blocks' gas. */
  predicate Tiled(gas: GasOf, first: nat, epochs: seq<EpochRange>, last: nat) {
    if epochs == [] then first == last
    else
      var e := epochs[|epochs| - 1];
      && e.from < e.to == last
      && e.gas == GasBetween(gas, e.from, e.to)
      && Tiled(gas, first, epochs[..|epochs| - 1], e.from)
  }

  function Charged(epochs: seq<EpochRange>): nat {
    if epochs == [] then 0 else Charged(epochs[..|epochs| - 1]) + epochs[|epochs| - 1].gas
  }

  predicate IsRun(gas: GasOf, epochSeconds: nat, books: seq<Books>, calls: seq<Call>)
    requires epochSeconds >= 1
  {
    && |books| == |calls| + 1
    && books[0].epochs == [] && Valid(books[0].pricer)
    && forall i | 0 <= i < |calls| :: books[i + 1] == Update(gas, epochSeconds, books[i], calls[i]).1
  }

  lemma UpdateStep(gas: GasOf, epochSeconds: nat, first: nat, b: Books, call: Call)
    requires epochSeconds >= 1 && Tiled(gas, first, b.epochs, b.start)
    ensures Tiled(gas, first, Update(gas, epochSeconds, b, call).1.epochs, Update(gas, epochSeconds, b, call).1.start)
  {
  }

  /** A range of one block has that block's gas. */
  lemma OneBlock(gas: GasOf, n: nat)
    ensures GasBetween(gas, n, n) == 0 && GasBetween(gas, n, n + 1) == gas(n + 1)
  {
  }

  lemma {:induction false} GasSplits(gas: GasOf, a: nat, b: nat, c: nat)
    requires a <= b <= c
    ensures GasBetween(gas, a, c) == GasBetween(gas, a, b) + GasBetween(gas, b, c)
    decreases c
  {
    if b < c { GasSplits(gas, a, b, c - 1); }
  }

  lemma {:induction false} ChargedIsGas(gas: GasOf, first: nat, epochs: seq<EpochRange>, last: nat)
    requires Tiled(gas, first, epochs, last)
    ensures first <= last && Charged(epochs) == GasBetween(gas, first, last)
  {
    if epochs != [] {
      var e := epochs[|epochs| - 1];
      ChargedIsGas(gas, first, epochs[..|epochs| - 1], e.from);
      GasSplits(gas, first, e.from, last);
    }
  }

  /** Nothing is lost and nothing counted twice, whatever fails along the way. */
  lemma {:induction false} EpochsTile(gas: GasOf, epochSeconds: nat, books: seq<Books>, calls: seq<Call>, n: nat)
    requires epochSeconds >= 1 && IsRun(gas, epochSeconds, books, calls) && n < |books|
    ensures Tiled(gas, books[0].start, books[n].epochs, books[n].start)
    ensures Charged(books[n].epochs) == GasBetween(gas, books[0].start, books[n].start)
  {
    if n > 0 {
      EpochsTile(gas, epochSeconds, books, calls, n - 1);
      UpdateStep(gas, epochSeconds, books[0].start, books[n - 1], calls[n - 1]);
      assert books[n - 1 + 1] == Update(gas, epochSeconds, books[n - 1], calls[n - 1]).1;
    }
    ChargedIsGas(gas, books[0].start, books[n].epochs, books[n].start);
  }

  lemma PriceStep(gas: GasOf, epochSeconds: nat, p0: Pricer, b: Books, call: Call)
    requires epochSeconds >= 1 && Valid(p0) && Valid(b.pricer) && b.pricer == p0.(curPrice := b.pricer.curPrice)
    requires b.pricer.curPrice as real <= Ceiling(p0.curPrice as real, p0.maxChange, |b.epochs|)
    ensures var b' := Update(gas, epochSeconds, b, call).1;
            && Valid(b'.pricer) && b'.pricer == p0.(curPrice := b'.pricer.curPrice)
            && b'.pricer.curPrice as real <= Ceiling(p0.curPrice as real, p0.maxChange, |b'.epochs|)
  {
    var b' := Update(gas, epochSeconds, b, call).1;
    if b' != b {
      var e := Epoch(GasBetween(gas, b.start, call.latest.value) as real / epochSeconds as real, call.target);
      assert Completes(p0, b.pricer.curPrice, e, b'.pricer.curPrice);
      StepKeepsBound(p0, b.pricer.curPrice, e, b'.pricer.curPrice, Ceiling(p0.curPrice as real, p0.maxChange, |b.epochs|));
    }
  }

  /** The price follows the completed epochs only: failed calls do not move it. */
  lemma {:induction false} PriceFollowsEpochs(gas: GasOf, epochSeconds: nat, books: seq<Books>, calls: seq<Call>, n: nat)
    requires epochSeconds >= 1 && IsRun(gas, epochSeconds, books, calls) && n < |books|
    ensures books[0].pricer.floorPrice <= books[n].pricer.curPrice
    ensures books[n].pricer.curPrice as real <=
            Ceiling(books[0].pricer.curPrice as real, books[0].pricer.maxChange, |books[n].epochs|)
    ensures Valid(books[n].pricer) && books[n].pricer == books[0].pricer.(curPrice := books[n].pricer.curPrice)
  {
    if n > 0 {
      PriceFollowsEpochs(gas, epochSeconds, books, calls, n - 1);
      PriceStep(gas, epochSeconds, books[0].pricer, books[n - 1], calls[n - 1]);
      assert books[n - 1 + 1] == Update(gas, epochSeconds, books[n - 1], calls[n - 1]).1;
    }
  }

  // ----- one call, from outside -----

  /** A call completes an epoch exactly when there are new blocks, all can be fetched and the target is sensible. */
  predicate Completing(b: Books, call: Call) {
    && call.latest.Some? && call.latest.value > b.start
    && (forall i: nat | b.start < i <= call.latest.value :: call.fetchOk(i))
    && call.target >= 1.0
  }

  lemma UpdateIs(gas: GasOf, epochSeconds: nat, b: Books, call: Call)
    requires epochSeconds >= 1
    ensures Update(gas, epochSeconds, b, call).0.Updated? <==> Completing(b, call)
    ensures Completing(b, call) ==> Update(gas, epochSeconds, b, call).0.published == call.publishOk
    ensures Update(gas, epochSeconds, b, call).0.Idle? <==> call.latest == Some(b.start)
    ensures !Completing(b, call) ==> Update(gas, epochSeconds, b, call).1 == b
  {
    if call.latest.Some? { AverageUsage(GasBetween(gas, b.start, call.latest.value), epochSeconds); }
  }

  lemma AverageUsage(total: nat, seconds: nat)
    requires seconds >= 1
    ensures total as real / seconds as real >= 0.0
    ensures total as real / seconds as real * seconds as real == total as real
  {
  }

  /** A completed epoch is charged with its blocks, ends at the latest one, and sets the price for the usage per second
      they amount to, whether or not it gets published. */
  lemma CompletedEpochIs(gas: GasOf, epochSeconds: nat, b: Books, call: Call, avg: real)
    requires epochSeconds >= 1 && Completing(b, call)
    requires avg * epochSeconds as real == GasBetween(gas, b.start, call.latest.value) as real
    ensures var b' := Update(gas, epochSeconds, b, call).1;
            && b'.start == call.latest.value
            && b'.epochs == b.epochs + [EpochRange(b.start, b'.start, GasBetween(gas, b.start, b'.start))]
            && NextPrice(b.pricer, avg, call.target) == Some(b'.pricer.curPrice)
            && b'.pricer == b.pricer.(curPrice := b'.pricer.curPrice)
  {
    UpdateIs(gas, epochSeconds, b, call);
    SameAverage(GasBetween(gas, b.start, call.latest.value) as real, avg, epochSeconds as real);
  }

  lemma SameAverage(total: real, avg: real, seconds: real)
    requires seconds >= 1.0 && avg * seconds == total
    ensures total / seconds == avg
  {
  }
}
