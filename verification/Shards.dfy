/** The arithmetic of the CLI shard plan: `ceil_div`, `derive_runner_count`,
    `observed_skew_basis_points` and `check_observed` of `scripts/plan-cli-shards.py`. */
module Shards {

  const MAX_RUNNERS := 64
  const BASIS := 10000

  function CeilDiv(numerator: nat, denominator: nat): nat
    requires denominator > 0
  {
    (numerator + denominator - 1) / denominator
  }

  /** Rounding up is the lower adjoint of multiplication: it meets a bound exactly when the
      unrounded quotient does. */
  lemma CeilDivWithin(n: nat, d: nat, q: nat)
    requires d > 0
    ensures CeilDiv(n, d) <= q <==> n <= q * d
  {
    var r := CeilDiv(n, d);
    var rest := (n + d - 1) % d;
    assert n + d - 1 == r * d + rest;
    if r <= q {
      assert (q - r) * d >= 0;
    } else {
      assert (r - 1 - q) * d >= 0;
    }
  }

  // ----- the number of runners -----

  datatype Item = Item(name: string, observed: nat)

  /** The measured inputs of a plan. */
  datatype Plan = Plan(floor: nat, total: nat, allowance: nat, budget: nat, items: seq<Item>)

  predicate Validated(p: Plan) {
    p.floor > 0 && p.total > 0
  }

  datatype Derived = Runners(count: nat, projected: nat) | Overweight(items: seq<Item>) | TooMany

  function TooHeavy(items: seq<Item>, floor: nat): seq<Item> {
    if items == [] then []
    else
      var last := items[|items| - 1];
      TooHeavy(items[..|items| - 1], floor) + if last.observed > floor then [last] else []
  }

  lemma {:induction false} TooHeavyIsFilter(items: seq<Item>, floor: nat)
    ensures forall item :: item in TooHeavy(items, floor) <==> item in items && item.observed > floor
  {
    if items != [] {
      TooHeavyIsFilter(items[..|items| - 1], floor);
      assert items == items[..|items| - 1] + [items[|items| - 1]];
    }
  }

  /** The load, skew allowance included, in ten-thousandths of a millisecond. */
  function Load(p: Plan): nat {
    p.total * (BASIS + p.allowance)
  }

  /** `count` lanes, each within the floor, can carry the whole load. */
  predicate Carries(p: Plan, count: nat) {
    Load(p) <= count * BASIS * p.floor
  }

  /** The least number of lanes that can carry the load. */
  function Needed(p: Plan): nat
    requires Validated(p)
  {
    CeilDiv(Load(p), BASIS * p.floor)
  }

  lemma ProjectionCarries(p: Plan, count: nat)
    requires Validated(p) && count > 0
    ensures CeilDiv(Load(p), count * BASIS) <= p.floor <==> Carries(p, count)
  {
    CeilDivWithin(Load(p), count * BASIS, p.floor);
    assert p.floor * (count * BASIS) == count * BASIS * p.floor;
  }

  lemma NeededCarries(p: Plan, count: nat)
    requires Validated(p)
    ensures Carries(p, count) <==> Needed(p) <= count
    ensures Needed(p) > 0
  {
    CeilDivWithin(Load(p), BASIS * p.floor, count);
    assert count * (BASIS * p.floor) == count * BASIS * p.floor;
    CeilDivWithin(Load(p), BASIS * p.floor, 0);
    assert p.total * (BASIS + p.allowance) > 0;
  }

  /** The least runner count, if no item is too heavy for any lane and 64 runners suffice. */
  method DeriveRunnerCount(p: Plan) returns (r: Derived)
    requires Validated(p)
    ensures r.Overweight? <==> exists item :: item in p.items && item.observed > p.floor
    ensures r.Overweight? ==> r.items == TooHeavy(p.items, p.floor)
    ensures !r.Overweight? ==> (r.Runners? <==> Needed(p) <= MAX_RUNNERS)
    ensures r.Runners? ==>
      && r.count == Needed(p) && Carries(p, r.count)
      && (forall fewer: nat :: fewer < r.count ==> !Carries(p, fewer))
      && r.projected == CeilDiv(Load(p), r.count * BASIS) <= p.floor
  {
    hide Carries;
    hide Load;
    hide CeilDiv;
    var overweight := TooHeavy(p.items, p.floor);
    TooHeavyIsFilter(p.items, p.floor);
    if overweight != [] {
      assert overweight[0] in overweight;
      return Overweight(overweight);
    }
    forall n: nat ensures Carries(p, n) <==> Needed(p) <= n {
      NeededCarries(p, n);
    }
    NeededCarries(p, 0);
    hide Needed;
    var count := 1;
    while count < MAX_RUNNERS + 1
      invariant 1 <= count <= MAX_RUNNERS + 1 && count <= Needed(p)
    {
      var projected := CeilDiv(Load(p), count * BASIS);
      ProjectionCarries(p, count);
      assert Carries(p, count) <==> Needed(p) <= count;
      if projected <= p.floor {
        return Runners(count, projected);
      }
      count := count + 1;
    }
    r := TooMany;
  }

  // ----- the observed skew -----

  function Sum(walls: seq<nat>): nat {
    if walls == [] then 0 else Sum(walls[..|walls| - 1]) + walls[|walls| - 1]
  }

  function Max(walls: seq<nat>): nat {
    if walls == [] then 0
    else
      var m := Max(walls[..|walls| - 1]);
      if walls[|walls| - 1] > m then walls[|walls| - 1] else m
  }

  predicate Positive(walls: seq<nat>) {
    walls != [] && forall i :: 0 <= i < |walls| ==> walls[i] > 0
  }

  lemma MaxStep(before: nat, after: nat, n: nat, sum: nat, last: nat)
    requires sum <= before * n && before <= after && last <= after
    ensures sum + last <= after * (n + 1)
  {
    assert (after - before) * n >= 0;
    assert after * (n + 1) == after * n + after;
  }

  lemma {:induction false} SumBelowMax(walls: seq<nat>)
    ensures Sum(walls) <= Max(walls) * |walls|
    ensures Positive(walls) ==> Sum(walls) > 0
  {
    if walls != [] {
      var (front, last) := (walls[..|walls| - 1], walls[|walls| - 1]);
      SumBelowMax(front);
      MaxStep(Max(front), Max(walls), |front|, Sum(front), last);
      assert front != [] && Positive(walls) ==> Positive(front);
    }
  }

  /** The largest of the walls. */
  lemma {:induction false} MaxIsLargest(walls: seq<nat>)
    ensures forall i :: 0 <= i < |walls| ==> walls[i] <= Max(walls)
    ensures walls != [] ==> Max(walls) in walls
  {
    if walls != [] {
      var (front, last) := (walls[..|walls| - 1], walls[|walls| - 1]);
      MaxIsLargest(front);
      assert walls == front + [last];
    }
  }

  datatype Skew = BasisPoints(value: nat) | BadWalls

  /** By how much the slowest lane exceeds the mean, in basis points, rounded up. */
  function ObservedSkew(walls: seq<nat>): Skew {
    if !Positive(walls) then BadWalls
    else
      SumBelowMax(walls);
      BasisPoints(CeilDiv((Max(walls) * |walls| - Sum(walls)) * BASIS, Sum(walls)))
  }

  /** The slowest lane is within the budget above the mean, in whole numbers. */
  predicate Balanced(walls: seq<nat>, budget: nat) {
    Max(walls) * |walls| * BASIS <= Sum(walls) * (BASIS + budget)
  }

  /** Rounding never changes the verdict on a budget. */
  lemma SkewWithinBudget(walls: seq<nat>, budget: nat)
    requires Positive(walls)
    ensures ObservedSkew(walls).BasisPoints?
    ensures ObservedSkew(walls).value <= budget <==> Balanced(walls, budget)
  {
    SumBelowMax(walls);
    var (m, sum) := (Max(walls) * |walls|, Sum(walls));
    CeilDivWithin((m - sum) * BASIS, sum, budget);
    assert (m - sum) * BASIS == m * BASIS - sum * BASIS;
    assert sum * (BASIS + budget) == sum * BASIS + budget * sum;
  }

  datatype Sample = Sample(name: string, walls: seq<nat>)

  datatype Observed =
    Unbalanced(names: seq<string>) | WrongCount(name: string) | BadSample(name: string) | NoPlan | NoSamples

  predicate Usable(s: Sample, count: nat) {
    |s.walls| == count && Positive(s.walls)
  }

  /** The names of the samples over the budget, in order. */
  function OverBudget(samples: seq<Sample>, budget: nat): seq<string> {
    if samples == [] then []
    else
      var last := samples[|samples| - 1];
      OverBudget(samples[..|samples| - 1], budget) + if Balanced(last.walls, budget) then [] else [last.name]
  }

  /** Reports exactly the samples whose skew exceeds the budget, once every sample has one lane
      for each runner of the plan. */
  method CheckObserved(p: Plan, samples: seq<Sample>) returns (r: Observed)
    requires Validated(p)
    ensures r.Unbalanced? <==>
      && (forall item :: item in p.items ==> item.observed <= p.floor) && Needed(p) <= MAX_RUNNERS
      && samples != [] && forall i :: 0 <= i < |samples| ==> Usable(samples[i], Needed(p))
    ensures r.Unbalanced? ==> r.names == OverBudget(samples, p.budget)
  {
    hide Balanced;
    hide Needed;
    hide Positive;
    hide ObservedSkew;
    var derived := DeriveRunnerCount(p);
    if !derived.Runners? {
      return NoPlan;
    }
    if samples == [] {
      return NoSamples;
    }
    var names: seq<string> := [];
    var i := 0;
    while i < |samples|
      invariant i <= |samples| && names == OverBudget(samples[..i], p.budget)
      invariant forall k :: 0 <= k < i ==> Usable(samples[k], Needed(p))
    {
      var sample := samples[i];
      assert samples[..i + 1][..i] == samples[..i];
      if |sample.walls| != derived.count {
        return WrongCount(sample.name);
      }
      var skew := ObservedSkew(sample.walls);
      SkewIsBad(sample.walls);
      if skew.BadWalls? {
        return BadSample(sample.name);
      }
      SkewWithinBudget(sample.walls, p.budget);
      if skew.value > p.budget {
        names := names + [sample.name];
      }
      i := i + 1;
    }
    assert samples[..i] == samples;
    r := Unbalanced(names);
  }

  lemma SkewIsBad(walls: seq<nat>)
    ensures ObservedSkew(walls).BadWalls? <==> !Positive(walls)
  {
  }
}
