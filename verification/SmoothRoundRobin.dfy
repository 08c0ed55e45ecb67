/** Smooth weighted round-robin (src/services/load-balancer-service.ts). */
module SmoothRoundRobin {
  import opened Words
  import opened Origins

  /** weight is already clamped with `Math.max(1, weight)`. */
  datatype Origin = Origin(id: OriginId, weight: nat)

  predicate Usable(origins: seq<Origin>) {
    && origins != []
    && (forall i :: 0 <= i < |origins| ==> origins[i].weight >= 1)
    && (forall i, j :: 0 <= i < j < |origins| ==> origins[i].id != origins[j].id)
  }

  function Weights(origins: seq<Origin>): (w: seq<int>)
    ensures |w| == |origins| && forall i :: 0 <= i < |w| ==> w[i] == origins[i].weight
  {
    seq(|origins|, i requires 0 <= i < |origins| => origins[i].weight)
  }

  function Sum(s: seq<int>): int {
    if s == [] then 0 else s[0] + Sum(s[1..])
  }

  /** k is the first position of a maximum. */
  predicate FirstMaximum(s: seq<int>, k: nat) {
    k < |s| && (forall j :: 0 <= j < |s| ==> s[j] <= s[k]) && forall j :: 0 <= j < k ==> s[j] < s[k]
  }

  function Added(a: seq<int>, b: seq<int>): (c: seq<int>)
    requires |a| == |b|
    ensures |c| == |a|
  {
    seq(|a|, i requires 0 <= i < |a| => a[i] + b[i])
  }

  class Balancer {
    var smoothWeights: map<OriginId, int>

    constructor ()
      ensures smoothWeights == map[] && forall id :: Current(id) == 0
    {
      smoothWeights := map[];
    }

    function Current(id: OriginId): int
      reads this
    {
      if id in smoothWeights then smoothWeights[id] else 0
    }

    function Vector(origins: seq<Origin>): (v: seq<int>)
      reads this
      ensures |v| == |origins|
    {
      seq(|origins|, i requires 0 <= i < |origins| reads this => Current(origins[i].id))
    }

    /** The weighted branch of `nextByAlgorithm`: every weight is added, the first largest is picked and
        pays back the total. */
    method Next(origins: seq<Origin>) returns (k: nat)
      requires Usable(origins)
      modifies this
      ensures FirstMaximum(Added(old(Vector(origins)), Weights(origins)), k)
      ensures Vector(origins) == Paid(Weights(origins), old(Vector(origins)), k)
      ensures forall id :: Unlisted(origins, id) ==> Current(id) == old(Current(id))
    {
      hide Sum;
      var total;
      k, total := RaiseAll(origins);
      smoothWeights := smoothWeights[origins[k].id := Current(origins[k].id) - total];
    }

    /** The loop of `nextByAlgorithm`: adds every weight, remembering the first largest and the total. */
    method RaiseAll(origins: seq<Origin>) returns (k: nat, total: int)
      requires Usable(origins)
      modifies this
      ensures Vector(origins) == Added(old(Vector(origins)), Weights(origins))
      ensures FirstMaximum(Vector(origins), k) && total == Sum(Weights(origins))
      ensures forall id :: Unlisted(origins, id) ==> Current(id) == old(Current(id))
    {
      hide Sum, Usable;
      k, total := RaiseEach(origins);
    }

    method RaiseEach(origins: seq<Origin>) returns (k: nat, total: int)
      requires Usable(origins)
      modifies this
      ensures forall j :: 0 <= j < |origins| ==>
                Current(origins[j].id) == old(Current(origins[j].id)) + origins[j].weight
      ensures forall id :: Unlisted(origins, id) ==> Current(id) == old(Current(id))
      ensures k < |origins| && total == Sum(Weights(origins))
      ensures forall j :: 0 <= j < |origins| ==> Current(origins[j].id) <= Current(origins[k].id)
      ensures forall j :: 0 <= j < k ==> Current(origins[j].id) < Current(origins[k].id)
    {
      hide Sum, Weights;
      var selectedWeight := 0;
      k, total := 0, 0;
      SumEmpty(Weights(origins));
      for i := 0 to |origins|
        invariant forall j :: 0 <= j < i ==> Current(origins[j].id) == old(Current(origins[j].id)) + origins[j].weight
        invariant forall j :: i <= j < |origins| ==> Current(origins[j].id) == old(Current(origins[j].id))
        invariant forall id :: Unlisted(origins, id) ==> Current(id) == old(Current(id))
        invariant total == Sum(Weights(origins)[..i])
        invariant 0 < i ==> k < i && selectedWeight == Current(origins[k].id)
        invariant forall j :: 0 <= j < i ==> Current(origins[j].id) <= selectedWeight
        invariant forall j :: 0 <= j < k < i ==> Current(origins[j].id) < selectedWeight
      {
        var weight := origins[i].weight;
        SumSnoc(Weights(origins), i);
        total := total + weight;
        var current := Raise(origins[i].id, weight);
        if i == 0 || current > selectedWeight {
          k := i;
          selectedWeight := current;
        }
      }
      assert Weights(origins)[..|origins|] == Weights(origins);
    }

    /** Adds a weight to an origin's current weight. */
    method Raise(id: OriginId, weight: nat) returns (current: int)
      modifies this
      ensures current == Current(id) == old(Current(id)) + weight
      ensures forall i :: i != id ==> Current(i) == old(Current(i))
    {
      current := Current(id) + weight;
      smoothWeights := smoothWeights[id := current];
    }
  }

  /** As many selections as the total weight, starting from cleared weights: each origin is selected exactly
      its weight times and the weights are clear again. */
  method FullTurn(balancer: Balancer, origins: seq<Origin>) returns (picks: seq<nat>)
    requires Usable(origins)
    requires forall i :: 0 <= i < |origins| ==> balancer.Vector(origins)[i] == 0
    modifies balancer
    ensures |picks| == Sum(Weights(origins))
    ensures forall i: nat :: i < |origins| ==> Count(picks, i) == origins[i].weight
    ensures forall i :: 0 <= i < |origins| ==> balancer.Vector(origins)[i] == 0
  {
    hide Sum, Count, StateAfter, SmoothRun, Paid, FirstMaximum;
    var w := Weights(origins);
    SumPositive(w);
    picks := [];
    EmptyRun(w, balancer.Vector(origins));
    for n := 0 to Sum(w)
      invariant |picks| == n && SmoothRun(w, picks) && StateAfter(w, picks) == balancer.Vector(origins)
    {
      var k := balancer.Next(origins);
      ExtendRun(w, picks, k);
      picks := picks + [k];
    }
    SharesAreExact(w, picks);
  }

  lemma EmptyRun(w: seq<int>, v: seq<int>)
    requires |v| == |w| && forall i :: 0 <= i < |v| ==> v[i] == 0
    ensures SmoothRun(w, []) && StateAfter(w, []) == v
  {
  }

  lemma ExtendRun(w: seq<int>, picks: seq<nat>, k: nat)
    requires SmoothRun(w, picks) && FirstMaximum(Added(StateAfter(w, picks), w), k)
    ensures SmoothRun(w, picks + [k]) && StateAfter(w, picks + [k]) == Paid(w, StateAfter(w, picks), k)
  {
    assert (picks + [k])[..|picks|] == picks;
  }

  lemma SumEmpty(s: seq<int>)
    ensures Sum(s[..0]) == 0
  {
  }

  predicate Unlisted(origins: seq<Origin>, id: OriginId) {
    forall i :: 0 <= i < |origins| ==> origins[i].id != id
  }

  lemma {:induction false} SumSnoc(s: seq<int>, i: nat)
    requires i < |s|
    ensures Sum(s[..i + 1]) == Sum(s[..i]) + s[i]
  {
    if i > 0 {
      SumSnoc(s[1..], i - 1);
      assert s[1..][..i] == s[..i + 1][1..] && s[1..][..i - 1] == s[..i][1..];
    } else {
      assert s[..1] == [s[0]];
    }
  }

  // ---------------------------------------------------------------------------------------------
  // Exact shares

  function Count(picks: seq<nat>, i: nat): nat {
    if picks == [] then 0 else Count(picks[..|picks| - 1], i) + if picks[|picks| - 1] == i then 1 else 0
  }

  predicate Positive(w: seq<int>) {
    w != [] && forall i :: 0 <= i < |w| ==> w[i] >= 1
  }

  /** What `Next` does to the current weights when it picks k. */
  function Paid(w: seq<int>, state: seq<int>, k: nat): (v: seq<int>)
    requires |state| == |w| && k < |w|
    ensures |v| == |w|
  {
    var raised := Added(state, w);
    raised[k := raised[k] - Sum(w)]
  }

  predicate InRange(w: seq<int>, picks: seq<nat>) {
    forall n :: 0 <= n < |picks| ==> picks[n] < |w|
  }

  /** The current weights after a run of picks from the zero state. */
  function StateAfter(w: seq<int>, picks: seq<nat>): (v: seq<int>)
    requires InRange(w, picks)
    ensures |v| == |w|
  {
    if picks == [] then seq(|w|, _ => 0)
    else Paid(w, StateAfter(w, picks[..|picks| - 1]), picks[|picks| - 1])
  }

  /** Every pick of the run is what `Next` picks at that point. */
  ghost predicate SmoothRun(w: seq<int>, picks: seq<nat>)
    ensures SmoothRun(w, picks) ==> InRange(w, picks)
  {
    picks == [] ||
    (var before, k := picks[..|picks| - 1], picks[|picks| - 1];
     SmoothRun(w, before) && InRange(w, picks) && FirstMaximum(Added(StateAfter(w, before), w), k))
  }

  lemma {:induction false} StateIs(w: seq<int>, picks: seq<nat>, i: nat)
    requires InRange(w, picks) && i < |w|
    ensures StateAfter(w, picks)[i] == |picks| * w[i] - Sum(w) * Count(picks, i)
  {
    if picks != [] {
      var before := picks[..|picks| - 1];
      StateIs(w, before, i);
      Distribute(|before|, w[i]);
      Distribute(Count(before, i), Sum(w));
    }
  }

  lemma Distribute(n: int, x: int)
    ensures (n + 1) * x == n * x + x && x * (n + 1) == x * n + x
  {
  }

  lemma {:induction false} SumAdded(a: seq<int>, b: seq<int>)
    requires |a| == |b|
    ensures Sum(Added(a, b)) == Sum(a) + Sum(b)
  {
    if a != [] {
      SumAdded(a[1..], b[1..]);
      assert Added(a, b)[1..] == Added(a[1..], b[1..]);
    }
  }

  lemma {:induction false} SumUpdate(s: seq<int>, k: nat, x: int)
    requires k < |s|
    ensures Sum(s[k := x]) == Sum(s) - s[k] + x
  {
    if k > 0 {
      SumUpdate(s[1..], k - 1, x);
      assert s[k := x][1..] == s[1..][k - 1 := x];
    } else {
      assert s[0 := x][1..] == s[1..];
    }
  }

  lemma {:induction false} SumBelow(s: seq<int>, bound: int)
    requires forall j :: 0 <= j < |s| ==> s[j] <= bound
    requires bound <= 0
    ensures Sum(s) <= 0
  {
    if s != [] {
      SumBelow(s[1..], bound);
    }
  }

  /** In every run the current weights sum to zero and none falls to minus the total. */
  lemma {:induction false} SmoothInvariant(w: seq<int>, picks: seq<nat>)
    requires Positive(w) && SmoothRun(w, picks)
    ensures Sum(StateAfter(w, picks)) == 0
    ensures forall i :: 0 <= i < |w| ==> StateAfter(w, picks)[i] > -Sum(w)
  {
    SumPositive(w);
    if picks == [] {
      SumZeros(StateAfter(w, []));
    } else {
      var before, k := picks[..|picks| - 1], picks[|picks| - 1];
      SmoothInvariant(w, before);
      PaidKeepsInvariant(w, StateAfter(w, before), k);
    }
  }

  lemma PaidKeepsInvariant(w: seq<int>, state: seq<int>, k: nat)
    requires Positive(w) && Sum(w) > 0 && |state| == |w| && Sum(state) == 0
    requires forall i :: 0 <= i < |w| ==> state[i] > -Sum(w)
    requires FirstMaximum(Added(state, w), k)
    ensures Sum(Paid(w, state, k)) == 0
    ensures forall i :: 0 <= i < |w| ==> Paid(w, state, k)[i] > -Sum(w)
  {
    hide Sum;
    var raised := Added(state, w);
    SumAdded(state, w);
    SumUpdate(raised, k, raised[k] - Sum(w));
    MaximumIsPositive(raised, k);
  }

  lemma MaximumIsPositive(s: seq<int>, k: nat)
    requires FirstMaximum(s, k) && Sum(s) > 0
    ensures s[k] > 0
  {
    if s[k] <= 0 {
      SumBelow(s, s[k]);
    }
  }

  lemma {:induction false} SumPositive(w: seq<int>)
    requires forall i :: 0 <= i < |w| ==> w[i] >= 1
    ensures Sum(w) >= |w|
  {
    if w != [] {
      SumPositive(w[1..]);
    }
  }

  lemma {:induction false} SumZeros(s: seq<int>)
    requires forall i :: 0 <= i < |s| ==> s[i] == 0
    ensures Sum(s) == 0
  {
    if s != [] {
      SumZeros(s[1..]);
    }
  }

  /** Nor does any origin fall behind its share by more than one selection for each of the others. */
  lemma NoOriginFarBehind(w: seq<int>, picks: seq<nat>, i: nat)
    requires Positive(w) && SmoothRun(w, picks) && i < |w|
    ensures Sum(w) * Count(picks, i) >= |picks| * w[i] - (|w| - 1) * (Sum(w) - 1)
  {
    hide Sum, StateAfter, Count, SmoothRun;
    SmoothInvariant(w, picks);
    StateIs(w, picks, i);
    SumPositive(w);
    SumWithout(StateAfter(w, picks), i, Sum(w) - 1);
  }

  /** A sum whose terms are all at least -bound is at least any one term less a bound for each other. */
  lemma {:induction false} SumWithout(s: seq<int>, i: nat, bound: int)
    requires bound >= 0 && i < |s| && forall j :: 0 <= j < |s| ==> s[j] >= -bound
    ensures Sum(s) >= s[i] - (|s| - 1) * bound
  {
    Distribute(|s| - 2, bound);
    if i == 0 {
      SumFloor(s[1..], bound);
    } else {
      SumWithout(s[1..], i - 1, bound);
    }
  }

  lemma {:induction false} SumFloor(s: seq<int>, bound: int)
    requires bound >= 0 && forall j :: 0 <= j < |s| ==> s[j] >= -bound
    ensures Sum(s) >= -(|s| * bound)
  {
    if s != [] {
      SumFloor(s[1..], bound);
      Distribute(|s| - 1, bound);
    }
  }

  /** At any time no origin has been picked a whole turn more than its share of the picks so far. */
  lemma NoOriginAhead(w: seq<int>, picks: seq<nat>, i: nat)
    requires Positive(w) && SmoothRun(w, picks) && i < |w|
    ensures Sum(w) * Count(picks, i) < |picks| * w[i] + Sum(w)
  {
    SmoothInvariant(w, picks);
    StateIs(w, picks, i);
  }

  /** After as many picks as the total weight, every origin has been picked exactly its weight, and the
      current weights are back to zero. */
  lemma SharesAreExact(w: seq<int>, picks: seq<nat>)
    requires Positive(w) && SmoothRun(w, picks) && |picks| == Sum(w)
    ensures forall i: nat :: i < |w| ==> Count(picks, i) == w[i]
    ensures forall i :: 0 <= i < |w| ==> StateAfter(w, picks)[i] == 0
  {
    hide Sum, StateAfter, Count, SmoothRun;
    var v := StateAfter(w, picks);
    SumPositive(w);
    SmoothInvariant(w, picks);
    forall i: nat | i < |w| ensures v[i] == Sum(w) * (w[i] - Count(picks, i)) && v[i] >= 0 {
      ShareSign(w, picks, i);
    }
    NonNegativeZeroSum(v);
    forall i: nat | i < |w| ensures Count(picks, i) == w[i] {
      assert v[i] == 0;
      ZeroProduct(Sum(w), w[i] - Count(picks, i));
    }
  }

  lemma ShareSign(w: seq<int>, picks: seq<nat>, i: nat)
    requires Positive(w) && SmoothRun(w, picks) && |picks| == Sum(w) > 0 && i < |w|
    requires StateAfter(w, picks)[i] > -Sum(w)
    ensures StateAfter(w, picks)[i] == Sum(w) * (w[i] - Count(picks, i)) && StateAfter(w, picks)[i] >= 0
  {
    hide Sum, StateAfter, Count, SmoothRun, Positive;
    StateIs(w, picks, i);
    FactorOut(Sum(w), w[i], Count(picks, i));
    NonNegativeMultiple(Sum(w), w[i] - Count(picks, i));
  }

  lemma FactorOut(d: int, a: int, b: int)
    ensures d * a - d * b == d * (a - b)
  {
  }

  lemma NonNegativeMultiple(d: int, x: int)
    requires d > 0 && d * x > -d
    ensures d * x >= 0
  {
    if x <= -1 {
      MulMonotone(x, -1, d);
    } else {
      MulMonotone(0, x, d);
    }
  }

  lemma ZeroProduct(d: int, x: int)
    requires d > 0 && d * x == 0
    ensures x == 0
  {
  }

  lemma {:induction false} NonNegativeZeroSum(s: seq<int>)
    requires (forall i :: 0 <= i < |s| ==> s[i] >= 0) && Sum(s) == 0
    ensures forall i :: 0 <= i < |s| ==> s[i] == 0
  {
    if s != [] {
      SumNonNegative(s[1..]);
      NonNegativeZeroSum(s[1..]);
      forall i | 0 <= i < |s| ensures s[i] == 0 {
        assert i > 0 ==> s[i] == s[1..][i - 1];
      }
    }
  }

  lemma {:induction false} SumNonNegative(s: seq<int>)
    requires forall i :: 0 <= i < |s| ==> s[i] >= 0
    ensures Sum(s) >= 0
  {
    if s != [] {
      SumNonNegative(s[1..]);
    }
  }
}
