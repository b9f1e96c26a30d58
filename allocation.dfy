/**
 * The greedy allocation at the heart of pool creation: surplus balances are
 * moved into deficits, deficits in order, each drawing on the surpluses in order.
 * `before[i]` and `after[i]` are the cbBefore and cbAfter of the i-th member
 * in sorted order; the surplus and deficit lists are lists of those positions.
 */
module Allocation {
  import opened SeqUtil

  /** The positions of surplus (> 0) or deficit (< 0) values, in increasing order. */
  function Positions(xs: seq<real>, surplus: bool): (r: seq<nat>)
    ensures forall k :: 0 <= k < |r| ==> r[k] < |xs| && InClass(xs[r[k]], surplus)
    ensures forall k, l :: 0 <= k < l < |r| ==> r[k] < r[l]
    ensures forall i :: 0 <= i < |xs| && InClass(xs[i], surplus) ==> i in r
  {
    if xs == [] then []
    else
      var n := |xs| - 1;
      Positions(xs[..n], surplus) + (if InClass(xs[n], surplus) then [n] else [])
  }

  predicate InClass(x: real, surplus: bool) {
    if surplus then x > 0.0 else x < 0.0
  }

  /** A surplus member gives away at most what it had; a deficit member is not made worse nor positive. */
  predicate Kept(before: real, after: real) {
    && (before > 0.0 ==> 0.0 <= after <= before)
    && (before == 0.0 ==> after == 0.0)
    && (before < 0.0 ==> before <= after <= 0.0)
  }

  predicate WithinBounds(before: seq<real>, after: seq<real>)
    requires |after| == |before|
  {
    forall i :: 0 <= i < |before| ==> Kept(before[i], after[i])
  }

  predicate DeficitsCleared(before: seq<real>, after: seq<real>)
    requires |after| == |before|
  {
    forall i :: 0 <= i < |before| && before[i] < 0.0 ==> after[i] == 0.0
  }

  /** A surplus member is drawn on only once every earlier surplus member is drained. */
  predicate DrainedInOrder(before: seq<real>, after: seq<real>)
    requires |after| == |before|
  {
    forall i, j :: 0 <= i < j < |before| && before[i] > 0.0 && before[j] > 0.0 && after[j] < before[j]
      ==> after[i] == 0.0
  }

  /** Everything the greedy allocation promises about a pool whose total is not negative. */
  predicate IsGreedyAllocation(before: seq<real>, after: seq<real>) {
    && |after| == |before|
    && Sum(after) == Sum(before)
    && WithinBounds(before, after)
    && DeficitsCleared(before, after)
    && DrainedInOrder(before, after)
  }

  /** The nested transfer loops of pool creation, over the members' cbAfter values. */
  method Allocate(before: seq<real>) returns (after: seq<real>)
    ensures |after| == |before|
    ensures Sum(after) == Sum(before)
    ensures WithinBounds(before, after)
    ensures DrainedInOrder(before, after)
    ensures Sum(before) >= 0.0 ==> DeficitsCleared(before, after)
    ensures (forall i :: 0 <= i < |before| ==> before[i] >= 0.0) ==> after == before
  {
    var a := before;
    var surplus := Positions(before, true);
    var deficit := Positions(before, false);
    for k := 0 to |deficit|
      invariant |a| == |before|
      invariant Sum(a) == Sum(before)
      invariant WithinBounds(before, a) && DrainedInOrder(before, a)
      invariant Sum(before) >= 0.0 ==> forall k' :: 0 <= k' < k ==> a[deficit[k']] == 0.0
      invariant forall k' :: k <= k' < |deficit| ==> a[deficit[k']] == before[deficit[k']]
    {
      ghost var a0 := a;
      a := Settle(before, a, surplus, deficit[k]);
      forall k' | 0 <= k' < |deficit| && k' != k
        ensures a[deficit[k']] == a0[deficit[k']]
      {
        if k' < k {
          assert deficit[k'] < deficit[k];
        } else {
          assert deficit[k] < deficit[k'];
        }
      }
    }
    after := a;
    assert Sum(before) >= 0.0 ==> DeficitsCleared(before, after) by {
      forall i | 0 <= i < |before| && before[i] < 0.0
        ensures Sum(before) >= 0.0 ==> after[i] == 0.0
      {
        assert i in deficit;
      }
    }
    if forall i :: 0 <= i < |before| ==> before[i] >= 0.0 {
      EqualSumPointwiseAtMost(after, before);
    }
  }

  /**
   * The inner loop for the deficit member at position `d`: it draws on the
   * surplus members in order until its deficit is covered or they are drained.
   */
  method Settle(before: seq<real>, a0: seq<real>, surplus: seq<nat>, d: nat) returns (a: seq<real>)
    requires |a0| == |before| && surplus == Positions(before, true)
    requires d < |before| && before[d] < 0.0 && a0[d] == before[d]
    requires WithinBounds(before, a0) && DrainedInOrder(before, a0)
    ensures |a| == |before| && Sum(a) == Sum(a0)
    ensures WithinBounds(before, a) && DrainedInOrder(before, a)
    ensures forall i :: 0 <= i < |before| && i != d && before[i] <= 0.0 ==> a[i] == a0[i]
    ensures Sum(a0) >= 0.0 ==> a[d] == 0.0
  {
    a := a0;
    var remaining := Abs(before[d]);
    for j := 0 to |surplus|
      invariant |a| == |before| && Sum(a) == Sum(a0)
      invariant WithinBounds(before, a) && DrainedInOrder(before, a)
      invariant forall i :: 0 <= i < |before| && i != d && before[i] <= 0.0 ==> a[i] == a0[i]
      invariant 0.0 <= remaining && a[d] == -remaining
      invariant remaining > 0.0 ==> forall j' :: 0 <= j' < j ==> a[surplus[j']] == 0.0
    {
      if remaining <= 0.0 {
        break;
      }
      var s := surplus[j];
      if a[s] <= 0.0 {
        continue;
      }
      var transfer := Min(a[s], remaining);
      TransferStep(before, a0, a, surplus, j, d, remaining);
      a := Moved(a, s, d, transfer);
      remaining := remaining - transfer;
    }
    if Sum(a0) >= 0.0 && remaining > 0.0 {
      Exhausted(before, a, surplus, d);
    }
  }

  /** A deficit left over once every surplus is drained makes the total negative. */
  lemma Exhausted(before: seq<real>, a: seq<real>, surplus: seq<nat>, d: nat)
    requires |a| == |before| && WithinBounds(before, a)
    requires surplus == Positions(before, true)
    requires forall j' :: 0 <= j' < |surplus| ==> a[surplus[j']] == 0.0
    requires d < |a| && a[d] < 0.0
    ensures Sum(a) < 0.0
  {
    forall i | 0 <= i < |a|
      ensures a[i] <= 0.0
    {
      if before[i] > 0.0 {
        assert i in surplus;
      }
    }
    SumNegative(a, d);
  }

  /** One pass of the inner loop that moves `min(surplus.cbAfter, remaining)` keeps its invariants. */
  lemma TransferStep(before: seq<real>, a0: seq<real>, a: seq<real>, surplus: seq<nat>, j: nat, d: nat, remaining: real)
    requires |a0| == |before| && |a| == |before| && surplus == Positions(before, true)
    requires j < |surplus| && d < |before| && before[d] < 0.0
    requires Sum(a) == Sum(a0) && WithinBounds(before, a) && DrainedInOrder(before, a)
    requires forall i :: 0 <= i < |before| && i != d && before[i] <= 0.0 ==> a[i] == a0[i]
    requires 0.0 < remaining && a[d] == -remaining && a[surplus[j]] > 0.0
    requires forall j' :: 0 <= j' < j ==> a[surplus[j']] == 0.0
    ensures var s := surplus[j]; var t := Min(a[s], remaining); var a' := Moved(a, s, d, t);
      && Sum(a') == Sum(a0) && WithinBounds(before, a') && DrainedInOrder(before, a')
      && (forall i :: 0 <= i < |before| && i != d && before[i] <= 0.0 ==> a'[i] == a0[i])
      && 0.0 <= remaining - t && a'[d] == -(remaining - t)
      && (remaining - t > 0.0 ==> forall j' :: 0 <= j' < j + 1 ==> a'[surplus[j']] == 0.0)
  {
    var s := surplus[j];
    var t := Min(a[s], remaining);
    EarlierSurplusDrained(before, a, surplus, j);
    TransferSum(a, s, d, t);
    TransferBounds(before, a, s, d, t);
    TransferOrder(before, a, s, d, t);
    assert forall k :: 0 <= k < |surplus| ==> surplus[k] != d;
    TransferDrains(before, a, surplus, j, d, remaining);
    TransferKeepsOthers(before, a0, a, s, d, t);
  }

  lemma TransferDrains(before: seq<real>, a: seq<real>, surplus: seq<nat>, j: nat, d: nat, remaining: real)
    requires |a| == |before| && j < |surplus| && d < |before|
    requires forall k :: 0 <= k < |surplus| ==> surplus[k] < |before| && surplus[k] != d
    requires forall k, l :: 0 <= k < l < |surplus| ==> surplus[k] < surplus[l]
    requires forall j' :: 0 <= j' < j ==> a[surplus[j']] == 0.0
    ensures var s := surplus[j]; var t := Min(a[s], remaining); var a' := Moved(a, s, d, t);
      remaining - t > 0.0 ==> forall j' :: 0 <= j' < j + 1 ==> a'[surplus[j']] == 0.0
  {
    var s := surplus[j];
    var t := Min(a[s], remaining);
    var a' := Moved(a, s, d, t);
    if remaining - t > 0.0 {
      forall j' | 0 <= j' < j + 1
        ensures a'[surplus[j']] == 0.0
      {
        if j' < j {
          assert surplus[j'] < s;
        }
      }
    }
  }

  lemma TransferKeepsOthers(before: seq<real>, a0: seq<real>, a: seq<real>, s: nat, d: nat, t: real)
    requires |a0| == |before| && |a| == |before| && s < |before| && d < |before| && s != d
    requires before[s] > 0.0
    requires forall i :: 0 <= i < |before| && i != d && before[i] <= 0.0 ==> a[i] == a0[i]
    ensures forall i :: 0 <= i < |before| && i != d && before[i] <= 0.0 ==> Moved(a, s, d, t)[i] == a0[i]
  {
  }

  /** Once the first `j` surplus positions are drained, so is every surplus position before `surplus[j]`. */
  lemma EarlierSurplusDrained(before: seq<real>, a: seq<real>, surplus: seq<nat>, j: nat)
    requires |a| == |before| && surplus == Positions(before, true) && j < |surplus|
    requires forall j' :: 0 <= j' < j ==> a[surplus[j']] == 0.0
    ensures forall i :: 0 <= i < surplus[j] && before[i] > 0.0 ==> a[i] == 0.0
  {
    forall i | 0 <= i < surplus[j] && before[i] > 0.0
      ensures a[i] == 0.0
    {
      assert i in surplus;
    }
  }

  /** The values after `transfer` moves from position `s` to position `d`. */
  function Moved(a: seq<real>, s: nat, d: nat, transfer: real): (r: seq<real>)
    requires s < |a| && d < |a| && s != d
    ensures |r| == |a| && r[s] == a[s] - transfer && r[d] == a[d] + transfer
    ensures forall j :: 0 <= j < |a| && j != s && j != d ==> r[j] == a[j]
  {
    a[s := a[s] - transfer][d := a[d] + transfer]
  }

  lemma TransferSum(a: seq<real>, s: nat, d: nat, transfer: real)
    requires s < |a| && d < |a| && s != d
    ensures Sum(Moved(a, s, d, transfer)) == Sum(a)
  {
    var a1 := a[s := a[s] - transfer];
    SumChanged(a, a1, s);
    SumChanged(a1, Moved(a, s, d, transfer), d);
  }

  lemma TransferBounds(before: seq<real>, a: seq<real>, s: nat, d: nat, transfer: real)
    requires |a| == |before| && s < |a| && d < |a| && s != d
    requires before[s] > 0.0 && before[d] < 0.0
    requires 0.0 < transfer <= a[s] && transfer <= -a[d]
    requires WithinBounds(before, a)
    ensures WithinBounds(before, Moved(a, s, d, transfer))
  {
    var a' := Moved(a, s, d, transfer);
    forall i | 0 <= i < |before|
      ensures Kept(before[i], a'[i])
    {
      assert Kept(before[i], a[i]);
    }
  }

  lemma TransferOrder(before: seq<real>, a: seq<real>, s: nat, d: nat, transfer: real)
    requires |a| == |before| && s < |a| && d < |a| && s != d
    requires before[s] > 0.0 && before[d] < 0.0
    requires 0.0 < transfer <= a[s]
    requires WithinBounds(before, a) && DrainedInOrder(before, a)
    requires forall i :: 0 <= i < s && before[i] > 0.0 ==> a[i] == 0.0
    ensures DrainedInOrder(before, Moved(a, s, d, transfer))
  {
    var a' := Moved(a, s, d, transfer);
    forall i, i2 | 0 <= i < i2 < |before| && before[i] > 0.0 && before[i2] > 0.0 && a'[i2] < before[i2]
      ensures a'[i] == 0.0
    {
    }
  }

  /**
   * The properties `Allocate` promises determine its result: two allocations
   * satisfying them for the same balances are equal.
   */
  lemma GreedyAllocationIsUnique(before: seq<real>, x: seq<real>, y: seq<real>)
    requires IsGreedyAllocation(before, x) && IsGreedyAllocation(before, y)
    ensures x == y
  {
    if x != y {
      var i := FirstDifference(x, y);
      NoSmallerFirstDifference(before, x, y, i);
      NoSmallerFirstDifference(before, y, x, i);
    }
  }

  function FirstDifference(x: seq<real>, y: seq<real>): (i: nat)
    requires |x| == |y| && x != y
    ensures i < |x| && x[i] != y[i]
    ensures forall k :: 0 <= k < i ==> x[k] == y[k]
  {
    if x[0] != y[0] then 0
    else
      assert x == [x[0]] + x[1..] && y == [y[0]] + y[1..];
      1 + FirstDifference(x[1..], y[1..])
  }

  /**
   * Where two allocations first differ, `y` is not above `x`: otherwise `y` kept
   * every later surplus whole, so `y` would be pointwise at least `x`, strictly
   * at `i`, and their sums would differ.
   */
  lemma NoSmallerFirstDifference(before: seq<real>, x: seq<real>, y: seq<real>, i: nat)
    requires IsGreedyAllocation(before, x) && IsGreedyAllocation(before, y)
    requires i < |before|
    requires forall k :: 0 <= k < i ==> x[k] == y[k]
    ensures y[i] <= x[i]
  {
    if x[i] < y[i] {
      assert Kept(before[i], x[i]) && Kept(before[i], y[i]);
      forall k | 0 <= k < |before|
        ensures x[k] <= y[k]
      {
        assert Kept(before[k], x[k]) && Kept(before[k], y[k]);
      }
      SumAtMost(x, y);
      EqualSumPointwiseAtMost(x, y);
    }
  }

  /** A pool with no deficit member is left as it was: no transfers happen. */
  lemma AllSurplusUnchanged(before: seq<real>, after: seq<real>)
    requires IsGreedyAllocation(before, after)
    requires forall i :: 0 <= i < |before| ==> before[i] >= 0.0
    ensures after == before
  {
    forall i | 0 <= i < |before|
      ensures after[i] <= before[i]
    {
      assert Kept(before[i], after[i]);
    }
    EqualSumPointwiseAtMost(after, before);
  }

  /** Members +1000 and -500: the surplus covers the deficit and keeps 500. */
  lemma TwoMemberExample()
    ensures IsGreedyAllocation([1000.0, -500.0], [500.0, 0.0])
    ensures forall after :: IsGreedyAllocation([1000.0, -500.0], after) ==> after == [500.0, 0.0]
  {
    assert IsGreedyAllocation([1000.0, -500.0], [500.0, 0.0]) by {
      assert Sum([500.0, 0.0]) == 500.0 by {
        assert [500.0, 0.0][1..] == [0.0];
      }
      assert Sum([1000.0, -500.0]) == 500.0 by {
        assert [1000.0, -500.0][1..] == [-500.0];
      }
    }
    forall after | IsGreedyAllocation([1000.0, -500.0], after)
      ensures after == [500.0, 0.0]
    {
      GreedyAllocationIsUnique([1000.0, -500.0], after, [500.0, 0.0]);
    }
  }

  /** Three members, two deficits: the first deficit is served first, from the single surplus. */
  lemma ThreeMemberExample()
    ensures IsGreedyAllocation([300.0, -100.0, -150.0], [50.0, 0.0, 0.0])
    ensures forall after :: IsGreedyAllocation([300.0, -100.0, -150.0], after) ==> after == [50.0, 0.0, 0.0]
  {
    assert IsGreedyAllocation([300.0, -100.0, -150.0], [50.0, 0.0, 0.0]) by {
      assert Sum([50.0, 0.0, 0.0]) == 50.0 by {
        assert [50.0, 0.0, 0.0][1..] == [0.0, 0.0];
        assert [0.0, 0.0][1..] == [0.0];
      }
      assert Sum([300.0, -100.0, -150.0]) == 50.0 by {
        assert [300.0, -100.0, -150.0][1..] == [-100.0, -150.0];
        assert [-100.0, -150.0][1..] == [-150.0];
      }
    }
    forall after | IsGreedyAllocation([300.0, -100.0, -150.0], after)
      ensures after == [50.0, 0.0, 0.0]
    {
      GreedyAllocationIsUnique([300.0, -100.0, -150.0], after, [50.0, 0.0, 0.0]);
    }
  }
}
