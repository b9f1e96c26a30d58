/**
 * The createPool use case: fetch each member's balance, reject pools that are
 * too small or in deficit overall, sort by balance, run the greedy allocation,
 * check how each member exits, round to hundredths and save.
 */
module CreatePool {
  import opened Outcomes
  import opened SeqUtil
  import opened ComplianceMath
  import opened ShipComplianceEntity
  import opened PoolEntity
  import opened ComplianceStore
  import opened PoolStore
  import opened PoolSort
  import opened Allocation

  datatype PoolResult = PoolResult(
    poolId: nat,
    year: int,
    members: seq<PoolMember>,
    totalCBBefore: real,
    totalCBAfter: real)

  /**
   * What the fetch loop builds: each id's stored balance becomes its cbBefore
   * and cbAfter; the first id without a record for `year` stops the loop.
   */
  function Fetch(records: seq<ShipCompliance>, ids: seq<string>, year: int): (r: Result<seq<PoolMember>>)
    ensures r.Ok? <==> forall k :: 0 <= k < |ids| ==> Lookup(records, (ids[k], year)).Some?
    ensures r.Ok? ==> |r.value| == |ids| && forall k :: 0 <= k < |ids| ==>
      (var cb := Lookup(records, (ids[k], year)).value.cbGco2eq;
       r.value[k] == PoolMember(ids[k], cb, cb))
    ensures r.Err? ==> r.error.NoComplianceRecord?
  {
    if ids == [] then Ok([])
    else
      var n := |ids| - 1;
      assert forall k :: 0 <= k < n ==> ids[..n][k] == ids[k];
      match Fetch(records, ids[..n], year)
      case Err(e) => Err(e)
      case Ok(ms) =>
        match Lookup(records, (ids[n], year))
        case None => Err(NoComplianceRecord(ids[n]))
        case Some(c) => Ok(ms + [PoolMember(ids[n], c.cbGco2eq, c.cbGco2eq)])
  }

  /** The error names the first id that has no record. */
  lemma {:induction false} FetchFailsAtFirstMissing(records: seq<ShipCompliance>, ids: seq<string>, year: int, k: nat)
    requires k < |ids| && Lookup(records, (ids[k], year)).None?
    requires forall j :: 0 <= j < k ==> Lookup(records, (ids[j], year)).Some?
    ensures Fetch(records, ids, year) == Err(NoComplianceRecord(ids[k]))
    decreases |ids|
  {
    var n := |ids| - 1;
    if k < n {
      assert forall j :: 0 <= j < n ==> ids[..n][j] == ids[j];
      FetchFailsAtFirstMissing(records, ids[..n], year, k);
    } else {
      assert forall j :: 0 <= j < n ==> ids[..n][j] == ids[j];
      assert Fetch(records, ids[..n], year).Ok?;
    }
  }

  /** The `for ... of memberShipIds` loop. */
  method FetchMembers(compliance: ComplianceRepository, ids: seq<string>, year: int)
    returns (r: Result<seq<PoolMember>>)
    ensures r == Fetch(compliance.records, ids, year)
  {
    var members: seq<PoolMember> := [];
    for i := 0 to |ids|
      invariant Fetch(compliance.records, ids[..i], year) == Ok(members)
    {
      var found := compliance.FindByShipAndYear(ids[i], year);
      assert ids[..i + 1][..i] == ids[..i];
      if found.None? {
        assert forall j :: 0 <= j < i ==> ids[..i][j] == ids[j];
        FetchFailsAtFirstMissing(compliance.records, ids, year, i);
        return Err(NoComplianceRecord(ids[i]));
      }
      members := members + [PoolMember(ids[i], found.value.cbGco2eq, found.value.cbGco2eq)];
    }
    assert ids[..|ids|] == ids;
    r := Ok(members);
  }

  /** Why a pool request is refused, in the order the use case checks; None when it is accepted. */
  function Rejection(records: seq<ShipCompliance>, year: int, memberShipIds: Option<seq<string>>): (e: Option<Error>)
    ensures e.None? <==> (&& memberShipIds.Some? && |memberShipIds.value| >= 2
                          && Fetch(records, memberShipIds.value, year).Ok?
                          && Sum(CbBefores(Fetch(records, memberShipIds.value, year).value)) >= 0.0)
    ensures memberShipIds.None? || |memberShipIds.value| < 2 ==> e == Some(TooFewMembers)
    ensures memberShipIds.Some? && |memberShipIds.value| >= 2 && Fetch(records, memberShipIds.value, year).Err?
            ==> e == Some(Fetch(records, memberShipIds.value, year).error)
    ensures (&& memberShipIds.Some? && |memberShipIds.value| >= 2
             && Fetch(records, memberShipIds.value, year).Ok?
             && Sum(CbBefores(Fetch(records, memberShipIds.value, year).value)) < 0.0)
            ==> e == Some(NegativePoolSum)
    ensures e.Some? ==> e.value.TooFewMembers? || e.value.NoComplianceRecord? || e.value.NegativePoolSum?
  {
    if memberShipIds.None? || |memberShipIds.value| < 2 then Some(TooFewMembers)
    else
      match Fetch(records, memberShipIds.value, year)
      case Err(err) => Some(err)
      case Ok(ms) => if Sum(CbBefores(ms)) < 0.0 then Some(NegativePoolSum) else None
  }

  /** The members in sorted order carrying their allocated cbAfter. */
  function Settled(sorted: seq<PoolMember>, after: seq<real>): (r: seq<PoolMember>)
    requires |after| == |sorted|
    ensures |r| == |sorted|
    ensures CbBefores(r) == CbBefores(sorted) && CbAfters(r) == after && ShipIds(r) == ShipIds(sorted)
  {
    seq(|sorted|, k requires 0 <= k < |sorted| => PoolMember(sorted[k].shipId, sorted[k].cbBefore, after[k]))
  }

  /** The post-allocation check of one member: a deficit may not exit worse, a surplus not negative. */
  function ExitViolation(m: PoolMember): (e: Option<Error>)
    ensures e.None? <==> !(m.cbBefore < 0.0 && m.cbAfter < m.cbBefore) && !(m.cbBefore > 0.0 && m.cbAfter < 0.0)
  {
    if m.cbBefore < 0.0 && m.cbAfter < m.cbBefore then Some(DeficitExitsWorse(m.shipId))
    else if m.cbBefore > 0.0 && m.cbAfter < 0.0 then Some(SurplusExitsNegative(m.shipId))
    else None
  }

  /** An allocation within bounds passes the post-allocation check for every member. */
  lemma KeptPassesExitCheck(m: PoolMember)
    requires Kept(m.cbBefore, m.cbAfter)
    ensures ExitViolation(m).None?
  {
  }

  /** The post-allocation loop: reports the first member that fails the check. */
  method CheckExits(ms: seq<PoolMember>) returns (e: Option<Error>)
    ensures e.None? <==> forall k :: 0 <= k < |ms| ==> ExitViolation(ms[k]).None?
    ensures e.Some? ==> exists k :: (&& 0 <= k < |ms| && e == ExitViolation(ms[k])
                                     && forall j :: 0 <= j < k ==> ExitViolation(ms[j]).None?)
  {
    for i := 0 to |ms|
      invariant forall j :: 0 <= j < i ==> ExitViolation(ms[j]).None?
    {
      var m := ms[i];
      if m.cbBefore < 0.0 && m.cbAfter < m.cbBefore {
        return Some(DeficitExitsWorse(m.shipId));
      }
      if m.cbBefore > 0.0 && m.cbAfter < 0.0 {
        return Some(SurplusExitsNegative(m.shipId));
      }
    }
    return None;
  }

  /** `Math.round(v * 100) / 100` on both balances of a member. */
  function RoundMember(m: PoolMember): PoolMember {
    PoolMember(m.shipId, Round2(m.cbBefore), Round2(m.cbAfter))
  }

  function Rounded(ms: seq<PoolMember>): (r: seq<PoolMember>)
    ensures |r| == |ms| && ShipIds(r) == ShipIds(ms)
  {
    if ms == [] then [] else [RoundMember(ms[0])] + Rounded(ms[1..])
  }

  lemma {:induction false} RoundedAt(ms: seq<PoolMember>, k: nat)
    requires k < |ms|
    ensures Rounded(ms)[k] == RoundMember(ms[k])
  {
    if k > 0 {
      RoundedAt(ms[1..], k - 1);
    }
  }

  /** The `members.forEach` that rounds every member in place. */
  method RoundAll(ms: seq<PoolMember>) returns (r: seq<PoolMember>)
    ensures r == Rounded(ms)
  {
    r := ms;
    for i := 0 to |r|
      invariant |r| == |ms|
      invariant forall k :: 0 <= k < i ==> r[k] == RoundMember(ms[k])
      invariant forall k :: i <= k < |r| ==> r[k] == ms[k]
    {
      r := r[i := r[i].(cbBefore := Round2(r[i].cbBefore), cbAfter := Round2(r[i].cbAfter))];
    }
    forall k | 0 <= k < |ms|
      ensures r[k] == Rounded(ms)[k]
    {
      RoundedAt(ms, k);
    }
  }

  /**
   * Sort, greedy allocation and the post-allocation check, for members whose
   * balances do not sum to a negative total.
   */
  method AllocateMembers(members: seq<PoolMember>)
    returns (violation: Option<Error>, allocation: seq<PoolMember>, ghost after: seq<real>)
    requires Sum(CbBefores(members)) >= 0.0
    ensures violation.None?
    ensures IsGreedyAllocation(CbBefores(SortDesc(members)), after)
    ensures |after| == |members| && allocation == Settled(SortDesc(members), after)
  {
    var sorted := SortDesc(members);
    SortKeepsSum(members);
    var before := CbBefores(sorted);
    var settled := Allocate(before);
    after := settled;
    allocation := Settled(sorted, settled);
    violation := CheckExits(allocation);
  }

  /** The accepted path: allocate, check, round to hundredths and save the pool. */
  method CreateFrom(poolStore: PoolRepository, year: int, members: seq<PoolMember>)
    returns (r: Result<PoolResult>, ghost after: seq<real>)
    requires Sum(CbBefores(members)) >= 0.0
    modifies poolStore
    ensures r.Ok?
    ensures IsGreedyAllocation(CbBefores(SortDesc(members)), after)
    ensures r.value.members == Rounded(Settled(SortDesc(members), after))
    ensures r.value.year == year
    ensures r.value.totalCBBefore == Round2(Sum(CbBefores(members)))
    ensures r.value.totalCBAfter == Round2(Sum(CbAfters(r.value.members)))
    ensures multiset(ShipIds(r.value.members)) == multiset(ShipIds(members))
    ensures r.value.poolId == |old(poolStore.pools)|
    ensures poolStore.pools == old(poolStore.pools) + [Pool(year, r.value.members)]
  {
    var violation, allocation, settled := AllocateMembers(members);
    after := settled;
    match violation {
      case Some(e) => return Err(e), after;
      case None =>
    }
    var result := RoundAll(allocation);
    SortKeepsShipIds(members);
    assert ShipIds(result) == ShipIds(SortDesc(members));
    var poolId := poolStore.Save(Pool(year, result));
    var totalCB := Sum(CbBefores(members));
    r := Ok(PoolResult(poolId, year, result, Round2(totalCB), Round2(Sum(CbAfters(result)))));
  }

  method Execute(compliance: ComplianceRepository, poolStore: PoolRepository, year: int,
                 memberShipIds: Option<seq<string>>)
    returns (r: Result<PoolResult>, ghost before: seq<real>, ghost after: seq<real>)
    modifies poolStore
    ensures r.Err? <==> Rejection(compliance.records, year, memberShipIds).Some?
    ensures r.Err? ==> r.error == Rejection(compliance.records, year, memberShipIds).value
    ensures r.Err? ==> poolStore.pools == old(poolStore.pools)
    ensures r.Ok? ==>
      var input := Fetch(compliance.records, memberShipIds.value, year).value;
      var sorted := SortDesc(input);
      && before == CbBefores(sorted)
      && IsGreedyAllocation(before, after)
      && r.value.members == Rounded(Settled(sorted, after))
      && r.value.year == year
      && r.value.totalCBBefore == Round2(Sum(CbBefores(input)))
      && r.value.totalCBAfter == Round2(Sum(CbAfters(r.value.members)))
      && multiset(ShipIds(r.value.members)) == multiset(memberShipIds.value)
      && r.value.poolId == |old(poolStore.pools)|
      && poolStore.pools == old(poolStore.pools) + [Pool(year, r.value.members)]
  {
    before, after := [], [];
    if memberShipIds.None? || |memberShipIds.value| < 2 {
      return Err(TooFewMembers), before, after;
    }
    var ids := memberShipIds.value;
    var fetched := FetchMembers(compliance, ids, year);
    if fetched.Err? {
      return Err(fetched.error), before, after;
    }
    var members := fetched.value;
    assert ShipIds(members) == ids;
    if Sum(CbBefores(members)) < 0.0 {
      return Err(NegativePoolSum), before, after;
    }
    r, after := CreateFrom(poolStore, year, members);
    before := CbBefores(SortDesc(members));
    assert Fetch(compliance.records, ids, year).value == members;
  }

  /** Settling and rounding leave each member's before-balance rounded to cents. */
  lemma RoundedBefores(ms: seq<PoolMember>, after: seq<real>)
    requires |after| == |ms|
    ensures |CbBefores(Rounded(Settled(ms, after)))| == |ms|
    ensures forall k :: 0 <= k < |ms| ==> CbBefores(Rounded(Settled(ms, after)))[k] == Round2(ms[k].cbBefore)
  {
    forall k | 0 <= k < |ms|
      ensures CbBefores(Rounded(Settled(ms, after)))[k] == Round2(ms[k].cbBefore)
    {
      RoundedAt(Settled(ms, after), k);
    }
  }

  /** Rounding leaves before-balances that are whole hundredths unchanged. */
  lemma RoundingKeepsCents(ms: seq<PoolMember>, after: seq<real>)
    requires |after| == |ms|
    requires forall k :: 0 <= k < |ms| ==> IsCents(ms[k].cbBefore)
    ensures CbBefores(Rounded(Settled(ms, after))) == CbBefores(ms)
  {
    RoundedBefores(ms, after);
    forall k | 0 <= k < |ms|
      ensures Round2(ms[k].cbBefore) == ms[k].cbBefore
    {
      RoundCentsIsIdentity(ms[k].cbBefore);
    }
  }

  /**
   * When every member's balance is a whole number of hundredths (as ComputeCB
   * stores them), the saved pool satisfies Pool.isValid.
   */
  lemma CentPoolIsValid(input: seq<PoolMember>, after: seq<real>, year: int)
    requires Sum(CbBefores(input)) >= 0.0
    requires forall k :: 0 <= k < |input| ==> IsCents(input[k].cbBefore)
    requires |after| == |input|
    ensures Pool(year, Rounded(Settled(SortDesc(input), after))).IsValid()
  {
    SavedKeepsBeforeSum(input, after);
  }

  /** Sorting, settling and rounding leave the total of before-balances in cents alone. */
  lemma SavedKeepsBeforeSum(input: seq<PoolMember>, after: seq<real>)
    requires forall k :: 0 <= k < |input| ==> IsCents(input[k].cbBefore)
    requires |after| == |input|
    ensures Sum(CbBefores(Rounded(Settled(SortDesc(input), after)))) == Sum(CbBefores(input))
  {
    SortKeepsCents(input);
    RoundingKeepsCents(SortDesc(input), after);
    SortKeepsSum(input);
  }

  lemma SortKeepsCents(input: seq<PoolMember>)
    requires forall k :: 0 <= k < |input| ==> IsCents(input[k].cbBefore)
    ensures forall k :: 0 <= k < |input| ==> IsCents(SortDesc(input)[k].cbBefore)
  {
    var sorted := SortDesc(input);
    forall k | 0 <= k < |sorted|
      ensures IsCents(sorted[k].cbBefore)
    {
      assert sorted[k] in multiset(input);
    }
  }

  /**
   * The total is checked before rounding, so balances finer than a hundredth
   * can yield a saved pool whose rounded before-balances sum below zero.
   */
  lemma RoundedPoolMayBeInvalid(after: seq<real>)
    requires |after| == 3
    ensures var input := [PoolMember("A", 0.004, 0.004), PoolMember("B", 0.004, 0.004), PoolMember("C", -0.006, -0.006)];
      && Sum(CbBefores(input)) >= 0.0
      && !Pool(2024, Rounded(Settled(SortDesc(input), after))).IsValid()
  {
    var input := [PoolMember("A", 0.004, 0.004), PoolMember("B", 0.004, 0.004), PoolMember("C", -0.006, -0.006)];
    ExampleInputSum();
    ExampleStaysSorted();
    ExampleRoundsBelowZero(after);
  }

  lemma ExampleInputSum()
    ensures Sum(CbBefores([PoolMember("A", 0.004, 0.004), PoolMember("B", 0.004, 0.004), PoolMember("C", -0.006, -0.006)])) == 0.002
  {
    var input := [PoolMember("A", 0.004, 0.004), PoolMember("B", 0.004, 0.004), PoolMember("C", -0.006, -0.006)];
    var bs := CbBefores(input);
    assert bs == [0.004, 0.004, -0.006];
    assert bs[1..] == [0.004, -0.006];
    assert bs[1..][1..] == [-0.006];
  }

  lemma ExampleStaysSorted()
    ensures var input := [PoolMember("A", 0.004, 0.004), PoolMember("B", 0.004, 0.004), PoolMember("C", -0.006, -0.006)];
      SortDesc(input) == input
  {
    var a := PoolMember("A", 0.004, 0.004);
    var b := PoolMember("B", 0.004, 0.004);
    var c := PoolMember("C", -0.006, -0.006);
    assert [a, b, c][1..] == [b, c];
    assert [b, c][1..] == [c];
    assert SortDesc([c]) == [c];
    assert SortDesc([b, c]) == [b, c];
  }

  lemma ExampleRoundsBelowZero(after: seq<real>)
    requires |after| == 3
    ensures var input := [PoolMember("A", 0.004, 0.004), PoolMember("B", 0.004, 0.004), PoolMember("C", -0.006, -0.006)];
      Sum(CbBefores(Rounded(Settled(input, after)))) == -0.01
  {
    var input := [PoolMember("A", 0.004, 0.004), PoolMember("B", 0.004, 0.004), PoolMember("C", -0.006, -0.006)];
    RoundedBefores(input, after);
    var bs := CbBefores(Rounded(Settled(input, after)));
    assert (0.004 * 100.0 + 0.5).Floor == 0;
    assert (-0.006 * 100.0 + 0.5).Floor == -1;
    assert bs[0] == 0.0 && bs[1] == 0.0 && bs[2] == -0.01;
    assert bs[1..][1..] == [-0.01];
    assert Sum([-0.01]) == -0.01 + Sum([]);
    assert Sum(bs) == bs[0] + (bs[1] + Sum(bs[1..][1..]));
  }
}
