/**
 * ComputeCB: turns the routes of a year into ship compliance records (the
 * routeId stands in for the shipId), rounds each balance to cents, and saves
 * either the one record asked for or all of them. A save replaces whatever the
 * store held under the same (shipId, year), earlier ApplyBanked credits included.
 */
module ComputeCB {
  import opened Outcomes
  import opened ComplianceMath
  import opened ShipComplianceEntity
  import opened ComplianceStore
  import opened RouteEntity
  import opened RouteStore

  /**
   * The record computed for one route. Its balance is the route's CB rounded
   * to cents; its surplus flag is taken from the CB before rounding.
   */
  function ComplianceOf(route: RouteRecord): (c: ShipCompliance)
    ensures c.shipId == route.routeId && c.year == route.year
    ensures c.ghgIntensity == route.ghgIntensity && c.fuelConsumption == route.fuelConsumption
    ensures var cb := ComplianceBalance(route.ghgIntensity, route.fuelConsumption, route.year);
      cb - 0.005 < c.cbGco2eq <= cb + 0.005 && IsCents(c.cbGco2eq) && (c.storedSurplus <==> cb > 0.0)
    ensures route.fuelConsumption > 0.0 ==> (c.storedSurplus <==> route.ghgIntensity < TargetIntensity(route.year))
  {
    var cb := ComplianceBalance(route.ghgIntensity, route.fuelConsumption, route.year);
    RoundIsCents(cb);
    ShipCompliance(route.routeId, route.year, Round2(cb), route.ghgIntensity, route.fuelConsumption, cb > 0.0)
  }

  /**
   * The stored flag and the rounded balance agree in sign except for a CB
   * strictly between 0 and 0.005, which is flagged a surplus but stored as 0.
   */
  lemma SurplusFlagConsistency(route: RouteRecord)
    ensures ComplianceOf(route).IsSurplus() ==> ComplianceOf(route).storedSurplus
    ensures ComplianceOf(route).IsDeficit() ==> !ComplianceOf(route).storedSurplus
    ensures ComplianceOf(route).storedSurplus ==> ComplianceOf(route).cbGco2eq >= 0.0
  {
    var cb := ComplianceBalance(route.ghgIntensity, route.fuelConsumption, route.year);
    RoundKeepsSign(cb);
  }

  /** A CB of 0.0041 is flagged as a surplus but rounds to a balance of 0, which the getter calls no surplus. */
  lemma TinySurplusStoredAsZero()
    ensures var c := ComplianceOf(RouteRecord("R", "Tanker", "LNG", 2024, 89.3367999, 1.0, 100.0, 1.0, false));
      c.storedSurplus && c.cbGco2eq == 0.0 && !c.IsSurplus()
  {
    var cb := ComplianceBalance(89.3367999, 1.0, 2024);
    assert cb == 0.0041;
    assert (cb * 100.0 + 0.5).Floor == 0;
  }

  /** `routes.map(...)`: one record per route, in route order. */
  function Computed(routes: seq<RouteRecord>): (r: seq<ShipCompliance>)
    ensures |r| == |routes|
  {
    if routes == [] then [] else [ComplianceOf(routes[0])] + Computed(routes[1..])
  }

  lemma {:induction false} ComputedAt(routes: seq<RouteRecord>, k: nat)
    requires k < |routes|
    ensures Computed(routes)[k] == ComplianceOf(routes[k])
  {
    if k > 0 {
      ComputedAt(routes[1..], k - 1);
    }
  }

  /** `results.find(r => r.shipId === shipId)`: the position of the first record of that ship. */
  function FindShip(cs: seq<ShipCompliance>, shipId: string): (k: Option<nat>)
    ensures k.Some? ==> k.value < |cs| && cs[k.value].shipId == shipId
    ensures k.Some? ==> forall j :: 0 <= j < k.value ==> cs[j].shipId != shipId
    ensures k.None? <==> forall j :: 0 <= j < |cs| ==> cs[j].shipId != shipId
  {
    if cs == [] then None
    else if cs[0].shipId == shipId then Some(0)
    else match FindShip(cs[1..], shipId)
      case None => None
      case Some(k) => Some(k + 1)
  }

  /** The store after saving each record in turn. */
  function SaveAll(rs: seq<ShipCompliance>, cs: seq<ShipCompliance>): (r: seq<ShipCompliance>)
    ensures |rs| <= |r| <= |rs| + |cs|
    ensures forall j :: 0 <= j < |rs| ==> r[j].Key() == rs[j].Key()
    ensures cs != [] ==> cs[|cs| - 1] in r
  {
    if cs == [] then rs else Upsert(SaveAll(rs, cs[..|cs| - 1]), cs[|cs| - 1])
  }

  /** The last of the records with the given key, if any. */
  function LastWithKey(cs: seq<ShipCompliance>, key: (string, int)): (c: Option<ShipCompliance>)
    ensures c.Some? ==> c.value in cs && c.value.Key() == key
    ensures c.None? <==> forall j :: 0 <= j < |cs| ==> cs[j].Key() != key
  {
    if cs == [] then None
    else if cs[|cs| - 1].Key() == key then Some(cs[|cs| - 1])
    else LastWithKey(cs[..|cs| - 1], key)
  }

  /**
   * After saving a batch, a key finds the last record of the batch with that
   * key, whatever the store held before; a key the batch does not touch finds
   * what it found before.
   */
  lemma {:induction false} SaveAllLookup(rs: seq<ShipCompliance>, cs: seq<ShipCompliance>, key: (string, int))
    ensures Lookup(SaveAll(rs, cs), key) == match LastWithKey(cs, key)
                                           case Some(c) => Some(c)
                                           case None => Lookup(rs, key)
  {
    if cs != [] {
      var init, last := cs[..|cs| - 1], cs[|cs| - 1];
      UpsertLookup(SaveAll(rs, init), last, key);
      if last.Key() != key {
        SaveAllLookup(rs, init, key);
      }
    }
  }

  lemma {:induction false} SaveAllKeepsKeysUnique(rs: seq<ShipCompliance>, cs: seq<ShipCompliance>)
    requires UniqueKeys(rs)
    ensures UniqueKeys(SaveAll(rs, cs))
  {
    if cs != [] {
      SaveAllKeepsKeysUnique(rs, cs[..|cs| - 1]);
      UpsertKeepsKeysUnique(SaveAll(rs, cs[..|cs| - 1]), cs[|cs| - 1]);
    }
  }

  /** The `findAll` filter ComputeCB passes: the year only. */
  function YearFilter(year: int): RouteFilters {
    RouteFilters(None, None, Some(year))
  }

  method Execute(routeStore: RouteRepository, compliance: ComplianceRepository, shipId: Option<string>, year: int)
    returns (r: Result<OneOrMany<ShipCompliance>>)
    requires compliance.Valid()
    modifies compliance
    ensures compliance.Valid()
    ensures routeStore.FindAll(YearFilter(year)) == [] ==>
      r == Err(NoRoutesForYear(year)) && compliance.records == old(compliance.records)
    ensures routeStore.FindAll(YearFilter(year)) != [] && TextGiven(shipId) ==>
      var results := Computed(routeStore.FindAll(YearFilter(year)));
      match FindShip(results, shipId.value)
      case None => r == Err(ShipNotFoundForYear(shipId.value)) && compliance.records == old(compliance.records)
      case Some(k) => r == Ok(One(results[k])) && compliance.records == Upsert(old(compliance.records), results[k])
    ensures routeStore.FindAll(YearFilter(year)) != [] && !TextGiven(shipId) ==>
      var results := Computed(routeStore.FindAll(YearFilter(year)));
      r == Ok(Many(results)) && compliance.records == SaveAll(old(compliance.records), results)
  {
    var routes := routeStore.FindAll(YearFilter(year));
    if |routes| == 0 {
      return Err(NoRoutesForYear(year));
    }
    var results := Computed(routes);
    if TextGiven(shipId) {
      var k := FindShip(results, shipId.value);
      if k.None? {
        return Err(ShipNotFoundForYear(shipId.value));
      }
      compliance.Save(results[k.value]);
      return Ok(One(results[k.value]));
    }
    SaveEach(compliance, results);
    r := Ok(Many(results));
  }

  /** `for (const r of results) await save(r)`. */
  method SaveEach(compliance: ComplianceRepository, results: seq<ShipCompliance>)
    requires compliance.Valid()
    modifies compliance
    ensures compliance.Valid()
    ensures compliance.records == SaveAll(old(compliance.records), results)
  {
    for i := 0 to |results|
      invariant compliance.Valid()
      invariant compliance.records == SaveAll(old(compliance.records), results[..i])
    {
      assert results[..i + 1][..i] == results[..i];
      compliance.Save(results[i]);
    }
    assert results[..|results|] == results;
  }
}
