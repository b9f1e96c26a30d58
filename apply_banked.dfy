/**
 * ApplyBanked: raises one ship's compliance balance with banked surplus.
 * The amount is checked against the fleet-wide balance (every ship's deposits
 * less every ship's applications), not against the ship's own entries; the
 * application is recorded as a negative ledger entry.
 */
module ApplyBanked {
  import opened Outcomes
  import opened ShipComplianceEntity
  import opened ComplianceStore
  import opened BankingStore

  datatype ApplyReceipt = ApplyReceipt(shipId: string, year: int, cbBefore: real, applied: real, cbAfter: real)

  /** `{ ...compliance, cbGco2eq: cbAfter }`: the record with the amount added to its balance, all else kept. */
  function Credited(c: ShipCompliance, amount: real): (r: ShipCompliance)
    ensures r.Key() == c.Key() && r.cbGco2eq == c.cbGco2eq + amount
    ensures r.ghgIntensity == c.ghgIntensity && r.fuelConsumption == c.fuelConsumption
    ensures r.storedSurplus == c.storedSurplus
  {
    c.(cbGco2eq := c.cbGco2eq + amount)
  }

  /** The reason a request is refused, in the order the checks run; None when it goes through. */
  function Rejection(records: seq<ShipCompliance>, entries: seq<BankEntry>, shipId: string, year: int, amount: real)
    : (e: Option<Error>)
    ensures e.None? <==> amount > 0.0 && Lookup(records, (shipId, year)).Some? && amount <= Available(entries, None)
    ensures amount <= 0.0 ==> e == Some(NonPositiveAmount)
    ensures amount > 0.0 && Lookup(records, (shipId, year)).None? ==> e == Some(NoComplianceRecord(shipId))
    ensures amount > 0.0 && Lookup(records, (shipId, year)).Some? && amount > Available(entries, None)
            ==> e == Some(InsufficientBanked)
  {
    if amount <= 0.0 then Some(NonPositiveAmount)
    else if Lookup(records, (shipId, year)).None? then Some(NoComplianceRecord(shipId))
    else if amount > Available(entries, None) then Some(InsufficientBanked)
    else None
  }

  /** A non-positive amount is refused whatever either store holds: the check reads neither. */
  lemma AmountCheckedFirst(r1: seq<ShipCompliance>, e1: seq<BankEntry>, r2: seq<ShipCompliance>, e2: seq<BankEntry>,
                           shipId: string, year: int, amount: real)
    requires amount <= 0.0
    ensures Rejection(r1, e1, shipId, year, amount) == Rejection(r2, e2, shipId, year, amount) == Some(NonPositiveAmount)
  {
  }

  /**
   * The application entry lowers the fleet-wide balance by exactly the amount,
   * so an accepted request never takes it below zero; the applying ship's own
   * balance falls by the same amount and every other ship's is untouched.
   */
  lemma ApplicationDrawsDown(entries: seq<BankEntry>, shipId: string, year: int, amount: real, other: string)
    requires 0.0 < amount <= Available(entries, None)
    requires shipId != "" && other != "" && other != shipId
    ensures Available(entries + [BankEntry(shipId, year, -amount)], None) == Available(entries, None) - amount
    ensures Available(entries + [BankEntry(shipId, year, -amount)], None) >= 0.0
    ensures Available(entries + [BankEntry(shipId, year, -amount)], Some(shipId)) == Available(entries, Some(shipId)) - amount
    ensures Available(entries + [BankEntry(shipId, year, -amount)], Some(other)) == Available(entries, Some(other))
  {
    var e := BankEntry(shipId, year, -amount);
    AppendShiftsAvailable(entries, e, None);
    AppendShiftsAvailable(entries, e, Some(shipId));
    AppendShiftsAvailable(entries, e, Some(other));
  }

  /**
   * Surplus banked by one ship covers another: after ship A banks 100 and ship B
   * applies 50, B's own balance (the one GetAdjustedCB reports) is -50.
   */
  lemma SharedPoolLeavesShipBalanceNegative()
    ensures var banked := [BankEntry("A", 2024, 100.0)];
      && Rejection([ShipCompliance("B", 2024, -80.0, 91.0, 10.0, false)], banked, "B", 2024, 50.0).None?
      && Available(banked + [BankEntry("B", 2024, -50.0)], Some("B")) == -50.0
  {
    var banked := [BankEntry("A", 2024, 100.0)];
    AppendShiftsAvailable([], banked[0], None);
    AppendShiftsAvailable([], banked[0], Some("B"));
    assert [] + banked == banked;
    AppendShiftsAvailable(banked, BankEntry("B", 2024, -50.0), Some("B"));
  }

  method Execute(compliance: ComplianceRepository, banking: BankingRepository, shipId: string, year: int, amount: real)
    returns (r: Result<ApplyReceipt>)
    requires compliance.Valid()
    modifies compliance, banking
    ensures compliance.Valid()
    ensures r.Err? <==> Rejection(old(compliance.records), old(banking.entries), shipId, year, amount).Some?
    ensures r.Err? ==> Rejection(old(compliance.records), old(banking.entries), shipId, year, amount) == Some(r.error)
    ensures r.Err? ==> compliance.records == old(compliance.records) && banking.entries == old(banking.entries)
    ensures r.Ok? ==>
      var before := Lookup(old(compliance.records), (shipId, year)).value;
      var updated := Credited(before, amount);
      && banking.entries == old(banking.entries) + [BankEntry(shipId, year, -amount)]
      && compliance.records == Upsert(old(compliance.records), updated)
      && compliance.FindByShipAndYear(shipId, year) == Some(updated)
      && (forall s, y :: (s, y) != (shipId, year) ==>
            compliance.FindByShipAndYear(s, y) == old(compliance.FindByShipAndYear(s, y)))
      && banking.GlobalAvailable() == old(banking.GlobalAvailable()) - amount
      && banking.GlobalAvailable() >= 0.0
      && r.value == ApplyReceipt(shipId, year, before.cbGco2eq, amount, before.cbGco2eq + amount)
  {
    if amount <= 0.0 {
      return Err(NonPositiveAmount);
    }
    var found := compliance.FindByShipAndYear(shipId, year);
    assert found == Lookup(old(compliance.records), (shipId, year));
    if found.None? {
      return Err(NoComplianceRecord(shipId));
    }
    var totalBanked := banking.TotalBanked(None);
    var totalApplied := banking.TotalApplied(None);
    var availableBanked := totalBanked - totalApplied;
    if amount > availableBanked {
      return Err(InsufficientBanked);
    }
    var cbBefore := found.value.cbGco2eq;
    var cbAfter := cbBefore + amount;
    Record(compliance, banking, BankEntry(shipId, year, -amount), Credited(found.value, amount));
    r := Ok(ApplyReceipt(shipId, year, cbBefore, amount, cbAfter));
  }

  /** The two writes of an accepted request: the ledger entry, then the updated record. */
  method Record(compliance: ComplianceRepository, banking: BankingRepository, entry: BankEntry, updated: ShipCompliance)
    requires compliance.Valid()
    modifies compliance, banking
    ensures compliance.Valid()
    ensures banking.entries == old(banking.entries) + [entry]
    ensures banking.GlobalAvailable() == old(banking.GlobalAvailable()) + entry.amountGco2eq
    ensures compliance.records == Upsert(old(compliance.records), updated)
    ensures compliance.FindByShipAndYear(updated.shipId, updated.year) == Some(updated)
    ensures forall s, y :: (s, y) != updated.Key() ==>
              compliance.FindByShipAndYear(s, y) == old(compliance.FindByShipAndYear(s, y))
  {
    AppendShiftsAvailable(banking.entries, entry, None);
    banking.Save(entry);
    compliance.Save(updated);
  }
}
