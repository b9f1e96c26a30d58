/**
 * GetAdjustedCB: a ship's compliance balance plus what its own bank entries
 * leave available. The balance used here is the ship's own (its deposits less
 * its applications), unlike ApplyBanked, which draws on the fleet-wide one.
 * Nothing is written.
 */
module GetAdjustedCB {
  import opened Outcomes
  import opened ShipComplianceEntity
  import opened ComplianceStore
  import opened BankingStore

  datatype AdjustedCB = AdjustedCB(shipId: string, year: int, originalCB: real, bankedAvailable: real,
                                   adjustedCB: real, isSurplus: bool)

  /** What the use case reports for one compliance record against the ledger. */
  function Adjusted(c: ShipCompliance, entries: seq<BankEntry>): (a: AdjustedCB)
    ensures a.shipId == c.shipId && a.year == c.year && a.originalCB == c.cbGco2eq
    ensures a.bankedAvailable == Available(entries, Some(c.shipId))
    ensures a.adjustedCB == c.cbGco2eq + a.bankedAvailable
    ensures a.isSurplus <==> a.adjustedCB > 0.0
  {
    var bankedAvailable := Available(entries, Some(c.shipId));
    AdjustedCB(c.shipId, c.year, c.cbGco2eq, bankedAvailable, c.cbGco2eq + bankedAvailable,
               c.cbGco2eq + bankedAvailable > 0.0)
  }

  /** One report per record, in the records' order, each the record's own. */
  predicate ReportsAll(reports: seq<AdjustedCB>, cs: seq<ShipCompliance>, entries: seq<BankEntry>) {
    |reports| == |cs| && forall k :: 0 <= k < |cs| ==> reports[k] == Adjusted(cs[k], entries)
  }

  /** Another ship's bank entry leaves a ship's report unchanged: the balance is per ship. */
  lemma OtherShipsEntryIgnored(c: ShipCompliance, entries: seq<BankEntry>, e: BankEntry)
    requires c.shipId != "" && e.shipId != c.shipId
    ensures Adjusted(c, entries + [e]) == Adjusted(c, entries)
  {
    AppendShiftsAvailable(entries, e, Some(c.shipId));
  }

  /** The ship's own entry moves its adjusted balance by exactly the entry's amount. */
  lemma OwnEntryCounted(c: ShipCompliance, entries: seq<BankEntry>, e: BankEntry)
    requires e.shipId == c.shipId
    ensures Adjusted(c, entries + [e]).adjustedCB == Adjusted(c, entries).adjustedCB + e.amountGco2eq
  {
    AppendShiftsAvailable(entries, e, Some(c.shipId));
  }

  /** With a truthy shipId one report (or NoComplianceRecord), otherwise one per record of the year. */
  method Execute(compliance: ComplianceRepository, banking: BankingRepository, shipId: Option<string>, year: int)
    returns (r: Result<OneOrMany<AdjustedCB>>)
    ensures TextGiven(shipId) ==>
      match Lookup(compliance.records, (shipId.value, year))
      case None => r == Err(NoComplianceRecord(shipId.value))
      case Some(c) => r == Ok(One(Adjusted(c, banking.entries)))
    ensures !TextGiven(shipId) ==>
      r.Ok? && r.value.Many? && ReportsAll(r.value.items, compliance.FindAll(Some(year), None), banking.entries)
  {
    if TextGiven(shipId) {
      r := ShipReport(compliance, banking, shipId.value, year);
    } else {
      var all := FleetReport(compliance, banking, year);
      r := Ok(Many(all));
    }
  }

  /** The single-ship branch. */
  method ShipReport(compliance: ComplianceRepository, banking: BankingRepository, shipId: string, year: int)
    returns (r: Result<OneOrMany<AdjustedCB>>)
    requires shipId != ""
    ensures match Lookup(compliance.records, (shipId, year))
      case None => r == Err(NoComplianceRecord(shipId))
      case Some(c) => r == Ok(One(Adjusted(c, banking.entries)))
  {
    var found := compliance.FindByShipAndYear(shipId, year);
    if found.None? {
      return Err(NoComplianceRecord(shipId));
    }
    var totalBanked := banking.TotalBanked(Some(shipId));
    var totalApplied := banking.TotalApplied(Some(shipId));
    var bankedAvailable := totalBanked - totalApplied;
    var cb := found.value.cbGco2eq;
    r := Ok(One(AdjustedCB(shipId, year, cb, bankedAvailable, cb + bankedAvailable, cb + bankedAvailable > 0.0)));
  }

  /** The all-ships branch: one report per record of the year, in store order. */
  method FleetReport(compliance: ComplianceRepository, banking: BankingRepository, year: int)
    returns (results: seq<AdjustedCB>)
    ensures ReportsAll(results, compliance.FindAll(Some(year), None), banking.entries)
  {
    var all := compliance.FindAll(Some(year), None);
    results := [];
    for i := 0 to |all|
      invariant |results| == i
      invariant forall k :: 0 <= k < i ==> results[k] == Adjusted(all[k], banking.entries)
    {
      var report := Report(banking, all[i]);
      results := results + [report];
    }
  }

  /** The body of the all-ships loop, for one record. */
  method Report(banking: BankingRepository, c: ShipCompliance) returns (report: AdjustedCB)
    ensures report == Adjusted(c, banking.entries)
  {
    var totalBanked := banking.TotalBanked(Some(c.shipId));
    var totalApplied := banking.TotalApplied(Some(c.shipId));
    var bankedAvailable := totalBanked - totalApplied;
    var adjusted := c.cbGco2eq + bankedAvailable;
    report := AdjustedCB(c.shipId, c.year, c.cbGco2eq, bankedAvailable, adjusted, adjusted > 0.0);
  }
}
