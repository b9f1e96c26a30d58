/**
 * BankSurplus: moves a ship's positive compliance balance into the ledger as a
 * deposit. The compliance record itself is left as it is, and nothing stops the
 * same ship-year from being banked again.
 */
module BankSurplus {
  import opened Outcomes
  import opened ShipComplianceEntity
  import opened ComplianceStore
  import opened BankingStore

  datatype BankReceipt = BankReceipt(shipId: string, year: int, bankedAmount: real)

  /** The reason a request is refused; None when the record exists with a positive CB. */
  function Rejection(records: seq<ShipCompliance>, shipId: string, year: int): (e: Option<Error>)
    ensures e.None? <==> Lookup(records, (shipId, year)).Some? && Lookup(records, (shipId, year)).value.IsSurplus()
    ensures Lookup(records, (shipId, year)).None? ==> e == Some(NoComplianceRecord(shipId))
    ensures Lookup(records, (shipId, year)).Some? && Lookup(records, (shipId, year)).value.cbGco2eq <= 0.0
            ==> e == Some(NonPositiveBalance)
  {
    match Lookup(records, (shipId, year))
    case None => Some(NoComplianceRecord(shipId))
    case Some(c) => if c.cbGco2eq <= 0.0 then Some(NonPositiveBalance) else None
  }

  /** A deposit raises the fleet-wide banked total by its amount and leaves the applied total alone. */
  lemma DepositRaisesBanked(entries: seq<BankEntry>, e: BankEntry)
    requires e.amountGco2eq > 0.0
    ensures SumSelected(entries + [e], None, true) == SumSelected(entries, None, true) + e.amountGco2eq
    ensures SumSelected(entries + [e], None, false) == SumSelected(entries, None, false)
  {
    SumSelectedAppend(entries, e, None, true);
    SumSelectedAppend(entries, e, None, false);
  }

  /**
   * The refusal looks only at the compliance record, never at the ledger, so
   * banking the same ship-year twice is accepted twice and counts the CB twice.
   */
  lemma NoGuardAgainstDoubleBanking(records: seq<ShipCompliance>, entries: seq<BankEntry>, shipId: string, year: int)
    requires Rejection(records, shipId, year).None?
    ensures var e := BankEntry(shipId, year, Lookup(records, (shipId, year)).value.cbGco2eq);
      Available(entries + [e] + [e], None) == Available(entries, None) + 2.0 * e.amountGco2eq
  {
    var e := BankEntry(shipId, year, Lookup(records, (shipId, year)).value.cbGco2eq);
    AppendShiftsAvailable(entries, e, None);
    AppendShiftsAvailable(entries + [e], e, None);
  }

  method Execute(compliance: ComplianceRepository, banking: BankingRepository, shipId: string, year: int)
    returns (r: Result<BankReceipt>)
    modifies banking
    ensures r.Err? <==> Rejection(compliance.records, shipId, year).Some?
    ensures r.Err? ==> Rejection(compliance.records, shipId, year) == Some(r.error) && banking.entries == old(banking.entries)
    ensures r.Ok? ==>
      var cb := Lookup(compliance.records, (shipId, year)).value.cbGco2eq;
      && cb > 0.0
      && banking.entries == old(banking.entries) + [BankEntry(shipId, year, cb)]
      && banking.TotalBanked(None) == old(banking.TotalBanked(None)) + cb
      && banking.TotalApplied(None) == old(banking.TotalApplied(None))
      && r.value == BankReceipt(shipId, year, cb)
  {
    var found := compliance.FindByShipAndYear(shipId, year);
    if found.None? {
      return Err(NoComplianceRecord(shipId));
    }
    if found.value.cbGco2eq <= 0.0 {
      return Err(NonPositiveBalance);
    }
    var entry := BankEntry(shipId, year, found.value.cbGco2eq);
    DepositRaisesBanked(banking.entries, entry);
    banking.Save(entry);
    r := Ok(BankReceipt(shipId, year, found.value.cbGco2eq));
  }
}
