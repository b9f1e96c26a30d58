/** A ship's compliance balance for one year, as stored by the compliance repository. */
module ShipComplianceEntity {

  /**
   * `storedSurplus` is the `isSurplus` field of the stored document: it is written
   * by ComputeCB and copied unchanged by ApplyBanked; the IsSurplus() getter is derived.
   */
  datatype ShipCompliance = ShipCompliance(
    shipId: string,
    year: int,
    cbGco2eq: real,
    ghgIntensity: real,
    fuelConsumption: real,
    storedSurplus: bool)
  {
    /** The unique index of the store is (shipId, year). */
    function Key(): (string, int) {
      (shipId, year)
    }

    predicate IsSurplus() {
      cbGco2eq > 0.0
    }

    predicate IsDeficit() {
      cbGco2eq < 0.0
    }
  }

  /** No record is both surplus and deficit; a balance of exactly 0 is neither. */
  lemma SurplusDeficitExclusive(c: ShipCompliance)
    ensures !(c.IsSurplus() && c.IsDeficit())
    ensures c.cbGco2eq == 0.0 <==> !c.IsSurplus() && !c.IsDeficit()
  {
  }
}
