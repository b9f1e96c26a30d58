/** A maritime route: its stored document (RouteRecord) and the domain object (Route). */
module RouteEntity {
  import ComplianceMath

  /** A route as the route repository stores and returns it; routeId is unique in the store. */
  datatype RouteRecord = RouteRecord(
    routeId: string,
    vesselType: string,
    fuelType: string,
    year: int,
    ghgIntensity: real,     // gCO2e/MJ
    fuelConsumption: real,  // tonnes
    distance: real,         // km
    totalEmissions: real,   // tonnes
    isBaseline: bool)

  /** The Route domain object, whose baseline flag is set and cleared in place. */
  class Route {
    var routeId: string
    var vesselType: string
    var fuelType: string
    var year: int
    var ghgIntensity: real
    var fuelConsumption: real
    var distance: real
    var totalEmissions: real
    var isBaseline: bool

    /** The object's fields as a stored record. */
    function Snapshot(): RouteRecord
      reads this
    {
      RouteRecord(routeId, vesselType, fuelType, year, ghgIntensity, fuelConsumption,
                  distance, totalEmissions, isBaseline)
    }

    /** Every field is stored as given; isBaseline defaults to false. */
    constructor (routeId: string, vesselType: string, fuelType: string, year: int,
                 ghgIntensity: real, fuelConsumption: real, distance: real,
                 totalEmissions: real, isBaseline: bool := false)
      ensures Snapshot() == RouteRecord(routeId, vesselType, fuelType, year, ghgIntensity,
                                        fuelConsumption, distance, totalEmissions, isBaseline)
    {
      this.routeId := routeId;
      this.vesselType := vesselType;
      this.fuelType := fuelType;
      this.year := year;
      this.ghgIntensity := ghgIntensity;
      this.fuelConsumption := fuelConsumption;
      this.distance := distance;
      this.totalEmissions := totalEmissions;
      this.isBaseline := isBaseline;
    }

    /** Energy in scope, MJ: the factor by which the intensity gap becomes the CB. */
    function EnergyInScope(): (e: real)
      reads this
      ensures e == fuelConsumption * ComplianceMath.MJ_PER_TONNE
      ensures fuelConsumption > 0.0 ==> e > 0.0
      ensures forall g: real ::
                ComplianceMath.ComplianceBalance(g, fuelConsumption, year) == (ComplianceMath.TargetIntensity(year) - g) * e
    {
      fuelConsumption * 41000.0
    }

    method SetAsBaseline()
      modifies this
      ensures Snapshot() == old(Snapshot()).(isBaseline := true)
    {
      isBaseline := true;
    }

    method UnsetBaseline()
      modifies this
      ensures Snapshot() == old(Snapshot()).(isBaseline := false)
    {
      isBaseline := false;
    }
  }

  /** A route built without the flag is not the baseline. */
  method NewRouteIsNotBaseline(routeId: string, year: int) returns (flag: bool)
    ensures !flag
  {
    var r := new Route(routeId, "Container", "HFO", year, 91.0, 5000.0, 12000.0, 4500.0);
    flag := r.isBaseline;
  }
}
