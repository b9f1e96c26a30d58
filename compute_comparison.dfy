/**
 * ComputeComparison: compares every route with the baseline route, giving the
 * percent difference of their intensities (rounded to cents) and each route's
 * compliance against the flat target. It only reads the route store.
 */
module ComputeComparison {
  import opened Outcomes
  import opened ComplianceMath
  import opened RouteEntity
  import opened RouteStore

  datatype Comparison = Comparison(routeId: string, vesselType: string, fuelType: string, year: int,
                                   ghgIntensity: real, percentDiff: real, compliant: bool, target: real)

  datatype BaselineView = BaselineView(routeId: string, vesselType: string, fuelType: string, year: int,
                                       ghgIntensity: real, target: real, compliant: bool)

  datatype ComparisonReport = ComparisonReport(baseline: BaselineView, comparisons: seq<Comparison>)

  /** One route measured against the baseline. */
  function CompareTo(route: RouteRecord, baseline: RouteRecord): (c: Comparison)
    ensures c.routeId == route.routeId && c.vesselType == route.vesselType && c.fuelType == route.fuelType
    ensures c.year == route.year && c.ghgIntensity == route.ghgIntensity
    ensures var d := PercentDiff(route.ghgIntensity, baseline.ghgIntensity);
      d - 0.005 < c.percentDiff <= d + 0.005
    ensures IsCents(c.percentDiff)
    ensures baseline.ghgIntensity == 0.0 || route.ghgIntensity == baseline.ghgIntensity ==> c.percentDiff == 0.0
    ensures baseline.ghgIntensity > 0.0 && route.ghgIntensity < baseline.ghgIntensity ==> c.percentDiff <= 0.0
    ensures baseline.ghgIntensity > 0.0 && route.ghgIntensity > baseline.ghgIntensity ==> c.percentDiff >= 0.0
    ensures c.compliant <==> route.ghgIntensity <= TARGET_INTENSITY_2025
    ensures c.target == TARGET_INTENSITY_2025
  {
    var d := PercentDiff(route.ghgIntensity, baseline.ghgIntensity);
    RoundKeepsSign(d);
    RoundIsCents(d);
    Comparison(route.routeId, route.vesselType, route.fuelType, route.year, route.ghgIntensity,
               Round2(d), IsCompliant(route.ghgIntensity, route.year), TargetIntensity(route.year))
  }

  /** The baseline echoed back with its own target and compliance. */
  function BaselineOf(b: RouteRecord): (v: BaselineView)
    ensures v.routeId == b.routeId && v.vesselType == b.vesselType && v.fuelType == b.fuelType
    ensures v.year == b.year && v.ghgIntensity == b.ghgIntensity
    ensures v.target == TARGET_INTENSITY_2025
    ensures v.compliant <==> b.ghgIntensity <= TARGET_INTENSITY_2025
  {
    BaselineView(b.routeId, b.vesselType, b.fuelType, b.year, b.ghgIntensity,
                 TargetIntensity(b.year), IsCompliant(b.ghgIntensity, b.year))
  }

  /** `filter(r => r.routeId !== baseline.routeId)`, keeping the order. */
  function Others(routes: seq<RouteRecord>, baselineId: string): (r: seq<RouteRecord>)
    ensures |r| <= |routes|
    ensures forall k :: 0 <= k < |r| ==> r[k] in routes && r[k].routeId != baselineId
    ensures forall k :: 0 <= k < |routes| && routes[k].routeId != baselineId ==> routes[k] in r
    ensures |routes| == 1 ==> r == (if routes[0].routeId != baselineId then routes else [])
  {
    if routes == [] then []
    else (if routes[0].routeId != baselineId then [routes[0]] else []) + Others(routes[1..], baselineId)
  }

  /** Filtering a concatenation filters each part and keeps them in order, so with the one-route case
      above the result is the kept routes in their original order and multiplicity. */
  lemma {:induction false} OthersAppend(s: seq<RouteRecord>, t: seq<RouteRecord>, baselineId: string)
    ensures Others(s + t, baselineId) == Others(s, baselineId) + Others(t, baselineId)
    decreases |s|
  {
    if s == [] {
      assert s + t == t;
    } else {
      assert (s + t)[1..] == s[1..] + t;
      OthersAppend(s[1..], t, baselineId);
    }
  }

  /** With unique routeIds, dropping a stored id leaves exactly one route fewer; absent, nothing is dropped. */
  lemma {:induction false} OthersCount(routes: seq<RouteRecord>, baselineId: string)
    requires UniqueRouteIds(routes)
    ensures |Others(routes, baselineId)| == |routes| - (if exists k :: 0 <= k < |routes| && routes[k].routeId == baselineId then 1 else 0)
  {
    if routes != [] {
      assert UniqueRouteIds(routes[1..]) by {
        forall i, j | 0 <= i < j < |routes[1..]| ensures routes[1..][i].routeId != routes[1..][j].routeId {
          assert routes[1..][i] == routes[i + 1] && routes[1..][j] == routes[j + 1];
        }
      }
      OthersCount(routes[1..], baselineId);
      if routes[0].routeId == baselineId {
        assert forall k :: 0 <= k < |routes[1..]| ==> routes[1..][k].routeId != baselineId by {
          forall k | 0 <= k < |routes[1..]| ensures routes[1..][k].routeId != baselineId {
            assert routes[1..][k] == routes[k + 1];
          }
        }
      } else {
        if exists k :: 0 <= k < |routes| && routes[k].routeId == baselineId {
          var k :| 0 <= k < |routes| && routes[k].routeId == baselineId;
          assert routes[1..][k - 1] == routes[k];
        }
        if exists k :: 0 <= k < |routes[1..]| && routes[1..][k].routeId == baselineId {
          var k :| 0 <= k < |routes[1..]| && routes[1..][k].routeId == baselineId;
          assert routes[k + 1] == routes[1..][k];
        }
      }
    }
  }

  /** A store holding only the baseline gives no comparisons. */
  lemma OnlyBaselineGivesNone(b: RouteRecord)
    ensures Others([b], b.routeId) == []
  {
    assert [b][1..] == [];
  }

  /** The `map` over the remaining routes. */
  function Comparisons(routes: seq<RouteRecord>, baseline: RouteRecord): (r: seq<Comparison>)
    ensures |r| == |routes|
  {
    if routes == [] then [] else [CompareTo(routes[0], baseline)] + Comparisons(routes[1..], baseline)
  }

  lemma {:induction false} ComparisonsAt(routes: seq<RouteRecord>, baseline: RouteRecord, k: nat)
    requires k < |routes|
    ensures Comparisons(routes, baseline)[k] == CompareTo(routes[k], baseline)
  {
    if k > 0 {
      ComparisonsAt(routes[1..], baseline, k - 1);
    }
  }

  /** NoBaseline when no route is flagged; otherwise the baseline and every other route, compared. */
  function Execute(store: RouteRepository): (r: Result<ComparisonReport>)
    reads store
    ensures r.Err? <==> forall j :: 0 <= j < |store.routes| ==> !store.routes[j].isBaseline
    ensures r.Err? ==> r.error == NoBaseline
    ensures r.Ok? ==>
      && store.FindBaseline().Some?
      && r.value.baseline == BaselineOf(store.FindBaseline().value)
      && r.value.comparisons == Comparisons(Others(store.FindAll(NO_FILTERS), store.FindBaseline().value.routeId),
                                            store.FindBaseline().value)
  {
    match store.FindBaseline()
    case None => Err(NoBaseline)
    case Some(baseline) =>
      var others := Others(store.FindAll(NO_FILTERS), baseline.routeId);
      Ok(ComparisonReport(BaselineOf(baseline), Comparisons(others, baseline)))
  }

  /** No comparison is of the baseline itself. */
  lemma ComparisonsExcludeBaseline(store: RouteRepository, k: nat)
    requires Execute(store).Ok? && k < |Execute(store).value.comparisons|
    ensures Execute(store).value.comparisons[k].routeId != store.FindBaseline().value.routeId
  {
    var b := store.FindBaseline().value;
    var others := Others(store.FindAll(NO_FILTERS), b.routeId);
    ComparisonsAt(others, b, k);
  }

  /** Every stored route but the baseline is compared: one comparison fewer than there are routes. */
  lemma ComparisonCount(store: RouteRepository)
    requires store.Valid() && Execute(store).Ok?
    ensures |Execute(store).value.comparisons| == |store.routes| - 1
  {
    var b := store.FindBaseline().value;
    var k :| 0 <= k < |store.routes| && store.routes[k] == b;
    OthersCount(store.routes, b.routeId);
  }
}
