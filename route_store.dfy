/** The route repository: routes in store order, each routeId at most once. */
module RouteStore {
  import opened Outcomes
  import opened SeqUtil
  import opened RouteEntity

  /** The filters a caller may pass; a field is used only when truthy. */
  datatype RouteFilters = RouteFilters(vesselType: Option<string>, fuelType: Option<string>, year: Option<int>)

  const NO_FILTERS: RouteFilters := RouteFilters(None, None, None)

  /** The query object `_buildQuery` produces: a field is present or not. */
  datatype RouteQuery = RouteQuery(vesselType: Option<string>, fuelType: Option<string>, year: Option<int>)

  function BuildQuery(f: RouteFilters): (q: RouteQuery)
    ensures q.vesselType.Some? <==> TextGiven(f.vesselType)
    ensures q.fuelType.Some? <==> TextGiven(f.fuelType)
    ensures q.year.Some? <==> NumberGiven(f.year)
    ensures q.vesselType.Some? ==> q.vesselType == f.vesselType
    ensures q.fuelType.Some? ==> q.fuelType == f.fuelType
    ensures q.year.Some? ==> q.year == f.year
  {
    RouteQuery(
      if TextGiven(f.vesselType) then f.vesselType else None,
      if TextGiven(f.fuelType) then f.fuelType else None,
      if NumberGiven(f.year) then f.year else None)
  }

  /** A document satisfies a query when it equals every field the query has. */
  predicate Satisfies(r: RouteRecord, q: RouteQuery) {
    && (q.vesselType.Some? ==> r.vesselType == q.vesselType.value)
    && (q.fuelType.Some? ==> r.fuelType == q.fuelType.value)
    && (q.year.Some? ==> r.year == q.year.value)
  }

  /** A route matches the filters iff it equals each truthy one; no filters match every route. */
  lemma MatchesFilters(r: RouteRecord, f: RouteFilters)
    ensures Satisfies(r, BuildQuery(f)) <==>
      && (TextGiven(f.vesselType) ==> r.vesselType == f.vesselType.value)
      && (TextGiven(f.fuelType) ==> r.fuelType == f.fuelType.value)
      && (NumberGiven(f.year) ==> r.year == f.year.value)
    ensures Satisfies(r, BuildQuery(NO_FILTERS))
  {
  }

  predicate UniqueRouteIds(rs: seq<RouteRecord>) {
    forall i, j :: 0 <= i < j < |rs| ==> rs[i].routeId != rs[j].routeId
  }

  /** Position of the first route with this id. */
  function IndexOfRoute(rs: seq<RouteRecord>, routeId: string): (k: Option<nat>)
    ensures k.Some? ==> k.value < |rs| && rs[k.value].routeId == routeId
    ensures k.Some? ==> forall j :: 0 <= j < k.value ==> rs[j].routeId != routeId
    ensures k.None? ==> forall j :: 0 <= j < |rs| ==> rs[j].routeId != routeId
  {
    if rs == [] then None
    else if rs[0].routeId == routeId then Some(0)
    else match IndexOfRoute(rs[1..], routeId)
      case None => None
      case Some(k) => Some(k + 1)
  }

  /** Sequences with the same ids position by position find an id at the same place. */
  lemma IndexOfRouteSameIds(rs: seq<RouteRecord>, ss: seq<RouteRecord>, routeId: string)
    requires |rs| == |ss| && forall i :: 0 <= i < |rs| ==> rs[i].routeId == ss[i].routeId
    ensures IndexOfRoute(rs, routeId) == IndexOfRoute(ss, routeId)
  {
    var a, b := IndexOfRoute(rs, routeId), IndexOfRoute(ss, routeId);
    if a.Some? && b.Some? {
      assert !(a.value < b.value) && !(b.value < a.value);
    }
  }

  /** Position of the first route whose baseline flag is set. */
  function IndexOfBaseline(rs: seq<RouteRecord>): (k: Option<nat>)
    ensures k.Some? ==> k.value < |rs| && rs[k.value].isBaseline
    ensures k.None? <==> forall j :: 0 <= j < |rs| ==> !rs[j].isBaseline
  {
    if rs == [] then None
    else if rs[0].isBaseline then Some(0)
    else match IndexOfBaseline(rs[1..])
      case None => None
      case Some(k) => Some(k + 1)
  }

  /** `updateMany({}, { isBaseline: false })`. */
  function Cleared(rs: seq<RouteRecord>): (r: seq<RouteRecord>)
    ensures |r| == |rs|
    ensures forall i :: 0 <= i < |rs| ==> r[i] == rs[i].(isBaseline := false)
  {
    seq(|rs|, i requires 0 <= i < |rs| => rs[i].(isBaseline := false))
  }

  /** `findOneAndUpdate({ routeId }, { isBaseline: true })`: the first route with that id. */
  function Flagged(rs: seq<RouteRecord>, routeId: string): (r: seq<RouteRecord>)
    ensures |r| == |rs|
    ensures forall i :: 0 <= i < |rs| ==> r[i].routeId == rs[i].routeId
    ensures forall i :: 0 <= i < |rs| && r[i] != rs[i] ==>
      IndexOfRoute(rs, routeId) == Some(i) && r[i] == rs[i].(isBaseline := true)
    ensures IndexOfRoute(rs, routeId).Some? ==> r[IndexOfRoute(rs, routeId).value].isBaseline
  {
    match IndexOfRoute(rs, routeId)
    case None => rs
    case Some(k) => rs[k := rs[k].(isBaseline := true)]
  }

  lemma FlaggedUnique(rs: seq<RouteRecord>, routeId: string)
    requires UniqueRouteIds(rs)
    ensures forall i :: 0 <= i < |rs| ==>
      Flagged(rs, routeId)[i] == if rs[i].routeId == routeId then rs[i].(isBaseline := true) else rs[i]
  {
  }

  class RouteRepository {
    var routes: seq<RouteRecord>

    ghost predicate Valid()
      reads this
    {
      UniqueRouteIds(routes)
    }

    constructor (initial: seq<RouteRecord>)
      requires UniqueRouteIds(initial)
      ensures Valid() && routes == initial
    {
      routes := initial;
    }

    /** The routes satisfying the query built from the filters, in store order. */
    function FindAll(filters: RouteFilters): (r: seq<RouteRecord>)
      reads this
      ensures forall k :: 0 <= k < |r| ==> r[k] in routes && Satisfies(r[k], BuildQuery(filters))
      ensures forall k :: 0 <= k < |routes| && Satisfies(routes[k], BuildQuery(filters)) ==> routes[k] in r
      ensures filters == NO_FILTERS ==> r == routes
    {
      var q := BuildQuery(filters);
      var p := (r: RouteRecord) => Satisfies(r, q);
      if filters == NO_FILTERS then
        FilterAll(routes, p);
        Filter(routes, p)
      else
        Filter(routes, p)
    }

    /** `find(query).skip((page - 1) * limit).limit(limit)`. */
    function FindPaginated(filters: RouteFilters, page: int, limit: int): (r: seq<RouteRecord>)
      requires page >= 1 && limit >= 1
      reads this
      ensures |r| <= limit
      ensures Offset(page, limit) >= |FindAll(filters)| ==> r == []
      ensures r == [] || Offset(page, limit) + |r| <= |FindAll(filters)|
      ensures |r| < limit ==> Offset(page, limit) + |r| >= |FindAll(filters)|
      ensures forall i :: 0 <= i < |r| ==> r[i] == FindAll(filters)[Offset(page, limit) + i]
    {
      var all := FindAll(filters);
      var skip := Offset(page, limit);
      if skip >= |all| then []
      else if |all| - skip < limit then all[skip..]
      else all[skip..skip + limit]
    }

    function CountAll(filters: RouteFilters): (n: nat)
      reads this
      ensures n == |FindAll(filters)|
      ensures n <= |routes|
    {
      |FindAll(filters)|
    }

    function FindByRouteId(routeId: string): (r: Option<RouteRecord>)
      reads this
      ensures r.Some? ==> r.value in routes && r.value.routeId == routeId
      ensures r.None? <==> forall j :: 0 <= j < |routes| ==> routes[j].routeId != routeId
    {
      match IndexOfRoute(routes, routeId)
      case None => None
      case Some(k) => Some(routes[k])
    }

    /** `findOne({ isBaseline: true })`: a flagged route, or none when no flag is set. */
    function FindBaseline(): (r: Option<RouteRecord>)
      reads this
      ensures r.Some? ==> r.value in routes && r.value.isBaseline
      ensures r.None? <==> forall j :: 0 <= j < |routes| ==> !routes[j].isBaseline
    {
      match IndexOfBaseline(routes)
      case None => None
      case Some(k) => Some(routes[k])
    }

    method SetBaseline(routeId: string)
      requires Valid()
      modifies this
      ensures Valid()
      ensures routes == Flagged(old(routes), routeId)
      ensures |routes| == |old(routes)|
      ensures forall i :: 0 <= i < |routes| ==>
        routes[i] == if old(routes[i]).routeId == routeId then old(routes[i]).(isBaseline := true) else old(routes[i])
    {
      FlaggedUnique(routes, routeId);
      routes := Flagged(routes, routeId);
    }

    method ClearAllBaselines()
      requires Valid()
      modifies this
      ensures Valid()
      ensures routes == Cleared(old(routes))
      ensures |routes| == |old(routes)|
      ensures forall i :: 0 <= i < |routes| ==> routes[i] == old(routes[i]).(isBaseline := false)
    {
      routes := Cleared(routes);
    }
  }

  /** The number of routes skipped before a page: `(page - 1) * limit`. */
  function Offset(page: int, limit: int): (n: nat)
    requires page >= 1 && limit >= 0
    ensures n == (page - 1) * limit
  {
    (page - 1) * limit
  }
}
