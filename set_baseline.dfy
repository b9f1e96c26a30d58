/**
 * SetBaseline: makes one route the baseline for comparisons by first clearing
 * every route's flag and then setting the named route's.
 */
module SetBaseline {
  import opened Outcomes
  import opened RouteEntity
  import opened RouteStore

  datatype BaselineSet = BaselineSet(routeId: string, isBaseline: bool)

  /** The store after `clearAllBaselines()` then `setBaseline(routeId)`. */
  function Rebaselined(rs: seq<RouteRecord>, routeId: string): (r: seq<RouteRecord>)
    ensures |r| == |rs|
    ensures forall i :: 0 <= i < |rs| ==> r[i].routeId == rs[i].routeId
    ensures forall i :: 0 <= i < |r| && r[i].isBaseline ==> IndexOfRoute(rs, routeId) == Some(i)
    ensures IndexOfRoute(rs, routeId).Some? ==> r[IndexOfRoute(rs, routeId).value].isBaseline
  {
    IndexOfRouteSameIds(Cleared(rs), rs, routeId);
    Flagged(Cleared(rs), routeId)
  }

  lemma ClearedKeepsIds(rs: seq<RouteRecord>)
    requires UniqueRouteIds(rs)
    ensures UniqueRouteIds(Cleared(rs))
    ensures forall i :: 0 <= i < |rs| ==> Cleared(rs)[i].routeId == rs[i].routeId
  {
  }

  /** Each route is flagged exactly when it is the named one; nothing but the flags changes. */
  lemma RebaselinedAt(rs: seq<RouteRecord>, routeId: string)
    requires UniqueRouteIds(rs)
    ensures |Rebaselined(rs, routeId)| == |rs|
    ensures forall i :: 0 <= i < |rs| ==> Rebaselined(rs, routeId)[i] == rs[i].(isBaseline := rs[i].routeId == routeId)
  {
    ClearedKeepsIds(rs);
    FlaggedUnique(Cleared(rs), routeId);
  }

  /**
   * When the route exists, exactly one route is the baseline afterwards, it is
   * the named one, and findBaseline returns it.
   */
  lemma ExactlyOneBaseline(rs: seq<RouteRecord>, routeId: string)
    requires UniqueRouteIds(rs) && IndexOfRoute(rs, routeId).Some?
    ensures var after := Rebaselined(rs, routeId);
      && (forall i :: 0 <= i < |after| ==> (after[i].isBaseline <==> rs[i].routeId == routeId))
      && (forall i, j :: 0 <= i < |after| && 0 <= j < |after| && after[i].isBaseline && after[j].isBaseline ==> i == j)
      && IndexOfBaseline(after) == IndexOfRoute(rs, routeId)
  {
    RebaselinedAt(rs, routeId);
    var after := Rebaselined(rs, routeId);
    var k := IndexOfRoute(rs, routeId).value;
    var b := IndexOfBaseline(after);
    assert after[k].isBaseline;
    assert b.Some? && !(b.value < k) && !(k < b.value);
  }

  /** Setting the same baseline twice leaves the state one call leaves. */
  lemma Idempotent(rs: seq<RouteRecord>, routeId: string)
    requires UniqueRouteIds(rs)
    ensures Rebaselined(Rebaselined(rs, routeId), routeId) == Rebaselined(rs, routeId)
  {
    var once := Rebaselined(rs, routeId);
    RebaselinedAt(rs, routeId);
    assert UniqueRouteIds(once) by {
      forall i, j | 0 <= i < j < |once| ensures once[i].routeId != once[j].routeId {
        assert once[i].routeId == rs[i].routeId && once[j].routeId == rs[j].routeId;
      }
    }
    RebaselinedAt(once, routeId);
  }

  method Execute(store: RouteRepository, routeId: string) returns (r: Result<BaselineSet>)
    requires store.Valid()
    modifies store
    ensures store.Valid()
    ensures IndexOfRoute(old(store.routes), routeId).None? ==>
      r == Err(RouteNotFound(routeId)) && store.routes == old(store.routes)
    ensures IndexOfRoute(old(store.routes), routeId).Some? ==>
      && r == Ok(BaselineSet(routeId, true))
      && store.routes == Rebaselined(old(store.routes), routeId)
      && store.FindBaseline().Some? && store.FindBaseline().value.routeId == routeId
  {
    var route := store.FindByRouteId(routeId);
    if route.None? {
      return Err(RouteNotFound(routeId));
    }
    ExactlyOneBaseline(store.routes, routeId);
    store.ClearAllBaselines();
    store.SetBaseline(routeId);
    r := Ok(BaselineSet(routeId, true));
  }
}
