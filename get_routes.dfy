/**
 * GetRoutes: the routes matching the filters, either all at once or one page
 * at a time with the page count `Math.ceil(total / limit)`.
 */
module GetRoutes {
  import opened RouteEntity
  import opened RouteStore

  datatype Pagination = Pagination(page: int, limit: int, total: nat, totalPages: nat)
  datatype Page = Page(data: seq<RouteRecord>, pagination: Pagination)

  /** The repository's answer, passed through unchanged. */
  function Execute(store: RouteRepository, filters: RouteFilters): (r: seq<RouteRecord>)
    reads store
    ensures r == store.FindAll(filters)
  {
    store.FindAll(filters)
  }

  /** `Math.ceil(total / limit)`: the fewest pages of `limit` routes that hold `total` routes. */
  function TotalPages(total: nat, limit: int): (n: nat)
    requires limit >= 1
    ensures total == 0 ==> n == 0
    ensures total > 0 ==> (n - 1) * limit < total <= n * limit
  {
    if total % limit == 0 then total / limit else total / limit + 1
  }

  /** The controller calls the paginated form only with a positive page and limit. */
  function ExecutePaginated(store: RouteRepository, filters: RouteFilters, page: int, limit: int): (r: Page)
    requires page >= 1 && limit >= 1
    reads store
    ensures r.data == store.FindPaginated(filters, page, limit)
    ensures r.pagination.page == page && r.pagination.limit == limit
    ensures r.pagination.total == |store.FindAll(filters)|
    ensures r.pagination.totalPages == TotalPages(|store.FindAll(filters)|, limit)
  {
    var total := store.CountAll(filters);
    Page(store.FindPaginated(filters, page, limit), Pagination(page, limit, total, TotalPages(total, limit)))
  }

  /** Pages 1 to totalPages each hold at least one route; every later page is empty. */
  lemma PagesUpToTotalAreNonEmpty(store: RouteRepository, filters: RouteFilters, page: int, limit: int)
    requires page >= 1 && limit >= 1
    ensures var p := ExecutePaginated(store, filters, page, limit);
      p.data != [] <==> page <= p.pagination.totalPages
  {
    PageStartsWithin(page, limit, |store.FindAll(filters)|);
  }

  /** A page starts before the end of the listing exactly when it is one of the first totalPages. */
  lemma PageStartsWithin(page: int, limit: int, total: nat)
    requires page >= 1 && limit >= 1
    ensures Offset(page, limit) < total <==> page <= TotalPages(total, limit)
  {
    var n := TotalPages(total, limit);
    if page <= n {
      MulMonotone(page - 1, n - 1, limit);
    } else {
      MulMonotone(n, page - 1, limit);
    }
  }

  /** The k-th route of the full listing is the (k mod limit)-th of page k / limit + 1. */
  lemma RouteOnItsPage(store: RouteRepository, filters: RouteFilters, limit: int, k: nat)
    requires limit >= 1 && k < |store.FindAll(filters)|
    ensures var page := k / limit + 1;
      && 1 <= page <= TotalPages(|store.FindAll(filters)|, limit)
      && k % limit < |store.FindPaginated(filters, page, limit)|
      && store.FindPaginated(filters, page, limit)[k % limit] == store.FindAll(filters)[k]
  {
    PageOf(k, limit, |store.FindAll(filters)|);
  }

  /** Page arithmetic: position k lies on page k / limit + 1, at offset k mod limit. */
  lemma PageOf(k: nat, limit: int, total: nat)
    requires limit >= 1 && k < total
    ensures 1 <= k / limit + 1 <= TotalPages(total, limit)
    ensures Offset(k / limit + 1, limit) + k % limit == k
  {
    var q := k / limit;
    assert q * limit + k % limit == k;
    assert Offset(q + 1, limit) == q * limit;
    PageStartsWithin(q + 1, limit, total);
  }

  lemma MulMonotone(a: int, b: int, c: int)
    requires a <= b && c >= 0
    ensures a * c <= b * c
  {
    assert b * c - a * c == (b - a) * c;
  }
}
