/** The pool repository: every saved pool, in save order. */
module PoolStore {
  import opened PoolEntity

  class PoolRepository {
    var pools: seq<Pool>

    constructor ()
      ensures pools == []
    {
      pools := [];
    }

    /** `PoolModel.create(pool)`; the returned id is the pool's position in the store. */
    method Save(p: Pool) returns (id: nat)
      modifies this
      ensures pools == old(pools) + [p]
      ensures id == |old(pools)| && pools[id] == p
    {
      id := |pools|;
      pools := pools + [p];
    }
  }
}
