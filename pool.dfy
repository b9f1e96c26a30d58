/** A pool: the members' balances before and after one allocation. */
module PoolEntity {
  import opened SeqUtil

  datatype PoolMember = PoolMember(shipId: string, cbBefore: real, cbAfter: real)

  function CbBefores(ms: seq<PoolMember>): (r: seq<real>)
    ensures |r| == |ms| && forall i :: 0 <= i < |ms| ==> r[i] == ms[i].cbBefore
  {
    if ms == [] then [] else [ms[0].cbBefore] + CbBefores(ms[1..])
  }

  function CbAfters(ms: seq<PoolMember>): (r: seq<real>)
    ensures |r| == |ms| && forall i :: 0 <= i < |ms| ==> r[i] == ms[i].cbAfter
  {
    if ms == [] then [] else [ms[0].cbAfter] + CbAfters(ms[1..])
  }

  datatype Pool = Pool(year: int, members: seq<PoolMember>)
  {
    /** `members.reduce((sum, m) => sum + m.cbBefore, 0)`. */
    function SumCbBefore(): real {
      Sum(CbBefores(members))
    }

    predicate IsValid() {
      SumCbBefore() >= 0.0
    }
  }

  lemma EmptyPoolSumsToZero(year: int)
    ensures Pool(year, []).SumCbBefore() == 0.0
  {
  }

  /** The before-sum looks only at cbBefore: changing any cbAfter leaves it (and IsValid) alone. */
  lemma {:induction false} SumIgnoresCbAfter(p: Pool, q: Pool)
    requires |p.members| == |q.members|
    requires forall i :: 0 <= i < |p.members| ==> p.members[i].cbBefore == q.members[i].cbBefore
    ensures p.SumCbBefore() == q.SumCbBefore()
    ensures p.IsValid() <==> q.IsValid()
  {
    assert CbBefores(p.members) == CbBefores(q.members);
  }
}
