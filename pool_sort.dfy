/**
 * `members.sort((a, b) => b.cbBefore - a.cbBefore)`: a stable sort into
 * descending cbBefore order (members with equal balances keep their order).
 */
module PoolSort {
  import opened SeqUtil
  import opened PoolEntity

  predicate SortedDesc(ms: seq<PoolMember>) {
    forall i, j :: 0 <= i < j < |ms| ==> ms[i].cbBefore >= ms[j].cbBefore
  }

  /** Puts `x` in front of the first member whose balance does not exceed its own. */
  function Insert(x: PoolMember, t: seq<PoolMember>): (r: seq<PoolMember>)
    ensures |r| == |t| + 1
    ensures multiset(r) == multiset(t) + multiset{x}
    ensures r[0] == if t == [] || t[0].cbBefore <= x.cbBefore then x else t[0]
  {
    if t == [] || t[0].cbBefore <= x.cbBefore then [x] + t
    else
      assert t == [t[0]] + t[1..];
      [t[0]] + Insert(x, t[1..])
  }

  function SortDesc(ms: seq<PoolMember>): (r: seq<PoolMember>)
    ensures |r| == |ms|
    ensures multiset(r) == multiset(ms)
    ensures SortedDesc(r)
  {
    if ms == [] then []
    else
      assert ms == [ms[0]] + ms[1..];
      InsertKeepsSorted(ms[0], SortDesc(ms[1..]));
      Insert(ms[0], SortDesc(ms[1..]))
  }

  /** Inserting into a sorted sequence keeps it sorted. */
  lemma {:induction false} InsertKeepsSorted(x: PoolMember, t: seq<PoolMember>)
    requires SortedDesc(t)
    ensures SortedDesc(Insert(x, t))
  {
    if t != [] && t[0].cbBefore > x.cbBefore {
      TailSorted(t);
      InsertKeepsSorted(x, t[1..]);
      HeadBoundsInsert(x, t);
      ConsSorted(t[0], Insert(x, t[1..]));
    }
  }

  lemma TailSorted(t: seq<PoolMember>)
    requires SortedDesc(t) && t != []
    ensures SortedDesc(t[1..])
    ensures forall j :: 0 <= j < |t[1..]| ==> t[0].cbBefore >= t[1..][j].cbBefore
  {
  }

  /** A head above x that bounds the tail also bounds the tail with x inserted. */
  lemma HeadBoundsInsert(x: PoolMember, t: seq<PoolMember>)
    requires SortedDesc(t) && t != [] && t[0].cbBefore > x.cbBefore
    ensures forall j :: 0 <= j < |Insert(x, t[1..])| ==> t[0].cbBefore >= Insert(x, t[1..])[j].cbBefore
  {
    TailSorted(t);
    var rest := Insert(x, t[1..]);
    forall j | 0 <= j < |rest| ensures t[0].cbBefore >= rest[j].cbBefore {
      assert rest[j] in multiset(t[1..]) + multiset{x};
    }
  }

  lemma ConsSorted(m: PoolMember, rest: seq<PoolMember>)
    requires SortedDesc(rest)
    requires forall j :: 0 <= j < |rest| ==> m.cbBefore >= rest[j].cbBefore
    ensures SortedDesc([m] + rest)
  {
    var r := [m] + rest;
    forall i, j | 0 <= i < j < |r| ensures r[i].cbBefore >= r[j].cbBefore {
      assert r[j] == rest[j - 1];
      if i > 0 {
        assert r[i] == rest[i - 1];
      }
    }
  }

  /** The members whose balance is exactly `v`, in order. */
  function TiedWith(ms: seq<PoolMember>, v: real): seq<PoolMember> {
    if ms == [] then []
    else (if ms[0].cbBefore == v then [ms[0]] else []) + TiedWith(ms[1..], v)
  }

  lemma TiedWithPrepend(x: PoolMember, ms: seq<PoolMember>, v: real)
    ensures TiedWith([x] + ms, v) == (if x.cbBefore == v then [x] else []) + TiedWith(ms, v)
  {
    assert ([x] + ms)[1..] == ms;
  }

  lemma {:induction false} InsertIsStable(x: PoolMember, t: seq<PoolMember>, v: real)
    ensures TiedWith(Insert(x, t), v) == TiedWith([x] + t, v)
  {
    if t != [] && t[0].cbBefore > x.cbBefore {
      var rest := Insert(x, t[1..]);
      var pt := if t[0].cbBefore == v then [t[0]] else [];
      var px := if x.cbBefore == v then [x] else [];
      calc {
        TiedWith(Insert(x, t), v);
        { TiedWithPrepend(t[0], rest, v); }
        pt + TiedWith(rest, v);
        { InsertIsStable(x, t[1..], v); TiedWithPrepend(x, t[1..], v); }
        pt + (px + TiedWith(t[1..], v));
        { assert pt == [] || px == []; }
        px + (pt + TiedWith(t[1..], v));
        { assert t == [t[0]] + t[1..]; TiedWithPrepend(t[0], t[1..], v); }
        px + TiedWith(t, v);
        { TiedWithPrepend(x, t, v); }
        TiedWith([x] + t, v);
      }
    }
  }

  /** The sort is stable: among members with the same balance the input order survives. */
  lemma {:induction false} SortIsStable(ms: seq<PoolMember>, v: real)
    ensures TiedWith(SortDesc(ms), v) == TiedWith(ms, v)
  {
    if ms != [] {
      SortIsStable(ms[1..], v);
      InsertIsStable(ms[0], SortDesc(ms[1..]), v);
      TiedWithPrepend(ms[0], SortDesc(ms[1..]), v);
      assert ms == [ms[0]] + ms[1..];
      TiedWithPrepend(ms[0], ms[1..], v);
    }
  }

  /** Sorting does not change the pool's total balance. */
  lemma {:induction false} SortKeepsSum(ms: seq<PoolMember>)
    ensures Sum(CbBefores(SortDesc(ms))) == Sum(CbBefores(ms))
  {
    if ms != [] {
      SortKeepsSum(ms[1..]);
      InsertAddsToSum(ms[0], SortDesc(ms[1..]));
      assert CbBefores(ms) == [ms[0].cbBefore] + CbBefores(ms[1..]);
    }
  }

  lemma {:induction false} InsertAddsToSum(x: PoolMember, t: seq<PoolMember>)
    ensures Sum(CbBefores(Insert(x, t))) == x.cbBefore + Sum(CbBefores(t))
  {
    if t == [] || t[0].cbBefore <= x.cbBefore {
      assert CbBefores([x] + t)[1..] == CbBefores(t);
    } else {
      var rest := Insert(x, t[1..]);
      InsertAddsToSum(x, t[1..]);
      assert CbBefores([t[0]] + rest)[1..] == CbBefores(rest);
      assert CbBefores(t)[1..] == CbBefores(t[1..]);
    }
  }

  function ShipIds(ms: seq<PoolMember>): (r: seq<string>)
    ensures |r| == |ms| && forall k :: 0 <= k < |ms| ==> r[k] == ms[k].shipId
  {
    if ms == [] then [] else [ms[0].shipId] + ShipIds(ms[1..])
  }

  /** Sorting reorders the members' ship ids and does nothing else to them. */
  lemma {:induction false} SortKeepsShipIds(ms: seq<PoolMember>)
    ensures multiset(ShipIds(SortDesc(ms))) == multiset(ShipIds(ms))
  {
    if ms != [] {
      SortKeepsShipIds(ms[1..]);
      InsertAddsShipId(ms[0], SortDesc(ms[1..]));
      var ids := ShipIds(ms);
      assert ids[1..] == ShipIds(ms[1..]);
      MultisetCons(ids);
    }
  }

  lemma {:induction false} InsertAddsShipId(x: PoolMember, t: seq<PoolMember>)
    ensures multiset(ShipIds(Insert(x, t))) == multiset{x.shipId} + multiset(ShipIds(t))
  {
    if t == [] || t[0].cbBefore <= x.cbBefore {
      var ids := ShipIds([x] + t);
      assert ids[1..] == ShipIds(t);
      MultisetCons(ids);
    } else {
      var rest := Insert(x, t[1..]);
      InsertAddsShipId(x, t[1..]);
      var ids, tids := ShipIds([t[0]] + rest), ShipIds(t);
      assert ids[1..] == ShipIds(rest);
      assert tids[1..] == ShipIds(t[1..]);
      MultisetCons(ids);
      MultisetCons(tids);
    }
  }

  lemma MultisetCons(s: seq<string>)
    requires s != []
    ensures multiset(s) == multiset{s[0]} + multiset(s[1..])
  {
    assert s == [s[0]] + s[1..];
  }
}
