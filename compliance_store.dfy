/**
 * The compliance repository: ship-year records under a unique (shipId, year) index.
 * The records are kept in store order, the order findAll returns them in.
 */
module ComplianceStore {
  import opened Outcomes
  import opened SeqUtil
  import opened ShipComplianceEntity

  predicate UniqueKeys(rs: seq<ShipCompliance>) {
    forall i, j :: 0 <= i < j < |rs| ==> rs[i].Key() != rs[j].Key()
  }

  /** Position of the first record with the given key. */
  function IndexOfKey(rs: seq<ShipCompliance>, key: (string, int)): (k: Option<nat>)
    ensures k.Some? ==> k.value < |rs| && rs[k.value].Key() == key
                        && forall j :: 0 <= j < k.value ==> rs[j].Key() != key
    ensures k.None? ==> forall j :: 0 <= j < |rs| ==> rs[j].Key() != key
  {
    if rs == [] then None
    else if rs[0].Key() == key then Some(0)
    else match IndexOfKey(rs[1..], key)
      case None => None
      case Some(k) => Some(k + 1)
  }

  /** The first position holding the key is the one IndexOfKey reports. */
  lemma IndexOfKeyIs(rs: seq<ShipCompliance>, key: (string, int), i: nat)
    requires i < |rs| && rs[i].Key() == key
    requires forall j :: 0 <= j < i ==> rs[j].Key() != key
    ensures IndexOfKey(rs, key) == Some(i)
  {
    var k := IndexOfKey(rs, key);
    assert k.Some?;
    assert !(k.value < i) && !(i < k.value);
  }

  /** `findOne({ shipId, year })`. */
  function Lookup(rs: seq<ShipCompliance>, key: (string, int)): (r: Option<ShipCompliance>)
    ensures r.Some? ==> r.value in rs && r.value.Key() == key
    ensures r.None? <==> forall j :: 0 <= j < |rs| ==> rs[j].Key() != key
  {
    match IndexOfKey(rs, key)
    case None => None
    case Some(k) => Some(rs[k])
  }

  /** `findOneAndUpdate({ shipId, year }, record, { upsert: true })`. */
  function Upsert(rs: seq<ShipCompliance>, rec: ShipCompliance): (r: seq<ShipCompliance>)
    ensures rec in r
    ensures |r| == |rs| || |r| == |rs| + 1
    ensures |r| == |rs| + 1 <==> forall j :: 0 <= j < |rs| ==> rs[j].Key() != rec.Key()
    ensures forall j :: 0 <= j < |rs| ==> r[j].Key() == rs[j].Key()
    ensures forall j :: 0 <= j < |rs| && r[j] != rs[j] ==>
      r[j] == rec && forall i :: 0 <= i < j ==> rs[i].Key() != rec.Key()
  {
    match IndexOfKey(rs, rec.Key())
    case Some(k) => var r := rs[k := rec]; assert r[k] == rec; r
    case None => rs + [rec]
  }

  /** After an upsert the key finds the saved record, every other key finds what it found before. */
  lemma UpsertLookup(rs: seq<ShipCompliance>, rec: ShipCompliance, key: (string, int))
    ensures Lookup(Upsert(rs, rec), key) == if key == rec.Key() then Some(rec) else Lookup(rs, key)
  {
    var up := Upsert(rs, rec);
    match IndexOfKey(rs, rec.Key())
    case Some(k) =>
      if key == rec.Key() {
        IndexOfKeyIs(up, key, k);
      } else {
        assert forall j :: 0 <= j < |up| ==> (up[j].Key() == key <==> rs[j].Key() == key);
        match IndexOfKey(rs, key)
        case None =>
        case Some(i) =>
          IndexOfKeyIs(up, key, i);
      }
    case None =>
      if key == rec.Key() {
        IndexOfKeyIs(up, key, |rs|);
      } else {
        match IndexOfKey(rs, key)
        case None =>
          assert IndexOfKey(up, key) == None;
        case Some(i) =>
          IndexOfKeyIs(up, key, i);
      }
  }

  /** At most one record per (shipId, year) survives any upsert. */
  lemma UpsertKeepsKeysUnique(rs: seq<ShipCompliance>, rec: ShipCompliance)
    requires UniqueKeys(rs)
    ensures UniqueKeys(Upsert(rs, rec))
    ensures |Upsert(rs, rec)| == |rs| + (if Lookup(rs, rec.Key()).None? then 1 else 0)
  {
  }

  /** A `findAll` filter: year and shipId are applied only when truthy. */
  predicate RecordMatches(c: ShipCompliance, year: Option<int>, shipId: Option<string>) {
    (NumberGiven(year) ==> c.year == year.value) && (TextGiven(shipId) ==> c.shipId == shipId.value)
  }

  class ComplianceRepository {
    var records: seq<ShipCompliance>

    ghost predicate Valid()
      reads this
    {
      UniqueKeys(records)
    }

    constructor ()
      ensures Valid() && records == []
    {
      records := [];
    }

    function FindByShipAndYear(shipId: string, year: int): (r: Option<ShipCompliance>)
      reads this
      ensures r.Some? ==> r.value in records && r.value.shipId == shipId && r.value.year == year
      ensures r.None? <==> forall j :: 0 <= j < |records| ==> records[j].Key() != (shipId, year)
    {
      Lookup(records, (shipId, year))
    }

    method Save(rec: ShipCompliance)
      requires Valid()
      modifies this
      ensures Valid()
      ensures records == Upsert(old(records), rec)
      ensures FindByShipAndYear(rec.shipId, rec.year) == Some(rec)
      ensures forall s, y :: (s, y) != rec.Key() ==>
                FindByShipAndYear(s, y) == old(FindByShipAndYear(s, y))
    {
      UpsertKeepsKeysUnique(records, rec);
      UpsertLookup(records, rec, rec.Key());
      forall s, y | (s, y) != rec.Key()
        ensures Lookup(Upsert(old(records), rec), (s, y)) == Lookup(old(records), (s, y))
      {
        UpsertLookup(old(records), rec, (s, y));
      }
      records := Upsert(records, rec);
    }

    /** Exactly the records matching the truthy filters, in store order. */
    function FindAll(year: Option<int>, shipId: Option<string>): (r: seq<ShipCompliance>)
      reads this
      ensures forall k :: 0 <= k < |r| ==> r[k] in records && RecordMatches(r[k], year, shipId)
      ensures forall k :: 0 <= k < |records| && RecordMatches(records[k], year, shipId) ==> records[k] in r
    {
      Filter(records, (c: ShipCompliance) => RecordMatches(c, year, shipId))
    }
  }
}
