/**
 * The banking repository: an append-only ledger of bank entries. Deposits
 * (banked surplus) are positive, applications negative; the totals are
 * recomputed by aggregation on every query.
 */
module BankingStore {
  import opened Outcomes
  import opened SeqUtil

  datatype BankEntry = BankEntry(shipId: string, year: int, amountGco2eq: real)

  /**
   * The `$match` stage of getTotalBanked (deposits: amount > 0) and
   * getTotalApplied (amount < 0), narrowed to one ship when shipId is truthy.
   */
  predicate Selected(e: BankEntry, shipId: Option<string>, deposits: bool) {
    && (if deposits then e.amountGco2eq > 0.0 else e.amountGco2eq < 0.0)
    && (TextGiven(shipId) ==> e.shipId == shipId.value)
  }

  /** The `$group` stage: `$sum` of the selected amounts (0 when nothing matches). */
  function SumSelected(es: seq<BankEntry>, shipId: Option<string>, deposits: bool): (r: real)
    ensures deposits ==> r >= 0.0
    ensures !deposits ==> r <= 0.0
  {
    if es == [] then 0.0
    else
      var last := es[|es| - 1];
      SumSelected(es[..|es| - 1], shipId, deposits) + (if Selected(last, shipId, deposits) then last.amountGco2eq else 0.0)
  }

  lemma SumSelectedAppend(es: seq<BankEntry>, e: BankEntry, shipId: Option<string>, deposits: bool)
    ensures SumSelected(es + [e], shipId, deposits)
         == SumSelected(es, shipId, deposits) + (if Selected(e, shipId, deposits) then e.amountGco2eq else 0.0)
  {
    assert (es + [e])[..|es|] == es;
  }

  /** No matching entry: the aggregate is empty and the total is 0. */
  lemma {:induction false} NothingSelectedSumsToZero(es: seq<BankEntry>, shipId: Option<string>, deposits: bool)
    requires forall k :: 0 <= k < |es| ==> !Selected(es[k], shipId, deposits)
    ensures SumSelected(es, shipId, deposits) == 0.0
  {
    if es != [] {
      NothingSelectedSumsToZero(es[..|es| - 1], shipId, deposits);
    }
  }

  /** An entry of amount 0 counts toward neither total. */
  lemma ZeroEntryCountsForNothing(es: seq<BankEntry>, e: BankEntry, shipId: Option<string>, deposits: bool)
    requires e.amountGco2eq == 0.0
    ensures SumSelected(es + [e], shipId, deposits) == SumSelected(es, shipId, deposits)
  {
    SumSelectedAppend(es, e, shipId, deposits);
  }

  /** A falsy ship filter ("") is no filter at all. */
  lemma {:induction false} EmptyShipFilterIsGlobal(es: seq<BankEntry>, deposits: bool)
    ensures SumSelected(es, Some(""), deposits) == SumSelected(es, None, deposits)
  {
    if es != [] {
      EmptyShipFilterIsGlobal(es[..|es| - 1], deposits);
    }
  }

  /** Banked minus applied: the deposits plus the (negative) applications, of one ship when shipId is truthy. */
  function Available(es: seq<BankEntry>, shipId: Option<string>): (r: real)
    ensures SumSelected(es, shipId, false) <= r <= SumSelected(es, shipId, true)
  {
    SumSelected(es, shipId, true) + SumSelected(es, shipId, false)
  }

  /** Appending an entry moves the balance by its amount when the ship filter lets it through, else not at all. */
  lemma AppendShiftsAvailable(es: seq<BankEntry>, e: BankEntry, shipId: Option<string>)
    ensures Available(es + [e], shipId)
         == Available(es, shipId) + (if TextGiven(shipId) ==> e.shipId == shipId.value then e.amountGco2eq else 0.0)
  {
    SumSelectedAppend(es, e, shipId, true);
    SumSelectedAppend(es, e, shipId, false);
  }

  predicate DistinctShips(ships: seq<string>) {
    forall i, j :: 0 <= i < j < |ships| ==> ships[i] != ships[j]
  }

  /** The per-ship totals of the listed ships, added up. */
  function SumOverShips(es: seq<BankEntry>, ships: seq<string>, deposits: bool): real {
    if ships == [] then 0.0
    else SumSelected(es, Some(ships[0]), deposits) + SumOverShips(es, ships[1..], deposits)
  }

  /** What one entry adds to the per-ship totals of the listed ships. */
  function ShareOverShips(e: BankEntry, ships: seq<string>, deposits: bool): real {
    if ships == [] then 0.0
    else (if Selected(e, Some(ships[0]), deposits) then e.amountGco2eq else 0.0)
         + ShareOverShips(e, ships[1..], deposits)
  }

  lemma {:induction false} SumOverShipsAppend(es: seq<BankEntry>, e: BankEntry, ships: seq<string>, deposits: bool)
    ensures SumOverShips(es + [e], ships, deposits)
         == SumOverShips(es, ships, deposits) + ShareOverShips(e, ships, deposits)
  {
    if ships != [] {
      SumSelectedAppend(es, e, Some(ships[0]), deposits);
      SumOverShipsAppend(es, e, ships[1..], deposits);
    }
  }

  /** An entry is counted once, under its own ship, when its ship is listed once. */
  lemma {:induction false} ShareCountedOnce(e: BankEntry, ships: seq<string>, deposits: bool)
    requires DistinctShips(ships)
    requires forall i :: 0 <= i < |ships| ==> ships[i] != ""
    ensures ShareOverShips(e, ships, deposits)
         == if e.shipId in ships && Selected(e, None, deposits) then e.amountGco2eq else 0.0
  {
    if ships != [] {
      ShareCountedOnce(e, ships[1..], deposits);
      if e.shipId == ships[0] {
        assert e.shipId !in ships[1..];
      }
    }
  }

  /**
   * Per-ship totals over a duplicate-free list of ships that covers every entry
   * add up to the global total, for deposits and for applications alike.
   */
  lemma {:induction false} PerShipTotalsAddUp(es: seq<BankEntry>, ships: seq<string>, deposits: bool)
    requires DistinctShips(ships)
    requires forall i :: 0 <= i < |ships| ==> ships[i] != ""
    requires forall k :: 0 <= k < |es| ==> es[k].shipId in ships
    ensures SumOverShips(es, ships, deposits) == SumSelected(es, None, deposits)
  {
    if es == [] {
      AllShipsEmpty(ships, deposits);
    } else {
      var init, last := es[..|es| - 1], es[|es| - 1];
      assert es == init + [last];
      PerShipTotalsAddUp(init, ships, deposits);
      SumOverShipsAppend(init, last, ships, deposits);
      ShareCountedOnce(last, ships, deposits);
      SumSelectedAppend(init, last, None, deposits);
    }
  }

  lemma {:induction false} AllShipsEmpty(ships: seq<string>, deposits: bool)
    ensures SumOverShips([], ships, deposits) == 0.0
  {
    if ships != [] {
      AllShipsEmpty(ships[1..], deposits);
    }
  }

  /** A `findAll` filter on the ledger: shipId and year are applied only when truthy. */
  predicate EntryMatches(e: BankEntry, shipId: Option<string>, year: Option<int>) {
    (TextGiven(shipId) ==> e.shipId == shipId.value) && (NumberGiven(year) ==> e.year == year.value)
  }

  class BankingRepository {
    var entries: seq<BankEntry>

    constructor ()
      ensures entries == []
    {
      entries := [];
    }

    /** `BankEntryModel.create(entry)`: one entry appended, the others untouched. */
    method Save(e: BankEntry)
      modifies this
      ensures entries == old(entries) + [e]
    {
      entries := entries + [e];
    }

    /** Sum of the positive amounts, of one ship when shipId is truthy. */
    function TotalBanked(shipId: Option<string>): (t: real)
      reads this
      ensures t >= 0.0
      ensures t == SumSelected(entries, shipId, true)
      ensures (forall k :: 0 <= k < |entries| ==> !Selected(entries[k], shipId, true)) ==> t == 0.0
    {
      if forall k :: 0 <= k < |entries| ==> !Selected(entries[k], shipId, true) then
        NothingSelectedSumsToZero(entries, shipId, true);
        0.0
      else
        SumSelected(entries, shipId, true)
    }

    /** `Math.abs` of the sum of the negative amounts, of one ship when shipId is truthy. */
    function TotalApplied(shipId: Option<string>): (t: real)
      reads this
      ensures t >= 0.0
      ensures t == -SumSelected(entries, shipId, false)
      ensures (forall k :: 0 <= k < |entries| ==> !Selected(entries[k], shipId, false)) ==> t == 0.0
    {
      if forall k :: 0 <= k < |entries| ==> !Selected(entries[k], shipId, false) then
        NothingSelectedSumsToZero(entries, shipId, false);
        0.0
      else
        Abs(SumSelected(entries, shipId, false))
    }

    /** The shared pool that ApplyBanked draws on: every ship's entries. */
    function GlobalAvailable(): (a: real)
      reads this
      ensures a == Available(entries, None)
    {
      TotalBanked(None) - TotalApplied(None)
    }

    /** One ship's own balance, which GetAdjustedCB reports. */
    function ShipAvailable(shipId: string): (a: real)
      reads this
      ensures a == Available(entries, Some(shipId))
      ensures shipId == "" ==> a == GlobalAvailable()
    {
      EmptyShipFilterIsGlobal(entries, true);
      EmptyShipFilterIsGlobal(entries, false);
      TotalBanked(Some(shipId)) - TotalApplied(Some(shipId))
    }

    /** The entries matching the truthy filters, in ledger order. */
    function FindAll(shipId: Option<string>, year: Option<int>): (r: seq<BankEntry>)
      reads this
      ensures forall k :: 0 <= k < |r| ==> r[k] in entries && EntryMatches(r[k], shipId, year)
      ensures forall k :: 0 <= k < |entries| && EntryMatches(entries[k], shipId, year) ==> entries[k] in r
    {
      Filter(entries, (e: BankEntry) => EntryMatches(e, shipId, year))
    }
  }
}
