# FuelEU Maritime compliance-balance engine, in Dafny

This project models the backend engine of a FuelEU Maritime compliance service (Regulation (EU) 2023/1805, simplified by the service). The engine covers:

- **Compliance arithmetic.** One flat target intensity of 89.3368 gCO2e/MJ, 2 % below the 91.16 reference. The compliance balance (CB) is `(target − ghg) × fuel × 41000`. It also computes the percent difference against a baseline route and a boundary-inclusive compliance test.
- **Use cases.** Computing and storing each ship's CB from its routes (ComputeCB). Comparing routes with a baseline (ComputeComparison, SetBaseline). Listing routes, with pagination (GetRoutes). Banking a surplus (BankSurplus). Applying banked surplus to a deficit (ApplyBanked). Reporting the CB adjusted by a ship's own bank balance (GetAdjustedCB). Pooling ships under the greedy allocation of Article 21 (CreatePool).
- **Stores.** The three in-memory stores these use cases read and write: routes, the compliance records keyed by (shipId, year), and the bank ledger.

How it is modelled:

- **Amounts.** Amounts are exact `real`s. `Math.round(x * 100) / 100` is `ComplianceMath.Round2`, which is `floor(x · 100 + ½) / 100` (JavaScript rounds halves up).
- **Errors.** Every `throw` of a use case is an `Outcomes.Error` constructor inside a `Result`.
- **Truthiness.** JavaScript truthiness of optional inputs is `TextGiven` and `NumberGiven`. An absent value, `""` and `0` are falsy.
- **Stores.** Each repository is a class with one collection field that its methods reassign:
  - `RouteStore.RouteRepository.routes` and `BankingStore.BankingRepository.entries` are sequences in store order.
  - `ComplianceStore.ComplianceRepository.records` is a sequence kept free of duplicate (shipId, year) keys. `Upsert` replaces a record in place or appends a new one, and `Lookup` is `findOne`.
  - The compliance store is a sequence rather than a map because GetAdjustedCB's all-ships branch returns the records in store order.
- **Use cases.** Each use case is a method, or a function when it only reads. It takes its repositories as parameters. Its contract is stated against functions of the stores' contents.
  - Rejections are given by a `Rejection` function returning the first failing check, in the order the code checks. Each `Execute` ends in `Err` exactly when that function returns an error.
- **Loops.** The source's loops keep their shape:
  - the fetch loop, the nested greedy transfer loops and the exit check of CreatePool;
  - the all-ships loop of GetAdjustedCB;
  - the save loop of ComputeCB.

  The greedy allocation (`Allocation.Allocate`) runs over the members' cbAfter values in sorted order. Its specification (`IsGreedyAllocation`) is proved to determine the result uniquely.
- **Sorting.** `members.sort((a, b) => b.cbBefore - a.cbBefore)` is a stable insertion sort (`PoolSort.SortDesc`). It is proved sorted, a permutation, stable among ties, and sum-preserving.

Two behaviours of the source are stated as lemmas rather than hidden:

- CreatePool checks the sum of cbBefore before rounding. For balances that are whole hundredths, as ComputeCB stores them, the saved pool satisfies `Pool.isValid` (`CreatePool.CentPoolIsValid`). For finer balances it need not (`CreatePool.RoundedPoolMayBeInvalid`).
- ComputeCB sets the stored `isSurplus` flag from the CB before rounding. A CB of 0.0041 is stored as 0 with the flag set (`ComputeCB.TinySurplusStoredAsZero`).

## Model

| member | source | states |
|---|---|---|
| ComplianceMath.TargetIntensity | backend/src/core/domain/ComplianceConstants.js:20-23 | the target is 89.3368 whatever the year |
| ComplianceMath.TargetIgnoresYear | backend/src/core/domain/ComplianceConstants.js:20-23 | any two years get the same target |
| ComplianceMath.TargetIsTwoPercentBelowReference | backend/src/core/domain/ComplianceConstants.js:4-13 | TARGET_INTENSITY_2025 = REFERENCE_INTENSITY × 0.98 exactly |
| ComplianceMath.ComplianceBalance | backend/src/core/domain/ComplianceConstants.js:30-34 | for fuel > 0: CB > 0 iff ghg < target, CB < 0 iff ghg > target; CB = 0 when ghg = target or fuel = 0 |
| ComplianceMath.ProductSign | backend/src/core/domain/ComplianceConstants.js:33 | a product with a positive factor has the sign of the other factor |
| ComplianceMath.BalanceLinearInFuel | backend/src/core/domain/ComplianceConstants.js:30-34 | CB(g, k·f, y) = k · CB(g, f, y) |
| ComplianceMath.PercentDiff | backend/src/core/domain/ComplianceConstants.js:40-43 | 0 for a zero baseline and for equal intensities; for a positive baseline the result has the sign of comparison − baseline |
| ComplianceMath.QuotientAgainstOne | backend/src/core/domain/ComplianceConstants.js:42 | c / b compares with 1 as c compares with b, for b > 0 |
| ComplianceMath.IsCompliant | backend/src/core/domain/ComplianceConstants.js:48-50 | compliant iff ghg ≤ 89.3368, boundary included |
| ComplianceMath.CompliantIffBalanceNonNegative | backend/src/core/domain/ComplianceConstants.js:30-50 | for fuel > 0, compliant iff CB ≥ 0 |
| ComplianceMath.Round2 | backend/src/core/application/CreatePool.js:80-81 | `Math.round(x*100)/100` lies in (x − 0.005, x + 0.005] |
| ComplianceMath.RoundCentsIsIdentity | backend/src/core/application/CreatePool.js:80 | rounding a whole number of hundredths gives it back |
| ComplianceMath.RoundMonotone | backend/src/core/application/CreatePool.js:80 | rounding is monotone |
| ComplianceMath.RoundKeepsSign | backend/src/core/application/ComputeComparison.js:30 | rounding keeps a non-negative value non-negative, a non-positive one non-positive and 0 at 0 |
| ComplianceMath.RoundIsCents | backend/src/core/application/ComputeCB.js:29 | the rounded value is a whole number of hundredths |
| FrontendComplianceMath.TargetIntensity | frontend/src/core/domain/ComplianceConstants.js:11-13 | agrees with the backend target for every year |
| FrontendComplianceMath.PercentDiff | frontend/src/core/domain/ComplianceConstants.js:15-18 | 0 for a zero baseline; agrees with the backend function on all inputs |
| FrontendComplianceMath.IsCompliant | frontend/src/core/domain/ComplianceConstants.js:20-22 | boundary-inclusive; agrees with the backend function on all inputs |
| FrontendComplianceMath.ConstantsAgree | frontend/src/core/domain/ComplianceConstants.js:5-9 | the three frontend constants equal the backend's |
| ShipComplianceEntity.SurplusDeficitExclusive | backend/src/core/domain/ShipCompliance.js:14-20 | no record is both surplus and deficit; a CB of exactly 0 is neither |
| PoolEntity.CbBefores | backend/src/core/domain/Pool.js:13 | the members' cbBefore values, position by position |
| PoolEntity.CbAfters | backend/src/core/application/CreatePool.js:97 | the members' cbAfter values, position by position |
| PoolEntity.EmptyPoolSumsToZero | backend/src/core/domain/Pool.js:12-14 | the empty pool's sumCbBefore is 0 |
| PoolEntity.SumIgnoresCbAfter | backend/src/core/domain/Pool.js:12-18 | pools with the same cbBefore values have the same sum and validity, whatever their cbAfter values |
| RouteEntity.Route.constructor | backend/src/core/domain/Route.js:6-16 | every field is stored as given; isBaseline defaults to false |
| RouteEntity.Route.EnergyInScope | backend/src/core/domain/Route.js:19-21 | fuelConsumption × 41 000 MJ/t, the same factor the CB uses; positive for positive fuel; for every intensity the CB is the gap to the target times it |
| RouteEntity.Route.SetAsBaseline | backend/src/core/domain/Route.js:23-25 | isBaseline becomes true, every other field is unchanged |
| RouteEntity.Route.UnsetBaseline | backend/src/core/domain/Route.js:27-29 | isBaseline becomes false, every other field is unchanged |
| RouteEntity.NewRouteIsNotBaseline | backend/src/core/domain/Route.js:6 | a route built without the flag is not the baseline |
| RouteStore.BuildQuery | backend/src/adapters/outbound/mongodb/MongoRouteRepository.js:8-14 | a query field is present iff the filter is truthy, and it then carries the filter's value |
| RouteStore.MatchesFilters | backend/src/adapters/outbound/mongodb/MongoRouteRepository.js:8-18 | a route satisfies the built query iff it equals every truthy filter; no filters match every route |
| RouteStore.RouteRepository.FindAll | backend/src/adapters/outbound/mongodb/MongoRouteRepository.js:16-18 | every route returned is stored and satisfies the query, and every stored route that satisfies it is returned; with no filters, the whole store |
| RouteStore.RouteRepository.FindPaginated | backend/src/adapters/outbound/mongodb/MongoRouteRepository.js:20-24 | at most limit routes, the i-th being findAll's route at (page − 1)·limit + i, never past the end; empty past the end, and a page shorter than limit reaches the end |
| RouteStore.RouteRepository.CountAll | backend/src/adapters/outbound/mongodb/MongoRouteRepository.js:26-28 | the length of findAll, at most the store size |
| RouteStore.RouteRepository.FindByRouteId | backend/src/adapters/outbound/mongodb/MongoRouteRepository.js:30-32 | a stored route with that id, or none iff no route has it |
| RouteStore.RouteRepository.FindBaseline | backend/src/adapters/outbound/mongodb/MongoRouteRepository.js:34-36 | a stored route whose flag is set, or none iff no flag is set |
| RouteStore.RouteRepository.SetBaseline | backend/src/adapters/outbound/mongodb/MongoRouteRepository.js:38-44 | the route with the id gets its flag set; every other route is unchanged |
| RouteStore.RouteRepository.ClearAllBaselines | backend/src/adapters/outbound/mongodb/MongoRouteRepository.js:46-48 | every flag is cleared, nothing else changes |
| RouteStore.IndexOfRoute | backend/src/adapters/outbound/mongodb/MongoRouteRepository.js:30-32 | the first position holding the id, or none iff no position does |
| RouteStore.IndexOfBaseline | backend/src/adapters/outbound/mongodb/MongoRouteRepository.js:34-36 | a flagged position, or none iff no route is flagged |
| RouteStore.Cleared | backend/src/adapters/outbound/mongodb/MongoRouteRepository.js:46-48 | each route with its flag false, all else kept |
| RouteStore.Flagged | backend/src/adapters/outbound/mongodb/MongoRouteRepository.js:38-44 | same length and ids position by position; only the first route with the id may change, and only by setting its flag; that route ends flagged |
| RouteStore.FlaggedUnique | backend/src/adapters/outbound/mongodb/MongoRouteRepository.js:38-44 | with unique ids, exactly the route with that id is flagged, the rest are kept |
| RouteStore.Offset | backend/src/adapters/outbound/mongodb/MongoRouteRepository.js:22 | skip = (page − 1)·limit, never negative |
| ComplianceStore.IndexOfKey | backend/src/adapters/outbound/mongodb/MongoComplianceRepository.js:8-10 | the first position holding the key, or none iff no position does |
| ComplianceStore.IndexOfKeyIs | backend/src/adapters/outbound/mongodb/MongoComplianceRepository.js:8-10 | the first position with the key is the one IndexOfKey reports |
| ComplianceStore.Lookup | backend/src/adapters/outbound/mongodb/MongoComplianceRepository.js:8-10 | a stored record with the key, or none iff no record has it |
| ComplianceStore.Upsert | backend/src/adapters/outbound/mongodb/MongoComplianceRepository.js:12-18 | the record is stored; the store grows by one iff its key is new; every position keeps its key, and a changed position is the first with that key and now holds the record |
| ComplianceStore.UpsertLookup | backend/src/adapters/outbound/mongodb/MongoComplianceRepository.js:12-18 | after an upsert the key finds the saved record and every other key finds what it found before |
| ComplianceStore.UpsertKeepsKeysUnique | backend/src/adapters/outbound/mongodb/MongoComplianceRepository.js:12-18 | an upsert keeps one record per key; the store grows by one only for a new key |
| ComplianceStore.ComplianceRepository.FindByShipAndYear | backend/src/adapters/outbound/mongodb/MongoComplianceRepository.js:8-10 | the stored record with that ship and year, or none iff there is none |
| ComplianceStore.ComplianceRepository.Save | backend/src/adapters/outbound/mongodb/MongoComplianceRepository.js:12-18 | upsert: the saved record is found under its key, every other key is unchanged, keys stay unique |
| ComplianceStore.ComplianceRepository.FindAll | backend/src/adapters/outbound/mongodb/MongoComplianceRepository.js:20-25 | every record returned is stored and matches the truthy year and shipId filters, and every stored record that matches is returned |
| BankingStore.SumSelectedAppend | backend/src/adapters/outbound/mongodb/MongoBankingRepository.js:27-45 | an appended entry moves a total by its amount iff the filter selects it |
| BankingStore.SumSelected | backend/src/adapters/outbound/mongodb/MongoBankingRepository.js:27-45 | the deposit total (amounts > 0) is never negative and the application total (amounts < 0) never positive, whatever the ship filter |
| BankingStore.Available | backend/src/adapters/outbound/mongodb/MongoBankingRepository.js:27-45 | banked − applied lies between the application total and the deposit total: never more than was banked |
| BankingStore.NothingSelectedSumsToZero | backend/src/adapters/outbound/mongodb/MongoBankingRepository.js:27-45 | with no matching entry, the total is 0 |
| BankingStore.ZeroEntryCountsForNothing | backend/src/adapters/outbound/mongodb/MongoBankingRepository.js:28-38 | an entry of amount 0 changes neither total |
| BankingStore.EmptyShipFilterIsGlobal | backend/src/adapters/outbound/mongodb/MongoBankingRepository.js:29-39 | a shipId of "" is no filter: the totals are the global ones |
| BankingStore.AppendShiftsAvailable | backend/src/adapters/outbound/mongodb/MongoBankingRepository.js:23-45 | banked − applied moves by an appended entry's amount exactly when the ship filter lets it through |
| BankingStore.SumOverShipsAppend | backend/src/adapters/outbound/mongodb/MongoBankingRepository.js:27-45 | the per-ship totals over a list of ships move by the appended entry's share |
| BankingStore.ShareCountedOnce | backend/src/adapters/outbound/mongodb/MongoBankingRepository.js:27-45 | over distinct non-empty ships, an entry is counted once, under its own ship |
| BankingStore.PerShipTotalsAddUp | backend/src/adapters/outbound/mongodb/MongoBankingRepository.js:27-45 | per-ship totals over distinct ships covering every entry add up to the global total |
| BankingStore.AllShipsEmpty | backend/src/adapters/outbound/mongodb/MongoBankingRepository.js:27-45 | on an empty ledger every per-ship total is 0 |
| SeqUtil.Abs | backend/src/adapters/outbound/mongodb/MongoBankingRepository.js:44 | `Math.abs`: never negative, and either the value or its negation |
| SeqUtil.Min | backend/src/core/application/CreatePool.js:59 | `Math.min`: at most each argument, and equal to one of them |
| SeqUtil.SumAppend | backend/src/core/application/CreatePool.js:38 | the `reduce` from 0 is a left fold: appending x to the summed values adds x |
| BankingStore.BankingRepository.Save | backend/src/adapters/outbound/mongodb/MongoBankingRepository.js:23-25 | one entry appended, the earlier entries unchanged |
| BankingStore.BankingRepository.TotalBanked | backend/src/adapters/outbound/mongodb/MongoBankingRepository.js:27-35 | the sum of the positive amounts (of one ship when shipId is truthy), ≥ 0, and 0 when nothing matches |
| BankingStore.BankingRepository.TotalApplied | backend/src/adapters/outbound/mongodb/MongoBankingRepository.js:37-45 | the magnitude of the sum of the negative amounts, ≥ 0, and 0 when nothing matches |
| BankingStore.BankingRepository.GlobalAvailable | backend/src/core/application/ApplyBanked.js:22-24 | banked − applied over every ship's entries |
| BankingStore.BankingRepository.ShipAvailable | backend/src/core/application/GetAdjustedCB.js:18-20 | banked − applied over one ship's entries; for shipId "" the global balance |
| BankingStore.BankingRepository.FindAll | backend/src/adapters/outbound/mongodb/MongoBankingRepository.js:8-13 | exactly the entries matching the truthy shipId and year filters |
| SeqUtil.Filter | backend/src/core/application/CreatePool.js:48-49 | `filter`: the elements satisfying the predicate, and no others; for one element, it alone or nothing |
| SeqUtil.FilterAppend | backend/src/core/application/CreatePool.js:48-49 | filtering a concatenation is the concatenation of the filtered parts, so order and multiplicity are kept |
| SeqUtil.FilterAll | backend/src/core/application/CreatePool.js:48-49 | filtering where every element passes gives the sequence back |
| Allocation.Positions | backend/src/core/application/CreatePool.js:48-49 | the positions of the surplus (or deficit) members, each once and in increasing order |
| Allocation.Allocate | backend/src/core/application/CreatePool.js:52-64 | the total is conserved; surplus ends in [0, before], deficits in [before, 0], zero balances unchanged; surpluses are drawn in order; deficits end at 0 when the total is ≥ 0; an all-surplus pool is unchanged |
| Allocation.Settle | backend/src/core/application/CreatePool.js:53-63 | the inner loop settles one deficit from the surpluses in order, conserving the total and touching no other deficit; the deficit ends at 0 when the total is ≥ 0 |
| Allocation.Exhausted | backend/src/core/application/CreatePool.js:55-63 | a deficit still open with every surplus drained makes the total negative |
| Allocation.TransferStep | backend/src/core/application/CreatePool.js:56-62 | one transfer of min(surplus.cbAfter, remaining) keeps the total, the bounds and the drain order, and lowers remaining to no less than 0 |
| Allocation.TransferDrains | backend/src/core/application/CreatePool.js:59-62 | when some deficit remains after a transfer, that surplus is drained |
| Allocation.TransferKeepsOthers | backend/src/core/application/CreatePool.js:60-61 | a transfer touches no member but the two involved |
| Allocation.EarlierSurplusDrained | backend/src/core/application/CreatePool.js:55-57 | a surplus is reached only after every earlier surplus is drained |
| Allocation.Moved | backend/src/core/application/CreatePool.js:60-61 | the surplus loses the transfer, the deficit gains it, the others are unchanged |
| Allocation.TransferSum | backend/src/core/application/CreatePool.js:60-61 | a transfer leaves the total of cbAfter unchanged |
| Allocation.TransferBounds | backend/src/core/application/CreatePool.js:59-61 | a transfer no larger than the surplus and the deficit keeps every member within bounds |
| Allocation.TransferOrder | backend/src/core/application/CreatePool.js:55-61 | drawing on the first undrained surplus keeps the drain order |
| Allocation.GreedyAllocationIsUnique | backend/src/core/application/CreatePool.js:52-64 | any two allocations meeting the greedy specification for the same balances are equal |
| Allocation.FirstDifference | backend/src/core/application/CreatePool.js:52-64 | the first position where two different allocations differ |
| Allocation.NoSmallerFirstDifference | backend/src/core/application/CreatePool.js:52-64 | where two greedy allocations first differ, neither is above the other |
| Allocation.AllSurplusUnchanged | backend/src/core/application/CreatePool.js:52-64 | with no deficit member, every cbAfter equals cbBefore |
| Allocation.TwoMemberExample | backend/src/core/application/CreatePool.js:52-64 | +1000 and −500 allocate to exactly 500 and 0 |
| Allocation.ThreeMemberExample | backend/src/core/application/CreatePool.js:52-64 | +300, −100, −150 allocate to exactly 50, 0, 0 |
| PoolSort.Insert | backend/src/core/application/CreatePool.js:45 | the insertion adds x to the multiset, one longer, with x first iff it is at least the head |
| PoolSort.SortDesc | backend/src/core/application/CreatePool.js:45 | the sort is a permutation of its input, in descending cbBefore order |
| PoolSort.InsertKeepsSorted | backend/src/core/application/CreatePool.js:45 | inserting into a sorted sequence keeps it sorted |
| PoolSort.HeadBoundsInsert | backend/src/core/application/CreatePool.js:45 | a head above x bounds the tail after x is inserted into it |
| PoolSort.InsertIsStable | backend/src/core/application/CreatePool.js:45 | insertion keeps the input order among equal balances |
| PoolSort.SortIsStable | backend/src/core/application/CreatePool.js:45 | the members with any given balance keep their input order |
| PoolSort.SortKeepsSum | backend/src/core/application/CreatePool.js:38-45 | sorting does not change the total of cbBefore |
| PoolSort.InsertAddsToSum | backend/src/core/application/CreatePool.js:45 | insertion adds x's balance to the total |
| PoolSort.ShipIds | backend/src/core/application/CreatePool.js:31 | the members' ship ids, position by position |
| PoolSort.SortKeepsShipIds | backend/src/core/application/CreatePool.js:45 | sorting permutes the ship ids |
| PoolSort.InsertAddsShipId | backend/src/core/application/CreatePool.js:45 | insertion adds x's ship id to the multiset of ids |
| CreatePool.Fetch | backend/src/core/application/CreatePool.js:24-35 | succeeds iff every id has a record for the year, giving one member per id with cbBefore = cbAfter = its CB; otherwise NoComplianceRecord |
| CreatePool.FetchFailsAtFirstMissing | backend/src/core/application/CreatePool.js:25-29 | the error names the first id without a record |
| CreatePool.FetchMembers | backend/src/core/application/CreatePool.js:24-35 | the fetch loop builds what Fetch describes |
| CreatePool.Rejection | backend/src/core/application/CreatePool.js:19-41 | accepted iff there are ≥ 2 ids, all found, with a sum of cbBefore ≥ 0; fewer than 2 ids (or none) gives TooFewMembers, then the first missing record's error, then NegativePoolSum |
| CreatePool.Settled | backend/src/core/application/CreatePool.js:60-61 | the sorted members with their allocated cbAfter; ids and cbBefore kept |
| CreatePool.ExitViolation | backend/src/core/application/CreatePool.js:67-76 | no violation iff the member is neither a deficit exiting worse nor a surplus exiting negative |
| CreatePool.KeptPassesExitCheck | backend/src/core/application/CreatePool.js:67-76 | a member within bounds passes both exit checks |
| CreatePool.CheckExits | backend/src/core/application/CreatePool.js:67-76 | no error iff every member passes; otherwise the error of the first member that fails |
| CreatePool.Rounded | backend/src/core/application/CreatePool.js:79-82 | one rounded member per member, ids and order kept |
| CreatePool.RoundedAt | backend/src/core/application/CreatePool.js:79-82 | each member has both balances rounded to cents |
| CreatePool.RoundAll | backend/src/core/application/CreatePool.js:79-82 | the forEach loop rounds every member as Rounded describes |
| CreatePool.AllocateMembers | backend/src/core/application/CreatePool.js:45-76 | with a total ≥ 0, sorting and greedy allocation meet the greedy specification and the exit checks never fire |
| CreatePool.CreateFrom | backend/src/core/application/CreatePool.js:45-98 | the accepted path saves exactly one pool of the rounded, allocated members and reports the rounded totals |
| CreatePool.Execute | backend/src/core/application/CreatePool.js:18-98 | an error iff Rejection gives one, with nothing saved; otherwise one pool saved, whose members are the sorted, greedily allocated, rounded members with the same ids as requested, plus the rounded totals |
| CreatePool.RoundedBefores | backend/src/core/application/CreatePool.js:79-82 | after settling and rounding, each cbBefore is its original rounded to cents |
| CreatePool.RoundingKeepsCents | backend/src/core/application/CreatePool.js:79-82 | balances in whole hundredths are unchanged by the rounding |
| CreatePool.CentPoolIsValid | backend/src/core/domain/Pool.js:16-18 | for balances in whole hundredths, every pool CreatePool saves satisfies isValid |
| CreatePool.SavedKeepsBeforeSum | backend/src/core/application/CreatePool.js:38-82 | for balances in whole hundredths, the saved pool's total of cbBefore is the checked total |
| CreatePool.SortKeepsCents | backend/src/core/application/CreatePool.js:45 | sorting keeps every balance a whole number of hundredths |
| CreatePool.RoundedPoolMayBeInvalid | backend/src/core/application/CreatePool.js:38-82 | balances 0.004, 0.004, −0.006 pass the sum check but the saved pool fails isValid |
| CreatePool.ExampleInputSum | backend/src/core/application/CreatePool.js:38 | those balances sum to 0.002 |
| CreatePool.ExampleStaysSorted | backend/src/core/application/CreatePool.js:45 | those members are already in sorted order |
| CreatePool.ExampleRoundsBelowZero | backend/src/core/application/CreatePool.js:79-82 | once rounded, their cbBefore values sum to −0.01 |
| ApplyBanked.Credited | backend/src/core/application/ApplyBanked.js:40-47 | the record with amount added to its CB, key and other fields kept |
| ApplyBanked.Rejection | backend/src/core/application/ApplyBanked.js:12-28 | accepted iff amount > 0, the record exists and amount ≤ the global banked − applied; otherwise the first failing check's error |
| ApplyBanked.AmountCheckedFirst | backend/src/core/application/ApplyBanked.js:12-14 | a non-positive amount is refused whatever either store holds |
| ApplyBanked.ApplicationDrawsDown | backend/src/core/application/ApplyBanked.js:22-38 | the entry lowers the global balance and the ship's own by exactly amount, never below 0 globally, and leaves other ships' balances alone |
| ApplyBanked.SharedPoolLeavesShipBalanceNegative | backend/src/core/application/ApplyBanked.js:21-28 | ship B may apply surplus banked by ship A, leaving B's own balance at −50 |
| ApplyBanked.Execute | backend/src/core/application/ApplyBanked.js:11-56 | an error iff Rejection gives one, with nothing written; otherwise one −amount entry appended, the record's CB raised by amount, no other record changed, the global balance down by amount, and the receipt |
| ApplyBanked.Record | backend/src/core/application/ApplyBanked.js:38-47 | the two writes: the entry appended, the updated record upserted, nothing else changed |
| BankSurplus.Rejection | backend/src/core/application/BankSurplus.js:12-19 | accepted iff the record exists with CB > 0; otherwise NoComplianceRecord or NonPositiveBalance |
| BankSurplus.DepositRaisesBanked | backend/src/core/application/BankSurplus.js:21-28 | a deposit raises the global banked total by its amount and leaves the applied total alone |
| BankSurplus.NoGuardAgainstDoubleBanking | backend/src/core/application/BankSurplus.js:21-28 | an accepted ship-year banked twice adds its CB twice |
| BankSurplus.Execute | backend/src/core/application/BankSurplus.js:11-36 | an error iff Rejection gives one, with nothing written; otherwise one +cb entry appended (cb > 0), banked total up by cb, applied unchanged, bankedAmount = cb; the compliance store is not written |
| GetAdjustedCB.Adjusted | backend/src/core/application/GetAdjustedCB.js:18-29 | bankedAvailable is the ship's own banked − applied; adjustedCB = originalCB + bankedAvailable; isSurplus iff adjustedCB > 0 |
| GetAdjustedCB.OtherShipsEntryIgnored | backend/src/core/application/GetAdjustedCB.js:18-20 | another ship's entry leaves the report unchanged |
| GetAdjustedCB.OwnEntryCounted | backend/src/core/application/GetAdjustedCB.js:18-27 | the ship's own entry moves adjustedCB by exactly its amount |
| GetAdjustedCB.Execute | backend/src/core/application/GetAdjustedCB.js:11-50 | with a truthy shipId, NoComplianceRecord or the one report; otherwise one report per record of the year, in store order; nothing is written |
| GetAdjustedCB.ShipReport | backend/src/core/application/GetAdjustedCB.js:12-29 | NoComplianceRecord when the record is missing, else the ship's report |
| GetAdjustedCB.FleetReport | backend/src/core/application/GetAdjustedCB.js:33-49 | one report per record of the year, each the record's own, in store order |
| GetAdjustedCB.Report | backend/src/core/application/GetAdjustedCB.js:36-47 | the loop body computes Adjusted for one record |
| ComputeCB.ComplianceOf | backend/src/core/application/ComputeCB.js:22-32 | shipId = routeId; the stored CB is within half a cent of the CB and in whole hundredths; the flag is CB > 0 before rounding, i.e. ghg < target for fuel > 0 |
| ComputeCB.SurplusFlagConsistency | backend/src/core/application/ComputeCB.js:29-31 | a rounded surplus is flagged, a rounded deficit is not, and a flagged record never holds a negative CB |
| ComputeCB.TinySurplusStoredAsZero | backend/src/core/application/ComputeCB.js:29-31 | a CB of 0.0041 is stored as 0 with the surplus flag set |
| ComputeCB.Computed | backend/src/core/application/ComputeCB.js:22-32 | one record per route |
| ComputeCB.ComputedAt | backend/src/core/application/ComputeCB.js:22-32 | the k-th record is the k-th route's |
| ComputeCB.FindShip | backend/src/core/application/ComputeCB.js:36 | the first record with that shipId, or none iff none has it |
| ComputeCB.LastWithKey | backend/src/core/application/ComputeCB.js:45-47 | the last record of the batch with the key, or none iff none has it |
| ComputeCB.SaveAllLookup | backend/src/core/application/ComputeCB.js:40-47 | after saving a batch, a key finds the batch's last record with it, overwriting what was stored; other keys are unchanged |
| ComputeCB.SaveAll | backend/src/core/application/ComputeCB.js:45-47 | the store grows by at most the batch size, the stored positions keep their keys, and the batch's last record is stored |
| ComputeCB.SaveAllKeepsKeysUnique | backend/src/core/application/ComputeCB.js:45-47 | saving a batch keeps one record per key |
| ComputeCB.Execute | backend/src/core/application/ComputeCB.js:13-49 | NoRoutesForYear when no route has the year; with a truthy shipId the matching record saved and returned, or ShipNotFoundForYear with nothing saved; otherwise every record saved and returned in route order |
| ComputeCB.SaveEach | backend/src/core/application/ComputeCB.js:45-47 | the save loop upserts each record in turn |
| ComputeComparison.CompareTo | backend/src/core/application/ComputeComparison.js:21-34 | the route's fields echoed; percentDiff a whole number of cents within half a cent of PercentDiff, 0 for a zero baseline or equal intensities, with the sign of the difference; compliant iff ghg ≤ target; the target |
| ComputeComparison.BaselineOf | backend/src/core/application/ComputeComparison.js:37-45 | the baseline's fields echoed with its own target and compliance |
| ComputeComparison.Others | backend/src/core/application/ComputeComparison.js:19-20 | exactly the routes whose id differs from the baseline's; for one route, it alone or nothing |
| ComputeComparison.OthersAppend | backend/src/core/application/ComputeComparison.js:19-20 | filtering a concatenation is the concatenation of the filtered parts, so the routes keep their order and multiplicity |
| ComputeComparison.OthersCount | backend/src/core/application/ComputeComparison.js:19-20 | with unique ids, one route fewer when the baseline id is stored, none fewer otherwise |
| ComputeComparison.OnlyBaselineGivesNone | backend/src/core/application/ComputeComparison.js:19-20 | a store holding only the baseline gives no comparisons |
| ComputeComparison.Comparisons | backend/src/core/application/ComputeComparison.js:21-34 | one comparison per remaining route |
| ComputeComparison.ComparisonsAt | backend/src/core/application/ComputeComparison.js:21-34 | the k-th comparison is the k-th remaining route's |
| ComputeComparison.Execute | backend/src/core/application/ComputeComparison.js:12-48 | NoBaseline iff no route is flagged; otherwise the baseline view and the comparisons of the routes other than the baseline |
| ComputeComparison.ComparisonsExcludeBaseline | backend/src/core/application/ComputeComparison.js:19-20 | no comparison is of the baseline itself |
| ComputeComparison.ComparisonCount | backend/src/core/application/ComputeComparison.js:18-21 | there is one comparison fewer than there are routes |
| SetBaseline.Rebaselined | backend/src/core/application/SetBaseline.js:16-17 | for any store, even with duplicate ids: same length and ids, at most one route flagged, only the first with the named id, and it is flagged when it exists |
| SetBaseline.ClearedKeepsIds | backend/src/core/application/SetBaseline.js:16 | clearing keeps every id, so ids stay unique |
| SetBaseline.RebaselinedAt | backend/src/core/application/SetBaseline.js:16-17 | each route ends flagged iff it is the named one; nothing but the flags changes |
| SetBaseline.ExactlyOneBaseline | backend/src/core/application/SetBaseline.js:16-17 | for a stored id, exactly one route is flagged afterwards, the named one, and findBaseline finds it |
| SetBaseline.Idempotent | backend/src/core/application/SetBaseline.js:16-18 | two calls with the same id leave the state one call leaves |
| SetBaseline.Execute | backend/src/core/application/SetBaseline.js:10-19 | RouteNotFound with no flag changed for an unknown id; otherwise clear-then-set, and findBaseline returns the named route |
| GetRoutes.Execute | backend/src/core/application/GetRoutes.js:10-12 | the repository's answer, unchanged |
| GetRoutes.TotalPages | backend/src/core/application/GetRoutes.js:25 | 0 for no routes; otherwise the least n with total ≤ n·limit |
| GetRoutes.ExecutePaginated | backend/src/core/application/GetRoutes.js:14-27 | the page of findPaginated, with page, limit and total echoed and totalPages = ceil(total / limit) |
| GetRoutes.PagesUpToTotalAreNonEmpty | backend/src/core/application/GetRoutes.js:14-27 | a page is non-empty iff it is at most totalPages |
| GetRoutes.PageStartsWithin | backend/src/core/application/GetRoutes.js:25 | a page starts before the end iff it is at most totalPages |
| GetRoutes.RouteOnItsPage | backend/src/core/application/GetRoutes.js:14-27 | the k-th route is at offset k mod limit of page k / limit + 1, which is at most totalPages |
| GetRoutes.PageOf | backend/src/core/application/GetRoutes.js:25 | position k lies on page k / limit + 1, at offset k mod limit |
| PoolStore.PoolRepository.Save | backend/src/adapters/outbound/mongodb/MongoPoolRepository.js:8-10 | the pool appended; the id is its position in the store |

## Left out

- Floating point: amounts are exact reals, so IEEE-754 rounding of products and sums (for example `91.16 * 0.98` being only close to 89.3368) is not modelled.
- Time: `createdAt` and `new Date()` values, and the `createdAt` sort of the ledger's `findAll`, are not modelled.
- BankingStore.BankingRepository.FindAll: its contract states which entries are returned, not their order (the source sorts by `createdAt`, which is not modelled).
- RouteStore.RouteRepository.FindAll and ComplianceStore.ComplianceRepository.FindAll: the contracts state membership in both directions, not order. The definitions are order-preserving filters, and the use cases built on them are stated against those definitions.
- Error messages: each error is named by its cause (and the ship, route or year involved). The message text and `toLocaleString` formatting are not modelled.
- Concurrency: each `await` is a sequential step. Interleaved requests and check-then-act races between them are not modelled.
- Store ids: the pool id `saved._id || saved.id` is the pool's position in the pool store, since Mongo ids are generated outside the code.
- `parseInt(year)`: the year is taken as an already parsed integer.
- Persistence: Mongo schema validation, connection handling and seeding are not modelled. The unique (shipId, year) index and unique routeId appear as the stores' invariants (`Valid()`).
- Pagination guard: the HTTP controllers are not modelled. Their only guard that matters here, a positive page and limit, is the precondition of `GetRoutes.ExecutePaginated` and `RouteStore.RouteRepository.FindPaginated`.
- Object model: each use case is a method or function that takes its repositories, not a class holding them, since those objects hold no state of their own.
- Use cases that only read are functions or methods with no `modifies`, so the store is unchanged by construction:
  - ComputeComparison.Execute;
  - GetAdjustedCB.Execute;
  - the read-only store queries.
- Domain objects: the plain `ShipCompliance`, `BankEntry` and `Pool` objects are datatypes. Their constructors store every field by construction.
- The `isSurplus` and `isDeficit` getters and `Pool.isValid` are predicates on those datatypes, and the `sumCbBefore` getter is the function `PoolEntity.Pool.SumCbBefore`. Their properties are the lemmas `PoolEntity.EmptyPoolSumsToZero`, `PoolEntity.SumIgnoresCbAfter` and `CreatePool.CentPoolIsValid`.
- Unmodelled repository methods: `findByShipAndYear` and `findByShip` of the banking repository, and `findByYear` and `findAll` of the pool repository, are not part of this model. No modelled use case calls them.
- User interface: the React UI and the HTTP API client are not part of this model.
