# Fleet emissions-compliance engine, modelled in Dafny

This project models the compliance engine of a maritime-emissions dashboard. It covers five operations.

- **GHG intensity of a journey.** Grams of CO2 per unit of transport work: kilograms × 1000 / (distance × cargo capacity). A journey with zero distance has intensity 0.
- **Fleet compliance** (`calculate_fleet_compliance`). The engine:
  - computes a GHG intensity for every journey;
  - groups the journeys by ship id, and for each vessel takes the mean intensity, the summed emissions and distance, and the first ship type;
  - takes the fleet mean over the journeys, not over the vessels, and lowers it by the target reduction (5 % by default) to get the target;
  - classifies each vessel as `Surplus` when it is strictly below the target and `Deficit` otherwise;
  - prices the gap at 100 per tonne: (intensity − target) × distance / 10^6 × 100.
- **Pooling simulation** (`simulate_pooling`). Two vessels are looked up by id, first match wins. Their distance-weighted mean intensity is compared with the first vessel's target. A pool at or under the target costs nothing. One above it pays for the excess over the combined distance. The savings are the two vessels' own impacts minus the pool's cost.
- **Pool search** (`identify_optimal_pools`):
  - simulates every (deficit, surplus) pair in table order;
  - keeps the pairs with positive savings;
  - sorts them stably by savings, highest first;
  - returns the first `max_pools` (10 by default) with Python slice semantics.
- **Compliance report** (`generate_compliance_report`):
  - the vessel counts and the summed financial impact;
  - the five lowest-intensity and five highest-intensity vessels (`nsmallest` / `nlargest`, which keep the first rows among equals);
  - the pools found with the default limit.

Modelling choices:

- **Numbers.** Values are exact `real`s.
- **Missing results.**
  - An empty journey table yields `None` for the fleet mean and the target, where pandas gives NaN.
  - A missing ship id yields `Err(VesselNotFound(id))`, where pandas raises `IndexError` from `.iloc[0]`. The first id is checked first.
  - A zero combined distance yields `Err(ZeroCombinedDistance)`. Python computes NaN there, or ±inf when non-zero distances cancel and the intensities differ. The pool search skips that pair. The `savings > 0` filter skips it in Python too, since the savings are then NaN or negative.
- **Vessel order.** Vessel rows come out in strictly ascending ship-id order, as `groupby` sorts them. Ids are ordered by code point (`ShipIds.Less`).
- **Form of each part.**
  - The calculations are pure functions over sequences.
  - The pool search is a method with the two nested loops of the source, proved equal to a specification function (`OptimalPools`).
  - The list sort is a method proved equal to a stable insertion sort (`SortDesc`).

Modules, in dependency order:

- `Wrappers` holds Option and Result.
- `ShipIds` orders the ids.
- `StableSort` is the stable descending sort.
- `Journeys` holds the journey rows, the intensity formula and sums.
- `Fleet` is the fleet calculation.
- `Pooling` is the pool simulation.
- `PoolSearch` is the pair enumeration and ranking.
- `ComplianceReport` is the report.

Four behaviours of the code are worth stating outright:

- **Pool order.** Pools come out in non-increasing order of savings. Pools with equal savings keep their enumeration order, because `list.sort(reverse=True)` is stable. The order is therefore not strictly decreasing (`PoolSearch.OptimalPoolsOrder`, `PoolSearch.RankedStable`).
- **Single vessel.** A one-vessel fleet sits exactly at the fleet mean. For non-negative emissions and distances, it is `Deficit` at every non-negative reduction, 0 included, because the test is `difference < 0` (`Fleet.SingleVesselIsDeficit`).
- **Two deficits.** A difference of exactly 0 is `Deficit`, and the pool test is `<=`. So two deficit rows can pool successfully, but only when the pool sits exactly on the target (`Pooling.TwoDeficitsPoolOnlyAtTarget`). Two rows at 6000 against a 6000 target, over 100 each, are such a pair: the pool succeeds with zero savings (`Pooling.TwoDeficitsAtTargetExample`).
- **Fleet mean.** The fleet mean is the mean over journeys, not over vessels. The worked example `Fleet.FleetMeanIsJourneyMean` shows a fleet whose vessel means average 2500 while the fleet mean is 2000.

## Model

| member | source | states |
|---|---|---|
| Journeys.GhgIntensity | backend/compliance_engine.py:68-91 | a zero distance gives 0; otherwise the intensity times distance × capacity equals the kilograms of CO2 × 1000 (the division is exact) |
| Journeys.JourneyIntensity | backend/compliance_engine.py:106-109 | the per-journey intensity column: `GhgIntensity` of the journey's CO2 and distance at the default capacity 1; its properties are those of `Journeys.GhgIntensity` |
| Journeys.IntensityNonNegative | backend/compliance_engine.py:86-91 | non-negative emissions and distance with a positive capacity give a non-negative intensity |
| Journeys.OfShip | backend/compliance_engine.py:112 | one `groupby` group: every row of the group carries the id, and every journey of the table with that id is in the group |
| Journeys.OfShipNonEmpty | backend/compliance_engine.py:112 | every ship id present in the table has at least one journey in its group |
| Journeys.FirstIndex | backend/compliance_engine.py:116 | the index of the first journey of a ship id, whose ship type `'first'` takes |
| Journeys.SumNonNegative | backend/compliance_engine.py:114-115 | a column sum of non-negative values is non-negative |
| Journeys.Sum | backend/compliance_engine.py:114-115 | a column sum over a sequence of journeys; `Fleet.SumSnoc`, `Journeys.SumNonNegative` and `Journeys.SumConst` state its laws |
| Journeys.SumConst | backend/compliance_engine.py:120 | summing a constant over n journeys gives n times it |
| ShipIds.Insert | backend/compliance_engine.py:112 | inserting an id into the sorted group keys keeps them strictly sorted and adds exactly that id |
| ShipIds.Less | backend/compliance_engine.py:112 | the order `groupby` sorts the keys by: lexicographic on code points, a proper prefix first; `ShipIds.LessIrreflexive`, `ShipIds.LessTransitive` and `ShipIds.LessTotal` prove it a strict total order |
| ShipIds.LessIrreflexive | backend/compliance_engine.py:112 | the key order never puts an id before itself |
| ShipIds.LessTransitive | backend/compliance_engine.py:112 | the key order is transitive |
| ShipIds.LessTotal | backend/compliance_engine.py:112 | any two distinct ids are ordered one way or the other |
| ShipIds.StrictlySortedCount | backend/compliance_engine.py:253 | a strictly sorted id list has as many entries as distinct ids |
| Fleet.Classify | backend/compliance_engine.py:130-132 | `Deficit` exactly when the difference is at least 0; `Surplus` exactly when it is negative |
| Fleet.SortedShipIds | backend/compliance_engine.py:112-117 | the group keys are strictly ascending and are exactly the ship ids of the table |
| Fleet.MeanIntensity | backend/compliance_engine.py:113 | the group's mean intensity times its journey count equals the group's intensity sum |
| Fleet.Summarize | backend/compliance_engine.py:112-146 | one vessel row: mean intensity, summed CO2 and distance, first ship type, status Deficit iff intensity ≥ target, impact (intensity − target) × distance / 10^4 |
| Fleet.Summaries | backend/compliance_engine.py:112-146 | one row per key, in key order, each the summary of its own ship |
| Fleet.ReducedTarget | backend/compliance_engine.py:123 | the target `mean × (1 − reduction)`; `Fleet.TargetAtMostMean` proves it never exceeds a non-negative mean |
| Fleet.CalculateFleetCompliance | backend/compliance_engine.py:93-148 | an empty table has no rows and no mean or target; otherwise the mean is the journey-level mean (line 120), the target is mean × (1 − reduction) (line 123), and every row is the summary of its own ship against that target |
| Fleet.FleetIds | backend/compliance_engine.py:112-117 | row i of the result is the row of the i-th sorted ship id |
| Fleet.FleetVesselOrder | backend/compliance_engine.py:112-117 | the rows come out in strictly ascending ship-id order |
| Fleet.FleetCoversShips | backend/compliance_engine.py:112-117 | a ship id has a row exactly when it occurs in the table |
| Fleet.FleetRowsWellFormed | backend/compliance_engine.py:112-146 | ship ids are distinct across rows and every row is internally consistent (difference, balance, status and impact agree) |
| Fleet.FleetDistancesNonNegative | backend/compliance_engine.py:115 | non-negative journey distances give non-negative vessel distances |
| Fleet.FleetTotals | backend/compliance_engine.py:114-115 | the rows' CO2 and distance sum to the table's totals: grouping loses and duplicates nothing |
| Fleet.SumVessels | backend/compliance_engine.py:257 | a column sum over vessel rows; `Fleet.FleetTotals` ties the CO2 and distance sums to the journey table and `ComplianceReport.GenerateComplianceReport` uses it for the financial total |
| Fleet.SumSnoc | backend/compliance_engine.py:114-115 | appending a journey adds its value to a column sum |
| Fleet.ShipSumsEmpty | backend/compliance_engine.py:114-115 | an empty table contributes nothing to any group sum |
| Fleet.ShipSumsSnoc | backend/compliance_engine.py:114-115 | appending a journey adds its value to exactly the group of its id |
| Fleet.ShipSumsPartition | backend/compliance_engine.py:114-115 | when every journey's id is a key, the per-group sums add up to the column sum |
| Fleet.SummariesSum | backend/compliance_engine.py:114-115 | a row column that equals each group's sum adds up to the per-group sums |
| Fleet.ShipSumsBelow | backend/compliance_engine.py:120-131 | if every group's sum is below another's, so is their total |
| Fleet.SomeVesselIsDeficit | backend/compliance_engine.py:120-132 | for a non-empty table with non-negative emissions and distances and a non-negative reduction, at least one vessel is in deficit |
| Fleet.SomeSummaryIsDeficit | backend/compliance_engine.py:120-132 | against a target no higher than the journey mean, some vessel's row is Deficit |
| Fleet.AllSurplusSumsBelow | backend/compliance_engine.py:113-131 | if every vessel were below the target, the journeys' intensity sum would be below the target's |
| Fleet.MeanNonNegative | backend/compliance_engine.py:120 | the mean of a non-negative sum is non-negative |
| Fleet.MeanBelowConst | backend/compliance_engine.py:120 | a journey sum below n × t gives a fleet mean below t |
| Fleet.GroupBelowTarget | backend/compliance_engine.py:113 | a group mean below t gives a group sum below its count × t |
| Fleet.TargetAtMostMean | backend/compliance_engine.py:123 | with a non-negative mean and reduction, the target never exceeds the mean |
| Fleet.BelowMean | backend/compliance_engine.py:120-131 | scaling by a positive count preserves "below the target" both ways |
| Fleet.SingleVesselIsDeficit | backend/compliance_engine.py:112-132 | for non-negative emissions and distances, a one-vessel fleet has one row at the fleet mean, and that row is Deficit for every non-negative reduction |
| Fleet.OfShipAll | backend/compliance_engine.py:112 | when every journey has the same id, that id's group is the whole table |
| Fleet.WithStatus | backend/compliance_engine.py:219-220 | the status filter keeps only rows of that status, each from the table |
| Fleet.StatusPartition | backend/compliance_engine.py:254-255 | the Surplus and Deficit counts add up to the row count |
| Fleet.WithStatusContains | backend/compliance_engine.py:219-220 | every row of the given status survives the filter |
| Fleet.OfShipIn | backend/compliance_engine.py:112 | every journey of a group is a journey of the table |
| Fleet.ExampleSum | backend/compliance_engine.py:106-109 | the worked table's journey intensities sum to 6000 |
| Fleet.ExampleGroups | backend/compliance_engine.py:112 | the worked table's groups are the two journeys of A and the one of B |
| Fleet.ExampleGroupSums | backend/compliance_engine.py:113 | the worked table's group intensity sums are 2000 and 4000 |
| Fleet.ExampleIds | backend/compliance_engine.py:112 | the worked table's sorted keys are A, B |
| Fleet.FleetMeanIsJourneyMean | backend/compliance_engine.py:113-120 | worked example: vessel means 1000 and 4000 with a fleet mean of 2000, the journey mean and not the 2500 mean of the vessel means |
| Pooling.FindFirst | backend/compliance_engine.py:164-165 | the lookup fails exactly when no row has the id, and otherwise returns the first row with it |
| Pooling.Find | backend/compliance_engine.py:164-165 | the `.iloc[0]` lookup by ship id; `Pooling.FindFirst` proves it fails exactly when no row has the id and otherwise returns the first row with it |
| Pooling.FindIn | backend/compliance_engine.py:164-165 | a found row is a row of the table and has the id asked for |
| Pooling.FindDistinct | backend/compliance_engine.py:164-165 | with distinct ids, looking up a row's id returns that row |
| Pooling.WeightedMean | backend/compliance_engine.py:169-176 | the weighted intensity times the combined distance equals the distance-weighted sum of the two intensities |
| Pooling.WeightedIntensity | backend/compliance_engine.py:172-176 | the distance-weighted intensity of two vessels; `Pooling.WeightedMean` and `Pooling.WeightedBetween` characterise it |
| Pooling.PoolReport | backend/compliance_engine.py:168-205 | ids, statuses and balances are carried over; the combined balance is their sum; the target is the first vessel's; success iff the weighted intensity ≤ target, with zero cost; otherwise the cost is (w − t) × D / 10^4, positive exactly for a positive D; savings = both impacts − pool cost |
| Pooling.PoolFields | backend/compliance_engine.py:172-202 | the reported `weighted_intensity` is the distance-weighted intensity; `financial_impact` is `excess_co2_tons` × 100; a failed pool's `excess_co2_tons` is (w − t) × D / 10^6 |
| Pooling.ExcessTons | backend/compliance_engine.py:187-189 | the excess CO2 in tonnes over a distance; `Pooling.PositiveCost` states its priced value |
| Pooling.PositiveCost | backend/compliance_engine.py:187-189 | an excess over the target costs (excess × distance) / 10^4, positive exactly when the distance is positive |
| Pooling.Pool | backend/compliance_engine.py:168-205 | the result dictionary for two found rows; `Pooling.PoolReport` and `Pooling.PoolFields` together state every field of it |
| Pooling.SimulatePoolingCases | backend/compliance_engine.py:150-205 | a missing first id is reported first, then a missing second id; the result is Ok exactly when both are present and the combined distance is non-zero; Ok carries the pool of the first matches |
| Pooling.SimulatePoolingRows | backend/compliance_engine.py:164-176 | a successful simulation found both rows, with a non-zero combined distance, and pooled exactly them |
| Pooling.SimulatePooling | backend/compliance_engine.py:150-205 | the whole simulation by ids; `Pooling.SimulatePoolingCases` states its error order and when it succeeds, and `Pooling.SimulatePoolingRows` what it pools |
| Pooling.PoolSymmetric | backend/compliance_engine.py:168-204 | under a shared target, swapping the two vessels changes neither the combined balance, the weighted intensity, the success flag, the cost nor the savings |
| Pooling.SimulatePoolingSymmetric | backend/compliance_engine.py:150-205 | the same symmetry for the simulation by ids |
| Pooling.WeightedBetween | backend/compliance_engine.py:172-176 | with non-negative distances the weighted intensity lies between the two vessel intensities |
| Pooling.TwoDeficitsPoolOnlyAtTarget | backend/compliance_engine.py:172-180 | for two consistent Deficit rows with a shared target and non-negative distances over a positive total, the pooled intensity is at least the target, so a successful pool sits exactly on it (line 180's `<=`) |
| Pooling.TwoDeficitsAtTargetPool | backend/compliance_engine.py:178-204 | two consistent rows exactly on a shared target over a positive combined distance are both Deficit, pool to the target, succeed, and cost and save nothing |
| Pooling.AtTargetConsistent | backend/compliance_engine.py:126-146 | a row at intensity 6000 (600 kg of CO2 over 100), target 6000, with zero difference is a consistent Deficit row |
| Pooling.TwoDeficitsAtTargetExample | backend/compliance_engine.py:168-204 | worked example: two such rows pool as Deficit and Deficit to 6000, successfully, with zero savings |
| Pooling.SameScaled | backend/compliance_engine.py:172-176 | equal products with the same positive factor have equal other factors (a helper for the weighted mean) |
| Pooling.MeanBetween | backend/compliance_engine.py:172-176 | a non-negatively weighted mean lies between the values it averages |
| Pooling.NonNegativeProduct | backend/compliance_engine.py:172-176 | a product of non-negative factors is non-negative (a helper for the weighted mean's bounds) |
| Pooling.NonNegativeFactor | backend/compliance_engine.py:172-176 | a non-negative product with a positive factor has a non-negative other factor (a helper for the weighted mean's bounds) |
| Pooling.ImpactSum | backend/compliance_engine.py:140-146 | the two vessels' impacts against a shared target sum to (g1·d1 + g2·d2 − t·(d1 + d2)) / 10^4 |
| Pooling.PoolImpactExpand | backend/compliance_engine.py:187-189 | a pool's cost is (weighted sum − t × D) / 10^4 |
| Pooling.WithinTargetScaled | backend/compliance_engine.py:180 | a weighted intensity within the target keeps the weighted sum within t × D |
| Pooling.PoolSavings | backend/compliance_engine.py:178-204 | for consistent rows with a shared target and positive combined distance: a failed pool saves exactly 0, a successful one saves the (non-positive) sum of the two impacts, so savings are never positive |
| Pooling.WorkedExample | backend/compliance_engine.py:168-204 | worked example: intensities 10000 and 1000 over 100 each pool to 5500 against a 6000 target: success, cost 0, savings 40 + (−50) = −10 |
| PoolSearch.Opportunity | backend/compliance_engine.py:226-233 | a pair contributes at most one entry, exactly when the simulation succeeds with positive savings, and that entry is the simulated pool |
| PoolSearch.PairsWith | backend/compliance_engine.py:225-233 | the inner loop's list for one deficit row; `PoolSearch.PairsWithMembers` and `PoolSearch.PairsWithStep` state its members and its loop step |
| PoolSearch.AllPairs | backend/compliance_engine.py:224-233 | the nested loops' list; `PoolSearch.AllPairsMembers` and `PoolSearch.AllPairsStep` state its members and its loop step |
| PoolSearch.PairsWithMembers | backend/compliance_engine.py:225-233 | an outcome is in one deficit row's list exactly when some surplus row gave it |
| PoolSearch.AllPairsMembers | backend/compliance_engine.py:224-233 | an outcome is in the enumeration exactly when some (deficit, surplus) pair gave it |
| PoolSearch.PairsWithStep | backend/compliance_engine.py:225-233 | one inner iteration appends that pair's contribution |
| PoolSearch.AllPairsStep | backend/compliance_engine.py:224-233 | one outer iteration appends that deficit row's list |
| PoolSearch.Opportunities | backend/compliance_engine.py:219-233 | the positive-savings pools of all (deficit, surplus) pairs in loop order; `PoolSearch.OpportunitiesMembers` states exactly which pools it holds |
| PoolSearch.OpportunitiesMembers | backend/compliance_engine.py:219-233 | a pool is collected exactly when it comes from a Deficit row paired with a Surplus row and has positive savings |
| PoolSearch.Prefix | backend/compliance_engine.py:238 | Python's `[:k]`: a prefix of min(k, n) elements for k ≥ 0, and of max(0, n + k) elements for negative k |
| PoolSearch.Ranked | backend/compliance_engine.py:236 | the opportunities stably sorted by savings, highest first; `PoolSearch.OptimalPoolsOrder` and `PoolSearch.RankedStable` state its order |
| PoolSearch.OptimalPools | backend/compliance_engine.py:207-238 | the first `max_pools` ranked opportunities; `PoolSearch.IdentifyOptimalPools` computes it with the source's loops, and the `OptimalPools…` lemmas state its length, entries and order |
| PoolSearch.PairsFor | backend/compliance_engine.py:225-233 | the inner loop returns that deficit row's positive-savings pools, in surplus order |
| PoolSearch.IdentifyOptimalPools | backend/compliance_engine.py:207-238 | the two loops, the stable sort and the slice return exactly `OptimalPools` |
| PoolSearch.OptimalPoolsLength | backend/compliance_engine.py:238 | never more than `max_pools` results for a non-negative limit, and never more than the candidates |
| PoolSearch.OptimalPoolsEntries | backend/compliance_engine.py:219-238 | every returned pool has positive savings and comes from a (deficit, surplus) pair; with distinct ids its first vessel is Deficit and its second Surplus |
| PoolSearch.OptimalPoolsOrder | backend/compliance_engine.py:236-238 | the result is in non-increasing savings order and no cut-off candidate saves more than a returned one |
| PoolSearch.RankedStable | backend/compliance_engine.py:236 | the sort is stable: pools of equal savings keep their enumeration order |
| PoolSearch.NoPositiveSavings | backend/compliance_engine.py:168-204 | in a table of consistent rows with one target and non-negative distances, no simulation has positive savings |
| PoolSearch.NoPoolsInSharedTargetTable | backend/compliance_engine.py:207-238 | such a table yields no pooling opportunities |
| PoolSearch.FleetHasNoPools | backend/compliance_engine.py:93-238 | any fleet calculation over non-negative distances yields no pooling opportunities, whatever the limit |
| StableSort.InsertDesc | backend/compliance_engine.py:236 | inserting one element grows the list by one |
| StableSort.InsertDescPermutes | backend/compliance_engine.py:236 | inserting adds exactly that element to the multiset |
| StableSort.InsertDescMembers | backend/compliance_engine.py:236 | every element after insertion was in the list or is the inserted one |
| StableSort.InsertDescSorted | backend/compliance_engine.py:236 | insertion keeps a non-increasing list non-increasing |
| StableSort.SortDesc | backend/compliance_engine.py:236 | the sort keeps the length |
| StableSort.SortDescSorted | backend/compliance_engine.py:236 | the sorted list is non-increasing by key |
| StableSort.SortDescPermutes | backend/compliance_engine.py:236 | the sorted list is a permutation of the input |
| StableSort.KeyClassAppend | backend/compliance_engine.py:236 | the elements of one key in a concatenation are those of each part, in order |
| StableSort.KeyClassSingle | backend/compliance_engine.py:236 | a single element belongs to its own key's class only |
| StableSort.KeyClassInsert | backend/compliance_engine.py:236 | insertion places the new element after the existing elements of its key |
| StableSort.KeyClassNone | backend/compliance_engine.py:236 | a list without a key has an empty class for it |
| StableSort.SortDescStable | backend/compliance_engine.py:236 | for every key, the sorted list holds that key's elements in input order |
| StableSort.InsertDescAt | backend/compliance_engine.py:236 | insertion puts the element after every element with a key at least its own |
| StableSort.StableSortDescending | backend/compliance_engine.py:236 | the in-place sort loop returns exactly the stable sort |
| ComplianceReport.Performers | backend/compliance_engine.py:260-261 | the column selection keeps one row per vessel with its id, type, intensity and status |
| ComplianceReport.Lowest | backend/compliance_engine.py:260 | `nsmallest(5, 'ghg_intensity')`; `ComplianceReport.LowestPerformers` states its length, order and membership |
| ComplianceReport.Highest | backend/compliance_engine.py:261 | `nlargest(5, 'ghg_intensity')`; `ComplianceReport.HighestPerformers` states its length, order and membership |
| ComplianceReport.TopByKey | backend/compliance_engine.py:260-261 | the first n of a stable descending sort are min(n, len) table rows, in key order, none beaten by a row left out |
| ComplianceReport.LowestPerformers | backend/compliance_engine.py:260 | at most five rows, ascending intensity, every one from the table and none above a row left out |
| ComplianceReport.HighestPerformers | backend/compliance_engine.py:261 | at most five rows, descending intensity, every one from the table and none below a row left out |
| ComplianceReport.GenerateComplianceReport | backend/compliance_engine.py:240-279 | the details are the fleet calculation's rows, and the fleet mean and target are its mean and target; the vessel count is the number of rows; the surplus and deficit counts are the sizes of the Surplus and Deficit filters, and add up to the vessel count; the financial total is the rows' impact sum; the performer lists are the column selections of the five lowest and five highest rows (at most five each); the pools are the search with limit ten (at most ten) |
| ComplianceReport.ReportCounts | backend/compliance_engine.py:253 | the total vessel count is the number of distinct ship ids in the table |
| ComplianceReport.ImpactSign | backend/compliance_engine.py:130-146 | a Surplus row over a positive distance has a negative impact, over a non-negative one a non-positive impact; a Deficit row over a non-negative distance has a non-negative impact |
| ComplianceReport.ReportImpactSigns | backend/compliance_engine.py:250-257 | with non-negative distances every Deficit row adds a non-negative and every Surplus row a non-positive amount to the total |
| ComplianceReport.ReportHasNoPools | backend/compliance_engine.py:262-264 | with non-negative distances the report's pool list is empty |

## Left out

- `GhgIntensity`: the cargo capacity must be non-zero when the distance is non-zero. Python would raise `ZeroDivisionError` there, and the engine never passes a capacity other than 1.
- IEEE-754 floating point: rounding, infinities and NaN are not modelled, since values are exact reals. A NaN-producing division becomes `None` or `Err`, as described above.
- `Journeys.Journey`: holds only the four columns the engine reads (ship id, type, distance, CO2). The `apply` at lines 106-109 adds a `ghg_intensity` column to the caller's frame, and that in-place change is not modelled.
- `ComplianceEngine.__init__` and `predict_co2_emissions`: they load or train a scikit-learn model and run it, and a learned regressor is outside what can be stated here.
- The `main` demo, the HTTP layer (`backend/api.py`), `backend/train_model.py` and `TaskC_Memo/anomaly_detection.py` are not part of this model. They are fixed-response, I/O or machine-learning code around the engine.
- Pandas internals are left out: DataFrames become sequences of records. `iterrows` becomes sequence index order, `groupby` becomes the sorted id list, and `nsmallest` / `nlargest` become a stable sort by (negated) intensity with the first rows kept among ties.
- Ship ids are compared by code point. Pandas sorts object keys with Python's `<` on `str`, which is the same order on code points.
- `Fleet.SomeVesselIsDeficit`: stated only for non-negative emissions, distances and reduction. With negative data, every vessel can fall below the target.
- `PoolSearch.OptimalPoolsEntries`: states the vessels' statuses only when ship ids are distinct. With duplicate ids the lookup returns the first match, which every fleet calculation avoids (`Fleet.FleetRowsWellFormed`).
- `PoolSearch.FleetHasNoPools`: under exact arithmetic the search never finds a pool for any fleet the engine computes, since a pool's savings are never positive (`Pooling.PoolSavings`). With floats, rounding may let a tiny positive saving through; that is not modelled.
