# PeakMapPH bus registry — a Dafny model

PeakMapPH's backend tracks buses in real time. Driver apps report each bus's
passenger count and position. The backend labels the bus's crowding as LOW,
MODERATE or HIGH against a capacity of 50. It keeps the latest record per bus
in an in-memory table, serves single records and the whole table, removes
buses on request, and sums up the fleet.

This project models that core, `backend/main.py`, in four modules:

- `BusTypes` (`bus_types.dfy`): the report (`BusUpdate`, the shape at
  `backend/main.py:33-40`) and the stored record (`BusStatus`, the shape at
  `backend/main.py:42-51`). Datatypes have no contract, so they have no row
  in the table below. It also has the success body (`Response`), the 404
  error (`NotFound`) and a `Result` for handlers that can fail.
- `CrowdLevel` (`crowd_level.dfy`): `classify_crowd_level`. The percentage
  `count / capacity * 100` is computed as an exact real, and the 50 % and
  80 % thresholds are compared the way the source compares them. Lemmas
  restate the rule over integers. They also prove that it always gives one
  of the three labels, that it is monotone in the count, that a full or
  overfull bus is HIGH and that a negative count is LOW.
- `FleetStats` (`fleet_stats.dfy`): the `/stats` summary as functions over the
  table. There is the generic sum over a table's records, passenger totals and
  per-label counts as sums of that kind, and the handler's result with its
  empty-table branch. Lemmas show that a sum can be split at any key, how it
  changes under an insert or removal, and that the three label counts
  partition a labelled table.
- `Registry` (`registry.dfy`): the module-level `buses` dict, modelled as the
  class `BusRegistry` with a `map<string, BusStatus>` field. The class has
  one method per handler (`UpdateBus`, `GetBuses`, `GetBus`, `DeleteBus`,
  `GetStats`). The class invariant says two things about every record: it is
  filed under its own `bus_id`, and its stored `crowd_level` is the
  classification of its own `count`. The pure table change `Upsert` is the
  specification of `UpdateBus`. Lemmas cover its full-replacement semantics
  and its effect on the statistics.
- `ApiScenario` (`scenario.dfy`): a client that makes the calls of
  `backend/test_api.py` on a fresh registry. Three buses report (35, 42 and
  15 passengers), the buses are listed, `BUS001` is looked up, the fleet is
  summarised, and `BUS003` is removed. The script stops there; the client
  then lists the buses again and looks up the removed one. The outcome of
  every call is proved. The script itself talks to whatever server is
  running, so its starting state is not known; the client starts empty.

The current time is a `Timestamp` parameter of `UpdateBus` and `GetStats`.
Coordinates are pass-through `real` values.

Three consequences of the code are worth stating:

- With the test script's counts 35, 42 and 15, the classifier puts 42 of 50
  at 84 %, which is HIGH, so the summary is 1 HIGH, 1 MODERATE and 1 LOW
  (`ApiScenario.ThreeReportsStats`).
- Negative counts are not rejected anywhere. They classify as LOW
  (`CrowdLevel.ClassifyNegativeIsLow`).
- The empty-table branch of `get_stats` returns no `last_updated` entry. The
  non-empty branch does. The model's `Stats.lastUpdated` is an `Option` to
  keep that difference.

## Model

| member | source | states |
|---|---|---|
| `BusTypes.NotFound` | backend/main.py:152-153 | a missing bus is reported with status code 404 |
| `CrowdLevel.Percentage` | backend/main.py:67 | the occupancy percentage as an exact real: times the capacity it is 100 times the count |
| `CrowdLevel.Classify` | backend/main.py:56-74 | the threshold rule on the exact percentage (below 50 LOW, below 80 MODERATE, else HIGH); it has no ensures of its own, its contract is `ClassifyIntegerRule` and the lemmas after it |
| `CrowdLevel.PercentageBelow` | backend/main.py:67-71 | for capacity > 0, the percentage is below t exactly when 100·count < t·capacity |
| `CrowdLevel.ClassifyIntegerRule` | backend/main.py:67-74 | for capacity > 0: LOW iff 100·count < 50·cap; MODERATE iff 50·cap ≤ 100·count < 80·cap; HIGH iff 80·cap ≤ 100·count (all three directions both ways) |
| `CrowdLevel.ClassifyIsLabelled` | backend/main.py:64-74 | the classifier's label is always one of "LOW", "MODERATE", "HIGH" |
| `CrowdLevel.ClassifyMonotone` | backend/main.py:67-74 | for fixed capacity, a larger count never yields a lower level (LOW < MODERATE < HIGH) |
| `CrowdLevel.ClassifyAtCapacityIsHigh` | backend/main.py:73-74 | a count at or above capacity is HIGH |
| `CrowdLevel.ClassifyNegativeIsLow` | backend/main.py:69-70 | a negative count, which is never rejected, is LOW |
| `CrowdLevel.DefaultCapacityBands` | backend/main.py:56-74 | at the default capacity 50: counts up to 24 are LOW, 25 to 39 MODERATE, 40 and up HIGH (so 24/25 and 39/40 are the exact boundaries) |
| `FleetStats.SumOver` | backend/main.py:193-196 | the sum of a per-record quantity over the table's records, the shape of each generator-expression sum; no ensures of its own, its contract is `SumOverPick`, `SumOverUpdate` and `SumOverRemove` |
| `FleetStats.TotalPassengers` | backend/main.py:193 | `total_passengers`: the sum of the records' counts; no ensures of its own, see `StatsPartition`, `StatsAfterUpsert`, `StatsAfterRemove` |
| `FleetStats.CountLabel` | backend/main.py:194-196 | `high_capacity`, `moderate_capacity`, `low_capacity`: the number of records whose crowd level equals the label; no ensures of its own, see `LabelCountsPartition` |
| `FleetStats.Summary` | backend/main.py:198-205 | the non-empty branch's result: size, passenger total and the three label counts, with a last-updated time; no ensures of its own, see `StatsPartition` |
| `FleetStats.StatsOf` | backend/main.py:184-205 | the whole handler: all zeros without last-updated for an empty table, otherwise `Summary`; no ensures of its own, its contract is `StatsPartition`, `EmptyBranchAgrees` and `ValidTableStatsPartition`, and `GetStats` is proved equal to it |
| `FleetStats.SumOverPick` | backend/main.py:193-196 | a sum over the table's records splits at any key, whatever order the sum visits them in |
| `FleetStats.SumOverUpdate` | backend/main.py:193-196 | storing v under k replaces k's previous contribution to a sum by v's |
| `FleetStats.SumOverRemove` | backend/main.py:193-196 | removing k takes exactly k's contribution away from a sum |
| `FleetStats.LabelCountsPartition` | backend/main.py:194-196 | when every record carries one of the three labels, high + moderate + low = number of records |
| `FleetStats.StatsPartition` | backend/main.py:184-205 | for a labelled table, total_buses = size of the table, total_passengers = sum of counts, and the three buckets add up to total_buses |
| `FleetStats.EmptyBranchAgrees` | backend/main.py:184-191 | the empty-table branch is all zeros with no last-updated entry, and the general formula on the empty table with no last-updated entry gives the same |
| `Registry.MakeStatus` | backend/main.py:107-119 | the stored record comes from the report alone: same id, count, position, route and destination, the call's timestamp, and the crowd level of its own count |
| `Registry.Upsert` | backend/main.py:110-119 | the new table has every old key plus the report's id; that id maps to the fresh record; every other entry is unchanged; the size grows only for a new id; the table invariant is kept |
| `Registry.UpsertTwiceKeepsLast` | backend/main.py:110-119 | two reports for one bus leave one entry holding the second report verbatim (full replacement, not merge) |
| `Registry.ValidTableIsLabelled` | backend/main.py:107-115 | every record of a table the registry can hold has one of the three labels |
| `Registry.ValidTableStatsPartition` | backend/main.py:184-205 | for any table the registry can hold, high + moderate + low = total_buses = number of records |
| `Registry.StatsAfterUpsert` | backend/main.py:110-119 | after an upsert, total passengers and each label count change by exactly the replaced record's and the new record's contributions |
| `Registry.StatsAfterRemove` | backend/main.py:168 | after removing a bus, total passengers, each label count and the bus total drop by exactly that bus's contribution |
| `Registry.BusRegistry.constructor` | backend/main.py:29 | the registry starts as an empty table satisfying the invariant |
| `Registry.BusRegistry.UpdateBus` | backend/main.py:105-127 | the table becomes `Upsert(old table, report, now)`, the invariant is kept, and the response carries exactly the record now stored under the id |
| `Registry.BusRegistry.GetBuses` | backend/main.py:141 | returns every stored record exactly once: same count as the table, same members as its values, no repeats, and its records' ids are exactly the table's keys |
| `Registry.BusRegistry.GetBus` | backend/main.py:152-155 | Ok with the stored record exactly when the id is present, otherwise the 404 for that id; the table is not modified |
| `Registry.BusRegistry.DeleteBus` | backend/main.py:165-173 | absent id: 404 and the table unchanged; present id: returns the removed record and only that key is gone; the invariant is kept |
| `Registry.BusRegistry.GetStats` | backend/main.py:184-205 | returns exactly `StatsOf(table, now)`, folding the records one at a time |
| `ApiScenario.ThreeReportLevels` | backend/test_api.py:30-55 | counts 35, 42 and 15 classify as MODERATE (70 %), HIGH (84 %) and LOW (30 %) |
| `ApiScenario.ThreeReportsCount` | backend/test_api.py:57-61 | after the three reports, a label count is the number of reports carrying it, and total passengers is the sum of their counts |
| `ApiScenario.ThreeReportsRecordLevels` | backend/test_api.py:30-55 | the three stored records carry MODERATE, HIGH and LOW |
| `ApiScenario.ThreeReportsStats` | backend/test_api.py:89-98 | the summary after the three reports is 3 buses, 92 passengers, 1 HIGH, 1 MODERATE, 1 LOW |
| `ApiScenario.ThreeReportsKeys` | backend/test_api.py:30-61 | the three reports leave exactly the keys BUS001, BUS002, BUS003, and BUS001 holds the record built from its own report |
| `ApiScenario.ReportThree` | backend/test_api.py:57-61 | a fresh registry that has received the three reports in order holds exactly the table of three upserts into an empty one |
| `ApiScenario.ListAndLookUp` | backend/test_api.py:65-87 | after the three reports the listing has three records with ids BUS001, BUS002, BUS003, and BUS001 is found with 35 passengers and MODERATE |
| `ApiScenario.ReportSummariseRemove` | backend/test_api.py:116-122 | the script's calls on a fresh registry (three reports, listing, BUS001 lookup, summary, removal of BUS003) give those results and the 3/92/1/1/1 summary; a following listing has two records, none of them BUS003, and a lookup of BUS003 gives 404 |

## Left out

- HTTP transport: the FastAPI app, CORS, route decorators and status-code mapping. The handlers are methods, and their errors are `Result` values.
- `read_root`, the health check: it returns constants and the clock.
- `datetime.now()`: the current time is a parameter.
- The `print` log line in `update_bus`.
- The catch-all `except` in `update_bus` that maps any fault to HTTP 500. Nothing in the modelled update can fail. The faults it would catch in Python are foreign to the model, for example an `OverflowError` when a count too large for a float is divided.
- Floating point. The percentage is an exact real, so rounding near the 50 % and 80 % thresholds is not modelled. It cannot matter at capacity 50 with integer counts, but for very large operands it could.
- `CrowdLevel.Classify` requires a capacity other than 0. Python raises `ZeroDivisionError`, and the only caller passes 50. The integer-rule lemmas assume a positive capacity. A negative capacity is classified by the exact formula but has no lemmas.
- Request validation by Pydantic, which is a foreign library. A `BusUpdate` is taken as already well-typed.
- The order of `list(buses.values())`. `GetBuses` promises each record exactly once, in no particular order.
- `GetStats` folds the four sums in one loop. The source runs four generator expressions. The results agree because each sum is order-independent (`FleetStats.SumOverPick`).
- Concurrency around the shared table: the model is sequential.
- The rest of `backend/test_api.py`: it checks HTTP status codes against a running server. Only its calls are modelled, on a fresh registry (`ApiScenario`).
