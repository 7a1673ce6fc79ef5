/** The end-to-end sequence the backend's test script drives: three buses
    report, the fleet is summarised, one bus is removed. */
module ApiScenario {
  import opened BusTypes
  import opened CrowdLevel
  import opened FleetStats
  import opened Registry

  /** The crowd levels of the three reports at the default capacity:
      70% is MODERATE, 84% is HIGH and 30% is LOW. */
  lemma ThreeReportLevels()
    ensures Classify(35, DefaultCapacity) == Moderate
    ensures Classify(42, DefaultCapacity) == High
    ensures Classify(15, DefaultCapacity) == Low
  {
    DefaultCapacityBands(35);
    DefaultCapacityBands(42);
    DefaultCapacityBands(15);
  }

  /** The three report shapes of the scenario, with their counts. */
  predicate ThreeReports(d1: BusUpdate, d2: BusUpdate, d3: BusUpdate) {
    && d1.busId == "BUS001" && d2.busId == "BUS002" && d3.busId == "BUS003"
    && d1.count == 35 && d2.count == 42 && d3.count == 15
  }

  /** The table after the three reports, in order, into an empty registry. */
  function AfterThree(d1: BusUpdate, d2: BusUpdate, d3: BusUpdate, now: Timestamp): map<string, BusStatus> {
    Upsert(Upsert(Upsert(map[], d1, now), d2, now), d3, now)
  }

  /** The three reports leave three entries, one per bus id, and BUS001
      still holds its own report. */
  lemma ThreeReportsKeys(d1: BusUpdate, d2: BusUpdate, d3: BusUpdate, now: Timestamp)
    requires ThreeReports(d1, d2, d3)
    ensures AfterThree(d1, d2, d3, now).Keys == {"BUS001", "BUS002", "BUS003"}
    ensures |AfterThree(d1, d2, d3, now)| == 3
    ensures AfterThree(d1, d2, d3, now)["BUS001"] == MakeStatus(d1, now)
  {
    assert "BUS001" != "BUS002" && "BUS002" != "BUS003" && "BUS001" != "BUS003";
  }

  /** How many of the three reports carry a label, tracked report by report. */
  lemma ThreeReportsCount(d1: BusUpdate, d2: BusUpdate, d3: BusUpdate, now: Timestamp, name: string)
    requires d1.busId == "BUS001" && d2.busId == "BUS002" && d3.busId == "BUS003"
    ensures CountLabel(AfterThree(d1, d2, d3, now), name)
         == (if MakeStatus(d1, now).crowdLevel == name then 1 else 0)
          + (if MakeStatus(d2, now).crowdLevel == name then 1 else 0)
          + (if MakeStatus(d3, now).crowdLevel == name then 1 else 0)
    ensures TotalPassengers(AfterThree(d1, d2, d3, now)) == d1.count + d2.count + d3.count
  {
    var m0: map<string, BusStatus> := map[];
    var m1 := Upsert(m0, d1, now);
    var m2 := Upsert(m1, d2, now);
    assert CountLabel(m0, name) == 0 && TotalPassengers(m0) == 0;
    StatsAfterUpsert(m0, d1, now, name);
    StatsAfterUpsert(m1, d2, now, name);
    StatsAfterUpsert(m2, d3, now, name);
  }

  /** The scenario's records carry MODERATE, HIGH and LOW, in report order. */
  lemma ThreeReportsRecordLevels(d1: BusUpdate, d2: BusUpdate, d3: BusUpdate, now: Timestamp)
    requires ThreeReports(d1, d2, d3)
    ensures MakeStatus(d1, now).crowdLevel == ModerateLabel
    ensures MakeStatus(d2, now).crowdLevel == HighLabel
    ensures MakeStatus(d3, now).crowdLevel == LowLabel
  {
    ThreeReportLevels();
  }

  /** The summary after three reports with counts 35, 42 and 15 into an
      empty table. */
  lemma ThreeReportsStats(d1: BusUpdate, d2: BusUpdate, d3: BusUpdate, now: Timestamp)
    requires ThreeReports(d1, d2, d3)
    ensures StatsOf(AfterThree(d1, d2, d3, now), now) == Stats(3, 92, 1, 1, 1, Some(now))
  {
    var m3 := AfterThree(d1, d2, d3, now);
    ThreeReportsKeys(d1, d2, d3, now);
    assert StatsOf(m3, now) == Summary(m3, Some(now));
    ThreeReportsRecordLevels(d1, d2, d3, now);
    assert HighLabel[0] != ModerateLabel[0] && HighLabel[0] != LowLabel[0]
        && ModerateLabel[0] != LowLabel[0];
    ThreeReportsCount(d1, d2, d3, now, HighLabel);
    ThreeReportsCount(d1, d2, d3, now, ModerateLabel);
    ThreeReportsCount(d1, d2, d3, now, LowLabel);
  }

  /** The three reports the test script posts. */
  const Report1 := BusUpdate("BUS001", 35, 14.6091, 121.0223, Some("EDSA"), Some("Cubao"))
  const Report2 := BusUpdate("BUS002", 42, 14.6850, 121.0794, Some("Commonwealth"), Some("Quezon City"))
  const Report3 := BusUpdate("BUS003", 15, 14.6344, 121.0712, Some("Katipunan"), Some("Antipolo"))

  /** A fresh registry that has received the three reports, in order. */
  method ReportThree(now: Timestamp) returns (registry: BusRegistry)
    ensures fresh(registry) && registry.Valid()
    ensures registry.buses == AfterThree(Report1, Report2, Report3, now)
  {
    registry := new BusRegistry();
    var _ := registry.UpdateBus(Report1, now);
    var _ := registry.UpdateBus(Report2, now);
    var _ := registry.UpdateBus(Report3, now);
  }

  /** The listing and the BUS001 lookup the script makes after its reports. */
  method ListAndLookUp(registry: BusRegistry, now: Timestamp)
    returns (listed: seq<BusStatus>, first: Result<BusStatus>)
    requires registry.Valid()
    requires registry.buses == AfterThree(Report1, Report2, Report3, now)
    ensures |listed| == 3
    ensures (set b | b in listed :: b.busId) == {"BUS001", "BUS002", "BUS003"}
    ensures first.Ok? && first.value.count == 35 && first.value.crowdLevel == ModerateLabel
  {
    ThreeReportsKeys(Report1, Report2, Report3, now);
    ThreeReportsRecordLevels(Report1, Report2, Report3, now);
    listed := registry.GetBuses();
    first := registry.GetBus("BUS001");
    assert first.value == MakeStatus(Report1, now);
  }

  /** The script's calls on a fresh registry: three reports, the listing,
      the lookup of BUS001, the summary and the removal of BUS003; then a
      listing and a lookup of the removed bus. */
  method ReportSummariseRemove(now: Timestamp)
    returns (listed: seq<BusStatus>, first: Result<BusStatus>, stats: Stats,
             remaining: seq<BusStatus>, removedLookup: Result<BusStatus>)
    ensures |listed| == 3
    ensures (set b | b in listed :: b.busId) == {"BUS001", "BUS002", "BUS003"}
    ensures first.Ok? && first.value.count == 35 && first.value.crowdLevel == ModerateLabel
    ensures stats == Stats(3, 92, 1, 1, 1, Some(now))
    ensures |remaining| == 2
    ensures forall b :: b in remaining ==> b.busId != "BUS003"
    ensures removedLookup == Err(NotFound("BUS003"))
  {
    var registry := ReportThree(now);
    listed, first := ListAndLookUp(registry, now);
    ThreeReportsKeys(Report1, Report2, Report3, now);
    ThreeReportsStats(Report1, Report2, Report3, now);
    stats := registry.GetStats(now);
    var _ := registry.DeleteBus("BUS003");
    remaining := registry.GetBuses();
    removedLookup := registry.GetBus("BUS003");
  }
}
