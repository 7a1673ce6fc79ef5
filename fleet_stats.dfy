/** Fleet-wide statistics folded from the registry table
    (the GET /stats handler). */
module FleetStats {
  import opened BusTypes
  import opened CrowdLevel

  /** The summary the statistics handler returns. The empty-table branch of
      the handler has no last-updated entry, hence the Option. */
  datatype Stats = Stats(
    totalBuses: int,
    totalPassengers: int,
    highCapacity: int,
    moderateCapacity: int,
    lowCapacity: int,
    lastUpdated: Option<Timestamp>)

  /** The sum of f over the records of a table, in no particular order. */
  ghost function SumOver(m: map<string, BusStatus>, f: BusStatus -> int): int
    decreases m.Keys
  {
    if m == map[] then 0
    else
      var k :| k in m;
      assert (m - {k}).Keys < m.Keys;
      f(m[k]) + SumOver(m - {k}, f)
  }

  function PassengersOf(b: BusStatus): int {
    b.count
  }

  /** One for a record carrying the given label, zero otherwise. */
  function LabelIndicator(name: string): BusStatus -> int {
    (b: BusStatus) => if b.crowdLevel == name then 1 else 0
  }

  ghost function TotalPassengers(m: map<string, BusStatus>): int {
    SumOver(m, PassengersOf)
  }

  ghost function CountLabel(m: map<string, BusStatus>, name: string): int {
    SumOver(m, LabelIndicator(name))
  }

  /** The general formula of the summary for any table. */
  ghost function Summary(m: map<string, BusStatus>, lastUpdated: Option<Timestamp>): Stats {
    Stats(|m|, TotalPassengers(m), CountLabel(m, HighLabel), CountLabel(m, ModerateLabel),
          CountLabel(m, LowLabel), lastUpdated)
  }

  /** What the statistics handler returns for a table at time now. */
  ghost function StatsOf(m: map<string, BusStatus>, now: Timestamp): Stats {
    if m == map[] then Stats(0, 0, 0, 0, 0, None)
    else Summary(m, Some(now))
  }

  /** Every record of the table carries one of the three labels. */
  ghost predicate AllLabelled(m: map<string, BusStatus>) {
    forall k :: k in m ==> IsLabel(m[k].crowdLevel)
  }

  /** The sum may be taken apart at any key, whichever key the definition picks. */
  lemma {:induction false} SumOverPick(m: map<string, BusStatus>, f: BusStatus -> int, k: string)
    requires k in m
    ensures SumOver(m, f) == f(m[k]) + SumOver(m - {k}, f)
    decreases m.Keys
  {
    var j :| j in m && SumOver(m, f) == f(m[j]) + SumOver(m - {j}, f);
    if j != k {
      assert (m - {j}).Keys < m.Keys;
      assert (m - {k}).Keys < m.Keys;
      SumOverPick(m - {j}, f, k);
      SumOverPick(m - {k}, f, j);
      assert m - {j} - {k} == m - {k} - {j};
    }
  }

  /** Storing v under k replaces k's old contribution by v's. */
  lemma SumOverUpdate(m: map<string, BusStatus>, f: BusStatus -> int, k: string, v: BusStatus)
    ensures SumOver(m[k := v], f) == SumOver(m, f) - (if k in m then f(m[k]) else 0) + f(v)
  {
    SumOverPick(m[k := v], f, k);
    assert m[k := v] - {k} == m - {k};
    if k in m {
      SumOverPick(m, f, k);
    } else {
      assert m - {k} == m;
    }
  }

  /** Removing k takes away exactly k's contribution. */
  lemma SumOverRemove(m: map<string, BusStatus>, f: BusStatus -> int, k: string)
    ensures SumOver(m - {k}, f) == SumOver(m, f) - (if k in m then f(m[k]) else 0)
  {
    if k in m {
      SumOverPick(m, f, k);
    } else {
      assert m - {k} == m;
    }
  }

  /** When every record is labelled, the three label counts partition the table. */
  lemma {:induction false} LabelCountsPartition(m: map<string, BusStatus>)
    requires AllLabelled(m)
    ensures CountLabel(m, HighLabel) + CountLabel(m, ModerateLabel) + CountLabel(m, LowLabel) == |m|
    decreases m.Keys
  {
    if m != map[] {
      var k :| k in m;
      var rest := m - {k};
      assert rest.Keys < m.Keys;
      assert rest.Keys == m.Keys - {k};
      SumOverPick(m, LabelIndicator(HighLabel), k);
      SumOverPick(m, LabelIndicator(ModerateLabel), k);
      SumOverPick(m, LabelIndicator(LowLabel), k);
      LabelCountsPartition(rest);
    }
  }

  /** The statistics of a labelled table: its size, and buckets that add up to it. */
  lemma StatsPartition(m: map<string, BusStatus>, now: Timestamp)
    requires AllLabelled(m)
    ensures StatsOf(m, now).totalBuses == |m|
    ensures StatsOf(m, now).totalPassengers == TotalPassengers(m)
    ensures var s := StatsOf(m, now);
            s.highCapacity + s.moderateCapacity + s.lowCapacity == s.totalBuses
  {
    if m != map[] {
      LabelCountsPartition(m);
    }
  }

  /** The empty-table branch is all zeros, and it is what the general
      formula gives on the empty table with no last-updated entry. */
  lemma EmptyBranchAgrees(now: Timestamp)
    ensures StatsOf(map[], now) == Stats(0, 0, 0, 0, 0, None)
    ensures Summary(map[], None) == Stats(0, 0, 0, 0, 0, None)
  {
  }
}
