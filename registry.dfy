/** The in-memory vehicle registry: one status record per bus id, upserted by
    POST /update, read by GET /buses and GET /bus/{id}, removed by
    DELETE /bus/{id}, and summarised by GET /stats. */
module Registry {
  import opened BusTypes
  import opened CrowdLevel
  import opened FleetStats

  /** A stored record's crowd level is the classification of its own count. */
  predicate Consistent(b: BusStatus) {
    b.crowdLevel == Classify(b.count, DefaultCapacity).Name()
  }

  /** The table invariant: every record is filed under its own id and its
      crowd level agrees with its count. */
  predicate ValidTable(m: map<string, BusStatus>) {
    forall id :: id in m ==> m[id].busId == id && Consistent(m[id])
  }

  /** The record stored for a report received at time now. It is built from
      the report alone: no field of an earlier record for the same bus survives. */
  function MakeStatus(d: BusUpdate, now: Timestamp): (s: BusStatus)
    ensures Consistent(s) && s.busId == d.busId && s.timestamp == now
    ensures s.count == d.count && s.lat == d.lat && s.lng == d.lng
    ensures s.route == d.route && s.destination == d.destination
  {
    BusStatus(d.busId, d.count, d.lat, d.lng, Classify(d.count, DefaultCapacity).Name(),
              now, d.route, d.destination)
  }

  /** The table after an upsert of report d at time now. */
  function Upsert(m: map<string, BusStatus>, d: BusUpdate, now: Timestamp): (r: map<string, BusStatus>)
    ensures r.Keys == m.Keys + {d.busId}
    ensures r[d.busId] == MakeStatus(d, now)
    ensures forall id :: id in m && id != d.busId ==> r[id] == m[id]
    ensures |r| == if d.busId in m then |m| else |m| + 1
    ensures ValidTable(m) ==> ValidTable(r)
  {
    m[d.busId := MakeStatus(d, now)]
  }

  /** A second upsert for the same bus leaves one entry, holding the second
      report verbatim: full replacement, not a merge. */
  lemma UpsertTwiceKeepsLast(m: map<string, BusStatus>, d1: BusUpdate, t1: Timestamp,
                             d2: BusUpdate, t2: Timestamp)
    requires d1.busId == d2.busId
    ensures Upsert(Upsert(m, d1, t1), d2, t2) == Upsert(m, d2, t2)
    ensures |Upsert(Upsert(m, d1, t1), d2, t2)| == |Upsert(m, d1, t1)|
  {
  }

  /** A valid table holds only labelled records. */
  lemma ValidTableIsLabelled(m: map<string, BusStatus>)
    requires ValidTable(m)
    ensures AllLabelled(m)
  {
    forall k | k in m ensures IsLabel(m[k].crowdLevel) {
      ClassifyIsLabelled(m[k].count, DefaultCapacity);
    }
  }

  /** For any table the registry can hold, the statistics' three buckets
      add up to the number of buses. */
  lemma ValidTableStatsPartition(m: map<string, BusStatus>, now: Timestamp)
    requires ValidTable(m)
    ensures var s := StatsOf(m, now);
            s.totalBuses == |m| && s.highCapacity + s.moderateCapacity + s.lowCapacity == |m|
  {
    ValidTableIsLabelled(m);
    StatsPartition(m, now);
  }

  /** How an upsert moves the aggregates: the old record's contribution (if
      any) is replaced by the new one's. */
  lemma StatsAfterUpsert(m: map<string, BusStatus>, d: BusUpdate, now: Timestamp, name: string)
    ensures TotalPassengers(Upsert(m, d, now))
         == TotalPassengers(m) - (if d.busId in m then m[d.busId].count else 0) + d.count
    ensures CountLabel(Upsert(m, d, now), name)
         == CountLabel(m, name)
          - (if d.busId in m && m[d.busId].crowdLevel == name then 1 else 0)
          + (if Classify(d.count, DefaultCapacity).Name() == name then 1 else 0)
  {
    SumOverUpdate(m, PassengersOf, d.busId, MakeStatus(d, now));
    SumOverUpdate(m, LabelIndicator(name), d.busId, MakeStatus(d, now));
  }

  /** How a removal moves the aggregates. */
  lemma StatsAfterRemove(m: map<string, BusStatus>, id: string, name: string)
    requires id in m
    ensures TotalPassengers(m - {id}) == TotalPassengers(m) - m[id].count
    ensures CountLabel(m - {id}, name)
         == CountLabel(m, name) - (if m[id].crowdLevel == name then 1 else 0)
    ensures |m - {id}| == |m| - 1
  {
    SumOverRemove(m, PassengersOf, id);
    SumOverRemove(m, LabelIndicator(name), id);
    assert (m - {id}).Keys == m.Keys - {id};
  }

  class BusRegistry {
    /** The table, keyed by bus id. */
    var buses: map<string, BusStatus>

    ghost predicate Valid()
      reads this
    {
      ValidTable(buses)
    }

    /** The registry starts empty. */
    constructor ()
      ensures Valid() && buses == map[]
    {
      buses := map[];
    }

    /** POST /update: classify the count, store the fresh record under the
        bus id, and return it. */
    method UpdateBus(data: BusUpdate, now: Timestamp) returns (resp: Response)
      requires Valid()
      modifies this
      ensures Valid()
      ensures buses == Upsert(old(buses), data, now)
      ensures resp == Response("success", "Bus " + data.busId + " updated successfully",
                               buses[data.busId])
    {
      var crowdLevel := Classify(data.count, DefaultCapacity).Name();
      buses := buses[data.busId := BusStatus(data.busId, data.count, data.lat, data.lng,
                                             crowdLevel, now, data.route, data.destination)];
      resp := Response("success", "Bus " + data.busId + " updated successfully", buses[data.busId]);
    }

    /** GET /buses: every stored record exactly once, in no promised order. */
    method GetBuses() returns (list: seq<BusStatus>)
      requires Valid()
      ensures |list| == |buses|
      ensures forall b :: b in list <==> b in buses.Values
      ensures forall i, j :: 0 <= i < j < |list| ==> list[i] != list[j]
      ensures (set b | b in list :: b.busId) == buses.Keys
    {
      list := [];
      var rest := buses.Keys;
      while rest != {}
        invariant rest <= buses.Keys
        invariant |list| + |rest| == |buses|
        invariant forall i :: 0 <= i < |list| ==>
                    list[i].busId in buses && list[i].busId !in rest && buses[list[i].busId] == list[i]
        invariant forall id :: id in buses && id !in rest ==> buses[id] in list
        invariant forall i, j :: 0 <= i < j < |list| ==> list[i] != list[j]
        decreases rest
      {
        var id :| id in rest;
        list := list + [buses[id]];
        rest := rest - {id};
      }
      forall b | b in buses.Values ensures b in list {
        var id :| id in buses && buses[id] == b;
      }
      forall id | id in buses ensures id in (set b | b in list :: b.busId) {
        assert buses[id] in list;
      }
    }

    /** GET /bus/{id}: the stored record, or 404 when the id is absent. */
    method GetBus(id: string) returns (r: Result<BusStatus>)
      ensures r.Ok? <==> id in buses
      ensures r.Ok? ==> r.value == buses[id]
      ensures r.Err? ==> r.error == NotFound(id)
    {
      if id !in buses {
        return Err(NotFound(id));
      }
      r := Ok(buses[id]);
    }

    /** DELETE /bus/{id}: remove the record and return it, or 404 leaving
        the table as it was. */
    method DeleteBus(id: string) returns (r: Result<Response>)
      requires Valid()
      modifies this
      ensures Valid()
      ensures id !in old(buses) ==> r == Err(NotFound(id)) && buses == old(buses)
      ensures id in old(buses) ==>
                r == Ok(Response("success", "Bus " + id + " removed from tracking", old(buses)[id]))
                && buses == old(buses) - {id}
    {
      if id !in buses {
        return Err(NotFound(id));
      }
      var deleted := buses[id];
      buses := buses - {id};
      r := Ok(Response("success", "Bus " + id + " removed from tracking", deleted));
    }

    /** GET /stats: the fleet summary of the current table. */
    method GetStats(now: Timestamp) returns (s: Stats)
      ensures s == StatsOf(buses, now)
    {
      if buses == map[] {
        return Stats(0, 0, 0, 0, 0, None);
      }
      var passengers, high, moderate, low := 0, 0, 0, 0;
      var rest := buses.Keys;
      while rest != {}
        invariant rest <= buses.Keys
        invariant passengers == TotalPassengers(buses - rest)
        invariant high == CountLabel(buses - rest, HighLabel)
        invariant moderate == CountLabel(buses - rest, ModerateLabel)
        invariant low == CountLabel(buses - rest, LowLabel)
        decreases rest
      {
        var id :| id in rest;
        var bus := buses[id];
        passengers := passengers + bus.count;
        high := high + (if bus.crowdLevel == HighLabel then 1 else 0);
        moderate := moderate + (if bus.crowdLevel == ModerateLabel then 1 else 0);
        low := low + (if bus.crowdLevel == LowLabel then 1 else 0);
        ghost var done := buses - rest;
        rest := rest - {id};
        assert buses - rest == done[id := bus];
        SumOverUpdate(done, PassengersOf, id, bus);
        SumOverUpdate(done, LabelIndicator(HighLabel), id, bus);
        SumOverUpdate(done, LabelIndicator(ModerateLabel), id, bus);
        SumOverUpdate(done, LabelIndicator(LowLabel), id, bus);
      }
      assert buses - rest == buses;
      s := Stats(|buses|, passengers, high, moderate, low, Some(now));
    }
  }
}
