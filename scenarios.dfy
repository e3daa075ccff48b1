/**
 Client scenarios: sequences of calls on a fresh monitor and what the
 contracts of the monitor let a caller conclude about them.
 */
module Scenarios {
  import opened Stats
  import opened Records
  import opened Aggregation
  import opened Monitor

  /**
   While every reading of device "a1" draws 100 W, whatever other devices
   draw, a further 100 W reading of "a1" is no anomaly.
   */
  lemma SteadyIsNoAnomaly(rs: seq<Reading>)
    requires forall r :: r in rs && r.deviceId == "a1" ==> r.watts == 100.0
    ensures !IsAnomaly(100.0, History(rs, "a1"))
  {
    HistoryOfSteadyDevice(rs, "a1", 100.0);
    ConstantHistoryNoAnomaly(100.0, History(rs, "a1"), 100.0);
  }

  /** The log after fifteen 100 W readings and one 9999 W reading of device "a1". */
  ghost predicate SpikeLog(rs: seq<Reading>)
  {
    |rs| == 16 &&
    (forall k :: 0 <= k < 16 ==> rs[k].deviceId == "a1") &&
    (forall k :: 0 <= k < 15 ==> rs[k].watts == 100.0) &&
    rs[15].watts == 9999.0
  }

  /** The history of the spike's device holds all sixteen watt values. */
  lemma SpikeHistory(rs: seq<Reading>)
    requires SpikeLog(rs)
    ensures multiset(History(rs, "a1")) == multiset(Repeat(100.0, 15) + [9999.0])
  {
    ReadingsOfSingleDevice(rs, "a1");
    HistorySpec(rs, "a1");
    WattsPermutation(HistoryRows(rs, "a1"), rs);
    SpikeWatts(rs);
  }

  lemma SpikeWatts(rs: seq<Reading>)
    requires SpikeLog(rs)
    ensures Watts(rs) == Repeat(100.0, 15) + [9999.0]
  {
    var flat := Repeat(100.0, 15);
    assert forall k :: 0 <= k < 15 ==> (flat + [9999.0])[k] == flat[k] == 100.0;
  }

  /**
   The spike is anomalous against the history of its device, whose mean is
   718.6875 W.
   */
  lemma SpikeIsAnomaly(rs: seq<Reading>)
    requires SpikeLog(rs)
    ensures IsAnomaly(9999.0, History(rs, "a1"))
    ensures Mean(History(rs, "a1")) == 718.6875
  {
    var h := History(rs, "a1");
    var flat := Repeat(100.0, 15) + [9999.0];
    SpikeHistory(rs);
    AnomalyPermutation(9999.0, h, flat);
    SumsPermutation(h, flat, 0.0);
    SpikeAfterFlatHistory();
    assert |h| == |flat| by { assert |h| == |multiset(h)|; }
  }

  /** `count` readings of 100 W of device "a1" on a fresh monitor raise no alert. */
  method FeedSteady(monitor: EnergyMonitor, count: nat, now: string)
    requires monitor.Valid() && monitor.readings == [] && monitor.alerts == []
    modifies monitor
    ensures monitor.Valid() && |monitor.readings| == count && monitor.alerts == []
    ensures forall k :: 0 <= k < count ==> monitor.readings[k].deviceId == "a1" && monitor.readings[k].watts == 100.0
  {
    var n := 0;
    while n < count
      invariant 0 <= n <= count && monitor.Valid()
      invariant |monitor.readings| == n
      invariant forall k :: 0 <= k < n ==> monitor.readings[k].deviceId == "a1" && monitor.readings[k].watts == 100.0
      invariant monitor.alerts == []
    {
      var steady := new EnergyReading("a1", "PC", 100.0);
      var warned := monitor.AddReading(steady, now, now);
      SteadyIsNoAnomaly(monitor.readings);
      n := n + 1;
    }
  }

  /**
   Fifteen readings of 100 W, then one of 9999 W, all of device "a1": the
   steady readings raise nothing, and the spike raises exactly one anomaly
   alert whose baseline is the mean of all sixteen readings.
   */
  method SpikeScenario(now: string) returns (recent: seq<Alert>)
    ensures |recent| == 1
    ensures recent[0].deviceId == "a1" && recent[0].alertType == Anomaly
    ensures recent[0].watts == 9999.0 && recent[0].baselineWatts == 718.6875
    ensures 1291.28 < recent[0].deviationPct < 1291.29
  {
    var monitor := new EnergyMonitor();
    FeedSteady(monitor, 15, now);
    var spike := new EnergyReading("a1", "PC", 9999.0);
    var warned := monitor.AddReading(spike, now, now);

    SpikeIsAnomaly(monitor.readings);

    recent := monitor.GetAnomalies(5);
  }

  /**
   A first reading of a fresh device is stored with id 1 and the clock's
   timestamp, and raises no alert.
   */
  method FirstReadingScenario(now: string) returns (stored: nat, id: Option<int>, timestamp: Option<string>, alertCount: nat)
    ensures stored == 1 && id == Some(1) && timestamp == Some(now) && alertCount == 0
  {
    var monitor := new EnergyMonitor();
    var reading := new EnergyReading("d1", "AC", 1500.0);
    var warned := monitor.AddReading(reading, now, now);
    HistorySpec(monitor.readings, "d1");
    ShortHistoryNoAnomaly(1500.0, History(monitor.readings, "d1"));
    stored, id, timestamp, alertCount := |monitor.readings|, reading.id, reading.timestamp, |monitor.alerts|;
  }

  /**
   One 3000 W reading taken today: today's usage is one row of 72 kWh
   costing 8.64 USD.
   */
  method OvenScenario(now: string, today: string) returns (stats: seq<DeviceStats>)
    requires today <= now
    ensures stats == [DeviceStats("c1", "Oven", "default", 3000.0, 3000.0, 3000.0, 72.0, 8.64, 1, now)]
  {
    var monitor := new EnergyMonitor();
    var oven := new EnergyReading("c1", "Oven", 3000.0);
    var warned := monitor.AddReading(oven, now, now);
    stats := monitor.GetDailyUsage(today);
    OvenDay(today, now);
  }

  /** A fresh monitor lists no alerts. */
  method NoAlertsScenario() returns (recent: seq<Alert>)
    ensures recent == []
  {
    var monitor := new EnergyMonitor();
    recent := monitor.GetAnomalies();
  }

  /**
   Registering the same device id twice: the first call adds it, the second
   is refused quietly and the registry keeps the first registration.
   */
  method DuplicateDeviceScenario(now: string, later: string) returns (first: bool, second: bool, registered: map<string, Device>)
    ensures first && !second
    ensures registered == map["dup" := Device("Dup", "room", 0.0, now)]
  {
    var monitor := new EnergyMonitor();
    first := monitor.AddDevice("dup", "Dup", now, "room");
    second := monitor.AddDevice("dup", "Dup", later, "room");
    registered := monitor.devices;
  }
}
