/**
 The energy monitor: an in-memory stand-in for its three tables (readings,
 devices, alerts) with the AUTOINCREMENT counters of the two logs. Readings
 and alerts are only ever appended; a device is inserted once and never
 changed. Clock values are parameters of the operations that read the clock.
 */
module Monitor {
  import opened Timestamps
  import opened Recency
  import opened Stats
  import opened Records
  import opened Aggregation
  import opened Reporting

  /** The anomaly history holds at most this many of the device's newest readings. */
  const HistoryLimit: nat := 100
  /** The default number of recent alerts listed, which the exported report uses. */
  const DefaultAlertLimit: int := 20

  /** `SELECT ... FROM readings WHERE device_id = ?`, in table order. */
  function ReadingsOf(rs: seq<Reading>, deviceId: string): (own: seq<Reading>)
    ensures forall r :: r in own <==> r in rs && r.deviceId == deviceId
  {
    if |rs| == 0 then []
    else
      var front := ReadingsOf(rs[..|rs| - 1], deviceId);
      var last := rs[|rs| - 1];
      assert rs == rs[..|rs| - 1] + [last];
      if last.deviceId == deviceId then front + [last] else front
  }

  /** The rows of `ORDER BY timestamp DESC LIMIT 100` over the device's readings. */
  function HistoryRows(rs: seq<Reading>, deviceId: string): (h: seq<Reading>)
    ensures |h| <= HistoryLimit
    ensures multiset(h) <= multiset(ReadingsOf(rs, deviceId))
    ensures forall r :: r in h ==> r in rs && r.deviceId == deviceId
  {
    var own := ReadingsOf(rs, deviceId);
    var h := Newest(own, HistoryLimit, TimeOf);
    assert forall r :: r in h ==> r in own by {
      forall r | r in h ensures r in own {
        assert multiset(h)[r] > 0;
      }
    }
    h
  }

  /** The watts of the device's anomaly history. */
  function History(rs: seq<Reading>, deviceId: string): (h: seq<real>)
    ensures |h| <= HistoryLimit
  {
    Watts(HistoryRows(rs, deviceId))
  }

  /** `reading.timestamp or utcnow()`: a missing or empty timestamp takes the clock's. */
  function StampOr(timestamp: Option<string>, now: string): (ts: string)
    ensures timestamp.Some? && timestamp.value != "" ==> ts == timestamp.value
    ensures timestamp.None? || timestamp.value == "" ==> ts == now
  {
    match timestamp
    case Some(t) => if t == "" then now else t
    case None => now
  }

  /** `date_str or today`: a missing or empty date means today. */
  function DateOr(date: Option<string>, today: string): (d: string)
    ensures date.Some? && date.value != "" ==> d == date.value
    ensures date.None? || date.value == "" ==> d == today
  {
    match date
    case Some(s) => if s == "" then today else s
    case None => today
  }

  /** The threshold warning: a registered positive threshold that the reading exceeds. */
  predicate ThresholdExceeded(devices: map<string, Device>, deviceId: string, watts: real)
    ensures ThresholdExceeded(devices, deviceId, watts) ==> deviceId in devices && watts > 0.0
  {
    deviceId in devices &&
    devices[deviceId].thresholdWatts > 0.0 &&
    watts > devices[deviceId].thresholdWatts
  }

  /**
   The summary of a day's statistics: its cost total is its energy total at
   the fixed rate, and neither is negative when no reading is.
   */
  lemma DailyTotals(rs: seq<Reading>, today: string, anomalies: seq<Alert>)
    ensures var s := Summarize(DailyUsage(rs, today, None), anomalies);
      && s.totalDailyCostUsd == s.totalDailyKwh * CostPerKwh
      && ((forall r :: r in rs ==> r.watts >= 0.0) ==> s.totalDailyKwh >= 0.0 && s.totalDailyCostUsd >= 0.0)
  {
    if forall r :: r in rs ==> r.watts >= 0.0 {
      DailyUsageNonNegative(rs, today, None);
    }
  }

  /** The alert row an anomalous reading produces. */
  function AnomalyAlert(id: int, row: Reading, history: seq<real>, createdAt: string): (a: Alert)
    requires |history| > 0
    ensures a.deviceId == row.deviceId && a.watts == row.watts && a.alertType == Anomaly
    ensures a.baselineWatts == Mean(history)
    ensures a.deviationPct == Deviation(row.watts, Mean(history))
  {
    var baseline := Mean(history);
    Alert(id, row.deviceId, row.deviceName, Anomaly, row.watts, baseline,
          Deviation(row.watts, baseline), createdAt)
  }

  // ---- the anomaly history ----

  /** No row of the log occurs twice (their ids differ). */
  ghost predicate Distinct(rs: seq<Reading>)
  {
    forall i, j :: 0 <= i < j < |rs| ==> rs[i] != rs[j]
  }

  lemma {:induction false} ReadingsOfDistinct(rs: seq<Reading>, deviceId: string)
    requires Distinct(rs)
    ensures Distinct(ReadingsOf(rs, deviceId))
  {
    if |rs| > 0 {
      var front := rs[..|rs| - 1];
      assert Distinct(front);
      ReadingsOfDistinct(front, deviceId);
      assert rs[|rs| - 1] !in front;
    }
  }

  /**
   The history is at most the 100 newest readings of the device, each at most
   as often as the log holds it, and all of them when there are no more than
   100.
   */
  lemma HistorySpec(rs: seq<Reading>, deviceId: string)
    ensures var own := ReadingsOf(rs, deviceId);
            var h := HistoryRows(rs, deviceId);
      && |h| == (if |own| <= HistoryLimit then |own| else HistoryLimit)
      && (forall r :: r in h ==> r in rs && r.deviceId == deviceId)
      && multiset(h) <= multiset(own)
      && (|own| <= HistoryLimit ==> multiset(h) == multiset(own))
      && NewestFirst(h, TimeOf)
  {
    var own := ReadingsOf(rs, deviceId);
    var h := HistoryRows(rs, deviceId);
    NewestSpec(own, HistoryLimit, TimeOf);
    forall r | r in h ensures r in rs && r.deviceId == deviceId {
      assert r in multiset(own);
    }
  }

  /** A reading of the device that the history leaves out is never newer than one it keeps. */
  lemma HistoryKeepsNewest(rs: seq<Reading>, deviceId: string, x: Reading, y: Reading)
    requires Distinct(rs)
    requires x in rs && x.deviceId == deviceId
    requires x !in HistoryRows(rs, deviceId) && y in HistoryRows(rs, deviceId)
    ensures TextLe(x.timestamp, y.timestamp)
  {
    var own := ReadingsOf(rs, deviceId);
    var h := HistoryRows(rs, deviceId);
    NewestSpec(own, HistoryLimit, TimeOf);
    ReadingsOfDistinct(rs, deviceId);
    assert x in own;
    var i :| 0 <= i < |own| && own[i] == x;
    MultisetOfDistinctIsOne(own, i);
    assert multiset(h)[x] == 0;
    assert x in multiset(own) - multiset(h);
    assert TextLe(TimeOf(x), TimeOf(y));
  }

  lemma {:induction false} MultisetOfDistinctIsOne(s: seq<Reading>, i: nat)
    requires Distinct(s) && i < |s|
    ensures multiset(s)[s[i]] == 1
  {
    if i == 0 {
      assert s == [s[0]] + s[1..];
      assert s[0] !in s[1..];
    } else {
      assert s == [s[0]] + s[1..];
      assert Distinct(s[1..]);
      MultisetOfDistinctIsOne(s[1..], i - 1);
    }
  }

  /**
   The reading just stored is part of its own history whenever the device has
   at most 100 readings, or the new reading is strictly newer than every
   other reading of the device.
   */
  lemma NewReadingInHistory(rs: seq<Reading>, x: Reading)
    requires Distinct(rs + [x])
    requires |ReadingsOf(rs + [x], x.deviceId)| <= HistoryLimit ||
      forall r :: r in rs && r.deviceId == x.deviceId ==> !TextLe(x.timestamp, r.timestamp)
    ensures x in HistoryRows(rs + [x], x.deviceId)
  {
    var all := rs + [x];
    var own := ReadingsOf(all, x.deviceId);
    var h := HistoryRows(all, x.deviceId);
    HistorySpec(all, x.deviceId);
    assert x in all;
    if |own| <= HistoryLimit {
      assert x in multiset(own);
    } else {
      var y := h[0];
      assert y in all && y.deviceId == x.deviceId;
      if y == x {
      } else {
        assert y in rs by {
          var j :| 0 <= j < |all| && all[j] == y;
          assert j < |rs|;
        }
        assert !TextLe(x.timestamp, y.timestamp);
        if x !in h {
          HistoryKeepsNewest(all, x.deviceId, x, y);
          assert false;
        }
      }
    }
  }

  /** When every reading in the log is of one device, that device's readings are the log. */
  lemma {:induction false} ReadingsOfSingleDevice(rs: seq<Reading>, deviceId: string)
    requires forall i :: 0 <= i < |rs| ==> rs[i].deviceId == deviceId
    ensures ReadingsOf(rs, deviceId) == rs
  {
    if |rs| > 0 {
      ReadingsOfSingleDevice(rs[..|rs| - 1], deviceId);
      assert rs == rs[..|rs| - 1] + [rs[|rs| - 1]];
    }
  }

  /** A device whose readings all draw `c` watts has a history of `c`s only. */
  lemma HistoryOfSteadyDevice(rs: seq<Reading>, deviceId: string, c: real)
    requires forall r :: r in rs && r.deviceId == deviceId ==> r.watts == c
    ensures forall i :: 0 <= i < |History(rs, deviceId)| ==> History(rs, deviceId)[i] == c
  {
    HistorySpec(rs, deviceId);
    var h := HistoryRows(rs, deviceId);
    forall i | 0 <= i < |h| ensures h[i].watts == c {
      assert h[i] in h;
    }
  }

  // ---- the monitor ----

  /**
   Ids are handed out 1, 2, 3, ... in insertion order, the counters hold the
   next ids, and every alert is about a device that has a reading.
   */
  ghost predicate Consistent(readings: seq<Reading>, alerts: seq<Alert>, nextReadingId: int, nextAlertId: int)
  {
    nextReadingId == |readings| + 1 &&
    (forall i :: 0 <= i < |readings| ==> readings[i].id == i + 1) &&
    nextAlertId == |alerts| + 1 &&
    (forall i :: 0 <= i < |alerts| ==> alerts[i].id == i + 1) &&
    (forall i :: 0 <= i < |alerts| ==> alerts[i].deviceId in DeviceIdsOf(readings))
  }

  /** The device ids of the readings, in table order. */
  function DeviceIdsOf(rs: seq<Reading>): (ids: seq<string>)
    ensures forall d :: d in ids <==> exists r :: r in rs && r.deviceId == d
  {
    if |rs| == 0 then []
    else
      var front := rs[..|rs| - 1];
      assert rs == front + [rs[|rs| - 1]];
      DeviceIdsOf(front) + [rs[|rs| - 1].deviceId]
  }

  /** Appending a reading with the next id keeps the tables consistent. */
  lemma ConsistentAfterReading(rs: seq<Reading>, alerts: seq<Alert>, nextReadingId: int, nextAlertId: int, row: Reading)
    requires Consistent(rs, alerts, nextReadingId, nextAlertId) && row.id == nextReadingId
    ensures Consistent(rs + [row], alerts, nextReadingId + 1, nextAlertId)
  {
    var rs' := rs + [row];
    forall i | 0 <= i < |rs'| ensures rs'[i].id == i + 1 {
      if i < |rs| {
        assert rs'[i] == rs[i];
      }
    }
    assert rs'[..|rs|] == rs;
    assert DeviceIdsOf(rs') == DeviceIdsOf(rs) + [row.deviceId];
  }

  /** Appending an alert with the next id about the newest reading's device keeps the tables consistent. */
  lemma ConsistentAfterAlert(rs: seq<Reading>, alerts: seq<Alert>, nextReadingId: int, nextAlertId: int, alert: Alert)
    requires Consistent(rs, alerts, nextReadingId, nextAlertId)
    requires alert.id == nextAlertId && |rs| > 0 && alert.deviceId == rs[|rs| - 1].deviceId
    ensures Consistent(rs, alerts + [alert], nextReadingId, nextAlertId + 1)
  {
    assert alert.deviceId in DeviceIdsOf(rs);
  }

  class EnergyMonitor {
    /** The readings table, in insertion order. */
    var readings: seq<Reading>
    /** The devices table. */
    var devices: map<string, Device>
    /** The alerts table, in insertion order. */
    var alerts: seq<Alert>
    /** The AUTOINCREMENT counters of the readings and alerts tables. */
    var nextReadingId: int
    var nextAlertId: int

    /** The tables and counters are consistent. */
    ghost predicate Valid()
      reads this
    {
      Consistent(readings, alerts, nextReadingId, nextAlertId)
    }

    lemma ValidDistinct()
      requires Valid()
      ensures Distinct(readings)
    {
      forall i, j | 0 <= i < j < |readings| ensures readings[i] != readings[j] {
        assert readings[i].id != readings[j].id;
      }
    }

    /** A monitor over empty tables. */
    constructor ()
      ensures Valid()
      ensures readings == [] && devices == map[] && alerts == []
    {
      readings := [];
      devices := map[];
      alerts := [];
      nextReadingId := 1;
      nextAlertId := 1;
    }

    /**
     Registers a device unless its id is taken; a duplicate id leaves the
     registry as it was and is reported through `added`, not as an error.
     */
    method AddDevice(deviceId: string, deviceName: string, now: string,
                     location: string := "default", thresholdWatts: real := 0.0)
      returns (added: bool)
      requires Valid()
      modifies this
      ensures Valid()
      ensures added <==> deviceId !in old(devices)
      ensures devices == if added then old(devices)[deviceId := Device(deviceName, location, thresholdWatts, now)]
                         else old(devices)
      ensures readings == old(readings) && alerts == old(alerts)
      ensures nextReadingId == old(nextReadingId) && nextAlertId == old(nextAlertId)
    {
      added := deviceId !in devices;
      if added {
        devices := devices[deviceId := Device(deviceName, location, thresholdWatts, now)];
      }
    }

    /**
     Stores a reading, fills in its timestamp (from `now` when it has none)
     and its id, then runs the anomaly check over the device's history, which
     already holds the new reading. An anomaly appends one alert stamped
     `alertNow`. The threshold check only warns: `thresholdWarning` says
     whether it did, and it writes nothing.
     */
    method AddReading(reading: EnergyReading, now: string, alertNow: string)
      returns (thresholdWarning: bool)
      requires Valid()
      modifies this, reading
      ensures Valid()
      ensures reading.timestamp == Some(StampOr(old(reading.timestamp), now))
      ensures reading.id == Some(old(nextReadingId))
      ensures forall r :: r in old(readings) ==> r.id < reading.id.value
      ensures readings == old(readings) + [Reading(reading.id.value, reading.deviceId, reading.deviceName,
                                                   reading.watts, reading.location, reading.timestamp.value)]
      ensures IsAnomaly(reading.watts, History(readings, reading.deviceId)) ==>
        alerts == old(alerts) + [AnomalyAlert(old(nextAlertId), readings[|readings| - 1],
                                              History(readings, reading.deviceId), alertNow)]
      ensures !IsAnomaly(reading.watts, History(readings, reading.deviceId)) ==> alerts == old(alerts)
      ensures devices == old(devices)
      ensures thresholdWarning == ThresholdExceeded(devices, reading.deviceId, reading.watts)
    {
      var stamp := StampOr(reading.timestamp, now);
      var row := Reading(nextReadingId, reading.deviceId, reading.deviceName,
                         reading.watts, reading.location, stamp);
      reading.timestamp := Some(stamp);
      reading.id := Some(nextReadingId);
      ConsistentAfterReading(readings, alerts, nextReadingId, nextAlertId, row);
      readings := readings + [row];
      nextReadingId := nextReadingId + 1;

      CheckAnomaly(row, alertNow);

      if reading.deviceId in devices {
        var threshold := devices[reading.deviceId].thresholdWatts;
        thresholdWarning := threshold > 0.0 && reading.watts > threshold;
      } else {
        thresholdWarning := false;
      }
    }

    /**
     The anomaly check of the reading just stored, `row`: against the
     device's history, which already holds `row`, an anomalous reading
     appends one alert stamped `alertNow`; otherwise nothing changes.
     */
    method CheckAnomaly(row: Reading, alertNow: string)
      requires Valid() && |readings| > 0 && readings[|readings| - 1] == row
      modifies this
      ensures Valid()
      ensures readings == old(readings) && devices == old(devices) && nextReadingId == old(nextReadingId)
      ensures IsAnomaly(row.watts, History(readings, row.deviceId)) ==>
        alerts == old(alerts) + [AnomalyAlert(old(nextAlertId), row, History(readings, row.deviceId), alertNow)]
      ensures !IsAnomaly(row.watts, History(readings, row.deviceId)) ==> alerts == old(alerts)
    {
      var history := History(readings, row.deviceId);
      if |history| >= MinHistory {
        var baseline := Mean(history);
        var variance := Variance(history);
        if variance > 0.0 && Square(row.watts - baseline) > 4.0 * variance {
          var alert := AnomalyAlert(nextAlertId, row, history, alertNow);
          ConsistentAfterAlert(readings, alerts, nextReadingId, nextAlertId, alert);
          alerts := alerts + [alert];
          nextAlertId := nextAlertId + 1;
        }
      }
    }

    /**
     The day's per-device statistics: readings whose timestamp begins with the
     date (today's when none is given), of one device when one is given.
     */
    method GetDailyUsage(today: string, deviceId: Option<string> := None, dateStr: Option<string> := None)
      returns (stats: seq<DeviceStats>)
      ensures stats == DailyUsage(readings, DateOr(dateStr, today), deviceId)
      ensures var sel := Select(readings, DateOr(dateStr, today), deviceId);
        forall i :: 0 <= i < |stats| ==> Describes(stats[i], Group(sel, StatsKey(stats[i])))
    {
      var date := DateOr(dateStr, today);
      var rows := GroupRows(Select(readings, date, deviceId));
      stats := [];
      for i := 0 to |rows|
        invariant stats == StatsOf(rows[..i])
      {
        var row := rows[i];
        var kwh := (row.avgWatts * 24.0) / 1000.0;
        var cost := kwh * CostPerKwh;
        var next := DeviceStats(row.key.deviceId, row.key.deviceName, row.key.location,
                                row.avgWatts, row.maxWatts, row.minWatts,
                                kwh, cost, row.count, row.lastTs);
        assert next == ToStats(row);
        StatsOfStep(rows, i);
        stats := stats + [next];
      }
      assert rows[..|rows|] == rows;
      DailyUsageRowsDescribe(readings, date, deviceId);
    }

    /**
     The `limit` most recent alerts, newest first; every alert when `limit`
     is negative.
     */
    method GetAnomalies(limit: int := DefaultAlertLimit) returns (recent: seq<Alert>)
      ensures recent == Newest(alerts, limit, CreatedAt)
      ensures limit >= 0 ==> |recent| <= limit
      ensures |alerts| <= limit ==> |recent| == |alerts|
      ensures multiset(recent) <= multiset(alerts)
      ensures NewestFirst(recent, CreatedAt)
      ensures alerts == [] ==> recent == []
    {
      NewestSpec(alerts, limit, CreatedAt);
      recent := Newest(alerts, limit, CreatedAt);
    }

    /**
     The report for `today`: all of today's device statistics, the 20 most
     recent alerts, and the summary over both.
     */
    method ExportReport(today: string, now: string) returns (report: Report)
      ensures var usage := DailyUsage(readings, today, None);
              var recent := Newest(alerts, DefaultAlertLimit, CreatedAt);
        report == Report(today, usage, recent, Summarize(usage, recent), now)
      ensures report.summary.deviceCount == |report.devices|
      ensures report.summary.anomalyCount <= 20
      ensures report.summary.totalDailyCostUsd == report.summary.totalDailyKwh * CostPerKwh
      ensures (forall r :: r in readings ==> r.watts >= 0.0) ==>
        report.summary.totalDailyKwh >= 0.0 && report.summary.totalDailyCostUsd >= 0.0
    {
      var stats := GetDailyUsage(today);
      var anomalies := GetAnomalies();
      DailyTotals(readings, today, anomalies);
      report := Report(today, stats, anomalies, Summarize(stats, anomalies), now);
    }
  }
}
