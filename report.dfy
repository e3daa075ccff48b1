/**
 The exported report: the day's per-device statistics, the most recent
 alerts, and a summary of sums and counts over those two lists.
 */
module Reporting {
  import opened Records
  import opened Aggregation

  datatype Summary = Summary(
    totalDailyKwh: real,
    totalDailyCostUsd: real,
    deviceCount: nat,
    anomalyCount: nat)

  datatype Report = Report(
    date: string,
    devices: seq<DeviceStats>,
    recentAnomalies: seq<Alert>,
    summary: Summary,
    exportedAt: string)

  /** The sum of the rows' daily energy. */
  function TotalKwh(stats: seq<DeviceStats>): (kwh: real)
    ensures (forall i :: 0 <= i < |stats| ==> stats[i].dailyKwh >= 0.0) ==> kwh >= 0.0
  {
    if |stats| == 0 then 0.0 else stats[0].dailyKwh + TotalKwh(stats[1..])
  }

  /**
   The sum of the rows' daily cost. When every row's cost is its energy at
   the fixed rate, the total cost is the total energy at that rate.
   */
  function TotalCost(stats: seq<DeviceStats>): (usd: real)
    ensures (forall i :: 0 <= i < |stats| ==> stats[i].dailyCostUsd >= 0.0) ==> usd >= 0.0
    ensures (forall i :: 0 <= i < |stats| ==> stats[i].dailyCostUsd == stats[i].dailyKwh * CostPerKwh) ==>
      usd == TotalKwh(stats) * CostPerKwh
  {
    if |stats| == 0 then 0.0 else stats[0].dailyCostUsd + TotalCost(stats[1..])
  }

  /** The report's summary block. */
  function Summarize(stats: seq<DeviceStats>, anomalies: seq<Alert>): (s: Summary)
    ensures s.deviceCount == |stats| && s.anomalyCount == |anomalies|
    ensures (forall i :: 0 <= i < |stats| ==> stats[i].dailyCostUsd == stats[i].dailyKwh * CostPerKwh) ==>
      s.totalDailyCostUsd == s.totalDailyKwh * CostPerKwh
    ensures (forall i :: 0 <= i < |stats| ==> stats[i].dailyKwh >= 0.0 && stats[i].dailyCostUsd >= 0.0) ==>
      s.totalDailyKwh >= 0.0 && s.totalDailyCostUsd >= 0.0
  {
    Summary(TotalKwh(stats), TotalCost(stats), |stats|, |anomalies|)
  }
}
