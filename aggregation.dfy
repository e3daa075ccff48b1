/**
 Daily usage: the readings whose timestamp begins with a date, optionally of
 one device, grouped by (device id, device name, location). Each group gives
 one row with the mean, largest and smallest draw, the number of readings and
 the latest timestamp; the row's daily energy treats the mean draw as constant
 over 24 hours, and its cost applies a fixed rate per kWh.
 */
module Aggregation {
  import opened Timestamps
  import opened Stats
  import opened Records

  const HoursPerDay: real := 24.0
  /** USD per kWh. */
  const CostPerKwh: real := 0.12

  /** The energy of a day at a constant draw of `avgWatts`, in kWh. */
  function DailyKwh(avgWatts: real): (kwh: real)
    ensures kwh * 1000.0 == avgWatts * HoursPerDay
  {
    (avgWatts * HoursPerDay) / 1000.0
  }

  /** The cost of `kwh` kilowatt-hours, in USD. */
  function DailyCost(kwh: real): (usd: real)
    ensures kwh >= 0.0 ==> usd >= 0.0
    ensures usd * 100.0 == kwh * 12.0
  {
    kwh * CostPerKwh
  }

  /** The `GROUP BY device_id, device_name, location` key of a reading. */
  datatype GroupKey = GroupKey(deviceId: string, deviceName: string, location: string)

  function KeyOf(r: Reading): GroupKey
  {
    GroupKey(r.deviceId, r.deviceName, r.location)
  }

  /**
   The `WHERE` clause: the timestamp begins with the date, and when a device
   id is given (and not empty) the reading is of that device.
   */
  predicate Matches(r: Reading, date: string, device: Option<string>)
    ensures Matches(r, date, device) ==> TextLe(date, r.timestamp)
  {
    if date <= r.timestamp then
      PrefixIsTextLe(date, r.timestamp);
      device.None? || device.value == "" || r.deviceId == device.value
    else false
  }

  /** The readings the `WHERE` clause keeps, in table order. */
  function Select(rs: seq<Reading>, date: string, device: Option<string>): (sel: seq<Reading>)
    ensures forall r :: r in sel <==> r in rs && Matches(r, date, device)
    ensures forall r :: multiset(sel)[r] == if Matches(r, date, device) then multiset(rs)[r] else 0
  {
    if |rs| == 0 then []
    else
      var front := Select(rs[..|rs| - 1], date, device);
      var last := rs[|rs| - 1];
      assert rs == rs[..|rs| - 1] + [last];
      assert multiset(rs) == multiset(rs[..|rs| - 1]) + multiset{last};
      if Matches(last, date, device) then front + [last] else front
  }

  /** The distinct group keys of `rs`, in order of first appearance. */
  function Keys(rs: seq<Reading>): (ks: seq<GroupKey>)
    ensures forall i, j :: 0 <= i < j < |ks| ==> ks[i] != ks[j]
    ensures forall k :: k in ks <==> exists i :: 0 <= i < |rs| && KeyOf(rs[i]) == k
  {
    if |rs| == 0 then []
    else
      var front := rs[..|rs| - 1];
      var prev := Keys(front);
      var k := KeyOf(rs[|rs| - 1]);
      assert forall i :: 0 <= i < |front| ==> front[i] == rs[i];
      if k in prev then prev else prev + [k]
  }

  /** The readings of `rs` in the group of key `k`, in table order. */
  function Group(rs: seq<Reading>, k: GroupKey): (g: seq<Reading>)
    ensures forall r :: r in g <==> r in rs && KeyOf(r) == k
    ensures forall r :: multiset(g)[r] == if KeyOf(r) == k then multiset(rs)[r] else 0
  {
    if |rs| == 0 then []
    else
      var front := Group(rs[..|rs| - 1], k);
      var last := rs[|rs| - 1];
      assert rs == rs[..|rs| - 1] + [last];
      assert multiset(rs) == multiset(rs[..|rs| - 1]) + multiset{last};
      if KeyOf(last) == k then front + [last] else front
  }

  /** A key of `rs` has a non-empty group. */
  lemma GroupOfKeyNonEmpty(rs: seq<Reading>, k: GroupKey)
    requires k in Keys(rs)
    ensures |Group(rs, k)| > 0
  {
    var i :| 0 <= i < |rs| && KeyOf(rs[i]) == k;
    assert rs[i] in Group(rs, k);
  }

  /** One row of the `SELECT ... GROUP BY` result. */
  datatype GroupRow = GroupRow(
    key: GroupKey,
    avgWatts: real,
    maxWatts: real,
    minWatts: real,
    count: nat,
    lastTs: string)

  /** `AVG`, `MAX`, `MIN`, `COUNT(*)` and `MAX(timestamp)` of one group. */
  function Aggregate(k: GroupKey, g: seq<Reading>): (row: GroupRow)
    requires |g| > 0
    ensures row.key == k && row.count == |g|
    ensures row.minWatts <= row.avgWatts <= row.maxWatts
    ensures forall r :: r in g ==> row.minWatts <= r.watts <= row.maxWatts
  {
    MinMeanMax(Watts(g));
    assert forall i :: 0 <= i < |g| ==> Watts(g)[i] == g[i].watts;
    GroupRow(k, Mean(Watts(g)), Max(Watts(g)), Min(Watts(g)), |g|, Latest(Stamps(g)))
  }

  /** The query row of one group key of the selected readings. */
  function KeyRow(sel: seq<Reading>, k: GroupKey): (row: GroupRow)
    requires k in Keys(sel)
    ensures row.key == k && row.count > 0
  {
    GroupOfKeyNonEmpty(sel, k);
    Aggregate(k, Group(sel, k))
  }

  /** The result of the grouped query over the selected readings. */
  function GroupRows(sel: seq<Reading>): (rows: seq<GroupRow>)
    ensures |rows| == |Keys(sel)|
    ensures forall i :: 0 <= i < |rows| ==> rows[i].key == Keys(sel)[i] && rows[i].count > 0
  {
    var ks := Keys(sel);
    seq(|ks|, i requires 0 <= i < |ks| => KeyRow(sel, ks[i]))
  }

  /** The per-device statistics the monitor reports for one day. */
  datatype DeviceStats = DeviceStats(
    deviceId: string,
    deviceName: string,
    location: string,
    avgWatts: real,
    maxWatts: real,
    minWatts: real,
    dailyKwh: real,
    dailyCostUsd: real,
    readingCount: nat,
    lastReadingAt: string)

  function StatsKey(s: DeviceStats): GroupKey
  {
    GroupKey(s.deviceId, s.deviceName, s.location)
  }

  /** One turn of the loop that turns query rows into statistics. */
  function ToStats(row: GroupRow): (s: DeviceStats)
    ensures StatsKey(s) == row.key && s.readingCount == row.count
    ensures s.dailyCostUsd == s.dailyKwh * CostPerKwh
    ensures row.avgWatts >= 0.0 ==> s.dailyKwh >= 0.0 && s.dailyCostUsd >= 0.0
  {
    var kwh := DailyKwh(row.avgWatts);
    DeviceStats(row.key.deviceId, row.key.deviceName, row.key.location,
                row.avgWatts, row.maxWatts, row.minWatts,
                kwh, DailyCost(kwh), row.count, row.lastTs)
  }

  /** The statistics of some query rows, in row order. */
  function StatsOf(rows: seq<GroupRow>): (out: seq<DeviceStats>)
    ensures |out| == |rows|
    ensures forall i :: 0 <= i < |rows| ==> out[i] == ToStats(rows[i])
  {
    if |rows| == 0 then [] else StatsOf(rows[..|rows| - 1]) + [ToStats(rows[|rows| - 1])]
  }

  /** One more query row adds its statistics at the end. */
  lemma StatsOfStep(rows: seq<GroupRow>, i: nat)
    requires i < |rows|
    ensures StatsOf(rows[..i + 1]) == StatsOf(rows[..i]) + [ToStats(rows[i])]
  {
    assert rows[..i + 1][..i] == rows[..i];
  }

  /** `get_daily_usage` for a date and an optional device filter. */
  function DailyUsage(rs: seq<Reading>, date: string, device: Option<string>): (out: seq<DeviceStats>)
    ensures var ks := Keys(Select(rs, date, device));
      && |out| == |ks|
      && forall i :: 0 <= i < |out| ==>
           && StatsKey(out[i]) == ks[i]
           && out[i].readingCount > 0
           && out[i].dailyCostUsd == out[i].dailyKwh * CostPerKwh
  {
    StatsOf(GroupRows(Select(rs, date, device)))
  }

  /** What a statistics row states about the group of readings it summarises. */
  ghost predicate Describes(s: DeviceStats, g: seq<Reading>)
  {
    |g| > 0 &&
    s.readingCount == |g| &&
    s.avgWatts == Mean(Watts(g)) &&
    s.minWatts <= s.avgWatts <= s.maxWatts &&
    (exists r :: r in g && r.watts == s.maxWatts) &&
    (exists r :: r in g && r.watts == s.minWatts) &&
    (forall r :: r in g ==> s.minWatts <= r.watts <= s.maxWatts) &&
    (exists r :: r in g && r.timestamp == s.lastReadingAt) &&
    (forall r :: r in g ==> TextLe(r.timestamp, s.lastReadingAt)) &&
    s.dailyKwh == s.avgWatts * HoursPerDay / 1000.0 &&
    s.dailyCostUsd == s.dailyKwh * CostPerKwh
  }

  lemma AggregateDescribes(k: GroupKey, g: seq<Reading>)
    requires |g| > 0
    ensures Describes(ToStats(Aggregate(k, g)), g)
  {
    var s := ToStats(Aggregate(k, g));
    var ws, ts := Watts(g), Stamps(g);
    MinMeanMax(ws);
    var i :| 0 <= i < |ws| && ws[i] == Max(ws);
    assert g[i] in g && g[i].watts == s.maxWatts;
    i :| 0 <= i < |ws| && ws[i] == Min(ws);
    assert g[i] in g && g[i].watts == s.minWatts;
    i :| 0 <= i < |ts| && ts[i] == Latest(ts);
    assert g[i] in g && g[i].timestamp == s.lastReadingAt;
    forall r | r in g ensures s.minWatts <= r.watts <= s.maxWatts && TextLe(r.timestamp, s.lastReadingAt) {
      var j :| 0 <= j < |g| && g[j] == r;
      assert ws[j] == r.watts && ts[j] == r.timestamp;
    }
  }

  /** Row `i` of the daily usage is the statistics of the `i`-th group key. */
  lemma DailyUsageAt(rs: seq<Reading>, date: string, device: Option<string>, i: nat)
    requires i < |DailyUsage(rs, date, device)|
    ensures var sel := Select(rs, date, device);
            var row := DailyUsage(rs, date, device)[i];
      && i < |Keys(sel)|
      && StatsKey(row) == Keys(sel)[i]
      && Describes(row, Group(sel, Keys(sel)[i]))
  {
    var sel := Select(rs, date, device);
    var ks := Keys(sel);
    GroupOfKeyNonEmpty(sel, ks[i]);
    AggregateDescribes(ks[i], Group(sel, ks[i]));
  }

  /** Every row of the daily usage describes the selected readings of its key. */
  lemma DailyUsageRowsDescribe(rs: seq<Reading>, date: string, device: Option<string>)
    ensures var sel := Select(rs, date, device);
            var out := DailyUsage(rs, date, device);
      forall i :: 0 <= i < |out| ==> Describes(out[i], Group(sel, StatsKey(out[i])))
  {
    var out := DailyUsage(rs, date, device);
    forall i | 0 <= i < |out|
      ensures Describes(out[i], Group(Select(rs, date, device), StatsKey(out[i])))
    {
      DailyUsageAt(rs, date, device, i);
    }
  }

  /** No two rows of the daily usage have the same group key. */
  lemma DailyUsageDistinct(rs: seq<Reading>, date: string, device: Option<string>)
    ensures var out := DailyUsage(rs, date, device);
      forall i, j :: 0 <= i < j < |out| ==> StatsKey(out[i]) != StatsKey(out[j])
  {
  }

  /** Every selected reading has the row of its key in the daily usage. */
  lemma DailyUsageCovers(rs: seq<Reading>, date: string, device: Option<string>)
    ensures var out := DailyUsage(rs, date, device);
      forall r :: r in rs && Matches(r, date, device) ==>
        exists i :: 0 <= i < |out| && StatsKey(out[i]) == KeyOf(r)
  {
    var sel := Select(rs, date, device);
    var ks := Keys(sel);
    var out := DailyUsage(rs, date, device);
    forall r | r in rs && Matches(r, date, device)
      ensures exists i :: 0 <= i < |out| && StatsKey(out[i]) == KeyOf(r)
    {
      var j :| 0 <= j < |sel| && sel[j] == r;
      assert KeyOf(r) in ks;
      var i :| 0 <= i < |ks| && ks[i] == KeyOf(r);
      assert StatsKey(out[i]) == KeyOf(r);
    }
  }

  /**
   The readings a row summarises are the readings of the log that match the
   day and the device filter and have the row's key, each as often as in the
   log; so a row's reading count is the number of those readings.
   */
  lemma DailyUsageGroups(rs: seq<Reading>, date: string, device: Option<string>)
    ensures var sel := Select(rs, date, device);
            var out := DailyUsage(rs, date, device);
      forall i, r :: 0 <= i < |out| ==>
        multiset(Group(sel, StatsKey(out[i])))[r] ==
          if Matches(r, date, device) && KeyOf(r) == StatsKey(out[i]) then multiset(rs)[r] else 0
    ensures var sel := Select(rs, date, device);
            var out := DailyUsage(rs, date, device);
      forall i :: 0 <= i < |out| ==> out[i].readingCount == |multiset(Group(sel, StatsKey(out[i])))|
  {
    DailyUsageRowsDescribe(rs, date, device);
  }

  /**
   The daily usage has exactly one row per group key among the selected
   readings (no key twice, none missing, none invented), and each row
   describes the selected readings of its key (which `DailyUsageGroups`
   relates to the log).
   */
  lemma DailyUsageSpec(rs: seq<Reading>, date: string, device: Option<string>)
    ensures var out := DailyUsage(rs, date, device);
      forall i, j :: 0 <= i < j < |out| ==> StatsKey(out[i]) != StatsKey(out[j])
    ensures var out := DailyUsage(rs, date, device);
      forall r :: r in rs && Matches(r, date, device) ==>
        exists i :: 0 <= i < |out| && StatsKey(out[i]) == KeyOf(r)
    ensures var sel := Select(rs, date, device);
            var out := DailyUsage(rs, date, device);
      forall i :: 0 <= i < |out| ==> Describes(out[i], Group(sel, StatsKey(out[i])))
  {
    DailyUsageDistinct(rs, date, device);
    DailyUsageCovers(rs, date, device);
    DailyUsageRowsDescribe(rs, date, device);
  }

  /** Every row's last reading time sorts no earlier than the queried date. */
  lemma DailyUsageAfterDate(rs: seq<Reading>, date: string, device: Option<string>)
    ensures var out := DailyUsage(rs, date, device);
      forall i :: 0 <= i < |out| ==> TextLe(date, out[i].lastReadingAt)
  {
    var sel := Select(rs, date, device);
    var out := DailyUsage(rs, date, device);
    forall i | 0 <= i < |out| ensures TextLe(date, out[i].lastReadingAt) {
      DailyUsageAt(rs, date, device, i);
      var r :| r in Group(sel, StatsKey(out[i])) && r.timestamp == out[i].lastReadingAt;
      assert Matches(r, date, device);
    }
  }

  /** With no negative draw in the log, no day has negative energy or cost. */
  lemma DailyUsageNonNegative(rs: seq<Reading>, date: string, device: Option<string>)
    requires forall r :: r in rs ==> r.watts >= 0.0
    ensures var out := DailyUsage(rs, date, device);
      forall i :: 0 <= i < |out| ==> out[i].dailyKwh >= 0.0 && out[i].dailyCostUsd >= 0.0
  {
    var sel := Select(rs, date, device);
    var out := DailyUsage(rs, date, device);
    forall i | 0 <= i < |out| ensures out[i].dailyKwh >= 0.0 && out[i].dailyCostUsd >= 0.0 {
      DailyUsageAt(rs, date, device, i);
      var g := Group(sel, StatsKey(out[i]));
      var r :| r in g && r.watts == out[i].minWatts;
      assert r in rs;
    }
  }

  lemma {:induction false} SelectNothing(rs: seq<Reading>, date: string, device: Option<string>)
    requires forall r :: r in rs ==> !Matches(r, date, device)
    ensures Select(rs, date, device) == []
  {
    if |rs| > 0 {
      SelectNothing(rs[..|rs| - 1], date, device);
      assert rs[|rs| - 1] in rs;
    }
  }

  /** With no reading on the day (an empty log, say) there is no row at all. */
  lemma NoReadingsNoRows(rs: seq<Reading>, date: string, device: Option<string>)
    requires forall r :: r in rs ==> !Matches(r, date, device)
    ensures DailyUsage(rs, date, device) == []
  {
    SelectNothing(rs, date, device);
  }

  /**
   A log whose day has a single reading matching the filter, whatever else
   it holds on other days or of other devices, has a single group: that
   reading.
   */
  lemma SingleReadingDay(rs: seq<Reading>, r: Reading, date: string, device: Option<string>)
    requires Select(rs, date, device) == [r]
    ensures DailyUsage(rs, date, device) == [ToStats(Aggregate(KeyOf(r), [r]))]
  {
    var k := KeyOf(r);
    assert [r][..0] == [];
    assert Keys([r]) == [k];
    assert Group([r], k) == [r];
    var rows := GroupRows([r]);
    assert |rows| == 1 && rows[0] == Aggregate(k, [r]);
    assert StatsOf(rows) == [ToStats(rows[0])] by {
      assert rows[..0] == [];
    }
  }

  /** A group of one reading: its watts are the average, largest and smallest. */
  lemma SingleReadingGroup(r: Reading)
    ensures Aggregate(KeyOf(r), [r]) == GroupRow(KeyOf(r), r.watts, r.watts, r.watts, 1, r.timestamp)
  {
    assert Watts([r]) == [r.watts];
    assert Stamps([r]) == [r.timestamp];
    assert Sum([r.watts]) == r.watts + Sum([]);
  }

  /** A day with one 3000 W reading: 72 kWh, 8.64 USD. */
  lemma OvenDay(date: string, ts: string)
    requires date <= ts
    ensures var r := Reading(1, "c1", "Oven", 3000.0, "default", ts);
      DailyUsage([r], date, None) ==
        [DeviceStats("c1", "Oven", "default", 3000.0, 3000.0, 3000.0, 72.0, 8.64, 1, ts)]
  {
    var r := Reading(1, "c1", "Oven", 3000.0, "default", ts);
    assert [r][..0] == [];
    assert Select([r], date, None) == [r];
    SingleReadingDay([r], r, date, None);
    SingleReadingGroup(r);
    assert DailyKwh(3000.0) == 72.0;
    assert DailyCost(72.0) == 8.64;
  }
}
