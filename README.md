# Energy monitor — a verified model

This project models the core of the BlackRoad energy monitor
(`src/energy_monitor.py`). The monitor keeps three SQLite tables:

- **readings**: every power reading of every device;
- **devices**: a registry of devices, each with an optional warning threshold;
- **alerts**: the anomalies the monitor has detected.

When a reading arrives, the monitor stores it. It then checks the reading
against the device's recent history: when that history holds at least 10
readings and its sample standard deviation is positive, a reading more than
two standard deviations from the history's mean raises an anomaly alert. The monitor can
also summarise a day's usage per device (mean, max and min watts, the kWh
that mean draw would give over a day, and that energy's cost), list the most
recent alerts, and build a report from those two.

The model replaces the tables with the fields of a Dafny class,
`Monitor.EnergyMonitor`:

- `readings` and `alerts` are append-only sequences;
- `devices` is a map from device id to device;
- two counters stand in for SQLite's AUTOINCREMENT.

The SQL queries become functions over those sequences:

- `Recency.Newest` is `ORDER BY … DESC LIMIT n` over text timestamps;
- `Aggregation.DailyUsage` is the daily `GROUP BY` query;
- `Stats.IsAnomaly` is the statistical test.

Properties are proved as lemmas about these functions and as the contracts
of the class's methods. Every value that comes from the clock is a
parameter: `now` of `AddDevice`, `now` and `alertNow` of `AddReading`,
`today` of `GetDailyUsage`, and `today` and `now` of `ExportReport`. The `Scenarios` module replays the repository's unit tests
as client methods on a fresh monitor.

Files:

- `timestamps.dfy`: text order of ISO timestamps, and `MAX(timestamp)`.
- `recency.dfy`: newest-first ordering and LIMIT.
- `stats.dfy`: mean, sample variance, the anomaly rule, and the deviation.
- `records.dfy`: the table rows, and the caller's `EnergyReading` object.
- `aggregation.dfy`: daily usage.
- `report.dfy`: the report summary.
- `monitor.dfy`: the monitor class and the anomaly history.
- `scenarios.dfy`: the tests as client methods.
- `sequences.dfy`: multiset lemmas for removing one row.

The anomaly history follows the code. `add_reading` inserts the new reading
first (lines 127-132) and then runs the history query (lines 135-139), so the
new reading is part of its own history and is averaged into its own baseline.
One consequence is in the worked spike example (fifteen 100 W readings, then one of 9999 W): the baseline is
718.6875 W, not 100 W (`Stats.SpikeAfterFlatHistory`).

Python's default arguments are Dafny default parameters: the reading's
`timestamp` (none), `location` ("default") and `id` (none), `add_device`'s `location`
("default") and `threshold_watts` (0.0), `get_daily_usage`'s device and date
(none), and `get_anomalies`'s `limit` (20), which `export_report` relies on.

Python's truthiness is modelled explicitly:

- a timestamp of `None` or `""` is replaced by the clock's (`Monitor.StampOr`);
- a date of `None` or `""` means today (`Monitor.DateOr`);
- a device filter of `None` or `""` means no filter (`Aggregation.Matches`).

SQLite's own behaviour is modelled too:

- a negative `LIMIT` means no limit;
- TEXT columns compare character by character, with a proper prefix first.

## Model

| member | source | states |
|---|---|---|
| Timestamps.TextLe | src/energy_monitor.py:137 | SQLite's BINARY order on TEXT, which `ORDER BY timestamp` (line 137), `MAX(timestamp)` (line 174) and `ORDER BY created_at` (line 202) use: character by character, a proper prefix first. Its properties are the lemmas below. |
| Timestamps.TextLeReflexive | src/energy_monitor.py:137 | Every timestamp sorts no later than itself in SQLite's text order. |
| Timestamps.TextLeTotal | src/energy_monitor.py:137 | Any two timestamps are comparable in text order, so `ORDER BY timestamp` is well defined up to ties. |
| Timestamps.TextLeTransitive | src/energy_monitor.py:137 | Text order is transitive. |
| Timestamps.TextLeAntisymmetric | src/energy_monitor.py:137 | Two timestamps that each sort no later than the other are equal. |
| Timestamps.PrefixIsTextLe | src/energy_monitor.py:176-178 | A date that begins a timestamp (the `LIKE 'date%'` filter) sorts no later than that timestamp; `Aggregation.Matches` uses it. |
| Timestamps.Later | src/energy_monitor.py:174 | The later of two timestamps is one of them, and both sort no later than it. |
| Timestamps.Latest | src/energy_monitor.py:174 | `MAX(timestamp)` of a non-empty group is one of its timestamps, and every timestamp of the group sorts no later than it. |
| Recency.Newest | src/energy_monitor.py:202 | `ORDER BY key DESC LIMIT n` returns no more rows than there are, at most n when n ≥ 0, and only rows of the input (sub-multiset). |
| Recency.InsertByTime | src/energy_monitor.py:137 | Inserting a row into a newest-first list adds exactly that row (multiset). |
| Recency.InsertByTimeSorted | src/energy_monitor.py:137 | Inserting into a newest-first list keeps it newest first. |
| Recency.SortByTime | src/energy_monitor.py:137 | Sorting by time is a permutation of the rows. |
| Recency.SortByTimeSorted | src/energy_monitor.py:137 | The sorted rows are newest first. |
| Recency.NewestSpec | src/energy_monitor.py:135-139 | `ORDER BY key DESC LIMIT n` has the following properties. Its length is min(n, rows); a negative limit gives all rows. Every kept row comes from the input. The kept rows are newest first. No row left out is newer than any row kept. When all rows fit, the result is a permutation of the input. |
| Stats.Mean | src/energy_monitor.py:142 | The mean times the number of readings is their sum. |
| Stats.Variance | src/energy_monitor.py:143 | The sample variance is non-negative, and times (n − 1) it is the sum of squared deviations from the mean. |
| Stats.IsAnomaly | src/energy_monitor.py:141-144 | An anomalous reading has a history of at least 10 readings and differs from the history's mean. |
| Stats.Deviation | src/energy_monitor.py:145 | The deviation is defined as follows. With a positive baseline it is exactly (w − baseline)/baseline·100, and its sign is the sign of w − baseline. Otherwise it is 0, so nothing is divided by zero. |
| Stats.SumsPermutation | src/energy_monitor.py:142-143 | The mean and the spread of a history do not depend on the order of its readings. |
| Stats.AnomalyPermutation | src/energy_monitor.py:139-144 | The anomaly decision depends only on the multiset of watt values in the history, not on their order. (Which rows the `LIMIT 100` keeps among equal timestamps is a different matter; see Left out.) |
| Stats.AnomalyMatchesStdevRule | src/energy_monitor.py:141-144 | The squared form of the anomaly rule decides exactly as the source's rule. That rule is: at least 10 readings, stdev > 0, and \|w − mean\| > 2·stdev. Here stdev is any non-negative number whose square is the sample variance. |
| Stats.ConstantHistoryNoAnomaly | src/energy_monitor.py:141-144 | A history of identical readings has zero spread, so no reading is an anomaly against it. |
| Stats.ShortHistoryNoAnomaly | src/energy_monitor.py:141 | With fewer than 10 readings in the history, no reading is an anomaly. |
| Stats.SpikeAfterFlatHistory | tests/test_energy_monitor.py:126-136 | The history is fifteen 100 W readings plus the 9999 W spike itself. Its mean is 718.6875 and its sample variance is 6124387.5625. The spike is an anomaly, with a deviation between 1291.28 % and 1291.29 %. |
| Stats.Max | src/energy_monitor.py:172 | `MAX(watts)` is a member of the group and bounds every member from above. |
| Stats.Min | src/energy_monitor.py:173 | `MIN(watts)` is a member of the group and bounds every member from below. |
| Stats.MinMeanMax | src/energy_monitor.py:172-173 | MIN ≤ AVG ≤ MAX over any non-empty group. |
| Records.WattsPermutation | src/energy_monitor.py:139 | The same readings in any order give the same multiset of watt values. |
| Records.EnergyReading.constructor | src/energy_monitor.py:26-33 | A new reading holds the caller's values, with no timestamp, location "default" and no id unless given. |
| Aggregation.DailyKwh | src/energy_monitor.py:187-188 | kWh·1000 = average watts · 24 hours. |
| Aggregation.DailyCost | src/energy_monitor.py:189 | The cost is kWh · 0.12 USD, and it is non-negative when the kWh are. |
| Aggregation.Matches | src/energy_monitor.py:176-181 | A matching reading's timestamp sorts no earlier than the date. |
| Aggregation.Select | src/energy_monitor.py:176-181 | A reading is selected iff its timestamp begins with the date and it passes the device filter; an absent or empty filter passes every reading. Each selected reading occurs as often as in the log. |
| Aggregation.Keys | src/energy_monitor.py:182 | The group keys are distinct. They are exactly the (device id, name, location) triples of the selected readings. |
| Aggregation.Group | src/energy_monitor.py:182 | A group holds exactly the selected readings with its key, each as often as among the selected readings. |
| Aggregation.GroupOfKeyNonEmpty | src/energy_monitor.py:182 | Every group that appears in the result has at least one reading. |
| Aggregation.Aggregate | src/energy_monitor.py:171-174 | A group's query row carries its key and its size as the count, MIN ≤ AVG ≤ MAX, and MIN and MAX bound every reading of the group. |
| Aggregation.KeyRow | src/energy_monitor.py:171-183 | The query row of a key present in the selection has that key and a positive count. |
| Aggregation.GroupRows | src/energy_monitor.py:170-183 | The query returns one row per group key, in order of first appearance, each with a positive count. |
| Aggregation.ToStats | src/energy_monitor.py:186-196 | A statistics row keeps its query row's key and count, its cost is its kWh at 0.12 USD, and kWh and cost are non-negative when the average draw is. |
| Aggregation.StatsOf | src/energy_monitor.py:185-196 | The loop yields one statistics row per query row, the i-th built from the i-th. |
| Aggregation.StatsOfStep | src/energy_monitor.py:185-196 | Each turn of the loop appends the statistics of the next query row. |
| Aggregation.AggregateDescribes | src/energy_monitor.py:171-174 | A row's figures are taken from its group, as follows. The count is the group's size. The average is the mean watts. MIN and MAX are attained and bound every reading, and MIN ≤ AVG ≤ MAX. The last timestamp is attained and is the latest. kWh and cost follow the day formulas. |
| Aggregation.DailyUsageAt | src/energy_monitor.py:166-197 | Row i of the daily usage has the i-th group key, and it describes that key's selected readings. |
| Aggregation.DailyUsage | src/energy_monitor.py:166-197 | The daily usage has one row per group key of the selected readings, in order of first appearance; each row has a positive reading count, and its cost is its kWh at 0.12 USD. |
| Aggregation.DailyUsageDistinct | src/energy_monitor.py:182 | No two rows of the daily usage have the same (device id, name, location). |
| Aggregation.DailyUsageCovers | src/energy_monitor.py:176-182 | Every reading that matches the date and the device filter has the row of its key. |
| Aggregation.DailyUsageGroups | src/energy_monitor.py:171-182 | A row summarises exactly the log's readings that match the day and the filter and have its key, each as often as in the log, so its reading count is their number. |
| Aggregation.DailyUsageAfterDate | src/energy_monitor.py:174-178 | Every row's `MAX(timestamp)` sorts no earlier than the queried date, since every reading it summarises begins with that date. |
| Aggregation.DailyUsageNonNegative | src/energy_monitor.py:185-196 | When no reading of the log draws negative watts, no row has negative kWh or cost. |
| Aggregation.DailyUsageRowsDescribe | src/energy_monitor.py:170-196 | Every row of the daily usage describes the selected readings of its key. |
| Aggregation.DailyUsageSpec | src/energy_monitor.py:166-197 | The daily usage has exactly one row per (device id, name, location) among the matching readings. No key appears twice, every matching reading's key has a row, and each row describes its group. |
| Aggregation.SelectNothing | src/energy_monitor.py:176-181 | When no reading matches, the selection is empty. |
| Aggregation.NoReadingsNoRows | tests/test_energy_monitor.py:104-106 | With no reading on the day (for example, an empty log), the daily usage is empty. |
| Aggregation.SingleReadingDay | src/energy_monitor.py:170-196 | For any log whose day has a single reading matching the filter (whatever else the log holds), the daily usage is the statistics of that one reading. |
| Aggregation.SingleReadingGroup | src/energy_monitor.py:171-174 | In a group of one reading, that reading's watts are the average, the max and the min. The count is 1, and the last timestamp is the reading's. |
| Aggregation.OvenDay | tests/test_energy_monitor.py:117-124 | One 3000 W reading on the day gives one row: 3000 W average, max and min; 72 kWh; 8.64 USD; count 1. |
| Reporting.TotalKwh | src/energy_monitor.py:209 | The summed kWh is non-negative when every row's is. |
| Reporting.TotalCost | src/energy_monitor.py:210 | The summed cost is non-negative when every row's is, and is the summed kWh at 0.12 USD when every row's cost is its kWh at that rate. |
| Reporting.Summarize | src/energy_monitor.py:209-220 | The summary counts the rows and the alerts; its total cost is its total kWh at 0.12 USD when each row's is, and both totals are non-negative when every row's are. |
| Monitor.ReadingsOf | src/energy_monitor.py:136 | `WHERE device_id = ?` keeps exactly the device's readings. |
| Monitor.HistoryRows | src/energy_monitor.py:135-139 | The history holds at most 100 rows, all of them readings of the device from the log, and is a sub-multiset of the device's readings. |
| Monitor.History | src/energy_monitor.py:139 | The history has at most 100 watt values. |
| Monitor.StampOr | src/energy_monitor.py:125 | A non-empty caller timestamp is kept. A missing or empty one is replaced by the clock's. |
| Monitor.DateOr | src/energy_monitor.py:168 | A non-empty date is used as given. A missing or empty one means today. |
| Monitor.AnomalyAlert | src/energy_monitor.py:145-154 | The alert is an "anomaly" alert about the reading's device and watts. Its baseline is the history mean, and its deviation is computed from that mean. |
| Monitor.ThresholdExceeded | src/energy_monitor.py:158-161 | The threshold warning fires only for a registered device and a positive draw. |
| Monitor.DailyTotals | src/energy_monitor.py:207-220 | The report's total cost is its total kWh at 0.12 USD, and with no negative reading in the log neither total is negative. |
| Monitor.HistorySpec | src/energy_monitor.py:135-139 | The history holds min(100, n) of the device's n readings, all of them that device's, newest first, each at most as often as the log holds it (a sub-multiset). When n ≤ 100 it holds all of them. |
| Monitor.HistoryKeepsNewest | src/energy_monitor.py:135-139 | A reading of the device that the history leaves out sorts no later than any reading it keeps. |
| Monitor.NewReadingInHistory | src/energy_monitor.py:127-139 | The reading just inserted is in its own history in either of two cases: the device has at most 100 readings, or the new reading is strictly newer than the device's other readings. |
| Monitor.ReadingsOfSingleDevice | src/energy_monitor.py:136 | When the log holds one device only, the device filter keeps the whole log. |
| Monitor.HistoryOfSteadyDevice | src/energy_monitor.py:135-139 | If every reading of a device draws c watts, its history holds only c. |
| Monitor.ConsistentAfterReading | src/energy_monitor.py:76-84 | Appending a reading with the next AUTOINCREMENT id keeps the tables consistent. |
| Monitor.ConsistentAfterAlert | src/energy_monitor.py:85-96 | Appending an alert with the next id, about the newest reading's device, keeps the tables consistent. |
| Monitor.EnergyMonitor.ValidDistinct | src/energy_monitor.py:77 | AUTOINCREMENT ids make the readings pairwise distinct. |
| Monitor.EnergyMonitor.constructor | src/energy_monitor.py:103-106 | A new monitor starts with empty tables. Its id invariant holds. |
| Monitor.EnergyMonitor.AddDevice | src/energy_monitor.py:111-122 | The device (location "default" and threshold 0.0 unless given) is added iff its id is absent. A duplicate leaves the registry unchanged and raises no error. The readings, the alerts and the counters are unchanged. |
| Monitor.EnergyMonitor.AddReading | src/energy_monitor.py:124-164 | The reading's timestamp is set only when it is missing or empty. The reading gets the next id, which is larger than every earlier id. Exactly one row is appended. At most one alert is appended: an anomaly alert exactly when the history, new reading included, makes the reading anomalous. The registry is unchanged. The threshold check only returns whether the warning fires. |
| Monitor.EnergyMonitor.CheckAnomaly | src/energy_monitor.py:134-155 | The check runs over a history that includes the reading just stored. It appends exactly one anomaly alert (baseline = history mean, deviation from that baseline) iff there are at least 10 readings in the history, the sample variance is positive and (w − mean)² > 4·variance. Otherwise the alerts are unchanged. Readings, devices and the reading counter never change. |
| Monitor.EnergyMonitor.GetDailyUsage | src/energy_monitor.py:166-197 | The loop returns the daily-usage function of the log for the given date (today by default) and the device filter (none by default). Each row describes its group. |
| Monitor.EnergyMonitor.GetAnomalies | src/energy_monitor.py:199-204 | It returns the newest `limit` alerts (20 unless given), newest first: at most `limit`, all of them when they fit, drawn from the alert log, and [] when there are no alerts. |
| Monitor.EnergyMonitor.ExportReport | src/energy_monitor.py:206-222 | The report holds today's usage over all devices and the 20 newest alerts. Its device count is the number of rows, and its anomaly count is at most 20. The total cost is the total kWh at 0.12 USD, and with no negative reading in the log neither total is negative. |
| Scenarios.SteadyIsNoAnomaly | tests/test_energy_monitor.py:128-131 | While every reading of device "a1" draws 100 W, whatever other devices draw, another 100 W reading of "a1" is no anomaly. |
| Scenarios.SpikeIsAnomaly | tests/test_energy_monitor.py:126-136 | After fifteen 100 W readings and the 9999 W spike, the spike is anomalous against its history, whose mean is 718.6875. |
| Scenarios.SpikeHistory | tests/test_energy_monitor.py:126-136 | After the test's sixteen readings, the device's history holds exactly fifteen 100s and one 9999. |
| Scenarios.FeedSteady | tests/test_energy_monitor.py:128-131 | Feeding 100 W readings of one device to a fresh monitor raises no alert. |
| Scenarios.SpikeScenario | tests/test_energy_monitor.py:126-136 | The full test sequence on a fresh monitor gives exactly one alert: an anomaly for "a1" at 9999 W with baseline 718.6875. |
| Scenarios.FirstReadingScenario | tests/test_energy_monitor.py:86-102 | A first reading is stored once, gets id 1 and the clock's timestamp, and raises no alert. |
| Scenarios.OvenScenario | tests/test_energy_monitor.py:117-124 | A 3000 W reading taken today yields one row of 72 kWh costing 8.64 USD. |
| Scenarios.NoAlertsScenario | tests/test_energy_monitor.py:138-139 | A fresh monitor lists no alerts. |
| Scenarios.DuplicateDeviceScenario | tests/test_energy_monitor.py:82-84 | Registering one id twice adds it once. The second call is refused quietly, and the first registration stays. |

## Left out

- SQLite plumbing (`init_db`, connecting, `commit`, `close`, `row_factory`): the tables are the fields of the class, and the model always starts from empty tables.
- Terminal output (colours, every `print`, `usage_bar`, the `main` command line): it is presentation only. The threshold warning, which the source only prints, is returned as a boolean instead.
- The JSON file write of `export_report`, its `output_path` parameter and default, and its result: this is file I/O. Only the report's content is modelled.
- The clock (`datetime.utcnow`): its readings are parameters (`now`, `alertNow`, `today`). `Scenarios.OvenScenario` requires that `today` begin `now`, which is what the clock guarantees. `ExportReport` takes one `today` for two separate clock reads of the source: the usage date inside `get_daily_usage` (line 168) and the report's `"date"` (line 212). Across midnight those two can differ; the model does not capture that.
- Floating point: watts are exact reals. `statistics.stdev`'s square root is replaced by the equivalent squared comparison (`Stats.AnomalyMatchesStdevRule`).
- Monitor.EnergyMonitor.AddReading: the alert's baseline and deviation are stored unrounded. The source rounds them to 2 decimals before storing them.
- Monitor.EnergyMonitor.GetDailyUsage: average, max, min, kWh and cost are unrounded. The source rounds them to 2 and 4 decimals; the relations proved hold before rounding.
- Monitor.EnergyMonitor.ExportReport: the totals are sums of the unrounded per-device values, and are not rounded to 4 decimals. The source sums the already-rounded values.
- The alert message text and its `:.1f` formatting: `Records.Alert` has no message field; the message is dropped, since only the terminal and the stored text use it.
- `LIKE` wildcards (`%`, `_` inside the date) and ASCII case folding: the date filter is a plain prefix test.
- The order among readings or alerts with equal timestamps: SQLite leaves it unspecified. The model sorts stably (`Recency.SortByTime`), so among equal timestamps the rows inserted earlier come first; `GetAnomalies` then lists those first, and a `LIMIT` cut among equal timestamps keeps them.
- Monitor.EnergyMonitor.AddReading: when a device's 100-reading history is cut among readings with equal timestamps, the model keeps the earliest-inserted of them. SQLite may keep others, and the anomaly decision can then differ: after 100 readings of 100 W and one of 1000 W, all with the same timestamp, the model's history is the 100 W readings and raises no alert, while a history holding the 1000 W reading would.
- The order of `GROUP BY` rows: SQLite does not specify it. The model lists the groups in order of first appearance among the selected readings (`Aggregation.Keys`), and `GetDailyUsage` and `ExportReport` fix that order in their results.
- The "high_usage" and "threshold" alert types: they appear only in the comment on `alert_type` (line 40); the source never writes them.
- SQLite's NOT NULL and type checks on columns: the model's fields are typed.
