/**
 The records of the energy monitor: the rows of its three tables (readings,
 devices, alerts) and the caller's `EnergyReading` object, whose timestamp
 and id the monitor fills in when it stores the reading.
 */
module Records {
  import opened Sequences

  datatype Option<T> = None | Some(value: T)

  /** A row of the readings table; `id` is the AUTOINCREMENT key. */
  datatype Reading = Reading(
    id: int,
    deviceId: string,
    deviceName: string,
    watts: real,
    location: string,
    timestamp: string)

  /** The sort key of `ORDER BY timestamp`. */
  function TimeOf(r: Reading): string
  {
    r.timestamp
  }

  /** The watts column of some readings. */
  function Watts(rs: seq<Reading>): (ws: seq<real>)
    ensures |ws| == |rs|
    ensures forall i :: 0 <= i < |rs| ==> ws[i] == rs[i].watts
  {
    seq(|rs|, i requires 0 <= i < |rs| => rs[i].watts)
  }

  /** The timestamp column of some readings. */
  function Stamps(rs: seq<Reading>): (ts: seq<string>)
    ensures |ts| == |rs|
    ensures forall i :: 0 <= i < |rs| ==> ts[i] == rs[i].timestamp
  {
    seq(|rs|, i requires 0 <= i < |rs| => rs[i].timestamp)
  }

  /** Taking the same watt value out of two readings lists that agree on the rest. */
  lemma WattsRemoveBoth(a: seq<Reading>, b: seq<Reading>, j: nat)
    requires |a| > 0 && j < |b| && b[j] == a[0]
    requires multiset(Watts(a[1..])) == multiset(Watts(b[..j] + b[j + 1..]))
    ensures multiset(Watts(a)) == multiset(Watts(b))
  {
    assert Watts(a) == [a[0].watts] + Watts(a[1..]);
    assert Watts(b) == Watts(b[..j]) + [b[j].watts] + Watts(b[j + 1..]);
    assert Watts(b[..j] + b[j + 1..]) == Watts(b[..j]) + Watts(b[j + 1..]);
  }

  /** The same readings in any order carry the same watt values. */
  lemma {:induction false} WattsPermutation(a: seq<Reading>, b: seq<Reading>)
    requires multiset(a) == multiset(b)
    ensures multiset(Watts(a)) == multiset(Watts(b))
  {
    if |a| > 0 {
      var j := PermutationRest(a, b);
      WattsPermutation(a[1..], b[..j] + b[j + 1..]);
      WattsRemoveBoth(a, b, j);
    } else {
      assert |b| == |multiset(b)| == 0;
      assert Watts(a) == [] == Watts(b);
    }
  }

  /** A row of the devices table, keyed by device id. */
  datatype Device = Device(
    deviceName: string,
    location: string,
    thresholdWatts: real,
    createdAt: string)

  /**
   The alert types named in the comment on the `alert_type` column; the
   column itself is free text, and the monitor only ever writes `Anomaly`.
   */
  datatype AlertType = Anomaly | HighUsage | Threshold

  /** A row of the alerts table; `id` is the AUTOINCREMENT key. */
  datatype Alert = Alert(
    id: int,
    deviceId: string,
    deviceName: string,
    alertType: AlertType,
    watts: real,
    baselineWatts: real,
    deviationPct: real,
    createdAt: string)

  /** The sort key of `ORDER BY created_at`. */
  function CreatedAt(a: Alert): string
  {
    a.createdAt
  }

  /**
   A reading as the caller builds it. Timestamp and id are empty unless the
   caller gives them; the monitor sets both when it stores the reading and
   never writes the other fields. A reading built without a timestamp, a
   location or an id gets none, "default" and none.
   */
  class EnergyReading {
    const deviceId: string
    const deviceName: string
    const watts: real
    const location: string
    var timestamp: Option<string>
    var id: Option<int>

    constructor (deviceId: string, deviceName: string, watts: real,
                 timestamp: Option<string> := None, location: string := "default",
                 id: Option<int> := None)
      ensures this.deviceId == deviceId && this.deviceName == deviceName && this.watts == watts
      ensures this.timestamp == timestamp && this.location == location && this.id == id
    {
      this.deviceId := deviceId;
      this.deviceName := deviceName;
      this.watts := watts;
      this.timestamp := timestamp;
      this.location := location;
      this.id := id;
    }
  }
}
