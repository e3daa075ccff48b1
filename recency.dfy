/**
 `ORDER BY <time> DESC LIMIT n`, the query shape behind both the anomaly
 history of a device and the alert listing. Rows are ordered newest first by
 a text timestamp chosen by `key`; SQLite leaves the order among equal
 timestamps unspecified, so the properties below speak only of which rows
 are kept and of the order of their timestamps.
 */
module Recency {
  import opened Timestamps

  /** `s` is ordered newest first. */
  ghost predicate NewestFirst<T>(s: seq<T>, key: T -> string)
  {
    forall i, j :: 0 <= i < j < |s| ==> TextLe(key(s[j]), key(s[i]))
  }

  /** Puts `x` in front of the first row that is no newer than it. */
  function InsertByTime<T(==)>(x: T, s: seq<T>, key: T -> string): (r: seq<T>)
    ensures multiset(r) == multiset(s) + multiset{x}
  {
    if |s| == 0 || TextLe(key(s[0]), key(x)) then [x] + s
    else
      assert s == [s[0]] + s[1..];
      [s[0]] + InsertByTime(x, s[1..], key)
  }

  /** The rows of `s`, newest first. */
  function SortByTime<T(==)>(s: seq<T>, key: T -> string): (r: seq<T>)
    ensures multiset(r) == multiset(s)
  {
    if |s| == 0 then []
    else
      assert s == [s[0]] + s[1..];
      InsertByTime(s[0], SortByTime(s[1..], key), key)
  }

  /**
   The result of `ORDER BY key DESC LIMIT limit`. A negative limit is no
   limit at all, as in SQLite.
   */
  function Newest<T(==)>(s: seq<T>, limit: int, key: T -> string): (r: seq<T>)
    ensures |r| <= |s| && (limit >= 0 ==> |r| <= limit)
    ensures multiset(r) <= multiset(s)
  {
    var sorted := SortByTime(s, key);
    assert |sorted| == |multiset(sorted)| == |s|;
    if limit < 0 || |sorted| <= limit then sorted
    else
      assert sorted == sorted[..limit] + sorted[limit..];
      assert multiset(sorted) == multiset(sorted[..limit]) + multiset(sorted[limit..]);
      sorted[..limit]
  }

  lemma {:induction false} InsertByTimeSorted<T>(x: T, s: seq<T>, key: T -> string)
    requires NewestFirst(s, key)
    ensures NewestFirst(InsertByTime(x, s, key), key)
  {
    var r := InsertByTime(x, s, key);
    if |s| == 0 {
    } else if TextLe(key(s[0]), key(x)) {
      forall i, j | 0 <= i < j < |r| ensures TextLe(key(r[j]), key(r[i])) {
        if i == 0 {
          if j > 1 {
            TextLeTransitive(key(s[j - 1]), key(s[0]), key(x));
          }
        }
      }
    } else {
      var rest := InsertByTime(x, s[1..], key);
      InsertByTimeSorted(x, s[1..], key);
      TextLeTotal(key(s[0]), key(x));
      forall j | 0 <= j < |rest| ensures TextLe(key(rest[j]), key(s[0])) {
        assert rest[j] in multiset(rest);
        if rest[j] != x {
          assert rest[j] in multiset(s[1..]);
          var k :| 0 <= k < |s[1..]| && s[1..][k] == rest[j];
          assert s[k + 1] == rest[j];
        }
      }
      assert r == [s[0]] + rest;
    }
  }

  lemma {:induction false} SortByTimeSorted<T>(s: seq<T>, key: T -> string)
    ensures NewestFirst(SortByTime(s, key), key)
  {
    if |s| > 0 {
      SortByTimeSorted(s[1..], key);
      InsertByTimeSorted(s[0], SortByTime(s[1..], key), key);
    }
  }

  /**
   What `ORDER BY key DESC LIMIT limit` promises: as many rows as the limit
   allows, all taken from `s`, newest first, every row of `s` that was left
   out no newer than every row kept, and all of `s` when it fits.
   */
  lemma NewestSpec<T>(s: seq<T>, limit: int, key: T -> string)
    ensures var r := Newest(s, limit, key);
      && |r| == (if limit < 0 || |s| <= limit then |s| else limit)
      && multiset(r) <= multiset(s)
      && NewestFirst(r, key)
      && (forall x, y :: x in multiset(s) - multiset(r) && y in r ==> TextLe(key(x), key(y)))
      && (limit < 0 || |s| <= limit ==> multiset(r) == multiset(s))
  {
    var sorted := SortByTime(s, key);
    SortByTimeSorted(s, key);
    assert |sorted| == |multiset(sorted)| == |s|;
    var r := Newest(s, limit, key);
    if limit < 0 || |sorted| <= limit {
      assert r == sorted;
    } else {
      assert sorted == r + sorted[limit..];
      assert multiset(sorted) == multiset(r) + multiset(sorted[limit..]);
      forall x, y | x in multiset(s) - multiset(r) && y in r ensures TextLe(key(x), key(y)) {
        assert x in multiset(sorted[limit..]);
        var j :| 0 <= j < |sorted[limit..]| && sorted[limit..][j] == x;
        var i :| 0 <= i < |r| && r[i] == y;
        assert sorted[i] == y && sorted[limit + j] == x;
      }
    }
  }
}
