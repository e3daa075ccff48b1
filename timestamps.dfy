/**
 Timestamps are ISO-8601 text. The readings and alerts tables store them in
 TEXT columns, so `ORDER BY timestamp`, `ORDER BY created_at` and
 `MAX(timestamp)` compare them as text: character by character, a proper
 prefix first (SQLite's BINARY collation, which for UTF-8 text is code-point
 order).
 */
module Timestamps {

  /** `a` sorts no later than `b` in text order. */
  predicate TextLe(a: string, b: string)
  {
    if |a| == 0 then true
    else if |b| == 0 then false
    else if a[0] != b[0] then a[0] < b[0]
    else TextLe(a[1..], b[1..])
  }

  lemma {:induction false} TextLeReflexive(a: string)
    ensures TextLe(a, a)
  {
    if |a| > 0 {
      TextLeReflexive(a[1..]);
    }
  }

  lemma {:induction false} TextLeTotal(a: string, b: string)
    ensures TextLe(a, b) || TextLe(b, a)
  {
    if |a| > 0 && |b| > 0 && a[0] == b[0] {
      TextLeTotal(a[1..], b[1..]);
    }
  }

  lemma {:induction false} TextLeTransitive(a: string, b: string, c: string)
    requires TextLe(a, b) && TextLe(b, c)
    ensures TextLe(a, c)
  {
    if |a| > 0 && |b| > 0 && |c| > 0 && a[0] == b[0] && b[0] == c[0] {
      TextLeTransitive(a[1..], b[1..], c[1..]);
    }
  }

  lemma {:induction false} TextLeAntisymmetric(a: string, b: string)
    requires TextLe(a, b) && TextLe(b, a)
    ensures a == b
  {
    if |a| > 0 && |b| > 0 {
      TextLeAntisymmetric(a[1..], b[1..]);
      assert a == [a[0]] + a[1..] && b == [b[0]] + b[1..];
    }
  }

  /** A date prefix such as "2024-01-01" sorts no later than every timestamp it begins. */
  lemma {:induction false} PrefixIsTextLe(p: string, s: string)
    requires p <= s
    ensures TextLe(p, s)
  {
    if |p| > 0 {
      PrefixIsTextLe(p[1..], s[1..]);
    }
  }

  /** The later of two timestamps, as `MAX(timestamp)` picks it. */
  function Later(a: string, b: string): (m: string)
    ensures m == a || m == b
    ensures TextLe(a, m) && TextLe(b, m)
  {
    TextLeTotal(a, b);
    TextLeReflexive(a);
    TextLeReflexive(b);
    if TextLe(a, b) then b else a
  }

  /** The latest timestamp of a non-empty list: `MAX(timestamp)` over a group. */
  function Latest(ts: seq<string>): (m: string)
    requires |ts| > 0
    ensures m in ts
    ensures forall i :: 0 <= i < |ts| ==> TextLe(ts[i], m)
  {
    if |ts| == 1 then
      TextLeReflexive(ts[0]);
      ts[0]
    else
      var rest := Latest(ts[1..]);
      var m := Later(ts[0], rest);
      assert forall i :: 1 <= i < |ts| ==> ts[i] == ts[1..][i - 1];
      forall i | 1 <= i < |ts| ensures TextLe(ts[i], m) {
        TextLeTransitive(ts[i], rest, m);
      }
      m
  }
}
