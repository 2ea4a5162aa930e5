/** Tolerant key matching in the nested metric payloads: `_norm_key` and
    `_extract_metric`. A payload is the ordered entry list of a nested
    mapping. */
module Matching {
  import opened Values

  /** ASCII `str.isalnum()`. */
  predicate IsAlnum(c: char)
  {
    '0' <= c <= '9' || 'a' <= c <= 'z' || 'A' <= c <= 'Z'
  }

  /** The characters `_norm_key` can produce. */
  predicate IsNormChar(c: char)
  {
    '0' <= c <= '9' || 'a' <= c <= 'z'
  }

  /** `_norm_key`: lower-case the key and keep only letters and digits. */
  function NormKey(s: string): (r: string)
    ensures |r| <= |s|
    ensures forall k :: 0 <= k < |r| ==> IsNormChar(r[k])
  {
    if |s| == 0 then []
    else
      var c := Lower(s[|s| - 1]);
      NormKey(s[..|s| - 1]) + (if IsAlnum(c) then [c] else [])
  }

  /** A key already made of lower-case letters and digits is its own
      normal form. */
  lemma {:induction false} NormKeyFixed(s: string)
    requires forall k :: 0 <= k < |s| ==> IsNormChar(s[k])
    ensures NormKey(s) == s
  {
    if |s| > 0 {
      var init := s[..|s| - 1];
      assert forall k :: 0 <= k < |init| ==> init[k] == s[k];
      NormKeyFixed(init);
    }
  }

  /** Normalising twice is normalising once. */
  lemma NormKeyIdempotent(s: string)
    ensures NormKey(NormKey(s)) == NormKey(s)
  {
    NormKeyFixed(NormKey(s));
  }

  /** `{_norm_key(k): v for k, v in payload.items()}`, as its entry list. */
  function Normalized(entries: seq<(string, Value)>): (n: seq<(string, Value)>)
    ensures |n| == |entries|
    ensures forall k :: 0 <= k < |entries| ==> n[k] == (NormKey(entries[k].0), entries[k].1)
  {
    seq(|entries|, k requires 0 <= k < |entries| => (NormKey(entries[k].0), entries[k].1))
  }

  /** The normalised payload keeps the values in order, and each of its
      keys is already in normal form, so looking one up again finds it. */
  lemma NormalizedKeys(entries: seq<(string, Value)>)
    ensures |Normalized(entries)| == |entries|
    ensures forall k :: 0 <= k < |entries| ==>
              && NormKey(Normalized(entries)[k].0) == Normalized(entries)[k].0
              && Normalized(entries)[k].0 == NormKey(entries[k].0)
              && Normalized(entries)[k].1 == entries[k].1
  {
    forall k | 0 <= k < |entries| {
      NormKeyIdempotent(entries[k].0);
    }
  }

  /** `_extract_metric(payload, keys)`: the first candidate key that hits,
      trying the exact key before its normal form. A hit is the value of a
      payload entry whose key is the candidate or normalises like it. */
  function ExtractMetric(entries: seq<(string, Value)>, keys: seq<string>): (v: Value)
    ensures v != Null ==> exists i, j :: 0 <= i < |keys| && 0 <= j < |entries|
                                         && (entries[j].0 == keys[i] || NormKey(entries[j].0) == NormKey(keys[i]))
                                         && entries[j].1 == v
  {
    if |keys| == 0 then Null
    else
      var direct := Lookup(entries, keys[0]);
      if direct != Null then direct
      else
        var candidate := Lookup(Normalized(entries), NormKey(keys[0]));
        if candidate != Null then candidate
        else
          var rest := ExtractMetric(entries, keys[1..]);
          assert rest != Null ==> exists i, j :: 0 <= i < |keys| && 0 <= j < |entries|
                                                && (entries[j].0 == keys[i] || NormKey(entries[j].0) == NormKey(keys[i]))
                                                && entries[j].1 == rest by {
            if rest != Null {
              var i, j :| 0 <= i < |keys| - 1 && 0 <= j < |entries|
                          && (entries[j].0 == keys[1..][i] || NormKey(entries[j].0) == NormKey(keys[1..][i]))
                          && entries[j].1 == rest;
              assert keys[1..][i] == keys[i + 1];
            }
          }
          rest
  }

  /** Nothing matches exactly when no candidate hits either way; a miss is
      None, never an error. */
  lemma {:induction false} ExtractMetricMiss(entries: seq<(string, Value)>, keys: seq<string>)
    ensures ExtractMetric(entries, keys) == Null <==>
            forall i :: 0 <= i < |keys| ==>
              Lookup(entries, keys[i]) == Null && Lookup(Normalized(entries), NormKey(keys[i])) == Null
  {
    if |keys| > 0 {
      ExtractMetricMiss(entries, keys[1..]);
      assert forall i :: 1 <= i < |keys| ==> keys[1..][i - 1] == keys[i];
    }
  }

  /** When every earlier candidate misses, candidate `i` decides: its exact
      hit wins, else its normalised hit. */
  lemma {:induction false} ExtractMetricFirstHit(entries: seq<(string, Value)>, keys: seq<string>, i: nat)
    requires i < |keys|
    requires forall j :: 0 <= j < i ==>
               Lookup(entries, keys[j]) == Null && Lookup(Normalized(entries), NormKey(keys[j])) == Null
    ensures Lookup(entries, keys[i]) != Null ==> ExtractMetric(entries, keys) == Lookup(entries, keys[i])
    ensures Lookup(entries, keys[i]) == Null && Lookup(Normalized(entries), NormKey(keys[i])) != Null ==>
              ExtractMetric(entries, keys) == Lookup(Normalized(entries), NormKey(keys[i]))
  {
    if i > 0 {
      var rest := keys[1..];
      assert Lookup(entries, keys[0]) == Null && Lookup(Normalized(entries), NormKey(keys[0])) == Null;
      assert ExtractMetric(entries, keys) == ExtractMetric(entries, rest);
      forall j | 0 <= j < i - 1
        ensures Lookup(entries, rest[j]) == Null && Lookup(Normalized(entries), NormKey(rest[j])) == Null
      {
        assert rest[j] == keys[j + 1];
      }
      ExtractMetricFirstHit(entries, rest, i - 1);
      assert rest[i - 1] == keys[i];
    }
  }

  /** `row[key] if isinstance(row.get(key), dict) else {}`. */
  function Payload(row: Row, key: string): (entries: seq<(string, Value)>)
    ensures Get(row, key).Obj? ==> entries == Get(row, key).entries
    ensures !Get(row, key).Obj? ==> entries == []
  {
    match Get(row, key)
    case Obj(e) => e
    case _ => []
  }
}
