/** A Python dict with string keys, kept as its key/value pairs in insertion order.
    Order matters where the source iterates a dict: the top-1 selection in
    sdks/python/src/synheart_emotion/result.py breaks ties by it. */
module Dicts {

  type Dict<V> = seq<(string, V)>

  function Keys<V>(d: Dict<V>): (ks: seq<string>)
    ensures |ks| == |d|
    ensures forall i :: 0 <= i < |d| ==> ks[i] == d[i].0
  {
    seq(|d|, i requires 0 <= i < |d| => d[i].0)
  }

  function Values<V>(d: Dict<V>): (vs: seq<V>)
    ensures |vs| == |d|
    ensures forall i :: 0 <= i < |d| ==> vs[i] == d[i].1
  {
    seq(|d|, i requires 0 <= i < |d| => d[i].1)
  }

  predicate Distinct(s: seq<string>) {
    forall i, j :: 0 <= i < j < |s| ==> s[i] != s[j]
  }

  /** `d[k] = v`: an existing key keeps its position and takes the new value; a new key goes last. */
  function Put<V>(d: Dict<V>, k: string, v: V): Dict<V> {
    if |d| == 0 then [(k, v)]
    else if d[0].0 == k then [(k, v)] + d[1..]
    else [d[0]] + Put(d[1..], k, v)
  }

  /** The pairs of zip(ks, vs), which stops at the shorter list. */
  function Zip<V>(ks: seq<string>, vs: seq<V>): (z: seq<(string, V)>)
    ensures |z| == if |ks| < |vs| then |ks| else |vs|
  {
    var n := if |ks| < |vs| then |ks| else |vs|;
    seq(n, i requires 0 <= i < n => (ks[i], vs[i]))
  }

  /** `{k: v for k, v in zip(ks, vs)}`: a later pair with a repeated key overwrites the
      earlier one, so no key is stored twice, and every key comes from `ks`. */
  function FromZip<V>(ks: seq<string>, vs: seq<V>): (d: Dict<V>)
    ensures Distinct(Keys(d))
    ensures forall i :: 0 <= i < |d| ==> d[i].0 in ks
    decreases |ks|
  {
    var n := if |ks| < |vs| then |ks| else |vs|;
    if n == 0 then []
    else
      var rest := FromZip(ks[..n - 1], vs[..n - 1]);
      PutKeys(rest, ks[n - 1], vs[n - 1]);
      Put(rest, ks[n - 1], vs[n - 1])
  }

  /** `d[k] = v` keeps the key order, adding `k` last when it is new. */
  lemma {:induction false} PutKeysShape<V>(d: Dict<V>, k: string, v: V)
    ensures Keys(Put(d, k, v)) == if k in Keys(d) then Keys(d) else Keys(d) + [k]
  {
    if |d| == 0 {
      assert Keys(Put(d, k, v)) == [k];
    } else {
      var head, tail := d[0], d[1..];
      KeysCons(head, tail);
      assert d == [head] + tail;
      if head.0 == k {
        KeysCons((k, v), tail);
        assert Keys(d)[0] == k;
      } else {
        PutKeysShape(tail, k, v);
        KeysCons(head, Put(tail, k, v));
        assert (k in Keys(d)) == (k in Keys(tail));
      }
    }
  }

  lemma KeysCons<V>(p: (string, V), d: Dict<V>)
    ensures Keys([p] + d) == [p.0] + Keys(d)
  {
  }

  /** `d[k] = v` stores only `k` besides the keys already there, and never a key twice. */
  lemma PutKeys<V>(d: Dict<V>, k: string, v: V)
    ensures forall i :: 0 <= i < |Put(d, k, v)| ==> Put(d, k, v)[i].0 == k || Put(d, k, v)[i].0 in Keys(d)
    ensures Distinct(Keys(d)) ==> Distinct(Keys(Put(d, k, v)))
  {
    PutKeysShape(d, k, v);
    var before, after := Keys(d), Keys(Put(d, k, v));
    forall i | 0 <= i < |Put(d, k, v)|
      ensures Put(d, k, v)[i].0 == k || Put(d, k, v)[i].0 in before
    {
      assert Put(d, k, v)[i].0 == after[i];
      if i < |before| {
        assert after[i] == before[i];
      }
    }
  }

  /** After `d[k] = v` the pair `(k, v)` is stored, and every pair under another key survives. */
  lemma {:induction false} PutPairs<V>(d: Dict<V>, k: string, v: V)
    ensures (k, v) in Put(d, k, v)
    ensures forall p :: p in d && p.0 != k ==> p in Put(d, k, v)
  {
    if |d| > 0 && d[0].0 != k {
      PutPairs(d[1..], k, v);
      assert Put(d, k, v) == [d[0]] + Put(d[1..], k, v);
      forall p | p in d && p.0 != k
        ensures p in Put(d, k, v)
      {
        if p != d[0] {
          var i :| 0 <= i < |d| && d[i] == p;
          assert d[1..][i - 1] == p;
        }
      }
    }
  }

  /** Every zipped key is stored. */
  lemma {:induction false} FromZipCovers<V>(ks: seq<string>, vs: seq<V>)
    ensures forall i :: 0 <= i < |ks| && i < |vs| ==> ks[i] in Keys(FromZip(ks, vs))
    decreases |ks|
  {
    var n := if |ks| < |vs| then |ks| else |vs|;
    if n > 0 {
      var ks', vs' := ks[..n - 1], vs[..n - 1];
      var rest, k, v := FromZip(ks', vs'), ks[n - 1], vs[n - 1];
      assert FromZip(ks, vs) == Put(rest, k, v);
      FromZipCovers(ks', vs');
      PutKeysShape(rest, k, v);
      var after := Keys(Put(rest, k, v));
      assert k in after;
      forall i | 0 <= i < n - 1
        ensures ks[i] in after
      {
        assert ks'[i] == ks[i];
        assert ks'[i] in Keys(rest);
      }
    }
  }

  /** A key that does not occur again later holds its own value: a repeated key ends up
      with the value of its last occurrence. */
  lemma {:induction false} FromZipLastWins<V>(ks: seq<string>, vs: seq<V>)
    ensures forall i :: 0 <= i < |ks| && i < |vs| &&
                        (forall j :: i < j < |ks| && j < |vs| ==> ks[j] != ks[i]) ==>
                          (ks[i], vs[i]) in FromZip(ks, vs)
    decreases |ks|
  {
    var n := if |ks| < |vs| then |ks| else |vs|;
    if n > 0 {
      var ks', vs' := ks[..n - 1], vs[..n - 1];
      var rest, k, v := FromZip(ks', vs'), ks[n - 1], vs[n - 1];
      assert FromZip(ks, vs) == Put(rest, k, v);
      FromZipLastWins(ks', vs');
      PutPairs(rest, k, v);
      forall i | 0 <= i < n - 1 && (forall j :: i < j < |ks| && j < |vs| ==> ks[j] != ks[i])
        ensures (ks[i], vs[i]) in Put(rest, k, v)
      {
        assert ks'[i] == ks[i] && vs'[i] == vs[i];
        forall j | i < j < |ks'| && j < |vs'|
          ensures ks'[j] != ks'[i]
        {
          assert ks'[j] == ks[j];
        }
        assert (ks[i], vs[i]) in rest;
      }
    }
  }

  /** Storing under a key that is not there appends the pair. */
  lemma {:induction false} PutNewKey<V>(d: Dict<V>, k: string, v: V)
    requires k !in Keys(d)
    ensures Put(d, k, v) == d + [(k, v)]
  {
    if |d| > 0 {
      assert d[0].0 == Keys(d)[0];
      assert Keys(d[1..]) == Keys(d)[1..];
      PutNewKey(d[1..], k, v);
      assert [d[0]] + (d[1..] + [(k, v)]) == d + [(k, v)];
    }
  }

  /** With distinct keys, the comprehension keeps every pair, in order. */
  lemma {:induction false} FromZipDistinct<V>(ks: seq<string>, vs: seq<V>)
    ensures Distinct(ks) && |ks| == |vs| ==> FromZip(ks, vs) == Zip(ks, vs)
    ensures Distinct(ks) && |ks| == |vs| ==> Keys(FromZip(ks, vs)) == ks && Values(FromZip(ks, vs)) == vs
    decreases |ks|
  {
    var n := |ks|;
    if Distinct(ks) && |ks| == |vs| {
      if n > 0 {
        var ks', vs' := ks[..n - 1], vs[..n - 1];
        FromZipDistinct(ks', vs');
        assert FromZip(ks, vs) == Put(FromZip(ks', vs'), ks[n - 1], vs[n - 1]);
        assert ks[n - 1] !in Keys(Zip(ks', vs')) by {
          assert Keys(Zip(ks', vs')) == ks';
        }
        PutNewKey(Zip(ks', vs'), ks[n - 1], vs[n - 1]);
        assert Zip(ks', vs') + [(ks[n - 1], vs[n - 1])] == Zip(ks, vs);
      }
      assert Keys(Zip(ks, vs)) == ks;
      assert Values(Zip(ks, vs)) == vs;
    }
  }
}
