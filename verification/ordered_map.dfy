/** A JavaScript plain object seen as an insertion-ordered map from string keys:
    `Object.keys` lists keys in insertion order, and assigning to a key that is
    already present replaces its value without moving it. */
module OrderedMap {
  import opened Wrappers

  predicate UniqueKeys<V>(m: seq<(string, V)>) {
    forall i, j :: 0 <= i < j < |m| ==> m[i].0 != m[j].0
  }

  /** An object's own properties, in the order `Object.entries` returns them. */
  type OMap<V> = m: seq<(string, V)> | UniqueKeys(m) witness []

  predicate Distinct(ks: seq<string>) {
    forall i, j :: 0 <= i < j < |ks| ==> ks[i] != ks[j]
  }

  /** An object literal: its keys are written out distinct. */
  function FromEntries<V>(entries: seq<(string, V)>): OMap<V>
    requires Distinct(Keys(entries))
  {
    entries
  }

  /** `Object.keys(m)` */
  function Keys<V>(m: seq<(string, V)>): (ks: seq<string>)
    ensures |ks| == |m|
    ensures forall i :: 0 <= i < |m| ==> ks[i] == m[i].0
  {
    seq(|m|, i requires 0 <= i < |m| => m[i].0)
  }

  /** `m[k]`, `None` when `k` is not an own key. */
  function Get<V>(m: seq<(string, V)>, k: string): Option<V>
    decreases |m|
  {
    if |m| == 0 then None
    else if m[0].0 == k then Some(m[0].1)
    else Get(m[1..], k)
  }

  lemma {:induction false} GetSomeIffKey<V>(m: seq<(string, V)>, k: string)
    ensures Get(m, k).Some? <==> k in Keys(m)
    decreases |m|
  {
    if |m| > 0 {
      GetSomeIffKey(m[1..], k);
      assert Keys(m) == [m[0].0] + Keys(m[1..]);
    }
  }

  /** In a map with unique keys, looking up the key stored at a position yields the value stored there. */
  lemma {:induction false} GetAt<V>(m: OMap<V>, i: nat)
    requires i < |m|
    ensures Get(m, m[i].0) == Some(m[i].1)
    decreases i
  {
    if i > 0 {
      GetAt(m[1..], i - 1);
    }
  }

  lemma ConsUnique<V>(x: (string, V), t: OMap<V>)
    requires x.0 !in Keys(t)
    ensures UniqueKeys([x] + t)
  {
    var c := [x] + t;
    forall i, j | 0 <= i < j < |c|
      ensures c[i].0 != c[j].0
    {
      if i == 0 {
        assert c[j].0 == Keys(t)[j - 1];
      } else {
        assert c[i] == t[i - 1] && c[j] == t[j - 1];
      }
    }
  }

  lemma HeadNotInTail<V>(m: OMap<V>)
    requires |m| > 0
    ensures m[0].0 !in Keys(m[1..])
  {
    forall j | 0 <= j < |m| - 1
      ensures Keys(m[1..])[j] != m[0].0
    {
      assert m[1..][j] == m[j + 1];
    }
  }

  lemma KeysCons<V>(x: (string, V), t: seq<(string, V)>)
    ensures Keys([x] + t) == [x.0] + Keys(t)
  {
  }

  /** Prepending an entry whose key the tail lacks gives a map with the entry's key first. */
  lemma ConsMap<V>(x: (string, V), t: OMap<V>)
    requires x.0 !in Keys(t)
    ensures UniqueKeys([x] + t)
    ensures Keys([x] + t) == [x.0] + Keys(t)
    ensures ([x] + t)[1..] == t
  {
    ConsUnique(x, t);
    KeysCons(x, t);
  }

  /** `m[k] = v`: a new key is appended, an existing key keeps its position. */
  function Put<V>(m: OMap<V>, k: string, v: V): (r: OMap<V>)
    ensures Get(r, k) == Some(v)
    ensures k in Keys(m) ==> Keys(r) == Keys(m)
    ensures k !in Keys(m) ==> Keys(r) == Keys(m) + [k]
    decreases |m|
  {
    if |m| == 0 then [(k, v)]
    else
      var tail: OMap<V> := m[1..];
      KeysCons(m[0], tail);
      assert m == [m[0]] + tail;
      HeadNotInTail(m);
      if m[0].0 == k then
        ConsMap((k, v), tail);
        [(k, v)] + tail
      else
        var t' := Put(tail, k, v);
        ConsMap(m[0], t');
        [m[0]] + t'
  }

  /** Assigning one key leaves every other key's lookup unchanged. */
  lemma {:induction false} GetPutOther<V>(m: OMap<V>, k: string, v: V, k': string)
    requires k' != k
    ensures Get(Put(m, k, v), k') == Get(m, k')
    decreases |m|
  {
    if |m| > 0 && m[0].0 != k {
      var tail: OMap<V> := m[1..];
      GetPutOther(tail, k, v, k');
      assert Put(m, k, v)[1..] == Put(tail, k, v);
    } else if |m| > 0 {
      assert Put(m, k, v)[1..] == m[1..];
    }
  }
}
