/** Optional values, and facts about finite sets and maps that loops over a map's keys need. */
module Collections {

  datatype Option<+T> = None | Some(value: T)

  function Lookup<K, V>(m: map<K, V>, k: K): (r: Option<V>) {
    if k in m then Some(m[k]) else None
  }

  lemma OneOf<T>(s: set<T>) returns (k: T)
    requires s != {}
    ensures k in s
  {
    k :| k in s;
  }

  lemma KeyOfValue<K, V>(m: map<K, V>, v: V) returns (k: K)
    requires v in m.Values
    ensures k in m && m[k] == v
  {
    k :| k in m && m[k] == v;
  }

  /** A loop that takes the keys of `m` one by one has, with `rest` still to come, done `m - rest`. */
  lemma OneKeyMore<K, V>(m: map<K, V>, rest: set<K>, k: K)
    requires k in rest && rest <= m.Keys
    ensures k !in m - rest && |rest - {k}| < |rest|
    ensures m - (rest - {k}) == (m - rest)[k := m[k]]
  {
  }

  /** A number above all of some others. */
  ghost function Above(s: set<nat>): (n: nat)
    ensures forall m :: m in s ==> m < n
  {
    if s == {} then 0
    else
      var m :| m in s;
      var rest := Above(s - {m});
      assert forall x :: x in s ==> x == m || x in s - {m};
      if rest <= m then m + 1 else rest
  }
}
