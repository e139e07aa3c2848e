/** Maps that iterate in insertion order, as JavaScript's `Map` does. */
module OrderedMaps {
  type Ordered<V> = seq<(string, V)>

  /** `Map.set`: an existing key keeps its place. */
  function Put<V>(m: Ordered<V>, k: string, v: V): Ordered<V> {
    if m == [] then [(k, v)]
    else if m[0].0 == k then [(k, v)] + m[1..]
    else [m[0]] + Put(m[1..], k, v)
  }

  function ToMap<V>(m: Ordered<V>): map<string, V> {
    if m == [] then map[] else ToMap(m[1..])[m[0].0 := m[0].1]
  }

  predicate Unique<V>(m: Ordered<V>) {
    m == [] || (m[0].0 !in ToMap(m[1..]) && Unique(m[1..]))
  }

  lemma {:induction false} PutIsUpdate<V>(m: Ordered<V>, k: string, v: V)
    requires Unique(m)
    ensures Unique(Put(m, k, v)) && ToMap(Put(m, k, v)) == ToMap(m)[k := v]
  {
    if m != [] && m[0].0 != k {
      PutIsUpdate(m[1..], k, v);
      assert Put(m, k, v)[1..] == Put(m[1..], k, v);
    } else if m != [] {
      assert Put(m, k, v)[1..] == m[1..];
    }
  }

  function Values<V>(m: Ordered<V>): seq<V> {
    if m == [] then [] else [m[0].1] + Values(m[1..])
  }

  lemma {:induction false} PutAppends<V>(m: Ordered<V>, k: string, v: V)
    requires k !in ToMap(m)
    ensures Put(m, k, v) == m + [(k, v)]
  {
    if m != [] {
      PutAppends(m[1..], k, v);
    }
  }

  lemma {:induction false} InitOf<V>(m: Ordered<V>)
    requires m != [] && Unique(m)
    ensures var init, last := m[..|m|-1], m[|m|-1];
            Unique(init) && last.0 !in ToMap(init) && ToMap(m) == ToMap(init)[last.0 := last.1]
  {
    if |m| > 1 {
      InitOf(m[1..]);
      assert m[..|m|-1][1..] == m[1..][..|m[1..]|-1];
    }
  }
}
