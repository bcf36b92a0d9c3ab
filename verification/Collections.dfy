// Witnesses from finite sets and maps.

module Collections {

  lemma SomeElement<T>(s: set<T>) returns (x: T)
    requires s != {}
    ensures x in s
  {
    x :| x in s;
  }

  lemma SomeKey<K, V>(m: map<K, V>, v: V) returns (k: K)
    requires v in m.Values
    ensures k in m && m[k] == v
  {
    k :| k in m && m[k] == v;
  }

  /** Adding a key adds its value to the range. */
  lemma AddedValue<K, V>(m: map<K, V>, k: K, v: V)
    requires k !in m
    ensures m[k := v].Values == m.Values + {v}
  {
    var m' := m[k := v];
    assert m'[k] == v;
    forall w | w in m.Values ensures w in m'.Values {
      var j := SomeKey(m, w);
      assert m'[j] == w;
    }
    forall w | w in m'.Values ensures w in m.Values + {v} {
      var j := SomeKey(m', w);
      if j != k { assert m[j] == w; }
    }
  }
}
