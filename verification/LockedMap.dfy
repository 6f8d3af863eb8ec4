/** MyMap, the map from keys to pointers that threads share. */
module LockedMap {

  /** A map guarded by a lock; every operation is one critical section. */
  class MyMap<K(==), V> {
    var m_map: map<K, V>

    constructor ()
      ensures m_map == map[]
    {
      m_map := map[];
    }

    method Find(k: K, v: V) returns (found: bool, r: V)
      ensures found <==> k in m_map
      ensures r == if k in m_map then m_map[k] else v
    {
      if k !in m_map {
        return false, v;
      }
      return true, m_map[k];
    }

    method Insert(k: K, v: V)
      modifies this
      ensures m_map == old(m_map)[k := v]
    {
      m_map := m_map[k := v];
    }

    method Erase(k: K)
      modifies this
      ensures m_map == old(m_map) - {k}
    {
      m_map := m_map - {k};
    }
  }
}
