/** Values shared by every part of the tracking engine. */
module Types {

  /** A value that may be absent: a JSON key that is missing, a stat() call that failed. */
  datatype Option<T> = None | Some(value: T)

  /** A file path, as the directory enumeration reports it. */
  type Path = string

  /** A calendar date. Which date a timestamp falls on (datetime.date.fromtimestamp, local
      time zone) is not modelled: every member that needs it takes a `real -> Date` parameter. */
  datatype Date = Date(year: int, month: int, day: int)

  /** The last element of a non-empty sequence (Python's `xs[-1]`). */
  function Last<T>(xs: seq<T>): T
    requires xs != []
  {
    xs[|xs| - 1]
  }

  /** Taking out every key leaves nothing. */
  lemma RemoveAll<K, V>(m: map<K, V>)
    ensures m - m.Keys == map[]
  {
    assert (m - m.Keys).Keys == {};
  }

  /** Handing one more key back from the pending set `todo` to the visited part of a map. */
  lemma RemoveStep<K, V>(m: map<K, V>, todo: set<K>, k: K)
    requires k in todo && todo <= m.Keys
    ensures k !in m - todo
    ensures m - (todo - {k}) == (m - todo)[k := m[k]]
  {
    var a, b := m - (todo - {k}), (m - todo)[k := m[k]];
    assert a.Keys == b.Keys;
    forall j | j in a ensures a[j] == b[j] {}
  }

  /** Taking out no key leaves the map as it is. */
  lemma RemoveNone<K, V>(m: map<K, V>)
    ensures m - {} == m
  {
    assert (m - {}).Keys == m.Keys;
  }
}
