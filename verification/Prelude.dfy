/** Shared vocabulary: optional values, results, identifiers and source-clock time. */
module Prelude {

  datatype Option<+T> = None | Some(value: T)

  datatype Result<+T, +E> = Ok(value: T) | Err(error: E)

  /** A UUID, by its number. */
  type Uuid = nat

  /** A naive source timestamp in microseconds since 0001-01-01T00:00, the epoch on which
      five-minute bins are aligned. */
  type Time = int

  const MICROS: int := 1_000_000

  /** The duration of `n` whole seconds. */
  function Seconds(n: int): Time {
    n * MICROS
  }

  /** Names an element of a non-empty set. */
  lemma Inhabitant<T>(s: set<T>) returns (x: T)
    requires s != {}
    ensures x in s
  {
    x :| x in s;
  }

  /** Writing the entry that is there changes nothing. */
  lemma SameEntry<K, V>(m: map<K, V>, k: K, v: V)
    requires k in m && m[k] == v
    ensures m[k := v] == m
  {
  }
}
