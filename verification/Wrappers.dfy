/** The outcome types the models share. */
module Wrappers {
  datatype Option<+T> = None | Some(value: T)

  datatype Result<+T, +E> = Success(value: T) | Failure(error: E)

  // A map less one of its keys.
  function Without<K, V>(m: map<K, V>, gone: K): map<K, V> {
    map k | k in m && k != gone :: m[k]
  }

  lemma WithoutInserted<K, V>(m: map<K, V>, key: K, value: V)
    requires key !in m
    ensures Without(m[key := value], key) == m
  {
  }
}
