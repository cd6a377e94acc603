/** Shared vocabulary: optional values and a law of sequences. */
module Common {
  datatype Option<+T> = None | Some(value: T)

  /** What a map holds under a key, if anything. */
  function Lookup<V>(m: map<string, V>, k: string): Option<V> {
    if k in m then Some(m[k]) else None
  }

  lemma Regrouped<X>(a: seq<X>, b: seq<X>, c: seq<X>)
    ensures a + b + c == a + (b + c)
  {
  }
}
