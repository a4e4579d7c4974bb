// Small shared vocabulary: optional values and maps of counters.
module Basics {

  datatype Option<+T> = None | Some(value: T)

  // A counter that was never touched reads as zero, as a Prometheus counter vector does.
  function Get<K>(m: map<K, nat>, k: K): nat {
    if k in m then m[k] else 0
  }

  function Bump<K>(m: map<K, nat>, k: K, n: nat): map<K, nat> {
    m[k := Get(m, k) + n]
  }
}
