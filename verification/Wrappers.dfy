/** Small value types shared by every model. */
module Wrappers {

  datatype Option<+T> = None | Some(value: T)

  /** The value stored under a key, or a default when there is none. */
  function GetOr<K, V>(m: map<K, V>, k: K, default: V): V {
    if k in m then m[k] else default
  }

  /** The newest `cap` elements of a queue that evicts from its front. */
  function Newest<T>(xs: seq<T>, cap: nat): (r: seq<T>)
    ensures |r| == if |xs| <= cap then |xs| else cap
    ensures r == xs[|xs| - |r|..]
    ensures |xs| <= cap ==> r == xs
  {
    if |xs| <= cap then xs else xs[|xs| - cap..]
  }

  /** Pushing at the back and evicting at the front brings in nothing but the new element. */
  lemma NewestMembers<T>(xs: seq<T>, x: T, cap: nat)
    ensures forall y :: y in Newest(xs + [x], cap) ==> y == x || y in xs
  {
  }
}
