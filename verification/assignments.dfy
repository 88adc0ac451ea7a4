/**
  Key-by-key assignment in order, as a JavaScript `forEach` writing
  `obj[k] = v` or a Python loop writing `d[k] = v`: later writes win.
 */
module Assignments {
  import opened Wrappers

  /** Performs `m[k] := v` for each pair, first to last. */
  function AssignAll<K(==), V>(m: map<K, V>, kvs: seq<(K, V)>): map<K, V>
    decreases |kvs|
  {
    if |kvs| == 0 then m else AssignAll(m[kvs[0].0 := kvs[0].1], kvs[1..])
  }

  /** The value of the last pair whose key is `k`: the reference meaning of `AssignAll`. */
  function LastFor<K(==), V>(kvs: seq<(K, V)>, k: K): Option<V>
    decreases |kvs|
  {
    if |kvs| == 0 then None
    else if kvs[|kvs| - 1].0 == k then Some(kvs[|kvs| - 1].1)
    else LastFor(kvs[..|kvs| - 1], k)
  }

  lemma {:induction false} AssignAllSnoc<K, V>(m: map<K, V>, kvs: seq<(K, V)>, kv: (K, V))
    ensures AssignAll(m, kvs + [kv]) == AssignAll(m, kvs)[kv.0 := kv.1]
    decreases |kvs|
  {
    if |kvs| == 0 {
      assert kvs + [kv] == [kv];
    } else {
      assert (kvs + [kv])[1..] == kvs[1..] + [kv];
      AssignAllSnoc(m[kvs[0].0 := kvs[0].1], kvs[1..], kv);
    }
  }

  /**
    After the assignments a key is present iff it was before or some pair
    wrote it, and it holds the value of the last pair that wrote it.
   */
  lemma {:induction false} AssignAllLookup<K, V>(m: map<K, V>, kvs: seq<(K, V)>, k: K)
    ensures k in AssignAll(m, kvs) <==> k in m || LastFor(kvs, k).Some?
    ensures LastFor(kvs, k).Some? ==> AssignAll(m, kvs)[k] == LastFor(kvs, k).value
    ensures LastFor(kvs, k).None? && k in m ==> AssignAll(m, kvs)[k] == m[k]
    decreases |kvs|
  {
    if |kvs| > 0 {
      var init := kvs[..|kvs| - 1];
      var kv := kvs[|kvs| - 1];
      assert kvs == init + [kv];
      AssignAllSnoc(m, init, kv);
      AssignAllLookup(m, init, k);
    }
  }

  /** A key has a last pair exactly when some pair has it, and that pair is one of the list's. */
  lemma {:induction false} LastForFound<K, V>(kvs: seq<(K, V)>, k: K)
    ensures LastFor(kvs, k).Some? <==> exists v :: (k, v) in kvs
    ensures LastFor(kvs, k).Some? ==> (k, LastFor(kvs, k).value) in kvs
    decreases |kvs|
  {
    if |kvs| > 0 {
      var init := kvs[..|kvs| - 1];
      var kv := kvs[|kvs| - 1];
      assert kvs == init + [kv];
      LastForFound(init, k);
      assert forall p :: p in kvs <==> p in init || p == kv;
    }
  }
}
