/** The due queries: the earliest rows first, up to a limit. */
module DueOrder {

  /** The batch holds the earliest due keys, each once and in order: all of them when the limit allows. */
  ghost predicate IsBatch<K(!new)>(due: map<K, int>, limit: nat, batch: seq<K>) {
    && |batch| <= limit && (forall i | 0 <= i < |batch| :: batch[i] in due)
    && (forall i, k | 0 <= i < k < |batch| :: batch[i] != batch[k] && due[batch[i]] <= due[batch[k]])
    && (forall i, k | 0 <= i < |batch| && k in due && k !in batch :: due[batch[i]] <= due[k])
    && (|batch| < limit ==> forall k | k in due :: k in batch)
  }

  /** The earliest of the keys left. */
  method First<K(!new, ==)>(due: map<K, int>, left: set<K>) returns (best: K)
    requires left != {} && left <= due.Keys
    ensures best in left && forall k | k in left :: due[best] <= due[k]
  {
    best :| best in left;
    var todo := left - {best};
    while todo != {}
      invariant best in left && todo <= left && forall k | k in left - todo :: due[best] <= due[k]
      decreases todo
    {
      var k :| k in todo;
      if due[k] < due[best] { best := k; }
      todo := todo - {k};
    }
  }

  /** ORDER BY the due time LIMIT limit. */
  method Earliest<K(!new, ==)>(due: map<K, int>, limit: nat) returns (batch: seq<K>)
    ensures IsBatch(due, limit, batch)
  {
    batch := [];
    var left := due.Keys;
    while |batch| < limit && left != {}
      invariant |batch| <= limit && (forall k :: k in batch <==> k in due && k !in left) && left <= due.Keys
      invariant forall i, k | 0 <= i < k < |batch| :: batch[i] != batch[k] && due[batch[i]] <= due[batch[k]]
      invariant forall i, k | 0 <= i < |batch| && k in left :: due[batch[i]] <= due[k]
      decreases left
    {
      var best := First(due, left);
      assert best !in batch;
      batch, left := batch + [best], left - {best};
    }
  }
}
