/** Types shared by the models of the scan engine and the *arr poller. */
module Common {
  datatype Option<+T> = None | Some(value: T)

  /** The `item.state` vocabulary, one constructor per value of the column's CHECK constraint. */
  datatype ItemState =
    | RemoteOnly | Queued | Downloading | Partial | Stopped | Downloaded | Excluded
    | Verifying | Verified | Corrupt | Extracting | Extracted | ExtractFailed
    | TransferFailed | LocalOnly | RemovedLocal | RemovedBoth

  /** Reading a dict with `.get(key)`. */
  function Get<K, V>(m: map<K, V>, k: K): (v: Option<V>)
    ensures v.Some? <==> k in m
    ensures v.Some? ==> v.value == m[k]
  {
    if k in m then Some(m[k]) else None
  }

  /** `dict.pop(key, None)`, ignoring the value. */
  function Without<K(!new), V>(m: map<K, V>, k: K): (r: map<K, V>)
    ensures k !in r
    ensures forall j :: j != k ==> Get(r, j) == Get(m, j)
  {
    map j | j in m && j != k :: m[j]
  }

  lemma SameEntries<K(!new), V>(m: map<K, V>, n: map<K, V>)
    requires forall k :: Get(m, k) == Get(n, k)
    ensures m == n
  {
    forall k: K
      ensures k in m <==> k in n
      ensures k in m ==> m[k] == n[k]
    {
      assert Get(m, k) == Get(n, k);
    }
  }

  /** `sum(m.values())` */
  ghost function Total<K(!new)>(m: map<K, nat>): nat {
    if exists k :: k in m then
      var k :| k in m;
      m[k] + Total(m - {k})
    else 0
  }

  /** The sum does not depend on the order the entries are taken in. */
  lemma {:induction false} TotalTakesAny<K(!new)>(m: map<K, nat>, k: K)
    requires k in m
    ensures Total(m) == m[k] + Total(m - {k})
    decreases |m|
  {
    var j :| j in m && Total(m) == m[j] + Total(m - {j});
    if j != k {
      TotalTakesAny(m - {j}, k);
      TotalTakesAny(m - {k}, j);
      assert m - {j} - {k} == m - {k} - {j};
    }
  }

  function Min(a: int, b: int): (m: int)
    ensures m <= a && m <= b && (m == a || m == b)
  {
    if a < b then a else b
  }
}
