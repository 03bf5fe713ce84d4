/**
 * Solidity mappings into uint256. The EVM does not keep zero words, so a mapping holds
 * its non-zero entries only and two mappings that read the same are the same.
 */
module Storage {
  import opened Words

  type Mapping<!K(==)> = m: map<K, uint256> | forall k | k in m :: m[k] != 0

  function Get<K>(m: Mapping<K>, k: K): uint256 {
    if k in m then m[k] else 0
  }

  function Put<K>(m: Mapping<K>, k: K, v: uint256): Mapping<K> {
    if v == 0 then m - {k} else m[k := v]
  }

  lemma PutGet<K(!new)>(m: Mapping<K>, k: K, v: uint256)
    ensures forall j :: Get(Put(m, k, v), j) == if j == k then v else Get(m, j)
  {
  }

  lemma Extensional<K(!new)>(m: Mapping<K>, n: Mapping<K>)
    requires forall k :: Get(m, k) == Get(n, k)
    ensures m == n
  {
    forall k
      ensures k in m <==> k in n
      ensures k in m ==> m[k] == n[k]
    {
      assert Get(m, k) == Get(n, k);
    }
  }

  /** The sum of all entries. */
  ghost function Total<K>(m: Mapping<K>): nat {
    if m == map[] then 0
    else
      var k :| k in m;
      m[k] + Total(m - {k})
  }

  lemma RemovedInTurn<K>(m: Mapping<K>, j: K, k: K)
    requires j != k
    ensures (m - {j}) - {k} == (m - {k}) - {j}
    ensures Get(m - {j}, k) == Get(m, k) && Get(m - {k}, j) == Get(m, j)
  {
  }

  lemma {:induction false} TotalSplit<K>(m: Mapping<K>, k: K)
    ensures Total(m) == Get(m, k) + Total(m - {k})
    decreases |m|
  {
    if m == map[] || k !in m {
      assert m - {k} == m;
    } else {
      var j :| j in m && Total(m) == m[j] + Total(m - {j});
      if j != k {
        hide Total;
        TotalSplit(m - {j}, k);
        TotalSplit(m - {k}, j);
        RemovedInTurn(m, j, k);
      }
    }
  }

  lemma PutTotal<K>(m: Mapping<K>, k: K, v: uint256)
    ensures Total(Put(m, k, v)) == Total(m) - Get(m, k) + v
  {
    TotalSplit(m, k);
    TotalSplit(Put(m, k, v), k);
    assert Put(m, k, v) - {k} == m - {k};
  }

  lemma TwoEntriesWithinTotal<K>(m: Mapping<K>, j: K, k: K)
    ensures Get(m, j) <= Total(m)
    ensures j != k ==> Get(m, j) + Get(m, k) <= Total(m)
  {
    TotalSplit(m, j);
    TotalSplit(m - {j}, k);
  }
}
