/** A single table held in memory, as a reference against which the accessor's requests
    are read: an item is stored under its key, a deletion removes the key, a get looks it
    up. Every get is answered as a strongly consistent read: the reference store keeps no
    stale copies, so it says nothing about eventual reads. It states what the requests
    mean, not how the store implements them. */
module ReferenceStore {
  import opened Wrappers
  import opened DocumentClient
  import opened Query

  type Table<V(==)> = map<Key<V>, Item<V>>

  function ApplyDelete<V(==)>(table: Table<V>, input: DeleteInput<V>): Table<V>
  {
    table - {input.key}
  }

  /** A strongly consistent read of `input.key`. */
  function ApplyGet<V(==)>(table: Table<V>, input: GetInput<V>): GetOutput<V>
    requires input.consistentRead
  {
    GetOutput(if input.key in table then Some(table[input.key]) else None)
  }

  /** The batch-write helper's effect once every request has been processed. */
  function ApplyWrites<V(==)>(table: Table<V>, requests: seq<WriteRequest<V>>): Table<V>
  {
    if requests == [] then table else ApplyWrites(table - {requests[0].key}, requests[1..])
  }

  /** `delete` and `get` address the same item: after deleting a hash key, a strongly
      consistent get of it returns null. */
  lemma DeleteThenGetReturnsNull<V, R>(pk: HashPrimaryKey, table: Table<V>, hashKey: V, deserialize: Item<V> -> R)
    ensures GetRecord(ApplyGet(ApplyDelete(table, DeleteInputFor(pk, hashKey)),
                               GetInputFor(pk, hashKey, Some(GetOptions(true)))), deserialize) == None
  {
  }

  /** Applying write requests removes exactly the keys they carry. */
  lemma {:induction false} ApplyWritesRemovesKeys<V>(table: Table<V>, requests: seq<WriteRequest<V>>)
    ensures ApplyWrites(table, requests) == table - (set i | 0 <= i < |requests| :: requests[i].key)
  {
    if requests != [] {
      var rest := requests[1..];
      ApplyWritesRemovesKeys(table - {requests[0].key}, rest);
      var all := set i | 0 <= i < |requests| :: requests[i].key;
      var later := set i | 0 <= i < |rest| :: rest[i].key;
      assert all == {requests[0].key} + later by {
        forall k | k in all ensures k in {requests[0].key} + later {
          var i :| 0 <= i < |requests| && requests[i].key == k;
          if i > 0 { assert rest[i - 1] == requests[i]; }
        }
        forall k | k in later ensures k in all {
          var i :| 0 <= i < |rest| && rest[i].key == k;
          assert requests[i + 1] == rest[i];
        }
      }
    }
  }

  /** A fully processed `batchDelete` removes exactly the items of the given hash keys. */
  lemma BatchDeleteRemovesExactlyKeys<V>(pk: HashPrimaryKey, table: Table<V>, hashKeys: seq<V>)
    ensures ApplyWrites(table, BatchDeleteInputFor(pk, hashKeys).requests)
         == table - (set i | 0 <= i < |hashKeys| :: KeyFor(pk, hashKeys[i]))
  {
    var requests := BatchDeleteInputFor(pk, hashKeys).requests;
    ApplyWritesRemovesKeys(table, requests);
    var carried := set i | 0 <= i < |requests| :: requests[i].key;
    var given := set i | 0 <= i < |hashKeys| :: KeyFor(pk, hashKeys[i]);
    assert carried == given by {
      forall i | 0 <= i < |hashKeys| ensures requests[i].key == KeyFor(pk, hashKeys[i]) {
        assert requests[i].key.Keys == KeyFor(pk, hashKeys[i]).Keys;
      }
    }
  }
}
