/** The hash-primary-key accessor of a table: the requests it sends to the document store
    for delete, get, scan, update and the batch operations, and how it turns the responses
    into records. The store's responses are inputs here, and the codec's `deserialize`
    (for this table) is the parameter `deserialize`. */
module Query {
  import opened Wrappers
  import opened Seqs
  import opened DocumentClient
  import opened Metadata
  import opened Projection

  /** An accessor: the table it serves and its hash-key declaration. */
  datatype HashPrimaryKey = HashPrimaryKey(table: TableMetadata, metadata: HashPrimaryKeyMetadata)

  /** Options of `get`; the default is `{consistent: false}`. */
  datatype GetOptions = GetOptions(consistent: bool)

  /** Options of `scan`; every one of them may be left out. */
  datatype ScanOptions<V> = ScanOptions(
    limit: Option<int>,
    totalSegments: Option<int>,
    segment: Option<int>,
    exclusiveStartKey: Option<Key<V>>)

  /** What `scan` returns. */
  datatype ScanResult<R, V, C> = ScanResult(
    records: seq<R>,
    count: Option<int>,
    scannedCount: Option<int>,
    lastEvaluatedKey: Option<Key<V>>,
    consumedCapacity: Option<C>)

  /** The key of the item whose hash key is `hashKey`: one entry, under the hash attribute's
      store name. */
  function KeyFor<V>(pk: HashPrimaryKey, hashKey: V): (key: Key<V>)
    ensures |key| == 1
    ensures pk.metadata.hash.name in key && key[pk.metadata.hash.name] == hashKey
  {
    map[pk.metadata.hash.name := hashKey]
  }

  /** The request `delete` sends. */
  function DeleteInputFor<V>(pk: HashPrimaryKey, hashKey: V): (input: DeleteInput<V>)
    ensures input.tableName == pk.table.name
    ensures input.key.Keys == {pk.metadata.hash.name} && input.key[pk.metadata.hash.name] == hashKey
  {
    DeleteInput(pk.table.name, KeyFor(pk, hashKey))
  }

  /** The request `get` sends: a strongly consistent read only when asked for. */
  function GetInputFor<V>(pk: HashPrimaryKey, hashKey: V, options: Option<GetOptions>): (input: GetInput<V>)
    ensures input.tableName == pk.table.name
    ensures input.key.Keys == {pk.metadata.hash.name} && input.key[pk.metadata.hash.name] == hashKey
    ensures input.consistentRead <==> options.Some? && options.value.consistent
  {
    var effective := options.GetOr(GetOptions(false));
    GetInput(pk.table.name, KeyFor(pk, hashKey), effective.consistent)
  }

  /** What `get` returns for the store's response: null when there is no item, otherwise
      the item deserialized. */
  function GetRecord<V, R>(output: GetOutput<V>, deserialize: Item<V> -> R): (record: Option<R>)
    ensures record.None? <==> output.item.None?
    ensures output.item.Some? ==> record == Some(deserialize(output.item.value))
  {
    match output.item
    case None => None
    case Some(item) => Some(deserialize(item))
  }

  /** The request `scan` sends: the caller's page and segment settings, unchanged, with the
      total consumed capacity requested. */
  function ScanInputFor<V>(pk: HashPrimaryKey, options: ScanOptions<V>): (input: ScanInput<V>)
    ensures input.tableName == pk.table.name && input.returnConsumedCapacity == TOTAL
    ensures input.limit == options.limit && input.exclusiveStartKey == options.exclusiveStartKey
    ensures input.totalSegments == options.totalSegments && input.segment == options.segment
  {
    ScanInput(pk.table.name, options.limit, options.exclusiveStartKey, TOTAL, options.totalSegments, options.segment)
  }

  /** What `scan` returns for the store's response: every item of the page deserialized, in
      order (none when the response has no items), and the counters, the continuation key
      and the consumed capacity passed through. */
  function ScanPage<V, R, C>(output: ScanOutput<V, C>, deserialize: Item<V> -> R): (page: ScanResult<R, V, C>)
    ensures output.items.None? ==> page.records == []
    ensures output.items.Some? ==> |page.records| == |output.items.value|
    ensures output.items.Some? ==>
      forall i :: 0 <= i < |output.items.value| ==> page.records[i] == deserialize(output.items.value[i])
    ensures page.count == output.count && page.scannedCount == output.scannedCount
    ensures page.lastEvaluatedKey == output.lastEvaluatedKey && page.consumedCapacity == output.consumedCapacity
  {
    ScanResult(Map(deserialize, output.items.GetOr([])),
               output.count, output.scannedCount, output.lastEvaluatedKey, output.consumedCapacity)
  }

  /** What `batchGet` and `batchGetFull` hand to the batch-get helper: this table's name and
      one key per hash key, in order. */
  function BatchGetInputFor<V>(pk: HashPrimaryKey, hashKeys: seq<V>): (input: BatchGetInput<V>)
    ensures input.tableName == pk.table.name
    ensures |input.keys| == |hashKeys|
    ensures forall i :: 0 <= i < |hashKeys| ==>
      input.keys[i].Keys == {pk.metadata.hash.name} && input.keys[i][pk.metadata.hash.name] == hashKeys[i]
  {
    BatchGetInput(pk.table.name, Map((hashKey: V) => KeyFor(pk, hashKey), hashKeys))
  }

  /** What `batchGet` returns for the items the trimming helper found: each deserialized,
      in the helper's order. */
  function BatchGetRecords<V, R>(items: seq<Item<V>>, deserialize: Item<V> -> R): (records: seq<R>)
    ensures |records| == |items|
    ensures forall i :: 0 <= i < |items| ==> records[i] == deserialize(items[i])
  {
    Map(deserialize, items)
  }

  /** What `batchGetFull` returns for the full helper's slots: slot for slot, an absent slot
      stays absent and a present one is deserialized. */
  function BatchGetFullRecords<V, R>(slots: seq<Option<Item<V>>>, deserialize: Item<V> -> R): (records: seq<Option<R>>)
    ensures |records| == |slots|
    ensures forall i :: 0 <= i < |slots| ==> (records[i].None? <==> slots[i].None?)
    ensures forall i :: 0 <= i < |slots| && slots[i].Some? ==> records[i] == Some(deserialize(slots[i].value))
  {
    Map((slot: Option<Item<V>>) => if slot.Some? then Some(deserialize(slot.value)) else None, slots)
  }

  /** What `batchDelete` hands to the batch-write helper: this table's name and one deletion
      per hash key, in order. */
  function BatchDeleteInputFor<V>(pk: HashPrimaryKey, hashKeys: seq<V>): (input: BatchWriteInput<V>)
    ensures input.tableName == pk.table.name
    ensures |input.requests| == |hashKeys|
    ensures forall i :: 0 <= i < |hashKeys| ==>
      input.requests[i].key.Keys == {pk.metadata.hash.name} && input.requests[i].key[pk.metadata.hash.name] == hashKeys[i]
  {
    BatchWriteInput(pk.table.name, Map((hashKey: V) => DeleteRequest(KeyFor(pk, hashKey)), hashKeys))
  }

  /** `delete` and `get` send the same key for a hash key, whatever the read options. */
  lemma PointKeysAgree<V>(pk: HashPrimaryKey, hashKey: V, options: Option<GetOptions>)
    ensures DeleteInputFor(pk, hashKey).key == GetInputFor(pk, hashKey, options).key == KeyFor(pk, hashKey)
  {
  }

  /** The request `update` sends: the key of `hashKey` and the attribute updates selected
      from `changes` by walking the declared attributes in order. */
  method Update<V>(pk: HashPrimaryKey, hashKey: V, changes: map<string, Change<V>>) returns (input: UpdateInput<V>)
    ensures input == UpdateInput(pk.table.name, KeyFor(pk, hashKey), Project(pk.table.attributes, changes))
  {
    var attributes := pk.table.attributes;
    var attributeUpdates: AttributeUpdates<V> := map[];
    var i := 0;
    while i < |attributes|
      invariant 0 <= i <= |attributes|
      invariant attributeUpdates == Project(attributes[..i], changes)
    {
      var attr := attributes[i];
      if attr.propertyName in changes {
        var change := changes[attr.propertyName];
        attributeUpdates := attributeUpdates[attr.name := AttributeValueUpdate(change.0, change.1)];
      }
      assert attributes[..i + 1][..i] == attributes[..i];
      i := i + 1;
    }
    assert attributes[..i] == attributes;
    input := UpdateInput(pk.table.name, KeyFor(pk, hashKey), attributeUpdates);
  }
}
