/** The request and response shapes of the document store's client, as far as the
    hash-primary-key accessor builds or reads them. Attribute values are of an
    arbitrary type `V` (the client accepts any JavaScript value). */
module DocumentClient {
  import opened Wrappers

  /** A primary key: attribute name to value. */
  type Key<V> = map<string, V>

  /** A stored item in the client's native form: attribute name to value. */
  type Item<V> = map<string, V>

  /** The action of one attribute update. */
  datatype Action = PUT | ADD | DELETE

  /** One entry of an update's `AttributeUpdates`: `{Action, Value}`. */
  datatype AttributeValueUpdate<V> = AttributeValueUpdate(action: Action, value: V)

  /** `AttributeUpdates`: attribute store name to the update applied to it. */
  type AttributeUpdates<V> = map<string, AttributeValueUpdate<V>>

  datatype ReturnConsumedCapacity = INDEXES | TOTAL | NONE

  datatype DeleteInput<V> = DeleteInput(tableName: string, key: Key<V>)

  datatype GetInput<V> = GetInput(tableName: string, key: Key<V>, consistentRead: bool)

  /** `Item` is absent when no item has the requested key. */
  datatype GetOutput<V> = GetOutput(item: Option<Item<V>>)

  datatype UpdateInput<V> = UpdateInput(tableName: string, key: Key<V>, attributeUpdates: AttributeUpdates<V>)

  datatype ScanInput<V> = ScanInput(
    tableName: string,
    limit: Option<int>,
    exclusiveStartKey: Option<Key<V>>,
    returnConsumedCapacity: ReturnConsumedCapacity,
    totalSegments: Option<int>,
    segment: Option<int>)

  /** Every field of a scan response is optional; `C` is the consumed-capacity record. */
  datatype ScanOutput<V, C> = ScanOutput(
    items: Option<seq<Item<V>>>,
    count: Option<int>,
    scannedCount: Option<int>,
    lastEvaluatedKey: Option<Key<V>>,
    consumedCapacity: Option<C>)

  /** One entry of a batch write; the accessor only ever builds deletions. */
  datatype WriteRequest<V> = DeleteRequest(key: Key<V>)

  /** The arguments the accessor hands the batch-get helpers: the table name and the keys. */
  datatype BatchGetInput<V> = BatchGetInput(tableName: string, keys: seq<Key<V>>)

  /** The arguments the accessor hands the batch-write helper: the table name and the requests. */
  datatype BatchWriteInput<V> = BatchWriteInput(tableName: string, requests: seq<WriteRequest<V>>)
}
