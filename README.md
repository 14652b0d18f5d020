# HashPrimaryKey accessor of dynamo-types, modelled in Dafny

This project models `HashPrimaryKey` in `src/query/hash_primary_key.ts`. It is the
accessor a table uses for point `delete`, `get` and `update` by hash key, for one-page
`scan`, and for `batchGet`, `batchGetFull` and `batchDelete` over a list of hash keys.
What the accessor does by itself is shape things. It builds the requests it sends to the
document store's client, and it turns the client's responses into records. The model
covers exactly that:

- `Query.KeyFor` builds the single-entry key `{hash.name: hashKey}`. The delete, get and
  update requests carry it, and so does every key of the batch requests.
- `Query.Update` builds the `AttributeUpdates` of an update with a loop over the declared
  attributes, as the source's `forEach` does. `Projection.Project` is its specification, a
  left fold over the attribute list. The `Projection` lemmas say what it means: which keys
  appear, with which `{Action, Value}`, and that undeclared changes are dropped.
- The response shaping of `get`, `scan`, `batchGet` and `batchGetFull` is in `Query`.
- `ReferenceStore` is an in-memory single-table store used only to read the requests
  against. It shows that a strongly consistent get after a delete of the same hash key finds
  nothing, and that
  a fully processed batch delete removes exactly the given keys.

Things outside the accessor are inputs of the model:
- The store client's responses (`GetOutput`, `ScanOutput`) are values passed in.
- The results of the batch helpers (the trimmed item list, the full slot list) are
  passed in too.
- The codec's `deserialize` for the table is a function parameter.

Attribute values are of an arbitrary type `V`, records of a type `R`.

Files: `wrappers.dfy` (Option), `seqs.dfy` (a model of `Array.prototype.map`),
`document_client.dfy` (request and response shapes), `metadata.dfy` (declared
attributes), `projection.dfy`, `query.dfy`, `reference_store.dfy`.

## Model

| member | source | states |
|---|---|---|
| `Query.KeyFor` | src/query/hash_primary_key.ts:154-156 | the key has exactly one entry, the hash attribute's store name mapped to the given hash key; the same key literal is built at lines 25-27 (delete), 35-37 (get), 80-82 and 98-100 (batchGet, batchGetFull) and 118-120 (batchDelete), all of which use this member |
| `Query.PointKeysAgree` | src/query/hash_primary_key.ts:22-39 | delete and get send the same single-entry key for one hash key, whatever the read options |
| `Query.DeleteInputFor` | src/query/hash_primary_key.ts:23-28 | delete targets the table by name, with a key whose only entry is hash name to hash key |
| `Query.GetInputFor` | src/query/hash_primary_key.ts:31-39 | get sends the single-entry key; the read is strongly consistent exactly when options are given with `consistent` true, so with no options it is an eventual read |
| `Query.GetRecord` | src/query/hash_primary_key.ts:40-44 | get returns null exactly when the response has no `Item`, otherwise the deserialized item |
| `Query.ScanInputFor` | src/query/hash_primary_key.ts:53-60 | scan forwards limit, segment, total segments and start key unchanged and always asks for TOTAL consumed capacity |
| `Query.ScanPage` | src/query/hash_primary_key.ts:64-72 | missing `Items` gives no records; otherwise one record per item, in order, each the deserialized item; count, scanned count, last evaluated key and consumed capacity are passed through unchanged |
| `Query.BatchGetInputFor` | src/query/hash_primary_key.ts:76-101 | what `batchGet` (lines 76-84) and `batchGetFull` (lines 94-102) hand the helper: this table's name, and one key per hash key, same length and order; key i is the single entry hash name to hash key i |
| `Query.BatchGetRecords` | src/query/hash_primary_key.ts:86-90 | one record per item the trimming helper returned, in its order, each the deserialized item |
| `Query.BatchGetFullRecords` | src/query/hash_primary_key.ts:104-108 | same length as the helper's slots; slot i is absent exactly when the helper's slot i is absent, otherwise it is the deserialized item |
| `Query.BatchDeleteInputFor` | src/query/hash_primary_key.ts:112-124 | what `batchDelete` hands the batch-write helper: this table's name, and one DeleteRequest per hash key, same length and order; request i carries hash key i under the hash name and nothing else |
| `Query.Update` | src/query/hash_primary_key.ts:138-158 | the loop over the declared attributes builds exactly `Project(attributes, changes)`; the request names the table and carries the single-entry key |
| `Projection.ProjectKeys` | src/query/hash_primary_key.ts:139-149 | every key of `attributeUpdates` is the store name of a declared attribute whose property has a change, and its entry is that change as `{Action, Value}`; every declared attribute whose property has a change gets an entry under its store name |
| `Projection.ProjectLastWriterWins` | src/query/hash_primary_key.ts:141-148 | when several declared attributes share a store name, the entry holds the change of the last of them (in declaration order) whose property has a change |
| `Projection.ProjectUniqueNames` | src/query/hash_primary_key.ts:142-147 | with distinct store names, an attribute has an entry exactly when its property has a change, and the entry is `{Action: change[0], Value: change[1]}` |
| `Projection.ProjectNoChanges` | src/query/hash_primary_key.ts:139-143 | an empty change set yields empty attribute updates |
| `Projection.ProjectReadsOnlyDeclared` | src/query/hash_primary_key.ts:141-143 | change sets that agree on the declared property names give the same attribute updates |
| `Projection.ProjectIgnoresUndeclared` | src/query/hash_primary_key.ts:141-149 | adding a change for a property the table does not declare leaves the attribute updates unchanged, and nothing fails |
| `Projection.ProjectDeclaredPart` | src/query/hash_primary_key.ts:138-149 | the attribute updates depend only on the changes restricted to declared property names |
| `ReferenceStore.DeleteThenGetReturnsNull` | src/query/hash_primary_key.ts:22-45 | delete and get address the same item, so a strongly consistent get after a delete of that hash key returns null |
| `ReferenceStore.BatchDeleteRemovesExactlyKeys` | src/query/hash_primary_key.ts:111-124 | once every request is processed, a batch delete removes exactly the items whose keys are the given hash keys' keys |

## Left out

- The calls to the store client (`delete`, `get`, `scan`, `update` with `.promise()`) and all `async`/`await` sequencing are I/O. The model gives the requests and takes the responses as values. Deletion results and update results are discarded by the source and are not modelled.
- The codec's `deserialize` is not part of this model. It is the parameter `deserialize`.
- The accessor catches nothing: a rejected store call and an exception thrown by `deserialize` reach the caller unchanged. The model covers only the success path of each operation.
- `batchGetTrim`, `batchGetFull` and `batchWrite` (`src/query/batch_get.ts`, `src/query/batch_write.ts`) are not part of this model. That includes chunking to the store's per-call cap, the retry of unprocessed keys and requests, backoff, and the incomplete-batch failure. The model covers what the accessor hands them (the table name and the keys or delete requests) and how it shapes what they return. The helpers' other argument, the connection's document client, is transport and is not modelled. `batchDelete` returns the helper's result unchanged, so that result is not modelled. `ReferenceStore.BatchDeleteRemovesExactlyKeys` assumes every request was processed.
- `Query.BatchGetFullRecords`: the helper's slots are an input, so the model cannot relate slot i to input key i; it relates the records only to the helper's slots.
- Scan pagination as the store implements it (disjoint pages when resuming from `lastEvaluatedKey`, segment partitioning) is store behaviour and is not modelled. The scanner keeps no state between calls, and the model reflects that: `ScanInputFor` is a function of the options alone.
- The constants `HASH_KEY_REF`, `HASH_VALUE_REF` and `RANGE_KEY_REF` are unused and are left out. The table class, the connection handle and the metadata declarations come from outside the accessor. The model keeps only the table's name, its declared attributes and the hash attribute.
- `changes` is modelled as a map whose present entries are `[action, value]` pairs. The source's test `if (change)` is true for such a pair. The model does not cover two JavaScript details. First, a present entry with a falsy value such as `undefined` or `null` is skipped. Second, a property name that is inherited from `Object.prototype` (such as `toString`) reads as truthy even when `changes` does not hold it.
- `Projection.Project` and `Query.Update` treat `attributeUpdates` as a plain map. The source writes into a plain object `{}`, and an assignment under the store name `"__proto__"` calls the prototype setter instead of adding an entry. So for a declared attribute whose store name is `"__proto__"`, the source sends no update, while the model sends one under that name.
- `ReferenceStore` answers every get as a strongly consistent read. `ReferenceStore.DeleteThenGetReturnsNull` therefore covers only a get with `consistent: true`. An eventual read, the default, may still return a deleted item, and the reference store does not model that.
- JavaScript numbers (`limit`, `segment`, `totalSegments`, `Count`, `ScannedCount`) are unbounded integers in the model. The accessor only passes them through.
- `HashPrimaryKey` hands batch retry to `batchGetTrim`, `batchGetFull` and `batchWrite`, and scan pagination to the store. The model follows this file and keeps both outside it.
