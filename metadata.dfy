/** Table metadata the accessor reads; declared by the table definition and never changed. */
module Metadata {

  /** A declared attribute: `name` is its name in the store, `propertyName` the name of
      the record property it holds. */
  datatype Attribute = Attribute(name: string, propertyName: string)

  /** The table's store name and its declared attributes, in declaration order. */
  datatype TableMetadata = TableMetadata(name: string, attributes: seq<Attribute>)

  /** The hash primary key: the attribute holding the hash key. */
  datatype HashPrimaryKeyMetadata = HashPrimaryKeyMetadata(hash: Attribute)

  /** No two declared attributes share a store name. */
  predicate UniqueNames(attributes: seq<Attribute>)
  {
    forall i, j :: 0 <= i < j < |attributes| ==> attributes[i].name != attributes[j].name
  }

  /** The property names the table declares. */
  function PropertyNames(attributes: seq<Attribute>): set<string>
  {
    set i | 0 <= i < |attributes| :: attributes[i].propertyName
  }
}
