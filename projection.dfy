/** How `update` selects the declared attributes out of a change set.

    The accessor walks the declared attributes in order and, for each one whose property
    name has an entry in `changes`, writes `{Action, Value}` from that entry under the
    attribute's store name. A later attribute with the same store name overwrites an
    earlier one; entries of `changes` that name no declared property are never read. */
module Projection {
  import opened DocumentClient
  import opened Metadata

  /** A requested change of one property: the action and the value. */
  type Change<V> = (Action, V)

  function ToUpdate<V>(change: Change<V>): AttributeValueUpdate<V>
  {
    AttributeValueUpdate(change.0, change.1)
  }

  /** The `AttributeUpdates` built from `changes` after visiting `attributes` in order. */
  function Project<V>(attributes: seq<Attribute>, changes: map<string, Change<V>>): AttributeUpdates<V>
  {
    if attributes == [] then map[]
    else
      var updates := Project(attributes[..|attributes| - 1], changes);
      var attr := attributes[|attributes| - 1];
      if attr.propertyName in changes then updates[attr.name := ToUpdate(changes[attr.propertyName])]
      else updates
  }

  /** Every key of the projection is the store name of a declared attribute whose property
      has a change, and carries that change; conversely every declared attribute whose
      property has a change has an entry under its store name. */
  lemma {:induction false} ProjectKeys<V>(attributes: seq<Attribute>, changes: map<string, Change<V>>)
    ensures forall n :: n in Project(attributes, changes) ==>
      exists i :: 0 <= i < |attributes| && attributes[i].name == n && attributes[i].propertyName in changes
                  && Project(attributes, changes)[n] == ToUpdate(changes[attributes[i].propertyName])
    ensures forall i :: 0 <= i < |attributes| && attributes[i].propertyName in changes ==>
      attributes[i].name in Project(attributes, changes)
  {
    if attributes != [] {
      var init := attributes[..|attributes| - 1];
      var last := attributes[|attributes| - 1];
      ProjectKeys(init, changes);
      var before := Project(init, changes);
      var after := Project(attributes, changes);
      forall n | n in after
        ensures exists i :: 0 <= i < |attributes| && attributes[i].name == n && attributes[i].propertyName in changes
                            && after[n] == ToUpdate(changes[attributes[i].propertyName])
      {
        if last.propertyName in changes && n == last.name {
          var i := |attributes| - 1;
          assert attributes[i].name == n && after[n] == ToUpdate(changes[attributes[i].propertyName]);
        } else {
          assert n in before && after[n] == before[n];
          var i :| 0 <= i < |init| && init[i].name == n && init[i].propertyName in changes
                   && before[n] == ToUpdate(changes[init[i].propertyName]);
          assert attributes[i] == init[i];
        }
      }
      forall i | 0 <= i < |attributes| && attributes[i].propertyName in changes
        ensures attributes[i].name in after
      {
        if i < |attributes| - 1 {
          assert attributes[i] == init[i];
        }
      }
    }
  }

  /** The entry under a store name comes from the last declared attribute with that name
      whose property has a change. */
  lemma {:induction false} ProjectLastWriterWins<V>(attributes: seq<Attribute>, changes: map<string, Change<V>>, i: nat)
    requires i < |attributes| && attributes[i].propertyName in changes
    requires forall j :: i < j < |attributes| && attributes[j].name == attributes[i].name ==>
      attributes[j].propertyName !in changes
    ensures attributes[i].name in Project(attributes, changes)
    ensures Project(attributes, changes)[attributes[i].name] == ToUpdate(changes[attributes[i].propertyName])
  {
    var init := attributes[..|attributes| - 1];
    if i < |attributes| - 1 {
      assert attributes[i] == init[i];
      forall j | i < j < |init| && init[j].name == init[i].name
        ensures init[j].propertyName !in changes
      {
        assert init[j] == attributes[j];
      }
      ProjectLastWriterWins(init, changes, i);
    }
  }

  /** With store names unique, the projection has an entry under an attribute's store name
      exactly when its property has a change, and that entry is the change. */
  lemma ProjectUniqueNames<V>(attributes: seq<Attribute>, changes: map<string, Change<V>>)
    requires UniqueNames(attributes)
    ensures forall i :: 0 <= i < |attributes| ==>
      (attributes[i].name in Project(attributes, changes) <==> attributes[i].propertyName in changes)
    ensures forall i :: 0 <= i < |attributes| && attributes[i].propertyName in changes ==>
      Project(attributes, changes)[attributes[i].name] == ToUpdate(changes[attributes[i].propertyName])
  {
    ProjectKeys(attributes, changes);
    forall i | 0 <= i < |attributes| && attributes[i].propertyName in changes
      ensures Project(attributes, changes)[attributes[i].name] == ToUpdate(changes[attributes[i].propertyName])
    {
      ProjectLastWriterWins(attributes, changes, i);
    }
  }

  /** No changes, no attribute updates. */
  lemma {:induction false} ProjectNoChanges<V>(attributes: seq<Attribute>, changes: map<string, Change<V>>)
    requires changes == map[]
    ensures Project(attributes, changes) == map[]
  {
    ProjectKeys(attributes, changes);
  }

  /** The projection reads `changes` only at declared property names: two change sets that
      agree there give the same attribute updates. */
  lemma {:induction false} ProjectReadsOnlyDeclared<V>(attributes: seq<Attribute>, c1: map<string, Change<V>>, c2: map<string, Change<V>>)
    requires forall p :: p in PropertyNames(attributes) ==> (p in c1 <==> p in c2)
    requires forall p :: p in PropertyNames(attributes) && p in c1 ==> c1[p] == c2[p]
    ensures Project(attributes, c1) == Project(attributes, c2)
  {
    if attributes != [] {
      var init := attributes[..|attributes| - 1];
      var last := attributes[|attributes| - 1];
      assert last.propertyName in PropertyNames(attributes);
      forall p | p in PropertyNames(init)
        ensures p in PropertyNames(attributes)
      {
        var i :| 0 <= i < |init| && init[i].propertyName == p;
        assert attributes[i] == init[i];
      }
      ProjectReadsOnlyDeclared(init, c1, c2);
    }
  }

  /** A change of a property the table does not declare is dropped: adding it leaves the
      attribute updates as they were (and nothing fails). */
  lemma ProjectIgnoresUndeclared<V>(attributes: seq<Attribute>, changes: map<string, Change<V>>, p: string, change: Change<V>)
    requires p !in PropertyNames(attributes)
    ensures Project(attributes, changes[p := change]) == Project(attributes, changes)
  {
    ProjectReadsOnlyDeclared(attributes, changes[p := change], changes);
  }

  /** Only the declared part of `changes` matters. */
  lemma ProjectDeclaredPart<V>(attributes: seq<Attribute>, changes: map<string, Change<V>>)
    ensures Project(attributes, changes)
         == Project(attributes, map p | p in changes && p in PropertyNames(attributes) :: changes[p])
  {
    ProjectReadsOnlyDeclared(attributes, changes, map p | p in changes && p in PropertyNames(attributes) :: changes[p]);
  }
}
