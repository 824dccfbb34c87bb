/**
 * `KeyTypeId`, the identity of a tracked entity: its type and its identifier. It is a record,
 * so two keys are equal exactly when both components are equal, and one key value addresses
 * the same entry in every map keyed by it.
 */
module Keys {
  import opened Entities

  datatype KeyTypeId = KeyTypeId(keyType: EntityType, id: Value) {

    function GetType(): (t: EntityType)
      ensures this == KeyTypeId(t, id)
    {
      keyType
    }

    function GetId(): (v: Value)
      ensures this == KeyTypeId(keyType, v)
    {
      id
    }
  }

  /** Record equality: components equal in both directions. */
  lemma KeyEquality(a: KeyTypeId, b: KeyTypeId)
    ensures a == b <==> a.GetType() == b.GetType() && a.GetId() == b.GetId()
  {
  }

  /** Equal keys find the same entry in any map, so the cache and the snapshot store agree. */
  lemma EqualKeysSameEntry<V>(m: map<KeyTypeId, V>, a: KeyTypeId, b: KeyTypeId)
    requires a.GetType() == b.GetType() && a.GetId() == b.GetId()
    ensures a in m <==> b in m
    ensures a in m ==> m[a] == m[b]
  {
  }
}
