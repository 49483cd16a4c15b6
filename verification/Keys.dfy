// Keys of the library database and the order the database keeps them in.
module Keys {
  // A serialized key names a kind and an id. Serializing is injective and
  // byte-for-byte repeatable, so a key's text is represented by its value.
  datatype LibraryKey = NoKey | ObjectKey(id: int) | ResourceKey(id: int)

  datatype KeyKind = ObjectKind | ResourceKind

  function KeyOf(kind: KeyKind, id: int): LibraryKey {
    match kind
    case ObjectKind => ObjectKey(id)
    case ResourceKind => ResourceKey(id)
  }

  predicate HasKind(key: LibraryKey, kind: KeyKind) {
    match kind
    case ObjectKind => key.ObjectKey?
    case ResourceKind => key.ResourceKey?
  }

  // Position of the kind in the schema's key union.
  function KindNumber(key: LibraryKey): nat {
    match key
    case NoKey => 0
    case ObjectKey(_) => 1
    case ResourceKey(_) => 2
  }

  function OrderingToInt(difference: int): int {
    if difference < 0 then -1 else if difference > 0 then 1 else 0
  }

  // The database comparator: first by kind, then by id.
  function Compare(lhs: LibraryKey, rhs: LibraryKey): int {
    if KindNumber(lhs) != KindNumber(rhs) then OrderingToInt(KindNumber(lhs) - KindNumber(rhs))
    else
      match lhs
      case ObjectKey(id) => OrderingToInt(id - rhs.id)
      case ResourceKey(id) => OrderingToInt(id - rhs.id)
      case NoKey => 0
  }

  predicate Before(lhs: LibraryKey, rhs: LibraryKey) {
    Compare(lhs, rhs) < 0
  }

  // Compare is a total order, and two keys compare equal exactly when their
  // serialized forms are equal.
  lemma CompareIsTotalOrder(a: LibraryKey, b: LibraryKey, c: LibraryKey)
    ensures Compare(a, b) == 0 <==> a == b
    ensures Compare(a, b) == -Compare(b, a)
    ensures Compare(a, b) <= 0 && Compare(b, c) <= 0 ==> Compare(a, c) <= 0
    ensures Before(a, b) && Compare(b, c) <= 0 ==> Before(a, c)
    ensures Compare(a, b) <= 0 && Before(b, c) ==> Before(a, c)
    ensures forall i, j :: Before(ObjectKey(i), ObjectKey(j)) <==> i < j
    ensures forall i, j :: Before(ResourceKey(i), ResourceKey(j)) <==> i < j
    ensures forall i, j :: Before(ObjectKey(i), ResourceKey(j)) && Before(NoKey, ObjectKey(i))
  {
  }
}
