/** The null-or-empty tests of TypeExtension.cs.  A reference that may be
    null is an Option. */
module TypeExtension {
  import opened Common

  /** An ICollection, seen through its element count. */
  datatype Collection = Collection(count: nat)

  /** `items.IsNullOrEmpty()`: a null or zero-length array. */
  predicate IsNullOrEmptyArray<T>(items: Option<seq<T>>)
  {
    items.None? || |items.value| == 0
  }

  /** The three cases of the array test: null, empty and non-empty. */
  lemma IsNullOrEmptyArrayCases<T>(items: Option<seq<T>>)
    ensures items.None? ==> IsNullOrEmptyArray(items)
    ensures items.Some? && items.value == [] ==> IsNullOrEmptyArray(items)
    ensures items.Some? && items.value != [] ==> !IsNullOrEmptyArray(items)
  {
  }

  /** `list.IsNullOrEmpty()` for a collection: null or a count of zero. */
  predicate IsNullOrEmptyCollection(list: Option<Collection>)
  {
    list == None || list.value.count == 0
  }

  /** The collection test agrees with the array test on a collection
      holding the array's elements. */
  lemma IsNullOrEmptyCollectionCases<T>(list: Option<Collection>, items: Option<seq<T>>)
    ensures list == (if items.Some? then Some(Collection(|items.value|)) else None) ==>
      (IsNullOrEmptyCollection(list) <==> IsNullOrEmptyArray(items))
  {
  }
}
