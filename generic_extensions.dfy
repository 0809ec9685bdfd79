/** `GenericExtensions.In`: membership of a value in a collection. */
module GenericExtensions {

  /** True exactly when `collection` holds an element equal to `item`;
      an empty collection holds nothing. */
  function In<T(==)>(item: T, collection: seq<T>): (r: bool)
    ensures r <==> exists i :: 0 <= i < |collection| && collection[i] == item
    ensures |collection| == 0 ==> !r
  {
    if |collection| == 0 then false else item in collection
  }

  /** The answer depends only on which values the collection holds, not on
      their order or repetition. */
  lemma InDependsOnlyOnElements<T>(item: T, a: seq<T>, b: seq<T>)
    requires forall x :: x in a <==> x in b
    ensures In(item, a) == In(item, b)
  {
  }
}
