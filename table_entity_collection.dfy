/**
 * `TableEntityCollection.ToIdList`: the identities of the entities of a
 * list, skipping null entries.
 */
module TableEntityCollections {
  import opened Wrappers
  import opened TableEntities

  /** The non-null entries, in order. */
  function NonNull(items: seq<TableEntity?>): (r: seq<TableEntity>)
    ensures |r| <= |items|
    ensures forall i :: 0 <= i < |r| ==> r[i] in items
    ensures null !in items ==> |r| == |items|
  {
    if |items| == 0 then []
    else if items[|items| - 1] == null then NonNull(items[..|items| - 1])
    else NonNull(items[..|items| - 1]) + [items[|items| - 1]]
  }

  /** One identity per non-null entity, in list order. */
  function ToIdList(items: seq<TableEntity?>): (ids: seq<Option<int>>)
    reads set i | 0 <= i < |items| && items[i] != null :: items[i]
    ensures |ids| == |NonNull(items)|
    ensures forall k :: 0 <= k < |ids| ==> ids[k] == NonNull(items)[k].Id
  {
    var entities := NonNull(items);
    seq(|entities|, k reads set i | 0 <= i < |items| && items[i] != null :: items[i]
                      requires 0 <= k < |entities| => entities[k].Id)
  }

  lemma {:induction false} NonNullAppend(a: seq<TableEntity?>, b: seq<TableEntity?>)
    ensures NonNull(a + b) == NonNull(a) + NonNull(b)
  {
    if |b| > 0 {
      assert (a + b)[..|a + b| - 1] == a + b[..|b| - 1];
      NonNullAppend(a, b[..|b| - 1]);
    } else {
      assert a + b == a;
    }
  }

  /** The identities of a concatenation are the concatenated identities. */
  lemma ToIdListAppend(a: seq<TableEntity?>, b: seq<TableEntity?>)
    ensures ToIdList(a + b) == ToIdList(a) + ToIdList(b)
  {
    NonNullAppend(a, b);
  }
}
