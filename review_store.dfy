/** The MovieReviews table as the one shared object the write handlers update in place. */
module ReviewStore {
  import opened Wrappers
  import opened ReviewTable

  /** The MovieReviews table, updated in place by the write handlers. */
  class MovieReviews {
    var items: Items

    ghost predicate Valid()
      reads this
    {
      WellKeyed(items)
    }

    constructor (seed: Items)
      requires WellKeyed(seed)
      ensures Valid() && items == seed
    {
      items := seed;
    }

    /** Store `r` at its key. */
    method Put(r: Review)
      requires Valid()
      modifies this
      ensures Valid()
      ensures items == PutItem(old(items), r)
    {
      PutKeepsKeys(items, r);
      items := items[KeyOf(r) := r];
    }

    /** Set `Content` at `k`, creating the item when `k` is missing. */
    method UpdateContent(k: Key, content: string)
      requires Valid()
      modifies this
      ensures Valid()
      ensures items == SetContent(old(items), k, content)
    {
      SetContentKeepsKeys(items, k, content);
      if k in items {
        items := items[k := items[k].(content := content)];
      } else {
        items := items[k := Review(k.movieId, k.reviewId, None, None, content)];
      }
    }
  }
}
