/**
 * The MovieReviews table and the document-client calls the handlers issue
 * against it. The table's key schema is partition key `movieId` and sort
 * key `reviewId`, both of the store's NUMBER type; an item is a review.
 */
module ReviewTable {
  import opened Wrappers
  import opened JsNumbers

  /** The composite primary key of a review. */
  datatype Key = Key(movieId: real, reviewId: real)

  /**
   * A stored review. `reviewerId` and `reviewDate` are absent only on an
   * item that an update created at a key where nothing was stored; every
   * write sets `content`.
   */
  datatype Review = Review(
    movieId: real,
    reviewId: real,
    reviewerId: Option<string>,
    reviewDate: Option<string>,
    content: string)

  function KeyOf(r: Review): Key {
    Key(r.movieId, r.reviewId)
  }

  type Items = map<Key, Review>

  /** Every stored item carries the key it is stored under. */
  predicate WellKeyed(items: Items) {
    forall k :: k in items ==> KeyOf(items[k]) == k
  }

  /** The result of one call through the document client: its value, or the message of what it threw. */
  datatype CallResult<T> = Done(value: T) | Fault(message: string)

  /** The marshaller's refusal of a number attribute that is NaN or infinite. */
  function SpecialNumberMessage(n: JsNumber): string
    requires !n.Finite?
  {
    match n
    case NaN => "Special numeric value NaN is not allowed"
    case PosInfinity => "Special numeric value Infinity is not allowed"
    case NegInfinity => "Special numeric value -Infinity is not allowed"
  }

  /** `Number.MAX_SAFE_INTEGER`, 2^53 - 1. */
  const MaxSafeInteger: real := 9007199254740991.0

  /**
   * A number the marshaller accepts: finite and within the safe integers'
   * range. The document clients do not set `allowImpreciseNumbers`, so a
   * number beyond that range is refused rather than stored imprecisely.
   */
  predicate Storable(n: JsNumber) {
    n.Finite? && -MaxSafeInteger <= n.value <= MaxSafeInteger
  }

  /** The number as the marshaller's message prints it: its integer part in plain decimal. */
  function NumberText(x: real): string {
    DecimalString(x.Floor)
  }

  /** Marshal one number attribute: NaN, the infinities and numbers beyond the safe range throw. */
  function MarshalNumber(n: JsNumber): (o: CallResult<real>)
    ensures o.Done? <==> Storable(n)
    ensures o.Done? ==> o.value == n.value
  {
    if !n.Finite? then Fault(SpecialNumberMessage(n))
    else if n.value > MaxSafeInteger then
      Fault("Number " + NumberText(n.value) + " is greater than Number.MAX_SAFE_INTEGER. Use BigInt.")
    else if n.value < -MaxSafeInteger then
      Fault("Number " + NumberText(n.value) + " is lesser than Number.MIN_SAFE_INTEGER. Use BigInt.")
    else Done(n.value)
  }

  /** Marshal `{movieId, reviewId}` (in that order): the first refused number's message is thrown. */
  function MarshalKey(movieId: JsNumber, reviewId: JsNumber): (o: CallResult<Key>)
    ensures o.Done? <==> Storable(movieId) && Storable(reviewId)
    ensures o.Done? ==> o.value == Key(movieId.value, reviewId.value)
    ensures !Storable(movieId) ==> o == Fault(MarshalNumber(movieId).message)
    ensures Storable(movieId) && !Storable(reviewId) ==> o == Fault(MarshalNumber(reviewId).message)
  {
    match MarshalNumber(movieId)
    case Fault(msg) => Fault(msg)
    case Done(m) =>
      match MarshalNumber(reviewId)
      case Fault(msg) => Fault(msg)
      case Done(r) => Done(Key(m, r))
  }

  /** Reviews in strictly ascending sort-key order. */
  predicate Ascending(rs: seq<Review>) {
    forall i, j :: 0 <= i < j < |rs| ==> rs[i].reviewId < rs[j].reviewId
  }

  /** The sort keys present in one partition. */
  function SortKeys(items: Items, movieId: real): set<real> {
    set k | k in items && k.movieId == movieId :: k.reviewId
  }

  /** `lo` is the smallest of `ids`. */
  predicate IsLeast(lo: real, ids: set<real>) {
    lo in ids && forall x :: x in ids ==> lo <= x
  }

  lemma EmptyWhenNoMember(ids: set<real>)
    ensures (forall x :: x !in ids) ==> ids == {}
  {
    if forall x :: x !in ids {
      assert ids == {};
    }
  }

  lemma SomeElement(ids: set<real>) returns (y: real)
    requires ids != {}
    ensures y in ids
  {
    EmptyWhenNoMember(ids);
    y :| y in ids;
  }

  lemma {:induction false} LeastExists(ids: set<real>)
    requires ids != {}
    ensures exists lo :: IsLeast(lo, ids)
    decreases |ids|
  {
    var y := SomeElement(ids);
    if ids == {y} {
      assert IsLeast(y, ids);
    } else {
      var rest := ids - {y};
      LeastExists(rest);
      var lo :| IsLeast(lo, rest);
      var least := if y < lo then y else lo;
      forall x | x in ids
        ensures least <= x
      {
        if x != y {
          assert x in rest;
        }
      }
      assert IsLeast(least, ids);
    }
  }

  function Least(ids: set<real>): (lo: real)
    requires ids != {}
    ensures IsLeast(lo, ids)
  {
    LeastExists(ids);
    var lo :| IsLeast(lo, ids);
    lo
  }

  /** The items of partition `movieId` whose sort keys are in `ids`, in ascending sort-key order. */
  function QueryFrom(items: Items, movieId: real, ids: set<real>): (rs: seq<Review>)
    requires WellKeyed(items)
    requires forall id :: id in ids ==> Key(movieId, id) in items
    ensures |rs| == |ids|
    ensures Ascending(rs)
    ensures forall i :: 0 <= i < |rs| ==> rs[i].reviewId in ids && rs[i] == items[Key(movieId, rs[i].reviewId)]
    ensures forall id :: id in ids ==> items[Key(movieId, id)] in rs
    decreases ids
  {
    if ids == {} then []
    else
      var lo := Least(ids);
      [items[Key(movieId, lo)]] + QueryFrom(items, movieId, ids - {lo})
  }

  /**
   * QueryCommand with `movieId = :movieId`: the items of one partition,
   * each exactly once, in the store's ascending sort-key order.
   */
  function Query(items: Items, movieId: real): (rs: seq<Review>)
    requires WellKeyed(items)
    ensures Ascending(rs)
    ensures forall r :: r in rs <==> KeyOf(r) in items && items[KeyOf(r)] == r && r.movieId == movieId
  {
    var ids := SortKeys(items, movieId);
    assert forall id :: id in ids ==> Key(movieId, id) in items;
    QueryFrom(items, movieId, ids)
  }

  /** GetCommand: the item stored at `k`, if any. */
  function Get(items: Items, k: Key): (r: Option<Review>)
    ensures r.Some? <==> k in items
    ensures r.Some? ==> r.value == items[k]
  {
    if k in items then Some(items[k]) else None
  }

  /**
   * Send a QueryCommand for partition `movieId` (a JavaScript number).
   * `fault` is what the table service throws for this call, if anything.
   */
  function QueryCommand(items: Items, movieId: JsNumber, fault: Option<string>): (o: CallResult<seq<Review>>)
    requires WellKeyed(items)
    ensures o.Done? <==> Storable(movieId) && fault.None?
    ensures o.Done? ==> o.value == Query(items, movieId.value)
    ensures !Storable(movieId) ==> o == Fault(MarshalNumber(movieId).message)
  {
    match MarshalNumber(movieId)
    case Fault(msg) => Fault(msg)
    case Done(m) => if fault.Some? then Fault(fault.value) else Done(Query(items, m))
  }

  /** Send a GetCommand for `{movieId, reviewId}`. */
  function GetCommand(items: Items, movieId: JsNumber, reviewId: JsNumber, fault: Option<string>): (o: CallResult<Option<Review>>)
    ensures o.Done? <==> Storable(movieId) && Storable(reviewId) && fault.None?
    ensures o.Done? ==> o.value == Get(items, Key(movieId.value, reviewId.value))
    ensures !(Storable(movieId) && Storable(reviewId)) ==> o == Fault(MarshalKey(movieId, reviewId).message)
  {
    match MarshalKey(movieId, reviewId)
    case Fault(msg) => Fault(msg)
    case Done(k) => if fault.Some? then Fault(fault.value) else Done(Get(items, k))
  }

  /** PutCommand: the whole item is written at its key, replacing whatever was there. */
  function PutItem(items: Items, r: Review): (after: Items)
    ensures after.Keys == items.Keys + {KeyOf(r)}
    ensures after[KeyOf(r)] == r
    ensures forall k :: k in items && k != KeyOf(r) ==> after[k] == items[k]
  {
    items[KeyOf(r) := r]
  }

  /**
   * UpdateCommand with `SET Content = :content`. The store creates the item
   * when the key is missing, holding only the key attributes and `Content`.
   */
  function SetContent(items: Items, k: Key, content: string): (after: Items)
    ensures after.Keys == items.Keys + {k}
    ensures after[k].content == content
    ensures k in items ==> after[k] == items[k].(content := content)
    ensures k !in items ==> KeyOf(after[k]) == k && after[k].reviewerId.None? && after[k].reviewDate.None?
    ensures forall j :: j in items && j != k ==> after[j] == items[j]
  {
    if k in items then items[k := items[k].(content := content)]
    else items[k := Review(k.movieId, k.reviewId, None, None, content)]
  }

  lemma PutKeepsKeys(items: Items, r: Review)
    requires WellKeyed(items)
    ensures WellKeyed(PutItem(items, r))
    ensures Get(PutItem(items, r), KeyOf(r)) == Some(r)
    ensures forall k :: k != KeyOf(r) ==> Get(PutItem(items, r), k) == Get(items, k)
  {
  }

  lemma SetContentKeepsKeys(items: Items, k: Key, content: string)
    requires WellKeyed(items)
    ensures WellKeyed(SetContent(items, k, content))
    ensures k in SetContent(items, k, content) && SetContent(items, k, content)[k].content == content
    ensures forall j :: j != k ==> Get(SetContent(items, k, content), j) == Get(items, j)
  {
  }
}
