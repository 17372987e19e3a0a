/**
 * GET /movies/reviews/{movieId}: every review of one movie, optionally
 * narrowed by the query parameters `reviewId` and `ReviewerId`. The handler
 * only reads the table, so it is a function of the table's contents.
 */
module GetReviews {
  import opened Wrappers
  import opened JsNumbers
  import opened ReviewTable
  import opened Seqs
  import opened Http

  const MissingMovieId := "Missing path parameter: movieId"

  /** `review.reviewId === Number(q)`. */
  function MatchesReviewId(q: string): Review -> bool {
    (r: Review) => StrictEquals(Finite(r.reviewId), ToNumber(q))
  }

  /** `review.ReviewerId === q`: an item without a ReviewerId never matches. */
  function MatchesReviewer(q: string): Review -> bool {
    (r: Review) => r.reviewerId == Some(q)
  }

  /**
   * The two in-memory filters, each applied only when its parameter is a
   * non-empty string: every selected review keeps all its occurrences and
   * every other review is dropped.
   */
  function ApplyFilters(reviews: seq<Review>, reviewId: Option<string>, reviewerId: Option<string>): (out: seq<Review>)
    ensures forall r :: multiset(out)[r] == if Selected(r, reviewId, reviewerId) then multiset(reviews)[r] else 0
  {
    var byId := if Given(reviewId) then Filter(reviews, MatchesReviewId(reviewId.value)) else reviews;
    if Given(reviewerId) then Filter(byId, MatchesReviewer(reviewerId.value)) else byId
  }

  /** What the filters ask of one review: every given parameter matches (an AND). */
  predicate Selected(r: Review, reviewId: Option<string>, reviewerId: Option<string>) {
    && (Given(reviewId) ==> StrictEquals(Finite(r.reviewId), ToNumber(reviewId.value)))
    && (Given(reviewerId) ==> r.reviewerId == reviewerId)
  }

  /** The filters keep exactly the selected reviews, in their original order. */
  lemma FiltersSelect(reviews: seq<Review>, reviewId: Option<string>, reviewerId: Option<string>)
    ensures Subsequence(ApplyFilters(reviews, reviewId, reviewerId), reviews)
    ensures forall r :: r in ApplyFilters(reviews, reviewId, reviewerId) <==> r in reviews && Selected(r, reviewId, reviewerId)
    ensures forall r :: multiset(ApplyFilters(reviews, reviewId, reviewerId))[r] ==
                          if Selected(r, reviewId, reviewerId) then multiset(reviews)[r] else 0
  {
    var byId := if Given(reviewId) then Filter(reviews, MatchesReviewId(reviewId.value)) else reviews;
    if Given(reviewerId) {
      if Given(reviewId) {
        var both := (r: Review) => MatchesReviewId(reviewId.value)(r) && MatchesReviewer(reviewerId.value)(r);
        FilterAnd(reviews, MatchesReviewId(reviewId.value), MatchesReviewer(reviewerId.value), both);
      }
    } else if !Given(reviewId) {
      SubsequenceReflexive(reviews);
    }
  }

  lemma FiltersKeepAscending(reviews: seq<Review>, reviewId: Option<string>, reviewerId: Option<string>)
    requires Ascending(reviews)
    ensures Ascending(ApplyFilters(reviews, reviewId, reviewerId))
  {
    var before := (a: Review, b: Review) => a.reviewId < b.reviewId;
    var byId := if Given(reviewId) then Filter(reviews, MatchesReviewId(reviewId.value)) else reviews;
    if Given(reviewId) {
      FilterKeepsOrder(reviews, MatchesReviewId(reviewId.value), before);
    }
    if Given(reviewerId) {
      FilterKeepsOrder(byId, MatchesReviewer(reviewerId.value), before);
    }
  }

  /** The handler. `fault` is what the table service throws for the query, if anything. */
  function Handler(items: Items, event: Event, fault: Option<string>): (resp: Response)
    requires WellKeyed(items)
    ensures resp.statusCode in {200, 400, 500}
    ensures resp.statusCode == 400 <==> !Given(Param(event.pathParameters, "movieId"))
    ensures resp.statusCode == 400 ==> resp.body == Message(MissingMovieId)
    ensures resp.statusCode == 500 <==>
              Given(Param(event.pathParameters, "movieId"))
              && (!Storable(ToNumber(Param(event.pathParameters, "movieId").value)) || fault.Some?)
    ensures resp.statusCode == 200 <==> resp.body.Data?
  {
    var movieId := Param(event.pathParameters, "movieId");
    if !Given(movieId) then
      Response(400, Message(MissingMovieId))
    else
      match QueryCommand(items, ToNumber(movieId.value), fault)
      case Fault(msg) => Response(500, Error(msg))
      case Done(reviews) =>
        var query := event.queryStringParameters;
        Response(200, Data(ApplyFilters(reviews, Param(query, "reviewId"), Param(query, "ReviewerId"))))
  }

  /** The movie id a request names, as the query uses it. */
  function RequestedMovie(event: Event): JsNumber
    requires Given(Param(event.pathParameters, "movieId"))
  {
    ToNumber(Param(event.pathParameters, "movieId").value)
  }

  /** Without a movieId the answer is 400 whatever the table holds or the store would do: no query is made. */
  lemma MissingMovieIdReadsNothing(items1: Items, items2: Items, event: Event, fault1: Option<string>, fault2: Option<string>)
    requires WellKeyed(items1) && WellKeyed(items2)
    requires !Given(Param(event.pathParameters, "movieId"))
    ensures Handler(items1, event, fault1) == Handler(items2, event, fault2) == Response(400, Message(MissingMovieId))
  {
  }

  /**
   * A 200 lists exactly the stored reviews of the requested movie that pass
   * every given filter, each once, in ascending reviewId order, and as a
   * subsequence of the query's output.
   */
  lemma ListedExactly(items: Items, event: Event, fault: Option<string>)
    requires WellKeyed(items)
    requires Handler(items, event, fault).statusCode == 200
    ensures Storable(RequestedMovie(event)) && fault.None?
    ensures var m := RequestedMovie(event).value;
            var data := Handler(items, event, fault).body.data;
            var q := event.queryStringParameters;
            && Subsequence(data, Query(items, m))
            && Ascending(data)
            && (forall r :: r in data <==>
                  KeyOf(r) in items && items[KeyOf(r)] == r && r.movieId == m
                  && Selected(r, Param(q, "reviewId"), Param(q, "ReviewerId")))
  {
    var m := RequestedMovie(event).value;
    var q := event.queryStringParameters;
    FiltersSelect(Query(items, m), Param(q, "reviewId"), Param(q, "ReviewerId"));
    FiltersKeepAscending(Query(items, m), Param(q, "reviewId"), Param(q, "ReviewerId"));
  }

  /** With neither filter given, a 200 lists the whole partition as the query returned it. */
  lemma UnfilteredListsPartition(items: Items, event: Event)
    requires WellKeyed(items)
    requires Given(Param(event.pathParameters, "movieId")) && Storable(RequestedMovie(event))
    requires !Given(Param(event.queryStringParameters, "reviewId"))
    requires !Given(Param(event.queryStringParameters, "ReviewerId"))
    ensures Handler(items, event, None) == Response(200, Data(Query(items, RequestedMovie(event).value)))
  {
  }

  /** No matching review is still a 200 with empty data, never a 404. */
  lemma NoMatchIsEmptyOk(items: Items, event: Event)
    requires WellKeyed(items)
    requires Given(Param(event.pathParameters, "movieId")) && Storable(RequestedMovie(event))
    requires forall k :: k in items && k.movieId == RequestedMovie(event).value ==>
               !Selected(items[k], Param(event.queryStringParameters, "reviewId"), Param(event.queryStringParameters, "ReviewerId"))
    ensures Handler(items, event, None) == Response(200, Data([]))
  {
    ListedExactly(items, event, None);
    var data := Handler(items, event, None).body.data;
    NoMemberIsEmpty(data);
  }

  /** A reviewId that is not a number (Number gives NaN) matches nothing. */
  lemma NaNReviewIdMatchesNothing(items: Items, event: Event)
    requires WellKeyed(items)
    requires Given(Param(event.pathParameters, "movieId")) && Storable(RequestedMovie(event))
    requires Given(Param(event.queryStringParameters, "reviewId"))
    requires ToNumber(Param(event.queryStringParameters, "reviewId").value) == NaN
    ensures Handler(items, event, None) == Response(200, Data([]))
  {
    NoMatchIsEmptyOk(items, event);
  }

  /**
   * Store trouble is a 500 carrying the message: the marshaller refuses a
   * movie id that is NaN, infinite or beyond the safe integers, and the
   * query itself may fail.
   */
  lemma QueryFailureIs500(items: Items, event: Event, fault: Option<string>)
    requires WellKeyed(items)
    requires Given(Param(event.pathParameters, "movieId"))
    requires !Storable(RequestedMovie(event)) || fault.Some?
    ensures Handler(items, event, fault) == Response(500, Error(
              if !Storable(RequestedMovie(event)) then MarshalNumber(RequestedMovie(event)).message else fault.value))
  {
  }
}
