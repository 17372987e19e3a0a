/**
 * Requests to different handlers against the same table, one after the
 * other: what one handler writes is what the next one reads. Reads are
 * taken to be strongly consistent, so a read sees every earlier write.
 */
module Scenarios {
  import opened Wrappers
  import opened Json
  import opened JsNumbers
  import opened Schemas
  import opened ReviewTable
  import opened Http
  import PostReview
  import UpdateReview
  import GetReviews
  import TranslateReview

  /** An ascending sequence holding nothing but `x`, and holding it, is `[x]`. */
  lemma AscendingSingleton(rs: seq<Review>, x: Review)
    requires Ascending(rs) && x in rs
    requires forall r :: r in rs ==> r == x
    ensures rs == [x]
  {
    forall i | 0 <= i < |rs|
      ensures rs[i] == x
    {
      assert rs[i] in rs;
    }
    assert |rs| >= 2 ==> rs[0].reviewId < rs[1].reviewId;
  }

  /** The listing request for one movie, with its id printed as JavaScript prints an integer. */
  function ListMovie(n: int): Event {
    Event(Some(map["movieId" := DecimalString(n)]), None, Absent)
  }

  /**
   * Posting a review, then listing its movie (the integer id printed in the
   * path) with no filter, answers 200 and the listing holds the stored review,
   * provided the listing's query reads consistently.
   */
  lemma CreateThenListIncludes(items: Items, v: Json, check: Json -> Verdict, n: int)
    requires PostReview.SchemaSound(check) && WellKeyed(items)
    requires PostReview.Outcome(items, Parsed(v), check, None).0.statusCode == 201
    requires v.JObj? && "movieId" in v.members && v.members["movieId"] == JNum(n as real)
    ensures var after := PostReview.Outcome(items, Parsed(v), check, None).1;
            var resp := GetReviews.Handler(after, ListMovie(n), None);
            && PostReview.ReviewShaped(v)
            && resp.statusCode == 200
            && PostReview.StoredReview(v) in resp.body.data
  {
    var stored := PostReview.StoredReview(v);
    var after := PostReview.Outcome(items, Parsed(v), check, None).1;
    PostReview.CreateOverwrites(items, v, check);
    NumberOfDecimalString(n);
    GetReviews.UnfilteredListsPartition(after, ListMovie(n));
    assert KeyOf(stored) in after && after[KeyOf(stored)] == stored;
  }

  /**
   * Posting a review of a movie with no reviews yet, then listing that movie,
   * answers 200 with exactly the stored review, provided the query reads
   * consistently.
   */
  lemma CreateThenList(items: Items, v: Json, check: Json -> Verdict, n: int)
    requires PostReview.SchemaSound(check) && WellKeyed(items)
    requires PostReview.Outcome(items, Parsed(v), check, None).0.statusCode == 201
    requires v.JObj? && "movieId" in v.members && v.members["movieId"] == JNum(n as real)
    requires forall k :: k in items ==> k.movieId != n as real
    ensures var after := PostReview.Outcome(items, Parsed(v), check, None).1;
            PostReview.ReviewShaped(v)
            && GetReviews.Handler(after, ListMovie(n), None) == Response(200, Data([PostReview.StoredReview(v)]))
  {
    var stored := PostReview.StoredReview(v);
    var after := PostReview.Outcome(items, Parsed(v), check, None).1;
    CreateThenListIncludes(items, v, check, n);
    NumberOfDecimalString(n);
    GetReviews.UnfilteredListsPartition(after, ListMovie(n));
    var rs := Query(after, n as real);
    forall r | r in rs
      ensures r == stored
    {
      assert KeyOf(r) == KeyOf(stored);
    }
    AscendingSingleton(rs, stored);
  }

  /** The translation request for the review a path names. */
  function TranslateAt(path: Option<map<string, string>>, language: string): Event {
    Event(path, Some(map["language" := language]), Absent)
  }

  /**
   * After a successful update, translating the review at the same path
   * translates the new content and echoes it as the original text, provided
   * the point read is consistent.
   */
  lemma UpdateThenTranslate(items: Items, event: Event, check: Json -> Verdict, lastErrors: Option<seq<SchemaError>>,
                            language: string, text: string, translate: TranslateReview.TranslateRequest -> TranslateReview.Translation)
    requires UpdateReview.SchemaSound(check) && WellKeyed(items)
    requires UpdateReview.Outcome(items, event, check, lastErrors, None).0.statusCode == 200
    requires language != ""
    requires translate(TranslateReview.TranslateRequest("en", language, event.body.value.members["Content"].s)) == TranslateReview.Translated(text)
    ensures var after := UpdateReview.Outcome(items, event, check, lastErrors, None).1;
            TranslateReview.Handler(after, TranslateAt(event.pathParameters, language), None, translate)
              == Response(200, Translation(text, event.body.value.members["Content"].s, language))
  {
    UpdateReview.OnlyContentChanges(items, event, check, lastErrors);
  }

  /**
   * Updating a key where nothing is stored creates an item there: a
   * translation request for that path then finds it instead of answering 404,
   * provided the point read is consistent.
   */
  lemma UpsertIsVisible(items: Items, event: Event, check: Json -> Verdict, lastErrors: Option<seq<SchemaError>>,
                        language: string, translate: TranslateReview.TranslateRequest -> TranslateReview.Translation)
    requires UpdateReview.SchemaSound(check) && WellKeyed(items)
    requires UpdateReview.Outcome(items, event, check, lastErrors, None).0.statusCode == 200
    requires language != ""
    requires UpdateReview.PathKey(event).value !in items
    ensures var after := UpdateReview.Outcome(items, event, check, lastErrors, None).1;
            var k := UpdateReview.PathKey(event).value;
            && after[k].reviewerId.None? && after[k].reviewDate.None?
            && TranslateReview.Handler(after, TranslateAt(event.pathParameters, language), None, translate).statusCode != 404
  {
    UpdateReview.OnlyContentChanges(items, event, check, lastErrors);
  }

  /** The three reviews the table is seeded with. */
  const SeedReviews: seq<Review> := [
    Review(848326.0, 1001.0, Some("roy@gmail.com"), Some("2025-01-15"), "A thrilling sci-fi experience with a great storyline."),
    Review(848326.0, 1002.0, Some("das@gmail.com"), Some("2025-01-18"), "Fantastic visuals and world-building!"),
    Review(572802.0, 1003.0, Some("Keeran@gmail.com"), Some("2025-01-20"), "Could have been better in terms of pacing.")
  ]

  function SeedTable(): (items: Items)
    ensures WellKeyed(items)
  {
    map[KeyOf(SeedReviews[0]) := SeedReviews[0],
        KeyOf(SeedReviews[1]) := SeedReviews[1],
        KeyOf(SeedReviews[2]) := SeedReviews[2]]
  }

  lemma SeedMovieNumber()
    ensures ToNumber("848326") == Finite(848326.0)
  {
    assert NatString(8) == "8";
    assert NatString(84) == NatString(8) + "4" == "84";
    assert NatString(848) == NatString(84) + "8" == "848";
    assert NatString(8483) == NatString(848) + "3" == "8483";
    assert NatString(84832) == NatString(8483) + "2" == "84832";
    assert NatString(848326) == NatString(84832) + "6" == "848326";
    NumberOfDecimalString(848326);
  }

  function SeedRequest(): Event {
    Event(Some(map["movieId" := "848326"]), Some(map["ReviewerId" := "das@gmail.com"]), Absent)
  }

  lemma SeedRequestPath()
    ensures Given(Param(SeedRequest().pathParameters, "movieId"))
    ensures GetReviews.RequestedMovie(SeedRequest()) == Finite(848326.0)
  {
    assert Param(SeedRequest().pathParameters, "movieId") == Some("848326");
    SeedMovieNumber();
  }

  lemma SeedRequestQuery()
    ensures Param(SeedRequest().queryStringParameters, "reviewId") == None
    ensures Param(SeedRequest().queryStringParameters, "ReviewerId") == Some("das@gmail.com")
  {
  }

  lemma SeedOnlyMatch(r: Review)
    requires KeyOf(r) in SeedTable() && SeedTable()[KeyOf(r)] == r
    ensures r.movieId == 848326.0 && r.reviewerId == Some("das@gmail.com") <==> r == SeedReviews[1]
  {
  }

  /** Against the seeded table, listing movie 848326 by reviewer das@gmail.com finds review 1002 alone. */
  lemma SeedListByReviewer()
    ensures GetReviews.Handler(SeedTable(), SeedRequest(), None) == Response(200, Data([SeedReviews[1]]))
  {
    var items := SeedTable();
    var event := SeedRequest();
    SeedRequestPath();
    SeedRequestQuery();
    var resp := GetReviews.Handler(items, event, None);
    GetReviews.ListedExactly(items, event, None);
    var data := resp.body.data;
    forall r | r in data
      ensures r == SeedReviews[1]
    {
      SeedOnlyMatch(r);
    }
    SeedOnlyMatch(SeedReviews[1]);
    AscendingSingleton(data, SeedReviews[1]);
  }
}
