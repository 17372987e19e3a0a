/**
 * PUT /movies/{movieId}/reviews/{reviewId}: replace the `Content` of the
 * review at the key named by the path. Only a body of exactly
 * `{"Content": <string>}` is accepted. The UpdateCommand carries no
 * condition, so the store creates the item when the key holds nothing.
 */
module UpdateReview {
  import opened Wrappers
  import opened Json
  import opened JsNumbers
  import opened Schemas
  import opened ReviewTable
  import opened ReviewStore
  import opened Http

  const MissingPath := "Missing path parameters"
  const InvalidInput := "Invalid input. Only 'Content' is updatable."
  const ContentUpdated := "Review content updated successfully"

  /**
   * What the content-only schema accepts: an object (not an array, not null)
   * whose only member is a string `Content`.
   */
  predicate ContentOnly(v: Json) {
    v.JObj? && v.members.Keys == {"Content"} && v.members["Content"].JStr?
  }

  /** The compiled content-only validator decides exactly `ContentOnly`; its error objects are left abstract. */
  ghost predicate SchemaSound(check: Json -> Verdict) {
    forall v :: check(v).Accepted? <==> ContentOnly(v)
  }

  /** The accepted bodies are precisely the one-member objects `{"Content": s}`. */
  lemma ContentOnlyBodies(v: Json)
    ensures ContentOnly(v) <==> exists s :: v == JObj(map["Content" := JStr(s)])
  {
    if ContentOnly(v) {
      var s := v.members["Content"].s;
      assert v.members == map["Content" := JStr(s)];
    }
  }

  /** The key the path names, as the UpdateCommand marshals it. */
  function PathKey(event: Event): CallResult<Key>
    requires Given(Param(event.pathParameters, "movieId")) && Given(Param(event.pathParameters, "reviewId"))
  {
    MarshalKey(ToNumber(Param(event.pathParameters, "movieId").value),
               ToNumber(Param(event.pathParameters, "reviewId").value))
  }

  /** Every check passes and the UpdateCommand is sent. */
  predicate AllChecksPass(event: Event, check: Json -> Verdict) {
    && !event.body.Malformed?
    && Given(Param(event.pathParameters, "movieId"))
    && Given(Param(event.pathParameters, "reviewId"))
    && Present(event.body)
    && check(event.body.value).Accepted?
  }

  /**
   * The response and the table afterwards. `lastErrors` is the validator's
   * `errors` as the previous validation in this process left it; `fault` is
   * what the UpdateCommand throws, if anything.
   */
  function Outcome(items: Items, event: Event, check: Json -> Verdict, lastErrors: Option<seq<SchemaError>>, fault: Option<string>): (out: (Response, Items))
    requires SchemaSound(check)
    ensures out.0.statusCode in {200, 400, 500}
    ensures out.0.statusCode == 200 <==> AllChecksPass(event, check) && PathKey(event).Done? && fault.None?
    ensures out.0.statusCode == 200 ==>
              out.1 == SetContent(items, PathKey(event).value, event.body.value.members["Content"].s)
    ensures out.0.statusCode != 200 ==> out.1 == items
  {
    if event.body.Malformed? then (Response(500, Error(event.body.message)), items)
    else
      var movieId := Param(event.pathParameters, "movieId");
      var reviewId := Param(event.pathParameters, "reviewId");
      if !Given(movieId) || !Given(reviewId) then (Response(400, Message(MissingPath)), items)
      else if !Present(event.body) then (Response(400, Invalid(InvalidInput, lastErrors)), items)
      else
        match check(event.body.value)
        case Rejected(errs) => (Response(400, Invalid(InvalidInput, Some(errs))), items)
        case Accepted =>
          match MarshalKey(ToNumber(movieId.value), ToNumber(reviewId.value))
          case Fault(msg) => (Response(500, Error(msg)), items)
          case Done(k) =>
            if fault.Some? then (Response(500, Error(fault.value)), items)
            else (Response(200, Message(ContentUpdated)), SetContent(items, k, event.body.value.members["Content"].s))
  }

  /** The handler, against the shared table and the process's compiled content-only validator. */
  method Handler(table: MovieReviews, validator: Validator, event: Event, fault: Option<string>) returns (resp: Response)
    requires table.Valid() && SchemaSound(validator.check)
    modifies table, validator
    ensures table.Valid()
    ensures (resp, table.items) == Outcome(old(table.items), event, validator.check, old(validator.errors), fault)
    ensures validator.errors ==
              if !event.body.Malformed? && Given(Param(event.pathParameters, "movieId"))
                 && Given(Param(event.pathParameters, "reviewId")) && Present(event.body)
              then ErrorsAfter(validator.check(event.body.value))
              else old(validator.errors)
  {
    if event.body.Malformed? {
      return Response(500, Error(event.body.message));
    }
    var movieId := Param(event.pathParameters, "movieId");
    var reviewId := Param(event.pathParameters, "reviewId");
    if !Given(movieId) || !Given(reviewId) {
      return Response(400, Message(MissingPath));
    }
    if !Present(event.body) {
      return Response(400, Invalid(InvalidInput, validator.errors));
    }
    var ok := validator.Validate(event.body.value);
    if !ok {
      return Response(400, Invalid(InvalidInput, validator.errors));
    }
    var key := MarshalKey(ToNumber(movieId.value), ToNumber(reviewId.value));
    if key.Fault? {
      return Response(500, Error(key.message));
    }
    if fault.Some? {
      return Response(500, Error(fault.value));
    }
    table.UpdateContent(key.value, event.body.value.members["Content"].s);
    resp := Response(200, Message(ContentUpdated));
  }

  /** The body is parsed before the path is checked: malformed JSON is a 500 even when the path is incomplete. */
  lemma MalformedBodyIs500(items: Items, event: Event, check: Json -> Verdict, lastErrors: Option<seq<SchemaError>>, fault: Option<string>)
    requires SchemaSound(check)
    requires event.body.Malformed?
    ensures Outcome(items, event, check, lastErrors, fault) == (Response(500, Error(event.body.message)), items)
  {
  }

  /** A missing or empty movieId or reviewId: 400 and no write. */
  lemma MissingPathWritesNothing(items: Items, event: Event, check: Json -> Verdict, lastErrors: Option<seq<SchemaError>>, fault: Option<string>)
    requires SchemaSound(check)
    requires !event.body.Malformed?
    requires !Given(Param(event.pathParameters, "movieId")) || !Given(Param(event.pathParameters, "reviewId"))
    ensures Outcome(items, event, check, lastErrors, fault) == (Response(400, Message(MissingPath)), items)
  {
  }

  /**
   * An absent, falsy or non-conforming body: 400 and no write. A falsy body
   * skips the validator, so the response carries whatever errors it last held.
   */
  lemma InvalidBodyWritesNothing(items: Items, event: Event, check: Json -> Verdict, lastErrors: Option<seq<SchemaError>>, fault: Option<string>)
    requires SchemaSound(check)
    requires !event.body.Malformed?
    requires Given(Param(event.pathParameters, "movieId")) && Given(Param(event.pathParameters, "reviewId"))
    requires !Present(event.body) || !ContentOnly(event.body.value)
    ensures Outcome(items, event, check, lastErrors, fault) ==
              (Response(400, Invalid(InvalidInput,
                 if Present(event.body) then Some(check(event.body.value).errors) else lastErrors)), items)
  {
  }

  /**
   * A successful update answers 200 and changes only `Content` at the path's
   * key: every other attribute of that item and every other key keep their
   * values. A key holding nothing gets an item with only the key and `Content`.
   */
  lemma OnlyContentChanges(items: Items, event: Event, check: Json -> Verdict, lastErrors: Option<seq<SchemaError>>)
    requires SchemaSound(check) && WellKeyed(items)
    requires AllChecksPass(event, check) && PathKey(event).Done?
    ensures ContentOnly(event.body.value)
    ensures var (resp, after) := Outcome(items, event, check, lastErrors, None);
            var k := PathKey(event).value;
            var content := event.body.value.members["Content"].s;
            && resp == Response(200, Message(ContentUpdated))
            && WellKeyed(after)
            && k in after
            && after[k] == (if k in items then items[k].(content := content)
                            else Review(k.movieId, k.reviewId, None, None, content))
            && forall j :: j != k ==> Get(after, j) == Get(items, j)
  {
    SetContentKeepsKeys(items, PathKey(event).value, event.body.value.members["Content"].s);
  }

  /**
   * A key that cannot be marshalled (a path id that reads as NaN, an
   * infinity or a number beyond the safe integers) and a failing UpdateCommand are 500s with the thrown message,
   * and nothing is written.
   */
  lemma FailuresAre500(items: Items, event: Event, check: Json -> Verdict, lastErrors: Option<seq<SchemaError>>, fault: Option<string>)
    requires SchemaSound(check)
    requires AllChecksPass(event, check) && (PathKey(event).Fault? || fault.Some?)
    ensures Outcome(items, event, check, lastErrors, fault) ==
              (Response(500, Error(if PathKey(event).Fault? then PathKey(event).message else fault.value)), items)
  {
  }

  /** Applying the same update twice leaves the table as applying it once, with the same answer. */
  lemma UpdateIdempotent(items: Items, event: Event, check: Json -> Verdict, lastErrors: Option<seq<SchemaError>>)
    requires SchemaSound(check)
    ensures var (r1, once) := Outcome(items, event, check, lastErrors, None);
            var (r2, twice) := Outcome(once, event, check, lastErrors, None);
            r2 == r1 && twice == once
  {
    var (r1, once) := Outcome(items, event, check, lastErrors, None);
    if r1.statusCode == 200 {
      var k := PathKey(event).value;
      var content := event.body.value.members["Content"].s;
      assert once[k := once[k].(content := content)] == once;
    }
  }
}
