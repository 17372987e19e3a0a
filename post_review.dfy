/**
 * POST /movies/reviews: validate the body against the Review schema and
 * write its five review attributes to the table, replacing any review
 * already stored under the same (movieId, reviewId).
 */
module PostReview {
  import opened Wrappers
  import opened Json
  import opened JsNumbers
  import opened Schemas
  import opened ReviewTable
  import opened ReviewStore
  import opened Http

  const MissingBody := "Missing request body"
  const InvalidReview := "Invalid review. Must match Review schema."
  const ReviewAdded := "Review added successfully"

  predicate HasNumber(members: map<string, Json>, name: string) {
    name in members && members[name].JNum?
  }

  predicate HasString(members: map<string, Json>, name: string) {
    name in members && members[name].JStr?
  }

  /** An object carrying the five attributes of a Review with their JSON types; other members may be present. */
  predicate ReviewShaped(v: Json) {
    && v.JObj?
    && HasNumber(v.members, "movieId")
    && HasNumber(v.members, "reviewId")
    && HasString(v.members, "ReviewerId")
    && HasString(v.members, "ReviewDate")
    && HasString(v.members, "Content")
  }

  /**
   * What the compiled Review schema is taken to guarantee: whatever it
   * accepts carries the five attributes. The schema file itself is not
   * part of this model, so the validator is a parameter with this property.
   */
  ghost predicate SchemaSound(check: Json -> Verdict) {
    forall v :: check(v).Accepted? ==> ReviewShaped(v)
  }

  /**
   * The item the PutCommand writes: the five attributes, copied from the
   * body, and nothing else. A created review always has a reviewer and a date.
   */
  function StoredReview(v: Json): (r: Review)
    requires ReviewShaped(v)
    ensures KeyOf(r) == Key(v.members["movieId"].n, v.members["reviewId"].n)
    ensures r.reviewerId == Some(v.members["ReviewerId"].s) && r.reviewDate == Some(v.members["ReviewDate"].s)
    ensures r.content == v.members["Content"].s
  {
    var m := v.members;
    Review(m["movieId"].n, m["reviewId"].n, Some(m["ReviewerId"].s), Some(m["ReviewDate"].s), m["Content"].s)
  }

  /** The item's key as the PutCommand marshals it, `movieId` first. */
  function BodyKey(v: Json): CallResult<Key>
    requires ReviewShaped(v)
  {
    MarshalKey(Finite(v.members["movieId"].n), Finite(v.members["reviewId"].n))
  }

  /**
   * The response and the table afterwards, for a request with `body`
   * against a table holding `items`; `fault` is what the PutCommand throws,
   * if anything.
   */
  function Outcome(items: Items, body: Body, check: Json -> Verdict, fault: Option<string>): (out: (Response, Items))
    requires SchemaSound(check)
    ensures out.0.statusCode in {201, 400, 500}
    ensures out.0.statusCode == 201 <==> Present(body) && check(body.value).Accepted? && BodyKey(body.value).Done? && fault.None?
    ensures out.0.statusCode == 201 ==> out.1 == PutItem(items, StoredReview(body.value))
    ensures out.0.statusCode != 201 ==> out.1 == items
  {
    match body
    case Malformed(msg) => (Response(500, Error(msg)), items)
    case Absent => (Response(400, Message(MissingBody)), items)
    case Parsed(v) =>
      if !Truthy(v) then (Response(400, Message(MissingBody)), items)
      else
        match check(v)
        case Rejected(errs) => (Response(400, Invalid(InvalidReview, Some(errs))), items)
        case Accepted =>
          match BodyKey(v)
          case Fault(msg) => (Response(500, Error(msg)), items)
          case Done(_) =>
            if fault.Some? then (Response(500, Error(fault.value)), items)
            else (Response(201, Message(ReviewAdded)), PutItem(items, StoredReview(v)))
  }

  /** The handler, against the shared table and the process's compiled Review validator. */
  method Handler(table: MovieReviews, validator: Validator, event: Event, fault: Option<string>) returns (resp: Response)
    requires table.Valid() && SchemaSound(validator.check)
    modifies table, validator
    ensures table.Valid()
    ensures (resp, table.items) == Outcome(old(table.items), event.body, validator.check, fault)
    ensures validator.errors == if Present(event.body) then ErrorsAfter(validator.check(event.body.value)) else old(validator.errors)
  {
    if event.body.Malformed? {
      return Response(500, Error(event.body.message));
    }
    if !Present(event.body) {
      return Response(400, Message(MissingBody));
    }
    var v := event.body.value;
    var ok := validator.Validate(v);
    if !ok {
      return Response(400, Invalid(InvalidReview, validator.errors));
    }
    var key := BodyKey(v);
    if key.Fault? {
      return Response(500, Error(key.message));
    }
    if fault.Some? {
      return Response(500, Error(fault.value));
    }
    table.Put(StoredReview(v));
    resp := Response(201, Message(ReviewAdded));
  }

  /** No body, or a falsy one (null, false, 0, ""): 400 and the table is untouched. */
  lemma MissingBodyWritesNothing(items: Items, body: Body, check: Json -> Verdict, fault: Option<string>)
    requires SchemaSound(check)
    requires body.Absent? || (body.Parsed? && !Truthy(body.value))
    ensures Outcome(items, body, check, fault) == (Response(400, Message(MissingBody)), items)
  {
  }

  /** A body the schema rejects: 400 carrying the validator's errors, and the table is untouched. */
  lemma RejectedWritesNothing(items: Items, v: Json, check: Json -> Verdict, fault: Option<string>)
    requires SchemaSound(check)
    requires Truthy(v) && check(v).Rejected?
    ensures Outcome(items, Parsed(v), check, fault) == (Response(400, Invalid(InvalidReview, Some(check(v).errors))), items)
  {
  }

  /**
   * Unparseable JSON, ids the marshaller refuses (beyond the safe integers)
   * and store failures are 500s with the thrown message, never 400s.
   */
  lemma FailuresAre500(items: Items, body: Body, check: Json -> Verdict, fault: Option<string>)
    requires SchemaSound(check)
    requires body.Malformed? || (Present(body) && check(body.value).Accepted? && (BodyKey(body.value).Fault? || fault.Some?))
    ensures Outcome(items, body, check, fault) ==
              (Response(500, Error(if body.Malformed? then body.message
                                   else if BodyKey(body.value).Fault? then BodyKey(body.value).message
                                   else fault.value)), items)
  {
  }

  /**
   * A successful create answers 201 and stores the body's five attributes at
   * (movieId, reviewId), replacing whatever was there; every other key keeps
   * its item.
   */
  lemma CreateOverwrites(items: Items, v: Json, check: Json -> Verdict)
    requires SchemaSound(check) && WellKeyed(items)
    requires Truthy(v) && check(v).Accepted?
    requires Storable(Finite(v.members["movieId"].n)) && Storable(Finite(v.members["reviewId"].n))
    ensures ReviewShaped(v)
    ensures var (resp, after) := Outcome(items, Parsed(v), check, None);
            && resp == Response(201, Message(ReviewAdded))
            && WellKeyed(after)
            && Get(after, Key(v.members["movieId"].n, v.members["reviewId"].n)) == Some(StoredReview(v))
            && forall k :: k != KeyOf(StoredReview(v)) ==> Get(after, k) == Get(items, k)
  {
    PutKeepsKeys(items, StoredReview(v));
  }

  /** Members beyond the five attributes do not reach the table. */
  lemma ExtraMembersNotStored(v: Json, name: string, extra: Json)
    requires ReviewShaped(v)
    requires name !in {"movieId", "reviewId", "ReviewerId", "ReviewDate", "Content"}
    ensures ReviewShaped(JObj(v.members[name := extra]))
    ensures StoredReview(JObj(v.members[name := extra])) == StoredReview(v)
  {
  }

  /** Posting the same body twice leaves the table as posting it once. */
  lemma CreateIdempotent(items: Items, body: Body, check: Json -> Verdict)
    requires SchemaSound(check)
    ensures var (r1, once) := Outcome(items, body, check, None);
            var (r2, twice) := Outcome(once, body, check, None);
            r2 == r1 && twice == once
  {
  }
}
