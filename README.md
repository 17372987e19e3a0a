# Movie reviews API: the review handlers

This project models the four Lambda handlers of a serverless movie-reviews REST API. Each handler serves one route and works on the MovieReviews table. The table's partition key is `movieId` and its sort key is `reviewId`, both numbers.

- **List** (`GET /movies/reviews/{movieId}`, `lambdas/getReviews.ts`) queries one partition. It then narrows the result by the optional query parameters `reviewId` and `ReviewerId`.
- **Create** (`POST /movies/reviews`, `lambdas/postReview.ts`) validates the body against the Review schema. It then writes the body's five review attributes at their key, replacing whatever was stored there.
- **Update** (`PUT /movies/{movieId}/reviews/{reviewId}`, `lambdas/updateReview.ts`) accepts only `{"Content": <string>}`. It sets `Content` at the key named by the path.
- **Translate** (`GET /reviews/{reviewId}/{movieId}/translation?language=xx`, `lambdas/translateReview.ts`) fetches one review. It answers 404 when nothing is stored at the key. Otherwise it returns the content translated from English.

How the model is built:

- **The table.** The table is a map from `Key(movieId, reviewId)` to `Review` (`ReviewTable`). The class `ReviewStore.MovieReviews` holds that map in its `items` field, and its methods `Put` and `UpdateContent` change it in place. The two write handlers are the methods `PostReview.Handler` and `UpdateReview.Handler`, which take a `MovieReviews` and write through those methods. Each write handler is proved equal to a specification function `Outcome` that returns the response and the table afterwards. The properties are lemmas about `Outcome`.
- **Read-only handlers.** The two read-only handlers are functions of the table's contents. "No query is made" and "the translator is not called" are stated as independence lemmas: the response is the same whatever the table, the store or the translator would do.
- **Parameters.** Path and query parameters are strings. The handlers convert them with JavaScript's `Number`, which is modelled in `JsNumbers`:
  - white-space trimming;
  - the empty string reads as 0;
  - signed decimals with a fraction and an exponent;
  - `Infinity`;
  - `0x`/`0o`/`0b` literals;
  - everything else reads as NaN.
- **Keys the marshaller refuses.** The document client marshals every number it sends. It refuses NaN, the infinities, and numbers beyond ±`Number.MAX_SAFE_INTEGER`, because none of the clients sets `allowImpreciseNumbers`. The call then throws, so the handler answers 500 with the thrown message. This applies to path ids in List, Update and Translate, and to the body's ids in Create.
- **Request bodies.** A body is absent, malformed (`JSON.parse` throws, so 500), or a parsed JSON value. A parsed falsy value (`null`, `false`, `0`, `""`) counts as no body.
- **Validators.** Ajv validators are objects (`Schemas.Validator`). Their `errors` property survives from one call to the next within the process. The update handler's 400 for a missing or falsy body echoes `isValidUpdate.errors` without calling the validator. The model therefore returns whatever errors the previous validation in the process left, or null if there was none.
- **Update creates missing items.** The update's `SET Content` carries no condition, so it creates the item when the key holds nothing. That item has only the key attributes and `Content`. This is why `reviewerId` and `reviewDate` are optional in `Review`.
- **External calls.** Store failures are a parameter `fault` holding the thrown message. The translation service is a function parameter returning either the translated text or a failure message.

## Model

| member | source | states |
|---|---|---|
| JsNumbers.ToNumber | lambdas/getReviews.ts:28 | `Number(s)`; a string of white space only (the empty string included) reads as 0; its round trip with printed integers is `NumberOfDecimalString` |
| JsNumbers.NumberOfDecimalString | lambdas/getReviews.ts:28 | `Number` of an integer printed in decimal is that integer, and the printed string is non-empty |
| JsNumbers.StrictEquals | lambdas/getReviews.ts:36 | `===` on numbers holds exactly between equal values other than NaN |
| Json.Truthy | lambdas/postReview.ts:18 | a parsed body is falsy exactly when it is `null`, `false`, `0` or `""` |
| Schemas.ErrorsAfter | lambdas/updateReview.ts:29-33 | after a validation, `errors` is null exactly when the value was accepted, and the error list otherwise |
| Schemas.Validator.Validate | lambdas/postReview.ts:28 | the call answers the schema's decision and records that decision's errors on the validator |
| ReviewTable.MarshalNumber | lambdas/getReviews.ts:27-29 | a number is marshalled exactly when it is finite and within ±`Number.MAX_SAFE_INTEGER`, and then unchanged |
| ReviewTable.MarshalKey | lambdas/translateReview.ts:22-25 | a key is marshalled exactly when both numbers are marshallable, and then carries them unchanged; otherwise the first refused number's message is thrown |
| ReviewTable.Least | lib/rest-api-stack.ts:37-39 | the smallest sort key of a non-empty set of sort keys |
| ReviewTable.QueryFrom | lambdas/getReviews.ts:23-31 | the items at the given sort keys of one partition, one per key, in ascending sort-key order |
| ReviewTable.Query | lambdas/getReviews.ts:23-31 | a partition query returns exactly the stored items of that partition, in strictly ascending reviewId order |
| ReviewTable.QueryCommand | lambdas/getReviews.ts:23-31 | the query succeeds exactly when the movie id is marshallable and the store does not fail, and then returns the partition; a refused id throws the marshaller's message |
| ReviewTable.Get | lambdas/translateReview.ts:19-29 | a point read finds an item exactly when the key is stored, and returns that item |
| ReviewTable.GetCommand | lambdas/translateReview.ts:19-27 | the point read succeeds exactly when both ids are marshallable and the store does not fail, and then returns the item at that key or nothing; a refused key throws the marshaller's message |
| ReviewTable.PutItem | lambdas/postReview.ts:41-52 | the table after a put holds the item at its key and every other stored item unchanged, and no other keys |
| ReviewTable.SetContent | lambdas/updateReview.ts:38-50 | the table after `SET Content` holds the new content at the key with every other attribute of a stored item kept, creates an item without reviewer or date at a missing key, and leaves every other key unchanged |
| ReviewTable.PutKeepsKeys | lambdas/postReview.ts:41-52 | a put stores the item at its own key, leaves every other key as it was, and keeps every item under its own key |
| ReviewTable.SetContentKeepsKeys | lambdas/updateReview.ts:38-50 | `SET Content` leaves the new content at the key, leaves every other key as it was, and keeps every item under its own key |
| ReviewStore.MovieReviews.Put | lambdas/postReview.ts:41-52 | the table afterwards is the old table with the item written at its key |
| ReviewStore.MovieReviews.UpdateContent | lambdas/updateReview.ts:38-50 | the table afterwards is the old table with `Content` set at the key, creating the item if it was missing |
| Seqs.Filter | lambdas/getReviews.ts:36 | `filter` keeps every occurrence of each element satisfying the predicate and no other element, in their original order |
| Seqs.FilterAnd | lambdas/getReviews.ts:35-41 | two filters in a row equal one filter by the conjunction |
| Seqs.FilterKeepsOrder | lambdas/getReviews.ts:33-41 | an ordering between earlier and later elements survives filtering |
| Http.Param | lambdas/getReviews.ts:11-13 | a parameter is present exactly when the map exists and holds the name, and then it is that entry's value |
| GetReviews.ApplyFilters | lambdas/getReviews.ts:33-41 | the filters keep every occurrence of each review matching every given parameter, and no other review |
| GetReviews.FiltersSelect | lambdas/getReviews.ts:35-41 | the filters keep exactly the reviews matching every given parameter, each as often as in their input, as a subsequence of it |
| GetReviews.FiltersKeepAscending | lambdas/getReviews.ts:33-41 | the filters keep the query's ascending reviewId order |
| GetReviews.Handler | lambdas/getReviews.ts:11-55 | status is 200, 400 or 500; 400 is answered exactly when movieId is missing or empty, with the fixed message; 500 exactly when a given movieId is refused by the marshaller or the query fails, so a given, marshallable movieId with a successful query always answers 200; a 200 carries data |
| GetReviews.MissingMovieIdReadsNothing | lambdas/getReviews.ts:15-21 | a missing movieId gives the same 400 whatever the table holds or the store does |
| GetReviews.ListedExactly | lambdas/getReviews.ts:23-47 | a 200 means a marshallable movie id and no fault, and lists exactly the stored reviews of `Number(movieId)` matching every given filter, as an ascending subsequence of the query output |
| GetReviews.UnfilteredListsPartition | lambdas/getReviews.ts:33-47 | with no filter the 200 carries the whole partition as queried |
| GetReviews.NoMatchIsEmptyOk | lambdas/getReviews.ts:43-47 | when nothing matches, the answer is 200 with empty data, never 404 |
| GetReviews.NaNReviewIdMatchesNothing | lambdas/getReviews.ts:35-37 | a reviewId filter that reads as NaN matches nothing |
| GetReviews.QueryFailureIs500 | lambdas/getReviews.ts:48-55 | a movie id the marshaller refuses or a failing query is a 500 carrying the thrown message |
| PostReview.StoredReview | lambdas/postReview.ts:44-50 | the written item carries the body's movieId and reviewId as its key, its ReviewerId, ReviewDate and Content, and always a reviewer and a date |
| PostReview.Outcome | lambdas/postReview.ts:16-70 | status is 201, 400 or 500; 201 is answered exactly when a truthy body passes the schema, its ids marshal and the put succeeds; only then is the five-field item written, otherwise the table is unchanged |
| PostReview.Handler | lambdas/postReview.ts:13-70 | the handler's response and table are those of `Outcome`; the validator's `errors` change only when the validator ran |
| PostReview.MissingBodyWritesNothing | lambdas/postReview.ts:16-26 | an absent or falsy body gives 400 "Missing request body" and no write |
| PostReview.RejectedWritesNothing | lambdas/postReview.ts:28-39 | a body the schema rejects gives 400 with the validator's errors and no write |
| PostReview.FailuresAre500 | lambdas/postReview.ts:61-70 | malformed JSON, body ids the marshaller refuses and a failing put are 500s with the thrown message and no write |
| PostReview.CreateOverwrites | lambdas/postReview.ts:41-60 | a valid body with marshallable ids answers 201 and stores the body's five fields at (movieId, reviewId), replacing any earlier item; other keys are unchanged |
| PostReview.ExtraMembersNotStored | lambdas/postReview.ts:44-50 | extra body members do not change the stored item |
| PostReview.CreateIdempotent | lambdas/postReview.ts:41-52 | posting the same body twice gives the same response and table as posting it once |
| UpdateReview.ContentOnlyBodies | lambdas/updateReview.ts:8-15 | the content-only schema's accepted bodies are exactly the objects `{"Content": s}` |
| UpdateReview.Outcome | lambdas/updateReview.ts:21-56 | status is 200, 400 or 500; 200 is answered exactly when every check passes and the key marshals and the update succeeds; only then is `Content` set, otherwise the table is unchanged |
| UpdateReview.Handler | lambdas/updateReview.ts:19-56 | the handler's response and table are those of `Outcome` with the validator's previous errors; those change only when the validator ran |
| UpdateReview.MalformedBodyIs500 | lambdas/updateReview.ts:23 | malformed JSON is a 500 even when the path is incomplete, because the body is parsed first |
| UpdateReview.MissingPathWritesNothing | lambdas/updateReview.ts:25-27 | a missing or empty movieId or reviewId gives 400 "Missing path parameters" and no write |
| UpdateReview.InvalidBodyWritesNothing | lambdas/updateReview.ts:29-34 | an absent, falsy or non-conforming body gives 400 "Invalid input. Only 'Content' is updatable." and no write; a falsy body echoes the stale errors |
| UpdateReview.OnlyContentChanges | lambdas/updateReview.ts:38-52 | success answers 200 and changes only `Content` at `(Number(movieId), Number(reviewId))`; every other attribute and every other key are kept, and a missing key gets an item holding only the key and `Content` |
| UpdateReview.FailuresAre500 | lambdas/updateReview.ts:53-56 | an unmarshallable key or a failing update is a 500 with the thrown message and no write |
| UpdateReview.UpdateIdempotent | lambdas/updateReview.ts:38-52 | applying the same update twice gives the same response and table as applying it once |
| TranslateReview.Handler | lambdas/translateReview.ts:9-49 | status is 200, 400, 404 or 500; 400 is answered exactly when a parameter is missing; 404 exactly when the read finds nothing; 200 exactly when the review is found and translated, carrying the translation, the stored content and the language |
| TranslateReview.MissingParametersCallNothing | lambdas/translateReview.ts:15-17 | a missing parameter gives the same 400 whatever the table, the store or the translator would do |
| TranslateReview.NotFoundTranslatesNothing | lambdas/translateReview.ts:19-31 | no item at the key gives 404 "Review not found." whatever the translator would do |
| TranslateReview.TranslatesStoredContent | lambdas/translateReview.ts:33-45 | the translator is asked to translate the stored content from "en" into the requested language, and the 200 reports its answer |
| TranslateReview.FailuresAre500 | lambdas/translateReview.ts:46-49 | a key the marshaller refuses, a failing read or a failing translation is a 500 with the thrown message |
| Scenarios.CreateThenListIncludes | lambdas/getReviews.ts:23-47 | with strongly consistent reads, after a successful create in any table, an unfiltered listing of its movie answers 200 and includes the created review |
| Scenarios.CreateThenList | lambdas/getReviews.ts:23-47 | with strongly consistent reads, after a successful create in a movie with no reviews yet, listing that movie answers 200 with exactly the created review |
| Scenarios.UpdateThenTranslate | lambdas/translateReview.ts:33-45 | with strongly consistent reads, after a successful update, translating the same path translates the new content and echoes it as the original text |
| Scenarios.UpsertIsVisible | lambdas/updateReview.ts:38-50 | an update at an empty key creates an item without reviewer or date, which translation then finds, with strongly consistent reads, instead of answering 404 |
| Scenarios.SeedTable | seed/movies.ts:176-198 | the seeded table keeps every review under its own key |
| Scenarios.SeedListByReviewer | seed/movies.ts:176-198 | on the seeded table, listing movie 848326 by reviewer das@gmail.com answers exactly review 1002 |

## Left out

- Review schema: the file `shared/types.schema.json` is not part of this model. The create handler takes the compiled schema as a parameter. The only thing assumed about it is that whatever it accepts carries the five attributes of `shared/types.d.ts:32-38` with their JSON types. It is also assumed to exist: with no `Review` definition, the code compiles `{}`, which accepts every body.
- Ajv error objects: their contents and order are left abstract.
- Content-only schema: its acceptance is stated exactly, but its error objects are left abstract.
- `convertEmptyValues`: the document-client option that stores an empty string as NULL is not modelled. An empty `Content` is stored as the empty string.
- Query paging: the 1 MB page limit and `LastEvaluatedKey` are not modelled. A query returns the whole partition.
- Numbers: IEEE-754 rounding and the double range are not modelled. Numbers are exact reals, so `1e400` in a JSON body is a finite number here. It is then refused as beyond the safe integers, where JavaScript would refuse it as `Infinity`. Near ±`Number.MAX_SAFE_INTEGER`, the model compares the exact value against the bound, while JavaScript compares the rounded double.
- ReviewTable.MarshalNumber: the number in the message "Number … is greater than Number.MAX_SAFE_INTEGER. Use BigInt." is printed as its integer part in plain decimal. JavaScript prints the rounded double, in exponent notation from 1e21 on.
- Response headers: left out, including the `Content-Type` / `content-type` spelling difference. A body is modelled by its JSON shape, not its serialized text.
- Logging: `console` logging is left out.
- The marshaller's message texts for a refused number: they come from a library that is not part of this model, so the texts are written after that library's wording.
- Authentication: the cookie authorizer is not part of this model.
- Infrastructure: the CDK stacks, route wiring and table provisioning are left out because they have no runtime behaviour. The seeding script, the batch helpers in `shared/util.ts` and the app entry point are left out; only the seed's review data appears, as a fixture.
- Read consistency: reads are modelled as strongly consistent. The QueryCommand and the GetCommand set no `ConsistentRead`, so the service serves eventually consistent reads, and a read right after a write can still miss it. The scenarios that read after a write (`Scenarios.CreateThenListIncludes`, `Scenarios.CreateThenList`, `Scenarios.UpdateThenTranslate`, `Scenarios.UpsertIsVisible`) hold only under strongly consistent reads.
- Failed writes: a store call that fails is taken to have left the table unchanged. A write the service applied before the call was reported as failed (a lost response after which the client's retries end in a throw) is not modelled.
- PostReview.FailuresAre500: "no write" after a failing put holds only when the failed call left the table unchanged, as the line above says; after a marshalling refusal nothing is sent, so it is exact.
- UpdateReview.FailuresAre500: "no write" after a failing update holds only when the failed call left the table unchanged, as above; after a marshalling refusal nothing is sent, so it is exact.
- Concurrency: concurrent invocations and last-write-wins races are left out. Each request runs alone against the table.
- The movie and cast handlers are not part of this model.
