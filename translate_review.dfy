/**
 * GET /reviews/{reviewId}/{movieId}/translation?language=xx: fetch one
 * review and return its content translated from English. The handler only
 * reads the table; the translation service is a parameter.
 */
module TranslateReview {
  import opened Wrappers
  import opened JsNumbers
  import opened ReviewTable
  import opened Http

  const MissingParameters := "Missing path or query parameters."
  const ReviewNotFound := "Review not found."
  /** Reviews are always translated from English. */
  const SourceLanguage := "en"

  /** A TranslateTextCommand. */
  datatype TranslateRequest = TranslateRequest(sourceLanguageCode: string, targetLanguageCode: string, text: string)

  /** What the translation service answers: the translated text, or the message of what it threw. */
  datatype Translation = Translated(translatedText: string) | TranslateFailed(message: string)

  /** The path's movieId and reviewId and the `language` query parameter are all non-empty. */
  predicate Complete(event: Event) {
    && Given(Param(event.pathParameters, "reviewId"))
    && Given(Param(event.pathParameters, "movieId"))
    && Given(Param(event.queryStringParameters, "language"))
  }

  /** The GetCommand the handler sends for a complete request. */
  function Lookup(items: Items, event: Event, fault: Option<string>): CallResult<Option<Review>>
    requires Complete(event)
  {
    GetCommand(items, ToNumber(Param(event.pathParameters, "movieId").value),
               ToNumber(Param(event.pathParameters, "reviewId").value), fault)
  }

  /** The request sent to the translation service for a stored review. */
  function RequestFor(r: Review, event: Event): TranslateRequest
    requires Complete(event)
  {
    TranslateRequest(SourceLanguage, Param(event.queryStringParameters, "language").value, r.content)
  }

  /**
   * The handler. `fault` is what the table service throws for the
   * GetCommand, if anything; `translate` is the translation service.
   */
  function Handler(items: Items, event: Event, fault: Option<string>, translate: TranslateRequest -> Translation): (resp: Response)
    ensures resp.statusCode in {200, 400, 404, 500}
    ensures resp.statusCode == 400 <==> !Complete(event)
    ensures resp.statusCode == 400 ==> resp.body == Message(MissingParameters)
    ensures resp.statusCode == 404 <==> Complete(event) && Lookup(items, event, fault) == Done(None)
    ensures resp.statusCode == 404 ==> resp.body == Message(ReviewNotFound)
    ensures resp.statusCode == 200 <==>
              Complete(event) && Lookup(items, event, fault).Done? && Lookup(items, event, fault).value.Some?
              && translate(RequestFor(Lookup(items, event, fault).value.value, event)).Translated?
    ensures resp.statusCode == 200 ==>
              var r := Lookup(items, event, fault).value.value;
              resp.body == Translation(translate(RequestFor(r, event)).translatedText, r.content,
                                       Param(event.queryStringParameters, "language").value)
  {
    var reviewId := Param(event.pathParameters, "reviewId");
    var movieId := Param(event.pathParameters, "movieId");
    var languageCode := Param(event.queryStringParameters, "language");
    if !Given(reviewId) || !Given(movieId) || !Given(languageCode) then
      Response(400, Message(MissingParameters))
    else
      match GetCommand(items, ToNumber(movieId.value), ToNumber(reviewId.value), fault)
      case Fault(msg) => Response(500, Error(msg))
      case Done(None) => Response(404, Message(ReviewNotFound))
      case Done(Some(r)) =>
        match translate(TranslateRequest(SourceLanguage, languageCode.value, r.content))
        case TranslateFailed(msg) => Response(500, Error(msg))
        case Translated(text) => Response(200, Translation(text, r.content, languageCode.value))
  }

  /** A missing parameter is a 400 whatever the table holds, the store does or the translator says: nothing is called. */
  lemma MissingParametersCallNothing(items1: Items, items2: Items, event: Event, fault1: Option<string>, fault2: Option<string>,
                                     translate1: TranslateRequest -> Translation, translate2: TranslateRequest -> Translation)
    requires !Complete(event)
    ensures Handler(items1, event, fault1, translate1) == Handler(items2, event, fault2, translate2)
                                                       == Response(400, Message(MissingParameters))
  {
  }

  /** No review at the key is a 404 whatever the translator would say: it is not called. */
  lemma NotFoundTranslatesNothing(items: Items, event: Event, translate1: TranslateRequest -> Translation, translate2: TranslateRequest -> Translation)
    requires Complete(event)
    requires Storable(ToNumber(Param(event.pathParameters, "movieId").value))
    requires Storable(ToNumber(Param(event.pathParameters, "reviewId").value))
    requires Key(ToNumber(Param(event.pathParameters, "movieId").value).value,
                 ToNumber(Param(event.pathParameters, "reviewId").value).value) !in items
    ensures Handler(items, event, None, translate1) == Handler(items, event, None, translate2)
                                                    == Response(404, Message(ReviewNotFound))
  {
  }

  /**
   * A stored review is translated from English into the requested language:
   * the 200 echoes the stored content as `originalText` and the requested
   * language, and carries what the translator returned for that content.
   */
  lemma TranslatesStoredContent(items: Items, event: Event, r: Review, text: string, translate: TranslateRequest -> Translation)
    requires Complete(event)
    requires ToNumber(Param(event.pathParameters, "movieId").value) == Finite(r.movieId)
    requires ToNumber(Param(event.pathParameters, "reviewId").value) == Finite(r.reviewId)
    requires Storable(Finite(r.movieId)) && Storable(Finite(r.reviewId))
    requires Get(items, KeyOf(r)) == Some(r)
    requires translate(TranslateRequest("en", Param(event.queryStringParameters, "language").value, r.content)) == Translated(text)
    ensures Handler(items, event, None, translate) ==
              Response(200, Translation(text, r.content, Param(event.queryStringParameters, "language").value))
  {
  }

  /**
   * Everything that throws is a 500 with the thrown message: a key the
   * marshaller refuses, a failing GetCommand, a failing translation.
   */
  lemma FailuresAre500(items: Items, event: Event, fault: Option<string>, translate: TranslateRequest -> Translation)
    requires Complete(event)
    requires Lookup(items, event, fault).Fault?
             || (Lookup(items, event, fault).Done? && Lookup(items, event, fault).value.Some?
                 && translate(RequestFor(Lookup(items, event, fault).value.value, event)).TranslateFailed?)
    ensures Handler(items, event, fault, translate) == Response(500, Error(
              if Lookup(items, event, fault).Fault? then Lookup(items, event, fault).message
              else translate(RequestFor(Lookup(items, event, fault).value.value, event)).message))
  {
  }
}
