/**
 * The API Gateway proxy event the handlers read and the response they
 * return. Every response body is a JSON object; `Payload` lists the shapes
 * the review handlers produce.
 */
module Http {
  import opened Wrappers
  import opened Json
  import opened Schemas
  import opened ReviewTable

  /** The parts of an API Gateway proxy event the review handlers read. */
  datatype Event = Event(
    pathParameters: Option<map<string, string>>,
    queryStringParameters: Option<map<string, string>>,
    body: Body)

  /** `params?.[name]`: undefined when the parameter map or the entry is missing. */
  function Param(params: Option<map<string, string>>, name: string): (p: Option<string>)
    ensures p.Some? <==> params.Some? && name in params.value
    ensures p.Some? ==> p.value == params.value[name]
  {
    if params.Some? && name in params.value then Some(params.value[name]) else None
  }

  /** JavaScript truthiness of a `string | undefined`: present and not empty. */
  predicate Given(p: Option<string>) {
    p.Some? && p.value != ""
  }

  datatype Payload =
    | Message(message: string)
      /** `{message, errors}`; `errors` is null when the validator holds no errors. */
    | Invalid(message: string, errors: Option<seq<SchemaError>>)
      /** `{error: error.message}` from a handler's catch block. */
    | Error(error: string)
    | Data(data: seq<Review>)
    | Translation(translatedText: string, originalText: string, languageCode: string)

  datatype Response = Response(statusCode: int, body: Payload)
}
