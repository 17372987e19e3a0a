/**
 * Ajv validators compiled once per process (`ajv.compile(...)` at module
 * load). A compiled validator is a function object: calling it answers
 * whether the value is accepted, and it leaves its `errors` property set to
 * null on acceptance or to the list of errors on rejection. That property
 * outlives the call and is shared by every invocation served by the process.
 */
module Schemas {
  import opened Wrappers
  import opened Json

  /** One of Ajv's error objects. */
  datatype SchemaError = SchemaError(instancePath: string, keyword: string, message: string)

  /** What a compiled schema decides about one value. */
  datatype Verdict = Accepted | Rejected(errors: seq<SchemaError>)

  /** The `errors` property a validator holds after returning this verdict. */
  function ErrorsAfter(v: Verdict): (e: Option<seq<SchemaError>>)
    ensures e.None? <==> v.Accepted?
    ensures v.Rejected? ==> e == Some(v.errors)
  {
    match v
    case Accepted => None
    case Rejected(errs) => Some(errs)
  }

  /** A compiled validator: the schema's decision procedure and the `errors` it last left behind. */
  class Validator {
    const check: Json -> Verdict
    var errors: Option<seq<SchemaError>>

    constructor (check: Json -> Verdict)
      ensures this.check == check && errors == None
    {
      this.check := check;
      errors := None;
    }

    /** `isValid(v)`: returns the decision and records its errors. */
    method Validate(v: Json) returns (ok: bool)
      modifies this
      ensures ok <==> check(v).Accepted?
      ensures errors == ErrorsAfter(check(v))
    {
      var verdict := check(v);
      ok := verdict.Accepted?;
      errors := ErrorsAfter(verdict);
    }
  }
}
