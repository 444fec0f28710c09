/**
 * The values that flow through request processing: request payloads, the
 * exceptions raised along the way, and what the entry point hands back to
 * the transport layer.
 */
module Responses {

  /** A payload value (JSON-like), as request bodies and parameters carry them. */
  datatype Value =
    | Null
    | Bool(b: bool)
    | Int(i: int)
    | Str(s: string)
    | List(items: seq<Value>)
    | Dict(fields: map<string, Value>)

  /** Python truthiness: `None`, `False`, `0`, and empty strings, lists and dicts are false. */
  predicate Truthy(v: Value) {
    match v
    case Null => false
    case Bool(b) => b
    case Int(i) => i != 0
    case Str(s) => s != ""
    case List(items) => |items| > 0
    case Dict(fields) => |fields| > 0
  }

  /** The exceptions the entry point turns into error responses. */
  datatype Exc =
    | FileNotFound(message: string)  // raised for an unroutable path
    | UnexpectedError                // the generic replacement for a masked error
    | Raised(kind: string, message: string)  // anything raised by validation or a handler

  /** A raised exception together with the last entry of its formatted traceback. */
  datatype Failure = Failure(exc: Exc, lastFrame: string)

  /** Which documentation object `_handle_docs_request` builds. */
  datatype DocsKind =
    | SwaggerJson
    | SwaggerYaml
    | SwaggerIcon
    | SwaggerIcon16
    | SwaggerIcon32
    | SwaggerHtmlWithSpec(specPath: string)
    | SwaggerHtml

  /** The response object: a documentation page, a handler's result, or `Error.from_exception(...)`. */
  datatype Response =
    | Page(kind: DocsKind)
    | Handled(value: Value)
    | ErrorResponse(exc: Exc, errorCode: int)

  /** An exception that escapes the entry point instead of becoming a response. */
  datatype Uncaught = IndexError | UnboundLocalError

  /** The `(response, status_code)` pair, or an exception that escapes. */
  datatype Outcome = Replied(response: Response, status: int) | Escaped(uncaught: Uncaught)
}
