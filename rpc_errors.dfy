/**
 * The two exceptions the RPC layer throws and the error codes they carry. A
 * RequestException belongs to a call that can be answered and carries the id to answer
 * with (json null when the request's id is unknown); a NotifyException belongs to a
 * notification and carries no id.
 */
module RpcErrors {
  import opened JsonValue
  import ReaderSpec

  /** The error codes of section 5.1 of the JSON-RPC 2.0 specification that the server uses. */
  datatype ErrorCode = RpcParseError | RpcInvalidRequest | RpcMethodNotFound | RpcInvalidParams | RpcInternalError

  /** `asCode`: the numeric code written into an error response. */
  function Code(e: ErrorCode): (c: int)
    ensures -32768 <= c <= -32000
  {
    match e
    case RpcParseError => -32700
    case RpcInvalidRequest => -32600
    case RpcMethodNotFound => -32601
    case RpcInvalidParams => -32602
    case RpcInternalError => -32603
  }

  /** `asString`: the short message written next to the code. */
  function Message(e: ErrorCode): string {
    match e
    case RpcParseError => "Parse error"
    case RpcInvalidRequest => "Invalid request"
    case RpcMethodNotFound => "Method not found"
    case RpcInvalidParams => "Invalid params"
    case RpcInternalError => "Internal error"
  }

  /** Distinct error codes have distinct numbers, so a client can tell them apart. */
  lemma CodeInjective(a: ErrorCode, b: ErrorCode)
    ensures Code(a) == Code(b) <==> a == b
  {
  }

  /** The detail an exception carries; `DetailText` is the text written into a response. */
  datatype Detail =
    | MissingField | BadFieldType | VersionUnsupported | InternalMethodName | UnexpectedField
    | MissingServiceName | ServiceNotFound | MissingMethodName | MethodNotFound
    | ParamsMismatch | ParamsNotContainer
    | BatchEmpty | BatchElementNotObject | NotObjectOrArray
    | ParseFailed(parseError: ReaderSpec.ParseError)
    | InvalidMessageLength | MessageTooLong

  function DetailText(d: Detail): string {
    match d
    case MissingField => "missing at least one field"
    case BadFieldType => "bad type of at least one field"
    case VersionUnsupported => "jsonrpc version is unknown/unsupported"
    case InternalMethodName => "method name is internal use"
    case UnexpectedField => "unexpected field"
    case MissingServiceName => "missing service name in method"
    case ServiceNotFound => "service not found"
    case MissingMethodName => "missing method name in method"
    case MethodNotFound => "method not found"
    case ParamsMismatch => "params name or type mismatch"
    case ParamsNotContainer => "params type must be object or array"
    case BatchEmpty => "batch request is empty"
    case BatchElementNotObject => "batch request should be json object"
    case NotObjectOrArray => "request should be json object or array"
    case ParseFailed(err) => ParseErrorText(err)
    case InvalidMessageLength => "invalid message length"
    case MessageTooLong => "message is too long"
  }

  datatype RequestException = RequestException(err: ErrorCode, id: Value, detail: Detail)

  datatype NotifyException = NotifyException(err: ErrorCode, detail: Detail)

  /** A RequestException thrown before the request's id is known: the id is json null. */
  function NoIdError(err: ErrorCode, detail: Detail): (e: RequestException)
    ensures e.id == Null && e.err == err && e.detail == detail
  {
    RequestException(err, Null, detail)
  }

  /** `parseErrorStr`: the name of a reader error, used as the detail of a parse error. */
  function ParseErrorText(err: ReaderSpec.ParseError): string {
    match err
    case ParseOk => "PARSE_OK"
    case RootNotSingular => "PARSE_ROOT_NOT_SINGULAR"
    case BadValue => "PARSE_BAD_VALUE"
    case ExpectValue => "PARSE_EXPECT_VALUE"
    case BadStringChar => "PARSE_BAD_STRING_CHAR"
    case BadStringEscape => "PARSE_BAD_STRING_ESCAPE"
    case MissQuotationMark => "PARSE_MISS_QUOTATION_MARK"
    case BadUnicodeHex => "PARSE_BAD_UNICODE_HEX"
    case BadUnicodeSurrogate => "PARSE_BAD_UNICODE_SURROGATE"
    case MissKey => "PARSE_MISS_KEY"
    case MissColon => "PARSE_MISS_COLON"
    case MissCommaOrCurlyBracket => "PARSE_MISS_COMMA_OR_CURLY_BRACKET"
    case MissCommaOrSquareBracket => "PARSE_MISS_COMMA_OR_SQUARE_BRACKET"
    case NumberTooBig => "PARSE_NUMBER_TOO_BIG"
  }

  /**
   * What handling a request, a notification or a batch did: the requests handed to
   * notification procedures and the values handed to the `done` callback, in order; or
   * the exception that escaped.
   */
  datatype Handled =
    | Handled(notified: seq<Value>, done: seq<Value>)
    | RequestError(e: RequestException)
    | NotifyError(ne: NotifyException)
  {
    predicate Failed() { !Handled? }
  }
}
