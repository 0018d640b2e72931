/**
 * What the server puts on the wire (the value-building half of BaseServer): the error
 * response for a RequestException and the length-prefixed frame around a response.
 */
module ServerWire {
  import opened Wrappers
  import opened Ascii
  import opened JsonValue
  import opened RpcErrors
  import Writer

  /** The `error` member of an error response: code, message and detail, in that order. */
  function ErrorObject(e: RequestException): seq<Member> {
    [Member("code", Int32(Code(e.err) as int32)), Member("message", String(Message(e.err))),
     Member("data", String(DetailText(e.detail)))]
  }

  /**
   * `wrapException`: `{"jsonrpc": "2.0", "error": {"code", "message", "data"}, "id"}` in
   * that member order, the id being the one the exception carries.
   */
  function WrapException(e: RequestException): Value {
    Object([Member("jsonrpc", String("2.0")), Member("error", Object(ErrorObject(e))), Member("id", e.id)])
  }

  /** An error response carries the version and the exception's id, and no result. */
  lemma ErrorResponseEnvelope(e: RequestException)
    ensures var response := WrapException(e);
            response.Object? && Keys(response.members) == ["jsonrpc", "error", "id"] &&
            FindMember(response, "jsonrpc") == Some(String("2.0")) &&
            FindMember(response, "error") == Some(Object(ErrorObject(e))) &&
            FindMember(response, "id") == Some(e.id) &&
            !HasMember(response, "result")
  {
    var ms := WrapException(e).members;
    assert FindIn(ms, "error") == FindIn(ms[1..], "error");
    assert FindIn(ms, "id") == FindIn(ms[2..], "id");
  }

  /** The `error` member holds the exception's numeric code, its message and its detail. */
  lemma ErrorObjectFields(e: RequestException)
    ensures var error := Object(ErrorObject(e));
            Keys(error.members) == ["code", "message", "data"] &&
            FindMember(error, "code") == Some(Int32(Code(e.err) as int32)) &&
            FindMember(error, "message") == Some(String(Message(e.err))) &&
            FindMember(error, "data") == Some(String(DetailText(e.detail)))
  {
    var ms := ErrorObject(e);
    assert FindIn(ms, "message") == FindIn(ms[1..], "message");
    assert FindIn(ms, "data") == FindIn(ms[2..], "data");
  }

  const CRLF: string := "\r\n"

  /**
   * The frame around a response text: the decimal length, CRLF, the text, CRLF. The
   * declared length counts the trailing CRLF.
   */
  function Frame(json: string): (frame: string)
    ensures |frame| == |Dec(|json| + 2)| + 2 + |json| + 2
    ensures frame[..|Dec(|json| + 2)|] == Dec(|json| + 2)
    ensures frame[|Dec(|json| + 2)| + 2..] == json + CRLF
  {
    var header := Dec(|json| + 2) + CRLF;
    assert (header + json + CRLF)[|header|..] == json + CRLF;
    header + json + CRLF
  }

  /** `sendResponse`: the bytes sent for a response are the frame around its written text. */
  function SendResponse(response: Value): string {
    Frame(Writer.Text(response))
  }
}
