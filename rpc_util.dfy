/**
 * The `done` wrapper handed to user services (jrpc::UserDoneCallback): it turns the
 * result a service computed into a success response for the request it belongs to.
 */
module RpcUtil {
  import opened Wrappers
  import opened JsonValue

  /** A UserDoneCallback keeps the request it answers; the RpcDoneCallback is the caller's. */
  datatype UserDoneCallback = UserDoneCallback(request: Value)
  {
    /**
     * `operator()`: the response `{"jsonrpc": "2.0", "id": <request id>, "result": result}`
     * with its members in that order. It is always a success response.
     */
    function Respond(result: Value): (response: Value)
      ensures response.Object? && Keys(response.members) == ["jsonrpc", "id", "result"]
      ensures FindMember(response, "jsonrpc") == Some(String("2.0"))
      ensures FindMember(response, "id") == Some(Get(request, "id"))
      ensures FindMember(response, "result") == Some(result)
      ensures !HasMember(response, "error")
    {
      var ms := [Member("jsonrpc", String("2.0")), Member("id", Get(request, "id")), Member("result", result)];
      assert FindIn(ms, "id") == FindIn(ms[1..], "id");
      assert FindIn(ms, "result") == FindIn(ms[2..], "result");
      Object(ms)
    }
  }
}
