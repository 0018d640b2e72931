/**
 * The JSON-RPC 2.0 envelope checks and dispatch of jrpc::RpcServer: a parsed message is a
 * request (an object with an id), a notification (an object without one) or a batch
 * (an array); its `method` names a registered service and, after the first '.', one of
 * that service's procedures.
 */
module RpcServer {
  import opened Wrappers
  import opened JsonValue
  import opened ReaderSpec
  import opened RpcErrors
  import opened RpcService
  import opened ServerWire

  // ---------------------------------------------------------------- field checks

  /** `checkValueType<types...>`: passes when `t` is one of the listed types, tried in order. */
  function CheckValueType(types: seq<ValueType>, t: ValueType): (r: Option<RequestException>)
    requires |types| > 0
    ensures r.None? <==> t in types
    ensures r.Some? ==> r.value == NoIdError(RpcInvalidRequest, BadFieldType)
  {
    if types[0] == t then None
    else if |types| == 1 then Some(NoIdError(RpcInvalidRequest, BadFieldType))
    else
      var r := CheckValueType(types[1..], t);
      assert t in types <==> t in types[1..] by {
        assert types == [types[0]] + types[1..];
      }
      r
  }

  datatype Lookup = Found(value: Value) | LookupFailed(e: RequestException)

  /**
   * `findValue<types...>(request, key)`: the member's value when it is present with one
   * of the listed types; otherwise an INVALID_REQUEST without id.
   */
  function FindValue(request: Value, key: string, types: seq<ValueType>): (r: Lookup)
    requires |types| > 0
    ensures r.Found? <==> FindMember(request, key).Some? && TypeOf(FindMember(request, key).value) in types
    ensures r.Found? ==> r.value == FindMember(request, key).value
    ensures r.LookupFailed? ==> r.e.id == Null && r.e.err == RpcInvalidRequest
    ensures FindMember(request, key).None? ==> r == LookupFailed(NoIdError(RpcInvalidRequest, MissingField))
  {
    match FindMember(request, key)
    case None => LookupFailed(NoIdError(RpcInvalidRequest, MissingField))
    case Some(v) =>
      match CheckValueType(types, TypeOf(v))
      case Some(e) => LookupFailed(e)
      case None => Found(v)
  }

  /** `findValue<types...>(request, id, key)`: the same lookup, its failure carrying `id`. */
  function FindValueWithId(request: Value, id: Value, key: string, types: seq<ValueType>): (r: Lookup)
    requires |types| > 0
    ensures r.Found? <==> FindMember(request, key).Some? && TypeOf(FindMember(request, key).value) in types
    ensures r.Found? ==> r.value == FindMember(request, key).value
    ensures r.LookupFailed? ==> r.e.id == id && r.e.err == RpcInvalidRequest
  {
    match FindValue(request, key, types)
    case Found(v) => Found(v)
    case LookupFailed(e) => LookupFailed(RequestException(e.err, id, e.detail))
  }

  /** `isNotify`: a message without an id is a notification. */
  predicate IsNotify(request: Value) {
    FindMember(request, "id").None?
  }

  /** `hasParams` */
  predicate HasParams(request: Value) {
    FindMember(request, "params").Some?
  }

  function ParamCount(request: Value): nat {
    if HasParams(request) then 1 else 0
  }

  /** The types an id may have: string, null or an integer. */
  const IdTypes: seq<ValueType> := [TypeString, TypeNull, TypeInt32, TypeInt64]

  predicate ValidId(request: Value) {
    FindMember(request, "id").Some? && TypeOf(FindMember(request, "id").value) in IdTypes
  }

  /** The method member, when it is a string. */
  predicate HasMethodString(request: Value) {
    FindMember(request, "method").Some? && FindMember(request, "method").value.String?
  }

  function MethodName(request: Value): string {
    match Get(request, "method")
    case String(m) => m
    case _ => ""
  }

  /**
   * A request the server accepts: a valid id, `"jsonrpc": "2.0"`, a string method other
   * than exactly "rpc.", and no member besides these and `params`.
   */
  predicate ValidRequest(request: Value) {
    ValidId(request) &&
    FindMember(request, "jsonrpc") == Some(String("2.0")) &&
    HasMethodString(request) && MethodName(request) != "rpc." &&
    Size(request) == 3 + ParamCount(request)
  }

  /** A notification the server accepts: as a request, without the id. */
  predicate ValidNotify(request: Value) {
    FindMember(request, "jsonrpc") == Some(String("2.0")) &&
    HasMethodString(request) && MethodName(request) != "rpc." &&
    Size(request) == 2 + ParamCount(request)
  }

  /**
   * `validateRequest`. Once the id is known every failure carries it; a missing or
   * mistyped id gives an INVALID_REQUEST without id. The reserved name gives
   * METHOD_NOT_FOUND, every other failure INVALID_REQUEST.
   */
  function ValidateRequest(request: Value): (r: Option<RequestException>)
    ensures r.None? <==> ValidRequest(request)
    ensures !ValidId(request) ==> r.Some? && r.value.id == Null && r.value.err == RpcInvalidRequest
    ensures r.Some? && ValidId(request) ==> r.value.id == Get(request, "id")
    ensures r.Some? ==> (r.value.err == RpcMethodNotFound <==>
                         ValidId(request) && FindMember(request, "jsonrpc") == Some(String("2.0")) &&
                         HasMethodString(request) && MethodName(request) == "rpc.")
    ensures r.Some? ==> r.value.err in {RpcInvalidRequest, RpcMethodNotFound}
  {
    match FindValue(request, "id", IdTypes)
    case LookupFailed(e) => Some(e)
    case Found(id) =>
      match FindValueWithId(request, id, "jsonrpc", [TypeString])
      case LookupFailed(e) => Some(e)
      case Found(version) =>
        if version.s != "2.0" then
          Some(RequestException(RpcInvalidRequest, id, VersionUnsupported))
        else
          match FindValueWithId(request, id, "method", [TypeString])
          case LookupFailed(e) => Some(e)
          case Found(m) =>
            if m.s == "rpc." then Some(RequestException(RpcMethodNotFound, id, InternalMethodName))
            else if Size(request) != 3 + ParamCount(request) then
              Some(RequestException(RpcInvalidRequest, id, UnexpectedField))
            else None
  }

  /**
   * `validateNotify`. A missing or mistyped `jsonrpc` or `method` escapes as a
   * RequestException without id; every other failure is a NotifyException.
   */
  function ValidateNotify(request: Value): (r: Option<Handled>)
    ensures r.None? <==> ValidNotify(request)
    ensures r.Some? ==> r.value.Failed()
    ensures r.Some? && r.value.RequestError? ==> r.value.e.id == Null && r.value.e.err == RpcInvalidRequest
    ensures r.Some? && r.value.RequestError? <==>
              !(FindMember(request, "jsonrpc").Some? && FindMember(request, "jsonrpc").value.String?) ||
              (FindMember(request, "jsonrpc") == Some(String("2.0")) && !HasMethodString(request))
  {
    match FindValue(request, "jsonrpc", [TypeString])
    case LookupFailed(e) => Some(RequestError(e))
    case Found(version) =>
      if version.s != "2.0" then
        Some(NotifyError(NotifyException(RpcInvalidRequest, VersionUnsupported)))
      else
        match FindValue(request, "method", [TypeString])
        case LookupFailed(e) => Some(RequestError(e))
        case Found(m) =>
          if m.s == "rpc." then Some(NotifyError(NotifyException(RpcMethodNotFound, InternalMethodName)))
          else if Size(request) != 2 + ParamCount(request) then
            Some(NotifyError(NotifyException(RpcInvalidRequest, UnexpectedField)))
          else None
  }

  /** `find`: the position of the first `c` in `m` at or after `i`. */
  function FindChar(m: string, c: char, i: nat): (r: Option<nat>)
    requires i <= |m|
    ensures r.None? <==> forall k :: i <= k < |m| ==> m[k] != c
    ensures r.Some? ==> i <= r.value < |m| && m[r.value] == c && forall k :: i <= k < r.value ==> m[k] != c
    decreases |m| - i
  {
    if i == |m| then None
    else if m[i] == c then Some(i)
    else FindChar(m, c, i + 1)
  }

  /** The first '.' of `svc + "." + name` is the one after `svc` when `svc` has none. */
  lemma FirstDotOfMethod(svc: string, name: string)
    requires forall k :: 0 <= k < |svc| ==> svc[k] != '.'
    ensures var m := svc + "." + name;
            FindChar(m, '.', 0) == Some(|svc|) && m[..|svc|] == svc && m[|svc| + 1..] == name
  {
    var m := svc + "." + name;
    assert m[|svc|] == '.';
    assert forall k :: 0 <= k < |svc| ==> m[k] == svc[k];
  }

  // ---------------------------------------------------------------- batches

  lemma Regroup<T>(a: seq<T>, b: seq<T>, c: seq<T>)
    ensures a + (b + c) == a + b + c
  {
  }

  /** What a batch collected: the requests notified and the responses, in order. */
  datatype BatchResult = BatchResult(notified: seq<Value>, responses: seq<Value>)

  class RpcServer {
    var services: map<string, RpcService>

    constructor ()
      ensures services == map[]
    {
      services := map[];
    }

    /** `addService`: registers a service under a name not yet taken. */
    method AddService(serviceName: string, service: RpcService)
      requires serviceName !in services
      modifies this
      ensures services == old(services)[serviceName := service]
    {
      services := services[serviceName := service];
    }

    /**
     * `handleSingleRequest`: validation, then the service named before the first '.',
     * then its procedure named after it. Every failure is a RequestException carrying the
     * request's id once the id is valid; a success hands the procedure's response to `done`.
     */
    function HandleSingleRequest(request: Value): (h: Handled)
      reads this, services.Values
      ensures !h.NotifyError?
      ensures !ValidId(request) ==> h.RequestError?
      ensures h.RequestError? ==> h.e.id == (if ValidId(request) then Get(request, "id") else Null)
      ensures h.Handled? ==> ValidRequest(request) && h.notified == [] && |h.done| == 1
    {
      match ValidateRequest(request)
      case Some(e) => RequestError(e)
      case None =>
        var id := Get(request, "id");
        var methodName := MethodName(request);
        match FindChar(methodName, '.', 0)
        case None => RequestError(RequestException(RpcInvalidRequest, id, MissingServiceName))
        case Some(pos) =>
          var serviceName := methodName[..pos];
          if serviceName !in services then
            RequestError(RequestException(RpcMethodNotFound, id, ServiceNotFound))
          else if pos + 1 == |methodName| then
            RequestError(RequestException(RpcInvalidRequest, id, MissingMethodName))
          else services[serviceName].CallReturn(methodName[pos + 1..], request)
    }

    /**
     * `handleSingleNotify`: the same route, but a missing service name (no '.' or a '.' in
     * front) is a NotifyException, while an unknown service or an empty method name
     * escapes as a RequestException without id. A success runs one notification
     * procedure on the request and hands nothing to `done`.
     */
    function HandleSingleNotify(request: Value): (h: Handled)
      reads this, services.Values
      ensures h.Handled? ==> ValidNotify(request) && h.notified == [request] && h.done == []
      ensures h.RequestError? ==> h.e.id == Null
    {
      match ValidateNotify(request)
      case Some(r) => r
      case None =>
        var methodName := MethodName(request);
        match FindChar(methodName, '.', 0)
        case None => NotifyError(NotifyException(RpcInvalidRequest, MissingServiceName))
        case Some(pos) =>
          if pos == 0 then NotifyError(NotifyException(RpcInvalidRequest, MissingServiceName))
          else
            var serviceName := methodName[..pos];
            if serviceName !in services then RequestError(NoIdError(RpcMethodNotFound, ServiceNotFound))
            else if pos + 1 == |methodName| then RequestError(NoIdError(RpcInvalidRequest, MissingMethodName))
            else services[serviceName].CallNotify(methodName[pos + 1..], request)
    }

    /**
     * How a valid request's method name can fail to route: no '.', an unregistered
     * service before the first '.', or nothing after it. Each carries the request's id.
     */
    lemma RequestRouteErrors(request: Value)
      requires ValidRequest(request)
      ensures var m := MethodName(request);
              var dot := FindChar(m, '.', 0);
              var id := Get(request, "id");
              var h := HandleSingleRequest(request);
              (dot.None? ==> h == RequestError(RequestException(RpcInvalidRequest, id, MissingServiceName))) &&
              (dot.Some? && m[..dot.value] !in services ==>
                 h == RequestError(RequestException(RpcMethodNotFound, id, ServiceNotFound))) &&
              (dot.Some? && m[..dot.value] in services && dot.value + 1 == |m| ==>
                 h == RequestError(RequestException(RpcInvalidRequest, id, MissingMethodName)))
    {
    }

    /**
     * How a valid notification's method name can fail to route: no '.' or a '.' in front
     * is a NotifyException; an unregistered service or nothing after the '.' escapes as a
     * RequestException without id.
     */
    lemma NotifyRouteErrors(request: Value)
      requires ValidNotify(request)
      ensures var m := MethodName(request);
              var dot := FindChar(m, '.', 0);
              var h := HandleSingleNotify(request);
              (dot.None? || dot == Some(0) ==> h == NotifyError(NotifyException(RpcInvalidRequest, MissingServiceName))) &&
              (dot.Some? && dot.value > 0 && m[..dot.value] !in services ==>
                 h == RequestError(NoIdError(RpcMethodNotFound, ServiceNotFound))) &&
              (dot.Some? && dot.value > 0 && m[..dot.value] in services && dot.value + 1 == |m| ==>
                 h == RequestError(NoIdError(RpcInvalidRequest, MissingMethodName)))
    {
    }

    /** A valid request whose method is `svc.name` goes to procedure `name` of service `svc`. */
    lemma RouteRequest(request: Value, svc: string, name: string)
      requires ValidRequest(request) && MethodName(request) == svc + "." + name
      requires (forall k :: 0 <= k < |svc| ==> svc[k] != '.') && svc in services && name != ""
      ensures HandleSingleRequest(request) == services[svc].CallReturn(name, request)
    {
      FirstDotOfMethod(svc, name);
    }

    /** A valid notification whose method is `svc.name` goes to notification `name` of `svc`. */
    lemma RouteNotify(request: Value, svc: string, name: string)
      requires ValidNotify(request) && MethodName(request) == svc + "." + name
      requires (forall k :: 0 <= k < |svc| ==> svc[k] != '.') && svc != "" && svc in services && name != ""
      ensures HandleSingleNotify(request) == services[svc].CallNotify(name, request)
    {
      FirstDotOfMethod(svc, name);
    }

    /** One element of a batch: anything but an object is rejected. */
    function Step(request: Value): (h: Handled)
      reads this, services.Values
    {
      if !request.Object? then RequestError(NoIdError(RpcInvalidRequest, BatchElementNotObject))
      else if IsNotify(request) then HandleSingleNotify(request)
      else HandleSingleRequest(request)
    }

    /**
     * The batch loop from `es` on: elements in order until the first failure. A
     * RequestException adds its error response and stops; a NotifyException stops
     * silently. Each element adds at most one response.
     */
    function Batch(es: seq<Value>): (b: BatchResult)
      reads this, services.Values
      ensures |b.responses| <= |es|
    {
      if es == [] then BatchResult([], [])
      else
        match Step(es[0])
        case RequestError(e) => BatchResult([], [WrapException(e)])
        case NotifyError(_) => BatchResult([], [])
        case Handled(n, d) =>
          var rest := Batch(es[1..]);
          BatchResult(n + rest.notified, d + rest.responses)
    }

    /**
     * `handleBatchRequests` as a whole: an empty batch is INVALID_REQUEST; otherwise
     * `done` receives the array of responses exactly once.
     */
    function BatchOutcome(es: seq<Value>): (h: Handled)
      reads this, services.Values
      ensures es == [] <==> h.Failed()
      ensures es != [] ==> h.Handled? && |h.done| == 1 && h.done[0].Array? && |h.done[0].elems| <= |es|
    {
      if es == [] then RequestError(NoIdError(RpcInvalidRequest, BatchEmpty))
      else Handled(Batch(es).notified, [Array(Batch(es).responses)])
    }

    /** `Batch` of a non-empty sequence, one element at a time. */
    lemma BatchUnfold(es: seq<Value>)
      requires es != []
      ensures Step(es[0]).RequestError? ==> Batch(es) == BatchResult([], [WrapException(Step(es[0]).e)])
      ensures Step(es[0]).NotifyError? ==> Batch(es) == BatchResult([], [])
      ensures Step(es[0]).Handled? ==>
                Batch(es) == BatchResult(Step(es[0]).notified + Batch(es[1..]).notified,
                                         Step(es[0]).done + Batch(es[1..]).responses)
    {
    }

    /** At the end of the batch nothing is left to add. */
    lemma BatchEnd(es: seq<Value>, notified: seq<Value>, responses: seq<Value>)
      requires Batch(es) == BatchResult(notified + Batch(es[|es|..]).notified, responses + Batch(es[|es|..]).responses)
      ensures Batch(es) == BatchResult(notified, responses)
    {
      assert es[|es|..] == [];
      assert notified + [] == notified;
      assert responses + [] == responses;
    }

    /** Where the batch loop stops, no further notification is recorded. */
    lemma BatchStopped(es: seq<Value>, notified: seq<Value>, responses: seq<Value>, b: BatchResult)
      requires Batch(es) == BatchResult(notified + b.notified, responses + b.responses) && b.notified == []
      ensures Batch(es) == BatchResult(notified, responses + b.responses)
    {
      assert notified + [] == notified;
    }

    /** One turn of the batch loop: the element's checks and its handling. */
    method HandleBatchElement(request: Value) returns (r: Handled)
      ensures r == Step(request)
    {
      if !request.Object? {
        return RequestError(NoIdError(RpcInvalidRequest, BatchElementNotObject));
      }
      if IsNotify(request) {
        r := HandleSingleNotify(request);
      } else {
        r := HandleSingleRequest(request);
      }
    }

    /**
     * One turn of the batch loop over element `i`: a success adds what it notified and
     * answered; a RequestException adds its error response and stops; a NotifyException
     * stops.
     */
    method BatchTurn(es: seq<Value>, i: nat, notified: seq<Value>, responses: seq<Value>)
      returns (stop: bool, notified': seq<Value>, responses': seq<Value>)
      requires i < |es|
      requires Batch(es) == BatchResult(notified + Batch(es[i..]).notified, responses + Batch(es[i..]).responses)
      ensures stop ==> Batch(es) == BatchResult(notified', responses')
      ensures !stop ==> Batch(es) == BatchResult(notified' + Batch(es[i + 1..]).notified,
                                                 responses' + Batch(es[i + 1..]).responses)
    {
      ghost var rest := es[i..];
      assert rest[0] == es[i] && rest[1..] == es[i + 1..];
      BatchUnfold(rest);
      var r := HandleBatchElement(es[i]);
      match r
      case RequestError(e) =>
        BatchStopped(es, notified, responses, Batch(rest));
        return true, notified, responses + [WrapException(e)];
      case NotifyError(_) =>
        BatchStopped(es, notified, responses, Batch(rest));
        assert responses + [] == responses;
        return true, notified, responses;
      case Handled(n, d) =>
        Regroup(notified, n, Batch(es[i + 1..]).notified);
        Regroup(responses, d, Batch(es[i + 1..]).responses);
        return false, notified + n, responses + d;
    }

    /**
     * `handleBatchRequests`: the elements in order until the first failure; `done` then
     * receives the responses collected, once.
     */
    method HandleBatchRequests(requests: Value) returns (h: Handled)
      requires requests.Array?
      ensures h == BatchOutcome(requests.elems)
    {
      var es := requests.elems;
      if |es| == 0 {
        return RequestError(NoIdError(RpcInvalidRequest, BatchEmpty));
      }
      var notified: seq<Value> := [];
      var responses: seq<Value> := [];
      var i := 0;
      while i < |es|
        invariant i <= |es|
        invariant Batch(es) == BatchResult(notified + Batch(es[i..]).notified, responses + Batch(es[i..]).responses)
      {
        var stop;
        stop, notified, responses := BatchTurn(es, i, notified, responses);
        if stop {
          return Handled(notified, [Array(responses)]);
        }
        i := i + 1;
      }
      BatchEnd(es, notified, responses);
      h := Handled(notified, [Array(responses)]);
    }

    /**
     * `handleRequest` as a whole: a parse failure is PARSE_ERROR; an object is a
     * notification or a request according to its id; an array is a batch; anything else
     * is INVALID_REQUEST. Errors raised before an id is known carry none.
     */
    function HandleRequestSpec(json: string): (h: Handled)
      reads this, services.Values
      ensures ParseText(json).Failed? ==>
                h == RequestError(NoIdError(RpcParseError, ParseFailed(ParseText(json).err)))
      ensures ParseText(json).Parsed? && !ParseText(json).value.Object? && !ParseText(json).value.Array? ==>
                h == RequestError(NoIdError(RpcInvalidRequest, NotObjectOrArray))
      ensures h.Handled? ==> |h.done| <= 1
    {
      match ParseText(json)
      case Failed(err) => RequestError(NoIdError(RpcParseError, ParseFailed(err)))
      case Parsed(v, _) =>
        match v
        case Object(_) => if IsNotify(v) then HandleSingleNotify(v) else HandleSingleRequest(v)
        case Array(es) => BatchOutcome(es)
        case _ => RequestError(NoIdError(RpcInvalidRequest, NotObjectOrArray))
    }

    method HandleRequest(json: string) returns (h: Handled)
      ensures h == HandleRequestSpec(json)
    {
      var parsed := ParseText(json);
      if parsed.Failed? {
        return RequestError(NoIdError(RpcParseError, ParseFailed(parsed.err)));
      }
      var request := parsed.value;
      match request
      case Object(_) =>
        if IsNotify(request) {
          h := HandleSingleNotify(request);
        } else {
          h := HandleSingleRequest(request);
        }
      case Array(_) =>
        h := HandleBatchRequests(request);
      case _ =>
        h := RequestError(NoIdError(RpcInvalidRequest, NotObjectOrArray));
    }
  }
}
