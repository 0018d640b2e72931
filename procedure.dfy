/**
 * A registered procedure (jrpc::Procedure<Func>): the user callback and the ordered list
 * of declared parameters it accepts, with the checks a request's `params` must pass
 * before the callback runs.
 */
module Procedure {
  import opened Wrappers
  import opened JsonValue
  import opened RpcErrors

  /**
   * The callback of a procedure that answers: given the request, the response it hands
   * to `done`. The model takes it to call `done` exactly once, before it returns.
   */
  type ReturnCallback = Value -> Value

  /** The callback of a notification procedure; it answers nothing. */
  type NotifyCallback = Value -> ()

  /** One declared parameter: its name and the json type its argument must have. */
  datatype Param = Param(paramName: string, paramType: ValueType)

  /** One argument after the callback in the constructor call: a name or a type. */
  datatype Arg = NameArg(name: string) | TypeArg(t: ValueType)

  /**
   * What the compiler enforces on the constructor's arguments: an even count, names
   * and types alternating, each name first.
   */
  predicate WellPaired(args: seq<Arg>) {
    |args| % 2 == 0 &&
    forall i :: 0 <= i < |args| ==> (if i % 2 == 0 then args[i].NameArg? else args[i].TypeArg?)
  }

  /** The (name, type) pairs of a well-paired argument list, in argument order. */
  function Pairs(args: seq<Arg>): (ps: seq<Param>)
    requires WellPaired(args)
    ensures |ps| * 2 == |args|
    ensures forall i :: 0 <= i < |ps| ==> ps[i] == Param(args[2 * i].name, args[2 * i + 1].t)
    decreases |args|
  {
    if args == [] then []
    else
      assert WellPaired(args[2..]) by {
        forall i | 0 <= i < |args[2..]|
          ensures if i % 2 == 0 then args[2..][i].NameArg? else args[2..][i].TypeArg?
        {
          assert args[2..][i] == args[i + 2];
        }
      }
      var rest := Pairs(args[2..]);
      assert forall i :: 0 <= i < |rest| ==> rest[i] == Param(args[2 * i + 2].name, args[2 * i + 3].t);
      [Param(args[0].name, args[1].t)] + rest
  }

  /** Every argument of an array `params` has the type declared at its position. */
  function PositionalMatch(es: seq<Value>, params: seq<Param>, i: nat): (ok: bool)
    requires i <= |params| <= |es|
    ensures ok <==> forall k :: i <= k < |params| ==> TypeOf(es[k]) == params[k].paramType
    decreases |params| - i
  {
    if i == |params| then true
    else if TypeOf(es[i]) != params[i].paramType then false
    else PositionalMatch(es, params, i + 1)
  }

  /** The argument an object `params` gives for a declared name, with the declared type. */
  predicate NamedArgument(ms: seq<Member>, p: Param) {
    var v := FindIn(ms, p.paramName);
    v.Some? && TypeOf(v.value) == p.paramType
  }

  /** Every declared parameter from `i` on is present in an object `params` with its type. */
  function NamedMatch(ms: seq<Member>, params: seq<Param>, i: nat): (ok: bool)
    requires i <= |params|
    ensures ok <==> forall k :: i <= k < |params| ==> NamedArgument(ms, params[k])
    decreases |params| - i
  {
    if i == |params| then true
    else if !NamedArgument(ms, params[i]) then false
    else NamedMatch(ms, params, i + 1)
  }

  class Procedure<Func> {
    const callback: Func
    /** `params_`: the declared parameters, in declaration order. */
    const params: seq<Param>

    /**
     * The constructor stores the callback and appends one parameter per (name, type)
     * pair, in argument order, as `initProcedure` does.
     */
    constructor (callback: Func, nameAndTypes: seq<Arg>)
      requires WellPaired(nameAndTypes)
      ensures this.callback == callback
      ensures params == Pairs(nameAndTypes)
      ensures nameAndTypes == [] ==> params == []
    {
      var ps: seq<Param> := [];
      var i := 0;
      while i < |nameAndTypes|
        invariant i <= |nameAndTypes| && i % 2 == 0
        invariant |ps| * 2 == i
        invariant forall k :: 0 <= k < |ps| ==> ps[k] == Param(nameAndTypes[2 * k].name, nameAndTypes[2 * k + 1].t)
      {
        ps := ps + [Param(nameAndTypes[i].name, nameAndTypes[i + 1].t)];
        i := i + 2;
      }
      this.callback := callback;
      params := ps;
    }

    /**
     * `validateGeneric`: whether the request's `params` member fits the declared list.
     * Array params are matched by position, object params by name.
     */
    function ValidateGeneric(request: Value): (ok: bool)
      ensures FindMember(request, "params").None? ==> (ok <==> params == [])
      ensures FindMember(request, "params").Some? ==>
                var ps := FindMember(request, "params").value;
                (Size(ps) == 0 || Size(ps) != |params| ==> !ok) &&
                (!ps.Array? && !ps.Object? ==> !ok) &&
                (ps.Array? ==> (ok <==> |ps.elems| == |params| > 0 &&
                                        forall k :: 0 <= k < |params| ==> TypeOf(ps.elems[k]) == params[k].paramType)) &&
                (ps.Object? ==> (ok <==> |ps.members| == |params| > 0 &&
                                         forall k :: 0 <= k < |params| ==> NamedArgument(ps.members, params[k])))
    {
      match FindMember(request, "params")
      case None => params == []
      case Some(ps) =>
        if Size(ps) == 0 || Size(ps) != |params| then false
        else
          match ps
          case Array(es) => PositionalMatch(es, params, 0)
          case Object(ms) => NamedMatch(ms, params, 0)
          case _ => false
    }
  }

  type ProcedureReturn = Procedure<ReturnCallback>
  type ProcedureNotify = Procedure<NotifyCallback>

  /**
   * `validateRequest` of a procedure that answers. It switches on the type of the request
   * itself: an object or array whose params do not fit gives INVALID_PARAMS, any other
   * request INVALID_REQUEST, both carrying the request's id.
   */
  function ValidateReturn(p: ProcedureReturn, request: Value): (r: Option<RequestException>)
    ensures r.None? <==> (request.Object? || request.Array?) && p.ValidateGeneric(request)
    ensures r.Some? ==> r.value.id == Get(request, "id")
    ensures r.Some? ==> r.value.err == (if request.Object? || request.Array? then RpcInvalidParams else RpcInvalidRequest)
  {
    if request.Object? || request.Array? then
      if !p.ValidateGeneric(request) then
        Some(RequestException(RpcInvalidParams, Get(request, "id"), ParamsMismatch))
      else None
    else Some(RequestException(RpcInvalidRequest, Get(request, "id"), ParamsNotContainer))
  }

  /** `validateRequest` of a notification procedure: the same checks, without an id. */
  function ValidateNotify(p: ProcedureNotify, request: Value): (r: Option<NotifyException>)
    ensures r.None? <==> (request.Object? || request.Array?) && p.ValidateGeneric(request)
    ensures r.Some? ==> r.value.err == (if request.Object? || request.Array? then RpcInvalidParams else RpcInvalidRequest)
  {
    if request.Object? || request.Array? then
      if !p.ValidateGeneric(request) then Some(NotifyException(RpcInvalidParams, ParamsMismatch))
      else None
    else Some(NotifyException(RpcInvalidRequest, ParamsNotContainer))
  }

  /**
   * `invoke` with `done`: the callback runs only once validation has passed, on the
   * request as received, and its response goes to `done`.
   */
  function InvokeReturn(p: ProcedureReturn, request: Value): (h: Handled)
    ensures h.Handled? <==> ValidateReturn(p, request).None?
    ensures h.Handled? ==> h.notified == [] && h.done == [p.callback(request)]
    ensures h.RequestError? ==> h.e == ValidateReturn(p, request).value
    ensures !h.NotifyError?
  {
    match ValidateReturn(p, request)
    case Some(e) => RequestError(e)
    case None => Handled([], [p.callback(request)])
  }

  /** `invoke` of a notification: the callback runs on the request once validation passed. */
  function InvokeNotify(p: ProcedureNotify, request: Value): (h: Handled)
    ensures h.Handled? <==> ValidateNotify(p, request).None?
    ensures h.Handled? ==> h.notified == [request] && h.done == []
    ensures h.NotifyError? ==> h.ne == ValidateNotify(p, request).value
    ensures !h.RequestError?
  {
    match ValidateNotify(p, request)
    case Some(e) => NotifyError(e)
    case None => Handled([request], [])
  }

  /**
   * A procedure declaring no parameters accepts a request without `params` and rejects
   * every request that has them, even an empty array or object.
   */
  lemma NoParamsProcedure(p: ProcedureReturn, request: Value)
    requires p.params == [] && request.Object?
    ensures ValidateReturn(p, request).None? <==> !HasMember(request, "params")
  {
  }
}
