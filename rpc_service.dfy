/**
 * A service (jrpc::RpcService): two independent registries mapping method names to the
 * procedures that answer and to the notification procedures.
 */
module RpcService {
  import opened JsonValue
  import opened RpcErrors
  import opened Procedure

  class RpcService {
    var procedureReturn: map<string, ProcedureReturn>
    var procedureNotify: map<string, ProcedureNotify>

    constructor ()
      ensures procedureReturn == map[] && procedureNotify == map[]
    {
      procedureReturn := map[];
      procedureNotify := map[];
    }

    /** Registers an answering procedure under a name not yet taken in that registry. */
    method AddProcedureReturn(methodName: string, p: ProcedureReturn)
      requires methodName !in procedureReturn
      modifies this
      ensures procedureReturn == old(procedureReturn)[methodName := p]
      ensures procedureNotify == old(procedureNotify)
    {
      procedureReturn := procedureReturn[methodName := p];
    }

    /** Registers a notification procedure under a name not yet taken in that registry. */
    method AddProcedureNotify(methodName: string, p: ProcedureNotify)
      requires methodName !in procedureNotify
      modifies this
      ensures procedureNotify == old(procedureNotify)[methodName := p]
      ensures procedureReturn == old(procedureReturn)
    {
      procedureNotify := procedureNotify[methodName := p];
    }

    /**
     * `callProcedureReturn`: an unknown name gives METHOD_NOT_FOUND with the request's id;
     * a known one invokes that procedure on the same request. Only the answering
     * registry is searched.
     */
    function CallReturn(methodName: string, request: Value): (h: Handled)
      reads this
      ensures methodName !in procedureReturn ==>
                h == RequestError(RequestException(RpcMethodNotFound, Get(request, "id"), MethodNotFound))
      ensures methodName in procedureReturn ==> h == InvokeReturn(procedureReturn[methodName], request)
      ensures !h.NotifyError?
    {
      if methodName !in procedureReturn then
        RequestError(RequestException(RpcMethodNotFound, Get(request, "id"), MethodNotFound))
      else InvokeReturn(procedureReturn[methodName], request)
    }

    /**
     * `callProcedureNotify`: an unknown name gives a NotifyException METHOD_NOT_FOUND; a
     * known one invokes that notification procedure. Only the notification registry is
     * searched.
     */
    function CallNotify(methodName: string, request: Value): (h: Handled)
      reads this
      ensures methodName !in procedureNotify ==> h == NotifyError(NotifyException(RpcMethodNotFound, MethodNotFound))
      ensures methodName in procedureNotify ==> h == InvokeNotify(procedureNotify[methodName], request)
      ensures !h.RequestError?
    {
      if methodName !in procedureNotify then NotifyError(NotifyException(RpcMethodNotFound, MethodNotFound))
      else InvokeNotify(procedureNotify[methodName], request)
    }
  }

  /**
   * The registries are independent: the same name may be registered in both, and adding
   * to one leaves what the other answers unchanged.
   */
  method RegistriesIndependent(p: ProcedureReturn, q: ProcedureNotify, methodName: string, request: Value)
    returns (s: RpcService)
    ensures fresh(s)
    ensures s.CallReturn(methodName, request) == InvokeReturn(p, request)
    ensures s.CallNotify(methodName, request) == InvokeNotify(q, request)
  {
    s := new RpcService();
    s.AddProcedureReturn(methodName, p);
    s.AddProcedureNotify(methodName, q);
  }
}
