/**
 * The interceptor behind a transparent interface proxy
 * (DTools/Suice/suice/DynamicProxy/ProxyInterceptor.cs): a rebindable target slot.
 */
module Proxies {
  import opened Wrappers
  import opened Values

  /** A call made on a proxy: the object it is aimed at, and whether it has proceeded. */
  datatype Invocation = Invocation(target: Value, callee: nat, args: seq<Value>, proceeded: bool)

  datatype ProxyError = ProxyNotInitialized

  class ProxyInterceptor {
    var target: Value

    /** A fresh interceptor has no target. */
    constructor ()
      ensures target == Null
    {
      target := Null;
    }

    /** `Initialize(target)`: overwrites the target, whatever it was. */
    method Initialize(newTarget: Value)
      modifies this
      ensures target == newTarget
    {
      target := newTarget;
    }

    /** `Intercept(invocation)`: with a target, retarget the call to it and proceed;
        without one, fail and leave the call where it was. */
    method Intercept(invocation: Invocation) returns (r: Result<Invocation, ProxyError>)
      ensures target != Null <==> r.Success?
      ensures r.Success? ==> r.value == invocation.(target := target, proceeded := true)
      ensures r.Failure? ==> r.error == ProxyNotInitialized
    {
      if target != Null {
        var redirected := invocation.(target := target);
        r := Success(redirected.(proceeded := true));
      } else {
        r := Failure(ProxyNotInitialized);
      }
    }
  }
}
