/**
 * Scope enumeration and the `Singleton` marker attribute.
 *
 * The marker's constructor rejects NO_SCOPE, so a constructed marker always
 * carries a singleton-like scope; the subset type `SingletonScope` records
 * that invariant in the type of the marker's field.
 */
module Markers {
  import opened Wrappers

  /** Lifetime policy of a binding: a new instance per request, one cached instance,
      or one cached instance built at start-up. */
  datatype Scope = NoScope | Singleton | EagerSingleton

  type SingletonScope = s: Scope | s != NoScope witness Singleton

  /** The `[Singleton]` attribute as a value. */
  datatype SingletonMarker = SingletonMarker(scope: SingletonScope)

  datatype MarkerError = InvalidSingletonScope

  /** `new Singleton(scope)`, whose scope parameter defaults to SINGLETON. */
  function NewSingleton(scope: Scope := Singleton): (r: Result<SingletonMarker, MarkerError>)
    ensures r.Failure? <==> scope == NoScope
    ensures r.Failure? ==> r.error == InvalidSingletonScope
    ensures r.Success? ==> r.value.scope == scope
  {
    if scope == NoScope then Failure(InvalidSingletonScope) else Success(SingletonMarker(scope))
  }

  /** Calling the marker constructor without an argument yields a SINGLETON marker. */
  lemma DefaultSingletonScope()
    ensures NewSingleton() == Success(SingletonMarker(Singleton))
  {
  }
}
