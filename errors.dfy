/**
 * The exceptions the three engine revisions raise, as values.
 */
module Errors {
  import opened Catalogue
  import opened Markers

  datatype Error =
    | DuplicateBinding(bindedType: TypeId, providedType: TypeId, existing: TypeId)
        // a second provider for an already bound type; `existing` is the bound provider's implementation type
    | BoundTwice(bindedType: TypeId, providedType: TypeId)   // cmn: the same, naming the new provider only
    | InvalidDependency(t: TypeId)                // no provider for the requested type
    | InvalidDependencyConstructor(t: TypeId)     // no usable constructor
    | InjectToSelf(t: TypeId)                     // a parameter or field of the type being built has that type
    | CircularDependency(path: string)            // DTools: the lock chain that was re-entered
    | CircularConstructorDependency(t: TypeId)    // cmn: re-entry of a locked type
    | ProxyAlreadyIssued(t: TypeId)               // Suice: `proxies.Add` of a second proxy for a type
    | InvalidImplementedBy(iface: TypeId, impl: TypeId)
    | InvalidProvidedBy(t: TypeId)
    | ProviderProxySetTwice                       // cmn ProviderProxy
    | UnhandledBindingScope(t: TypeId, scope: Scope)
    | UnhandledProvidesScope(providerMethod: MethodId, scope: Scope)
    | MissingGenericArgument(t: TypeId)           // `GetGenericArguments()[0]` on a type without one
    | InvalidCast(t: TypeId)                      // the `(AbstractProvider)` cast of a ProviderProxy's delegate
    | NullReference                               // a member access on null
    | OutOfFuel                                   // field injection deeper than the fuel bound
}
