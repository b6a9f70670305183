# Suice dependency-injection container, modelled in Dafny

Suice is a port of Guice to C#. An `Injector` keeps one provider per type in a
registry. It fills the registry from module bindings, from a module's
`[Provides]` methods, and by "just-in-time" discovery of types marked
`[ImplementedBy]`, `[Singleton]` or `[ProvidedBy]`. It answers a request for a
type by resolving the provider's constructor (or method) parameters
recursively, left to right. A lock list of the types under construction guards
against re-entry. Once a provider has answered, its object is wired: fields
marked `[Inject]` are filled, `Initialize()` is called on initialisable
objects, and the `OnInitializeDependency` observer is told. Wiring happens once
per provider, or on every request for the no-scope variants.

The repository holds three revisions of this engine. The model covers all
three, grouped by the provider API each is written against:

- `Suice/` (module `SuiceInjector`, over module `Providers`) breaks a
  constructor cycle. It hands out a proxy for the locked type, records its
  interceptor, and points the proxy at the real object once that object is
  built. Its providers fill a `Dependencies` array of fixed size slot by slot.
  An `IProvider<T>` request with no provider gets a factory (`DynamicProvider`)
  registered on the fly.
- `DTools/Suice/suice/Injector.cs` and `cmn-tools/suice/suice/Injector.cs`
  (module `LegacyInjector`, over module `LegacyProviders`) reject a cycle with
  an error. cmn-tools is the oldest. They share one model, in which the constant
  `revision` selects the branches where the two differ:
  - the cycle diagnostic (the lock path, or the type alone);
  - the duplicate-binding error;
  - an unhandled scope (skipped, or refused);
  - a preset singleton instance marking its provider initialised;
  - a provider proxy given a second provider (ignored, or refused);
  - the attribute lookup used by `[ProvidedBy]` discovery.

  A provider's dependencies are resolved into a new array that replaces the old
  one as a whole. A `[ProvidedBy]` type is served through a `ProviderProxy` that
  forwards to a user provider object.

`DTools/Suice/suice/` mixes the two provider APIs. Its `SingletonProvider`,
`NoScopeProvider`, `DynamicProvider` and `SingletonMethodProvider` use the
`Provider(providedType, implementedType, dependencyTypes)` base of
`Suice/Provider.cs`, so they are modelled in `Providers`. Its `Injector` and
`ProviderProxy` use `AbstractProvider`, so they are modelled in
`LegacyProviders` and `LegacyInjector`. The DTools injector calls provider
constructors (`new SingletonProvider(type)`, `new MethodProvider(module,
method)`) that only the cmn-tools provider files define. The legacy model
therefore follows the injector's call sites and the cmn-tools provider bodies,
with one exception. The cmn-tools `NoScopeProvider` and `SingletonProvider`
files are a one-argument revision: their providers have no separate
implementation type and construct `ProvidedType`
(cmn-tools/suice/suice/NoScopeProvider.cs:20, SingletonProvider.cs:22). The
injectors call two-argument constructors and resolve the constructor of
`ImplementedType` (DTools/Suice/suice/Injector.cs:238,
cmn-tools/suice/suice/Injector.cs:230-231), as the two-argument
`AbstractProvider` base of DTools/Suice/suice/AbstractProvider.cs:20-24
stores it. So a legacy singleton or no-scope provider constructs its
implementation type, the type whose constructor parameters were resolved.

How reflection and the runtime are represented:

- Reflection is a fixed type catalogue (`Catalogue`). For each type it gives:
  - its attributes;
  - its base type and interfaces;
  - its generic definition and arguments;
  - its public constructors and parameterless constructor;
  - its non-public fields and its methods.
- Objects live on a value heap (`Runtime.Heap`). Construction, method
  invocation and proxy creation allocate a fresh object id, together with a
  record of how the object was made.
- Field writes go to a store. User-code hooks are appended to an event log.
- Calls into user code that return an object are a `[Provides]` method
  (`MethodInfo.Invoke`) and a user provider object's `Provide()`. Such a call
  may answer with a new object, with `null`, or with an object that already
  exists. The heap carries a script of answers (`Runtime.Answer`), one per
  call in order, and a call counter. The injector's constructor takes that
  script as a parameter. Past the end of the script, a call returns a new
  object.
- The engine state is what the source mutates: the registry `providersMap`,
  the lock list `lockList`, the proxy table `proxies` (Suice only) and the
  heap.
- Ghost sets record what has been handed out and which providers have been
  wired. They only grow; `Valid()` ties them to the state.

Termination: constructor recursion ends because each descent locks a type
that was not locked before. Field injection runs outside the lock, so a cycle
of no-scope types through `[Inject]` fields would recurse for ever in the
source. The model gives every request a `fuel` bound, spent only at field
injection, and returns `OutOfFuel` when it runs out.

A failure that throws in the source is a `Failure`/`Fail` value of
`Errors.Error` in the model. The source restores the lock list only on a
normal return (there is no `finally`). The model keeps that: after a failed
`PrepareInstantation` the type stays locked.

## Model

| member | source | states |
|---|---|---|
| Markers.NewSingleton | DTools/Suice/suice/Singleton.cs:17-24 | the `[Singleton]` marker rejects NO_SCOPE with InvalidSingletonScope and otherwise stores the scope unchanged, so a constructed marker's scope is never NO_SCOPE |
| Markers.DefaultSingletonScope | DTools/Suice/suice/Singleton.cs:17 | a marker built without an argument has scope SINGLETON |
| Bindings.Binding.constructor | Suice/Binding.cs:22-27 | a new binding binds T, has no bound type, scope NO_SCOPE and a null instance (cmn-tools/suice/suice/Binding.cs:20-24 is the same) |
| Bindings.Binding.To | Suice/Binding.cs:29-34 | sets only the bound type and returns the same binding; scope and instance are unchanged |
| Bindings.Binding.ToInstance | Suice/Binding.cs:36-42 | stores the instance and sets the bound type to its runtime type and the scope to SINGLETON; a null instance fails where `GetType()` would throw, after the instance is stored |
| Bindings.Binding.In | Suice/Binding.cs:44-48 | changes only the scope and returns the same binding |
| Bindings.Binding.View | Suice/Binding.cs:14-20 | the `IBinding` the engine reads carries exactly the binding's four properties |
| Constructors.GetConstructor | Suice/Injector.cs:146-172 | the chosen constructor is the parameterless one when no public constructor exists, or the single public one when it has no parameters or `[Inject]`; every other case, and only those, fails with InvalidDependencyConstructor |
| Constructors.GetDependencyTypes | Suice/Injector.cs:141-144 | succeeds exactly when a constructor is chosen and then yields its parameter types in order |
| Constructors.AmbiguousConstructorsRejected | Suice/Injector.cs:151-163 | two or more public constructors are always rejected |
| Reflection.FirstOfKind | Suice/ReflectionUtil.cs:22 | `OfType<T>().FirstOrDefault()`: none iff no attribute of the kind is present, otherwise the first one in order |
| Reflection.FirstOfKindAppend | Suice/ReflectionUtil.cs:22 | the first attribute of a kind in a concatenation comes from the first part when that part has one |
| Reflection.GetTypeAttribute | Suice/ReflectionUtil.cs:20-34 | the result has the requested kind; with inherit false it is the first such attribute on the type itself and interfaces are never consulted |
| Reflection.FirstInterfaceWith | Suice/ReflectionUtil.cs:25-26 | the interface found is one of the type's interfaces that has the attribute (searched recursively); none means no interface has it |
| Reflection.GetTypeAttributeIsFirstInSearchOrder | Suice/ReflectionUtil.cs:20-34 | with inherit true the result is the first attribute of the kind in the order: own attributes, then each interface in `GetInterfaces()` order, depth first; null iff none exists anywhere in that order |
| Reflection.FirstInterfaceIsFirstInSearchOrder | Suice/ReflectionUtil.cs:24-31 | the attribute taken from the first interface that has one is the first of the kind in the interfaces' combined search order |
| Reflection.BaseChain | Suice/ReflectionUtil.cs:60-63 | the chain starts at the type itself and stays inside the catalogue |
| Reflection.IsAssignableIffSomeAncestor | Suice/ReflectionUtil.cs:47-64 | `IsAssignableToGenericType` holds iff some type on the base-type chain is, or has an interface that is, a constructed form of the generic definition |
| Reflection.IsSubclassOfIffProperAncestor | DTools/Suice/suice/Injector.cs:303 | `IsSubclassOf` holds iff the class is a proper ancestor on the base-type chain |
| Reflection.MethodsWithAttribute | Suice/ReflectionUtil.cs:15-18 | keeps exactly the methods carrying the attribute, and never more than there were |
| Reflection.MethodsWithAttributeAppend | Suice/ReflectionUtil.cs:17 | the filter distributes over concatenation, so method order is kept |
| Reflection.GetMethodsWithAttribute | Suice/ReflectionUtil.cs:15-18 | a type's methods with the attribute, and nothing else |
| Proxies.ProxyInterceptor.constructor | DTools/Suice/suice/DynamicProxy/ProxyInterceptor.cs:15 | the proxy target starts out null |
| Proxies.ProxyInterceptor.Initialize | DTools/Suice/suice/DynamicProxy/ProxyInterceptor.cs:17-20 | overwrites the target unconditionally |
| Proxies.ProxyInterceptor.Intercept | DTools/Suice/suice/DynamicProxy/ProxyInterceptor.cs:22-30 | with a target, the invocation is retargeted to it and proceeds; without one it fails with ProxyNotInitialized and does not proceed |
| Runtime.HookEvents | Suice/Injector.cs:273-284 | the hooks called on a wired object: `Initialize()` iff it is initialisable, and the observer iff one is subscribed, `Initialize()` first when both are called |
| Runtime.Heap.NewType | Suice/MethodProvider.cs:23-26 | the runtime type of an object user code makes: the type the script names exactly when it can be cast to the declared type, else the declared type |
| Runtime.Heap.Call | Suice/MethodProvider.cs:23-26 | a call into user code answers null, an object that exists, or a new object, as the script says; a new object has the scripted runtime type when that type can be cast to the declared one (a subclass or an implementation), else the declared type, and keeps the declared origin; only a new object is added to the object store, nothing else on the heap changes, and the call is counted |
| Runtime.AssignLookup | Suice/Injector.cs:264-271 | after the field writes, each injected field holds its resolved value |
| Runtime.AssignFrame | Suice/Injector.cs:268-270 | field writes to one object leave every other slot of the field store as it was |
| Lists.RemoveFirst | Suice/Injector.cs:254 | `List.Remove`: when the item is present, the list with exactly its first occurrence cut out, the rest in order; the list unchanged when it is absent |
| Lists.RemoveFirstOfAppended | Suice/Injector.cs:250-254 | locking a type that was not locked and then unlocking it restores the lock list exactly |
| Providers.EmptySlots | Suice/Provider.cs:25 | `Dependencies` is allocated with exactly one null slot per dependency type |
| Providers.Provider.Built | DTools/Suice/suice/NoScopeProvider.cs:20 | what `Provide` builds: the implementation type from `Dependencies`, or the `[Provides]` method's result for method-backed providers, whose declared return type `Heap.Call` may narrow to a castable runtime type |
| Providers.NoScope | DTools/Suice/suice/NoScopeProvider.cs:15-16 | the base constructor stores provided type, implementation type and dependency types; every slot is empty and `IsInitialized` false (Suice/Provider.cs:18-26) |
| Providers.NoScopeSelf | DTools/Suice/suice/NoScopeProvider.cs:12-13 | the two-argument constructor uses the provided type as implementation type |
| Providers.Singleton | DTools/Suice/suice/SingletonProvider.cs:18-23 | stores the scope in the provider, takes the preset default instance as `Instance`, and leaves every slot empty and the flag down |
| Providers.SingletonSelf | DTools/Suice/suice/SingletonProvider.cs:15-16 | the three-argument constructor uses the provided type as implementation type |
| Providers.Dynamic | DTools/Suice/suice/DynamicProvider.cs:13-14 | the factory provider is the no-scope provider built from the same three arguments |
| Providers.Method | Suice/MethodProvider.cs:16-21 | a `[Provides]` method's provider provides the method's return type from its parameter types |
| Providers.SingletonMethod | DTools/Suice/suice/SingletonMethodProvider.cs:15-20 | the cached method provider provides the method's return type and starts with no instance |
| Providers.Provide | DTools/Suice/suice/SingletonProvider.cs:25-28 | a singleton returns `Instance` unchanged when set, else builds, stores and returns a fresh object; a no-scope provider builds a fresh object and changes no field (NoScopeProvider.cs:18-21); a method provider answers whatever its method returns, null or an existing object included (Suice/MethodProvider.cs:23-26), and a singleton method provider with no instance caches that answer (SingletonMethodProvider.cs:27-30); field store, proxy targets and events are untouched; the untyped `Provide` of a DynamicProvider returns the factory itself (DynamicProvider.cs:27-30) |
| Providers.SingletonProvideIsCached | DTools/Suice/suice/SingletonMethodProvider.cs:27-30 | once a singleton or singleton-method provider has answered with an object, a second `Provide` returns that same answer and calls nothing; the first answer is null exactly when a singleton method provider with no instance has its method return null |
| Providers.SingletonMethodNullIsRetried | DTools/Suice/suice/SingletonMethodProvider.cs:27-30 | `Instance ?? (Instance = …)`: a method returning null leaves `Instance` null, so the next `Provide` invokes the method again |
| Providers.NoScopeProvideIsFresh | DTools/Suice/suice/NoScopeProvider.cs:18-21 | two `Provide` calls leave the provider unchanged; a no-scope provider returns two distinct fresh objects, and a method provider invokes its method once per call and answers what it returned (Suice/MethodProvider.cs:23-26) |
| Providers.ProvideTyped | DTools/Suice/suice/DynamicProvider.cs:16-25 | the typed `Provide` builds a fresh instance through the no-scope construction; it calls `Initialize()` once exactly when the instance is initialisable, and fails with InvalidCast when the built type is not a T |
| Providers.ProvideTypedTimes | Suice.Tests/DynamicProviderTest.cs:77-81 | n typed `Provide` calls allocate n new objects, one per call, in order |
| Providers.ProvideTypedYieldsDistinctInstances | Suice.Tests/DynamicProviderTest.cs:24-27 | the n instances are pairwise distinct, all new, and all built from the provider's dependencies, so none has a null dependency when the provider has none |
| LegacyProviders.Blank | DTools/Suice/suice/AbstractProvider.cs:20-24 | a new provider stores its provided and implementation types and has no dependencies, flag down, no instance and no delegate |
| LegacyProviders.NoScope | cmn-tools/suice/suice/NoScopeProvider.cs:12-16 | a blank no-scope provider |
| LegacyProviders.Singleton | cmn-tools/suice/suice/SingletonProvider.cs:12-16 | a blank singleton provider with a null `Instance` |
| LegacyProviders.Method | cmn-tools/suice/suice/MethodProvider.cs:12-16 | a blank method provider for the method's return type |
| LegacyProviders.SingletonMethod | cmn-tools/suice/suice/SingletonMethodProvider.cs:16-21 | a blank singleton method provider for the method's return type |
| LegacyProviders.Proxy | DTools/Suice/suice/ProviderProxy.cs:16-20 | provided and implementation type are both the `providedType` argument, and the provider type is stored in the proxy |
| LegacyProviders.MethodConstructorIsStored | cmn-tools/suice/suice/SingletonMethodProvider.cs:16-31 | `GetMethodConstructor` returns the stored method, and the provided type is its return type |
| LegacyProviders.SetProviderInstance | cmn-tools/suice/suice/ProviderProxy.cs:18-25 | the first call stores the provider and sets `IsInitialized`; a later call fails with ProviderProxySetTwice in cmn-tools and leaves the proxy as it is in DTools (DTools/Suice/suice/ProviderProxy.cs:23-29) |
| LegacyProviders.SetProviderInstanceIsSetOnce | DTools/Suice/suice/ProviderProxy.cs:23-29 | after a first call, a second with another provider is ignored (DTools) or refused (cmn-tools); the first provider stays |
| LegacyProviders.SetInstance | cmn-tools/suice/suice/SingletonProvider.cs:26-38 | when `Instance` is a forwarding proxy, the value goes into the proxy and `Instance` keeps pointing at it; otherwise `Instance` is replaced |
| LegacyProviders.Built | DTools/Suice/suice/Injector.cs:236-238 | what the legacy providers build: the implementation type, whose constructor the engine resolved, from the dependencies; or, for a method-backed provider, the method's declared return type from its invocation, which `Heap.Call` may narrow to a castable runtime type; `Delegated` likewise for a provider proxy's delegate |
| LegacyProviders.CreateSingletonInstance | cmn-tools/suice/suice/SingletonProvider.cs:18-24 | constructs the implementation type only when `Instance` is null and sets it as the instance; otherwise, and for a SingletonMethodProvider always (SingletonMethodProvider.cs:33-36), provider and heap are unchanged |
| LegacyProviders.Provide | cmn-tools/suice/suice/SingletonProvider.cs:40-43 | a set `Instance` is returned as is; a null one gets a new forwarding proxy, which is installed and returned; a singleton method provider with no instance caches what its method returns (SingletonMethodProvider.cs:23-26); a method provider answers what its method returns, null included (MethodProvider.cs:18-20); a no-scope provider builds fresh; a provider proxy answers what its delegate returns and fails with NullReference when it has none |
| LegacyProviders.SingletonProvideIsCached | cmn-tools/suice/suice/SingletonMethodProvider.cs:23-26 | after a `Provide`, `Instance` holds the answer; once that is an object a second call returns the same reference and calls nothing, and it is null exactly when a SingletonMethodProvider's method returned null; `CreateSingletonInstance` then does nothing |
| LegacyProviders.SingletonMethodNullIsRetried | cmn-tools/suice/suice/SingletonMethodProvider.cs:23-26 | a method returning null leaves `Instance` null, so the next `Provide` invokes the method again |
| LegacyProviders.CreatedSingletonIsProvided | cmn-tools/suice/suice/SingletonProvider.cs:18-43 | once `CreateSingletonInstance` has constructed the implementation type, `Provide` returns that object |
| LegacyProviders.SetInstanceForwardsThroughProxy | cmn-tools/suice/suice/SingletonProvider.cs:26-42 | setting an instance after `Provide` handed out a proxy retargets that proxy, and `Instance` stays the proxy |
| LegacyProviders.NoScopeProvideIsFresh | cmn-tools/suice/suice/NoScopeProvider.cs:18-21 | two requests leave the provider unchanged; a NoScopeProvider gives two distinct new objects, and a MethodProvider invokes its method once per request and answers what it returned (cmn-tools/suice/suice/MethodProvider.cs:18-20) |
| LegacyProviders.ProviderProxyDelegates | DTools/Suice/suice/ProviderProxy.cs:31-34 | each request calls the stored provider object once and is answered by what it returns; nothing is cached |
| SuiceInjector.InjectableFields | Suice/Injector.cs:108-109 | exactly the non-public instance fields marked `[Inject]` |
| SuiceInjector.Injector.constructor | Suice/Injector.cs:36-39 | a new injector has an empty registry, lock list and proxy table, and a heap of the preexisting objects whose user code answers as the given script |
| SuiceInjector.Injector.GetDependency | Suice/Injector.cs:174-189 | an unregistered type that is not an `IProvider<>` fails with InvalidDependency and registers nothing; a locked type gets a new proxy; an unlocked one an answer of its provider after wiring; a successful request leaves the lock list as it was |
| SuiceInjector.Injector.CreateProxy | Suice/Injector.cs:222-229 | a new proxy object whose interceptor, with a null target, is recorded under the type; a second proxy for the same type fails as `proxies.Add` does |
| SuiceInjector.Injector.DynamicImplementation | Suice/Injector.cs:193-198 | the factory builds a catalogued type: T itself when T declares no `[ImplementedBy]`, else the target of the first `[ImplementedBy]` T declares |
| SuiceInjector.Injector.CreateDynamicProvider | Suice/Injector.cs:191-206 | without a generic argument fails with MissingGenericArgument; on success registers, under the `IProvider<T>` type and nothing else, a DynamicProvider for T implemented by `DynamicImplementation` with its constructor's parameter types; a failure registers nothing |
| SuiceInjector.Injector.Provide | Suice/Injector.cs:214 | the registry entry and the heap become exactly what the provider's `Provide` yields |
| SuiceInjector.Injector.CreateDependency | Suice/Injector.cs:208-220 | on success the provider is marked initialised, its answer is recorded and the lock list is as it was; a provider that was not initialised is now wired, every dependency slot holding an answer for its type; an initialised singleton with a cached instance returns it and changes nothing |
| SuiceInjector.Injector.ProvideAndWire | Suice/Injector.cs:214-219 | wiring runs when the flag is down or the provider is a no-scope one, and fails with NullReference on a null answer; so a null success comes only from an initialised provider that is not no-scope; a cached singleton returns its instance and changes nothing; the dependencies are never changed here |
| SuiceInjector.Injector.ResolvedIsNonNull | Suice/Injector.cs:214-219 | every recorded answer is an object or a factory unless its type is served by a `[Provides]`-method provider, whose method may return null |
| SuiceInjector.Injector.WiredDependenciesAreNonNull | Suice/Injector.cs:257-262 | a wired provider whose dependency types are not served by `[Provides]`-method providers has no null dependency slot |
| SuiceInjector.Injector.WiredDynamicProvisionsHaveDependencies | Suice.Tests/DynamicProviderTest.cs:24-27 | asking the factory of a wired DynamicProvider n times gives n distinct instances, each constructed with the provider's dependencies, none of them null when no dependency type is served by a `[Provides]`-method provider |
| SuiceInjector.Injector.PrepareInstantation | Suice/Injector.cs:248-255 | the type is locked while its dependencies are resolved; a normal return leaves the lock list as it was and every slot filled, and a failure leaves the type locked |
| SuiceInjector.Injector.SetDependency | Suice/Injector.cs:260 | writes one slot in place; the array keeps its length and every other field of the provider is unchanged |
| SuiceInjector.Injector.InitializeDependencies | Suice/Injector.cs:257-262 | on success slot i holds an answer for dependency type i and the lock list is as it was; a failure leaves the slots from some index onward untouched |
| SuiceInjector.Injector.ResolveSlot | Suice/Injector.cs:259-261 | one step: slots before i stay resolved, slot i is resolved, the later slots are untouched |
| SuiceInjector.Injector.MarkInitialized | Suice/Injector.cs:233 | raises `IsInitialized`, and changes nothing else |
| SuiceInjector.Injector.InitializeAfterInstantiation | Suice/Injector.cs:231-246 | the provider is marked initialised; on success a proxy issued for the provided type targets the object and the hook events are the last ones recorded |
| SuiceInjector.Injector.BindProxyAndBroadcast | Suice/Injector.cs:237-243 | retargets the recorded proxy for the provided type, if any, then appends the hook events |
| SuiceInjector.Injector.BroadcastDependencyInitialization | Suice/Injector.cs:273-284 | appends exactly the hook events of the object and changes nothing else |
| SuiceInjector.Injector.InitializeDependencyFields | Suice/Injector.cs:264-271 | a null object fails as `GetType()` does; on success the lock list is as it was |
| SuiceInjector.Injector.SetFields | Suice/Injector.cs:268-270 | the field store after writing each resolved value into its field, in order |
| SuiceInjector.Injector.GetFieldDependencies | Suice/Injector.cs:106-123 | one answer per injectable field, in order, each for the field's type; a field of the type itself makes it fail |
| SuiceInjector.Injector.ResolveField | Suice/Injector.cs:112-120 | one step of the field loop: earlier answers are kept and the next field is resolved |
| SuiceInjector.Injector.RegisterProvider | Suice/Injector.cs:89-97 | registration fails iff the type is already bound, with DuplicateBinding naming the bound provider's implementation type; the existing provider stays in place |
| SuiceInjector.Injector.CreateProvider | Suice/Injector.cs:125-139 | a binding without a bound type fails with NullReference and a constructor failure is passed on; a bound type fails with DuplicateBinding; otherwise NO_SCOPE gives a NoScopeProvider and every other scope a SingletonProvider carrying the scope and preset instance, that is the binding's `BindingProviderOf`; a failure registers nothing |
| SuiceInjector.BindingProviderOf | Suice/Injector.cs:125-139 | the provider a binding yields: none iff it has no bound type or that type has no usable constructor; otherwise a blank provider of the bound type over its constructor's parameter types, no-scope for NO_SCOPE and a singleton with the scope and preset instance otherwise |
| SuiceInjector.Injector.RegisterBindings | Suice/Injector.cs:99-104 | on success the registry gains exactly the bound types, all new and pairwise distinct, and each binding's type holds that binding's provider |
| SuiceInjector.Injector.RegisterBinding | Suice/Injector.cs:101-103 | one step of the binding loop keeps the bound-types invariant |
| SuiceInjector.Injector.CreateProvidersFromMethods | Suice/Injector.cs:70-87 | on success each `[Provides]` method's return type is newly bound to its method provider, and nothing else is added |
| SuiceInjector.Injector.RegisterMethod | Suice/Injector.cs:72-86 | one step of the method loop keeps the invariant |
| SuiceInjector.Injector.RegisterModule | Suice/Injector.cs:63-68 | on success the registry gains exactly the bound types and the `[Provides]` return types; each binding's type holds its binding's provider and each return type its method's provider |
| SuiceInjector.Injector.AttemptRegisterBinding | Suice/Injector.cs:311-335 | without `[ImplementedBy]` nothing happens; an implementation that does not implement the interface fails with InvalidImplementedBy; a constructor failure is passed on; a bound interface fails with DuplicateBinding; otherwise the interface is bound to the ImplementedByProvider provider |
| SuiceInjector.Injector.AttemptRegisterSingleton | Suice/Injector.cs:297-309 | a type that is not `[Singleton]`, or has an `[ImplementedBy]` interface, yields false and registers nothing; otherwise a constructor failure is passed on, a bound type fails with DuplicateBinding, and an unbound one gets a SingletonProvider of the marker's scope |
| SuiceInjector.Injector.AttemptRegisterDependency | Suice/Injector.cs:292-295 | any success returns whether the type is discoverable, and true means exactly that type was added; a discoverable type that is already bound fails |
| SuiceInjector.Injector.RegisterDiscovered | Suice/Injector.cs:287-289 | one step of the discovery loop keeps the discovered-types invariant |
| SuiceInjector.Injector.RegisterJustInTimeDependencies | Suice/Injector.cs:286-290 | on success the registry gains exactly the discoverable types of the assembly |
| SuiceInjector.Injector.InstantiateEagerSingletons | Suice/Injector.cs:54-61 | on success every EAGER_SINGLETON provider present at the start, unless it is under construction, is initialised and holds its instance (a method-backed one whose method returned null holds none) |
| SuiceInjector.Injector.InstantiateEagerSingleton | Suice/Injector.cs:59 | one step adds the resolved singleton to those instantiated |
| SuiceInjector.Injector.InjectAssembly | Suice/Injector.cs:48-51 | after one assembly every discoverable type in it is registered, and every EAGER_SINGLETON provider registered before or discovered in it is initialised and holds its instance |
| SuiceInjector.Injector.InjectDependencies | Suice/Injector.cs:46-52 | after all assemblies every discoverable type of each is registered, the lock list is as it was, and, when there was at least one assembly, every EAGER_SINGLETON provider registered before or discovered is initialised and holds its instance |
| SuiceInjector.MethodProviderOfShape | Suice/Injector.cs:76-85 | a NO_SCOPE `[Provides]` method gets a MethodProvider, any other scope a SingletonMethodProvider with that scope, both over the method's parameter types |
| SuiceInjector.ImplementedByProvider | Suice/Injector.cs:318-329 | the provider for an `[ImplementedBy]` interface is a singleton of the marker's scope iff the implementation is `[Singleton]`, else no-scope |
| SuiceInjector.DistinctBoundTypes | Suice/Injector.cs:92 | bindings registered one by one without a duplicate error bind pairwise distinct types |
| LegacyInjector.DependencyTypes | DTools/Suice/suice/Injector.cs:228-240 | a method-backed provider resolves its method's parameters; any other provider succeeds exactly when its implementation has a usable constructor, and then resolves that constructor's parameters; a missing implementation fails with NullReference |
| LegacyInjector.CyclePathIsChain | DTools/Suice/suice/Injector.cs:196-198 | the cycle text is each locked type followed by "->", in lock order from the first locked type |
| LegacyInjector.Injector.constructor | DTools/Suice/suice/Injector.cs:28-32 | a new injector has an empty registry and lock list, and a heap of the preexisting objects whose user code answers as the given script |
| LegacyInjector.Injector.Provide | DTools/Suice/suice/AbstractProvider.cs:31-34 | the registry entry and heap become what the provider's `Provide` yields; a provider proxy without a delegate fails |
| LegacyInjector.Injector.GetDependency | DTools/Suice/suice/Injector.cs:167-190 | unregistered gives InvalidDependency; a locked type fails with CircularDependency carrying the lock path and the type's full name (DTools) or CircularConstructorDependency (cmn-tools/suice/suice/Injector.cs:182-185) and changes nothing; a success leaves the lock list as it was and the provider initialised; an initialised singleton returns its cached instance unchanged |
| LegacyInjector.Injector.GenerateCircularDependencyMapStr | DTools/Suice/suice/Injector.cs:192-202 | the string built in the loop is the cycle path of the lock list followed by the requested type's full name |
| LegacyInjector.Injector.CreateDependency | DTools/Suice/suice/Injector.cs:179-189 | on success the provider is initialised and its answer recorded; a cached initialised singleton answers with its instance and changes nothing |
| LegacyInjector.Injector.ProvideAndWire | DTools/Suice/suice/Injector.cs:183-189 | a provider proxy with no delegate fails; an initialised provider that is not no-scope is not re-wired (no field writes, no hooks); otherwise the hooks ran last, and a null answer fails with NullReference, so a null success comes only from an initialised provider |
| LegacyInjector.Injector.PrepareInstantation | DTools/Suice/suice/Injector.cs:213-226 | the type is locked while its dependencies are resolved and the singleton instance built; a normal return restores the lock list and leaves a SingletonProvider with an instance; a failure leaves the type locked |
| LegacyInjector.Injector.CreateSingletonInstance | DTools/Suice/suice/Injector.cs:219-223 | the registry entry and heap become what `CreateSingletonInstance` yields; a prepared provider stays prepared, and a SingletonProvider then holds an instance |
| LegacyInjector.Injector.FinishInstantation | DTools/Suice/suice/Injector.cs:219-225 | after the singleton step and the unlock, the lock list is as before the type was locked, the type is still prepared, a SingletonProvider holds an instance, and no other provider changed |
| LegacyInjector.Injector.InitializeDependencies | DTools/Suice/suice/Injector.cs:228-240 | a provider proxy receives an answer for its provider type and raises its flag; any other provider gets one answer per parameter of its method or constructor, the array set as a whole; a missing implementation, a constructor failure or a parameter of the type's own type fails and leaves the provider as it was |
| LegacyInjector.Injector.InitializeProviderProxy | DTools/Suice/suice/Injector.cs:233-234 | on success the proxy's flag is up and its delegate is an answer for its provider type |
| LegacyInjector.Injector.GetMethodDependencies | DTools/Suice/suice/Injector.cs:90-106 | one answer per parameter, left to right, each for its type; a parameter of the type being built fails with InjectToSelf, and a first such parameter fails before anything is resolved |
| LegacyInjector.Injector.ResolveParameter | DTools/Suice/suice/Injector.cs:95-103 | one step of the parameter loop: earlier answers kept, the next parameter resolved |
| LegacyInjector.Injector.MarkInitialized | cmn-tools/suice/suice/Injector.cs:236 | raises `IsInitialized` and changes nothing else |
| LegacyInjector.Injector.InitializeAfterInstantiation | DTools/Suice/suice/Injector.cs:204-211 | the provider is marked initialised whatever happens next (DTools sets the flag here, cmn-tools at the start of `InitializeDependencyFields`, line 236); a null object fails with NullReference; on success the hook events are the last ones recorded |
| LegacyInjector.Injector.BroadcastDependencyInitialization | DTools/Suice/suice/Injector.cs:251-262 | appends exactly the hook events of the object |
| LegacyInjector.Injector.InitializeDependencyFields | DTools/Suice/suice/Injector.cs:242-249 | a null object fails; on success the lock list is as it was |
| LegacyInjector.Injector.SetFields | DTools/Suice/suice/Injector.cs:246-248 | the field store after writing each resolved value into its field |
| LegacyInjector.Injector.GetFieldDependencies | DTools/Suice/suice/Injector.cs:108-125 | one answer per injectable field, in order; a field of the declaring type itself fails (cmn-tools/suice/suice/Injector.cs:116-122) |
| LegacyInjector.Injector.ResolveField | DTools/Suice/suice/Injector.cs:114-122 | one step of the field loop |
| LegacyInjector.Injector.RegisterProvider | DTools/Suice/suice/Injector.cs:73-81 | fails iff the type is already bound, leaving the registry as it was; cmn-tools reports the type and the new provider's type (cmn-tools/suice/suice/Injector.cs:76-85), DTools DuplicateBinding with the bound provider's implementation type, and a NullReference when that provider has none |
| LegacyInjector.Injector.CreateProvider | DTools/Suice/suice/Injector.cs:127-141 | NO_SCOPE and SINGLETON bindings are registered; another scope registers nothing, silently in DTools and with UnhandledBindingScope in cmn-tools (cmn-tools/suice/suice/Injector.cs:143-148) |
| LegacyInjector.Injector.RegisterBindings | DTools/Suice/suice/Injector.cs:83-88 | on success exactly the handled bindings' types are newly bound, each to its binding's provider |
| LegacyInjector.Injector.RegisterBinding | DTools/Suice/suice/Injector.cs:85-87 | one step of the binding loop keeps the registered-so-far invariant |
| LegacyInjector.Injector.CreateProvidersFromMethods | DTools/Suice/suice/Injector.cs:60-71 | on success exactly the handled methods' return types are newly bound to their method providers; cmn-tools refuses any other scope (cmn-tools/suice/suice/Injector.cs:66-72) |
| LegacyInjector.Injector.RegisterMethods | DTools/Suice/suice/Injector.cs:62-70 | the method loop, stopping at the first refusal: on success every method with a provider is registered under its return type, new, and nothing else is added |
| LegacyInjector.Injector.RegisterMethod | DTools/Suice/suice/Injector.cs:62-70 | one step of the method loop keeps the invariant |
| LegacyInjector.Injector.RegisterModule | DTools/Suice/suice/Injector.cs:53-58 | on success the registry gains exactly the handled bindings' types and handled `[Provides]` return types; each handled binding's type holds the provider `BindingProvider` gives for it, and each handled `[Provides]` return type the provider `MethodProviderOf` gives for its method |
| LegacyInjector.Injector.AttemptRegisterBinding | DTools/Suice/suice/Injector.cs:322-346 | no `[ImplementedBy]` means no registration; an implementation that does not implement the interface is rejected with InvalidImplementedBy; otherwise the interface is bound iff it was unbound |
| LegacyInjector.Injector.AttemptRegisterSingleton | DTools/Suice/suice/Injector.cs:275-289 | registers a SingletonProvider for the type itself iff it is `[Singleton]` and has no `[ImplementedBy]` interface; it fails iff the type was already bound |
| LegacyInjector.Injector.AttemptRegisterProvider | DTools/Suice/suice/Injector.cs:291-320 | without `[ProvidedBy]` nothing happens; a provider implementation that is not an AbstractProvider subclass fails with InvalidProvidedBy; on success the marked type gets a ProviderProxy and, exactly when the implementation has neither `[ImplementedBy]` nor `[Singleton]`, the provider type gets a SingletonProvider; a success registers only new keys; it succeeds when the keys are new and, when a provider singleton is due, the provider type is not the marked type itself (otherwise the second registration under the same type fails, line 313) |
| LegacyInjector.Injector.RegisterProviderProxy | DTools/Suice/suice/Injector.cs:304-313 | registers exactly the provider singleton (when due) and the proxy; it succeeds when both keys are new and a due provider singleton is not registered under the marked type itself |
| LegacyInjector.Injector.AttemptRegisterDependency | DTools/Suice/suice/Injector.cs:270-273 | binding, then singleton, then provider discovery: on success the registry gains exactly the keys discovery registers for the type, all new, and the result says whether there were any |
| LegacyInjector.Injector.RegisterDiscovered | DTools/Suice/suice/Injector.cs:265-267 | one step of the discovery loop keeps the discovered-keys invariant |
| LegacyInjector.Injector.RegisterJustInTimeDependencies | DTools/Suice/suice/Injector.cs:264-268 | on success the registry gains exactly the keys discovery registers for the given types |
| LegacyInjector.Injector.EagerKeys | DTools/Suice/suice/Injector.cs:46-47 | the `Where` filter: a type is eager exactly when its provider `is SingletonProvider` (as a SingletonMethodProvider also is) and is not a SingletonMethodProvider |
| LegacyInjector.Injector.InstantiateEagerSingletons | DTools/Suice/suice/Injector.cs:46-49 | on success every SingletonProvider present at the start is initialised and holds its instance |
| LegacyInjector.Injector.InstantiateEagerSingleton | DTools/Suice/suice/Injector.cs:48 | one step adds the resolved singleton to those instantiated |
| LegacyInjector.Injector.InjectAssembly | cmn-tools/suice/suice/Injector.cs:35-44 | after the pass every type registered before or discovered is registered, and each of them whose provider is a SingletonProvider (not a SingletonMethodProvider) is wired and holds its instance |
| LegacyInjector.Injector.EagerDone | cmn-tools/suice/suice/Injector.cs:40-43 | after the eager pass, every SingletonProvider among types registered before it is wired and holds its instance, and growth keeps that so |
| LegacyInjector.Injector.InjectNext | DTools/Suice/suice/Injector.cs:41-50 | after assembly `i`, every type registered before the run or discovered in the first `i + 1` assemblies is registered, and each of them whose provider is a SingletonProvider is wired and holds its instance |
| LegacyInjector.DiscoveredAllStep | DTools/Suice/suice/Injector.cs:41-44 | the types discovered in the first `i + 1` assemblies are those of the first `i` and those of assembly `i` |
| LegacyInjector.Injector.InjectDependencies | DTools/Suice/suice/Injector.cs:39-51 | after all assemblies every type registered before or discovered in any of them is registered and the lock list is as it was; when there was an assembly, each of those types whose provider is a SingletonProvider is wired and holds its instance |
| LegacyInjector.BindingProvider | DTools/Suice/suice/Injector.cs:127-141 | NO_SCOPE gives a no-scope provider of the binding's types; SINGLETON gives a singleton provider holding the preset instance, initialised iff cmn-tools and the instance is set (cmn-tools/suice/suice/Injector.cs:137-140); other scopes give none |
| LegacyInjector.BindingsRegistered | DTools/Suice/suice/Injector.cs:83-88 | the loop invariant at the end is the stated registry after all bindings |
| LegacyInjector.MethodsRegistered | DTools/Suice/suice/Injector.cs:60-71 | the loop invariant at the end is the stated registry after all methods |
| LegacyInjector.BoundTo | DTools/Suice/suice/Injector.cs:328-340 | an `[ImplementedBy]` interface gets a singleton provider iff the implementation is `[Singleton]`, else a no-scope one, in both cases implemented by the target |
| LegacyInjector.TypeAttribute | DTools/Suice/suice/ReflectionUtil.cs:20-34 | without inherit both revisions take the first attribute on the type; cmn-tools never looks at interfaces (cmn-tools/suice/suice/ReflectionUtil.cs:21-25) |
| LegacyInjector.TypeAttributeRevisionsAgree | cmn-tools/suice/suice/ReflectionUtil.cs:21-25 | the two revisions' lookups agree when inherit is false |
| LegacyInjector.ProvidedByType | DTools/Suice/suice/Injector.cs:293-294 | none exactly when the type declares no `[ProvidedBy]`; otherwise the catalogued provider type of the first `[ProvidedBy]` it declares |
| LegacyInjector.ImplementedProviderType | DTools/Suice/suice/Injector.cs:297-301 | a catalogued type: the provider type itself when it declares no `[ImplementedBy]`, else the target of the first `[ImplementedBy]` it declares |
| LegacyInjector.ProvidedByKeys | DTools/Suice/suice/Injector.cs:303-313 | `[ProvidedBy]` registers the marked type, and also the provider type exactly when a provider singleton is due |
| LegacyInjector.DiscoveredKeysHasType | DTools/Suice/suice/Injector.cs:270-273 | discovery registers something for a type iff it registers the type itself |
| LegacyInjector.DiscoveredTypesAdded | DTools/Suice/suice/Injector.cs:264-268 | once the registry has gained every key discovery registers for the types, every type some rule applies to is registered |
| LegacyInjector.DiscoveredOfAll | DTools/Suice/suice/Injector.cs:265-267 | the loop's union over all types is the set of keys discovery registers |

## Left out

- Runtime code generation (`InstanceCreatorExtension`): construction is an opaque allocation that records the type and the arguments.
- The proxy libraries (Castle `ProxyFactory`, cmn-tools `DependencyProxy`): a proxy is an object id plus a target slot. Calls made through a proxy after a cycle resolves are not modelled beyond the interceptor's target being set.
- User code is opaque: `Configure()` reaches the engine as a sequence of binding views, and `Initialize()` and the observer are recorded as events. `[Provides]` method bodies (`MethodInfo.Invoke`) and user provider objects' `Provide()` answer from the heap's script (null, an existing object or a new one); a new object's runtime type is the declared type or one the script names that can be cast to it. What the user code does besides answering, and the runtime type of an existing object it returns (no check that it fits the declared type), are not modelled.
- `Initialize`/`Init` are thin wrappers around `InjectDependencies` and are not modelled separately; the assembly list and `GetTypes()` are parameters.
- Exception messages are error variants carrying type names; only the cycle path string is modelled.
- Iteration order of `Dictionary`, `HashSet` and the module's binding set is unspecified in the source: the eager pass picks providers in any order, and the cmn-tools `HashSet` lock is modelled as a list (a type is never locked twice, so only membership matters).
- The cmn-tools scope enum has no EAGER_SINGLETON; there that variant stands for any out-of-range scope value.
- `GetDependencies`, `IsProvidedByProvider`, the static `InitializeDependency` and `CreateProvidersFromBindings` of cmn-tools are never called by the engine.
- The DependencyProxy forwarding path of `SetInstance` cannot be reached from the engines: `CreateSingletonInstance` runs before the first `Provide`.
- The three-revision split means a heap object provider with a mutable `Dependencies` array is modelled as a provider record in the registry map: an update in place becomes a map update, and aliasing of provider objects outside the registry is not modelled.
- Fuel: field injection deeper than the fuel bound returns OutOfFuel where the source would recurse until the stack overflows.
- SuiceInjector.Injector.InitializeDependencyFields: states the lock and null cases only; which values land in which fields is stated by GetFieldDependencies and SetFields, not restated over the whole call.
- LegacyInjector.Injector.InitializeDependencyFields: same as the Suice engine's.
- LegacyInjector.Injector.InitializeProviderProxy: does not restate its errors (resolution failure, the InvalidCast of a delegate that is not a provider object).
- LegacyInjector.Injector.InjectDependencies: states instantiation of the SingletonProviders only when there is at least one assembly; with none, the source's loop makes no eager pass either.
- SuiceInjector.Injector.InjectDependencies: states instantiation of the eager singletons only when there is at least one assembly; with none, the source's loop makes no eager pass either.
- SuiceInjector.Injector.InstantiateEagerSingletons: an EAGER_SINGLETON provider backed by a `[Provides]` method whose method returned null is initialised but holds no instance, because `Instance ?? (Instance = …)` stores the null.
- SuiceInjector.Injector.WiredDependenciesAreNonNull: says nothing about a slot whose type is served by a `[Provides]`-method provider, because such a method may return null.
- SuiceInjector.Injector.InstantiateEagerSingletons: does not state the order in which singletons are built.
