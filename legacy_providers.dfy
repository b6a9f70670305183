/**
 * Providers of the older `AbstractProvider` API, used by the DTools and
 * cmn-tools engines: NoScopeProvider and MethodProvider build on every call,
 * SingletonProvider and SingletonMethodProvider cache one instance
 * (cmn-tools/suice/suice/SingletonProvider.cs, SingletonMethodProvider.cs),
 * and ProviderProxy hands the request on to a user provider object set once
 * (DTools/Suice/suice/ProviderProxy.cs, cmn-tools/suice/suice/ProviderProxy.cs).
 *
 * As in the newer API, the class hierarchy is one record with a variant tag.
 * Here the dependencies are an array the engine replaces as a whole
 * (`SetDependencies`), a singleton may hold a forwarding proxy as its
 * instance, and a provider proxy holds the object it delegates to.
 */
module LegacyProviders {
  import opened Wrappers
  import opened Catalogue
  import opened Values
  import opened Runtime
  import opened Errors

  /** The two engine revisions written against this API. */
  datatype Revision = DTools | Cmn

  datatype Kind =
    | NoScopeProvider
    | MethodProvider(owner: ModuleId, factory: MethodDecl)            // a subclass of NoScopeProvider
    | SingletonProvider
    | SingletonMethodProvider(owner: ModuleId, factory: MethodDecl)   // a subclass of SingletonProvider
    | ProviderProxy(providerType: TypeId)
  {
    /** `provider is NoScopeProvider`. */
    predicate IsNoScopeProvider() {
      NoScopeProvider? || MethodProvider?
    }

    /** `provider is SingletonProvider`. */
    predicate IsSingletonProvider() {
      SingletonProvider? || SingletonMethodProvider?
    }

    /** `provider as IMethodConstructor != null`: the providers backed by a module method. */
    predicate IsMethodConstructor() {
      MethodProvider? || SingletonMethodProvider?
    }
  }

  /**
   * `providedType` and `implementedType` are readonly (the implementation type is
   * null for a binding never given one); `dependencies` is what the engine last
   * set; `instance` is the singleton slot and `delegate` the object a provider
   * proxy forwards to, both null for the other variants.
   */
  datatype AbstractProvider = AbstractProvider(kind: Kind, providedType: TypeId, implementedType: Option<TypeId>,
                                               dependencies: seq<Value>, isInitialized: bool,
                                               instance: Value, delegate: Value)
  {
    /** As built: nothing set yet. */
    predicate Blank() {
      dependencies == [] && !isInitialized && instance == Null && delegate == Null
    }
  }

  function Blank(kind: Kind, providedType: TypeId, implementedType: Option<TypeId>): (p: AbstractProvider)
    ensures p.Blank() && p.kind == kind && p.providedType == providedType && p.implementedType == implementedType
  {
    AbstractProvider(kind, providedType, implementedType, [], false, Null, Null)
  }

  /** `new NoScopeProvider(providedType, implementedType)`. */
  function NoScope(providedType: TypeId, implementedType: Option<TypeId>): (p: AbstractProvider)
    ensures p == Blank(NoScopeProvider, providedType, implementedType)
  {
    Blank(NoScopeProvider, providedType, implementedType)
  }

  /** `new SingletonProvider(providedType, implementedType)`; the one-argument
      form `new SingletonProvider(type)` is `Singleton(type, Some(type))`. */
  function Singleton(providedType: TypeId, implementedType: Option<TypeId>): (p: AbstractProvider)
    ensures p == Blank(SingletonProvider, providedType, implementedType)
  {
    Blank(SingletonProvider, providedType, implementedType)
  }

  /** `new MethodProvider(module, methodInfo)`: provides the method's return type. */
  function Method(owner: ModuleId, m: MethodDecl): (p: AbstractProvider)
    ensures p == Blank(MethodProvider(owner, m), m.returnType, Some(m.returnType))
  {
    Blank(MethodProvider(owner, m), m.returnType, Some(m.returnType))
  }

  /** `new SingletonMethodProvider(module, methodInfo)`: provides the method's return type. */
  function SingletonMethod(owner: ModuleId, m: MethodDecl): (p: AbstractProvider)
    ensures p == Blank(SingletonMethodProvider(owner, m), m.returnType, Some(m.returnType))
  {
    Blank(SingletonMethodProvider(owner, m), m.returnType, Some(m.returnType))
  }

  /** `new ProviderProxy(providedType, providerType)`: provided and implemented type are both `providedType`. */
  function Proxy(providedType: TypeId, providerType: TypeId): (p: AbstractProvider)
    ensures p == Blank(ProviderProxy(providerType), providedType, Some(providedType))
  {
    Blank(ProviderProxy(providerType), providedType, Some(providedType))
  }

  /** `GetMethodConstructor()` / `GetMethod()`: the module method a method-backed provider was built from. */
  function GetMethodConstructor(p: AbstractProvider): (m: MethodDecl)
    requires p.kind.IsMethodConstructor()
  {
    p.kind.factory
  }

  /** Building a method-backed provider and asking for its method gives back the
      method, and the provider provides the method's return type. */
  lemma MethodConstructorIsStored(owner: ModuleId, m: MethodDecl)
    ensures GetMethodConstructor(Method(owner, m)) == m && Method(owner, m).providedType == m.returnType
    ensures GetMethodConstructor(SingletonMethod(owner, m)) == m && SingletonMethod(owner, m).providedType == m.returnType
  {
  }

  /**
   * `ProviderProxy.SetProviderInstance(provider)`: the first call stores the
   * provider object and raises the flag; a later call is ignored by the DTools
   * revision and refused by the cmn-tools one.
   */
  function SetProviderInstance(rev: Revision, p: AbstractProvider, provider: Value): (r: Result<AbstractProvider, Error>)
    requires p.kind.ProviderProxy?
    ensures r.Success? ==> r.value.isInitialized && r.value == p.(delegate := r.value.delegate, isInitialized := true)
    ensures !p.isInitialized ==> r == Success(p.(delegate := provider, isInitialized := true))
    ensures p.isInitialized ==> (r.Failure? <==> rev.Cmn?)
    ensures p.isInitialized && r.Success? ==> r.value == p
    ensures r.Failure? ==> r.error == ProviderProxySetTwice
  {
    if !p.isInitialized then Success(p.(delegate := provider, isInitialized := true))
    else if rev.DTools? then Success(p)
    else Failure(ProviderProxySetTwice)
  }

  /** Setting a provider proxy twice: in DTools the first provider stays, in
      cmn-tools the second call fails; either way the delegate is the first one. */
  lemma SetProviderInstanceIsSetOnce(rev: Revision, p: AbstractProvider, first: Value, second: Value)
    requires p.kind.ProviderProxy? && !p.isInitialized
    ensures var once := SetProviderInstance(rev, p, first);
            && once.Success? && once.value.delegate == first
            && var twice := SetProviderInstance(rev, once.value, second);
               && (rev == DTools ==> twice == once)
               && (rev == Cmn ==> twice == Failure(ProviderProxySetTwice))
  {
  }

  /** Whether `v` is a forwarding proxy on `h` (`Instance as DependencyProxy != null`). */
  predicate IsForwardingProxy(h: Heap, v: Value) {
    h.Has(v) && h.objects[v.obj].origin.ForwardingProxy?
  }

  /**
   * `SingletonProvider.SetInstance(instance)`: when the slot holds a forwarding
   * proxy, the proxy is pointed at the instance and the slot keeps the proxy;
   * otherwise the slot takes the instance.
   */
  function SetInstance(p: AbstractProvider, h: Heap, v: Value): (r: (AbstractProvider, Heap))
    ensures IsForwardingProxy(h, p.instance) ==>
              r.0 == p && r.1 == h.(targets := h.targets[p.instance.obj := v])
    ensures !IsForwardingProxy(h, p.instance) ==> r.0 == p.(instance := v) && r.1 == h
  {
    if IsForwardingProxy(h, p.instance) then (p, h.(targets := h.targets[p.instance.obj := v]))
    else (p.(instance := v), h)
  }

  /** `ImplementedType`, the type a construction builds and whose constructor the
      engine resolves; a provider never given one (which the engine refuses before
      it constructs anything) is taken to implement its provided type. */
  function ConstructedType(p: AbstractProvider): (t: TypeId)
    ensures p.implementedType.Some? ==> t == p.implementedType.value
    ensures p.implementedType.None? ==> t == p.providedType
  {
    if p.implementedType.Some? then p.implementedType.value else p.providedType
  }

  /** The object a fresh provision builds: the implementation constructed from
      the dependencies, or what the module method makes when it makes one. */
  function Built(p: AbstractProvider): (info: ObjInfo)
    requires !p.kind.ProviderProxy?
    ensures p.kind.IsMethodConstructor() ==>
              info == ObjInfo(p.kind.factory.returnType, Invoked(p.kind.owner, p.kind.factory.id, p.dependencies))
    ensures !p.kind.IsMethodConstructor() ==> info == ObjInfo(ConstructedType(p), Constructed(p.dependencies))
  {
    if p.kind.IsMethodConstructor() then ObjInfo(p.kind.factory.returnType, Invoked(p.kind.owner, p.kind.factory.id, p.dependencies))
    else ObjInfo(ConstructedType(p), Constructed(p.dependencies))
  }

  /** What a provider proxy's delegate makes when its `Provide()` makes a new object. */
  function Delegated(p: AbstractProvider): (info: ObjInfo)
    ensures info.runtimeType == p.providedType && info.origin == Origin.ProvidedBy(p.delegate)
  {
    ObjInfo(p.providedType, Origin.ProvidedBy(p.delegate))
  }

  /**
   * `CreateSingletonInstance()`: a SingletonProvider with an empty slot
   * constructs its implementation from its dependencies and sets it as its
   * instance; with a filled slot, and for a SingletonMethodProvider always,
   * it does nothing.
   */
  function CreateSingletonInstance(p: AbstractProvider, h: Heap): (r: (AbstractProvider, Heap))
    requires p.kind.IsSingletonProvider()
    ensures p.kind.SingletonMethodProvider? || p.instance != Null ==> r == (p, h)
    ensures p.kind.SingletonProvider? && p.instance == Null ==>
              r == (p.(instance := h.Next()), h.Alloc(ObjInfo(ConstructedType(p), Constructed(p.dependencies))))
  {
    if p.kind.SingletonProvider? && p.instance == Null then
      SetInstance(p, h.Alloc(Built(p)), h.Next())
    else (p, h)
  }

  /** What `Provide()` hands out, the provider afterwards and the heap afterwards. */
  datatype Provision = Provision(value: Value, after: AbstractProvider, heap: Heap)

  /**
   * The virtual `ProvideObject()` behind `Provide()`: a NoScopeProvider
   * constructs on every call and a MethodProvider invokes its method on every
   * call; a singleton returns its instance, and when there is none, a
   * SingletonProvider installs and returns a new forwarding proxy and a
   * SingletonMethodProvider invokes its method and caches what it returned,
   * null included; a provider proxy asks its delegate, which fails when none
   * was set.
   */
  function Provide(c: Catalogue, p: AbstractProvider, h: Heap): (r: Result<Provision, Error>)
    requires Wf(c)
    ensures p.kind.ProviderProxy? && p.delegate == Null <==> r.Failure?
    ensures r.Failure? ==> r.error == NullReference
    ensures r.Success? ==> r.value.after == p.(instance := r.value.after.instance)
    ensures r.Success? ==> h.objects <= r.value.heap.objects && |r.value.heap.objects| <= |h.objects| + 1
    ensures p.kind.NoScopeProvider? ==> r == Success(Provision(h.Next(), p, h.Alloc(Built(p))))
    ensures p.kind.MethodProvider? ==>
              r.Success? && r.value.after == p && (r.value.value, r.value.heap) == h.Call(c, Built(p))
    ensures p.kind.IsSingletonProvider() && p.instance != Null ==> r == Success(Provision(p.instance, p, h))
    ensures p.kind.SingletonProvider? && p.instance == Null ==>
              r == Success(Provision(h.Next(), p.(instance := h.Next()), h.Alloc(ObjInfo(p.providedType, ForwardingProxy(p.providedType)))))
    ensures p.kind.SingletonMethodProvider? && p.instance == Null ==>
              && r.Success? && r.value.after == p.(instance := r.value.value)
              && (r.value.value, r.value.heap) == h.Call(c, Built(p))
    ensures p.kind.ProviderProxy? && p.delegate != Null ==>
              r.Success? && r.value.after == p && (r.value.value, r.value.heap) == h.Call(c, Delegated(p))
  {
    match p.kind
    case ProviderProxy(_) =>
      if p.delegate == Null then Failure(NullReference)
      else
        var (v, h') := h.Call(c, Delegated(p));
        Success(Provision(v, p, h'))
    case SingletonProvider =>
      if p.instance != Null then Success(Provision(p.instance, p, h))
      else Success(Provision(h.Next(), p.(instance := h.Next()), h.Alloc(ObjInfo(p.providedType, ForwardingProxy(p.providedType)))))
    case SingletonMethodProvider(_, _) =>
      if p.instance != Null then Success(Provision(p.instance, p, h))
      else
        var (v, h') := h.Call(c, Built(p));
        Success(Provision(v, p.(instance := v), h'))
    case MethodProvider(_, _) =>
      var (v, h') := h.Call(c, Built(p));
      Success(Provision(v, p, h'))
    case NoScopeProvider => Success(Provision(h.Next(), p, h.Alloc(Built(p))))
  }

  /** After a provision that answered with an object a singleton's slot holds it:
      asking again gives the same reference and calls nothing; the answer is null
      only when a SingletonMethodProvider with an empty slot has its method return
      null. Either way `CreateSingletonInstance` then does nothing. */
  lemma SingletonProvideIsCached(c: Catalogue, p: AbstractProvider, h: Heap)
    requires Wf(c)
    requires p.kind.IsSingletonProvider()
    ensures var first := Provide(c, p, h);
            && first.Success? && first.value.after.instance == first.value.value
            && (first.value.value != Null ==>
                  Provide(c, first.value.after, first.value.heap) == Success(Provision(first.value.value, first.value.after, first.value.heap)))
            && (first.value.value == Null <==>
                  p.kind.SingletonMethodProvider? && p.instance == Null && h.NextIsNull())
            && CreateSingletonInstance(first.value.after, first.value.heap) == (first.value.after, first.value.heap)
  {
  }

  /** A SingletonMethodProvider whose method returned null keeps an empty slot,
      so the next request invokes the method again. */
  lemma SingletonMethodNullIsRetried(c: Catalogue, p: AbstractProvider, h: Heap)
    requires Wf(c)
    requires p.kind.SingletonMethodProvider? && p.instance == Null && h.NextIsNull()
    ensures var first := Provide(c, p, h).value;
            var second := Provide(c, first.after, first.heap).value;
            && first.value == Null && first.after == p && first.heap.objects == h.objects
            && (second.value, second.heap) == first.heap.Call(c, Built(p))
            && second.heap.calls == h.calls + 2
  {
  }

  /** A SingletonProvider whose instance was created answers with that constructed
      object, not with a proxy. */
  lemma CreatedSingletonIsProvided(c: Catalogue, p: AbstractProvider, h: Heap)
    requires Wf(c)
    requires p.kind.SingletonProvider? && p.instance == Null
    ensures var (q, h') := CreateSingletonInstance(p, h);
            && Provide(c, q, h') == Success(Provision(h.Next(), q, h'))
            && h'.objects[h.Next().obj] == ObjInfo(ConstructedType(p), Constructed(p.dependencies))
  {
  }

  /** A proxy handed out by a SingletonProvider with an empty slot stays its
      instance when the real object is set later, and forwards to that object. */
  lemma SetInstanceForwardsThroughProxy(c: Catalogue, p: AbstractProvider, h: Heap, v: Value)
    requires Wf(c)
    requires p.kind.SingletonProvider? && p.instance == Null
    ensures var first := Provide(c, p, h).value;
            var (q, h') := SetInstance(first.after, first.heap, v);
            && q.instance == first.value && IsForwardingProxy(h', first.value)
            && first.value.obj in h'.targets && h'.targets[first.value.obj] == v
            && h'.objects == first.heap.objects
  {
  }

  /** Two provisions in a row of a no-scope variant leave the provider as it
      was: a NoScopeProvider gives two different, newly constructed objects, and
      a MethodProvider invokes its method once for each, answering what it returned. */
  lemma NoScopeProvideIsFresh(c: Catalogue, p: AbstractProvider, h: Heap)
    requires Wf(c)
    requires p.kind.IsNoScopeProvider()
    ensures var first := Provide(c, p, h).value;
            var second := Provide(c, first.after, first.heap).value;
            && first.after == p && second.after == p
            && (p.kind.NoScopeProvider? ==>
                  && !h.Has(first.value) && !first.heap.Has(second.value) && first.value != second.value
                  && second.heap.objects == h.objects + [Built(p), Built(p)])
            && (p.kind.MethodProvider? ==>
                  && (first.value, first.heap) == h.Call(c, Built(p))
                  && (second.value, second.heap) == first.heap.Call(c, Built(p))
                  && second.heap.calls == h.calls + 2)
  {
  }

  /** A provider proxy hands every request on to its delegate, once per request,
      answering what the delegate returned, and never caches. */
  lemma ProviderProxyDelegates(c: Catalogue, p: AbstractProvider, h: Heap)
    requires Wf(c)
    requires p.kind.ProviderProxy? && p.delegate != Null
    ensures var first := Provide(c, p, h).value;
            var second := Provide(c, first.after, first.heap).value;
            && first.after == p && second.after == p
            && (first.value, first.heap) == h.Call(c, Delegated(p))
            && (second.value, second.heap) == first.heap.Call(c, Delegated(p))
            && second.heap.calls == h.calls + 2
  {
  }
}
