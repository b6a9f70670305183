/**
 * The Suice engine (Suice/Injector.cs): a provider registry keyed by type, a
 * resolver that fills each provider's dependencies left to right under a lock
 * list of types under construction, proxies handed out for types that are
 * re-entered while locked and retargeted once the real object exists, and
 * the registration front end (module bindings, `[Provides]` methods and
 * just-in-time discovery of `[ImplementedBy]` and `[Singleton]` types).
 *
 * The registry holds provider records as values; the heap is a value too.
 * Ghost sets record what has been handed out (`delivered` by providers,
 * `proxied` as proxies) and which providers have been wired (`initialized`);
 * they only grow, and `Valid` ties them to the state.
 */
module SuiceInjector {
  import opened Wrappers
  import opened Catalogue
  import opened Markers
  import opened Values
  import opened Proxies
  import opened Runtime
  import opened Errors
  import opened Reflection
  import opened Constructors
  import opened Providers
  import opened Lists
  import opened Bindings

  /** A registry entry the engine can work with: its types are in the catalogue,
      one slot per dependency, and a singleton is registered under its own type. */
  ghost predicate EntryOk(c: Catalogue, t: TypeId, p: Provider) {
    && t in c && p.Valid() && (forall d | d in p.dependencyTypes :: d in c)
    && p.providedType in c && p.implementedType in c
    && (p.kind.MethodProvider? || p.kind.SingletonMethodProvider? ==>
          p.kind.factory.returnType in c && p.implementedType == p.kind.factory.returnType)
    && (p.kind.IsSingletonProvider() ==> p.providedType == t)
  }

  /** How a registered provider may change: its kind and types are readonly, the
      flag only goes from false to true, the dependencies are frozen once it is
      set, and a cached instance is never replaced. */
  predicate Evolves(p: Provider, q: Provider) {
    && q.kind == p.kind && q.providedType == p.providedType && q.implementedType == p.implementedType
    && q.dependencyTypes == p.dependencyTypes && |q.dependencies| == |p.dependencies|
    && (p.isInitialized ==> q.isInitialized && q.dependencies == p.dependencies)
    && (p.instance != Null ==> q.instance == p.instance)
  }

  /** What provider `p`, registered under `t`, legitimately hands out: a construction
      of its implementation, whatever its method returned (null or an object), its
      factory, or its cached instance (for a method-backed singleton, null when the
      method returned null). */
  predicate Delivers(h: Heap, t: TypeId, p: Provider, v: Value) {
    match p.kind
    case NoScopeProvider =>
      h.Has(v) && h.objects[v.obj].runtimeType == p.implementedType && h.objects[v.obj].origin.Constructed?
    case MethodProvider(_, _) => v == Null || h.Has(v)
    case DynamicProvider => v == Factory(t)
    case SingletonProvider(_) => v != Null && v == p.instance
    case SingletonMethodProvider(_, _, _) => v == Null || v == p.instance
  }

  /** `GetFields(...).Where(f => f has [Inject])`, in declaration order. */
  function InjectableFields(fields: seq<FieldDecl>): (r: seq<FieldDecl>)
    ensures forall f | f in r :: f in fields && FirstOfKind(f.attrs, InjectKind).Some?
    ensures forall f | f in fields && FirstOfKind(f.attrs, InjectKind).Some? :: f in r
  {
    if fields == [] then []
    else
      var rest := InjectableFields(fields[1..]);
      assert forall f | f in fields :: f == fields[0] || f in fields[1..];
      if FirstOfKind(fields[0].attrs, InjectKind).Some? then [fields[0]] + rest else rest
  }

  class Injector {
    const catalogue: Catalogue
    const hasObserver: bool   // whether `OnInitializeDependency` has a subscriber
    var heap: Heap
    var providersMap: map<TypeId, Provider>
    var lockList: seq<TypeId>   // circularDependencyLockedTypes
    var proxies: map<TypeId, ProxyInterceptor>
    ghost var delivered: set<(TypeId, Value)>
    ghost var proxied: set<(TypeId, Value)>
    ghost var initialized: set<TypeId>

    /** `new Injector()`, over a heap holding the objects user code made beforehand,
        with user code to answer the container's calls as `answers` says. */
    constructor (c: Catalogue, preexisting: seq<TypeId>, answers: seq<Answer>, observer: bool)
      requires Wf(c) && forall t | t in preexisting :: t in c
      ensures Valid() && catalogue == c && hasObserver == observer
      ensures heap == InitialHeap(preexisting, answers) && providersMap == map[] && lockList == [] && proxies == map[]
    {
      catalogue := c;
      hasObserver := observer;
      heap := InitialHeap(preexisting, answers);
      providersMap := map[];
      lockList := [];
      proxies := map[];
      delivered := {};
      proxied := {};
      initialized := {};
    }

    ghost predicate Valid()
      reads this
    {
      Wf(catalogue) && HeapOk() && EntriesOk() && InitOk() && DeliveredOk() && ProxiedOk()
    }

    ghost predicate HeapOk()
      reads this`heap
    {
      forall o | 0 <= o < |heap.objects| :: heap.objects[o].runtimeType in catalogue
    }

    ghost predicate EntriesOk()
      reads this`providersMap
    {
      forall t | t in providersMap :: EntryOk(catalogue, t, providersMap[t])
    }

    /** The flag of a provider is up exactly when the ghost record says it was wired. */
    ghost predicate InitOk()
      reads this`providersMap, this`initialized
    {
      && (forall t | t in providersMap :: providersMap[t].isInitialized <==> t in initialized)
      && (forall t | t in initialized :: t in providersMap)
    }

    ghost predicate DeliveredOk()
      reads this`providersMap, this`heap, this`delivered
    {
      forall tv | tv in delivered :: tv.0 in providersMap && ProviderDelivers(tv.0, tv.1)
    }

    /** Every proxy handed out is a proxy object for its type, with an interceptor recorded. */
    ghost predicate ProxiedOk()
      reads this`proxies, this`heap, this`proxied
    {
      forall tv | tv in proxied :: tv.0 in proxies && heap.Has(tv.1) && heap.objects[tv.1.obj].origin == ProxyOf(tv.0)
    }

    /** What the provider registered under `t` legitimately hands out. */
    ghost predicate ProviderDelivers(t: TypeId, v: Value)
      reads this`providersMap, this`heap
      requires t in providersMap
    {
      Delivers(heap, t, providersMap[t], v)
    }

    /** Every answer a request for a type has received. */
    ghost function Resolved(): set<(TypeId, Value)>
      reads this`delivered, this`proxied
    {
      delivered + proxied
    }

    /** What holds between any two states of a run: the ghost records only grow,
        registered providers only evolve, and an issued interceptor stays. */
    twostate predicate Grows()
      reads this
    {
      && old(delivered) <= delivered && old(proxied) <= proxied && old(initialized) <= initialized
      && (forall t | t in old(providersMap) :: t in providersMap && Evolves(old(providersMap[t]), providersMap[t]))
      && (forall t | t in old(proxies) :: t in proxies && proxies[t] == old(proxies[t]))
      && (forall t | t in proxies && t !in old(proxies) :: fresh(proxies[t]))
    }

    /** What holds across registration: providers are only added. */
    twostate predicate Extends()
      reads this`providersMap
    {
      forall t | t in old(providersMap) :: t in providersMap && providersMap[t] == old(providersMap[t])
    }

    /** Adding providers, with nothing else changed, is growth. */
    twostate lemma ExtendsGrows()
      requires Extends() && heap == old(heap) && proxies == old(proxies)
      requires delivered == old(delivered) && proxied == old(proxied) && initialized == old(initialized)
      ensures Grows()
    {
    }

    ghost function Locked(): set<TypeId>
      reads this`lockList
    {
      set u | u in lockList
    }

    /** The providers of `ks` are exactly as they were. */
    twostate predicate Untouched(ks: set<TypeId>)
      reads this
    {
      forall t | t in ks && t in old(providersMap) :: t in providersMap && providersMap[t] == old(providersMap[t])
    }

    /** The types a resolution may still lock: the termination measure. */
    ghost function Unlocked(): set<TypeId>
      reads this`lockList
    {
      catalogue.Keys - Locked()
    }

    /** Allocation, field writes and hook calls keep every recorded answer valid. */
    twostate lemma HeapGrowth()
      requires old(Valid()) && old(heap.objects) <= heap.objects
      requires forall o | |old(heap.objects)| <= o < |heap.objects| :: heap.objects[o].runtimeType in catalogue
      requires providersMap == old(providersMap) && proxies == old(proxies)
      requires delivered == old(delivered) && proxied == old(proxied) && initialized == old(initialized)
      ensures Valid()
    {
      forall tv | tv in delivered
        ensures ProviderDelivers(tv.0, tv.1)
      {
        assert old(ProviderDelivers(tv.0, tv.1));
        if old(heap.Has(tv.1)) { assert heap.objects[tv.1.obj] == old(heap.objects[tv.1.obj]); }
      }
      forall tv | tv in proxied
        ensures heap.objects[tv.1.obj].origin == ProxyOf(tv.0)
      {
        assert heap.objects[tv.1.obj] == old(heap.objects[tv.1.obj]);
      }
    }

    /** Allocates one object. */
    method NewObject(info: ObjInfo) returns (v: Value)
      requires Valid() && info.runtimeType in catalogue
      modifies this
      ensures Valid() && v == old(heap).Next() && heap == old(heap).Alloc(info)
      ensures providersMap == old(providersMap) && lockList == old(lockList) && proxies == old(proxies)
      ensures delivered == old(delivered) && proxied == old(proxied) && initialized == old(initialized)
    {
      v := heap.Next();
      heap := heap.Alloc(info);
      HeapGrowth();
    }

    /**
     * `GetDependency(type)`: an unregistered type fails unless it is an
     * `IProvider<X>`, for which a dynamic provider is registered first; a locked
     * type gets a new proxy; any other type is built by its provider. A
     * successful answer leaves the lock list as it was and is a legitimate
     * answer for the type; for an unlocked type it comes from the provider,
     * which is now wired.
     */
    method GetDependency(t: TypeId, fuel: nat) returns (r: Result<Value, Error>)
      requires Valid() && t in catalogue
      modifies this, proxies.Values
      decreases fuel, Unlocked(), 6
      ensures Valid() && Grows() && Untouched(old(Locked())) && old(lockList) <= lockList
      ensures t !in old(providersMap) && !IsAssignableToGenericType(catalogue, t, IPROVIDER_DEFINITION) ==>
                r == Failure(InvalidDependency(t)) && providersMap == old(providersMap)
      ensures r.Success? ==> lockList == old(lockList) && (t, r.value) in Resolved()
      ensures r.Success? && t in old(lockList) ==> (t, r.value) in proxied - old(proxied)
      ensures r.Success? && t !in old(lockList) ==> t in initialized && (t, r.value) in delivered
    {
      if t !in providersMap {
        if !IsAssignableToGenericType(catalogue, t, IPROVIDER_DEFINITION) {
          return Failure(InvalidDependency(t));
        }
        label Registering:
        var o := CreateDynamicProvider(t);
        ExtendsGrows@Registering();
        if o.Fail? {
          return Failure(o.error);
        }
      }
      if t in lockList {
        r := CreateProxy(t);
      } else {
        r := CreateDependency(t, fuel);
      }
    }

    /** `CreateProxy(type)`: a new proxy object with an unbound interceptor recorded
        under the type; a second proxy for the same type is refused by `proxies.Add`. */
    method CreateProxy(t: TypeId) returns (r: Result<Value, Error>)
      requires Valid() && t in catalogue
      modifies this
      ensures Valid() && Grows() && lockList == old(lockList) && providersMap == old(providersMap)
      ensures delivered == old(delivered) && initialized == old(initialized)
      ensures t in old(proxies) <==> r == Failure(ProxyAlreadyIssued(t))
      ensures r.Failure? ==> proxies == old(proxies) && proxied == old(proxied)
      ensures r.Success? ==> && r.value == old(heap).Next() && heap == old(heap).Alloc(ObjInfo(t, ProxyOf(t)))
                             && t in proxies && fresh(proxies[t]) && proxies[t].target == Null
                             && proxies == old(proxies)[t := proxies[t]] && proxied == old(proxied) + {(t, r.value)}
    {
      var interceptor := new ProxyInterceptor();
      var v := NewObject(ObjInfo(t, ProxyOf(t)));
      if t in proxies {
        return Failure(ProxyAlreadyIssued(t));
      }
      proxies := proxies[t := interceptor];
      proxied := proxied + {(t, v)};
      r := Success(v);
    }

    /** The implementation a dynamic provider for `IProvider<X>` builds: the
        `[ImplementedBy]` target of X, or X itself. */
    function DynamicImplementation(t: TypeId): (r: TypeId)
      requires Wf(catalogue) && t in catalogue && catalogue[t].genericArgs != []
      ensures r in catalogue && catalogue[t].genericArgs[0] in catalogue
      ensures var x := catalogue[t].genericArgs[0];
              && ((forall a | a in catalogue[x].attrs :: !a.ImplementedBy?) ==> r == x)
              && ((exists a | a in catalogue[x].attrs :: a.ImplementedBy?) ==> IsFirstOfKind(catalogue[x].attrs, ImplementedBy(r)))
    {
      assert TypeWf(catalogue, t);
      var x := catalogue[t].genericArgs[0];
      assert TypeWf(catalogue, x);
      match GetTypeAttribute(catalogue, x, ImplementedByKind)
      case Some(a) => a.implementedType
      case None => x
    }

    /** `CreateDynamicProvider(type, out provider)`: registers, under `IProvider<X>`,
        a dynamic provider of X built from the implementation's constructor. */
    method CreateDynamicProvider(t: TypeId) returns (r: Outcome<Error>)
      requires Valid() && t in catalogue && t !in providersMap
      modifies this`providersMap
      ensures Valid() && Extends()
      ensures catalogue[t].genericArgs == [] ==> r == Fail(MissingGenericArgument(t))
      ensures r.Pass? ==> && catalogue[t].genericArgs != []
                          && var impl := DynamicImplementation(t);
                             && GetDependencyTypes(catalogue, impl).Success?
                             && providersMap == old(providersMap)[t := Dynamic(catalogue[t].genericArgs[0], impl,
                                                                               GetDependencyTypes(catalogue, impl).value)]
      ensures r.Fail? ==> providersMap == old(providersMap)
    {
      if catalogue[t].genericArgs == [] {
        return Fail(MissingGenericArgument(t));
      }
      var x := catalogue[t].genericArgs[0];
      var impl := DynamicImplementation(t);
      var deps := GetDependencyTypes(catalogue, impl);
      if deps.Failure? {
        return Fail(deps.error);
      }
      providersMap := providersMap[t := Dynamic(x, impl, deps.value)];
      r := Pass;
      forall tv | tv in delivered
        ensures ProviderDelivers(tv.0, tv.1)
      {
        assert old(ProviderDelivers(tv.0, tv.1));
      }
    }

    /** `provider.Provide()` on the provider registered under `t`, with the changed
        record written back and the answer recorded. */
    method Provide(t: TypeId) returns (v: Value)
      requires Valid() && t in providersMap
      modifies this
      ensures Valid() && Grows() && lockList == old(lockList) && proxies == old(proxies)
      ensures var r := Providers.Provide(catalogue, old(providersMap[t]), t, old(heap));
              v == r.value && heap == r.heap && providersMap == old(providersMap)[t := r.after]
      ensures (t, v) in delivered && proxied == old(proxied) && initialized == old(initialized)
    {
      var p := providersMap[t];
      assert EntryOk(catalogue, t, p);
      var r := Providers.Provide(catalogue, p, t, heap);
      SetHeap(r.heap);
      v := r.value;
      Cache(t, r.after, v);
    }

    /** Replaces the heap by one that only has more objects, all of catalogue types. */
    method SetHeap(h: Heap)
      requires Valid() && heap.objects <= h.objects
      requires forall o | |heap.objects| <= o < |h.objects| :: h.objects[o].runtimeType in catalogue
      modifies this
      ensures Valid() && heap == h
      ensures providersMap == old(providersMap) && lockList == old(lockList) && proxies == old(proxies)
      ensures delivered == old(delivered) && proxied == old(proxied) && initialized == old(initialized)
    {
      heap := h;
      HeapGrowth();
    }

    /** Writes back a provider whose only change is a newly cached instance, and
        records `v` as its answer. */
    method Cache(t: TypeId, q: Provider, v: Value)
      requires Valid() && t in providersMap
      requires q == providersMap[t].(instance := q.instance)
      requires providersMap[t].instance != Null ==> q.instance == providersMap[t].instance
      requires Delivers(heap, t, q, v)
      modifies this
      ensures Valid() && Grows() && providersMap == old(providersMap)[t := q]
      ensures heap == old(heap) && lockList == old(lockList) && proxies == old(proxies)
      ensures delivered == old(delivered) + {(t, v)} && proxied == old(proxied) && initialized == old(initialized)
    {
      label Before:
      providersMap := providersMap[t := q];
      EntryEvolved@Before(t);
      delivered := delivered + {(t, v)};
    }

    /** Writing back a provider record that only evolved, with its flag as it
        was, keeps every recorded answer valid. */
    twostate lemma EntryEvolved(t: TypeId)
      requires old(Valid()) && t in old(providersMap) && t in providersMap
      requires heap == old(heap) && proxies == old(proxies)
      requires delivered == old(delivered) && proxied == old(proxied) && initialized == old(initialized)
      requires providersMap == old(providersMap)[t := providersMap[t]]
      requires Evolves(old(providersMap[t]), providersMap[t])
      requires providersMap[t].isInitialized == old(providersMap[t].isInitialized)
      ensures Valid() && Grows()
    {
      assert EntriesOk() by {
        assert old(EntryOk(catalogue, t, providersMap[t]));
      }
      forall tv | tv in delivered
        ensures tv.0 in providersMap && ProviderDelivers(tv.0, tv.1)
      {
        assert old(ProviderDelivers(tv.0, tv.1));
      }
    }

    /** `CreateDependency(type, provider)`: resolve the dependencies while the
        provider is not yet wired, provide, then wire the result the first time,
        and every time for a no-scope provider. */
    method CreateDependency(t: TypeId, fuel: nat) returns (r: Result<Value, Error>)
      requires Valid() && t in providersMap && t !in lockList
      modifies this, proxies.Values
      decreases fuel, Unlocked(), 5
      ensures Valid() && Grows() && Untouched(old(Locked())) && old(lockList) <= lockList
      ensures r.Success? ==> lockList == old(lockList) && t in initialized && (t, r.value) in delivered
      ensures r.Success? && !old(providersMap[t].isInitialized) ==> Wired(t)
      ensures r.Success? && old(providersMap[t].isInitialized) && old(providersMap[t].kind.IsSingletonProvider()) &&
              old(providersMap[t].instance) != Null ==>
                && r.value == old(providersMap[t].instance) && heap == old(heap)
                && providersMap == old(providersMap) && proxies == old(proxies)
    {
      if !providersMap[t].isInitialized {
        var o := PrepareInstantation(t, fuel);
        if o.Fail? {
          return Failure(o.error);
        }
      }
      r := ProvideAndWire(t, fuel);
    }

    /** The second half of `CreateDependency`: provide, then wire the result the
        first time, and every time for a no-scope provider; a wired singleton with
        an instance answers with it and nothing changes. */
    method ProvideAndWire(t: TypeId, fuel: nat) returns (r: Result<Value, Error>)
      requires Valid() && t in providersMap && t !in lockList
      modifies this, proxies.Values
      decreases fuel, Unlocked(), 4
      ensures Valid() && Grows() && Untouched(old(Locked())) && old(lockList) <= lockList
      ensures r.Success? ==> lockList == old(lockList) && t in initialized && (t, r.value) in delivered
      ensures old(providersMap[t].isInitialized) && old(providersMap[t].kind.IsSingletonProvider()) &&
              old(providersMap[t].instance) != Null ==>
                && r == Success(old(providersMap[t].instance)) && heap == old(heap)
                && providersMap == old(providersMap) && proxies == old(proxies)
      ensures r.Success? && r.value == Null ==>
                old(providersMap[t].isInitialized) && !old(providersMap[t].kind.IsNoScopeProvider())
      ensures r.Success? ==> providersMap[t].dependencies == old(providersMap[t].dependencies)
    {
      var v := Provide(t);
      if !providersMap[t].isInitialized || providersMap[t].kind.IsNoScopeProvider() {
        var o := InitializeAfterInstantiation(t, v, fuel);
        if o.Fail? {
          return Failure(o.error);
        }
      }
      r := Success(v);
    }

    /** `PrepareInstantation(type, provider)`: lock the type, resolve its
        dependencies, unlock it. */
    method PrepareInstantation(t: TypeId, fuel: nat) returns (r: Outcome<Error>)
      requires Valid() && t in providersMap && t !in lockList && t !in initialized
      modifies this, proxies.Values
      decreases fuel, Unlocked(), 4
      ensures Valid() && Grows() && Untouched(old(Locked()))
      ensures t in providersMap && t !in initialized && providersMap[t].instance == old(providersMap[t].instance)
      ensures r.Pass? ==> lockList == old(lockList) && Wired(t)
      ensures r.Fail? ==> old(lockList) + [t] <= lockList
    {
      lockList := lockList + [t];
      assert Locked() == old(Locked()) + {t};
      r := InitializeDependencies(t, fuel);
      if r.Fail? {
        return;
      }
      RemoveFirstOfAppended(old(lockList), t);
      lockList := RemoveFirst(lockList, t);
    }

    /** Every dependency slot holds an answer for its dependency type. */
    ghost predicate Wired(t: TypeId)
      reads this
      requires t in providersMap
    {
      var p := providersMap[t];
      |p.dependencies| == |p.dependencyTypes| &&
      forall i | 0 <= i < |p.dependencies| :: (p.dependencyTypes[i], p.dependencies[i]) in Resolved()
    }

    /** Every answer a request has received is an object or a factory, unless the
        type is served by a provider backed by a module method, which may return null. */
    lemma ResolvedIsNonNull(d: TypeId, v: Value)
      requires Valid() && (d, v) in Resolved()
      requires d in providersMap ==> !providersMap[d].kind.MethodProvider? && !providersMap[d].kind.SingletonMethodProvider?
      ensures v != Null
    {
      if (d, v) in delivered {
        assert ProviderDelivers(d, v);
      } else {
        assert (d, v) in proxied;
      }
    }

    /** A wired provider none of whose dependency types is served by a method-backed
        provider has every dependency slot filled. */
    lemma WiredDependenciesAreNonNull(t: TypeId)
      requires Valid() && t in providersMap && Wired(t)
      requires forall d | d in providersMap[t].dependencyTypes && d in providersMap ::
                 !providersMap[d].kind.MethodProvider? && !providersMap[d].kind.SingletonMethodProvider?
      ensures forall i | 0 <= i < |providersMap[t].dependencies| :: providersMap[t].dependencies[i] != Null
    {
      var p := providersMap[t];
      forall i | 0 <= i < |p.dependencies|
        ensures p.dependencies[i] != Null
      {
        assert p.dependencyTypes[i] in p.dependencyTypes;
        ResolvedIsNonNull(p.dependencyTypes[i], p.dependencies[i]);
      }
    }

    /** Asking the factory of a wired dynamic provider `n` times yields `n`
        distinct new instances, each constructed with every dependency non-null,
        when no dependency type is served by a method-backed provider. */
    lemma WiredDynamicProvisionsHaveDependencies(t: TypeId, n: nat)
      requires Valid() && t in providersMap && providersMap[t].kind.DynamicProvider? && Wired(t)
      requires IsCastable(catalogue, providersMap[t].implementedType, providersMap[t].providedType)
      requires forall d | d in providersMap[t].dependencyTypes && d in providersMap ::
                 !providersMap[d].kind.MethodProvider? && !providersMap[d].kind.SingletonMethodProvider?
      ensures var p := providersMap[t];
              var (vs, h') := ProvideTypedTimes(catalogue, p, heap, n);
              && (forall k, l | 0 <= k < l < n :: vs[k] != vs[l])
              && forall k, i | 0 <= k < n && 0 <= i < |p.dependencies| ::
                   h'.objects[vs[k].obj].origin == Constructed(p.dependencies) && p.dependencies[i] != Null
    {
      assert EntryOk(catalogue, t, providersMap[t]);
      WiredDependenciesAreNonNull(t);
      ProvideTypedYieldsDistinctInstances(catalogue, providersMap[t], heap, n);
    }

    /** `provider.Dependencies[i] = v`, allowed only while the provider is not wired. */
    method SetDependency(t: TypeId, i: nat, v: Value)
      requires Valid() && t in providersMap && t !in initialized && i < |providersMap[t].dependencies|
      modifies this
      ensures Valid() && Grows() && lockList == old(lockList) && proxies == old(proxies) && heap == old(heap)
      ensures providersMap == old(providersMap)[t := old(providersMap[t]).(dependencies := old(providersMap[t].dependencies)[i := v])]
      ensures delivered == old(delivered) && proxied == old(proxied) && initialized == old(initialized)
    {
      var p := providersMap[t];
      label Before:
      providersMap := providersMap[t := p.(dependencies := p.dependencies[i := v])];
      EntryEvolved@Before(t);
    }

    /** `InitializeDependencies(provider)`: slot i gets the answer for dependency
        type i, in index order; a failure stops the loop with the earlier slots
        filled and the later ones as they were. */
    method InitializeDependencies(t: TypeId, fuel: nat) returns (r: Outcome<Error>)
      requires Valid() && t in providersMap && t in lockList && t !in initialized
      modifies this, proxies.Values
      decreases fuel, Unlocked(), 8
      ensures Valid() && Grows() && old(lockList) <= lockList
      ensures Untouched(old(Locked()) - {t})
      ensures t in providersMap && t !in initialized && providersMap[t].instance == old(providersMap[t].instance)
      ensures r.Pass? ==> lockList == old(lockList) && Wired(t)
      ensures r.Fail? ==> exists i | 0 <= i < |providersMap[t].dependencies| ::
                            providersMap[t].dependencies[i..] == old(providersMap[t].dependencies[i..])
    {
      var i := 0;
      var n := |providersMap[t].dependencies|;
      while i < n
        invariant t in providersMap && 0 <= i <= n == |providersMap[t].dependencies|
        invariant Valid() && Grows() && Untouched(old(Locked()) - {t})
        invariant lockList == old(lockList) && t !in initialized
        invariant providersMap[t].instance == old(providersMap[t].instance)
        invariant providersMap[t].dependencies[i..] == old(providersMap[t].dependencies[i..])
        invariant forall j | 0 <= j < i :: (providersMap[t].dependencyTypes[j], providersMap[t].dependencies[j]) in Resolved()
      {
        r := ResolveSlot(t, i, fuel);
        if r.Fail? {
          return;
        }
        i := i + 1;
      }
      r := Pass;
    }

    /** One step of the loop: `provider.Dependencies[i] = GetDependency(provider.DependencyTypes[i])`. */
    method ResolveSlot(t: TypeId, i: nat, fuel: nat) returns (r: Outcome<Error>)
      requires Valid() && t in providersMap && t in lockList && t !in initialized
      requires i < |providersMap[t].dependencies|
      requires forall j | 0 <= j < i :: (providersMap[t].dependencyTypes[j], providersMap[t].dependencies[j]) in Resolved()
      modifies this, proxies.Values
      decreases fuel, Unlocked(), 7
      ensures Valid() && Grows() && old(lockList) <= lockList && Untouched(old(Locked()) - {t})
      ensures t in providersMap && t !in initialized && providersMap[t].instance == old(providersMap[t].instance)
      ensures r.Fail? ==> providersMap[t].dependencies == old(providersMap[t].dependencies)
      ensures r.Pass? ==> && lockList == old(lockList)
                          && providersMap[t].dependencies[i + 1..] == old(providersMap[t].dependencies[i + 1..])
                          && forall j | 0 <= j < i + 1 ::
                               (providersMap[t].dependencyTypes[j], providersMap[t].dependencies[j]) in Resolved()
    {
      var p := providersMap[t];
      assert EntryOk(catalogue, t, p);
      ghost var before := Resolved();
      var d := GetDependency(p.dependencyTypes[i], fuel);
      if d.Failure? {
        return Fail(d.error);
      }
      SetDependency(t, i, d.value);
      FilledSlot(p.dependencyTypes, p.dependencies, i, d.value, before, Resolved());
      r := Pass;
    }

    /** `provider.IsInitialized = true`. */
    method MarkInitialized(t: TypeId)
      requires Valid() && t in providersMap
      modifies this
      ensures Valid() && Grows() && lockList == old(lockList) && proxies == old(proxies) && heap == old(heap)
      ensures providersMap == old(providersMap)[t := old(providersMap[t]).(isInitialized := true)]
      ensures delivered == old(delivered) && proxied == old(proxied) && initialized == old(initialized) + {t}
    {
      providersMap := providersMap[t := providersMap[t].(isInitialized := true)];
      initialized := initialized + {t};
      forall tv | tv in delivered
        ensures ProviderDelivers(tv.0, tv.1)
      {
        assert old(ProviderDelivers(tv.0, tv.1));
      }
    }

    /** `InitializeAfterInstantiation(provider, dependency)`: mark the provider
        wired, inject the object's fields, bind a proxy issued for the provided type
        to the object, then call the hooks. */
    method InitializeAfterInstantiation(t: TypeId, v: Value, fuel: nat) returns (r: Outcome<Error>)
      requires Valid() && t in providersMap && t !in lockList
      modifies this, proxies.Values
      decreases fuel, Unlocked(), 3
      ensures Valid() && Grows() && Untouched(old(Locked())) && old(lockList) <= lockList
      ensures t in initialized && t in providersMap && providersMap[t].dependencies == old(providersMap[t].dependencies)
      ensures v == Null ==> r == Fail(NullReference)
      ensures r.Pass? ==> lockList == old(lockList)
      ensures r.Pass? && providersMap[t].providedType in proxies ==> proxies[providersMap[t].providedType].target == v
      ensures r.Pass? ==> exists e :: heap.events == e + HookEvents(catalogue, heap, hasObserver, v)
    {
      MarkInitialized(t);
      r := InitializeDependencyFields(v, fuel);
      if r.Fail? {
        return;
      }
      BindProxyAndBroadcast(t, v);
    }

    /** The end of `InitializeAfterInstantiation`: a proxy issued for the provided
        type now forwards to the object, then the hooks are called on it. */
    method BindProxyAndBroadcast(t: TypeId, v: Value)
      requires Valid() && t in providersMap
      modifies this, proxies.Values
      ensures Valid() && Grows() && lockList == old(lockList) && providersMap == old(providersMap)
      ensures initialized == old(initialized)
      ensures providersMap[t].providedType in proxies ==> proxies[providersMap[t].providedType].target == v
      ensures heap.events == old(heap.events) + HookEvents(catalogue, heap, hasObserver, v)
    {
      var pt := providersMap[t].providedType;
      if pt in proxies {
        proxies[pt].Initialize(v);
      }
      BroadcastDependencyInitialization(v);
    }

    /** `BroadcastDependencyInitialization(dependency)`. */
    method BroadcastDependencyInitialization(v: Value)
      requires Valid()
      modifies this
      ensures Valid() && heap == old(heap).(events := old(heap.events) + HookEvents(catalogue, old(heap), hasObserver, v))
      ensures providersMap == old(providersMap) && lockList == old(lockList) && proxies == old(proxies)
      ensures delivered == old(delivered) && proxied == old(proxied) && initialized == old(initialized)
    {
      var e := HookEvents(catalogue, heap, hasObserver, v);
      heap := heap.(events := heap.events + e);
      HeapGrowth();
    }

    /** `InitializeDependencyFields(dependency)`: resolve the `[Inject]` fields of
        the object's runtime type, then write them; `GetType()` on null fails. */
    method InitializeDependencyFields(v: Value, fuel: nat) returns (r: Outcome<Error>)
      requires Valid()
      modifies this, proxies.Values
      decreases fuel, Unlocked(), 2
      ensures Valid() && Grows() && Untouched(old(Locked())) && old(lockList) <= lockList
      ensures r.Pass? ==> lockList == old(lockList)
      ensures v == Null ==> r == Fail(NullReference)
    {
      if !heap.Has(v) {
        r := if v == Null then Fail(NullReference) else Pass;
        return;
      }
      var ty := heap.objects[v.obj].runtimeType;
      var vals := GetFieldDependencies(ty, fuel);
      if vals.Failure? {
        return Fail(vals.error);
      }
      SetFields(v.obj, InjectableFields(catalogue[ty].fields), vals.value);
      r := Pass;
    }

    /** `fieldInfo.SetValue(dependency, instance)` for each field, in order. */
    method SetFields(o: ObjId, fs: seq<FieldDecl>, vs: seq<Value>)
      requires Valid() && |fs| == |vs|
      modifies this
      ensures Valid() && heap == old(heap).(fieldValues := Assign(old(heap.fieldValues), o, fs, vs))
      ensures providersMap == old(providersMap) && lockList == old(lockList) && proxies == old(proxies)
      ensures delivered == old(delivered) && proxied == old(proxied) && initialized == old(initialized)
    {
      heap := heap.(fieldValues := Assign(heap.fieldValues, o, fs, vs));
      HeapGrowth();
    }

    /** `GetFieldDependencies(type)`: an answer for each `[Inject]` field, in order;
        a field of the type itself is refused. Field injection runs outside the
        lock, so each level of it spends one unit of fuel. */
    method GetFieldDependencies(ty: TypeId, fuel: nat) returns (r: Result<seq<Value>, Error>)
      requires Valid() && ty in catalogue
      modifies this, proxies.Values
      decreases fuel, Unlocked(), 1
      ensures Valid() && Grows() && Untouched(old(Locked())) && old(lockList) <= lockList
      ensures r.Success? ==>
                var fs := InjectableFields(catalogue[ty].fields);
                && lockList == old(lockList) && |r.value| == |fs|
                && (forall i | 0 <= i < |fs| :: fs[i].fieldType != ty && (fs[i].fieldType, r.value[i]) in Resolved())
      ensures (exists f | f in InjectableFields(catalogue[ty].fields) :: f.fieldType == ty) ==> r.Failure?
    {
      assert TypeWf(catalogue, ty);
      var fs := InjectableFields(catalogue[ty].fields);
      var vals: seq<Value> := [];
      for i := 0 to |fs|
        invariant Valid() && Grows() && Untouched(old(Locked()))
        invariant lockList == old(lockList) && |vals| == i
        invariant forall j | 0 <= j < i :: fs[j].fieldType != ty && (fs[j].fieldType, vals[j]) in Resolved()
      {
        if fs[i].fieldType == ty {
          return Failure(InjectToSelf(ty));
        }
        if fuel == 0 {
          return Failure(OutOfFuel);
        }
        var d := ResolveField(fs, ty, vals, fuel);
        if d.Failure? {
          return Failure(d.error);
        }
        vals := d.value;
      }
      r := Success(vals);
    }

    /** One step of the field loop: the answer for field `|vals|`, appended; the
        nested resolution gets one unit of fuel less. */
    method ResolveField(fs: seq<FieldDecl>, ty: TypeId, vals: seq<Value>, fuel: nat) returns (r: Result<seq<Value>, Error>)
      requires Valid() && fuel > 0 && |vals| < |fs| && fs[|vals|].fieldType != ty && fs[|vals|].fieldType in catalogue
      requires forall j | 0 <= j < |vals| :: fs[j].fieldType != ty && (fs[j].fieldType, vals[j]) in Resolved()
      modifies this, proxies.Values
      decreases fuel, Unlocked(), 0
      ensures Valid() && Grows() && Untouched(old(Locked())) && old(lockList) <= lockList
      ensures r.Success? ==> && lockList == old(lockList) && |r.value| == |vals| + 1 && r.value[..|vals|] == vals
                             && forall j | 0 <= j < |vals| + 1 :: fs[j].fieldType != ty && (fs[j].fieldType, r.value[j]) in Resolved()
    {
      ghost var before := Resolved();
      var d := GetDependency(fs[|vals|].fieldType, fuel - 1);
      if d.Failure? {
        return Failure(d.error);
      }
      AppendedSlot(fs, ty, vals, d.value, before, Resolved());
      r := Success(vals + [d.value]);
    }

    /** `RegisterProvider(bindedType, provider)`: one provider per type; a second
        one is refused with the existing provider left in place. */
    method RegisterProvider(t: TypeId, p: Provider) returns (r: Outcome<Error>)
      requires Valid() && EntryOk(catalogue, t, p) && p.Blank()
      modifies this`providersMap
      ensures Valid() && Extends()
      ensures t in old(providersMap) <==> r.Fail?
      ensures r.Fail? ==> && r.error == DuplicateBinding(t, p.providedType, old(providersMap[t].implementedType))
                          && providersMap == old(providersMap)
      ensures r.Pass? ==> providersMap == old(providersMap)[t := p]
    {
      if t in providersMap {
        return Fail(DuplicateBinding(t, p.providedType, providersMap[t].implementedType));
      }
      providersMap := providersMap[t := p];
      r := Pass;
      forall tv | tv in delivered
        ensures ProviderDelivers(tv.0, tv.1)
      {
        assert old(ProviderDelivers(tv.0, tv.1));
      }
    }

    /** `CreateProvider(binding)`: a NO_SCOPE binding becomes a no-scope provider of
        its implementation, any other scope a singleton provider carrying that scope
        and the binding's preset instance; a binding never given an implementation
        type fails on the null type. */
    method CreateProvider(b: BindingView) returns (r: Outcome<Error>)
      requires Valid() && b.typeToBind in catalogue && (b.bindedType.Some? ==> b.bindedType.value in catalogue)
      modifies this`providersMap
      ensures Valid() && Extends()
      ensures b.bindedType.None? ==> r == Fail(NullReference)
      ensures r.Fail? ==> providersMap == old(providersMap)
      ensures r.Pass? ==> b.typeToBind !in old(providersMap) && providersMap.Keys == old(providersMap.Keys) + {b.typeToBind}
      ensures r.Pass? ==> BindingProviderOf(catalogue, b).Some? &&
                          providersMap == old(providersMap)[b.typeToBind := BindingProviderOf(catalogue, b).value]
      ensures b.bindedType.Some? ==>
                var impl := b.bindedType.value;
                var deps := GetDependencyTypes(catalogue, impl);
                && (deps.Failure? ==> r == Fail(deps.error))
                && (deps.Success? && b.typeToBind in old(providersMap) ==>
                      r == Fail(DuplicateBinding(b.typeToBind, b.typeToBind, old(providersMap[b.typeToBind].implementedType))))
                && (deps.Success? && b.typeToBind !in old(providersMap) ==> r == Pass)
                && (r.Pass? && b.scope == NoScope ==>
                      providersMap == old(providersMap)[b.typeToBind := Providers.NoScope(b.typeToBind, impl, deps.value)])
                && (r.Pass? && b.scope != NoScope ==>
                      providersMap == old(providersMap)[b.typeToBind := Providers.Singleton(b.scope, b.typeToBind, impl, deps.value, b.bindedInstance)])
    {
      if b.bindedType.None? {
        return Fail(NullReference);
      }
      var impl := b.bindedType.value;
      var deps := GetDependencyTypes(catalogue, impl);
      if deps.Failure? {
        return Fail(deps.error);
      }
      if b.scope == NoScope {
        r := RegisterProvider(b.typeToBind, Providers.NoScope(b.typeToBind, impl, deps.value));
      } else {
        r := RegisterProvider(b.typeToBind, Providers.Singleton(b.scope, b.typeToBind, impl, deps.value, b.bindedInstance));
      }
    }

    /** `RegisterBindings(bindings)`: one provider per binding, in order, stopping at
        the first refusal; when all succeed, the bindings bound as many distinct
        types as there are bindings, none of them registered before, and each
        holds its binding's provider. */
    method RegisterBindings(bs: seq<BindingView>) returns (r: Outcome<Error>)
      requires Valid() && forall b | b in bs :: b.typeToBind in catalogue && (b.bindedType.Some? ==> b.bindedType.value in catalogue)
      modifies this`providersMap
      ensures Valid() && Extends()
      ensures r.Pass? ==> var bound := set b | b in bs :: b.typeToBind;
                          && providersMap.Keys == old(providersMap.Keys) + bound
                          && bound !! old(providersMap.Keys) && |bound| == |bs|
      ensures r.Pass? ==> BindingsRegistered(bs, |bs|)
    {
      ghost var keys := providersMap.Keys;
      for i := 0 to |bs|
        invariant Valid() && Extends()
        invariant providersMap.Keys == keys + BoundTypes(bs, i)
        invariant BoundTypes(bs, i) !! keys && |BoundTypes(bs, i)| == i
        invariant BindingsRegistered(bs, i)
      {
        assert bs[i] in bs;
        r := RegisterBinding(bs, i, keys);
        if r.Fail? {
          return;
        }
      }
      BoundTypesOfAll(bs);
      r := Pass;
    }

    /** One step of `RegisterBindings`: `CreateProvider` on binding `i`, which adds
        its type to the ones bound before it when it succeeds. */
    method RegisterBinding(bs: seq<BindingView>, i: nat, ghost keys: set<TypeId>) returns (r: Outcome<Error>)
      requires Valid() && i < |bs|
      requires bs[i].typeToBind in catalogue && (bs[i].bindedType.Some? ==> bs[i].bindedType.value in catalogue)
      requires providersMap.Keys == keys + BoundTypes(bs, i) && BoundTypes(bs, i) !! keys && |BoundTypes(bs, i)| == i
      requires forall b | b in bs :: b.bindedType.Some? ==> b.bindedType.value in catalogue
      requires BindingsRegistered(bs, i)
      modifies this`providersMap
      ensures Valid() && Extends()
      ensures r.Pass? ==> && providersMap.Keys == keys + BoundTypes(bs, i + 1)
                          && BoundTypes(bs, i + 1) !! keys && |BoundTypes(bs, i + 1)| == i + 1
                          && BindingsRegistered(bs, i + 1)
    {
      r := CreateProvider(bs[i]);
      if r.Pass? {
        BoundStep(bs, i, keys, old(providersMap.Keys), providersMap.Keys);
        BindingRegisteredStep(catalogue, old(providersMap), providersMap, bs, i);
      }
    }

    /** Each of the first `n` bindings holds its provider under its type. */
    ghost predicate BindingsRegistered(bs: seq<BindingView>, n: nat)
      reads this`providersMap
      requires Wf(catalogue) && n <= |bs| && forall b | b in bs :: b.bindedType.Some? ==> b.bindedType.value in catalogue
    {
      BindingsRegisteredIn(catalogue, providersMap, bs, n)
    }

    /** `CreateProvidersFromMethods(module)`: each `[Provides]` method of the module's
        type, in order, registered under its return type, as a method provider for
        NO_SCOPE and a method-backed singleton otherwise; when all succeed, the
        return types are distinct and new, and each holds its method's provider. */
    method CreateProvidersFromMethods(owner: ModuleId, moduleType: TypeId) returns (r: Outcome<Error>)
      requires Valid() && moduleType in catalogue
      modifies this`providersMap
      ensures Valid() && Extends()
      ensures r.Pass? ==>
                var ms := GetMethodsWithAttribute(catalogue, moduleType, ProvidesKind);
                var provided := set m | m in ms :: m.returnType;
                && providersMap.Keys == old(providersMap.Keys) + provided
                && provided !! old(providersMap.Keys) && |provided| == |ms|
                && forall m | m in ms :: providersMap[m.returnType] == MethodProviderOf(owner, m)
    {
      var ms := GetMethodsWithAttribute(catalogue, moduleType, ProvidesKind);
      ghost var keys := providersMap.Keys;
      ghost var ps := MethodProviders(owner, ms);
      for i := 0 to |ms|
        invariant Valid() && Extends()
        invariant MethodsRegistered(ms, ps, i, keys)
      {
        r := RegisterMethod(owner, moduleType, ms, ps, i, keys);
        if r.Fail? {
          return;
        }
      }
      ReturnTypesOfAll(ms);
      forall m | m in ms
        ensures providersMap[m.returnType] == MethodProviderOf(owner, m)
      {
        var j :| 0 <= j < |ms| && ms[j] == m;
      }
      r := Pass;
    }

    ghost predicate MethodsRegistered(ms: seq<MethodDecl>, ps: seq<Provider>, n: nat, keys: set<TypeId>)
      reads this`providersMap
      requires n <= |ms| == |ps|
    {
      MethodsRegisteredIn(providersMap, ms, ps, n, keys)
    }

    /** One step of `CreateProvidersFromMethods`: the provider of method `i`. */
    method RegisterMethod(owner: ModuleId, moduleType: TypeId, ms: seq<MethodDecl>, ghost ps: seq<Provider>, i: nat, ghost keys: set<TypeId>)
      returns (r: Outcome<Error>)
      requires Valid() && moduleType in catalogue && ms == GetMethodsWithAttribute(catalogue, moduleType, ProvidesKind)
      requires ps == MethodProviders(owner, ms) && i < |ms| && MethodsRegistered(ms, ps, i, keys)
      modifies this`providersMap
      ensures Valid() && Extends()
      ensures r.Pass? ==> MethodsRegistered(ms, ps, i + 1, keys)
    {
      var m := ms[i];
      var p := MethodProviderOf(owner, m);
      assert EntryOk(catalogue, m.returnType, p) && p.Blank() by {
        assert TypeWf(catalogue, moduleType) && m in ms;
        MethodProviderOfShape(owner, m);
      }
      r := RegisterProvider(m.returnType, p);
      if r.Pass? {
        MethodRegisteredStep(ms, ps, i, keys, old(providersMap), providersMap);
      }
    }

    /** `RegisterModule(module)`: the bindings its `Configure` made, then its
        `[Provides]` methods. */
    method RegisterModule(owner: ModuleId, moduleType: TypeId, bs: seq<BindingView>) returns (r: Outcome<Error>)
      requires Valid() && moduleType in catalogue
      requires forall b | b in bs :: b.typeToBind in catalogue && (b.bindedType.Some? ==> b.bindedType.value in catalogue)
      modifies this`providersMap
      ensures Valid() && Extends()
      ensures r.Pass? ==>
                providersMap.Keys == old(providersMap.Keys) + (set b | b in bs :: b.typeToBind) +
                                     set m | m in GetMethodsWithAttribute(catalogue, moduleType, ProvidesKind) :: m.returnType
      ensures r.Pass? ==> && (forall b | b in bs :: BindingProviderOf(catalogue, b) == Some(providersMap[b.typeToBind]))
                          && forall m | m in GetMethodsWithAttribute(catalogue, moduleType, ProvidesKind) ::
                               providersMap[m.returnType] == MethodProviderOf(owner, m)
    {
      r := RegisterBindings(bs);
      if r.Fail? {
        return;
      }
      label Bound:
      r := CreateProvidersFromMethods(owner, moduleType);
      if r.Pass? {
        forall b | b in bs
          ensures BindingProviderOf(catalogue, b) == Some(providersMap[b.typeToBind])
        {
          var j :| 0 <= j < |bs| && bs[j] == b;
          assert old@Bound(providersMap[b.typeToBind]) == providersMap[b.typeToBind];
        }
      }
    }

    /** `AttemptRegisterBinding(type)`: a type marked `[ImplementedBy(B)]` is bound to
        B, which must list the type among its interfaces, as a singleton when B is
        marked `[Singleton]` and as a no-scope provider otherwise. */
    method AttemptRegisterBinding(t: TypeId) returns (r: Result<bool, Error>)
      requires Valid() && t in catalogue
      modifies this`providersMap
      ensures Valid() && Extends()
      ensures GetTypeAttribute(catalogue, t, ImplementedByKind).None? ==> r == Success(false)
      ensures r != Success(true) ==> providersMap == old(providersMap)
      ensures GetTypeAttribute(catalogue, t, ImplementedByKind).Some? ==>
                var impl := GetTypeAttribute(catalogue, t, ImplementedByKind).value.implementedType;
                impl in catalogue &&
                var deps := GetDependencyTypes(catalogue, impl);
                && (!Implements(catalogue, impl, t) ==> r == Failure(InvalidImplementedBy(t, impl)))
                && (Implements(catalogue, impl, t) && deps.Failure? ==> r == Failure(deps.error))
                && (Implements(catalogue, impl, t) && deps.Success? ==>
                      && (t in old(providersMap) ==> r == Failure(DuplicateBinding(t, t, old(providersMap[t].implementedType))))
                      && (t !in old(providersMap) ==>
                            r == Success(true) && providersMap == old(providersMap)[t := ImplementedByProvider(catalogue, t, impl, deps.value)]))
    {
      assert TypeWf(catalogue, t);
      var implementedBy := GetTypeAttribute(catalogue, t, ImplementedByKind);
      if implementedBy.None? {
        return Success(false);
      }
      var impl := implementedBy.value.implementedType;
      if !Implements(catalogue, impl, t) {
        return Failure(InvalidImplementedBy(t, impl));
      }
      var deps := GetDependencyTypes(catalogue, impl);
      if deps.Failure? {
        return Failure(deps.error);
      }
      var o := RegisterProvider(t, ImplementedByProvider(catalogue, t, impl, deps.value));
      if o.Fail? {
        return Failure(o.error);
      }
      r := Success(true);
    }

    /** `AttemptRegisterSingleton(type)`: a type marked `[Singleton]`, none of whose
        interfaces is marked `[ImplementedBy]`, is bound to itself as a singleton
        with the marker's scope. */
    method AttemptRegisterSingleton(t: TypeId) returns (r: Result<bool, Error>)
      requires Valid() && t in catalogue
      modifies this`providersMap
      ensures Valid() && Extends()
      ensures r != Success(true) ==> providersMap == old(providersMap)
      ensures HasImplementedByInterface(catalogue, t) || GetTypeAttribute(catalogue, t, SingletonKind).None? ==> r == Success(false)
      ensures !HasImplementedByInterface(catalogue, t) && GetTypeAttribute(catalogue, t, SingletonKind).Some? ==>
                var scope := GetTypeAttribute(catalogue, t, SingletonKind).value.marker.scope;
                var deps := GetDependencyTypes(catalogue, t);
                && (deps.Failure? ==> r == Failure(deps.error))
                && (deps.Success? && t in old(providersMap) ==> r == Failure(DuplicateBinding(t, t, old(providersMap[t].implementedType))))
                && (deps.Success? && t !in old(providersMap) ==>
                      r == Success(true) && providersMap == old(providersMap)[t := SingletonSelf(scope, t, deps.value)])
    {
      var singletonAttribute := GetTypeAttribute(catalogue, t, SingletonKind);
      if HasImplementedByInterface(catalogue, t) || singletonAttribute.None? {
        return Success(false);
      }
      var deps := GetDependencyTypes(catalogue, t);
      if deps.Failure? {
        return Failure(deps.error);
      }
      var o := RegisterProvider(t, SingletonSelf(singletonAttribute.value.marker.scope, t, deps.value));
      if o.Fail? {
        return Failure(o.error);
      }
      r := Success(true);
    }

    /** `AttemptRegisterDependency(type)`: the `[ImplementedBy]` rule first, the
        `[Singleton]` rule only when it does not apply; the answer says whether a
        provider was registered. */
    method AttemptRegisterDependency(t: TypeId) returns (r: Result<bool, Error>)
      requires Valid() && t in catalogue
      modifies this`providersMap
      ensures Valid() && Extends()
      ensures r.Success? ==> r.value == Discoverable(catalogue, t)
      ensures r == Success(true) ==> t !in old(providersMap) && providersMap.Keys == old(providersMap.Keys) + {t}
      ensures r != Success(true) ==> providersMap == old(providersMap)
      ensures Discoverable(catalogue, t) && t in old(providersMap) ==> r.Failure?
    {
      r := AttemptRegisterBinding(t);
      if r != Success(false) {
        return;
      }
      r := AttemptRegisterSingleton(t);
    }

    /** One step of `RegisterJustInTimeDependencies`: discovery over `types[i]`. */
    method RegisterDiscovered(types: seq<TypeId>, ghost flags: seq<bool>, i: nat, ghost keys: set<TypeId>) returns (r: Outcome<Error>)
      requires Valid() && i < |types| && forall t | t in types :: t in catalogue
      requires flags == DiscoverableFlags(catalogue, types)
      requires providersMap.Keys == keys + Chosen(types, flags, i)
      modifies this`providersMap
      ensures Valid() && Extends()
      ensures r.Pass? ==> providersMap.Keys == keys + Chosen(types, flags, i + 1)
    {
      assert types[i] in types;
      var a := AttemptRegisterDependency(types[i]);
      if a.Failure? {
        return Fail(a.error);
      }
      r := Pass;
    }

    /** `RegisterJustInTimeDependencies(types)`: discovery over each type in order,
        stopping at the first failure; when all succeed, exactly the discoverable
        types have been added. */
    method RegisterJustInTimeDependencies(types: seq<TypeId>) returns (r: Outcome<Error>)
      requires Valid() && forall t | t in types :: t in catalogue
      modifies this`providersMap
      ensures Valid() && Extends()
      ensures r.Pass? ==> providersMap.Keys == old(providersMap.Keys) + (set t | t in types && Discoverable(catalogue, t))
    {
      ghost var flags := DiscoverableFlags(catalogue, types);
      ghost var keys := providersMap.Keys;
      for i := 0 to |types|
        invariant Valid() && Extends()
        invariant providersMap.Keys == keys + Chosen(types, flags, i)
      {
        r := RegisterDiscovered(types, flags, i, keys);
        if r.Fail? {
          return;
        }
      }
      DiscoveredOfAll(catalogue, types);
      r := Pass;
    }

    /** The registered singletons whose scope is EAGER_SINGLETON. */
    function EagerKeys(): set<TypeId>
      reads this`providersMap
    {
      set t | t in providersMap && providersMap[t].kind.IsSingletonProvider() && providersMap[t].kind.scope == EagerSingleton
    }

    /** `InstantiateEagerSingletons()`: every eager singleton registered at the start
        is resolved, in no particular order, through its provided type; when all
        succeed each of them that is not under construction is wired and holds its
        instance. */
    method InstantiateEagerSingletons(fuel: nat) returns (r: Outcome<Error>)
      requires Valid()
      modifies this, proxies.Values
      ensures Valid() && Grows() && old(lockList) <= lockList
      ensures r.Pass? ==> lockList == old(lockList) && Instantiated(old(EagerKeys()))
    {
      var keys := EagerKeys();
      ghost var eager := keys;
      ghost var done: set<TypeId> := {};
      while keys != {}
        invariant Valid() && Grows() && lockList == old(lockList)
        invariant keys + done == eager
        invariant Instantiated(done)
        decreases keys
      {
        var t :| t in keys;
        r := InstantiateEagerSingleton(t, fuel, done);
        if r.Fail? {
          return;
        }
        keys := keys - {t};
        done := done + {t};
      }
      r := Pass;
    }

    /** Each type of `ks` that is not under construction is wired and holds its
        instance; only a method-backed singleton whose method returned null holds none. */
    ghost predicate Instantiated(ks: set<TypeId>)
      reads this`lockList, this`initialized, this`providersMap
    {
      forall t | t in ks && t !in lockList ::
        && t in initialized && t in providersMap
        && (providersMap[t].instance != Null || providersMap[t].kind.SingletonMethodProvider?)
    }

    /** What was instantiated stays so while the run goes on. */
    twostate lemma InstantiatedKept(ks: set<TypeId>)
      requires old(Instantiated(ks)) && Grows() && lockList == old(lockList)
      ensures Instantiated(ks)
    {
      forall t | t in ks && t !in lockList
        ensures && t in initialized && t in providersMap
                && (providersMap[t].instance != Null || providersMap[t].kind.SingletonMethodProvider?)
      {
        assert Evolves(old(providersMap[t]), providersMap[t]);
      }
    }

    /** Among registered types, growth changes no provider's kind, so not which are eager. */
    twostate lemma EagerKeysKept(ks: set<TypeId>)
      requires Grows() && ks <= old(providersMap.Keys)
      ensures EagerKeys() * ks == old(EagerKeys()) * ks
    {
      forall t | t in ks
        ensures t in EagerKeys() <==> t in old(EagerKeys())
      {
        assert Evolves(old(providersMap[t]), providersMap[t]);
      }
    }

    /** The types of `types` that just-in-time discovery registers. */
    ghost function Discovered(types: seq<TypeId>): set<TypeId>
      requires Wf(catalogue) && forall t | t in types :: t in catalogue
    {
      set t | t in types && Discoverable(catalogue, t)
    }

    /** The types of all `assemblies` that just-in-time discovery registers. */
    ghost function DiscoveredAll(assemblies: seq<seq<TypeId>>): set<TypeId>
      requires Wf(catalogue) && forall a, t | a in assemblies && t in a :: t in catalogue
    {
      set a, t | a in assemblies && t in a && Discoverable(catalogue, t) :: t
    }

    /** One step of `InstantiateEagerSingletons`: `GetDependency(provider.ProvidedType)`
        on the singleton registered under `t`. */
    method InstantiateEagerSingleton(t: TypeId, fuel: nat, ghost done: set<TypeId>) returns (r: Outcome<Error>)
      requires Valid() && t in providersMap && providersMap[t].kind.IsSingletonProvider() && Instantiated(done)
      modifies this, proxies.Values
      ensures Valid() && Grows() && old(lockList) <= lockList
      ensures r.Pass? ==> lockList == old(lockList) && Instantiated(done + {t})
    {
      var p := providersMap[t];
      assert EntryOk(catalogue, t, p);
      var d := GetDependency(p.providedType, fuel);
      if d.Failure? {
        return Fail(d.error);
      }
      if t !in lockList {
        assert ProviderDelivers(t, d.value);
      }
      r := Pass;
    }

    /** One assembly of `InjectDependencies`: discovery over its types, then the
        eager singletons; when both succeed, every type registered by the end of
        discovery that is an eager singleton is instantiated. */
    method InjectAssembly(types: seq<TypeId>, fuel: nat) returns (r: Outcome<Error>)
      requires Valid() && forall t | t in types :: t in catalogue
      modifies this, proxies.Values
      ensures Valid() && Grows() && old(lockList) <= lockList
      ensures r.Pass? ==> && lockList == old(lockList)
                          && old(providersMap.Keys) + Discovered(types) <= providersMap.Keys
                          && Instantiated(EagerKeys() * (old(providersMap.Keys) + Discovered(types)))
    {
      label Registering:
      r := RegisterJustInTimeDependencies(types);
      ExtendsGrows@Registering();
      if r.Fail? {
        return;
      }
      label Registered:
      ghost var keys := providersMap.Keys;
      assert keys == old(providersMap.Keys) + Discovered(types);
      r := InstantiateEagerSingletons(fuel);
      if r.Pass? {
        EagerKeysKept@Registered(keys);
      }
    }

    /** `InjectDependencies(assemblies)` (and `Initialize`, which only calls it): for
        each assembly, discovery over its types, then the eager singletons; when all
        succeed, every discovered type is registered, and, once any assembly was
        processed, every eager singleton registered before or discovered is instantiated. */
    method InjectDependencies(assemblies: seq<seq<TypeId>>, fuel: nat) returns (r: Outcome<Error>)
      requires Valid() && forall a, t | a in assemblies && t in a :: t in catalogue
      modifies this, proxies.Values
      ensures Valid() && Grows() && old(lockList) <= lockList
      ensures r.Pass? ==> && lockList == old(lockList)
                          && old(providersMap.Keys) + DiscoveredAll(assemblies) <= providersMap.Keys
                          && (assemblies != [] ==>
                                Instantiated(EagerKeys() * (old(providersMap.Keys) + DiscoveredAll(assemblies))))
    {
      for i := 0 to |assemblies|
        invariant Valid() && Grows() && lockList == old(lockList)
        invariant old(providersMap.Keys) + DiscoveredAll(assemblies[..i]) <= providersMap.Keys
        invariant i > 0 ==> Instantiated(EagerKeys() * (old(providersMap.Keys) + DiscoveredAll(assemblies[..i])))
      {
        assert assemblies[i] in assemblies;
        DiscoveredStep(assemblies, i);
        r := InjectAssembly(assemblies[i], fuel);
        if r.Fail? {
          return;
        }
      }
      assert assemblies[..|assemblies|] == assemblies;
      r := Pass;
    }

    /** The discoveries of the first `i + 1` assemblies: those of the first `i`
        and those of assembly `i`. */
    lemma DiscoveredStep(assemblies: seq<seq<TypeId>>, i: nat)
      requires Wf(catalogue) && i < |assemblies| && forall a, t | a in assemblies && t in a :: t in catalogue
      ensures DiscoveredAll(assemblies[..i + 1]) == DiscoveredAll(assemblies[..i]) + Discovered(assemblies[i])
    {
      assert forall a | a in assemblies[..i + 1] :: a in assemblies[..i] || a == assemblies[i];
      assert assemblies[i] in assemblies[..i + 1];
      assert forall a | a in assemblies[..i] :: a in assemblies[..i + 1];
    }
  }

  /** In `pm`, the first `n` methods of `ms` are registered, method `j` under its
      return type with provider `ps[j]`, the return types are distinct and not in
      `keys`, and nothing else was added. */
  ghost predicate MethodsRegisteredIn(pm: map<TypeId, Provider>, ms: seq<MethodDecl>, ps: seq<Provider>, n: nat, keys: set<TypeId>)
    requires n <= |ms| == |ps|
  {
    && pm.Keys == keys + ReturnTypes(ms, n) && ReturnTypes(ms, n) !! keys && |ReturnTypes(ms, n)| == n
    && forall j | 0 <= j < n :: ms[j].returnType in pm && pm[ms[j].returnType] == ps[j]
  }

  /** Registering method `n` under a return type not yet used extends the registered prefix. */
  lemma MethodRegisteredStep(ms: seq<MethodDecl>, ps: seq<Provider>, n: nat, keys: set<TypeId>,
                             before: map<TypeId, Provider>, after: map<TypeId, Provider>)
    requires n < |ms| == |ps| && MethodsRegisteredIn(before, ms, ps, n, keys) && ms[n].returnType !in before
    requires after == before[ms[n].returnType := ps[n]]
    ensures MethodsRegisteredIn(after, ms, ps, n + 1, keys)
  {
    ReturnTypesStep(ms, n, keys, before.Keys);
    MethodEntriesStep(ms, ps, n, before, after);
  }

  /** One more method adds its return type to the registered return types. */
  lemma ReturnTypesStep(ms: seq<MethodDecl>, n: nat, keys: set<TypeId>, ks: set<TypeId>)
    requires n < |ms| && ks == keys + ReturnTypes(ms, n) && ReturnTypes(ms, n) !! keys && |ReturnTypes(ms, n)| == n
    requires ms[n].returnType !in ks
    ensures ks + {ms[n].returnType} == keys + ReturnTypes(ms, n + 1)
    ensures ReturnTypes(ms, n + 1) !! keys && |ReturnTypes(ms, n + 1)| == n + 1
  {
    assert ReturnTypes(ms, n + 1) == ReturnTypes(ms, n) + {ms[n].returnType};
  }

  /** Adding method `n`'s provider under a new type keeps the earlier methods' entries. */
  lemma MethodEntriesStep(ms: seq<MethodDecl>, ps: seq<Provider>, n: nat, before: map<TypeId, Provider>, after: map<TypeId, Provider>)
    requires n < |ms| == |ps| && ms[n].returnType !in before && after == before[ms[n].returnType := ps[n]]
    requires forall j | 0 <= j < n :: ms[j].returnType in before && before[ms[j].returnType] == ps[j]
    ensures forall j | 0 <= j < n + 1 :: ms[j].returnType in after && after[ms[j].returnType] == ps[j]
  {
    forall j | 0 <= j < n + 1
      ensures ms[j].returnType in after && after[ms[j].returnType] == ps[j]
    {
      if j < n {
        assert ms[j].returnType in before;
      }
    }
  }

  /** The providers of the `[Provides]` methods `ms`, in order. */
  function MethodProviders(owner: ModuleId, ms: seq<MethodDecl>): (ps: seq<Provider>)
    requires forall m | m in ms :: FirstOfKind(m.attrs, ProvidesKind).Some?
    ensures |ps| == |ms| && forall j | 0 <= j < |ms| :: ps[j] == MethodProviderOf(owner, ms[j])
  {
    seq(|ms|, j requires 0 <= j < |ms| => assert ms[j] in ms; MethodProviderOf(owner, ms[j]))
  }

  /** The provider a `[Provides]` method stands for: a method provider for
      NO_SCOPE, a method-backed singleton for any other scope. */
  function MethodProviderOf(owner: ModuleId, m: MethodDecl): Provider
    requires FirstOfKind(m.attrs, ProvidesKind).Some?
  {
    var scope := FirstOfKind(m.attrs, ProvidesKind).value.scope;
    if scope == NoScope then Method(owner, m, m.params) else SingletonMethod(scope, owner, m, m.params)
  }

  /** The provider of a `[Provides]` method is blank, takes the method's parameters
      as its dependencies and provides the return type, with the scope of the
      method's attribute deciding between the two variants. */
  lemma MethodProviderOfShape(owner: ModuleId, m: MethodDecl)
    requires FirstOfKind(m.attrs, ProvidesKind).Some?
    ensures var p := MethodProviderOf(owner, m);
            && p.Blank() && p.dependencyTypes == m.params && p.providedType == m.returnType
            && p.implementedType == m.returnType && p.instance == Null
            && var scope := FirstOfKind(m.attrs, ProvidesKind).value.scope;
               && (scope == NoScope ==> p.kind == MethodProvider(owner, m))
               && (scope != NoScope ==> p.kind == SingletonMethodProvider(scope, owner, m))
  {
  }

  /** The provider discovery binds an `[ImplementedBy(impl)]` type `t` to: a singleton
      with the scope of impl's `[Singleton]` marker, or a no-scope provider. */
  function ImplementedByProvider(c: Catalogue, t: TypeId, impl: TypeId, deps: seq<TypeId>): (p: Provider)
    requires Wf(c) && impl in c
    ensures p.Blank() && p.providedType == t && p.implementedType == impl && p.dependencyTypes == deps
    ensures GetTypeAttribute(c, impl, SingletonKind).None? <==> p.kind == NoScopeProvider
    ensures GetTypeAttribute(c, impl, SingletonKind).Some? ==>
              p.kind == SingletonProvider(GetTypeAttribute(c, impl, SingletonKind).value.marker.scope)
  {
    match GetTypeAttribute(c, impl, SingletonKind)
    case Some(a) => Providers.Singleton(a.marker.scope, t, impl, deps)
    case None => Providers.NoScope(t, impl, deps)
  }

  /** Whether some interface of `t` is marked `[ImplementedBy]`. */
  predicate HasImplementedByInterface(c: Catalogue, t: TypeId)
    requires Wf(c) && t in c
  {
    assert TypeWf(c, t);
    exists i | i in c[t].interfaces :: GetTypeAttribute(c, i, ImplementedByKind).Some?
  }

  /** The types just-in-time discovery registers: those marked `[ImplementedBy]`,
      and those marked `[Singleton]` with no interface marked `[ImplementedBy]`. */
  predicate Discoverable(c: Catalogue, t: TypeId)
    requires Wf(c) && t in c
  {
    GetTypeAttribute(c, t, ImplementedByKind).Some? ||
    (!HasImplementedByInterface(c, t) && GetTypeAttribute(c, t, SingletonKind).Some?)
  }

  /** The provider `CreateProvider` registers for a binding: a no-scope or a
      singleton provider of its implementation over that implementation's
      constructor parameters; none when the binding has no implementation or the
      implementation has no usable constructor. */
  function BindingProviderOf(c: Catalogue, b: BindingView): (r: Option<Provider>)
    requires Wf(c) && (b.bindedType.Some? ==> b.bindedType.value in c)
    ensures r.Some? <==> b.bindedType.Some? && GetDependencyTypes(c, b.bindedType.value).Success?
    ensures r.Some? ==> && r.value.providedType == b.typeToBind && r.value.implementedType == b.bindedType.value
                        && r.value.dependencyTypes == GetConstructor(c, b.bindedType.value).value.params
                        && r.value.Blank()
                        && (b.scope == NoScope ==> r.value.kind == NoScopeProvider)
                        && (b.scope != NoScope ==> r.value.kind == SingletonProvider(b.scope) && r.value.instance == b.bindedInstance)
  {
    if b.bindedType.None? then None
    else
      var deps := GetDependencyTypes(c, b.bindedType.value);
      if deps.Failure? then None
      else if b.scope == NoScope then Some(Providers.NoScope(b.typeToBind, b.bindedType.value, deps.value))
      else Some(Providers.Singleton(b.scope, b.typeToBind, b.bindedType.value, deps.value, b.bindedInstance))
  }

  /** In `pm`, each of the first `n` bindings holds its provider under its type. */
  predicate BindingsRegisteredIn(c: Catalogue, pm: map<TypeId, Provider>, bs: seq<BindingView>, n: nat)
    requires Wf(c) && n <= |bs| && forall b | b in bs :: b.bindedType.Some? ==> b.bindedType.value in c
  {
    forall j | 0 <= j < n :: bs[j].typeToBind in pm && BindingProviderOf(c, bs[j]) == Some(pm[bs[j].typeToBind])
  }

  /** Adding binding `n`'s provider, keeping every earlier entry, extends the prefix. */
  lemma BindingRegisteredStep(c: Catalogue, pm: map<TypeId, Provider>, pm': map<TypeId, Provider>, bs: seq<BindingView>, n: nat)
    requires Wf(c) && n < |bs| && forall b | b in bs :: b.bindedType.Some? ==> b.bindedType.value in c
    requires BindingsRegisteredIn(c, pm, bs, n)
    requires forall t | t in pm :: t in pm' && pm'[t] == pm[t]
    requires bs[n].typeToBind in pm' && BindingProviderOf(c, bs[n]) == Some(pm'[bs[n].typeToBind])
    ensures BindingsRegisteredIn(c, pm', bs, n + 1)
  {
  }

  /** The types bound by the first `n` bindings. */
  function BoundTypes(bs: seq<BindingView>, n: nat): set<TypeId>
    requires n <= |bs|
  {
    if n == 0 then {} else BoundTypes(bs, n - 1) + {bs[n - 1].typeToBind}
  }

  lemma {:induction false} BoundTypesMembers(bs: seq<BindingView>, n: nat)
    requires n <= |bs|
    ensures forall t :: t in BoundTypes(bs, n) <==> exists j | 0 <= j < n :: bs[j].typeToBind == t
  {
    if n > 0 {
      BoundTypesMembers(bs, n - 1);
    }
  }

  /** All the bindings together bind the types of `BoundTypes`. */
  lemma BoundTypesOfAll(bs: seq<BindingView>)
    ensures BoundTypes(bs, |bs|) == set b | b in bs :: b.typeToBind
  {
    BoundTypesMembers(bs, |bs|);
    forall t | t in BoundTypes(bs, |bs|) ensures t in set b | b in bs :: b.typeToBind {
      var j :| 0 <= j < |bs| && bs[j].typeToBind == t;
      assert bs[j] in bs;
    }
  }

  /** Binding a type not registered yet extends the bound prefix by one. */
  lemma BoundStep(bs: seq<BindingView>, i: nat, keys: set<TypeId>, before: set<TypeId>, after: set<TypeId>)
    requires i < |bs| && before == keys + BoundTypes(bs, i) && BoundTypes(bs, i) !! keys && |BoundTypes(bs, i)| == i
    requires bs[i].typeToBind !in before && after == before + {bs[i].typeToBind}
    ensures after == keys + BoundTypes(bs, i + 1) && BoundTypes(bs, i + 1) !! keys && |BoundTypes(bs, i + 1)| == i + 1
  {
    assert BoundTypes(bs, i + 1) == BoundTypes(bs, i) + {bs[i].typeToBind};
  }

  /** As many bound types as bindings means no two bindings share a type. */
  lemma {:induction false} DistinctBoundTypes(bs: seq<BindingView>, n: nat)
    requires n <= |bs| && |BoundTypes(bs, n)| == n
    ensures forall i, j | 0 <= j < i < n :: bs[j].typeToBind != bs[i].typeToBind
  {
    if n > 0 {
      BoundTypesMembers(bs, n - 1);
      assert |BoundTypes(bs, n - 1)| <= n - 1 by { BoundTypesSize(bs, n - 1); }
      assert bs[n - 1].typeToBind !in BoundTypes(bs, n - 1);
      DistinctBoundTypes(bs, n - 1);
    }
  }

  lemma {:induction false} BoundTypesSize(bs: seq<BindingView>, n: nat)
    requires n <= |bs|
    ensures |BoundTypes(bs, n)| <= n
  {
    if n > 0 {
      BoundTypesSize(bs, n - 1);
    }
  }

  /** The return types of the first `n` methods. */
  function ReturnTypes(ms: seq<MethodDecl>, n: nat): set<TypeId>
    requires n <= |ms|
  {
    if n == 0 then {} else ReturnTypes(ms, n - 1) + {ms[n - 1].returnType}
  }

  lemma {:induction false} ReturnTypesMembers(ms: seq<MethodDecl>, n: nat)
    requires n <= |ms|
    ensures forall t :: t in ReturnTypes(ms, n) <==> exists j | 0 <= j < n :: ms[j].returnType == t
  {
    if n > 0 {
      ReturnTypesMembers(ms, n - 1);
    }
  }

  lemma ReturnTypesOfAll(ms: seq<MethodDecl>)
    ensures ReturnTypes(ms, |ms|) == set m | m in ms :: m.returnType
  {
    ReturnTypesMembers(ms, |ms|);
    forall t | t in ReturnTypes(ms, |ms|) ensures t in set m | m in ms :: m.returnType {
      var j :| 0 <= j < |ms| && ms[j].returnType == t;
      assert ms[j] in ms;
    }
  }

  /** Which of `types` discovery registers, in order. */
  function DiscoverableFlags(c: Catalogue, types: seq<TypeId>): (flags: seq<bool>)
    requires Wf(c) && forall t | t in types :: t in c
    ensures |flags| == |types| && forall j | 0 <= j < |types| :: flags[j] == Discoverable(c, types[j])
  {
    seq(|types|, j requires 0 <= j < |types| => assert types[j] in types; Discoverable(c, types[j]))
  }

  /** Over all the types, the chosen ones are the discoverable ones. */
  lemma DiscoveredOfAll(c: Catalogue, types: seq<TypeId>)
    requires Wf(c) && forall t | t in types :: t in c
    ensures Chosen(types, DiscoverableFlags(c, types), |types|) == set t | t in types && Discoverable(c, t)
  {
    var flags := DiscoverableFlags(c, types);
    ChosenMembers(types, flags, |types|);
    forall t | t in types && Discoverable(c, t) ensures t in Chosen(types, flags, |types|) {
      var j :| 0 <= j < |types| && types[j] == t;
    }
  }


  /** Appending an answer for field `i` extends an answered prefix by one,
      as long as the recorded answers only grow. */
  lemma AppendedSlot(fs: seq<FieldDecl>, ty: TypeId, vals: seq<Value>, v: Value,
                     before: set<(TypeId, Value)>, after: set<(TypeId, Value)>)
    requires |vals| < |fs| && before <= after && (fs[|vals|].fieldType, v) in after && fs[|vals|].fieldType != ty
    requires forall j | 0 <= j < |vals| :: fs[j].fieldType != ty && (fs[j].fieldType, vals[j]) in before
    ensures forall j | 0 <= j < |vals| + 1 :: fs[j].fieldType != ty && (fs[j].fieldType, (vals + [v])[j]) in after
  {
  }

  /** Filling slot `i` with an answer for its type extends a filled prefix by one,
      as long as the recorded answers only grow. */
  lemma FilledSlot(types: seq<TypeId>, deps: seq<Value>, i: nat, v: Value,
                   before: set<(TypeId, Value)>, after: set<(TypeId, Value)>)
    requires i < |types| == |deps| && before <= after && (types[i], v) in after
    requires forall j | 0 <= j < i :: (types[j], deps[j]) in before
    ensures forall j | 0 <= j < i + 1 :: (types[j], deps[i := v][j]) in after
  {
  }
}
