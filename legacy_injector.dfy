/**
 * The two cycle-rejecting engines written against the `AbstractProvider` API:
 * DTools/Suice/suice/Injector.cs and the older cmn-tools/suice/suice/Injector.cs.
 * They share their structure line for line; `revision` selects the branches
 * where they differ (the cycle diagnostic, the duplicate-binding error, bindings
 * and `[Provides]` methods of an unhandled scope, a preset singleton instance,
 * and the attribute lookup of `ProvidedBy` discovery).
 *
 * Re-entering a type under construction is an error here, so there are no
 * proxies: every answer comes from a provider. A provider's dependencies are
 * resolved into a fresh array that replaces the old one as a whole, and its
 * post-construction wiring runs while its flag is down and, for the no-scope
 * variants, on every request.
 */
module LegacyInjector {
  import opened Wrappers
  import opened Catalogue
  import opened Markers
  import opened Values
  import opened Runtime
  import opened Errors
  import opened Reflection
  import opened Constructors
  import opened LegacyProviders
  import opened Lists
  import opened Bindings
  import SuiceInjector

  /** A registry entry the engine can work with: registered under its provided
      type, every type it names is in the catalogue, and only a provider proxy
      whose flag is up has a delegate. */
  ghost predicate EntryOk(c: Catalogue, t: TypeId, p: AbstractProvider) {
    && t in c && p.providedType == t
    && (p.implementedType.Some? ==> p.implementedType.value in c)
    && (p.kind.IsMethodConstructor() ==>
          p.kind.factory.returnType == t && forall d | d in p.kind.factory.params :: d in c)
    && (p.kind.ProviderProxy? ==> p.kind.providerType in c)
    && (p.delegate != Null ==> p.kind.ProviderProxy? && p.isInitialized)
  }

  /** How a registered provider may change: its kind and types are readonly, the
      flag only goes from false to true, the dependencies are frozen once it is
      up, and a set instance or delegate is never replaced. */
  predicate Evolves(p: AbstractProvider, q: AbstractProvider) {
    && q.kind == p.kind && q.providedType == p.providedType && q.implementedType == p.implementedType
    && (p.isInitialized ==> q.isInitialized && q.dependencies == p.dependencies)
    && (p.instance != Null ==> q.instance == p.instance)
    && (p.delegate != Null ==> q.delegate == p.delegate)
  }

  /** What provider `p` legitimately hands out: a construction of its
      implementation, whatever its module method or its delegate returned (null
      or an object), or its cached instance (for a SingletonMethodProvider, null
      when the method returned null). */
  predicate Delivers(h: Heap, p: AbstractProvider, v: Value) {
    match p.kind
    case NoScopeProvider =>
      h.Has(v) && h.objects[v.obj].runtimeType == ConstructedType(p) && h.objects[v.obj].origin.Constructed?
    case MethodProvider(_, _) => v == Null || h.Has(v)
    case ProviderProxy(_) => p.delegate != Null && (v == Null || h.Has(v))
    case SingletonProvider => v != Null && v == p.instance
    case SingletonMethodProvider(_, _) => v == Null || v == p.instance
  }

  /** An answer stays legitimate when the heap only grows and the provider only evolves. */
  lemma DeliversKept(h: Heap, h': Heap, p: AbstractProvider, q: AbstractProvider, v: Value)
    requires h.objects <= h'.objects && Evolves(p, q) && Delivers(h, p, v)
    ensures Delivers(h', q, v)
  {
    if h.Has(v) {
      assert h'.objects[v.obj] == h.objects[v.obj];
    }
  }

  /** What `InitializeDependencies` resolves for a provider that is not a proxy:
      the parameters of its module method, or those of the selected constructor
      of its implementation type; a provider never given an implementation type
      fails on the null type. */
  function DependencyTypes(c: Catalogue, p: AbstractProvider): (r: Result<seq<TypeId>, Error>)
    requires Wf(c) && !p.kind.ProviderProxy? && (p.implementedType.Some? ==> p.implementedType.value in c)
    ensures p.kind.IsMethodConstructor() ==> r == Success(p.kind.factory.params)
    ensures !p.kind.IsMethodConstructor() && p.implementedType.None? ==> r == Failure(NullReference)
    ensures !p.kind.IsMethodConstructor() && p.implementedType.Some? ==>
              && (r.Success? <==> GetConstructor(c, p.implementedType.value).Success?)
              && (r.Success? ==> r.value == GetConstructor(c, p.implementedType.value).value.params)
  {
    if p.kind.IsMethodConstructor() then Success(p.kind.factory.params)
    else if p.implementedType.None? then Failure(NullReference)
    else GetDependencyTypes(c, p.implementedType.value)
  }

  /** `(AbstractProvider) v` succeeds: null, or an object whose type is a provider class. */
  predicate IsProviderObject(c: Catalogue, h: Heap, v: Value)
    requires Wf(c) && forall o | 0 <= o < |h.objects| :: h.objects[o].runtimeType in c
  {
    v == Null ||
    (h.Has(v) && (h.objects[v.obj].runtimeType == ABSTRACT_PROVIDER ||
                  IsSubclassOf(c, h.objects[v.obj].runtimeType, ABSTRACT_PROVIDER)))
  }

  /** The front of the DTools cycle message: each locked type's `ToString()`
      followed by "->", accumulated from the first locked type to the last. */
  function CyclePath(c: Catalogue, ls: seq<TypeId>): string {
    if ls == [] then "" else CyclePath(c, ls[..|ls| - 1]) + Text(c, ls[|ls| - 1]) + "->"
  }

  /** The same text read the other way: the first locked type, "->", then the rest. */
  function Chain(c: Catalogue, ls: seq<TypeId>): string {
    if ls == [] then "" else Text(c, ls[0]) + "->" + Chain(c, ls[1..])
  }

  lemma {:induction false} ChainAppend(c: Catalogue, ls: seq<TypeId>, u: TypeId)
    ensures Chain(c, ls + [u]) == Chain(c, ls) + Text(c, u) + "->"
  {
    if ls != [] {
      assert (ls + [u])[1..] == ls[1..] + [u];
      ChainAppend(c, ls[1..], u);
    }
  }

  /** The accumulated message lists the locked types in lock order, each followed by "->". */
  lemma {:induction false} CyclePathIsChain(c: Catalogue, ls: seq<TypeId>)
    ensures CyclePath(c, ls) == Chain(c, ls)
  {
    if ls != [] {
      var init := ls[..|ls| - 1];
      CyclePathIsChain(c, init);
      ChainAppend(c, init, ls[|ls| - 1]);
      assert init + [ls[|ls| - 1]] == ls;
    }
  }

  class Injector {
    const catalogue: Catalogue
    const revision: Revision
    const hasObserver: bool   // whether `OnInitializeDependency` has a subscriber
    var heap: Heap
    var providersMap: map<TypeId, AbstractProvider>
    var lockList: seq<TypeId>   // circularDependencyLockedTypes (a List in DTools, a HashSet in cmn-tools)
    ghost var delivered: set<(TypeId, Value)>

    /** `new Injector()`, over a heap holding the objects user code made beforehand,
        with user code to answer the container's calls as `answers` says. */
    constructor (c: Catalogue, rev: Revision, preexisting: seq<TypeId>, answers: seq<Answer>, observer: bool)
      requires Wf(c) && forall t | t in preexisting :: t in c
      ensures Valid() && catalogue == c && revision == rev && hasObserver == observer
      ensures heap == InitialHeap(preexisting, answers) && providersMap == map[] && lockList == []
    {
      catalogue := c;
      revision := rev;
      hasObserver := observer;
      heap := InitialHeap(preexisting, answers);
      providersMap := map[];
      lockList := [];
      delivered := {};
    }

    ghost predicate Valid()
      reads this
    {
      Wf(catalogue) && HeapOk() && EntriesOk() && DeliveredOk()
    }

    ghost predicate HeapOk()
      reads this`heap
    {
      forall o | 0 <= o < |heap.objects| :: heap.objects[o].runtimeType in catalogue
    }

    ghost predicate EntriesOk()
      reads this`providersMap
    {
      forall t | t in providersMap :: EntryOk(catalogue, t, providersMap[t])
    }

    ghost predicate DeliveredOk()
      reads this`providersMap, this`heap, this`delivered
    {
      forall tv | tv in delivered :: tv.0 in providersMap && ProviderDelivers(tv.0, tv.1)
    }

    /** What the provider registered under `t` legitimately hands out. */
    ghost predicate ProviderDelivers(t: TypeId, v: Value)
      reads this`providersMap, this`heap
      requires t in providersMap
    {
      Delivers(heap, providersMap[t], v)
    }

    /** What holds between any two states of a run: the record of answers only
        grows and registered providers only evolve. */
    twostate predicate Grows()
      reads this`delivered, this`providersMap
    {
      && old(delivered) <= delivered
      && forall t | t in old(providersMap) :: t in providersMap && Evolves(old(providersMap[t]), providersMap[t])
    }

    /** What holds across registration: providers are only added. */
    twostate predicate Extends()
      reads this`providersMap
    {
      forall t | t in old(providersMap) :: t in providersMap && providersMap[t] == old(providersMap[t])
    }

    /** Adding providers, with nothing else changed, is growth. */
    twostate lemma ExtendsGrows()
      requires Extends() && delivered == old(delivered)
      ensures Grows()
    {
    }

    ghost function Locked(): set<TypeId>
      reads this`lockList
    {
      set u | u in lockList
    }

    /** The providers of `ks` are exactly as they were. */
    twostate predicate Untouched(ks: set<TypeId>)
      reads this`providersMap
    {
      forall t | t in ks && t in old(providersMap) :: t in providersMap && providersMap[t] == old(providersMap[t])
    }

    /** The types a resolution may still lock: the termination measure. */
    ghost function Unlocked(): set<TypeId>
      reads this`lockList
    {
      catalogue.Keys - Locked()
    }

    /** Allocation, forwarding, field writes and hook calls keep every recorded answer valid. */
    twostate lemma HeapGrowth()
      requires old(Valid()) && old(heap.objects) <= heap.objects
      requires forall o | |old(heap.objects)| <= o < |heap.objects| :: heap.objects[o].runtimeType in catalogue
      requires providersMap == old(providersMap) && delivered == old(delivered)
      ensures Valid()
    {
      forall tv | tv in delivered
        ensures ProviderDelivers(tv.0, tv.1)
      {
        assert old(ProviderDelivers(tv.0, tv.1));
        DeliversKept(old(heap), heap, providersMap[tv.0], providersMap[tv.0], tv.1);
      }
    }

    /** Replaces the heap by one that only has more objects, all of catalogue types. */
    method SetHeap(h: Heap)
      requires Valid() && heap.objects <= h.objects
      requires forall o | |heap.objects| <= o < |h.objects| :: h.objects[o].runtimeType in catalogue
      modifies this
      ensures Valid() && heap == h
      ensures providersMap == old(providersMap) && lockList == old(lockList) && delivered == old(delivered)
    {
      heap := h;
      HeapGrowth();
    }

    /** Writes back the record of the provider under `t` after it evolved. */
    method Store(t: TypeId, q: AbstractProvider)
      requires Valid() && t in providersMap && Evolves(providersMap[t], q) && EntryOk(catalogue, t, q)
      modifies this
      ensures Valid() && Grows() && providersMap == old(providersMap)[t := q]
      ensures heap == old(heap) && lockList == old(lockList) && delivered == old(delivered)
    {
      var p := providersMap[t];
      providersMap := providersMap[t := q];
      forall tv | tv in delivered
        ensures ProviderDelivers(tv.0, tv.1)
      {
        assert old(ProviderDelivers(tv.0, tv.1));
        if tv.0 == t {
          DeliversKept(heap, heap, p, q, tv.1);
        }
      }
    }

    /** `provider.Provide()` on the provider registered under `t`, with the changed
        record written back and the answer recorded; a provider proxy without a
        delegate fails on the null provider. */
    method Provide(t: TypeId) returns (r: Result<Value, Error>)
      requires Valid() && t in providersMap
      modifies this
      ensures Valid() && Grows() && lockList == old(lockList)
      ensures var o := LegacyProviders.Provide(catalogue, old(providersMap[t]), old(heap));
              && (o.Failure? ==> r == Failure(o.error) && heap == old(heap) && providersMap == old(providersMap))
              && (o.Success? ==> && r == Success(o.value.value) && heap == o.value.heap
                                 && providersMap == old(providersMap)[t := o.value.after]
                                 && (t, r.value) in delivered)
    {
      var p := providersMap[t];
      assert EntryOk(catalogue, t, p);
      var o := LegacyProviders.Provide(catalogue, p, heap);
      if o.Failure? {
        return Failure(o.error);
      }
      SetHeap(o.value.heap);
      Store(t, o.value.after);
      delivered := delivered + {(t, o.value.value)};
      r := Success(o.value.value);
    }

    /** `GetDependency(type)`: an unregistered type fails; a locked type fails with
        the revision's cycle error, DTools naming the whole lock chain; any other
        type is built by its provider. A successful answer leaves the lock list as
        it was and comes from the provider of the type, which is now wired. */
    method GetDependency(t: TypeId, fuel: nat) returns (r: Result<Value, Error>)
      requires Valid() && t in catalogue
      modifies this
      decreases fuel, Unlocked(), 6
      ensures Valid() && Grows() && Untouched(old(Locked())) && old(lockList) <= lockList
      ensures t !in old(providersMap) ==> r == Failure(InvalidDependency(t)) && heap == old(heap)
      ensures t in old(providersMap) && t in old(lockList) ==>
                && heap == old(heap) && providersMap == old(providersMap)
                && r == Failure(if revision.DTools?
                                then CircularDependency(CyclePath(catalogue, old(lockList)) + FullName(catalogue, t))
                                else CircularConstructorDependency(t))
      ensures r.Success? ==> && lockList == old(lockList) && t in providersMap && providersMap[t].isInitialized
                             && (t, r.value) in delivered
      ensures t in old(providersMap) && old(providersMap[t].isInitialized) && old(providersMap[t].kind.IsSingletonProvider()) &&
              old(providersMap[t].instance) != Null && t !in old(lockList) ==>
                r == Success(old(providersMap[t].instance)) && heap == old(heap) && providersMap == old(providersMap)
    {
      if t !in providersMap {
        return Failure(InvalidDependency(t));
      }
      if t in lockList {
        if revision.DTools? {
          var path := GenerateCircularDependencyMapStr(t);
          return Failure(CircularDependency(path));
        }
        return Failure(CircularConstructorDependency(t));
      }
      r := CreateDependency(t, fuel);
    }

    /** `GenerateCircularDependencyMapStr(type)`: each locked type and "->", then
        the requested type's full name. */
    method GenerateCircularDependencyMapStr(t: TypeId) returns (s: string)
      ensures s == CyclePath(catalogue, lockList) + FullName(catalogue, t)
    {
      s := "";
      for i := 0 to |lockList|
        invariant s == CyclePath(catalogue, lockList[..i])
      {
        assert lockList[..i + 1][..i] == lockList[..i];
        s := s + Text(catalogue, lockList[i]) + "->";
      }
      assert lockList[..|lockList|] == lockList;
      s := s + FullName(catalogue, t);
    }

    /** The rest of `GetDependency` for a registered, unlocked type: prepare the
        provider while its flag is down, then provide and wire. */
    method CreateDependency(t: TypeId, fuel: nat) returns (r: Result<Value, Error>)
      requires Valid() && t in providersMap && t !in lockList
      modifies this
      decreases fuel, Unlocked(), 5
      ensures Valid() && Grows() && Untouched(old(Locked())) && old(lockList) <= lockList
      ensures r.Success? ==> && lockList == old(lockList) && t in providersMap && providersMap[t].isInitialized
                             && (t, r.value) in delivered
      ensures old(providersMap[t].isInitialized) && old(providersMap[t].kind.IsSingletonProvider()) &&
              old(providersMap[t].instance) != Null ==>
                r == Success(old(providersMap[t].instance)) && heap == old(heap) && providersMap == old(providersMap)
    {
      if !providersMap[t].isInitialized {
        var o := PrepareInstantation(t, fuel);
        if o.Fail? {
          return Failure(o.error);
        }
      }
      r := ProvideAndWire(t, fuel);
    }

    /** The end of `GetDependency`: `provider.Provide()`, then the wiring when the
        flag is down or the provider is a no-scope variant. A wired singleton with
        an instance answers with it and changes nothing; a wired provider of any
        other non-no-scope variant is not wired again. */
    method ProvideAndWire(t: TypeId, fuel: nat) returns (r: Result<Value, Error>)
      requires Valid() && t in providersMap && t !in lockList
      modifies this
      decreases fuel, Unlocked(), 4
      ensures Valid() && Grows() && Untouched(old(Locked())) && old(lockList) <= lockList
      ensures r.Success? ==> && lockList == old(lockList) && t in providersMap && providersMap[t].isInitialized
                             && (t, r.value) in delivered
      ensures old(providersMap[t].kind.ProviderProxy?) && old(providersMap[t].delegate) == Null ==>
                r == Failure(NullReference)
      ensures old(providersMap[t].isInitialized) && old(providersMap[t].kind.IsSingletonProvider()) &&
              old(providersMap[t].instance) != Null ==>
                r == Success(old(providersMap[t].instance)) && heap == old(heap) && providersMap == old(providersMap)
      ensures old(providersMap[t].isInitialized) && !old(providersMap[t].kind.IsNoScopeProvider()) ==>
                heap.fieldValues == old(heap.fieldValues) && heap.events == old(heap.events)
      ensures r.Success? && (!old(providersMap[t].isInitialized) || old(providersMap[t].kind.IsNoScopeProvider())) ==>
                exists e :: heap.events == e + HookEvents(catalogue, heap, hasObserver, r.value)
      ensures r.Success? && r.value == Null ==>
                old(providersMap[t].isInitialized) && !old(providersMap[t].kind.IsNoScopeProvider())
    {
      var o := Provide(t);
      if o.Failure? {
        return o;
      }
      if !providersMap[t].isInitialized || providersMap[t].kind.IsNoScopeProvider() {
        var w := InitializeAfterInstantiation(t, o.value, fuel);
        if w.Fail? {
          return Failure(w.error);
        }
      }
      r := o;
    }

    /** Dependencies are resolved, the singleton instance built and the provider
        proxy bound: for a provider proxy, its flag is up and its delegate is an
        answer for its provider type; for the other variants, the flag is still
        down and slot i holds an answer for dependency type i. */
    ghost predicate Prepared(t: TypeId)
      reads this`providersMap, this`delivered
      requires t in providersMap
    {
      var p := providersMap[t];
      Wf(catalogue) && EntryOk(catalogue, t, p) &&
      if p.kind.ProviderProxy? then p.isInitialized && (p.kind.providerType, p.delegate) in delivered
      else
        && !p.isInitialized && DependencyTypes(catalogue, p).Success?
        && var types := DependencyTypes(catalogue, p).value;
           |p.dependencies| == |types| && forall i | 0 <= i < |types| :: (types[i], p.dependencies[i]) in delivered
    }

    /** `PrepareInstantation(type, provider)`: lock the type, resolve its
        dependencies, build a SingletonProvider's instance, unlock it. A failure
        leaves the type locked, as the source has no `finally`. */
    method PrepareInstantation(t: TypeId, fuel: nat) returns (r: Outcome<Error>)
      requires Valid() && t in providersMap && t !in lockList && !providersMap[t].isInitialized
      modifies this
      decreases fuel, Unlocked(), 4
      ensures Valid() && Grows() && Untouched(old(Locked()))
      ensures r.Pass? ==> && lockList == old(lockList) && t in providersMap && Prepared(t)
                          && (providersMap[t].kind.SingletonProvider? ==> providersMap[t].instance != Null)
      ensures r.Fail? ==> old(lockList) + [t] <= lockList
    {
      lockList := lockList + [t];
      assert Locked() == old(Locked()) + {t};
      r := InitializeDependencies(t, fuel);
      if r.Fail? {
        return;
      }
      FinishInstantation(t, old(lockList));
    }

    /** The end of `PrepareInstantation`: build a SingletonProvider's instance and
        unlock the type. Only the provider under `t` changes. */
    method FinishInstantation(t: TypeId, ghost locked: seq<TypeId>)
      requires Valid() && t in providersMap && Prepared(t) && lockList == locked + [t] && t !in locked
      modifies this
      ensures Valid() && Grows() && lockList == locked && t in providersMap && Prepared(t)
      ensures Untouched(old(providersMap.Keys) - {t})
      ensures providersMap[t].kind.SingletonProvider? ==> providersMap[t].instance != Null
    {
      if providersMap[t].kind.IsSingletonProvider() {
        CreateSingletonInstance(t);
      }
      RemoveFirstOfAppended(locked, t);
      lockList := RemoveFirst(lockList, t);
    }

    /** `singletonProvider.CreateSingletonInstance()` on the provider under `t`. */
    method CreateSingletonInstance(t: TypeId)
      requires Valid() && t in providersMap && providersMap[t].kind.IsSingletonProvider()
      modifies this
      ensures Valid() && Grows() && lockList == old(lockList) && delivered == old(delivered)
      ensures var (q, h) := LegacyProviders.CreateSingletonInstance(old(providersMap[t]), old(heap));
              providersMap == old(providersMap)[t := q] && heap == h
      ensures old(Prepared(t)) ==> Prepared(t)
      ensures providersMap[t].kind.SingletonProvider? ==> providersMap[t].instance != Null
    {
      var p := providersMap[t];
      assert EntryOk(catalogue, t, p);
      var (q, h) := LegacyProviders.CreateSingletonInstance(p, heap);
      SetHeap(h);
      Store(t, q);
    }

    /** `InitializeDependencies(type, provider)`: a provider proxy gets its
        provider object; any other provider gets the answers for its method's or
        its constructor's parameters, in order, set as a whole. Until then the
        record is left as it was. */
    method InitializeDependencies(t: TypeId, fuel: nat) returns (r: Outcome<Error>)
      requires Valid() && t in providersMap && t in lockList && !providersMap[t].isInitialized
      modifies this
      decreases fuel, Unlocked(), 10
      ensures Valid() && Grows() && old(lockList) <= lockList && Untouched(old(Locked()) - {t})
      ensures t in providersMap && providersMap[t].instance == old(providersMap[t].instance)
      ensures r.Pass? ==> lockList == old(lockList) && Prepared(t)
      ensures r.Fail? ==> providersMap[t] == old(providersMap[t])
      ensures !old(providersMap[t].kind.ProviderProxy?) ==>
                var types := DependencyTypes(catalogue, old(providersMap[t]));
                && (types.Failure? ==> r == Fail(types.error))
                && (types.Success? && t in types.value ==> r.Fail?)
    {
      var p := providersMap[t];
      assert EntryOk(catalogue, t, p);
      if p.kind.ProviderProxy? {
        r := InitializeProviderProxy(t, fuel);
        return;
      }
      var self: TypeId;
      var params: seq<TypeId>;
      if p.kind.IsMethodConstructor() {
        self, params := t, GetMethodConstructor(p).params;
      } else if p.implementedType.None? {
        return Fail(NullReference);
      } else {
        var ps := GetDependencyTypes(catalogue, p.implementedType.value);
        if ps.Failure? {
          return Fail(ps.error);
        }
        self, params := p.providedType, ps.value;
      }
      var vals := GetMethodDependencies(self, params, fuel);
      if vals.Failure? {
        return Fail(vals.error);
      }
      Store(t, p.(dependencies := vals.value));
      r := Pass;
    }

    /** The provider-proxy branch of `InitializeDependencies`:
        `SetProviderInstance((AbstractProvider) GetDependency(ProviderType))`. The
        proxy is prepared only while its flag is down, so the call takes its
        first branch in both revisions. */
    method InitializeProviderProxy(t: TypeId, fuel: nat) returns (r: Outcome<Error>)
      requires Valid() && t in providersMap && t in lockList && !providersMap[t].isInitialized
      requires providersMap[t].kind.ProviderProxy?
      modifies this
      decreases fuel, Unlocked(), 9
      ensures Valid() && Grows() && old(lockList) <= lockList && Untouched(old(Locked()) - {t})
      ensures t in providersMap && providersMap[t].instance == old(providersMap[t].instance)
      ensures r.Pass? ==> lockList == old(lockList) && Prepared(t)
      ensures r.Fail? ==> providersMap[t] == old(providersMap[t])
    {
      var pt := providersMap[t].kind.providerType;
      assert EntryOk(catalogue, t, providersMap[t]);
      var d := GetDependency(pt, fuel);
      if d.Failure? {
        return Fail(d.error);
      }
      if !IsProviderObject(catalogue, heap, d.value) {
        return Fail(InvalidCast(pt));
      }
      var s := SetProviderInstance(revision, providersMap[t], d.value);
      Store(t, s.value);
      r := Pass;
    }

    /** `GetMethodDependencies(dependencyType, method)`: an answer for each
        parameter, left to right; a parameter of the type being built is refused
        before anything later is resolved. */
    method GetMethodDependencies(self: TypeId, params: seq<TypeId>, fuel: nat) returns (r: Result<seq<Value>, Error>)
      requires Valid() && forall d | d in params :: d in catalogue
      modifies this
      decreases fuel, Unlocked(), 8
      ensures Valid() && Grows() && Untouched(old(Locked())) && old(lockList) <= lockList
      ensures r.Success? ==> && lockList == old(lockList) && |r.value| == |params|
                             && forall i | 0 <= i < |params| :: params[i] != self && (params[i], r.value[i]) in delivered
      ensures self in params ==> r.Failure?
      ensures params != [] && params[0] == self ==> r == Failure(InjectToSelf(self)) && heap == old(heap)
    {
      var vals: seq<Value> := [];
      for i := 0 to |params|
        invariant Valid() && Grows() && Untouched(old(Locked()))
        invariant lockList == old(lockList) && |vals| == i
        invariant forall j | 0 <= j < i :: params[j] != self && (params[j], vals[j]) in delivered
        invariant i == 0 ==> heap == old(heap)
      {
        if params[i] == self {
          return Failure(InjectToSelf(self));
        }
        var d := ResolveParameter(self, params, vals, fuel);
        if d.Failure? {
          return d;
        }
        vals := d.value;
      }
      r := Success(vals);
    }

    /** One step of the parameter loop: `parameters[i] = GetDependency(parameterType)`. */
    method ResolveParameter(self: TypeId, params: seq<TypeId>, vals: seq<Value>, fuel: nat) returns (r: Result<seq<Value>, Error>)
      requires Valid() && |vals| < |params| && params[|vals|] != self && params[|vals|] in catalogue
      requires forall j | 0 <= j < |vals| :: params[j] != self && (params[j], vals[j]) in delivered
      modifies this
      decreases fuel, Unlocked(), 7
      ensures Valid() && Grows() && Untouched(old(Locked())) && old(lockList) <= lockList
      ensures r.Success? ==> && lockList == old(lockList) && |r.value| == |vals| + 1 && r.value[..|vals|] == vals
                             && forall j | 0 <= j < |vals| + 1 :: params[j] != self && (params[j], r.value[j]) in delivered
    {
      var d := GetDependency(params[|vals|], fuel);
      if d.Failure? {
        return Failure(d.error);
      }
      r := Success(vals + [d.value]);
    }

    /** `provider.IsInitialized = true`. */
    method MarkInitialized(t: TypeId)
      requires Valid() && t in providersMap
      modifies this
      ensures Valid() && Grows() && lockList == old(lockList) && heap == old(heap) && delivered == old(delivered)
      ensures providersMap == old(providersMap)[t := old(providersMap[t]).(isInitialized := true)]
    {
      assert EntryOk(catalogue, t, providersMap[t]);
      Store(t, providersMap[t].(isInitialized := true));
    }

    /** `InitializeAfterInstantiation(provider, dependency)`: raise the provider's
        flag, inject the object's fields, then call the hooks on it. (The cmn-tools
        revision raises the flag at the top of `InitializeDependencyFields`, which
        is the same point.) */
    method InitializeAfterInstantiation(t: TypeId, v: Value, fuel: nat) returns (r: Outcome<Error>)
      requires Valid() && t in providersMap && t !in lockList
      modifies this
      decreases fuel, Unlocked(), 3
      ensures Valid() && Grows() && Untouched(old(Locked())) && old(lockList) <= lockList
      ensures t in providersMap && providersMap[t].isInitialized
      ensures v == Null ==> r == Fail(NullReference)
      ensures r.Pass? ==> lockList == old(lockList) && exists e :: heap.events == e + HookEvents(catalogue, heap, hasObserver, v)
    {
      MarkInitialized(t);
      r := InitializeDependencyFields(v, fuel);
      if r.Fail? {
        return;
      }
      ghost var before := heap.events;
      BroadcastDependencyInitialization(v);
      assert heap.events == before + HookEvents(catalogue, heap, hasObserver, v);
    }

    /** `BroadcastDependencyInitialization(dependency)`. */
    method BroadcastDependencyInitialization(v: Value)
      requires Valid()
      modifies this
      ensures Valid() && heap == old(heap).(events := old(heap.events) + HookEvents(catalogue, old(heap), hasObserver, v))
      ensures providersMap == old(providersMap) && lockList == old(lockList) && delivered == old(delivered)
    {
      var e := HookEvents(catalogue, heap, hasObserver, v);
      heap := heap.(events := heap.events + e);
      HeapGrowth();
    }

    /** `InitializeDependencyFields(provider, dependency)`: resolve the `[Inject]`
        fields of the object's runtime type, then write them; `GetType()` on null fails. */
    method InitializeDependencyFields(v: Value, fuel: nat) returns (r: Outcome<Error>)
      requires Valid()
      modifies this
      decreases fuel, Unlocked(), 2
      ensures Valid() && Grows() && Untouched(old(Locked())) && old(lockList) <= lockList
      ensures r.Pass? ==> lockList == old(lockList)
      ensures v == Null ==> r == Fail(NullReference)
    {
      if !heap.Has(v) {
        r := if v == Null then Fail(NullReference) else Pass;
        return;
      }
      var ty := heap.objects[v.obj].runtimeType;
      var vals := GetFieldDependencies(ty, fuel);
      if vals.Failure? {
        return Fail(vals.error);
      }
      SetFields(v.obj, SuiceInjector.InjectableFields(catalogue[ty].fields), vals.value);
      r := Pass;
    }

    /** `fieldInfo.SetValue(dependency, instance)` for each field, in order. */
    method SetFields(o: ObjId, fs: seq<FieldDecl>, vs: seq<Value>)
      requires Valid() && |fs| == |vs|
      modifies this
      ensures Valid() && heap == old(heap).(fieldValues := Assign(old(heap.fieldValues), o, fs, vs))
      ensures providersMap == old(providersMap) && lockList == old(lockList) && delivered == old(delivered)
    {
      heap := heap.(fieldValues := Assign(heap.fieldValues, o, fs, vs));
      HeapGrowth();
    }

    /** `GetFieldDependencies(type)`: an answer for each `[Inject]` field, in order;
        a field of the type itself is refused. Field injection runs outside the
        lock, so each level of it spends one unit of fuel. */
    method GetFieldDependencies(ty: TypeId, fuel: nat) returns (r: Result<seq<Value>, Error>)
      requires Valid() && ty in catalogue
      modifies this
      decreases fuel, Unlocked(), 1
      ensures Valid() && Grows() && Untouched(old(Locked())) && old(lockList) <= lockList
      ensures r.Success? ==>
                var fs := SuiceInjector.InjectableFields(catalogue[ty].fields);
                && lockList == old(lockList) && |r.value| == |fs|
                && (forall i | 0 <= i < |fs| :: fs[i].fieldType != ty && (fs[i].fieldType, r.value[i]) in delivered)
      ensures (exists f | f in SuiceInjector.InjectableFields(catalogue[ty].fields) :: f.fieldType == ty) ==> r.Failure?
    {
      assert TypeWf(catalogue, ty);
      var fs := SuiceInjector.InjectableFields(catalogue[ty].fields);
      var vals: seq<Value> := [];
      for i := 0 to |fs|
        invariant Valid() && Grows() && Untouched(old(Locked()))
        invariant lockList == old(lockList) && |vals| == i
        invariant forall j | 0 <= j < i :: fs[j].fieldType != ty && (fs[j].fieldType, vals[j]) in delivered
      {
        if fs[i].fieldType == ty {
          return Failure(InjectToSelf(ty));
        }
        if fuel == 0 {
          return Failure(OutOfFuel);
        }
        var d := ResolveField(fs, ty, vals, fuel);
        if d.Failure? {
          return Failure(d.error);
        }
        vals := d.value;
      }
      r := Success(vals);
    }

    /** One step of the field loop: the answer for field `|vals|`, appended; the
        nested resolution gets one unit of fuel less. */
    method ResolveField(fs: seq<FieldDecl>, ty: TypeId, vals: seq<Value>, fuel: nat) returns (r: Result<seq<Value>, Error>)
      requires Valid() && fuel > 0 && |vals| < |fs| && fs[|vals|].fieldType != ty && fs[|vals|].fieldType in catalogue
      requires forall j | 0 <= j < |vals| :: fs[j].fieldType != ty && (fs[j].fieldType, vals[j]) in delivered
      modifies this
      decreases fuel, Unlocked(), 0
      ensures Valid() && Grows() && Untouched(old(Locked())) && old(lockList) <= lockList
      ensures r.Success? ==> && lockList == old(lockList) && |r.value| == |vals| + 1 && r.value[..|vals|] == vals
                             && forall j | 0 <= j < |vals| + 1 :: fs[j].fieldType != ty && (fs[j].fieldType, r.value[j]) in delivered
    {
      ghost var before := delivered;
      var d := GetDependency(fs[|vals|].fieldType, fuel - 1);
      if d.Failure? {
        return Failure(d.error);
      }
      SuiceInjector.AppendedSlot(fs, ty, vals, d.value, before, delivered);
      r := Success(vals + [d.value]);
    }

    /** `RegisterProvider(bindedType, provider)`: one provider per type. A second
        one is refused with the registered one left in place; cmn-tools names the
        new provider's type, DTools also the registered provider's implementation
        type, which fails on the null type when there is none. */
    method RegisterProvider(t: TypeId, p: AbstractProvider) returns (r: Outcome<Error>)
      requires Valid() && EntryOk(catalogue, t, p)
      modifies this`providersMap
      ensures Valid() && Extends()
      ensures t in old(providersMap) <==> r.Fail?
      ensures r.Pass? ==> providersMap == old(providersMap)[t := p]
      ensures r.Fail? ==> && providersMap == old(providersMap)
                          && (revision.Cmn? ==> r.error == BoundTwice(t, p.providedType))
                          && (revision.DTools? && old(providersMap[t].implementedType).None? ==> r.error == NullReference)
                          && (revision.DTools? && old(providersMap[t].implementedType).Some? ==>
                                r.error == DuplicateBinding(t, p.providedType, old(providersMap[t].implementedType.value)))
    {
      if t in providersMap {
        if revision.Cmn? {
          return Fail(BoundTwice(t, p.providedType));
        }
        if providersMap[t].implementedType.None? {
          return Fail(NullReference);
        }
        return Fail(DuplicateBinding(t, p.providedType, providersMap[t].implementedType.value));
      }
      providersMap := providersMap[t := p];
      r := Pass;
      forall tv | tv in delivered
        ensures ProviderDelivers(tv.0, tv.1)
      {
        assert old(ProviderDelivers(tv.0, tv.1));
      }
    }

    /** `CreateProvider(binding)`: the provider `BindingProvider` gives for the
        binding, registered under its bound type; a binding of a scope the engine
        does not handle is skipped by DTools and refused by cmn-tools. */
    method CreateProvider(b: BindingView) returns (r: Outcome<Error>)
      requires Valid() && b.typeToBind in catalogue && (b.bindedType.Some? ==> b.bindedType.value in catalogue)
      modifies this`providersMap
      ensures Valid() && Extends()
      ensures r.Fail? || BindingProvider(revision, b).None? ==> providersMap == old(providersMap)
      ensures BindingProvider(revision, b).None? ==>
                r == if revision.DTools? then Pass else Fail(UnhandledBindingScope(b.typeToBind, b.scope))
      ensures BindingProvider(revision, b).Some? ==>
                && (r.Pass? <==> b.typeToBind !in old(providersMap))
                && (r.Pass? ==> providersMap == old(providersMap)[b.typeToBind := BindingProvider(revision, b).value])
    {
      var t := b.typeToBind;
      if b.scope == Scope.NoScope {
        r := RegisterProvider(t, LegacyProviders.NoScope(t, b.bindedType));
      } else if b.scope == Scope.Singleton {
        var p := LegacyProviders.Singleton(t, b.bindedType);
        if b.bindedInstance != Null {
          p := SetInstance(p, heap, b.bindedInstance).0;
          if revision.Cmn? {
            p := p.(isInitialized := true);
          }
        }
        r := RegisterProvider(t, p);
      } else if revision.Cmn? {
        r := Fail(UnhandledBindingScope(t, b.scope));
      } else {
        r := Pass;
      }
    }

    /** `RegisterBindings(bindings)`: `CreateProvider` on each binding in order,
        stopping at the first refusal. When all succeed, every handled binding's
        type was new and holds that binding's provider, nothing else was added,
        and under cmn-tools every binding was handled. */
    method RegisterBindings(bs: seq<BindingView>) returns (r: Outcome<Error>)
      requires Valid() && forall b | b in bs :: b.typeToBind in catalogue && (b.bindedType.Some? ==> b.bindedType.value in catalogue)
      modifies this`providersMap
      ensures Valid() && Extends()
      ensures r.Pass? ==>
                var handled := set j | 0 <= j < |bs| && BindingProvider(revision, bs[j]).Some? :: bs[j].typeToBind;
                && providersMap.Keys == old(providersMap.Keys) + handled && handled !! old(providersMap.Keys)
                && (forall j | 0 <= j < |bs| && BindingProvider(revision, bs[j]).Some? ::
                      providersMap[bs[j].typeToBind] == BindingProvider(revision, bs[j]).value)
                && (revision.Cmn? ==> forall j | 0 <= j < |bs| :: BindingProvider(revision, bs[j]).Some?)
    {
      ghost var keys := providersMap.Keys;
      ghost var tys := seq(|bs|, j requires 0 <= j < |bs| => bs[j].typeToBind);
      ghost var ps := seq(|bs|, j requires 0 <= j < |bs| => BindingProvider(revision, bs[j]));
      ghost var flags := seq(|bs|, j requires 0 <= j < |bs| => ps[j].Some?);
      for i := 0 to |bs|
        invariant Valid() && Extends()
        invariant RegisteredIn(revision, providersMap, tys, ps, flags, i, keys)
      {
        assert bs[i] in bs;
        r := RegisterBinding(bs, tys, ps, flags, i, keys);
        if r.Fail? {
          return;
        }
      }
      BindingsRegistered(revision, providersMap, bs, tys, ps, flags, keys);
      r := Pass;
    }

    /** One step of `RegisterBindings`: `CreateProvider` on binding `i`. */
    method RegisterBinding(bs: seq<BindingView>, ghost tys: seq<TypeId>, ghost ps: seq<Option<AbstractProvider>>,
                           ghost flags: seq<bool>, i: nat, ghost keys: set<TypeId>) returns (r: Outcome<Error>)
      requires Valid() && i < |bs| == |tys| == |ps| == |flags| && Flagged(ps, flags)
      requires tys[i] == bs[i].typeToBind && ps[i] == BindingProvider(revision, bs[i])
      requires bs[i].typeToBind in catalogue && (bs[i].bindedType.Some? ==> bs[i].bindedType.value in catalogue)
      requires RegisteredIn(revision, providersMap, tys, ps, flags, i, keys)
      modifies this`providersMap
      ensures Valid() && Extends()
      ensures r.Pass? ==> RegisteredIn(revision, providersMap, tys, ps, flags, i + 1, keys)
    {
      r := CreateProvider(bs[i]);
      if r.Pass? {
        RegisteredStep(revision, old(providersMap), providersMap, tys, ps, flags, i, keys);
      }
    }

    /** `CreateProvidersFromMethods(module)`: each `[Provides]` method of the
        module's type, in order, registered under its return type as a method
        provider for NO_SCOPE and a singleton method provider for SINGLETON; a
        method of any other scope is skipped by DTools and refused by cmn-tools.
        When all succeed, each handled method's return type was new and holds
        its provider, and nothing else was added. */
    method CreateProvidersFromMethods(owner: ModuleId, moduleType: TypeId) returns (r: Outcome<Error>)
      requires Valid() && moduleType in catalogue
      modifies this`providersMap
      ensures Valid() && Extends()
      ensures r.Pass? ==>
                var ms := GetMethodsWithAttribute(catalogue, moduleType, ProvidesKind);
                var handled := set j | 0 <= j < |ms| && MethodProviderOf(owner, ms[j]).Some? :: ms[j].returnType;
                && providersMap.Keys == old(providersMap.Keys) + handled && handled !! old(providersMap.Keys)
                && (forall j | 0 <= j < |ms| && MethodProviderOf(owner, ms[j]).Some? ::
                      providersMap[ms[j].returnType] == MethodProviderOf(owner, ms[j]).value)
                && (revision.Cmn? ==> forall j | 0 <= j < |ms| :: MethodProviderOf(owner, ms[j]).Some?)
    {
      var ms := GetMethodsWithAttribute(catalogue, moduleType, ProvidesKind);
      ghost var keys := providersMap.Keys;
      ghost var tys := seq(|ms|, j requires 0 <= j < |ms| => ms[j].returnType);
      ghost var ps := seq(|ms|, j requires 0 <= j < |ms| => assert ms[j] in ms; MethodProviderOf(owner, ms[j]));
      ghost var flags := seq(|ms|, j requires 0 <= j < |ms| => ps[j].Some?);
      assert MethodTable(owner, moduleType, ms, tys, ps, flags) by {
        assert forall j | 0 <= j < |ms| :: ms[j] in ms;
      }
      r := RegisterMethods(owner, moduleType, ms, tys, ps, flags, keys);
      if r.Pass? {
        MethodsRegistered(revision, providersMap, owner, ms, tys, ps, flags, keys);
      }
    }

    /** `ms` are `[Provides]` methods of `moduleType`, `tys` their return types
        and `ps` their providers, with `flags` marking the methods that have one. */
    ghost predicate MethodTable(owner: ModuleId, moduleType: TypeId, ms: seq<MethodDecl>, tys: seq<TypeId>,
                                ps: seq<Option<AbstractProvider>>, flags: seq<bool>)
    {
      && moduleType in catalogue && |ms| == |tys| == |ps| == |flags| && Flagged(ps, flags)
      && (forall j | 0 <= j < |ms| :: ms[j] in catalogue[moduleType].methods && FirstOfKind(ms[j].attrs, ProvidesKind).Some?)
      && forall j | 0 <= j < |ms| :: tys[j] == ms[j].returnType && ps[j] == MethodProviderOf(owner, ms[j])
    }

    /** The loop of `CreateProvidersFromMethods`: each method in order, stopping at
        the first refusal. */
    method RegisterMethods(owner: ModuleId, moduleType: TypeId, ms: seq<MethodDecl>, ghost tys: seq<TypeId>,
                           ghost ps: seq<Option<AbstractProvider>>, ghost flags: seq<bool>, ghost keys: set<TypeId>)
      returns (r: Outcome<Error>)
      requires Valid() && MethodTable(owner, moduleType, ms, tys, ps, flags) && providersMap.Keys == keys
      modifies this`providersMap
      ensures Valid() && Extends()
      ensures r.Pass? ==> RegisteredIn(revision, providersMap, tys, ps, flags, |ms|, keys)
    {
      for i := 0 to |ms|
        invariant Valid() && Extends()
        invariant RegisteredIn(revision, providersMap, tys, ps, flags, i, keys)
      {
        r := RegisterMethod(owner, moduleType, ms, tys, ps, flags, i, keys);
        if r.Fail? {
          return;
        }
      }
      r := Pass;
    }

    /** One step of `CreateProvidersFromMethods`: the provider of method `i`. */
    method RegisterMethod(owner: ModuleId, moduleType: TypeId, ms: seq<MethodDecl>, ghost tys: seq<TypeId>,
                          ghost ps: seq<Option<AbstractProvider>>, ghost flags: seq<bool>, i: nat, ghost keys: set<TypeId>)
      returns (r: Outcome<Error>)
      requires Valid() && MethodTable(owner, moduleType, ms, tys, ps, flags) && i < |ms|
      requires RegisteredIn(revision, providersMap, tys, ps, flags, i, keys)
      modifies this`providersMap
      ensures Valid() && Extends()
      ensures r.Pass? ==> RegisteredIn(revision, providersMap, tys, ps, flags, i + 1, keys)
    {
      var m := ms[i];
      assert TypeWf(catalogue, moduleType) && m in catalogue[moduleType].methods;
      var scope := FirstOfKind(m.attrs, ProvidesKind).value.scope;
      if scope == Scope.NoScope {
        r := RegisterProvider(m.returnType, Method(owner, m));
      } else if scope == Scope.Singleton {
        r := RegisterProvider(m.returnType, SingletonMethod(owner, m));
      } else if revision.Cmn? {
        r := Fail(UnhandledProvidesScope(m.id, scope));
      } else {
        r := Pass;
      }
      if r.Pass? {
        RegisteredStep(revision, old(providersMap), providersMap, tys, ps, flags, i, keys);
      }
    }

    /** `RegisterModule(module)`: the bindings its `Configure` made, then its
        `[Provides]` methods. */
    method RegisterModule(owner: ModuleId, moduleType: TypeId, bs: seq<BindingView>) returns (r: Outcome<Error>)
      requires Valid() && moduleType in catalogue
      requires forall b | b in bs :: b.typeToBind in catalogue && (b.bindedType.Some? ==> b.bindedType.value in catalogue)
      modifies this`providersMap
      ensures Valid() && Extends()
      ensures r.Pass? ==>
                var ms := GetMethodsWithAttribute(catalogue, moduleType, ProvidesKind);
                providersMap.Keys == old(providersMap.Keys)
                  + (set j | 0 <= j < |bs| && BindingProvider(revision, bs[j]).Some? :: bs[j].typeToBind)
                  + (set j | 0 <= j < |ms| && MethodProviderOf(owner, ms[j]).Some? :: ms[j].returnType)
    ensures r.Pass? ==> forall j | 0 <= j < |bs| && BindingProvider(revision, bs[j]).Some? ::
                          bs[j].typeToBind in providersMap && providersMap[bs[j].typeToBind] == BindingProvider(revision, bs[j]).value
    ensures r.Pass? ==>
              var ms := GetMethodsWithAttribute(catalogue, moduleType, ProvidesKind);
              forall j | 0 <= j < |ms| && MethodProviderOf(owner, ms[j]).Some? ::
                ms[j].returnType in providersMap && providersMap[ms[j].returnType] == MethodProviderOf(owner, ms[j]).value
    {
      r := RegisterBindings(bs);
      if r.Fail? {
        return;
      }
      label Bound:
      r := CreateProvidersFromMethods(owner, moduleType);
      if r.Pass? {
        assert forall j | 0 <= j < |bs| && BindingProvider(revision, bs[j]).Some? ::
                 bs[j].typeToBind in old@Bound(providersMap);
      }
    }

    /** `AttemptRegisterBinding(type)`: a type marked `[ImplementedBy(B)]` is bound
        to B, which must list the type among its interfaces, as a singleton
        provider when B is marked `[Singleton]` and a no-scope provider otherwise. */
    method AttemptRegisterBinding(t: TypeId) returns (r: Result<bool, Error>)
      requires Valid() && t in catalogue
      modifies this`providersMap
      ensures Valid() && Extends()
      ensures r != Success(true) ==> providersMap == old(providersMap)
      ensures GetTypeAttribute(catalogue, t, ImplementedByKind).None? ==> r == Success(false)
      ensures GetTypeAttribute(catalogue, t, ImplementedByKind).Some? ==>
                var impl := GetTypeAttribute(catalogue, t, ImplementedByKind).value.implementedType;
                && (!Implements(catalogue, impl, t) ==> r == Failure(InvalidImplementedBy(t, impl)))
                && (Implements(catalogue, impl, t) ==> (r == Success(true) <==> t !in old(providersMap)) && r != Success(false))
                && (r == Success(true) ==> providersMap == old(providersMap)[t := BoundTo(catalogue, t, impl)])
    {
      assert TypeWf(catalogue, t);
      var implementedBy := GetTypeAttribute(catalogue, t, ImplementedByKind);
      if implementedBy.None? {
        return Success(false);
      }
      var impl := implementedBy.value.implementedType;
      if !Implements(catalogue, impl, t) {
        return Failure(InvalidImplementedBy(t, impl));
      }
      var o := RegisterProvider(t, BoundTo(catalogue, t, impl));
      if o.Fail? {
        return Failure(o.error);
      }
      r := Success(true);
    }

    /** `AttemptRegisterSingleton(type)`: a type marked `[Singleton]`, none of whose
        interfaces is marked `[ImplementedBy]`, is bound to itself as a singleton. */
    method AttemptRegisterSingleton(t: TypeId) returns (r: Result<bool, Error>)
      requires Valid() && t in catalogue
      modifies this`providersMap
      ensures Valid() && Extends()
      ensures r != Success(true) ==> providersMap == old(providersMap)
      ensures r == Success(false) <==>
                SuiceInjector.HasImplementedByInterface(catalogue, t) || GetTypeAttribute(catalogue, t, SingletonKind).None?
      ensures r.Failure? <==> r != Success(false) && t in old(providersMap)
      ensures r == Success(true) ==> providersMap == old(providersMap)[t := LegacyProviders.Singleton(t, Some(t))]
    {
      var singleton := GetTypeAttribute(catalogue, t, SingletonKind);
      if SuiceInjector.HasImplementedByInterface(catalogue, t) || singleton.None? {
        return Success(false);
      }
      var o := RegisterProvider(t, LegacyProviders.Singleton(t, Some(t)));
      if o.Fail? {
        return Failure(o.error);
      }
      r := Success(true);
    }

    /** `AttemptRegisterProvider(type)`: a type marked `[ProvidedBy(P)]` is bound to
        a provider proxy asking P, after P itself is bound as a singleton of its
        implementation, unless that implementation carries `[ImplementedBy]` or
        `[Singleton]` (searched with inheritance), in which case discovery binds P
        on its own. The implementation must be a provider class. */
    method AttemptRegisterProvider(t: TypeId) returns (r: Result<bool, Error>)
      requires Valid() && t in catalogue
      modifies this`providersMap
      ensures Valid() && Extends()
      ensures ProvidedByType(catalogue, t).None? ==> r == Success(false) && providersMap == old(providersMap)
      ensures ProvidedByType(catalogue, t).Some? ==>
                var pt := ProvidedByType(catalogue, t).value;
                var ipt := ImplementedProviderType(catalogue, pt);
                && r != Success(false)
                && (!IsSubclassOf(catalogue, ipt, ABSTRACT_PROVIDER) ==> r == Failure(InvalidProvidedBy(t)) && providersMap == old(providersMap))
                && (r == Success(true) ==>
                      && providersMap.Keys == old(providersMap.Keys) + ProvidedByKeys(revision, catalogue, t, pt)
                      && ProvidedByKeys(revision, catalogue, t, pt) !! old(providersMap.Keys)
                      && providersMap[t] == Proxy(t, pt)
                      && (RegistersProviderSingleton(revision, catalogue, pt) ==>
                            providersMap[pt] == LegacyProviders.Singleton(pt, Some(ipt))))
                && ((IsSubclassOf(catalogue, ipt, ABSTRACT_PROVIDER) && ProvidedByKeys(revision, catalogue, t, pt) !! old(providersMap.Keys) &&
                     (RegistersProviderSingleton(revision, catalogue, pt) ==> pt != t)) ==> r == Success(true))
    {
      var providedBy := ProvidedByType(catalogue, t);
      if providedBy.None? {
        return Success(false);
      }
      var pt := providedBy.value;
      var ipt := ImplementedProviderType(catalogue, pt);
      if !IsSubclassOf(catalogue, ipt, ABSTRACT_PROVIDER) {
        return Failure(InvalidProvidedBy(t));
      }
      r := RegisterProviderProxy(t, pt, ipt);
    }

    /** The registrations of `AttemptRegisterProvider` for `[ProvidedBy(pt)]` on `t`,
        with `ipt` the provider class: `pt` as a singleton of `ipt` unless `ipt`
        carries `[ImplementedBy]` or `[Singleton]`, then `t` as a provider proxy. */
    method RegisterProviderProxy(t: TypeId, pt: TypeId, ipt: TypeId) returns (r: Result<bool, Error>)
      requires Valid() && t in catalogue && pt in catalogue && ipt == ImplementedProviderType(catalogue, pt)
      modifies this`providersMap
      ensures Valid() && Extends() && r != Success(false)
      ensures r == Success(true) ==>
                && providersMap.Keys == old(providersMap.Keys) + ProvidedByKeys(revision, catalogue, t, pt)
                && ProvidedByKeys(revision, catalogue, t, pt) !! old(providersMap.Keys)
                && providersMap[t] == Proxy(t, pt)
                && (RegistersProviderSingleton(revision, catalogue, pt) ==>
                      providersMap[pt] == LegacyProviders.Singleton(pt, Some(ipt)))
      ensures (ProvidedByKeys(revision, catalogue, t, pt) !! old(providersMap.Keys) &&
               (RegistersProviderSingleton(revision, catalogue, pt) ==> pt != t)) ==> r == Success(true)
    {
      if TypeAttribute(revision, catalogue, ipt, ImplementedByKind, true).None? &&
         TypeAttribute(revision, catalogue, ipt, SingletonKind, true).None? {
        var o := RegisterProvider(pt, LegacyProviders.Singleton(pt, Some(ipt)));
        if o.Fail? {
          return Failure(o.error);
        }
      }
      var o := RegisterProvider(t, Proxy(t, pt));
      if o.Fail? {
        return Failure(o.error);
      }
      r := Success(true);
    }

    /** `AttemptRegisterDependency(type)`: the `[ImplementedBy]` rule, then the
        `[Singleton]` rule, then the `[ProvidedBy]` rule, each only when the ones
        before it do not apply. A successful answer says whether anything was
        registered: exactly the types `DiscoveredKeys` names, all of them new. */
    method AttemptRegisterDependency(t: TypeId) returns (r: Result<bool, Error>)
      requires Valid() && t in catalogue
      modifies this`providersMap
      ensures Valid() && Extends()
      ensures r.Success? ==> && (r.value <==> DiscoveredKeys(revision, catalogue, t) != {})
                             && providersMap.Keys == old(providersMap.Keys) + DiscoveredKeys(revision, catalogue, t)
                             && DiscoveredKeys(revision, catalogue, t) !! old(providersMap.Keys)
    {
      r := AttemptRegisterBinding(t);
      if r != Success(false) {
        return;
      }
      r := AttemptRegisterSingleton(t);
      if r != Success(false) {
        return;
      }
      r := AttemptRegisterProvider(t);
    }

    /** One step of `RegisterJustInTimeDependencies`: discovery over `types[i]`. */
    method RegisterDiscovered(types: seq<TypeId>, ghost found: seq<set<TypeId>>, i: nat, ghost keys: set<TypeId>) returns (r: Outcome<Error>)
      requires Valid() && i < |types| && forall t | t in types :: t in catalogue
      requires found == DiscoveredKeysOf(revision, catalogue, types)
      requires providersMap.Keys == keys + Union(found, i)
      modifies this`providersMap
      ensures Valid() && Extends()
      ensures r.Pass? ==> providersMap.Keys == keys + Union(found, i + 1)
    {
      assert types[i] in types;
      var a := AttemptRegisterDependency(types[i]);
      if a.Failure? {
        return Fail(a.error);
      }
      r := Pass;
    }

    /** `RegisterJustInTimeDependencies(types)`: discovery over each type in order,
        stopping at the first failure; when all succeed, exactly the types
        discovery names for them have been added. */
    method RegisterJustInTimeDependencies(types: seq<TypeId>) returns (r: Outcome<Error>)
      requires Valid() && forall t | t in types :: t in catalogue
      modifies this`providersMap
      ensures Valid() && Extends()
      ensures r.Pass? ==>
                providersMap.Keys == old(providersMap.Keys) + set t, u | t in types && u in DiscoveredKeys(revision, catalogue, t) :: u
    {
      ghost var found := DiscoveredKeysOf(revision, catalogue, types);
      ghost var keys := providersMap.Keys;
      for i := 0 to |types|
        invariant Valid() && Extends()
        invariant providersMap.Keys == keys + Union(found, i)
      {
        r := RegisterDiscovered(types, found, i, keys);
        if r.Fail? {
          return;
        }
      }
      DiscoveredOfAll(revision, catalogue, types);
      r := Pass;
    }

    /** The providers the eager pass resolves: those that are SingletonProviders
        and not SingletonMethodProviders. */
    function EagerKeys(): (ks: set<TypeId>)
      reads this`providersMap
      ensures forall t :: t in ks <==>
                t in providersMap && providersMap[t].kind.IsSingletonProvider() && !providersMap[t].kind.SingletonMethodProvider?
    {
      set t | t in providersMap && providersMap[t].kind.SingletonProvider?
    }

    /** Each type of `ks` is registered, wired and holds its instance. */
    ghost predicate Instantiated(ks: set<TypeId>)
      reads this`providersMap
    {
      forall t | t in ks :: t in providersMap && providersMap[t].isInitialized && providersMap[t].instance != Null
    }

    /** The eager pass of `InjectDependencies`: `GetDependency` on every key whose
        provider is a SingletonProvider, in no particular order; when all succeed
        each of them is wired and holds its instance. */
    method InstantiateEagerSingletons(fuel: nat) returns (r: Outcome<Error>)
      requires Valid()
      modifies this
      ensures Valid() && Grows() && old(lockList) <= lockList
      ensures r.Pass? ==> lockList == old(lockList) && Instantiated(old(EagerKeys()))
    {
      var keys := EagerKeys();
      ghost var eager := keys;
      ghost var done: set<TypeId> := {};
      while keys != {}
        invariant Valid() && Grows() && lockList == old(lockList)
        invariant keys + done == eager && keys <= providersMap.Keys
        invariant forall t | t in keys :: providersMap[t].kind.SingletonProvider?
        invariant Instantiated(done)
        decreases keys
      {
        var t :| t in keys;
        r := InstantiateEagerSingleton(t, fuel, done);
        if r.Fail? {
          return;
        }
        keys := keys - {t};
        done := done + {t};
      }
      r := Pass;
    }

    /** One step of the eager pass: `GetDependency(kvp.Key)`. */
    method InstantiateEagerSingleton(t: TypeId, fuel: nat, ghost done: set<TypeId>) returns (r: Outcome<Error>)
      requires Valid() && t in providersMap && providersMap[t].kind.SingletonProvider? && Instantiated(done)
      modifies this
      ensures Valid() && Grows() && old(lockList) <= lockList
      ensures r.Pass? ==> lockList == old(lockList) && Instantiated(done + {t})
    {
      assert EntryOk(catalogue, t, providersMap[t]);
      var d := GetDependency(t, fuel);
      if d.Failure? {
        return Fail(d.error);
      }
      r := Pass;
    }

    /** One assembly of `InjectDependencies`: discovery over its types, then the
        eager pass; when both succeed every discovered type is registered and every
        SingletonProvider registered before or discovered is wired and holds its
        instance. The cmn-tools `InjectDependencies` is this over the executing
        assembly. */
    method InjectAssembly(types: seq<TypeId>, fuel: nat) returns (r: Outcome<Error>)
      requires Valid() && forall t | t in types :: t in catalogue
      modifies this
      ensures Valid() && Grows() && old(lockList) <= lockList
      ensures r.Pass? ==> && lockList == old(lockList)
                          && old(providersMap.Keys) + DiscoveredTypes(revision, catalogue, types) <= providersMap.Keys
                          && Instantiated(EagerKeys() * (old(providersMap.Keys) + DiscoveredTypes(revision, catalogue, types)))
    {
      label Registering:
      r := RegisterJustInTimeDependencies(types);
      ExtendsGrows@Registering();
      if r.Fail? {
        return;
      }
      DiscoveredTypesAdded(revision, catalogue, types, old(providersMap.Keys), providersMap.Keys);
      ghost var keys := old(providersMap.Keys) + DiscoveredTypes(revision, catalogue, types);
      label Eager:
      r := InstantiateEagerSingletons(fuel);
      if r.Pass? {
        EagerDone@Eager(keys);
      }
    }

    /** Across the eager pass, a registered type whose provider is a SingletonProvider
        was one of the keys the pass resolved, and growth keeps it resolved. */
    twostate lemma EagerDone(ks: set<TypeId>)
      requires Grows() && Instantiated(old(EagerKeys())) && ks <= old(providersMap.Keys)
      ensures ks <= providersMap.Keys
      ensures Instantiated(EagerKeys() * ks)
    {
      forall t | t in EagerKeys() * ks
        ensures providersMap[t].isInitialized && providersMap[t].instance != Null
      {
        assert Evolves(old(providersMap[t]), providersMap[t]);
        assert t in old(EagerKeys());
      }
    }

    /** DTools' `InjectDependencies(assemblies)` (and `Initialize`, which only
        calls it): for each assembly, discovery over its types, then the eager pass;
        when all succeed every discovered type is registered, and, once any assembly
        was processed, every SingletonProvider registered before or discovered is
        wired and holds its instance. */
    method InjectDependencies(assemblies: seq<seq<TypeId>>, fuel: nat) returns (r: Outcome<Error>)
      requires Valid() && forall a, t | a in assemblies && t in a :: t in catalogue
      modifies this
      ensures Valid() && Grows() && old(lockList) <= lockList
      ensures r.Pass? ==> && lockList == old(lockList)
                          && old(providersMap.Keys) + DiscoveredAll(revision, catalogue, assemblies) <= providersMap.Keys
                          && (assemblies != [] ==>
                                Instantiated(EagerKeys() * (old(providersMap.Keys) + DiscoveredAll(revision, catalogue, assemblies))))
    {
      for i := 0 to |assemblies|
        invariant Valid() && Grows() && lockList == old(lockList)
        invariant old(providersMap.Keys) + DiscoveredAll(revision, catalogue, assemblies[..i]) <= providersMap.Keys
        invariant i > 0 ==> Instantiated(EagerKeys() * (old(providersMap.Keys) + DiscoveredAll(revision, catalogue, assemblies[..i])))
      {
        r := InjectNext(assemblies, i, fuel, old(providersMap.Keys));
        if r.Fail? {
          return;
        }
      }
      assert assemblies[..|assemblies|] == assemblies;
      r := Pass;
    }

    /** One step of `InjectDependencies`: assembly `i`. */
    method InjectNext(assemblies: seq<seq<TypeId>>, i: nat, fuel: nat, ghost before: set<TypeId>) returns (r: Outcome<Error>)
      requires Valid() && i < |assemblies| && forall a, t | a in assemblies && t in a :: t in catalogue
      requires before + DiscoveredAll(revision, catalogue, assemblies[..i]) <= providersMap.Keys
      modifies this
      ensures Valid() && Grows() && old(lockList) <= lockList
      ensures r.Pass? ==> && lockList == old(lockList)
                          && before + DiscoveredAll(revision, catalogue, assemblies[..i + 1]) <= providersMap.Keys
                          && Instantiated(EagerKeys() * (before + DiscoveredAll(revision, catalogue, assemblies[..i + 1])))
    {
      assert assemblies[i] in assemblies;
      DiscoveredAllStep(revision, catalogue, assemblies, i);
      ghost var keys := providersMap.Keys;
      r := InjectAssembly(assemblies[i], fuel);
      if r.Pass? {
        assert before + DiscoveredAll(revision, catalogue, assemblies[..i + 1]) <= keys + DiscoveredTypes(revision, catalogue, assemblies[i]);
      }
    }
  }

  /** The provider `CreateProvider` registers for a binding: a no-scope provider
      for NO_SCOPE and a singleton provider for SINGLETON, both of the binding's
      implementation type; a preset instance fills the singleton's slot, and
      cmn-tools also raises its flag, so it is never prepared or wired. No
      other scope has a provider. */
  function BindingProvider(rev: Revision, b: BindingView): (r: Option<AbstractProvider>)
    ensures r.None? <==> b.scope == EagerSingleton
    ensures r.Some? ==> && r.value.providedType == b.typeToBind && r.value.implementedType == b.bindedType
                        && r.value.dependencies == [] && r.value.delegate == Null
    ensures b.scope == Scope.NoScope ==> r == Some(LegacyProviders.NoScope(b.typeToBind, b.bindedType))
    ensures b.scope == Scope.Singleton ==> && r.value.kind == SingletonProvider && r.value.instance == b.bindedInstance
                                           && (r.value.isInitialized <==> rev.Cmn? && b.bindedInstance != Null)
  {
    match b.scope
    case NoScope => Some(LegacyProviders.NoScope(b.typeToBind, b.bindedType))
    case Singleton =>
      var p := LegacyProviders.Singleton(b.typeToBind, b.bindedType);
      if b.bindedInstance == Null then Some(p) else Some(p.(instance := b.bindedInstance, isInitialized := rev.Cmn?))
    case EagerSingleton => None
  }

  /** The provider `CreateProvidersFromMethods` registers for a `[Provides]` method,
      by the attribute's scope; no other scope has one. */
  function MethodProviderOf(owner: ModuleId, m: MethodDecl): Option<AbstractProvider>
    requires FirstOfKind(m.attrs, ProvidesKind).Some?
  {
    match FirstOfKind(m.attrs, ProvidesKind).value.scope
    case NoScope => Some(Method(owner, m))
    case Singleton => Some(SingletonMethod(owner, m))
    case EagerSingleton => None
  }

  /** `flags` says which entries of `ps` have a provider. */
  predicate Flagged(ps: seq<Option<AbstractProvider>>, flags: seq<bool>) {
    |flags| == |ps| && forall j | 0 <= j < |ps| :: flags[j] == ps[j].Some?
  }

  /** The first `n` registrations are done: each entry that has a provider was
      registered under its type, which was not in `keys`; nothing else was added;
      and cmn-tools, which refuses an entry without one, met none. */
  ghost predicate RegisteredIn(rev: Revision, pm: map<TypeId, AbstractProvider>, tys: seq<TypeId>,
                               ps: seq<Option<AbstractProvider>>, flags: seq<bool>, n: nat, keys: set<TypeId>)
    requires n <= |tys| == |ps| == |flags|
  {
    && pm.Keys == keys + Chosen(tys, flags, n) && Chosen(tys, flags, n) !! keys
    && (forall j | 0 <= j < n && ps[j].Some? :: tys[j] in pm && pm[tys[j]] == ps[j].value)
    && (rev.Cmn? ==> forall j | 0 <= j < n :: ps[j].Some?)
  }

  /** Registering entry `n` under a new type, or skipping it in DTools when it
      has no provider, extends the registered prefix by one. */
  lemma RegisteredStep(rev: Revision, pm: map<TypeId, AbstractProvider>, pm': map<TypeId, AbstractProvider>, tys: seq<TypeId>,
                       ps: seq<Option<AbstractProvider>>, flags: seq<bool>, n: nat, keys: set<TypeId>)
    requires n < |tys| == |ps| == |flags| && Flagged(ps, flags) && RegisteredIn(rev, pm, tys, ps, flags, n, keys)
    requires ps[n].Some? ==> tys[n] !in pm && pm' == pm[tys[n] := ps[n].value]
    requires ps[n].None? ==> rev.DTools? && pm' == pm
    ensures RegisteredIn(rev, pm', tys, ps, flags, n + 1, keys)
  {
    assert Chosen(tys, flags, n + 1) == Chosen(tys, flags, n) + (if flags[n] then {tys[n]} else {});
    forall j | 0 <= j < n + 1 && ps[j].Some?
      ensures tys[j] in pm' && pm'[tys[j]] == ps[j].value
    {
      if j < n {
        assert tys[j] in pm;
      }
    }
  }

  /** Over all entries, the chosen types are those of the entries with a provider. */
  lemma ChosenOfAll(tys: seq<TypeId>, ps: seq<Option<AbstractProvider>>, flags: seq<bool>)
    requires |tys| == |ps| && Flagged(ps, flags)
    ensures Chosen(tys, flags, |tys|) == set j | 0 <= j < |tys| && ps[j].Some? :: tys[j]
  {
    ChosenMembers(tys, flags, |tys|);
  }

  /** With every binding processed, the registered prefix is what `RegisterBindings` promises. */
  lemma BindingsRegistered(rev: Revision, pm: map<TypeId, AbstractProvider>, bs: seq<BindingView>, tys: seq<TypeId>,
                           ps: seq<Option<AbstractProvider>>, flags: seq<bool>, keys: set<TypeId>)
    requires |bs| == |tys| == |ps| && Flagged(ps, flags)
    requires forall j | 0 <= j < |bs| :: tys[j] == bs[j].typeToBind && ps[j] == BindingProvider(rev, bs[j])
    requires RegisteredIn(rev, pm, tys, ps, flags, |bs|, keys)
    ensures var handled := set j | 0 <= j < |bs| && BindingProvider(rev, bs[j]).Some? :: bs[j].typeToBind;
            && pm.Keys == keys + handled && handled !! keys
            && (forall j | 0 <= j < |bs| && BindingProvider(rev, bs[j]).Some? ::
                  pm[bs[j].typeToBind] == BindingProvider(rev, bs[j]).value)
            && (rev.Cmn? ==> forall j | 0 <= j < |bs| :: BindingProvider(rev, bs[j]).Some?)
  {
    ChosenOfAll(tys, ps, flags);
    BindingsHandledAreChosen(rev, bs, tys, ps);
  }

  /** The types of the bindings that have a provider are the types of the entries
      that have one. */
  lemma BindingsHandledAreChosen(rev: Revision, bs: seq<BindingView>, tys: seq<TypeId>, ps: seq<Option<AbstractProvider>>)
    requires |bs| == |tys| == |ps|
    requires forall j | 0 <= j < |bs| :: tys[j] == bs[j].typeToBind && ps[j] == BindingProvider(rev, bs[j])
    ensures (set j | 0 <= j < |bs| && BindingProvider(rev, bs[j]).Some? :: bs[j].typeToBind) ==
            (set j | 0 <= j < |tys| && ps[j].Some? :: tys[j])
  {
    var handled := set j | 0 <= j < |bs| && BindingProvider(rev, bs[j]).Some? :: bs[j].typeToBind;
    var chosen := set j | 0 <= j < |tys| && ps[j].Some? :: tys[j];
    forall x | x in handled
      ensures x in chosen
    {
      var j :| 0 <= j < |bs| && BindingProvider(rev, bs[j]).Some? && bs[j].typeToBind == x;
      assert ps[j].Some? && tys[j] == x;
    }
    forall x | x in chosen
      ensures x in handled
    {
      var j :| 0 <= j < |tys| && ps[j].Some? && tys[j] == x;
      assert ps[j] == BindingProvider(rev, bs[j]) && tys[j] == bs[j].typeToBind;
    }
  }

  /** With every method processed, the registered prefix is what `CreateProvidersFromMethods` promises. */
  lemma MethodsRegistered(rev: Revision, pm: map<TypeId, AbstractProvider>, owner: ModuleId, ms: seq<MethodDecl>, tys: seq<TypeId>,
                          ps: seq<Option<AbstractProvider>>, flags: seq<bool>, keys: set<TypeId>)
    requires |ms| == |tys| == |ps| && Flagged(ps, flags)
    requires forall j | 0 <= j < |ms| :: FirstOfKind(ms[j].attrs, ProvidesKind).Some?
    requires forall j | 0 <= j < |ms| :: tys[j] == ms[j].returnType && ps[j] == MethodProviderOf(owner, ms[j])
    requires RegisteredIn(rev, pm, tys, ps, flags, |ms|, keys)
    ensures var handled := set j | 0 <= j < |ms| && MethodProviderOf(owner, ms[j]).Some? :: ms[j].returnType;
            && pm.Keys == keys + handled && handled !! keys
            && (forall j | 0 <= j < |ms| && MethodProviderOf(owner, ms[j]).Some? ::
                  pm[ms[j].returnType] == MethodProviderOf(owner, ms[j]).value)
            && (rev.Cmn? ==> forall j | 0 <= j < |ms| :: MethodProviderOf(owner, ms[j]).Some?)
  {
    ChosenOfAll(tys, ps, flags);
    MethodsHandledAreChosen(owner, ms, tys, ps);
  }

  /** The return types of the methods that have a provider are the types of the
      entries that have one. */
  lemma MethodsHandledAreChosen(owner: ModuleId, ms: seq<MethodDecl>, tys: seq<TypeId>, ps: seq<Option<AbstractProvider>>)
    requires |ms| == |tys| == |ps|
    requires forall j | 0 <= j < |ms| :: FirstOfKind(ms[j].attrs, ProvidesKind).Some?
    requires forall j | 0 <= j < |ms| :: tys[j] == ms[j].returnType && ps[j] == MethodProviderOf(owner, ms[j])
    ensures (set j | 0 <= j < |ms| && MethodProviderOf(owner, ms[j]).Some? :: ms[j].returnType) ==
            (set j | 0 <= j < |tys| && ps[j].Some? :: tys[j])
  {
    var handled := set j | 0 <= j < |ms| && MethodProviderOf(owner, ms[j]).Some? :: ms[j].returnType;
    var chosen := set j | 0 <= j < |tys| && ps[j].Some? :: tys[j];
    forall x | x in handled
      ensures x in chosen
    {
      var j :| 0 <= j < |ms| && MethodProviderOf(owner, ms[j]).Some? && ms[j].returnType == x;
      assert ps[j].Some? && tys[j] == x;
    }
    forall x | x in chosen
      ensures x in handled
    {
      var j :| 0 <= j < |tys| && ps[j].Some? && tys[j] == x;
      assert ps[j] == MethodProviderOf(owner, ms[j]) && tys[j] == ms[j].returnType;
    }
  }

  /** The provider `AttemptRegisterBinding` binds an `[ImplementedBy(impl)]` type
      to: a singleton provider when impl is marked `[Singleton]`, a no-scope
      provider otherwise. */
  function BoundTo(c: Catalogue, t: TypeId, impl: TypeId): (p: AbstractProvider)
    requires Wf(c) && impl in c
    ensures p.Blank() && p.providedType == t && p.implementedType == Some(impl)
    ensures GetTypeAttribute(c, impl, SingletonKind).None? <==> p.kind == NoScopeProvider
    ensures GetTypeAttribute(c, impl, SingletonKind).Some? <==> p.kind == SingletonProvider
  {
    if GetTypeAttribute(c, impl, SingletonKind).Some? then LegacyProviders.Singleton(t, Some(impl))
    else LegacyProviders.NoScope(t, Some(impl))
  }

  /** `GetTypeAttribute<T>(inherit)` as each revision defines it: DTools falls back
      to the interfaces when inheriting, cmn-tools reads the type's own custom
      attributes (with those of its base types when inheriting) and nothing else. */
  function TypeAttribute(rev: Revision, c: Catalogue, t: TypeId, k: AttrKind, inherit: bool): (r: Option<Attr>)
    requires Wf(c) && t in c
    ensures r.Some? ==> r.value.Kind() == k
    ensures !inherit ==> r == FirstOfKind(c[t].attrs, k)
    ensures rev.Cmn? && r.Some? ==> r.value in CustomAttributes(c, t, inherit)
    ensures rev.DTools? && FirstOfKind(CustomAttributes(c, t, inherit), k).Some? ==> r == FirstOfKind(CustomAttributes(c, t, inherit), k)
  {
    if rev.DTools? then GetTypeAttribute(c, t, k, inherit)
    else
      assert !inherit ==> CustomAttributes(c, t, inherit) == c[t].attrs;
      FirstOfKind(CustomAttributes(c, t, inherit), k)
  }

  /** The revisions agree on every lookup that does not inherit. */
  lemma TypeAttributeRevisionsAgree(c: Catalogue, t: TypeId, k: AttrKind)
    requires Wf(c) && t in c
    ensures TypeAttribute(DTools, c, t, k, false) == TypeAttribute(Cmn, c, t, k, false)
  {
  }

  /** The provider type named by `t`'s `[ProvidedBy]` attribute, if it has one. */
  function ProvidedByType(c: Catalogue, t: TypeId): (r: Option<TypeId>)
    requires Wf(c) && t in c
    ensures r.Some? ==> r.value in c
    ensures r.None? <==> forall a | a in c[t].attrs :: !a.ProvidedBy?
    ensures r.Some? ==> IsFirstOfKind(c[t].attrs, Attr.ProvidedBy(r.value))
  {
    assert TypeWf(c, t);
    match GetTypeAttribute(c, t, ProvidedByKind)
    case Some(a) => Some(a.providerType)
    case None => None
  }

  /** The class `AttemptRegisterProvider` takes for provider type `pt`: the
      target of its `[ImplementedBy]`, or `pt` itself. */
  function ImplementedProviderType(c: Catalogue, pt: TypeId): (ipt: TypeId)
    requires Wf(c) && pt in c
    ensures ipt in c
    ensures (forall a | a in c[pt].attrs :: !a.ImplementedBy?) ==> ipt == pt
    ensures (exists a | a in c[pt].attrs :: a.ImplementedBy?) ==> IsFirstOfKind(c[pt].attrs, ImplementedBy(ipt))
  {
    assert TypeWf(c, pt);
    match GetTypeAttribute(c, pt, ImplementedByKind)
    case Some(a) => a.implementedType
    case None => pt
  }

  /** Whether `AttemptRegisterProvider` binds provider type `pt` itself. */
  predicate RegistersProviderSingleton(rev: Revision, c: Catalogue, pt: TypeId)
    requires Wf(c) && pt in c
  {
    var ipt := ImplementedProviderType(c, pt);
    TypeAttribute(rev, c, ipt, ImplementedByKind, true).None? && TypeAttribute(rev, c, ipt, SingletonKind, true).None?
  }

  /** The types a successful `[ProvidedBy(pt)]` registration of `t` adds. */
  function ProvidedByKeys(rev: Revision, c: Catalogue, t: TypeId, pt: TypeId): (ks: set<TypeId>)
    requires Wf(c) && pt in c
    ensures t in ks && ks <= {t, pt}
    ensures pt in ks <==> pt == t || RegistersProviderSingleton(rev, c, pt)
  {
    {t} + (if RegistersProviderSingleton(rev, c, pt) then {pt} else {})
  }

  /** What a successful `AttemptRegisterDependency(t)` adds: `t` itself under the
      `[ImplementedBy]` or the `[Singleton]` rule, `t` and perhaps its provider
      type under the `[ProvidedBy]` rule, and nothing when no rule applies. */
  function DiscoveredKeys(rev: Revision, c: Catalogue, t: TypeId): (ks: set<TypeId>)
    requires Wf(c) && t in c
  {
    if GetTypeAttribute(c, t, ImplementedByKind).Some? then {t}
    else if !SuiceInjector.HasImplementedByInterface(c, t) && GetTypeAttribute(c, t, SingletonKind).Some? then {t}
    else match ProvidedByType(c, t)
      case None => {}
      case Some(pt) => ProvidedByKeys(rev, c, t, pt)
  }

  /** Whatever discovery adds for `t` includes `t`. */
  lemma DiscoveredKeysHasType(rev: Revision, c: Catalogue, t: TypeId)
    requires Wf(c) && t in c
    ensures DiscoveredKeys(rev, c, t) != {} <==> t in DiscoveredKeys(rev, c, t)
  {
  }

  /** The types of `types` some discovery rule applies to. */
  function DiscoveredTypes(rev: Revision, c: Catalogue, types: seq<TypeId>): set<TypeId>
    requires Wf(c) && forall t | t in types :: t in c
  {
    set t | t in types && DiscoveredKeys(rev, c, t) != {}
  }

  /** The types of the assemblies of `assemblies` some discovery rule applies to. */
  function DiscoveredAll(rev: Revision, c: Catalogue, assemblies: seq<seq<TypeId>>): set<TypeId>
    requires Wf(c) && forall a, t | a in assemblies && t in a :: t in c
  {
    set a, t | a in assemblies && t in a && DiscoveredKeys(rev, c, t) != {} :: t
  }

  /** The discoveries of the first `i + 1` assemblies: those of the first `i` and
      those of assembly `i`. */
  lemma DiscoveredAllStep(rev: Revision, c: Catalogue, assemblies: seq<seq<TypeId>>, i: nat)
    requires Wf(c) && i < |assemblies| && forall a, t | a in assemblies && t in a :: t in c
    ensures DiscoveredAll(rev, c, assemblies[..i + 1]) == DiscoveredAll(rev, c, assemblies[..i]) + DiscoveredTypes(rev, c, assemblies[i])
  {
    assert forall a | a in assemblies[..i + 1] :: a in assemblies[..i] || a == assemblies[i];
    assert assemblies[i] in assemblies[..i + 1];
    assert forall a | a in assemblies[..i] :: a in assemblies[..i + 1];
  }

  /** After discovery over `types`, each type some rule applied to is registered. */
  lemma DiscoveredTypesAdded(rev: Revision, c: Catalogue, types: seq<TypeId>, before: set<TypeId>, after: set<TypeId>)
    requires Wf(c) && forall t | t in types :: t in c
    requires after == before + set t, u | t in types && u in DiscoveredKeys(rev, c, t) :: u
    ensures DiscoveredTypes(rev, c, types) <= after
  {
    forall t | t in DiscoveredTypes(rev, c, types)
      ensures t in after
    {
      DiscoveredKeysHasType(rev, c, t);
    }
  }

  /** What discovery adds for each of `types`, in order. */
  ghost function DiscoveredKeysOf(rev: Revision, c: Catalogue, types: seq<TypeId>): (found: seq<set<TypeId>>)
    requires Wf(c) && forall t | t in types :: t in c
    ensures |found| == |types| && forall j | 0 <= j < |types| :: found[j] == DiscoveredKeys(rev, c, types[j])
  {
    seq(|types|, j requires 0 <= j < |types| => assert types[j] in types; DiscoveredKeys(rev, c, types[j]))
  }

  /** Over all the types, the union of what discovery adds for each. */
  lemma DiscoveredOfAll(rev: Revision, c: Catalogue, types: seq<TypeId>)
    requires Wf(c) && forall t | t in types :: t in c
    ensures Union(DiscoveredKeysOf(rev, c, types), |types|) == set t, u | t in types && u in DiscoveredKeys(rev, c, t) :: u
  {
    var found := DiscoveredKeysOf(rev, c, types);
    var all := set t, u | t in types && u in DiscoveredKeys(rev, c, t) :: u;
    UnionMembers(found, |types|);
    forall u | u in all
      ensures u in Union(found, |types|)
    {
      var t :| t in types && u in DiscoveredKeys(rev, c, t);
      var j :| 0 <= j < |types| && types[j] == t;
      assert u in found[j];
    }
    forall u | u in Union(found, |types|)
      ensures u in all
    {
      var j :| 0 <= j < |types| && u in found[j];
      assert types[j] in types;
    }
  }
}
