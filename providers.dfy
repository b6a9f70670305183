/**
 * Providers of the newer API: the `Provider` base (Suice/Provider.cs) with its
 * readonly types, its `Dependencies` slots and its `IsInitialized` flag, and
 * the variants built on it: NoScopeProvider, SingletonProvider and
 * DynamicProvider<T> (the DTools/Suice/suice revision), MethodProvider and the
 * method-backed singleton. The class hierarchy is one record with a variant
 * tag, and `Provide` dispatches on the tag the way the virtual call does. A
 * provider is a value here: the injector keeps it in its map and writes the
 * changed record back.
 */
module Providers {
  import opened Wrappers
  import opened Catalogue
  import opened Markers
  import opened Values
  import opened Runtime
  import opened Errors
  import opened Reflection

  datatype Kind =
    | NoScopeProvider
    | MethodProvider(owner: ModuleId, factory: MethodDecl)       // a subclass of NoScopeProvider
    | DynamicProvider                                            // DynamicProvider<T>, a subclass of NoScopeProvider
    | SingletonProvider(scope: SingletonScope)
    | SingletonMethodProvider(scope: SingletonScope, owner: ModuleId, factory: MethodDecl)
  {
    /** `provider is NoScopeProvider`: true of its subclasses too. */
    predicate IsNoScopeProvider() {
      NoScopeProvider? || MethodProvider? || DynamicProvider?
    }

    /** `provider is SingletonProvider`. */
    predicate IsSingletonProvider() {
      SingletonProvider? || SingletonMethodProvider?
    }
  }

  /**
   * `kind`, `providedType`, `implementedType` and `dependencyTypes` never change
   * once built; `dependencies` holds the resolved constructor or method
   * arguments, `isInitialized` the wiring flag and `instance` the cached
   * singleton (null for the other variants).
   */
  datatype Provider = Provider(kind: Kind, providedType: TypeId, implementedType: TypeId,
                               dependencyTypes: seq<TypeId>, dependencies: seq<Value>,
                               isInitialized: bool, instance: Value)
  {
    /** One argument slot per dependency type. */
    predicate Valid() { |dependencies| == |dependencyTypes| }

    /** As built: every slot empty and the flag down. */
    predicate Blank() {
      Valid() && !isInitialized && forall i | 0 <= i < |dependencies| :: dependencies[i] == Null
    }

    /** The object a fresh provision builds: the implementation constructed from
        the dependencies, or the module method invoked with them. */
    function Built(): (info: ObjInfo)
      ensures kind.MethodProvider? || kind.SingletonMethodProvider? ==>
                info == ObjInfo(kind.factory.returnType, Invoked(kind.owner, kind.factory.id, dependencies))
      ensures !(kind.MethodProvider? || kind.SingletonMethodProvider?) ==>
                info == ObjInfo(implementedType, Constructed(dependencies))
    {
      match kind
      case MethodProvider(owner, m) => ObjInfo(m.returnType, Invoked(owner, m.id, dependencies))
      case SingletonMethodProvider(_, owner, m) => ObjInfo(m.returnType, Invoked(owner, m.id, dependencies))
      case _ => ObjInfo(implementedType, Constructed(dependencies))
    }
  }

  /** `n` empty slots: the `new object[dependencyTypes.Length]` of the base constructor. */
  function EmptySlots(n: nat): (s: seq<Value>)
    ensures |s| == n && forall i | 0 <= i < n :: s[i] == Null
  {
    seq(n, _ => Null)
  }

  /** `new NoScopeProvider(providedType, implementedType, dependencyTypes)`. */
  function NoScope(providedType: TypeId, implementedType: TypeId, dependencyTypes: seq<TypeId>): (p: Provider)
    ensures p.Blank() && p.kind == NoScopeProvider && p.instance == Null
    ensures p.providedType == providedType && p.implementedType == implementedType
    ensures p.dependencyTypes == dependencyTypes
  {
    Provider(NoScopeProvider, providedType, implementedType, dependencyTypes, EmptySlots(|dependencyTypes|), false, Null)
  }

  /** `new NoScopeProvider(providedType, dependencyTypes)`: the type implements itself. */
  function NoScopeSelf(providedType: TypeId, dependencyTypes: seq<TypeId>): (p: Provider)
    ensures p == NoScope(providedType, providedType, dependencyTypes)
  {
    NoScope(providedType, providedType, dependencyTypes)
  }

  /** `new SingletonProvider(scope, providedType, implementedType, dependencyTypes, defaultInstance)`. */
  function Singleton(scope: SingletonScope, providedType: TypeId, implementedType: TypeId,
                     dependencyTypes: seq<TypeId>, defaultInstance: Value := Null): (p: Provider)
    ensures p.Blank() && p.kind == SingletonProvider(scope) && p.instance == defaultInstance
    ensures p.providedType == providedType && p.implementedType == implementedType
    ensures p.dependencyTypes == dependencyTypes
  {
    Provider(SingletonProvider(scope), providedType, implementedType, dependencyTypes,
             EmptySlots(|dependencyTypes|), false, defaultInstance)
  }

  /** `new SingletonProvider(scope, providedType, dependencyTypes)`: the type implements itself. */
  function SingletonSelf(scope: SingletonScope, providedType: TypeId, dependencyTypes: seq<TypeId>): (p: Provider)
    ensures p == Singleton(scope, providedType, providedType, dependencyTypes)
  {
    Singleton(scope, providedType, providedType, dependencyTypes)
  }

  /** `new DynamicProvider<T>(providedType, implementedType, dependencyTypes)`:
      the arguments go to the no-scope base unchanged. */
  function Dynamic(providedType: TypeId, implementedType: TypeId, dependencyTypes: seq<TypeId>): (p: Provider)
    ensures p == NoScope(providedType, implementedType, dependencyTypes).(kind := DynamicProvider)
  {
    Provider(DynamicProvider, providedType, implementedType, dependencyTypes, EmptySlots(|dependencyTypes|), false, Null)
  }

  /** `new MethodProvider(module, methodInfo, dependencyTypes)`: provides the return type. */
  function Method(owner: ModuleId, factory: MethodDecl, dependencyTypes: seq<TypeId>): (p: Provider)
    ensures p.Blank() && p.kind == MethodProvider(owner, factory) && p.instance == Null
    ensures p.providedType == factory.returnType && p.implementedType == factory.returnType
    ensures p.dependencyTypes == dependencyTypes
  {
    Provider(MethodProvider(owner, factory), factory.returnType, factory.returnType, dependencyTypes,
             EmptySlots(|dependencyTypes|), false, Null)
  }

  /** `new SingletonMethodProvider(scope, module, methodInfo, dependencyTypes)`. */
  function SingletonMethod(scope: SingletonScope, owner: ModuleId, factory: MethodDecl, dependencyTypes: seq<TypeId>): (p: Provider)
    ensures p.Blank() && p.kind == SingletonMethodProvider(scope, owner, factory) && p.instance == Null
    ensures p.providedType == factory.returnType && p.implementedType == factory.returnType
    ensures p.dependencyTypes == dependencyTypes
  {
    Provider(SingletonMethodProvider(scope, owner, factory), factory.returnType, factory.returnType, dependencyTypes,
             EmptySlots(|dependencyTypes|), false, Null)
  }

  /** What `Provide()` hands out, the provider afterwards and the heap afterwards. */
  datatype Provision = Provision(value: Value, after: Provider, heap: Heap)

  /**
   * The virtual `Provide()` of the provider registered under `self`:
   * a no-scope provider constructs on every call and a method provider invokes
   * its method on every call; a singleton returns its instance, filling it
   * first when it is null (a method-backed singleton fills it with whatever the
   * method returned, null included); a dynamic provider answers with itself,
   * the factory.
   */
  function Provide(c: Catalogue, p: Provider, self: TypeId, h: Heap): (r: Provision)
    requires Wf(c)
    ensures r.after == p.(instance := r.after.instance)
    ensures p.instance != Null ==> r.after.instance == p.instance
    ensures h.objects <= r.heap.objects && |r.heap.objects| <= |h.objects| + 1
    ensures |r.heap.objects| > |h.objects| ==> Admits(c, p.Built(), r.heap.objects[|h.objects|])
    ensures r.heap.fieldValues == h.fieldValues && r.heap.targets == h.targets && r.heap.events == h.events
    ensures p.kind.DynamicProvider? ==> r == Provision(Factory(self), p, h)
    ensures p.kind.IsSingletonProvider() ==> r.value == r.after.instance
    ensures p.kind.IsSingletonProvider() && p.instance != Null ==> r == Provision(p.instance, p, h)
    ensures p.kind.NoScopeProvider? || (p.kind.SingletonProvider? && p.instance == Null) ==>
              r.value == h.Next() && r.heap == h.Alloc(p.Built())
    ensures p.kind.MethodProvider? || (p.kind.SingletonMethodProvider? && p.instance == Null) ==>
              (r.value, r.heap) == h.Call(c, p.Built())
  {
    match p.kind
    case DynamicProvider => Provision(Factory(self), p, h)
    case NoScopeProvider => Provision(h.Next(), p, h.Alloc(p.Built()))
    case MethodProvider(_, _) =>
      var (v, h') := h.Call(c, p.Built());
      Provision(v, p, h')
    case SingletonProvider(_) =>
      if p.instance != Null then Provision(p.instance, p, h)
      else Provision(h.Next(), p.(instance := h.Next()), h.Alloc(p.Built()))
    case SingletonMethodProvider(_, _, _) =>
      if p.instance != Null then Provision(p.instance, p, h)
      else
        var (v, h') := h.Call(c, p.Built());
        Provision(v, p.(instance := v), h')
  }

  /** Once a singleton has answered with an object, asking again gives the same
      reference and calls nothing; the answer is null only when a method-backed
      singleton with an empty slot has its method return null. */
  lemma SingletonProvideIsCached(c: Catalogue, p: Provider, self: TypeId, h: Heap)
    requires Wf(c)
    requires p.kind.IsSingletonProvider()
    ensures var first := Provide(c, p, self, h);
            var second := Provide(c, first.after, self, first.heap);
            && (first.value != Null ==> second == Provision(first.value, first.after, first.heap))
            && (first.value == Null <==>
                  p.kind.SingletonMethodProvider? && p.instance == Null && h.NextIsNull())
  {
  }

  /** A method-backed singleton whose method returned null keeps an empty slot,
      so the next request invokes the method again. */
  lemma SingletonMethodNullIsRetried(c: Catalogue, p: Provider, self: TypeId, h: Heap)
    requires Wf(c)
    requires p.kind.SingletonMethodProvider? && p.instance == Null && h.NextIsNull()
    ensures var first := Provide(c, p, self, h);
            var second := Provide(c, first.after, self, first.heap);
            && first.value == Null && first.after == p && first.heap.objects == h.objects
            && (second.value, second.heap) == first.heap.Call(c, p.Built())
            && second.heap.calls == h.calls + 2
  {
  }

  /** Two no-scope provisions in a row leave the provider as it was: a no-scope
      provider gives two different, newly constructed objects, and a method
      provider invokes its method once for each, answering what the method returned. */
  lemma NoScopeProvideIsFresh(c: Catalogue, p: Provider, self: TypeId, h: Heap)
    requires Wf(c)
    requires p.kind.NoScopeProvider? || p.kind.MethodProvider?
    ensures var first := Provide(c, p, self, h);
            var second := Provide(c, first.after, self, first.heap);
            && first.after == p && second.after == p
            && (p.kind.NoScopeProvider? ==>
                  && !h.Has(first.value) && !first.heap.Has(second.value) && first.value != second.value
                  && second.heap.objects == h.objects + [p.Built(), p.Built()])
            && (p.kind.MethodProvider? ==>
                  && (first.value, first.heap) == h.Call(c, p.Built())
                  && (second.value, second.heap) == first.heap.Call(c, p.Built())
                  && second.heap.calls == h.calls + 2)
  {
  }

  /** What the typed `IProvider<T>.Provide` of a dynamic provider returns, and the heap afterwards. */
  datatype TypedProvision = TypedProvision(result: Result<Value, Error>, heap: Heap)

  /**
   * DynamicProvider's `IProvider<T>.Provide`: the no-scope construction of the
   * implementation from the dependencies, cast to the provided type T, with
   * `Initialize()` called on it when it is initialisable.
   */
  function ProvideTyped(c: Catalogue, p: Provider, h: Heap): (r: TypedProvision)
    requires p.kind.DynamicProvider? && Wf(c) && p.implementedType in c
    ensures r.heap.objects == h.objects + [ObjInfo(p.implementedType, Constructed(p.dependencies))]
    ensures r.heap.fieldValues == h.fieldValues && r.heap.targets == h.targets
    ensures r.result.Success? <==> IsCastable(c, p.implementedType, p.providedType)
    ensures r.result.Success? ==> r.result.value == h.Next() && !h.Has(r.result.value)
    ensures r.result.Failure? ==> r.result.error == InvalidCast(p.providedType) && r.heap.events == h.events
    ensures r.result.Success? && Implements(c, p.implementedType, IINITIALIZABLE) ==>
              r.heap.events == h.events + [Initialized(r.result.value)]
    ensures r.result.Success? && !Implements(c, p.implementedType, IINITIALIZABLE) ==> r.heap.events == h.events
  {
    var built := Provide(c, p.(kind := NoScopeProvider), p.providedType, h);
    if !IsCastable(c, p.implementedType, p.providedType) then
      TypedProvision(Failure(InvalidCast(p.providedType)), built.heap)
    else if built.heap.IsInstanceOf(c, built.value, IINITIALIZABLE) then
      TypedProvision(Success(built.value), built.heap.Record(Initialized(built.value)))
    else
      TypedProvision(Success(built.value), built.heap)
  }

  /** `n` typed provisions in a row: the instances in order and the heap afterwards. */
  function ProvideTypedTimes(c: Catalogue, p: Provider, h: Heap, n: nat): (r: (seq<Value>, Heap))
    requires p.kind.DynamicProvider? && Wf(c) && p.implementedType in c
    requires IsCastable(c, p.implementedType, p.providedType)
    ensures |r.0| == n && |r.1.objects| == |h.objects| + n && h.objects <= r.1.objects
    ensures forall k | 0 <= k < n :: r.0[k] == Ref(|h.objects| + k)
    ensures forall o | |h.objects| <= o < |r.1.objects| ::
              r.1.objects[o] == ObjInfo(p.implementedType, Constructed(p.dependencies))
  {
    if n == 0 then ([], h)
    else
      var (vs, h') := ProvideTypedTimes(c, p, h, n - 1);
      var one := ProvideTyped(c, p, h');
      (vs + [one.result.value], one.heap)
  }

  /** Asking a dynamic provider's factory `n` times yields `n` distinct new
      instances, each built from the provider's dependencies, so each has all
      its dependencies non-null once the provider has been wired. */
  lemma ProvideTypedYieldsDistinctInstances(c: Catalogue, p: Provider, h: Heap, n: nat)
    requires p.kind.DynamicProvider? && Wf(c) && p.implementedType in c
    requires IsCastable(c, p.implementedType, p.providedType)
    ensures var (vs, h') := ProvideTypedTimes(c, p, h, n);
            && (forall k, l | 0 <= k < l < n :: vs[k] != vs[l])
            && (forall k | 0 <= k < n :: !h.Has(vs[k]) && h'.Has(vs[k]))
            && (forall k | 0 <= k < n :: h'.objects[vs[k].obj].origin == Constructed(p.dependencies))
            && ((forall i | 0 <= i < |p.dependencies| :: p.dependencies[i] != Null) ==>
                  forall k, i | 0 <= k < n && 0 <= i < |p.dependencies| ::
                    h'.objects[vs[k].obj].origin.args[i] != Null)
  {
    var (vs, h') := ProvideTypedTimes(c, p, h, n);
    forall k | 0 <= k < n
      ensures h'.objects[vs[k].obj].origin == Constructed(p.dependencies)
    {
      assert vs[k].obj == |h.objects| + k;
    }
  }
}
