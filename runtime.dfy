/**
 * The object heap as a value: construction (`ImplementedType.New(dependencies)`,
 * `Activator.CreateInstance`), reflective method invocation, proxies,
 * reflective field writes, and a log of the user-code hooks the container
 * calls (`Initialize()` on initialisable objects, the `OnInitializeDependency`
 * observer). The container's own constructions and proxies yield a fresh
 * object id. A call into user code that returns an object (a `[Provides]`
 * method, a user provider's `Provide()`) answers as the heap's script of
 * answers says: an object it makes, of the declared type or of any type
 * castable to it, null, or an object that already exists.
 */
module Runtime {
  import opened Wrappers
  import opened Catalogue
  import opened Values
  import opened Reflection

  /** How an object came to be. */
  datatype Origin =
    | Constructed(args: seq<Value>)                                  // a constructor run with these arguments
    | Invoked(owner: ModuleId, provider: MethodId, args: seq<Value>) // the result of a `[Provides]` method
    | ProxyOf(t: TypeId)           // a proxy for `t` whose calls go through the injector's interceptor for `t`
    | ForwardingProxy(t: TypeId)   // a forwarding proxy for `t` installed by a singleton provider
    | ProvidedBy(delegate: Value)  // what the user provider object `delegate` returned from `Provide()`
    | Preexisting                  // made by user code, e.g. passed to `ToInstance`

  datatype ObjInfo = ObjInfo(runtimeType: TypeId, origin: Origin)

  /** A call into user code that the container makes. */
  datatype Event =
    | Initialized(v: Value)   // `v.Initialize()` on an initialisable object
    | Observed(v: Value)      // the `OnInitializeDependency(v)` observer hook

  /** What one call into user code returns. */
  datatype Answer =
    | ReturnsNew(runtimeType: TypeId) // an object it makes, of this runtime type; a type the declared one does not admit counts as the declared type
    | ReturnsNull                     // null
    | ReturnsExisting(obj: ObjId)     // an object that exists already; an id naming none counts as a new object of the declared type

  /** `(target) o` succeeds for an object of runtime type `t`: the same type, an
      interface it implements or a base class. */
  predicate IsCastable(c: Catalogue, t: TypeId, target: TypeId)
    requires Wf(c)
  {
    t in c && (t == target || Implements(c, t, target) || IsSubclassOf(c, t, target))
  }

  /** `o` can describe the object user code returned where one described by `info`
      was asked for: the same origin, and the declared type or one castable to it. */
  predicate Admits(c: Catalogue, info: ObjInfo, o: ObjInfo)
    requires Wf(c)
  {
    o.origin == info.origin && (o.runtimeType == info.runtimeType || IsCastable(c, o.runtimeType, info.runtimeType))
  }

  /**
   * `objects` only grows; `fieldValues` holds the injected fields; `targets`
   * holds what each forwarding proxy has been given to forward to; call `k`
   * into user code answers `answers[k]`, and `calls` counts the calls made
   * (past the end of the script, user code makes a new object of the declared type).
   */
  datatype Heap = Heap(objects: seq<ObjInfo>, fieldValues: map<(ObjId, FieldId), Value>,
                       targets: map<ObjId, Value>, events: seq<Event>,
                       answers: seq<Answer>, calls: nat)
  {
    predicate Has(v: Value) { v.Ref? && v.obj < |objects| }

    /** The reference the next allocation returns. */
    function Next(): (v: Value)
      ensures v.Ref? && !Has(v)
    {
      Ref(|objects|)
    }

    /** The heap after allocating an object described by `info` as `Next()`. */
    function Alloc(info: ObjInfo): (h: Heap)
      ensures h.objects == objects + [info] && h.fieldValues == fieldValues
      ensures h.targets == targets && h.events == events && h.answers == answers && h.calls == calls
      ensures h.Has(Next()) && forall v | Has(v) :: h.Has(v)
    {
      this.(objects := objects + [info])
    }

    /** Whether the next call into user code returns null. */
    predicate NextIsNull() {
      calls < |answers| && answers[calls].ReturnsNull?
    }

    /** Whether the next call into user code hands back an object that exists already. */
    predicate NextIsExisting() {
      calls < |answers| && answers[calls].ReturnsExisting? && Has(Ref(answers[calls].obj))
    }

    /** The runtime type of the object the next call makes, when it makes one
        where an object of type `declared` was asked for. */
    function NewType(c: Catalogue, declared: TypeId): (t: TypeId)
      requires Wf(c)
      ensures t == declared || (IsCastable(c, t, declared) && calls < |answers| && answers[calls] == ReturnsNew(t))
      ensures calls < |answers| && answers[calls].ReturnsNew? && IsCastable(c, answers[calls].runtimeType, declared) ==>
                t == answers[calls].runtimeType
    {
      if calls < |answers| && answers[calls].ReturnsNew? && IsCastable(c, answers[calls].runtimeType, declared)
      then answers[calls].runtimeType
      else declared
    }

    /**
     * A call into user code where an object described by `info` is asked for:
     * the value it returns and the heap afterwards. The call is consumed; only a
     * new object changes the object store, and that object has the origin of
     * `info` and its declared type or one castable to it.
     */
    function Call(c: Catalogue, info: ObjInfo): (r: (Value, Heap))
      requires Wf(c)
      ensures r.1 == (if NextIsNull() || NextIsExisting() then this
                      else Alloc(info.(runtimeType := NewType(c, info.runtimeType)))).(calls := calls + 1)
      ensures NextIsNull() <==> r.0 == Null
      ensures NextIsExisting() ==> r.0 == Ref(answers[calls].obj) && Has(r.0)
      ensures !NextIsNull() && !NextIsExisting() ==> r.0 == Next() && Admits(c, info, r.1.objects[r.0.obj])
      ensures objects <= r.1.objects && |r.1.objects| <= |objects| + 1
      ensures |r.1.objects| > |objects| ==> Admits(c, info, r.1.objects[|objects|])
      ensures r.0 == Null || r.1.Has(r.0)
    {
      if NextIsNull() then (Null, this.(calls := calls + 1))
      else if NextIsExisting() then (Ref(answers[calls].obj), this.(calls := calls + 1))
      else (Next(), Alloc(info.(runtimeType := NewType(c, info.runtimeType))).(calls := calls + 1))
    }

    /** The heap after the container called a user hook. */
    function Record(e: Event): (h: Heap)
      ensures h.events == events + [e]
      ensures h.objects == objects && h.fieldValues == fieldValues && h.targets == targets
      ensures h.answers == answers && h.calls == calls
    {
      this.(events := events + [e])
    }

    /** `v.GetType()`; none for null and for the container's own factories. */
    function TypeOf(v: Value): (r: Option<TypeId>)
      ensures r.Some? <==> Has(v)
      ensures r.Some? ==> r.value == objects[v.obj].runtimeType
    {
      if Has(v) then Some(objects[v.obj].runtimeType) else None
    }

    /** `v is I` for an interface `I`. */
    predicate IsInstanceOf(c: Catalogue, v: Value, i: TypeId) {
      Has(v) && Implements(c, objects[v.obj].runtimeType, i)
    }
  }

  /** A heap holding only the objects user code made before the container ran,
      with user code to answer as `answers` says. */
  function InitialHeap(preexisting: seq<TypeId>, answers: seq<Answer>): (h: Heap)
    ensures |h.objects| == |preexisting|
    ensures forall o | 0 <= o < |preexisting| :: h.objects[o] == ObjInfo(preexisting[o], Preexisting)
    ensures h.fieldValues == map[] && h.targets == map[] && h.events == []
    ensures h.answers == answers && h.calls == 0
  {
    Heap(seq(|preexisting|, o requires 0 <= o < |preexisting| => ObjInfo(preexisting[o], Preexisting)), map[], map[], [],
         answers, 0)
  }

  /** The field store after writing `vs[i]` into field `fs[i]` of `o`, left to right. */
  function Assign(m: map<(ObjId, FieldId), Value>, o: ObjId, fs: seq<FieldDecl>, vs: seq<Value>): map<(ObjId, FieldId), Value>
    requires |fs| == |vs|
  {
    if fs == [] then m
    else Assign(m, o, fs[..|fs| - 1], vs[..|vs| - 1])[(o, fs[|fs| - 1].id) := vs[|vs| - 1]]
  }

  /** After the writes, a field that is not written again later holds its value. */
  lemma {:induction false} AssignLookup(m: map<(ObjId, FieldId), Value>, o: ObjId, fs: seq<FieldDecl>, vs: seq<Value>, i: nat)
    requires |fs| == |vs| && i < |fs|
    requires forall j | i < j < |fs| :: fs[j].id != fs[i].id
    ensures (o, fs[i].id) in Assign(m, o, fs, vs) && Assign(m, o, fs, vs)[(o, fs[i].id)] == vs[i]
  {
    if i < |fs| - 1 {
      AssignLookup(m, o, fs[..|fs| - 1], vs[..|vs| - 1], i);
    }
  }

  /** Every slot that is not a written field of `o` keeps what it held. */
  lemma {:induction false} AssignFrame(m: map<(ObjId, FieldId), Value>, o: ObjId, fs: seq<FieldDecl>, vs: seq<Value>, key: (ObjId, FieldId))
    requires |fs| == |vs|
    requires forall f | f in fs :: key != (o, f.id)
    ensures (key in Assign(m, o, fs, vs) <==> key in m)
    ensures key in m ==> Assign(m, o, fs, vs)[key] == m[key]
  {
    if fs != [] {
      assert forall f | f in fs[..|fs| - 1] :: f in fs;
      assert fs[|fs| - 1] in fs;
      AssignFrame(m, o, fs[..|fs| - 1], vs[..|vs| - 1], key);
    }
  }

  /** The hooks called on a wired object: `Initialize()` when it is initialisable,
      then the `OnInitializeDependency` observer when one is subscribed. */
  function HookEvents(c: Catalogue, h: Heap, observer: bool, v: Value): (e: seq<Event>)
    ensures Initialized(v) in e <==> h.IsInstanceOf(c, v, IINITIALIZABLE)
    ensures Observed(v) in e <==> observer
    ensures Initialized(v) in e && Observed(v) in e ==> e == [Initialized(v), Observed(v)]
    ensures |e| <= 2
  {
    (if h.IsInstanceOf(c, v, IINITIALIZABLE) then [Initialized(v)] else []) +
    (if observer then [Observed(v)] else [])
  }
}
