/**
 * The type catalogue: a fixed table that stands in for .NET reflection.
 *
 * Every `Type` becomes a `TypeId`; what the container asks reflection about
 * a type (its custom attributes, base type, interfaces, generic shape, public
 * constructors, non-public instance fields, public methods, names) is a
 * field of its `TypeInfo` entry.
 */
module Catalogue {
  import opened Wrappers
  import opened Markers

  type TypeId = nat
  type MethodId = nat
  type FieldId = nat

  /** Well-known types of the container itself. */
  const IPROVIDER_DEFINITION: TypeId := 0   // the generic definition IProvider<>
  const IINITIALIZABLE: TypeId := 1         // IInitializable / IAutoInitialize / InitializeDependency
  const ABSTRACT_PROVIDER: TypeId := 2      // AbstractProvider

  /** Custom attributes the container looks for. */
  datatype Attr =
    | ImplementedBy(implementedType: TypeId)
    | SingletonAttr(marker: SingletonMarker)
    | ProvidedBy(providerType: TypeId)
    | Inject
    | Provides(scope: Scope)
  {
    function Kind(): AttrKind {
      match this
      case ImplementedBy(_) => ImplementedByKind
      case SingletonAttr(_) => SingletonKind
      case ProvidedBy(_) => ProvidedByKind
      case Inject => InjectKind
      case Provides(_) => ProvidesKind
    }
  }

  /** The attribute class asked for with `GetTypeAttribute<T>` and friends. */
  datatype AttrKind = ImplementedByKind | SingletonKind | ProvidedByKind | InjectKind | ProvidesKind

  /** A constructor: its parameter types in declaration order and its attributes. */
  datatype Ctor = Ctor(params: seq<TypeId>, attrs: seq<Attr>)

  /** A non-public instance field. */
  datatype FieldDecl = FieldDecl(id: FieldId, fieldType: TypeId, attrs: seq<Attr>)

  /** A public method (used for the `[Provides]` methods of a module). */
  datatype MethodDecl = MethodDecl(id: MethodId, returnType: TypeId, params: seq<TypeId>, attrs: seq<Attr>)

  datatype TypeInfo = TypeInfo(
    fullName: string,          // Type.FullName
    text: string,              // Type.ToString()
    attrs: seq<Attr>,          // GetCustomAttributes(false), in order
    baseType: Option<TypeId>,  // BaseType
    interfaces: seq<TypeId>,   // GetInterfaces(), in order
    genericDef: Option<TypeId>,// GetGenericTypeDefinition() when IsGenericType
    genericArgs: seq<TypeId>,  // GetGenericArguments()
    ctors: seq<Ctor>,          // GetConstructors(): public instance constructors
    emptyCtor: Option<Ctor>,   // GetConstructor(Type.EmptyTypes)
    fields: seq<FieldDecl>,    // GetFields(NonPublic | Instance)
    methods: seq<MethodDecl>)  // GetMethods()

  type Catalogue = map<TypeId, TypeInfo>

  ghost predicate AttrWf(c: Catalogue, a: Attr) {
    match a
    case ImplementedBy(i) => i in c
    case ProvidedBy(p) => p in c
    case _ => true
  }

  ghost predicate CtorWf(c: Catalogue, k: Ctor) {
    (forall p | p in k.params :: p in c) && (forall a | a in k.attrs :: AttrWf(c, a))
  }

  /** A catalogue is closed (every type it mentions has an entry) and its
      inheritance is acyclic: base types and interfaces are numbered before
      the types that extend them, as the CLR forbids inheritance cycles. */
  ghost predicate TypeWf(c: Catalogue, t: TypeId)
    requires t in c
  {
    var info := c[t];
    && (info.baseType.Some? ==> info.baseType.value in c && info.baseType.value < t)
    && (forall i | i in info.interfaces :: i in c && i < t)
    && (info.genericDef.Some? ==> info.genericDef.value in c)
    && (forall a | a in info.genericArgs :: a in c)
    && (forall a | a in info.attrs :: AttrWf(c, a))
    && (forall k | k in info.ctors :: CtorWf(c, k))
    && (info.emptyCtor.Some? ==> CtorWf(c, info.emptyCtor.value))
    && (forall f | f in info.fields :: f.fieldType in c)
    && (forall m | m in info.methods :: m.returnType in c && forall p | p in m.params :: p in c)
  }

  ghost predicate Wf(c: Catalogue) {
    forall t {:trigger TypeWf(c, t)} | t in c :: TypeWf(c, t)
  }

  /** `t.GetInterfaces().Contains(i)`. */
  predicate Implements(c: Catalogue, t: TypeId, i: TypeId) {
    t in c && i in c[t].interfaces
  }

  /** `Type.FullName`, empty for a type outside the catalogue. */
  function FullName(c: Catalogue, t: TypeId): string {
    if t in c then c[t].fullName else ""
  }

  /** `Type.ToString()`, empty for a type outside the catalogue. */
  function Text(c: Catalogue, t: TypeId): string {
    if t in c then c[t].text else ""
  }
}
