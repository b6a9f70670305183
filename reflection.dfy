/**
 * The reflection helpers of the container (extension methods on Type,
 * MethodInfo and MemberInfo), as functions over the type catalogue.
 */
module Reflection {
  import opened Wrappers
  import opened Catalogue

  /** `a` occurs in `attrs` with no attribute of its kind before it. */
  ghost predicate IsFirstOfKind(attrs: seq<Attr>, a: Attr) {
    exists j :: 0 <= j < |attrs| && attrs[j] == a && forall i | 0 <= i < j :: attrs[i].Kind() != a.Kind()
  }

  /** `attrs.OfType<T>().FirstOrDefault()`: the first attribute of kind `k`. */
  function FirstOfKind(attrs: seq<Attr>, k: AttrKind): (r: Option<Attr>)
    ensures r.None? <==> forall a | a in attrs :: a.Kind() != k
    ensures r.Some? ==> r.value.Kind() == k && r.value in attrs
    ensures r.Some? ==> IsFirstOfKind(attrs, r.value)
  {
    if attrs == [] then None
    else if attrs[0].Kind() == k then Some(attrs[0])
    else
      var rest := FirstOfKind(attrs[1..], k);
      assert forall a | a in attrs :: a == attrs[0] || a in attrs[1..];
      if rest.Some? then
        ghost var j :| 0 <= j < |attrs[1..]| && attrs[1..][j] == rest.value && forall i | 0 <= i < j :: attrs[1..][i].Kind() != k;
        assert attrs[j + 1] == rest.value && forall i | 0 <= i < j + 1 :: attrs[i].Kind() != k;
        rest
      else rest
  }

  /** The first match in a concatenation is the first match of the left part, if any. */
  lemma {:induction false} FirstOfKindAppend(a: seq<Attr>, b: seq<Attr>, k: AttrKind)
    ensures FirstOfKind(a + b, k) == if FirstOfKind(a, k).Some? then FirstOfKind(a, k) else FirstOfKind(b, k)
  {
    if a == [] {
      assert a + b == b;
    } else {
      assert (a + b)[0] == a[0];
      assert (a + b)[1..] == a[1..] + b;
      FirstOfKindAppend(a[1..], b, k);
    }
  }

  /** `Type.GetCustomAttributes(inherit)`: the declared attributes, followed, when
      `inherit` holds, by those inherited along the base-type chain. */
  function CustomAttributes(c: Catalogue, t: TypeId, inherit: bool): seq<Attr>
    requires Wf(c) && t in c
    decreases t
  {
    assert TypeWf(c, t);
    c[t].attrs +
      (if inherit && c[t].baseType.Some? then CustomAttributes(c, c[t].baseType.value, true) else [])
  }

  /** `MemberInfo.GetMemberInfoAttribute<T>()`: the first attribute of kind `k`. */
  function GetMemberInfoAttribute(attrs: seq<Attr>, k: AttrKind): Option<Attr> {
    FirstOfKind(attrs, k)
  }

  /** `Type.GetTypeAttribute<T>(inherit)`: the first attribute of kind `k` on the type;
      failing that, and only when `inherit` holds, the attribute of the first interface
      (in `GetInterfaces()` order) that has one, searched the same way. */
  function GetTypeAttribute(c: Catalogue, t: TypeId, k: AttrKind, inherit: bool := false): (r: Option<Attr>)
    requires Wf(c) && t in c
    decreases t, 1, 0
    ensures r.Some? ==> r.value.Kind() == k
    ensures !inherit ==> r == FirstOfKind(c[t].attrs, k)
  {
    assert TypeWf(c, t);
    var own := FirstOfKind(CustomAttributes(c, t, inherit), k);
    if own.None? && inherit then
      match FirstInterfaceWith(c, c[t].interfaces, k, t)
      case Some(i) => GetTypeAttribute(c, i, k, true)
      case None => None
    else
      assert !inherit ==> CustomAttributes(c, t, inherit) == c[t].attrs;
      own
  }

  /** `interfaces.FirstOrDefault(i => i.GetTypeAttribute<T>(true) != null)`. */
  function FirstInterfaceWith(c: Catalogue, interfaces: seq<TypeId>, k: AttrKind, bound: TypeId): (r: Option<TypeId>)
    requires Wf(c) && forall i | i in interfaces :: i in c && i < bound
    decreases bound, 0, |interfaces|
    ensures r.Some? ==> r.value in interfaces && GetTypeAttribute(c, r.value, k, true).Some?
    ensures r.None? ==> forall i | i in interfaces :: GetTypeAttribute(c, i, k, true).None?
  {
    if interfaces == [] then None
    else if GetTypeAttribute(c, interfaces[0], k, true).Some? then Some(interfaces[0])
    else
      assert forall i | i in interfaces :: i == interfaces[0] || i in interfaces[1..];
      assert forall i | i in interfaces[1..] :: i in interfaces;
      FirstInterfaceWith(c, interfaces[1..], k, bound)
  }

  /** The order in which the inheriting search visits attributes: the type's own
      (and inherited) attributes, then, depth first, those reachable through each
      interface in turn. */
  function SearchOrder(c: Catalogue, t: TypeId): seq<Attr>
    requires Wf(c) && t in c
    decreases t, 1, 0
  {
    assert TypeWf(c, t);
    CustomAttributes(c, t, true) + InterfacesSearchOrder(c, c[t].interfaces, t)
  }

  function InterfacesSearchOrder(c: Catalogue, interfaces: seq<TypeId>, bound: TypeId): seq<Attr>
    requires Wf(c) && forall i | i in interfaces :: i in c && i < bound
    decreases bound, 0, |interfaces|
  {
    if interfaces == [] then []
    else
      assert forall i | i in interfaces[1..] :: i in interfaces;
      SearchOrder(c, interfaces[0]) + InterfacesSearchOrder(c, interfaces[1..], bound)
  }

  /** The inheriting attribute search returns the first attribute of the requested
      kind in the depth-first, left-to-right search order, and null exactly when no
      attribute of that kind is reachable at all. */
  lemma {:induction false} GetTypeAttributeIsFirstInSearchOrder(c: Catalogue, t: TypeId, k: AttrKind)
    requires Wf(c) && t in c
    decreases t, 1, 0
    ensures GetTypeAttribute(c, t, k, true) == FirstOfKind(SearchOrder(c, t), k)
    ensures GetTypeAttribute(c, t, k, true).None? <==> forall a | a in SearchOrder(c, t) :: a.Kind() != k
  {
    assert TypeWf(c, t);
    var own := CustomAttributes(c, t, true);
    var rest := InterfacesSearchOrder(c, c[t].interfaces, t);
    FirstOfKindAppend(own, rest, k);
    if FirstOfKind(own, k).None? {
      FirstInterfaceIsFirstInSearchOrder(c, c[t].interfaces, k, t);
    }
  }

  lemma {:induction false} FirstInterfaceIsFirstInSearchOrder(c: Catalogue, interfaces: seq<TypeId>, k: AttrKind, bound: TypeId)
    requires Wf(c) && forall i | i in interfaces :: i in c && i < bound
    decreases bound, 0, |interfaces|
    ensures match FirstInterfaceWith(c, interfaces, k, bound)
            case Some(i) => GetTypeAttribute(c, i, k, true) == FirstOfKind(InterfacesSearchOrder(c, interfaces, bound), k)
            case None => FirstOfKind(InterfacesSearchOrder(c, interfaces, bound), k).None?
  {
    if interfaces != [] {
      assert forall i | i in interfaces[1..] :: i in interfaces;
      var head := SearchOrder(c, interfaces[0]);
      var tail := InterfacesSearchOrder(c, interfaces[1..], bound);
      FirstOfKindAppend(head, tail, k);
      GetTypeAttributeIsFirstInSearchOrder(c, interfaces[0], k);
      if GetTypeAttribute(c, interfaces[0], k, true).None? {
        assert forall i | i in interfaces[1..] :: i in interfaces;
        FirstInterfaceIsFirstInSearchOrder(c, interfaces[1..], k, bound);
      }
    }
  }

  /** True when `t` itself is a constructed form of the generic definition `g`. */
  predicate ConstructedFrom(c: Catalogue, t: TypeId, g: TypeId) {
    t in c && c[t].genericDef == Some(g)
  }

  /** True when `t` or one of its interfaces is a constructed form of `g`. */
  predicate DirectlyAssignable(c: Catalogue, t: TypeId, g: TypeId)
    requires t in c
  {
    (exists j | 0 <= j < |c[t].interfaces| :: ConstructedFrom(c, c[t].interfaces[j], g)) || ConstructedFrom(c, t, g)
  }

  /** `Type.IsAssignableToGenericType(genericType)`: some interface of the type, or
      the type itself, is constructed from `g`; otherwise ask the base type, and give
      up once there is none. */
  function IsAssignableToGenericType(c: Catalogue, givenType: TypeId, genericType: TypeId): bool
    requires Wf(c) && givenType in c
    decreases givenType
  {
    assert TypeWf(c, givenType);
    if DirectlyAssignable(c, givenType, genericType) then true
    else match c[givenType].baseType
      case None => false
      case Some(b) => IsAssignableToGenericType(c, b, genericType)
  }

  /** The type followed by its base types, nearest first. */
  function BaseChain(c: Catalogue, t: TypeId): (chain: seq<TypeId>)
    requires Wf(c) && t in c
    decreases t
    ensures |chain| > 0 && chain[0] == t
    ensures forall u | u in chain :: u in c
  {
    assert TypeWf(c, t);
    match c[t].baseType
    case None => [t]
    case Some(b) => [t] + BaseChain(c, b)
  }

  /** Assignability to a generic definition holds exactly when some type on the base
      chain is directly assignable to it. */
  lemma {:induction false} IsAssignableIffSomeAncestor(c: Catalogue, t: TypeId, g: TypeId)
    requires Wf(c) && t in c
    decreases t
    ensures IsAssignableToGenericType(c, t, g) <==>
              exists u | u in BaseChain(c, t) :: DirectlyAssignable(c, u, g)
  {
    assert TypeWf(c, t);
    var chain := BaseChain(c, t);
    if DirectlyAssignable(c, t, g) {
      assert t in chain;
    } else {
      match c[t].baseType
      case None =>
        assert chain == [t];
      case Some(b) =>
        IsAssignableIffSomeAncestor(c, b, g);
        var rest := BaseChain(c, b);
        assert chain == [t] + rest;
        if IsAssignableToGenericType(c, b, g) {
          var u :| u in rest && DirectlyAssignable(c, u, g);
          assert u in chain;
        } else {
          forall u | u in chain
            ensures !DirectlyAssignable(c, u, g)
          {
            if u != t { assert u in rest; }
          }
        }
    }
  }

  /** `Type.IsSubclassOf(s)`: `s` is a proper ancestor on the base chain. */
  function IsSubclassOf(c: Catalogue, t: TypeId, s: TypeId): bool
    requires Wf(c) && t in c
    decreases t
  {
    assert TypeWf(c, t);
    match c[t].baseType
    case None => false
    case Some(b) => b == s || IsSubclassOf(c, b, s)
  }

  lemma {:induction false} IsSubclassOfIffProperAncestor(c: Catalogue, t: TypeId, s: TypeId)
    requires Wf(c) && t in c
    decreases t
    ensures IsSubclassOf(c, t, s) <==> s in BaseChain(c, t)[1..]
  {
    assert TypeWf(c, t);
    match c[t].baseType
    case None =>
    case Some(b) =>
      IsSubclassOfIffProperAncestor(c, b, s);
      assert BaseChain(c, t)[1..] == BaseChain(c, b);
      assert BaseChain(c, b) == [b] + BaseChain(c, b)[1..];
  }

  /** `methods.Where(mi => Attribute.GetCustomAttribute(mi, typeof(T)) != null)`. */
  function MethodsWithAttribute(methods: seq<MethodDecl>, k: AttrKind): (r: seq<MethodDecl>)
    ensures forall m | m in r :: m in methods && FirstOfKind(m.attrs, k).Some?
    ensures forall m | m in methods && FirstOfKind(m.attrs, k).Some? :: m in r
    ensures |r| <= |methods|
  {
    if methods == [] then []
    else
      var rest := MethodsWithAttribute(methods[1..], k);
      assert forall m | m in methods :: m == methods[0] || m in methods[1..];
      if FirstOfKind(methods[0].attrs, k).Some? then [methods[0]] + rest else rest
  }

  /** The filter keeps the source order: filtering a concatenation concatenates the filtered parts. */
  lemma {:induction false} MethodsWithAttributeAppend(a: seq<MethodDecl>, b: seq<MethodDecl>, k: AttrKind)
    ensures MethodsWithAttribute(a + b, k) == MethodsWithAttribute(a, k) + MethodsWithAttribute(b, k)
  {
    if a == [] {
      assert a + b == b;
    } else {
      assert (a + b)[0] == a[0];
      assert (a + b)[1..] == a[1..] + b;
      MethodsWithAttributeAppend(a[1..], b, k);
    }
  }

  /** `Type.GetMethodsWithAttribute<T>()`. */
  function GetMethodsWithAttribute(c: Catalogue, t: TypeId, k: AttrKind): (r: seq<MethodDecl>)
    requires t in c
    ensures forall m | m in r :: m in c[t].methods && FirstOfKind(m.attrs, k).Some?
    ensures forall m | m in c[t].methods && FirstOfKind(m.attrs, k).Some? :: m in r
  {
    MethodsWithAttribute(c[t].methods, k)
  }
}
