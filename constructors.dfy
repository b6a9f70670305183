/**
 * Constructor selection, shared verbatim by the three engine revisions
 * (`GetConstructor`, `IsValidConstructor`, `GetDependencyTypes`).
 */
module Constructors {
  import opened Wrappers
  import opened Catalogue
  import opened Reflection
  import opened Errors

  /** A constructor the container may call: parameterless, or marked `[Inject]`. */
  predicate IsValidConstructor(k: Ctor) {
    |k.params| == 0 || GetMemberInfoAttribute(k.attrs, InjectKind).Some?
  }

  /** With no public constructor, the parameterless one; with exactly one public
      constructor, that one if it is valid; anything else fails. */
  function GetConstructor(c: Catalogue, t: TypeId): (r: Result<Ctor, Error>)
    requires t in c
    ensures r.Success? ==>
              (c[t].ctors == [] && c[t].emptyCtor == Some(r.value)) ||
              (c[t].ctors == [r.value] && IsValidConstructor(r.value))
    ensures r.Failure? <==>
              (c[t].ctors == [] && c[t].emptyCtor.None?) ||
              |c[t].ctors| > 1 ||
              (|c[t].ctors| == 1 && !IsValidConstructor(c[t].ctors[0]))
    ensures r.Failure? ==> r.error == InvalidDependencyConstructor(t)
  {
    var ctors := c[t].ctors;
    var chosen :=
      if |ctors| == 0 then c[t].emptyCtor
      else if |ctors| == 1 && IsValidConstructor(ctors[0]) then Some(ctors[0])
      else None;
    if chosen.None? then Failure(InvalidDependencyConstructor(t)) else Success(chosen.value)
  }

  /** The parameter types of the selected constructor, in declaration order. */
  function GetDependencyTypes(c: Catalogue, t: TypeId): (r: Result<seq<TypeId>, Error>)
    requires Wf(c) && t in c
    ensures r.Success? <==> GetConstructor(c, t).Success?
    ensures r.Success? ==> r.value == GetConstructor(c, t).value.params
    ensures r.Success? ==> forall d | d in r.value :: d in c
    ensures r.Failure? ==> r == Failure(InvalidDependencyConstructor(t))
  {
    var k :- GetConstructor(c, t);
    assert k in c[t].ctors || Some(k) == c[t].emptyCtor;
    assert TypeWf(c, t);
    Success(k.params)
  }

  /** Two or more public constructors are always rejected, however they are marked. */
  lemma AmbiguousConstructorsRejected(c: Catalogue, t: TypeId)
    requires t in c && |c[t].ctors| >= 2
    ensures GetConstructor(c, t) == Failure(InvalidDependencyConstructor(t))
  {
  }
}
