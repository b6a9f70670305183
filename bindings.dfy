/**
 * The fluent binding builder of a module's `Configure` (Suice/Binding.cs; the
 * older cmn-tools/suice/suice/Binding.cs has the same state and setters and
 * differs only in the interface types its methods return).
 */
module Bindings {
  import opened Wrappers
  import opened Catalogue
  import opened Markers
  import opened Values
  import opened Runtime
  import opened Errors

  /** What the injector reads of a finished binding through `IBinding`. */
  datatype BindingView = BindingView(typeToBind: TypeId, bindedType: Option<TypeId>, scope: Scope, bindedInstance: Value)

  class Binding {
    const typeToBind: TypeId
    var bindedType: Option<TypeId>   // null until `To` or `ToInstance`
    var scope: Scope
    var bindedInstance: Value

    /** The binding as `IBinding` shows it. */
    function View(): (v: BindingView)
      reads this
      ensures v.typeToBind == typeToBind && v.bindedType == bindedType && v.scope == scope && v.bindedInstance == bindedInstance
    {
      BindingView(typeToBind, bindedType, scope, bindedInstance)
    }

    /** `new Binding<T>()`: bound type T, no scope, no instance. */
    constructor (t: TypeId)
      ensures typeToBind == t && bindedType == None && scope == NoScope && bindedInstance == Null
    {
      typeToBind := t;
      bindedType := None;
      scope := NoScope;
      bindedInstance := Null;
    }

    /** `To<V>()`: sets the implementation type only. */
    method To(v: TypeId) returns (b: Binding)
      modifies this
      ensures b == this && bindedType == Some(v)
      ensures scope == old(scope) && bindedInstance == old(bindedInstance)
    {
      bindedType := Some(v);
      b := this;
    }

    /** `ToInstance(x)`: stores the instance, then takes its runtime type as the
        implementation type and switches to SINGLETON; `x.GetType()` on null fails
        after the instance slot has been cleared. */
    method ToInstance(binded: Value, heap: Heap) returns (r: Result<Binding, Error>)
      modifies this
      ensures bindedInstance == binded
      ensures binded == Null ==> r == Failure(NullReference) && bindedType == old(bindedType) && scope == old(scope)
      ensures binded != Null ==> r == Success(this) && bindedType == heap.TypeOf(binded) && scope == Singleton
    {
      bindedInstance := binded;
      if binded == Null {
        return Failure(NullReference);
      }
      bindedType := heap.TypeOf(binded);
      scope := Singleton;
      r := Success(this);
    }

    /** `In(scope)`: sets the scope only. */
    method In(s: Scope) returns (b: Binding)
      modifies this
      ensures b == this && scope == s
      ensures bindedType == old(bindedType) && bindedInstance == old(bindedInstance)
    {
      scope := s;
      b := this;
    }
  }
}
