/**
 * Values the container hands around: `null`, a reference to an object on the
 * heap, or a dynamic provider handing out itself as the factory.
 */
module Values {
  import opened Catalogue

  type ObjId = nat

  /** Identifies an `AbstractModule` instance whose `[Provides]` methods are invoked. */
  type ModuleId = nat

  datatype Value =
    | Null
    | Ref(obj: ObjId)
    | Factory(key: TypeId)   // the DynamicProvider registered under `key`, handed out as an IProvider<T>
}
