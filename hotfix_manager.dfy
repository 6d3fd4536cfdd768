/** The hot-fix factory registry (HotfixManager.cs): a map from a type name
    to the factory that builds an instance of an actor's implementation
    type.  Compiling the constructor call into a delegate is abstracted to
    "the factory for that type": applied to an actor it yields a new
    instance of the type (boxed for a value type). */
module Hotfix {
  import opened Common
  import opened Responses

  /** A registrable implementation type and whether it has a constructor
      taking the actor. */
  datatype ImplType = ImplType(desc: TypeDesc, hasActorConstructor: bool)

  /** A compiled activator: it builds an instance of `product`. */
  datatype Factory = Factory(product: TypeDesc)

  /** An actor, identified by its id. */
  type Actor = int

  /** What a factory yields for an actor. */
  function Activate(f: Factory, actor: Actor): (v: Value)
    ensures v.Instance? && v.ty == f.product
  {
    Instance(f.product, actor)
  }

  class HotfixManager {
    var proxys: map<string, Factory>

    constructor ()
      ensures proxys == map[]
    {
      proxys := map[];
    }

    /** Registers the factory for `implType` under `typeName`, replacing any
        earlier one; a type without an actor constructor is ignored. */
    method RegisterInterfaceImpl(typeName: string, implType: ImplType)
      modifies this
      ensures !implType.hasActorConstructor ==> proxys == old(proxys)
      ensures implType.hasActorConstructor ==> proxys == old(proxys)[typeName := Factory(implType.desc)]
      ensures forall name :: name != typeName ==> (name in proxys <==> name in old(proxys))
      ensures forall name :: name != typeName && name in proxys ==> proxys[name] == old(proxys)[name]
    {
      if implType.hasActorConstructor {
        var activator := Factory(implType.desc);
        proxys := proxys[typeName := activator];
      }
    }

    /** CreateInterfaceObject<T>(typeName, actor): the registered factory's
        product when it is a T; KeyNotFoundException for an unregistered
        name, InvalidCastException for a product of another type. */
    function CreateInterfaceObject(t: TypeDesc, typeName: string, actor: Actor): (r: Outcome<Value>)
      reads this
      ensures typeName !in proxys ==> r.Raise? && r.error.kind == KeyNotFound
      ensures typeName in proxys ==>
        && (r.Ok? <==> IsA(Activate(proxys[typeName], actor), t))
        && (r.Ok? ==> r.value == Activate(proxys[typeName], actor) && HasType(r.value, t))
        && (r.Raise? ==> r.error.kind == InvalidCast)
    {
      if typeName in proxys then
        var result := Activate(proxys[typeName], actor);
        if IsA(result, t) then Ok(result)
        else Raise(Exception(InvalidCast, "cannot convert the object to the requested type"))
      else
        Raise(Exception(KeyNotFound, "no registration for the type name"))
    }
  }

  /** After registering a type with an actor constructor, creating an object
      under that name at the type itself yields an instance of it; a second
      registration under the same name wins. */
  method LaterRegistrationWins(m: HotfixManager, typeName: string, first: ImplType, second: ImplType, actor: Actor)
    requires first.hasActorConstructor && second.hasActorConstructor
    modifies m
    ensures m.CreateInterfaceObject(second.desc, typeName, actor) == Ok(Instance(second.desc, actor))
  {
    m.RegisterInterfaceImpl(typeName, first);
    m.RegisterInterfaceImpl(typeName, second);
  }
}
