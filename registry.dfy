/** The component registry (src/component/registry.ts): a catalog of components
    keyed by their unique names.

    Two defects of the source are modelled on the side, and the class follows
    their evident intent:
    - the `registeredComponents` getter returns `this.registeredComponents`,
      that is, it calls itself until the engine's stack overflows, and `lookup`
      reads through it, so the source's lookup of a registered name never
      returns; the class's Lookup returns the stored entry instead;
    - `isRegistered` uses JavaScript's `in` on a plain object, which also sees
      the keys every object inherits (`toString`, `constructor`, ...); the
      class tests the stored names only. */
module Registry {

  import opened Outcomes
  import opened Components

  datatype RegistryError =
    | DuplicateRegistration(name: string)
    | NotFound(name: string)
    | StackOverflow

  /** What getBinder hands out: a binder scoped to one component and one
      injection container. The container is the external injection library and
      stays an opaque type parameter. */
  datatype ComponentBinder<C> = ComponentBinder(component: Component, container: C)

  /** The `_registeredComponents` dictionary. */
  type Catalog = map<string, Component>

  /** The catalog after `add(c)`, or the error `add` throws. */
  function AddTo(catalog: Catalog, c: Component): (r: Result<Catalog, RegistryError>)
    ensures r.Err? <==> c.name in catalog
    ensures r.Err? ==> r.error == DuplicateRegistration(c.name)
    ensures r.Ok? ==> r.value.Keys == catalog.Keys + {c.name} && r.value[c.name] == c
    ensures r.Ok? ==> forall n :: n in catalog ==> r.value[n] == catalog[n]
  {
    if c.name in catalog then Err(DuplicateRegistration(c.name)) else Ok(catalog[c.name := c])
  }

  /** What `lookup(name)` returns or throws, as intended. */
  function LookupIn(catalog: Catalog, name: string): (r: Result<Component, RegistryError>)
    ensures r.Err? <==> name !in catalog
    ensures r.Err? ==> r.error == NotFound(name)
    ensures r.Ok? ==> r.value == catalog[name]
  {
    if name in catalog then Ok(catalog[name]) else Err(NotFound(name))
  }

  /** After a successful add, the new name looks up to the added component and
      every other name looks up exactly as before. */
  lemma AddThenLookup(catalog: Catalog, c: Component, name: string)
    requires AddTo(catalog, c).Ok?
    ensures LookupIn(AddTo(catalog, c).value, name) == if name == c.name then Ok(c) else LookupIn(catalog, name)
  {
  }

  /** A second add under a taken name always fails, whatever the component. */
  lemma AddTwiceFails(catalog: Catalog, c: Component, d: Component)
    requires AddTo(catalog, c).Ok?
    requires d.name == c.name
    ensures AddTo(AddTo(catalog, c).value, d) == Err(DuplicateRegistration(c.name))
  {
  }

  class ComponentRegistry {
    /** The stored catalog, `_registeredComponents` in the source. */
    var storedComponents: Catalog

    constructor ()
      ensures storedComponents == map[]
    {
      storedComponents := map[];
    }

    /** Membership test; it changes nothing. */
    method IsRegistered(componentName: string) returns (registered: bool)
      ensures registered <==> componentName in storedComponents
    {
      registered := componentName in storedComponents;
    }

    /** Returns the stored component, or fails with NotFound. */
    method Lookup(componentName: string) returns (r: Result<Component, RegistryError>)
      ensures r == LookupIn(storedComponents, componentName)
      ensures r.Ok? ==> r.value == storedComponents[componentName]
    {
      var registered := IsRegistered(componentName);
      if !registered {
        return Err(NotFound(componentName));
      }
      // The source reads through the self-calling getter here; the stored entry
      // is what it evidently means to return (see RegisteredComponentsAsWritten).
      return Ok(storedComponents[componentName]);
    }

    /** A binder for the looked-up component; fails exactly when lookup fails. */
    method GetBinder<C>(name: string, container: C) returns (r: Result<ComponentBinder<C>, RegistryError>)
      ensures r.Err? <==> LookupIn(storedComponents, name).Err?
      ensures r.Err? ==> r.error == NotFound(name)
      ensures r.Ok? ==> r.value == ComponentBinder(storedComponents[name], container)
    {
      var found := Lookup(name);
      match found
      case Err(e) => r := Err(e);
      case Ok(component) => r := Ok(ComponentBinder(component, container));
    }

    /** Stores `component` under its name, or fails with DuplicateRegistration
        and leaves the catalog as it was. */
    method Add(component: Component) returns (r: Outcome<RegistryError>)
      modifies this
      ensures AddTo(old(storedComponents), component).Err? ==>
                r == Fail(DuplicateRegistration(component.name)) && storedComponents == old(storedComponents)
      ensures AddTo(old(storedComponents), component).Ok? ==>
                r == Pass && storedComponents == AddTo(old(storedComponents), component).value
    {
      var registered := IsRegistered(component.name);
      if registered {
        return Fail(DuplicateRegistration(component.name));
      }
      storedComponents := storedComponents[component.name := component];
      r := Pass;
    }
  }

  // ---------------------------------------------------------------------------
  // The source as written.

  /** The property names every plain JavaScript object inherits from
      Object.prototype, which the `in` operator also reports. */
  const InheritedKeys: set<string> := {
    "constructor", "hasOwnProperty", "isPrototypeOf", "propertyIsEnumerable",
    "toLocaleString", "toString", "valueOf", "__proto__",
    "__defineGetter__", "__defineSetter__", "__lookupGetter__", "__lookupSetter__"
  }

  /** `componentName in this._registeredComponents` with JavaScript's `in`. */
  function IsRegisteredAsWritten(catalog: Catalog, componentName: string): (registered: bool)
    ensures componentName in catalog ==> registered
    ensures registered && componentName !in catalog ==> componentName in InheritedKeys
    ensures componentName !in InheritedKeys ==> (registered <==> componentName in catalog)
    ensures componentName in InheritedKeys ==> registered
  {
    componentName in catalog || componentName in InheritedKeys
  }

  /** `add` as written: its duplicate test is IsRegisteredAsWritten. */
  function AddAsWritten(catalog: Catalog, c: Component): (r: Result<Catalog, RegistryError>)
    ensures c.name !in InheritedKeys ==> r == AddTo(catalog, c)
    ensures c.name in InheritedKeys ==> r == Err(DuplicateRegistration(c.name))
  {
    if IsRegisteredAsWritten(catalog, c.name) then Err(DuplicateRegistration(c.name)) else Ok(catalog[c.name := c])
  }

  /** A component named after an inherited key can never be added, not even to
      an empty registry, while the intended add accepts it. */
  lemma InheritedNameRejectedAsWritten()
    ensures IsRegisteredAsWritten(map[], "toString")
    ensures AddAsWritten(map[], Component("toString", [])) == Err(DuplicateRegistration("toString"))
    ensures AddTo(map[], Component("toString", [])) == Ok(map["toString" := Component("toString", [])])
  {
  }

  /** The `registeredComponents` getter as written: its body evaluates the getter
      again. Each evaluation takes one stack frame; `stackDepth` is how many
      frames the engine still allows before it raises a stack overflow. The
      stored catalog is never reached. */
  function RegisteredComponentsAsWritten(stored: Catalog, stackDepth: nat): (r: Result<Catalog, RegistryError>)
    ensures r.Err?
    decreases stackDepth
  {
    if stackDepth == 0 then Err(StackOverflow) else RegisteredComponentsAsWritten(stored, stackDepth - 1)
  }

  /** `lookup` as written: the membership test, then an index into the getter. */
  function LookupAsWritten(stored: Catalog, componentName: string, stackDepth: nat): (r: Result<Component, RegistryError>)
    ensures r.Err?
    ensures !IsRegisteredAsWritten(stored, componentName) ==> r == LookupIn(stored, componentName)
  {
    if !IsRegisteredAsWritten(stored, componentName) then Err(NotFound(componentName))
    else match RegisteredComponentsAsWritten(stored, stackDepth)
         case Err(e) => Err(e)
         case Ok(catalog) => LookupIn(catalog, componentName)
  }

  /** However deep the stack, the getter ends in a stack overflow. */
  lemma {:induction false} GetterAsWrittenOverflows(stored: Catalog, stackDepth: nat)
    ensures RegisteredComponentsAsWritten(stored, stackDepth) == Err(StackOverflow)
    decreases stackDepth
  {
    if stackDepth > 0 {
      GetterAsWrittenOverflows(stored, stackDepth - 1);
    }
  }

  /** Every lookup of a registered component overflows the stack as written,
      where the intended lookup returns the stored component. */
  lemma LookupAsWrittenOverflows(stored: Catalog, componentName: string, stackDepth: nat)
    requires componentName in stored
    ensures LookupAsWritten(stored, componentName, stackDepth) == Err(StackOverflow)
    ensures LookupIn(stored, componentName) == Ok(stored[componentName])
  {
    GetterAsWrittenOverflows(stored, stackDepth);
  }
}
