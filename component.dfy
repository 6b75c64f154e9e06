/** The Component entity (src/component/component.ts): a name plus the names of the
    extension points the component offers. Both fields are readonly in the source,
    so the entity is an immutable value here. */
module Components {

  datatype Component = Component(name: string, extensionPoints: seq<string>)

  /** `new Component(name, extensionPoints = [])`. */
  function NewComponent(name: string, extensionPoints: seq<string> := []): (c: Component)
    ensures c.name == name
    ensures c.extensionPoints == extensionPoints
  {
    Component(name, extensionPoints)
  }
}
