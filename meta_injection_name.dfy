/** The reserved injection name under which a component's own metadata is bound
    (src/get-meta-injection-name.ts). */
module MetaInjection {

  import opened Outcomes

  const MetaPrefix: string := "meta:component//"

  /** `meta:component//${componentName}`. */
  function MetaInjectionName(componentName: string): (r: string)
    ensures |r| == |componentName| + 16
    ensures r[..16] == MetaPrefix
    ensures r[16..] == componentName
  {
    MetaPrefix + componentName
  }

  /** Reads the component name back out of an injection name; `None` when the
      name does not carry the reserved prefix. */
  function ComponentNameOf(injectionName: string): (r: Option<string>)
    ensures r.Some? <==> |injectionName| >= 16 && injectionName[..16] == MetaPrefix
    ensures r.Some? ==> |r.value| == |injectionName| - 16
  {
    if |injectionName| >= 16 && injectionName[..16] == MetaPrefix then Some(injectionName[16..]) else None
  }

  /** Every injection name yields back the component it was made for. */
  lemma ComponentNameOfMetaInjectionName(componentName: string)
    ensures ComponentNameOf(MetaInjectionName(componentName)) == Some(componentName)
  {
  }

  /** Every string carrying the reserved prefix is the injection name of exactly
      the component read back from it. */
  lemma MetaInjectionNameOfComponentName(injectionName: string)
    requires ComponentNameOf(injectionName).Some?
    ensures MetaInjectionName(ComponentNameOf(injectionName).value) == injectionName
  {
  }

  /** Distinct components never share a metadata binding. */
  lemma MetaInjectionNameInjective(a: string, b: string)
    requires MetaInjectionName(a) == MetaInjectionName(b)
    ensures a == b
  {
  }
}
