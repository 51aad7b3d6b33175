/** k8s/ports.go: port definitions passed to a pod in the PORT_DEFINITIONS
    environment variable, and the label predicates on them. */
module K8sPorts {
  import opened Wrappers
  import opened Text
  import opened Seqs

  const ProbeLabel := "probe"
  const ServiceLabel := "service"
  const ConsulLabel := "consul"

  /** A label value that marks its key as a tag. */
  const TagValue := "tag"

  datatype PortDefinition = PortDefinition(port: int, labels: map<string, string>)

  predicate HasConsulLabel(pd: PortDefinition) {
    ConsulLabel in pd.labels
  }

  predicate HasServiceLabel(pd: PortDefinition) {
    ServiceLabel in pd.labels && pd.labels[ServiceLabel] == "true"
  }

  predicate HasProbeLabel(pd: PortDefinition) {
    ProbeLabel in pd.labels && pd.labels[ProbeLabel] == "true"
  }

  predicate IsService(pd: PortDefinition) {
    HasServiceLabel(pd)
  }

  predicate IsProbe(pd: PortDefinition) {
    HasProbeLabel(pd)
  }

  /** The service name a definition asks for: the consul label's value, which
      may itself be empty, or "" when there is no consul label. */
  function LabelForConsul(pd: PortDefinition): (name: string)
    ensures name != "" ==> HasConsulLabel(pd)
    ensures HasConsulLabel(pd) ==> name == pd.labels[ConsulLabel]
  {
    if HasConsulLabel(pd) then pd.labels[ConsulLabel] else ""
  }

  /** Some definition is a service port. */
  predicate HasServicePortDefined(defs: seq<PortDefinition>) {
    exists i | 0 <= i < |defs| :: IsService(defs[i])
  }

  /** The label keys whose value is "tag". */
  function TagKeys(pd: PortDefinition): (keys: set<string>)
    ensures keys <= pd.labels.Keys
  {
    set k | k in pd.labels && pd.labels[k] == TagValue
  }

  /** getTags: the keys labelled "tag", each once, in the map's iteration order. */
  method GetTags(pd: PortDefinition) returns (tags: seq<string>)
    ensures IsEnumeration(tags, TagKeys(pd))
    ensures |tags| == |TagKeys(pd)|
  {
    tags := [];
    var rest := pd.labels.Keys;
    while rest != {}
      invariant rest <= pd.labels.Keys
      invariant EnumeratedSoFar(tags, TagKeys(pd), rest)
      decreases |rest|
    {
      var key :| key in rest;
      EnumeratedStep(tags, TagKeys(pd), rest, key);
      if pd.labels[key] == TagValue {
        tags := tags + [key];
      }
      rest := rest - {key};
    }
    EnumeratedDone(tags, TagKeys(pd));
  }

  /** The labels are matched exactly: "True", "1" or "yes" do not make a
      service or a probe port, and a consul label alone makes neither. */
  lemma LabelValuesMatchExactly(port: int)
    ensures IsService(PortDefinition(port, map[ServiceLabel := "true"]))
    ensures !IsProbe(PortDefinition(port, map[ServiceLabel := "true"]))
    ensures !IsService(PortDefinition(port, map[ServiceLabel := "True"]))
    ensures !IsService(PortDefinition(port, map[ServiceLabel := "1"]))
    ensures IsProbe(PortDefinition(port, map[ProbeLabel := "true"]))
    ensures !IsService(PortDefinition(port, map[ProbeLabel := "true"]))
    ensures !IsProbe(PortDefinition(port, map[ProbeLabel := "yes"]))
  {
  }

  /** A definition whose only label is a consul label is neither a service nor
      a probe port, and its consul label is the name it asks for. */
  lemma ConsulLabelOnly(port: int, name: string)
    ensures var pd := PortDefinition(port, map[ConsulLabel := name]);
            !IsService(pd) && !IsProbe(pd) && LabelForConsul(pd) == name
  {
  }

  /** The outcome of decoding the JSON held by PORT_DEFINITIONS: a decoding
      error, the JSON literal `null` (which leaves the definitions absent), or a
      list of definitions. */
  datatype Decoded = Malformed(reason: string) | Null | Definitions(defs: seq<PortDefinition>)

  /** getPortDefinitions, given the variable's value and the JSON decoder:
      an empty value means no definitions; otherwise the value, with leading
      and trailing single quotes trimmed, is decoded. `Ok(None)` selects the
      container-port strategy. */
  function GetPortDefinitions(portConfig: string, decode: string -> Decoded): (r: Result<Option<seq<PortDefinition>>>)
    ensures r == Ok(None) <==> portConfig == "" || decode(Trim(portConfig, '\'')).Null?
    ensures r.Err? <==> portConfig != "" && decode(Trim(portConfig, '\'')).Malformed?
    ensures r.Err? ==> r.message == "unable to unmarshal env data: " + decode(Trim(portConfig, '\'')).reason
    ensures r.Ok? && r.value.Some? ==> decode(Trim(portConfig, '\'')) == Definitions(r.value.value)
  {
    if portConfig == "" then Ok(None)
    else
      match decode(Trim(portConfig, '\''))
      case Malformed(reason) => Err("unable to unmarshal env data: " + reason)
      case Null => Ok(None)
      case Definitions(defs) => Ok(Some(defs))
  }
}
