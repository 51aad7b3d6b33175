/** k8s/provider.go: turning the pod the hook runs in into Consul service
    records, and working out which secured variants to deregister. */
module K8sProvider {
  import opened Wrappers
  import opened Text
  import opened Seqs
  import opened Consul
  import opened K8sUtil
  import opened K8sPorts

  const ConsulLabelKey := "consul"
  const ConsulRegisterLabelKey := "consulContainer"
  const ConsulTagPrefix := "CONSUL_TAG_"
  const PodNameTagPrefix := "k8sPodName: "
  const PodNamespaceTagPrefix := "k8sPodNamespace: "
  const SecuredIdPostfix := "-secured"
  const FailureDomainLabel := "failure-domain.beta.kubernetes.io"

  const NoContainerPortError := "unable to register, cannot find containerPort"
  const NoFailureDomainError := "failure domain labels don't exist"
  const PodUnavailableError := "unable to get pod data from API: could not get valid Pod data after "

  /** A container of the pod: its name, its declared container ports in order,
      and its liveness probe. */
  datatype Container = Container(name: string, ports: seq<int>, livenessProbe: Option<Probe>)

  /** The parts of a pod the hook reads: metadata name, labels and annotations,
      the pod IP from its status, and the containers of its spec. */
  datatype Pod = Pod(
    name: string,
    labels: map<string, string>,
    annotations: map<string, string>,
    podIP: string,
    containers: seq<Container>)

  // ---------------------------------------------------------------------------
  // Identifiers and the instance tag

  /** `<host>_<port>-secured`, the ID of a secured record. */
  function SecuredServiceId(host: string, port: int): string {
    ServiceId(host, port) + SecuredIdPostfix
  }

  /** createInstanceTag: `instance:<pod name>_<port>`. */
  function CreateInstanceTag(podName: string, port: int): string {
    "instance:" + podName + "_" + IntToString(port)
  }

  /** An ID that GenerateSecured treats as secured: "-secured" anywhere in it. */
  predicate IsSecuredId(id: string) {
    Contains(id, SecuredIdPostfix)
  }

  /** For one pod, the instance tag names exactly one port. */
  lemma InstanceTagDeterminesPort(podName: string, p: int, q: int)
    requires CreateInstanceTag(podName, p) == CreateInstanceTag(podName, q)
    ensures p == q
  {
    var n := |"instance:"| + |podName| + 1;
    assert IntToString(p) == CreateInstanceTag(podName, p)[n..];
    assert IntToString(q) == CreateInstanceTag(podName, q)[n..];
    IntToStringInjective(p, q);
  }

  /** A secured ID is never a plain ID, whatever the hosts and ports (a plain ID
      ends with a digit), and it is always classified as secured. */
  lemma SecuredIdsAreDistinct(host: string, p: int, host2: string, q: int)
    ensures SecuredServiceId(host, p) != ServiceId(host2, q)
    ensures IsSecuredId(SecuredServiceId(host, p))
  {
    IntToStringChars(q);
    var plain := ServiceId(host2, q);
    assert plain[|plain| - 1] == IntToString(q)[|IntToString(q)| - 1];
    var secured := SecuredServiceId(host, p);
    assert secured[|secured| - 1] == 'd';
    ContainsSuffix(ServiceId(host, p), SecuredIdPostfix);
  }

  // ---------------------------------------------------------------------------
  // Find and GenerateSecured

  /** Find: whether `val` is an element of `slice`. */
  method Find(slice: seq<string>, val: string) returns (found: bool)
    ensures found <==> val in slice
  {
    for i := 0 to |slice|
      invariant val !in slice[..i]
    {
      if slice[i] == val {
        return true;
      }
    }
    return false;
  }

  /** The IDs of the records, in order. */
  function IdsOf(services: seq<ServiceInstance>): seq<string> {
    seq(|services|, i requires 0 <= i < |services| => services[i].id)
  }

  /** The secured IDs among `ids`, in order. */
  function SecureIds(ids: seq<string>): seq<string> {
    if ids == [] then []
    else SecureIds(ids[..|ids| - 1]) + (if IsSecuredId(ids[|ids| - 1]) then [ids[|ids| - 1]] else [])
  }

  /** The plain (non-secured) IDs among `ids`, in order. */
  function PlainIds(ids: seq<string>): seq<string> {
    if ids == [] then []
    else PlainIds(ids[..|ids| - 1]) + (if !IsSecuredId(ids[|ids| - 1]) then [ids[|ids| - 1]] else [])
  }

  /** Each ID with "-secured" appended. */
  function WithSecuredPostfix(ids: seq<string>): seq<string> {
    seq(|ids|, i requires 0 <= i < |ids| => ids[i] + SecuredIdPostfix)
  }

  /** The candidates that are not among `present`, in order. */
  function Missing(candidates: seq<string>, present: seq<string>): seq<string> {
    if candidates == [] then []
    else
      var last := candidates[|candidates| - 1];
      Missing(candidates[..|candidates| - 1], present) + (if last !in present then [last] else [])
  }

  /** Records that carry nothing but an ID. */
  function IdOnlyRecords(ids: seq<string>): seq<ServiceInstance> {
    seq(|ids|, i requires 0 <= i < |ids| => IdOnly(ids[i]))
  }

  /** The secured IDs are those of `ids` that contain "-secured". */
  lemma {:induction false} SecureIdsMembers(ids: seq<string>)
    ensures forall id :: id in SecureIds(ids) <==> id in ids && IsSecuredId(id)
  {
    if ids != [] {
      SecureIdsMembers(ids[..|ids| - 1]);
      assert ids == ids[..|ids| - 1] + [ids[|ids| - 1]];
    }
  }

  /** The plain IDs are those of `ids` that do not contain "-secured"; there are
      at most as many as IDs. */
  lemma {:induction false} PlainIdsMembers(ids: seq<string>)
    ensures forall id :: id in PlainIds(ids) <==> id in ids && !IsSecuredId(id)
    ensures |PlainIds(ids)| <= |ids|
  {
    if ids != [] {
      PlainIdsMembers(ids[..|ids| - 1]);
      assert ids == ids[..|ids| - 1] + [ids[|ids| - 1]];
    }
  }

  /** The missing candidates are the candidates not present; there are at most
      as many as candidates. */
  lemma {:induction false} MissingMembers(candidates: seq<string>, present: seq<string>)
    ensures forall id :: id in Missing(candidates, present) <==> id in candidates && id !in present
    ensures |Missing(candidates, present)| <= |candidates|
  {
    if candidates != [] {
      MissingMembers(candidates[..|candidates| - 1], present);
      assert candidates == candidates[..|candidates| - 1] + [candidates[|candidates| - 1]];
    }
  }

  /** Visiting one more ID extends the plain or the secured IDs by it. */
  lemma PartitionStep(ids: seq<string>, i: nat)
    requires i < |ids|
    ensures PlainIds(ids[..i + 1]) == PlainIds(ids[..i]) + (if !IsSecuredId(ids[i]) then [ids[i]] else [])
    ensures SecureIds(ids[..i + 1]) == SecureIds(ids[..i]) + (if IsSecuredId(ids[i]) then [ids[i]] else [])
  {
    assert ids[..i + 1][..i] == ids[..i];
  }

  /** Visiting one more plain ID extends the missing secured variants by its
      own unless it is present. */
  lemma MissingStep(ids: seq<string>, i: nat, present: seq<string>)
    requires i < |ids|
    ensures Missing(WithSecuredPostfix(ids[..i + 1]), present)
            == Missing(WithSecuredPostfix(ids[..i]), present)
               + (if ids[i] + SecuredIdPostfix !in present then [ids[i] + SecuredIdPostfix] else [])
  {
    assert WithSecuredPostfix(ids[..i + 1])[..i] == WithSecuredPostfix(ids[..i]);
  }

  /** What GenerateSecured computes: for each plain ID, in input order, the
      secured variant of that ID unless the input already holds it. */
  function SecuredToDeregister(services: seq<ServiceInstance>): seq<ServiceInstance> {
    var ids := IdsOf(services);
    IdOnlyRecords(Missing(WithSecuredPostfix(PlainIds(ids)), SecureIds(ids)))
  }

  /** GenerateSecured: splits the IDs into plain and secured ones, keeps the
      secured variants of the plain IDs that are not among the secured ones, and
      returns them as ID-only records. */
  method GenerateSecured(services: seq<ServiceInstance>) returns (deregisterServices: seq<ServiceInstance>)
    ensures deregisterServices == SecuredToDeregister(services)
  {
    var ids := IdsOf(services);
    var nonSecureIds: seq<string> := [];
    var secureIds: seq<string> := [];
    for i := 0 to |services|
      invariant nonSecureIds == PlainIds(ids[..i])
      invariant secureIds == SecureIds(ids[..i])
    {
      PartitionStep(ids, i);
      if !IsSecuredId(services[i].id) {
        nonSecureIds := nonSecureIds + [services[i].id];
      } else {
        secureIds := secureIds + [services[i].id];
      }
    }
    assert ids[..|services|] == ids;

    var deregisterIds: seq<string> := [];
    for i := 0 to |nonSecureIds|
      invariant deregisterIds == Missing(WithSecuredPostfix(nonSecureIds[..i]), secureIds)
    {
      MissingStep(nonSecureIds, i, secureIds);
      var found := Find(secureIds, nonSecureIds[i] + SecuredIdPostfix);
      if !found {
        deregisterIds := deregisterIds + [nonSecureIds[i] + SecuredIdPostfix];
      }
    }
    assert nonSecureIds[..|nonSecureIds|] == nonSecureIds;

    deregisterServices := [];
    for i := 0 to |deregisterIds|
      invariant deregisterServices == IdOnlyRecords(deregisterIds[..i])
    {
      deregisterServices := deregisterServices + [IdOnly(deregisterIds[i])];
    }
    assert deregisterIds[..|deregisterIds|] == deregisterIds;
  }

  /** Every record to deregister carries only its ID, that ID is a secured one,
      and there are at most as many records as plain input IDs. */
  lemma SecuredToDeregisterShape(services: seq<ServiceInstance>)
    ensures forall r | r in SecuredToDeregister(services) :: r == IdOnly(r.id) && IsSecuredId(r.id)
    ensures |SecuredToDeregister(services)| <= |PlainIds(IdsOf(services))|
  {
    var ids := IdsOf(services);
    var candidates := WithSecuredPostfix(PlainIds(ids));
    var missing := Missing(candidates, SecureIds(ids));
    MissingMembers(candidates, SecureIds(ids));
    forall r | r in IdOnlyRecords(missing) ensures r == IdOnly(r.id) && IsSecuredId(r.id) {
      var i :| 0 <= i < |missing| && IdOnlyRecords(missing)[i] == r;
      assert missing[i] in candidates;
      var j :| 0 <= j < |candidates| && candidates[j] == missing[i];
      ContainsSuffix(PlainIds(ids)[j], SecuredIdPostfix);
    }
  }

  /** An ID is deregistered only as the secured variant `x-secured` of a plain
      input ID `x` that no input record already has. */
  lemma SecuredToDeregisterSound(services: seq<ServiceInstance>, id: string)
    requires IdOnly(id) in SecuredToDeregister(services)
    ensures exists s | s in services :: !IsSecuredId(s.id) && id == s.id + SecuredIdPostfix
    ensures forall s | s in services :: s.id != id
  {
    var ids := IdsOf(services);
    var plain := PlainIds(ids);
    var candidates := WithSecuredPostfix(plain);
    var missing := Missing(candidates, SecureIds(ids));
    MissingMembers(candidates, SecureIds(ids));
    PlainIdsMembers(ids);
    SecureIdsMembers(ids);
    var i :| 0 <= i < |missing| && IdOnlyRecords(missing)[i] == IdOnly(id);
    assert id == missing[i] && id in candidates && id !in SecureIds(ids);
    var j :| 0 <= j < |candidates| && candidates[j] == id;
    assert plain[j] in plain;
    var k :| 0 <= k < |ids| && ids[k] == plain[j];
    assert services[k] in services;
    ContainsSuffix(plain[j], SecuredIdPostfix);
    forall s | s in services ensures s.id != id {
      var m :| 0 <= m < |services| && services[m] == s;
      assert ids[m] == s.id;
    }
  }

  /** Conversely, the secured variant of every plain input ID that no input
      record has is deregistered. */
  lemma SecuredToDeregisterComplete(services: seq<ServiceInstance>, s: ServiceInstance)
    requires s in services && !IsSecuredId(s.id)
    requires forall t | t in services :: t.id != s.id + SecuredIdPostfix
    ensures IdOnly(s.id + SecuredIdPostfix) in SecuredToDeregister(services)
  {
    var id := s.id + SecuredIdPostfix;
    var ids := IdsOf(services);
    var plain := PlainIds(ids);
    var candidates := WithSecuredPostfix(plain);
    var missing := Missing(candidates, SecureIds(ids));
    MissingMembers(candidates, SecureIds(ids));
    PlainIdsMembers(ids);
    SecureIdsMembers(ids);
    var m :| 0 <= m < |services| && services[m] == s;
    assert ids[m] == s.id;
    var j :| 0 <= j < |plain| && plain[j] == s.id;
    assert candidates[j] == id;
    forall k | 0 <= k < |ids| ensures ids[k] != id {
      assert services[k] in services;
    }
    assert id !in SecureIds(ids);
    var i :| 0 <= i < |missing| && missing[i] == id;
    assert IdOnlyRecords(missing)[i] == IdOnly(id);
  }

  /** A plain ID whose secured variant is also present: nothing to deregister. */
  lemma SecuredPairExample()
    ensures SecuredToDeregister([IdOnly("A"), IdOnly("A-secured")]) == []
  {
    ShortNotContains("A", SecuredIdPostfix);
    ContainsSuffix("A", SecuredIdPostfix);
    assert "A" + SecuredIdPostfix == "A-secured";
    var both := ["A", "A-secured"];
    assert IdsOf([IdOnly("A"), IdOnly("A-secured")]) == both;
    assert both[..1] == ["A"];
    assert PlainIds(["A"]) == ["A"];
    assert SecureIds(["A"]) == [];
    assert PlainIds(both) == ["A"];
    assert SecureIds(both) == ["A-secured"];
    assert WithSecuredPostfix(["A"]) == ["A-secured"];
    assert Missing(["A-secured"], ["A-secured"]) == [];
  }

  /** A lone plain ID: its secured variant is deregistered. */
  lemma LonePlainIdExample()
    ensures SecuredToDeregister([IdOnly("A")]) == [IdOnly("A-secured")]
  {
    ShortNotContains("A", SecuredIdPostfix);
    assert "A" + SecuredIdPostfix == "A-secured";
    assert IdsOf([IdOnly("A")]) == ["A"];
    assert PlainIds(["A"]) == ["A"];
    assert SecureIds(["A"]) == [];
    assert WithSecuredPostfix(["A"]) == ["A-secured"];
    assert Missing(["A-secured"], []) == ["A-secured"];
  }

  // ---------------------------------------------------------------------------
  // Container-port strategy

  /** A container that getContainerToRegister accepts: it declares a port and
      either its name is the one the consulContainer label asks for, or there is
      no such label. */
  predicate Qualifies(pod: Pod, c: Container) {
    var defined := ConsulRegisterLabelKey in pod.labels;
    var wanted := if defined then pod.labels[ConsulRegisterLabelKey] else "";
    (c.name == wanted && |c.ports| > 0) || (!defined && |c.ports| > 0)
  }

  /** Container `i` is the first container that qualifies. */
  predicate IsFirstQualifying(pod: Pod, i: int) {
    && 0 <= i < |pod.containers|
    && Qualifies(pod, pod.containers[i])
    && forall j | 0 <= j < i :: !Qualifies(pod, pod.containers[j])
  }

  /** With a consulContainer label only a container of that name with a port
      qualifies; without it any container with a port does. */
  lemma ContainerSelectionRule(pod: Pod, c: Container)
    ensures ConsulRegisterLabelKey in pod.labels ==>
              (Qualifies(pod, c) <==> c.name == pod.labels[ConsulRegisterLabelKey] && |c.ports| > 0)
    ensures ConsulRegisterLabelKey !in pod.labels ==> (Qualifies(pod, c) <==> |c.ports| > 0)
  {
  }

  /** getContainerToRegister: the first container that qualifies, or an error
      when there is none. */
  method GetContainerToRegister(pod: Pod) returns (r: Result<Container>)
    ensures r.Err? <==> forall i | 0 <= i < |pod.containers| :: !Qualifies(pod, pod.containers[i])
    ensures r.Err? ==> r.message == NoContainerPortError
    ensures r.Ok? ==> exists i :: IsFirstQualifying(pod, i) && r.value == pod.containers[i]
  {
    var containerDefined := ConsulRegisterLabelKey in pod.labels;
    var containerName := if containerDefined then pod.labels[ConsulRegisterLabelKey] else "";
    for i := 0 to |pod.containers|
      invariant forall j | 0 <= j < i :: !Qualifies(pod, pod.containers[j])
    {
      var container := pod.containers[i];
      if container.name == containerName && |container.ports| > 0 {
        assert IsFirstQualifying(pod, i);
        return Ok(container);
      } else if !containerDefined && |container.ports| > 0 {
        assert IsFirstQualifying(pod, i);
        return Ok(container);
      }
    }
    return Err(NoContainerPortError);
  }

  /** The one record of the container-port strategy for container `c`: its
      first port on the pod IP, the instance tag ahead of the global tags, and
      the check derived from its liveness probe. */
  predicate IsContainerRecord(rec: ServiceInstance, serviceName: string, pod: Pod, c: Container, globalTags: seq<string>)
    requires |c.ports| > 0
  {
    var port := c.ports[0];
    && rec.id == ServiceId(pod.podIP, port)
    && rec.name == serviceName
    && rec.host == pod.podIP
    && rec.port == port
    && rec.tags == [CreateInstanceTag(pod.name, port)] + globalTags
    && rec.check == ConvertToConsulCheck(c.livenessProbe, pod.podIP)
  }

  /** The outcome of the container-port strategy: the error when no container
      qualifies, otherwise a single record for the first that does. */
  ghost predicate ContainerPortOutcome(r: Result<seq<ServiceInstance>>, serviceName: string, pod: Pod, globalTags: seq<string>) {
    if forall i | 0 <= i < |pod.containers| :: !Qualifies(pod, pod.containers[i]) then
      r == Err(NoContainerPortError)
    else
      && r.Ok?
      && |r.value| == 1
      && exists i :: IsFirstQualifying(pod, i) && IsContainerRecord(r.value[0], serviceName, pod, pod.containers[i], globalTags)
  }

  /** generateFromContainerPorts */
  method GenerateFromContainerPorts(serviceName: string, pod: Pod, globalTags: seq<string>) returns (r: Result<seq<ServiceInstance>>)
    ensures ContainerPortOutcome(r, serviceName, pod, globalTags)
  {
    var container := GetContainerToRegister(pod);
    if container.Err? {
      return Err(container.message);
    }
    var c := container.value;
    var podName := pod.name;
    var host := pod.podIP;
    var port := c.ports[0];
    var tags := [CreateInstanceTag(podName, port)];
    tags := tags + globalTags;
    var service := ServiceInstance(ServiceId(host, port), serviceName, host, port, tags, ConvertToConsulCheck(c.livenessProbe, host));
    r := Ok([service]);
    assert IsContainerRecord(service, serviceName, pod, c, globalTags);
  }

  /** With consulContainer naming the second container, its port is chosen;
      without the label the first container with a port is; and when the
      labelled container has no port nothing qualifies. */
  lemma ContainerSelectionExamples(ip: string)
    ensures var app := Container("name", [8080], None);
            var sidecar := Container("sidecar", [8181], None);
            var labelled := Pod("", map[ConsulLabelKey := "serviceName", ConsulRegisterLabelKey := "sidecar"], map[], ip, [app, sidecar]);
            var unlabelled := Pod("", map[ConsulLabelKey := "serviceName"], map[], ip, [app, sidecar]);
            var portless := Pod("", labelled.labels, map[], ip, [app, Container("sidecar", [], None)]);
            && IsFirstQualifying(labelled, 1)
            && IsFirstQualifying(unlabelled, 0)
            && forall i | 0 <= i < |portless.containers| :: !Qualifies(portless, portless.containers[i])
  {
    var app := Container("name", [8080], None);
    var labelled := Pod("", map[ConsulLabelKey := "serviceName", ConsulRegisterLabelKey := "sidecar"], map[], ip, [app, Container("sidecar", [8181], None)]);
    assert labelled.labels[ConsulRegisterLabelKey] == "sidecar";
    assert !Qualifies(labelled, app);
  }

  // ---------------------------------------------------------------------------
  // Port-definition strategy

  /** Definition `i` yields a record: it is a service port, it names a service,
      or it is the first definition and no definition is a service port. */
  predicate Registrable(defs: seq<PortDefinition>, i: nat)
    requires i < |defs|
  {
    IsService(defs[i]) || LabelForConsul(defs[i]) != "" || (i == 0 && !HasServicePortDefined(defs))
  }

  /** The indices below `n` of the definitions that yield a record, ascending. */
  function Selected(defs: seq<PortDefinition>, n: nat): seq<nat>
    requires n <= |defs|
  {
    if n == 0 then [] else Selected(defs, n - 1) + (if Registrable(defs, n - 1) then [n - 1] else [])
  }

  /** The selected indices are exactly the registrable ones below `n`. */
  lemma {:induction false} SelectedMembers(defs: seq<PortDefinition>, n: nat)
    requires n <= |defs|
    ensures |Selected(defs, n)| <= n
    ensures forall k | 0 <= k < |Selected(defs, n)| :: Selected(defs, n)[k] < n && Registrable(defs, Selected(defs, n)[k])
    ensures forall i | 0 <= i < n && Registrable(defs, i) :: i in Selected(defs, n)
  {
    if n > 0 {
      SelectedMembers(defs, n - 1);
    }
  }

  /** The selected indices are in definition order. */
  lemma {:induction false} SelectedAscending(defs: seq<PortDefinition>, n: nat)
    requires n <= |defs|
    ensures forall a, b | 0 <= a < b < |Selected(defs, n)| :: Selected(defs, n)[a] < Selected(defs, n)[b]
  {
    if n > 0 {
      SelectedAscending(defs, n - 1);
      SelectedMembers(defs, n - 1);
    }
  }

  /** The service name in force once the first `n` definitions are visited: the
      last non-empty consul label among them, or the pod's service name. */
  function RunningName(serviceName: string, defs: seq<PortDefinition>, n: nat): string
    requires n <= |defs|
  {
    if n == 0 then serviceName
    else if LabelForConsul(defs[n - 1]) != "" then LabelForConsul(defs[n - 1])
    else RunningName(serviceName, defs, n - 1)
  }

  /** The running name is the pod's service name until a definition names a
      service ... */
  lemma {:induction false} RunningNameWithoutLabels(serviceName: string, defs: seq<PortDefinition>, n: nat)
    requires n <= |defs|
    ensures (forall j | 0 <= j < n :: LabelForConsul(defs[j]) == "") ==> RunningName(serviceName, defs, n) == serviceName
  {
    if n > 0 {
      RunningNameWithoutLabels(serviceName, defs, n - 1);
    }
  }

  /** ... and from then on the name given by the last such definition. */
  lemma {:induction false} RunningNameIsLastLabel(serviceName: string, defs: seq<PortDefinition>, n: nat)
    requires n <= |defs|
    ensures forall j | 0 <= j < n && LabelForConsul(defs[j]) != "" && (forall m | j < m < n :: LabelForConsul(defs[m]) == "") ::
              RunningName(serviceName, defs, n) == LabelForConsul(defs[j])
  {
    if n > 0 {
      RunningNameIsLastLabel(serviceName, defs, n - 1);
    }
  }

  /** The record definition `pd` yields under the running name `name`: the ID is
      the secured one exactly when the name contains "-secured", and the tags
      are the global tags, then the definition's tag keys each once, then the
      instance tag. */
  predicate DescribesDefinition(rec: ServiceInstance, name: string, pd: PortDefinition, pod: Pod, check: Option<Check>, globalTags: seq<string>) {
    && rec.id == (if IsSecuredId(name) then SecuredServiceId(pod.podIP, pd.port) else ServiceId(pod.podIP, pd.port))
    && rec.name == name
    && rec.host == pod.podIP
    && rec.port == pd.port
    && rec.check == check
    && |rec.tags| == |globalTags| + |TagKeys(pd)| + 1
    && rec.tags[..|globalTags|] == globalTags
    && IsEnumeration(rec.tags[|globalTags|..|rec.tags| - 1], TagKeys(pd))
    && rec.tags[|rec.tags| - 1] == CreateInstanceTag(pod.name, pd.port)
  }

  /** The record the loop of generateFromPortDefinitions builds for `pd`
      describes `pd`, whatever order the tag keys come in. */
  lemma RecordDescribesDefinition(name: string, pd: PortDefinition, pod: Pod, check: Option<Check>,
                                  globalTags: seq<string>, portTags: seq<string>)
    requires IsEnumeration(portTags, TagKeys(pd))
    ensures var id := if IsSecuredId(name) then SecuredServiceId(pod.podIP, pd.port) else ServiceId(pod.podIP, pd.port);
            var tags := globalTags + portTags + [CreateInstanceTag(pod.name, pd.port)];
            DescribesDefinition(ServiceInstance(id, name, pod.podIP, pd.port, tags, check), name, pd, pod, check, globalTags)
  {
    var tags := globalTags + portTags + [CreateInstanceTag(pod.name, pd.port)];
    EnumerationLength(portTags, TagKeys(pd));
    assert tags[..|globalTags|] == globalTags;
    assert tags[|globalTags|..|tags| - 1] == portTags;
  }

  /** The check every port-definition record carries: the first container's
      liveness probe, on the pod IP. */
  function FirstContainerCheck(pod: Pod): Option<Check>
    requires |pod.containers| > 0
  {
    ConvertToConsulCheck(pod.containers[0].livenessProbe, pod.podIP)
  }

  /** How a record relates to the index of the definition it comes from: it
      describes that definition under the running name in force there. */
  function DefinitionRecord(serviceName: string, defs: seq<PortDefinition>, pod: Pod, globalTags: seq<string>)
    : (ServiceInstance, nat) -> bool
    requires |pod.containers| > 0
  {
    (rec: ServiceInstance, i: nat) =>
      i < |defs| && DescribesDefinition(rec, RunningName(serviceName, defs, i + 1), defs[i], pod, FirstContainerCheck(pod), globalTags)
  }

  /** Applying the relation: record `rec` is related to index `i` when `i` is a
      definition index and `rec` describes that definition under the running
      name in force there. */
  lemma DefinitionRecordApply(serviceName: string, defs: seq<PortDefinition>, pod: Pod, globalTags: seq<string>,
                              rec: ServiceInstance, i: nat)
    requires |pod.containers| > 0 && i < |defs|
    ensures DefinitionRecord(serviceName, defs, pod, globalTags)(rec, i)
            == DescribesDefinition(rec, RunningName(serviceName, defs, i + 1), defs[i], pod, FirstContainerCheck(pod), globalTags)
  {
  }

  /** The record the loop builds at index `idx`, under the running name in
      force there, is related to `idx`. */
  lemma DefinitionRecordHolds(serviceName: string, defs: seq<PortDefinition>, pod: Pod, globalTags: seq<string>,
                              idx: nat, name: string, portTags: seq<string>, service: ServiceInstance)
    requires |pod.containers| > 0 && idx < |defs|
    requires name == RunningName(serviceName, defs, idx + 1)
    requires IsEnumeration(portTags, TagKeys(defs[idx]))
    requires var pd := defs[idx];
             service == ServiceInstance(
               if IsSecuredId(name) then SecuredServiceId(pod.podIP, pd.port) else ServiceId(pod.podIP, pd.port),
               name, pod.podIP, pd.port, globalTags + portTags + [CreateInstanceTag(pod.name, pd.port)],
               FirstContainerCheck(pod))
    ensures DefinitionRecord(serviceName, defs, pod, globalTags)(service, idx)
  {
    RecordDescribesDefinition(name, defs[idx], pod, FirstContainerCheck(pod), globalTags, portTags);
    DefinitionRecordApply(serviceName, defs, pod, globalTags, service, idx);
  }

  /** generateFromPortDefinitions: one record per selected definition, in
      definition order. The first container must exist: the source indexes it
      unconditionally. */
  method GenerateFromPortDefinitions(serviceName: string, defs: seq<PortDefinition>, pod: Pod, globalTags: seq<string>)
    returns (services: seq<ServiceInstance>)
    requires |pod.containers| > 0
    ensures |services| <= |defs|
    ensures Follows(services, Selected(defs, |defs|), DefinitionRecord(serviceName, defs, pod, globalTags))
  {
    ghost var describes := DefinitionRecord(serviceName, defs, pod, globalTags);
    services := [];
    var host := pod.podIP;
    var podName := pod.name;
    var container := pod.containers[0];
    var name := serviceName;
    for idx := 0 to |defs|
      invariant name == RunningName(serviceName, defs, idx)
      invariant Follows(services, Selected(defs, idx), describes)
    {
      var portDefinition := defs[idx];
      var labeledServiceName := LabelForConsul(portDefinition);
      if labeledServiceName != "" {
        name := labeledServiceName;
      }
      if IsService(portDefinition) || labeledServiceName != "" || (idx == 0 && !HasServicePortDefined(defs)) {
        var id := ServiceId(host, portDefinition.port);
        if IsSecuredId(name) {
          id := SecuredServiceId(host, portDefinition.port);
        }
        var portTags := GetTags(portDefinition);
        var tags := globalTags + portTags + [CreateInstanceTag(podName, portDefinition.port)];
        var service := ServiceInstance(id, name, host, portDefinition.port, tags, ConvertToConsulCheck(container.livenessProbe, host));
        DefinitionRecordHolds(serviceName, defs, pod, globalTags, idx, name, portTags, service);
        FollowsSnoc(services, Selected(defs, idx), describes, service, idx);
        services := services + [service];
      } else {
        assert Selected(defs, idx + 1) == Selected(defs, idx);
      }
      // A probe port that is not also registrable is skipped, as is any other
      // unmarked definition.
    }
    SelectedMembers(defs, |defs|);
  }

  /** Without service ports and consul labels only the first definition, the
      default port, yields a record. */
  lemma {:induction false} DefaultPortRule(defs: seq<PortDefinition>, n: nat)
    requires 1 <= n <= |defs|
    requires forall i | 0 <= i < |defs| :: !IsService(defs[i]) && LabelForConsul(defs[i]) == ""
    ensures Selected(defs, n) == [0]
  {
    if n == 1 {
      assert !HasServicePortDefined(defs);
      assert Registrable(defs, 0);
    } else {
      DefaultPortRule(defs, n - 1);
    }
  }

  /** Once some definition is a service port, the default-port rule is off:
      without consul labels exactly the service ports yield records. */
  lemma ServicePortsOnly(defs: seq<PortDefinition>)
    requires HasServicePortDefined(defs)
    requires forall i | 0 <= i < |defs| :: LabelForConsul(defs[i]) == ""
    ensures forall i | 0 <= i < |defs| :: i in Selected(defs, |defs|) <==> IsService(defs[i])
  {
    var sel := Selected(defs, |defs|);
    SelectedMembers(defs, |defs|);
    forall i | 0 <= i < |defs| && i in sel ensures IsService(defs[i]) {
      var k :| 0 <= k < |sel| && sel[k] == i;
      assert Registrable(defs, sel[k]);
    }
  }

  /** A service port, a probe port and a port naming a secured service: the
      probe port yields nothing; the service port keeps the pod's service name
      and a plain ID, the named port takes its own name and a secured ID. */
  lemma PortDefinitionsExample(serviceName: string)
    requires !IsSecuredId(serviceName)
    ensures var defs := [PortDefinition(31000, map[ServiceLabel := "true"]),
                         PortDefinition(31001, map[ProbeLabel := "true"]),
                         PortDefinition(31002, map[ConsulLabel := "svc-secured"])];
            && Selected(defs, 3) == [0, 2]
            && RunningName(serviceName, defs, 1) == serviceName
            && RunningName(serviceName, defs, 3) == "svc-secured"
            && IsSecuredId("svc-secured")
  {
    var defs := [PortDefinition(31000, map[ServiceLabel := "true"]),
                 PortDefinition(31001, map[ProbeLabel := "true"]),
                 PortDefinition(31002, map[ConsulLabel := "svc-secured"])];
    assert IsService(defs[0]) && LabelForConsul(defs[0]) == "";
    assert !IsService(defs[1]) && LabelForConsul(defs[1]) == "";
    assert LabelForConsul(defs[2]) == "svc-secured";
    assert Selected(defs, 1) == [0];
    assert Selected(defs, 2) == [0];
    ContainsSuffix("svc", SecuredIdPostfix);
    assert "svc" + SecuredIdPostfix == "svc-secured";
  }

  // ---------------------------------------------------------------------------
  // Global tags

  /** A node label key that carries a failure domain. */
  predicate IsFailureDomainKey(key: string) {
    Contains(key, FailureDomainLabel)
  }

  /** The failure-domain keys among the node labels. */
  function FailureDomainKeys(nodeLabels: map<string, string>): (keys: set<string>)
    ensures keys <= nodeLabels.Keys
  {
    set k | k in nodeLabels && IsFailureDomainKey(k)
  }

  /** The node labels whose failure-domain keys all hold a '/': the source
      takes the second '/'-separated piece of each such key. */
  predicate SlashedFailureDomainKeys(nodeLabels: map<string, string>) {
    forall k | k in nodeLabels && IsFailureDomainKey(k) :: '/' in k
  }

  /** `<name>:<value>` for a label key `<prefix>/<name>[/...]`. */
  function FailureDomainTag(key: string, value: string): string
    requires '/' in key
  {
    SplitFindsSeparator(key, '/');
    Split(key, "/")[1] + ":" + value
  }

  /** The tags for the failure-domain keys `keys`, in that order. */
  function FailureDomainTagsOf(nodeLabels: map<string, string>, keys: seq<string>): (tags: seq<string>)
    requires forall k | k in keys :: k in nodeLabels && '/' in k
    ensures |tags| == |keys|
    ensures forall i | 0 <= i < |keys| :: tags[i] == FailureDomainTag(keys[i], nodeLabels[keys[i]])
  {
    if keys == [] then []
    else
      var last := keys[|keys| - 1];
      FailureDomainTagsOf(nodeLabels, keys[..|keys| - 1]) + [FailureDomainTag(last, nodeLabels[last])]
  }

  /** The label part of GetFailureDomainTags: one tag per failure-domain key,
      in the map's iteration order (`keys`), or an error when there is none. */
  method FailureDomainTags(nodeLabels: map<string, string>) returns (r: Result<seq<string>>, ghost keys: seq<string>)
    requires SlashedFailureDomainKeys(nodeLabels)
    ensures IsEnumeration(keys, FailureDomainKeys(nodeLabels))
    ensures r.Err? <==> FailureDomainKeys(nodeLabels) == {}
    ensures r.Err? ==> r.message == NoFailureDomainError
    ensures r.Ok? ==> r.value == FailureDomainTagsOf(nodeLabels, keys)
  {
    var tags: seq<string> := [];
    keys := [];
    var rest := nodeLabels.Keys;
    while rest != {}
      invariant rest <= nodeLabels.Keys
      invariant EnumeratedSoFar(keys, FailureDomainKeys(nodeLabels), rest)
      invariant tags == FailureDomainTagsOf(nodeLabels, keys)
      decreases |rest|
    {
      var k :| k in rest;
      EnumeratedStep(keys, FailureDomainKeys(nodeLabels), rest, k);
      if IsFailureDomainKey(k) {
        tags := tags + [FailureDomainTag(k, nodeLabels[k])];
        assert (keys + [k])[..|keys|] == keys;
        keys := keys + [k];
      }
      rest := rest - {k};
    }
    EnumeratedDone(keys, FailureDomainKeys(nodeLabels));
    if |tags| < 1 {
      return Err(NoFailureDomainError), keys;
    }
    r := Ok(tags);
  }

  /** A key `<prefix>/<name>` whose two parts hold no '/' gives the tag
      `<name>:<value>`. */
  lemma FailureDomainTagOfKey(prefix: string, name: string, value: string)
    requires '/' !in prefix && '/' !in name
    ensures FailureDomainTag(prefix + "/" + name, value) == name + ":" + value
  {
    assert prefix + "/" + name == prefix + ['/'] + name;
    SplitAtOnlySeparator(prefix, name, '/');
  }

  /** The identity tags: pod name and namespace, only when both are known. */
  function IdentityTags(podName: string, podNamespace: string): seq<string> {
    if podName != "" && podNamespace != "" then [PodNameTagPrefix + podName, PodNamespaceTagPrefix + podNamespace] else []
  }

  /** The annotation keys whose values become tags: prefixed CONSUL_TAG_ and with
      a non-empty value. */
  function AnnotationTagKeys(annotations: map<string, string>): (keys: set<string>)
    ensures keys <= annotations.Keys
  {
    set k | k in annotations && HasPrefix(k, ConsulTagPrefix) && |annotations[k]| > 0
  }

  /** The values of `keys` in `m`, in order. */
  function ValuesOf(m: map<string, string>, keys: seq<string>): (vs: seq<string>)
    requires forall k | k in keys :: k in m
    ensures |vs| == |keys|
    ensures forall i | 0 <= i < |keys| :: vs[i] == m[keys[i]]
  {
    if keys == [] then [] else ValuesOf(m, keys[..|keys| - 1]) + [m[keys[|keys| - 1]]]
  }

  /** Appending a key appends its value. */
  lemma ValuesOfSnoc(m: map<string, string>, keys: seq<string>, key: string, prefix: seq<string>)
    requires forall k | k in keys :: k in m
    requires key in m
    ensures prefix + ValuesOf(m, keys) + [m[key]] == prefix + ValuesOf(m, keys + [key])
  {
    assert (keys + [key])[..|keys|] == keys;
  }

  /** The tag assembly of Get: identity tags, then the failure-domain tags, then
      the values of the tagging annotations in the map's iteration order
      (`keys`). */
  method BuildGlobalTags(podName: string, podNamespace: string, failureDomainTags: seq<string>, annotations: map<string, string>)
    returns (globalTags: seq<string>, ghost keys: seq<string>)
    ensures var fixed := IdentityTags(podName, podNamespace) + failureDomainTags;
            && |globalTags| == |fixed| + |AnnotationTagKeys(annotations)|
            && globalTags[..|fixed|] == fixed
            && forall v :: multiset(globalTags[|fixed|..])[v] == |TaggingKeysWith(annotations, v)|
    ensures IsEnumeration(keys, AnnotationTagKeys(annotations))
    ensures globalTags == IdentityTags(podName, podNamespace) + failureDomainTags + ValuesOf(annotations, keys)
  {
    globalTags := [];
    if podName != "" && podNamespace != "" {
      globalTags := globalTags + [PodNameTagPrefix + podName];
      globalTags := globalTags + [PodNamespaceTagPrefix + podNamespace];
    }
    globalTags := globalTags + failureDomainTags;
    globalTags, keys := AppendAnnotationTags(globalTags, annotations);
  }

  /** The annotation loop of Get: the value of every annotation whose key has
      the tag prefix and whose value is non-empty is appended, in the map's
      iteration order `keys`. */
  method AppendAnnotationTags(tags: seq<string>, annotations: map<string, string>)
    returns (globalTags: seq<string>, ghost keys: seq<string>)
    ensures |globalTags| == |tags| + |AnnotationTagKeys(annotations)|
    ensures globalTags[..|tags|] == tags
    ensures forall v :: multiset(globalTags[|tags|..])[v] == |TaggingKeysWith(annotations, v)|
    ensures IsEnumeration(keys, AnnotationTagKeys(annotations))
    ensures globalTags == tags + ValuesOf(annotations, keys)
  {
    globalTags := tags;
    keys := [];
    var rest := annotations.Keys;
    while rest != {}
      invariant rest <= annotations.Keys
      invariant EnumeratedSoFar(keys, AnnotationTagKeys(annotations), rest)
      invariant globalTags == tags + ValuesOf(annotations, keys)
      decreases |rest|
    {
      var key :| key in rest;
      EnumeratedStep(keys, AnnotationTagKeys(annotations), rest, key);
      var value := annotations[key];
      if HasPrefix(key, ConsulTagPrefix) && |value| > 0 {
        ValuesOfSnoc(annotations, keys, key, tags);
        globalTags := globalTags + [value];
        keys := keys + [key];
      }
      rest := rest - {key};
    }
    EnumeratedDone(keys, AnnotationTagKeys(annotations));
    AppendedAnnotationTags(tags, annotations, keys, globalTags);
  }

  /** The keys among `keys` whose value in `m` is `v`. */
  function KeysHolding(m: map<string, string>, keys: seq<string>, v: string): set<string>
  {
    set k | k in keys && k in m && m[k] == v
  }

  /** Appending a key adds it to the keys holding `v` exactly when it holds `v`. */
  lemma KeysHoldingSnoc(m: map<string, string>, keys: seq<string>, last: string, v: string)
    requires last in m
    ensures KeysHolding(m, keys + [last], v) == KeysHolding(m, keys, v) + (if m[last] == v then {last} else {})
  {
    assert forall k :: k in keys + [last] <==> k in keys || k == last;
  }

  /** The last key adds one occurrence of `v` exactly when its value is `v`. */
  lemma ValueCountStep(m: map<string, string>, keys: seq<string>, v: string)
    requires forall k | k in keys :: k in m
    requires keys != []
    ensures multiset(ValuesOf(m, keys))[v]
            == multiset(ValuesOf(m, keys[..|keys| - 1]))[v] + (if m[keys[|keys| - 1]] == v then 1 else 0)
  {
    assert ValuesOf(m, keys) == ValuesOf(m, keys[..|keys| - 1]) + [m[keys[|keys| - 1]]];
  }

  /** The last key, new to the others, adds itself to the keys holding `v`
      exactly when its value is `v`. */
  lemma HoldingCountStep(m: map<string, string>, keys: seq<string>, v: string)
    requires forall k | k in keys :: k in m
    requires keys != [] && keys[|keys| - 1] !in keys[..|keys| - 1]
    ensures |KeysHolding(m, keys, v)|
            == |KeysHolding(m, keys[..|keys| - 1], v)| + (if m[keys[|keys| - 1]] == v then 1 else 0)
  {
    var prefix := keys[..|keys| - 1];
    var last := keys[|keys| - 1];
    assert keys == prefix + [last];
    KeysHoldingSnoc(m, prefix, last, v);
    assert last !in KeysHolding(m, prefix, v);
  }

  /** Each annotation value occurs among the annotation tags once per tagging
      key that holds it: duplicates are kept. */
  lemma {:induction false} AnnotationValueCount(m: map<string, string>, keys: seq<string>, v: string)
    requires forall k | k in keys :: k in m
    requires Distinct(keys)
    ensures multiset(ValuesOf(m, keys))[v] == |KeysHolding(m, keys, v)|
    decreases |keys|
  {
    if keys != [] {
      var prefix := keys[..|keys| - 1];
      var last := keys[|keys| - 1];
      DistinctPrefix(keys);
      AnnotationValueCount(m, prefix, v);
      ValueCountStep(m, keys, v);
      HoldingCountStep(m, keys, v);
    }
  }

  /** Two sequences with the same elements have the same keys holding `v`. */
  lemma KeysHoldingSameElements(m: map<string, string>, keys1: seq<string>, keys2: seq<string>, v: string)
    requires forall k | k in keys1 :: k in keys2
    requires forall k | k in keys2 :: k in keys1
    ensures KeysHolding(m, keys1, v) == KeysHolding(m, keys2, v)
  {
  }

  /** The annotation tags do not depend on the iteration order: any two
      enumerations of the tagging keys give the same multiset of tags. */
  lemma AnnotationTagsOrderIndependent(annotations: map<string, string>, keys1: seq<string>, keys2: seq<string>)
    requires IsEnumeration(keys1, AnnotationTagKeys(annotations))
    requires IsEnumeration(keys2, AnnotationTagKeys(annotations))
    ensures multiset(ValuesOf(annotations, keys1)) == multiset(ValuesOf(annotations, keys2))
  {
    forall v ensures multiset(ValuesOf(annotations, keys1))[v] == multiset(ValuesOf(annotations, keys2))[v] {
      AnnotationValueCount(annotations, keys1, v);
      AnnotationValueCount(annotations, keys2, v);
      KeysHoldingSameElements(annotations, keys1, keys2, v);
    }
  }

  /** The tagging annotation keys whose value is `v`. */
  function TaggingKeysWith(annotations: map<string, string>, v: string): (keys: set<string>)
    ensures keys <= AnnotationTagKeys(annotations)
  {
    set k | k in AnnotationTagKeys(annotations) && annotations[k] == v
  }

  /** Whatever the iteration order, each value occurs among the annotation
      tags once per tagging annotation that holds it. */
  lemma AnnotationTagCount(annotations: map<string, string>, keys: seq<string>, v: string)
    requires IsEnumeration(keys, AnnotationTagKeys(annotations))
    ensures multiset(ValuesOf(annotations, keys))[v] == |TaggingKeysWith(annotations, v)|
  {
    AnnotationValueCount(annotations, keys, v);
    assert KeysHolding(annotations, keys, v) == TaggingKeysWith(annotations, v);
  }

  /** The tags appended after `tags` are the annotation tags, each value once
      per tagging annotation that holds it. */
  lemma AppendedAnnotationTags(tags: seq<string>, annotations: map<string, string>, keys: seq<string>,
                               globalTags: seq<string>)
    requires IsEnumeration(keys, AnnotationTagKeys(annotations))
    requires globalTags == tags + ValuesOf(annotations, keys)
    ensures |globalTags| == |tags| + |AnnotationTagKeys(annotations)|
    ensures globalTags[..|tags|] == tags
    ensures forall v :: multiset(globalTags[|tags|..])[v] == |TaggingKeysWith(annotations, v)|
  {
    EnumerationLength(keys, AnnotationTagKeys(annotations));
    assert globalTags[|tags|..] == ValuesOf(annotations, keys);
    forall v ensures multiset(globalTags[|tags|..])[v] == |TaggingKeysWith(annotations, v)| {
      AnnotationTagCount(annotations, keys, v);
    }
  }

  /** An annotation with an empty value gives no tag. */
  lemma EmptyAnnotationExample(keys: seq<string>)
    requires IsEnumeration(keys, AnnotationTagKeys(map["CONSUL_TAG_0" := "KEY0: VALUE0", "CONSUL_TAG_1" := ""]))
    ensures ValuesOf(map["CONSUL_TAG_0" := "KEY0: VALUE0", "CONSUL_TAG_1" := ""], keys) == ["KEY0: VALUE0"]
  {
    var m := map["CONSUL_TAG_0" := "KEY0: VALUE0", "CONSUL_TAG_1" := ""];
    assert HasPrefix("CONSUL_TAG_0", ConsulTagPrefix);
    assert AnnotationTagKeys(m) == {"CONSUL_TAG_0"};
    EnumerationLength(keys, AnnotationTagKeys(m));
    assert keys[0] in AnnotationTagKeys(m);
  }

  /** Two tagging annotations with the same value give that tag twice. */
  lemma RepeatedAnnotationExample(keys: seq<string>)
    requires IsEnumeration(keys, AnnotationTagKeys(map["CONSUL_TAG_0" := "KEY0: VALUE0", "CONSUL_TAG_1" := "KEY0: VALUE0"]))
    ensures multiset(ValuesOf(map["CONSUL_TAG_0" := "KEY0: VALUE0", "CONSUL_TAG_1" := "KEY0: VALUE0"], keys))["KEY0: VALUE0"] == 2
  {
    var m := map["CONSUL_TAG_0" := "KEY0: VALUE0", "CONSUL_TAG_1" := "KEY0: VALUE0"];
    assert HasPrefix("CONSUL_TAG_0", ConsulTagPrefix);
    assert HasPrefix("CONSUL_TAG_1", ConsulTagPrefix);
    assert AnnotationTagKeys(m) == {"CONSUL_TAG_0", "CONSUL_TAG_1"};
    AnnotationValueCount(m, keys, "KEY0: VALUE0");
    assert "CONSUL_TAG_0" in keys && "CONSUL_TAG_1" in keys;
    assert KeysHolding(m, keys, "KEY0: VALUE0") == {"CONSUL_TAG_0", "CONSUL_TAG_1"};
  }

  // ---------------------------------------------------------------------------
  // Pod retrieval, strategy choice and Get

  /** A fetch that getPodWithRetry accepts: a pod that already has an IP. */
  predicate IsReady(fetch: Result<Pod>) {
    fetch.Ok? && fetch.value.podIP != ""
  }

  /** The acceptance rule of getPodWithRetry over the fetches made before the
      timeout: the first pod that has an IP, if any. */
  function FirstReadyPod(fetches: seq<Result<Pod>>): (r: Option<Pod>)
    ensures r.None? <==> forall i | 0 <= i < |fetches| :: !IsReady(fetches[i])
    ensures r.Some? ==> exists i | 0 <= i < |fetches| ::
              && fetches[i] == Ok(r.value)
              && IsReady(fetches[i])
              && forall j | 0 <= j < i :: !IsReady(fetches[j])
  {
    if fetches == [] then None
    else if IsReady(fetches[0]) then Some(fetches[0].value)
    else
      var r := FirstReadyPod(fetches[1..]);
      assert forall i | 1 <= i < |fetches| :: fetches[i] == fetches[1..][i - 1];
      r
  }

  /** Three fetches of a pod without an IP, then one with an IP: the fourth is
      taken. Failed fetches alone give no pod. */
  lemma FirstReadyPodExamples(waiting: Pod, ready: Pod)
    requires waiting.podIP == "" && ready.podIP != ""
    ensures FirstReadyPod([Ok(waiting), Ok(waiting), Ok(waiting), Ok(ready)]) == Some(ready)
    ensures FirstReadyPod([Err("error"), Err("error")]) == None
  {
    var fetches := [Ok(waiting), Ok(waiting), Ok(waiting), Ok(ready)];
    assert fetches[1..] == [Ok(waiting), Ok(waiting), Ok(ready)];
    assert fetches[1..][1..] == [Ok(waiting), Ok(ready)];
    assert fetches[1..][1..][1..] == [Ok(ready)];
    assert FirstReadyPod([Ok(ready)]) == Some(ready);
    assert FirstReadyPod([Ok(waiting), Ok(ready)]) == Some(ready);
    assert FirstReadyPod([Ok(waiting), Ok(waiting), Ok(ready)]) == Some(ready);
    var failed: seq<Result<Pod>> := [Err("error"), Err("error")];
    assert !IsReady(failed[0]) && !IsReady(failed[1]);
  }

  /** The outcome of generateServices: the port-definitions error, or the
      container-port strategy when there are no definitions, or the
      port-definition strategy. */
  ghost predicate ServicesOutcome(r: Result<seq<ServiceInstance>>, serviceName: string, pod: Pod, globalTags: seq<string>,
                                  portConfig: string, decode: string -> Decoded)
  {
    match GetPortDefinitions(portConfig, decode)
    case Err(message) => r == Err(message)
    case Ok(None) => ContainerPortOutcome(r, serviceName, pod, globalTags)
    case Ok(Some(defs)) =>
      |pod.containers| > 0 && r.Ok? && Follows(r.value, Selected(defs, |defs|), DefinitionRecord(serviceName, defs, pod, globalTags))
  }

  /** The pods for which the port-definition strategy can index the first
      container. */
  predicate ContainersWhereNeeded(pod: Pod, portConfig: string, decode: string -> Decoded) {
    var defs := GetPortDefinitions(portConfig, decode);
    defs.Ok? && defs.value.Some? ==> |pod.containers| > 0
  }

  /** generateServices, given the PORT_DEFINITIONS value and its decoder. */
  method GenerateServices(serviceName: string, pod: Pod, globalTags: seq<string>, portConfig: string, decode: string -> Decoded)
    returns (r: Result<seq<ServiceInstance>>)
    requires ContainersWhereNeeded(pod, portConfig, decode)
    ensures ServicesOutcome(r, serviceName, pod, globalTags, portConfig, decode)
  {
    var portDefinitions := GetPortDefinitions(portConfig, decode);
    if portDefinitions.Err? {
      return Err(portDefinitions.message);
    }
    if portDefinitions.value.None? {
      r := GenerateFromContainerPorts(serviceName, pod, globalTags);
      return;
    }
    var services := GenerateFromPortDefinitions(serviceName, portDefinitions.value.value, pod, globalTags);
    r := Ok(services);
  }

  /** The global tags of Get when the node labels are visited in the order
      `domainKeys` and the annotations in the order `tagKeys`; a node that
      could not be read contributes no tags. */
  ghost predicate GlobalTagsFor(globalTags: seq<string>, podName: string, podNamespace: string,
                                node: Result<map<string, string>>, annotations: map<string, string>,
                                domainKeys: seq<string>, tagKeys: seq<string>)
    requires node.Ok? ==> SlashedFailureDomainKeys(node.value)
  {
    && (node.Ok? ==> IsEnumeration(domainKeys, FailureDomainKeys(node.value)))
    && IsEnumeration(tagKeys, AnnotationTagKeys(annotations))
    && globalTags == IdentityTags(podName, podNamespace)
                     + (if node.Ok? then FailureDomainTagsOf(node.value, domainKeys) else [])
                     + ValuesOf(annotations, tagKeys)
  }

  /** The global tags of Get for some iteration order of the node labels and of
      the annotations. */
  ghost predicate IsGlobalTags(globalTags: seq<string>, podName: string, podNamespace: string,
                               node: Result<map<string, string>>, annotations: map<string, string>)
    requires node.Ok? ==> SlashedFailureDomainKeys(node.value)
  {
    exists domainKeys: seq<string>, tagKeys: seq<string> ::
      GlobalTagsFor(globalTags, podName, podNamespace, node, annotations, domainKeys, tagKeys)
  }

  /** Get, with the environment, the pod fetches made before the timeout
      (`timeout` is its rendering), the node's labels and the PORT_DEFINITIONS
      value passed in. A pod without the consul label gives no records and no
      error; otherwise the records of the chosen strategy, under the consul
      label's service name and the global tags. */
  method Get(podNamespace: string, podName: string, fetches: seq<Result<Pod>>, timeout: string,
             node: Result<map<string, string>>, portConfig: string, decode: string -> Decoded)
    returns (r: Result<seq<ServiceInstance>>, ghost globalTags: seq<string>)
    requires node.Ok? ==> SlashedFailureDomainKeys(node.value)
    requires FirstReadyPod(fetches).Some? && ConsulLabelKey in FirstReadyPod(fetches).value.labels ==>
               ContainersWhereNeeded(FirstReadyPod(fetches).value, portConfig, decode)
    ensures FirstReadyPod(fetches).None? ==> r == Err(PodUnavailableError + timeout)
    ensures FirstReadyPod(fetches).Some? && ConsulLabelKey !in FirstReadyPod(fetches).value.labels ==> r == Ok([])
    ensures FirstReadyPod(fetches).Some? && ConsulLabelKey in FirstReadyPod(fetches).value.labels ==>
              var pod := FirstReadyPod(fetches).value;
              && IsGlobalTags(globalTags, podName, podNamespace, node, pod.annotations)
              && ServicesOutcome(r, pod.labels[ConsulLabelKey], pod, globalTags, portConfig, decode)
  {
    globalTags := [];
    var found := FirstReadyPod(fetches);
    if found.None? {
      return Err(PodUnavailableError + timeout), globalTags;
    }
    var pod := found.value;
    if ConsulLabelKey !in pod.labels {
      return Ok([]), globalTags;
    }
    var serviceName := pod.labels[ConsulLabelKey];

    var failureDomainTags: seq<string> := [];
    ghost var domainKeys: seq<string> := [];
    if node.Ok? {
      var domain;
      domain, domainKeys := FailureDomainTags(node.value);
      if domain.Ok? {
        failureDomainTags := domain.value;
      } else {
        EnumerationLength(domainKeys, FailureDomainKeys(node.value));
      }
    }
    var tags;
    ghost var tagKeys;
    tags, tagKeys := BuildGlobalTags(podName, podNamespace, failureDomainTags, pod.annotations);
    globalTags := tags;
    assert GlobalTagsFor(globalTags, podName, podNamespace, node, pod.annotations, domainKeys, tagKeys);
    r := GenerateServices(serviceName, pod, tags, portConfig, decode);
  }
}
