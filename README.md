# consul-registration-hook, modelled in Dafny

The hook runs next to a workload. It works out which Consul service records
describe that workload and registers them with the local Consul agent. It
deregisters them again when the workload stops. The records come from one
of three providers:

- **Kubernetes** (`k8s/`): the pod the hook runs in. Its `consul` label names
  the service. Its port definitions (the `PORT_DEFINITIONS` environment
  variable) or its first container with a port give the records. Its
  annotations and its node's failure-domain labels give the tags. Its
  container's liveness probe becomes the Consul check.
- **Mesos** (`mesos/`): the task found in the agent's state document. Its
  port labels, or failing those its task labels, give the records. Tag keys
  may hold `{port:NAME}` placeholders, which are replaced by port numbers.
- **Command-line flags** (`hookflags/`): one record with an HTTP check.

Whatever the provider, the Consul agent wrapper (`consul/agent.go`) submits
the records. It stops at the first failing registration. It attempts every
deregistration and reports all failures together.

The model has one module per source file, plus three helper modules:

| module | file | what it holds |
|---|---|---|
| `Wrappers` | wrappers.dfy | `Option` and `Result` |
| `Text` | text.dfy | Go's `%d`, `strings.Split`/`Join`/`Replace`/`Trim`, `net.JoinHostPort`, `url.URL.String` for http URLs |
| `Seqs` | seqs.dfy | distinctness; enumerations of a set (what a `range` over a Go map visits) |
| `Consul` | consul.dfy | `consul/agent.go` |
| `K8sUtil` | k8s_util.dfy | `k8s/util.go` |
| `K8sPorts` | k8s_ports.dfy | `k8s/ports.go` |
| `K8sProvider` | k8s_provider.dfy | `k8s/provider.go` |
| `Mesos` | mesos.dfy | `mesos/provider.go` |
| `HookFlags` | hookflags.dfy | `hookflags/provider.go` |

**How the modelling works**

- **The Consul agent** is the class `Consul.Registry`. It holds:
  - the registrations it keeps, by ID;
  - the calls it has received;
  - a failure oracle `errorAt`, which decides the outcome of the n-th call.
- **`Consul.Agent`** is a class whose `Register` and `Deregister` loops are
  proved against functions of that oracle.
- **Map iteration.** A Go `range` over a map visits the keys in an
  unspecified order. Where the source does that, the method picks the next
  key with `:|` and returns the order it used as a ghost out-parameter.
  The contracts then hold for every order. Lemmas show which results do not
  depend on the order.
- **Environment and API inputs become parameters.** Each environment
  variable becomes a parameter, with `""` standing for "unset". The pod
  fetches, the node labels, the agent state and the JSON decoder are
  parameters too.

## Model

| member | source | states |
|---|---|---|
| Consul.ToAgentCheck | consul/agent.go:56-70 | the submitted check keeps interval and timeout; an HTTP_GET check puts its address in the HTTP field with method GET, a TCP check in the TCP field, any other type in neither |
| Consul.RegistrationRoundTrip | consul/agent.go:72-79 | reading a registration back gives the original record exactly when its check is absent, HTTP_GET or TCP |
| Consul.Registry.ServiceRegister | consul/agent.go:43 | the call is logged; the registration is stored under its ID unless the oracle fails the call, whose error is returned |
| Consul.Registry.ServiceDeregister | consul/agent.go:44 | the call is logged; the ID is dropped unless the oracle fails the call, whose error is returned |
| Consul.FirstFailure | consul/agent.go:81-83 | the position of the first failing call: all before it succeed, and it fails unless it is past the end |
| Consul.RegisteredContents | consul/agent.go:55-84 | after successful registrations the store holds the old IDs plus every record's ID, the last record mapped to its own registration |
| Consul.ErrorsEmptyIffAllSucceed | consul/agent.go:99-103 | no error is reported exactly when every deregistration call succeeds |
| Consul.ErrorsCount | consul/agent.go:93-97 | one error is collected per failing deregistration call |
| Consul.Agent.Register | consul/agent.go:54-87 | records are submitted in order up to and including the first failing call, whose error is returned; the store gains exactly the records before it |
| Consul.Agent.Deregister | consul/agent.go:90-104 | every record is submitted in order whatever earlier calls returned; no error when all succeed, otherwise one error whose text is the failures' messages in call order, space-separated in brackets as `fmt.Errorf("%s", errs)` renders them; exactly the IDs of successful calls are removed |
| Consul.ErrorListTextRoundTrip | consul/agent.go:99-101 | the combined error text is bracketed, and splitting its inside at spaces gives back the messages when none holds a space |
| Consul.DeregisterAttemptsEveryRecord | consul/agent_test.go:62-77 | with every call failing, both IDs are still deregistered in order and the result is one error, `[error error]` |
| K8sUtil.ConvertToConsulCheck | k8s/util.go:23-55 | a check exists exactly when the probe exists and has an HTTP GET or TCP handler; HTTP wins over TCP; interval and timeout are the probe's period and timeout |
| K8sUtil.HttpCheckIgnoresProbeHostAndScheme | k8s/util.go:33-37 | the probe's own host and scheme do not change the check: the scheme is always http and the host the one passed in |
| K8sUtil.HttpCheckTargetsHostAndPort | k8s/util.go:31-38 | the HTTP address is `http://`, the joined host and port, then the path; the host and the port number can be recovered from it |
| K8sUtil.TcpCheckTargetsHostAndPort | k8s/util.go:39-41 | the TCP address splits back into the host passed in and the probe's port number |
| K8sUtil.UnsetOrNamedPortRendersZero | k8s/util.go:34 | a probe port given by name, or never set, is rendered as port 0, because only the numeric field is read |
| K8sUtil.HttpProbeExample | k8s/util_test.go:23-47 | the HTTP probe of the test becomes `http://localhost:8080/ping` with period and timeout 60 |
| K8sUtil.TcpProbeExample | k8s/util_test.go:49-69 | the TCP probe of the test becomes `localhost:8080` |
| K8sPorts.LabelForConsul | k8s/ports.go:45-50 | the name is the consul label's value when that label exists, otherwise empty |
| K8sPorts.GetTags | k8s/ports.go:27-35 | the result lists every label key whose value is "tag", each once |
| K8sPorts.LabelValuesMatchExactly | k8s/ports.go:37-71 | only the exact value "true" makes a service or probe port |
| K8sPorts.ConsulLabelOnly | k8s/ports_test.go:80-94 | a definition with only a consul label is neither a service nor a probe port and asks for that name |
| K8sPorts.GetPortDefinitions | k8s/ports.go:73-88 | an empty variable or JSON null gives no definitions; a decoding error gives the prefixed error; otherwise the decoded definitions of the quote-trimmed value |
| Consul.ServiceIdDeterminesPort | k8s/provider.go:214 | on one host, a record ID `<host>_<port>` determines the port (the Mesos and flag providers use the same ID form) |
| K8sProvider.InstanceTagDeterminesPort | k8s/provider.go:286-288 | for one pod, the instance tag determines the port |
| K8sProvider.SecuredIdsAreDistinct | k8s/provider.go:260-263 | a secured ID never equals a plain ID and is itself recognised as secured |
| K8sProvider.Find | k8s/provider.go:292-299 | true exactly when the value is an element of the slice |
| K8sProvider.GenerateSecured | k8s/provider.go:77-103 | the result is the ID-only records of the secured variants of the plain IDs that are missing from the input, in input order |
| K8sProvider.SecuredToDeregisterShape | k8s/provider.go:95-101 | every record carries only a secured ID, and there are no more records than plain IDs |
| K8sProvider.SecuredToDeregisterSound | k8s/provider.go:80-93 | each deregistered ID is `x-secured` for a plain input ID `x`, and no input record has it |
| K8sProvider.SecuredToDeregisterComplete | k8s/provider.go:89-93 | the secured variant of every plain input ID that no input record has is deregistered |
| K8sProvider.SecuredPairExample | k8s/provider.go:77-103 | a plain ID whose secured variant is present yields nothing |
| K8sProvider.LonePlainIdExample | k8s/provider.go:77-103 | a lone plain ID yields its secured variant |
| K8sProvider.ContainerSelectionRule | k8s/provider.go:228-237 | with a consulContainer label only a container of that name with a port qualifies; without it any container with a port does |
| K8sProvider.GetContainerToRegister | k8s/provider.go:226-244 | the error exactly when no container qualifies; otherwise the first container that qualifies |
| K8sProvider.GenerateFromContainerPorts | k8s/provider.go:203-224 | the error when no container qualifies; otherwise one record on the first port of the chosen container, instance tag then global tags, with the liveness-probe check |
| K8sProvider.ContainerSelectionExamples | k8s/provider_test.go:88-181 | a labelled sidecar is chosen; without the label the first container is; a labelled container without ports gives nothing |
| K8sProvider.SelectedMembers | k8s/provider.go:259 | the selected definitions are exactly those that are service ports, name a service, or are the default first port |
| K8sProvider.SelectedAscending | k8s/provider.go:253 | the selected definitions keep the definitions' order |
| K8sProvider.RunningNameWithoutLabels | k8s/provider.go:254-257 | until a definition names a service, records use the pod's service name |
| K8sProvider.RunningNameIsLastLabel | k8s/provider.go:254-257 | after that, records use the name given by the last definition that named one |
| K8sProvider.RecordDescribesDefinition | k8s/provider.go:260-274 | the record has the secured ID exactly when its name contains "-secured"; its tags are the global tags, then the port's tag keys, then the instance tag |
| K8sProvider.GenerateFromPortDefinitions | k8s/provider.go:246-284 | one record per selected definition, in order, each describing its definition under the running name with the first container's check |
| K8sProvider.DefaultPortRule | k8s/provider.go:259 | without service ports and consul labels only the first definition yields a record |
| K8sProvider.ServicePortsOnly | k8s/provider.go:259 | once a service port exists and no definition names a service, exactly the service ports yield records |
| K8sProvider.PortDefinitionsExample | k8s/provider.go:252-263 | on three illustrative definitions: a probe port yields nothing, a service port keeps the pod's name and a plain ID, and a port named after a secured service switches the name and yields a secured ID |
| K8sProvider.FailureDomainTags | k8s/provider.go:55-66 | one `<name>:<value>` tag per failure-domain label, each once; an error exactly when there is none |
| K8sProvider.FailureDomainTagOfKey | k8s/provider.go:59 | the key `<prefix>/<name>` gives the tag `<name>:<value>` |
| K8sProvider.BuildGlobalTags | k8s/provider.go:130-144 | the global tags are the identity tags, then the failure-domain tags, then one tag per non-empty CONSUL_TAG_ annotation: each value as often as annotations hold it, in the map's iteration order |
| K8sProvider.AppendAnnotationTags | k8s/provider.go:139-144 | the earlier tags are kept, and one tag per non-empty CONSUL_TAG_ annotation is appended: each value as often as annotations hold it |
| K8sProvider.AnnotationValueCount | k8s/provider.go:140-144 | a value occurs among the annotation tags once per tagging annotation that holds it |
| K8sProvider.AnnotationTagCount | k8s/provider.go:140-144 | for any iteration order, a value occurs among the annotation tags as often as tagging annotations hold it |
| K8sProvider.AnnotationTagsOrderIndependent | k8s/provider.go:140-144 | any two iteration orders give the same annotation tags up to order |
| K8sProvider.EmptyAnnotationExample | k8s/provider_test.go:252-256 | an annotation with an empty value gives no tag |
| K8sProvider.RepeatedAnnotationExample | k8s/provider_test.go:275-281 | two annotations with the same value give that tag twice |
| K8sProvider.FirstReadyPod | k8s/provider.go:162-189 | no pod exactly when no fetch has an IP; otherwise the first fetched pod that has an IP |
| K8sProvider.FirstReadyPodExamples | k8s/provider_test.go:183-239 | fetches without an IP are passed over until one has an IP; failing fetches give no pod |
| K8sProvider.GenerateServices | k8s/provider.go:191-201 | the port-definitions error is returned as is; no definitions select the container-port strategy, definitions the port-definition strategy |
| K8sProvider.Get | k8s/provider.go:107-147 | the timeout error when no ready pod was fetched; no records for a pod without the consul label; otherwise the chosen strategy's records under that label's name and the assembled global tags |
| Mesos.ConsulServiceNameAbsent | mesos/provider.go:117-124 | without a consul label the service name is empty |
| Mesos.ConsulServiceNameIsFirst | mesos/provider.go:117-124 | the service name is the value of the first consul label; later ones are ignored |
| Mesos.GetConsulServiceName | mesos/provider.go:117-124 | the search loop returns the first consul label's value, or "" |
| Mesos.TagLabelKeysMembers | mesos/provider.go:51-55 | every label with value "tag" contributes its key, and nothing else does |
| Mesos.GetPlaceholders | mesos/provider.go:164-174 | the loop builds the placeholder map from the named ports, a later port overwriting an earlier one |
| Mesos.PlaceholderInjective | mesos/provider.go:169 | different port names give different placeholders |
| Mesos.PlaceholderKeys | mesos/provider.go:164-174 | the map holds the placeholder of every named port and no other key |
| Mesos.LastNamedPortWins | mesos/provider.go:164-174 | a placeholder maps to the number of the last port with that name |
| Mesos.PlaceholderValuesPlain | mesos/provider.go:170 | a placeholder value is a decimal number and holds no brace |
| Mesos.GetPortLabels | mesos/provider.go:95-108 | one label per tag label, in label order, each with the placeholders applied in the order the map was visited for it; a key without a brace is kept as is |
| Mesos.RewrittenKeepsPlainKeys | mesos/provider.go:99-103 | when every placeholder starts with a brace, rewriting keeps every tag key that holds no brace |
| Mesos.PlaceholdersBraced | mesos/provider.go:164-174 | every placeholder built from the ports starts with a brace |
| Mesos.OtherPlaceholderAbsent | mesos/provider.go:99-103 | a key with a single placeholder contains no other port's placeholder |
| Mesos.SubstituteOne | mesos/provider.go:99-103 | a key with one placeholder becomes the key with its value once that placeholder is visited, whatever the order, and is unchanged until then |
| Mesos.PortLabelSubstitution | mesos/provider.go:95-108 | `a{port:NAME}b` becomes `a`, the number of the last port named NAME, then `b`, for every iteration order |
| Mesos.KeyWithoutPlaceholderKept | mesos/provider.go:99-103 | a tag key without a brace is kept unchanged |
| Mesos.TaskInExecutorsIsFirst | mesos/provider.go:151-157 | the search finds the first task of the first matching executor that has tasks, and nothing when there is none |
| Mesos.GetTaskFromState | mesos/provider.go:126-162 | a missing executor ID or framework ID gives its error; otherwise the task of the first matching framework and executor, or "no task in executor" |
| Mesos.NamedPortsMembers | mesos/provider.go:63-64 | the named ports are exactly the ports whose labels give a non-empty service name, in port order |
| Mesos.BuildServices | mesos/provider.go:42-93 | an error exactly when HOST is unset; otherwise one record per named port (its port tags then the global tags), or, when none is named, the task-label fallback on the first port |
| Mesos.Get | mesos/provider.go:27-40 | an agent error, a task-search error and a build error each come back with their prefixes; otherwise the built records of the found task |
| Mesos.TaskLabelFallbackExample | mesos/provider_test.go:13-47 | a task whose port has no labels gives one record from the task's consul label |
| Mesos.PortLabelExample | mesos/provider_test.go:49-95 | a port's consul label takes precedence over the task's |
| HookFlags.GetTags | hookflags/provider.go:50-52 | joining the tags with commas gives the flag back; no tag holds a comma; a flag without commas is a single tag |
| HookFlags.EmptyTagsFlag | hookflags/provider.go:50-52 | an empty tags flag gives one empty tag |
| HookFlags.TagsKeepEmptyPieces | hookflags/provider.go:50-52 | empty pieces between commas are kept |
| HookFlags.GetConsulHttpCheck | hookflags/provider.go:54-75 | an HTTP GET check every 30 seconds with a 30-second timeout, whose address starts with `http://<host>:<port>` |
| HookFlags.CheckAddress | hookflags/provider.go:58-64 | for every host, port and path, the address is `http://<host>:<port>` then the path, with a slash inserted before a relative path |
| HookFlags.CheckTargetsHostAndPort | hookflags/provider.go:58-64 | splitting `<host>:<port>` gives back the host and the port number, for any host without `[` |
| HookFlags.Get | hookflags/provider.go:31-48 | exactly one record, ID `<host>_<port>`, with the flags' name, host and port; its tags are exactly `strings.Split` of the tags flag (so `[""]` for an empty flag) and its check is the HTTP check on the pod IP, container port and check path |
| HookFlags.SameIdSamePort | hookflags/provider.go:38 | for one pod IP, two flag sets give the same ID only with the same port |
| Text.IntToStringRoundTrip | hookflags/provider.go:60 | reading back a number rendered with `%d` gives the number |
| Text.JoinSplit | hookflags/provider.go:51 | splitting on a separator and joining with it gives the string back |
| Text.SplitPiecesAvoidSeparator | hookflags/provider.go:51 | no piece of a split on one character holds that character |
| Text.ReplaceAllSingle | mesos/provider.go:101 | replacing a single occurrence puts the replacement in its place |
| Text.TrimSpec | k8s/ports.go:82 | trimming removes the quote characters at both ends and nothing else |
| Text.SplitJoinHostPort | k8s/util.go:41 | a host and a port joined by `net.JoinHostPort` split back into the two |

## Left out

- HTTP and JSON: the Kubernetes API client, the Mesos agent client
  (`mesos/agent.go`) and JSON decoding are not modelled. Their results are
  parameters: the pod fetches, the node labels, the agent state and a decoder
  from the `PORT_DEFINITIONS` text to definitions, `null` or an error.
- Environment variables and command-line flags are parameters.
- K8sProvider.FirstReadyPod: the goroutine, the one-second sleep and the
  timer are not modelled. The model takes the fetches that completed before
  the timeout and picks the first pod with an IP. The timeout's
  `Duration.String` text is a parameter.
- `doHTTPCheck` and `doTCPCheck` (`k8s/util.go:57-81`) perform network I/O
  and are not called by the modelled providers.
- Go's `time.Duration` is kept as whole seconds. `Duration.String`, which
  renders the check interval and timeout for the agent, is not modelled.
- `url.URL.String` is modelled for an http URL whose path is empty or
  starts with `/`. No percent-escaping is modelled.
- `NewAgent`, `getAgentToken`, the provider `client()` constructors and the
  logger are not part of this model. Neither are `consul/service.go`, `cmd/`
  and log output.
- K8sProvider.GenerateFromPortDefinitions requires a pod with at least one
  container, because the source indexes the first container unconditionally
  (`k8s/provider.go:251`). A pod without containers panics in Go.
- K8sProvider.Get requires the same of the first ready pod, when that pod
  has the consul label and port definitions are present.
- K8sProvider.FailureDomainTags requires every failure-domain key to hold a
  `/`. Otherwise `strings.Split(k, "/")[1]` (`k8s/provider.go:59`) panics.
- K8sUtil.HttpCheckTargetsHostAndPort, K8sUtil.TcpCheckTargetsHostAndPort
  and HookFlags.CheckTargetsHostAndPort take a host without `[`.
  K8sUtil.HttpCheckTargetsHostAndPort also takes a path that is empty or
  starts with `/`. These are the inputs for which `net.SplitHostPort` and
  `url.URL.String` behave as modelled.
- Mesos.ApplyPlaceholders visits non-empty placeholders only. Every
  placeholder has at least `{port:}` in it, so this loses nothing.
- Mesos.PortLabelSubstitution and Mesos.SubstituteOne are stated for a tag
  key holding one placeholder and no other `{`. Keys with several
  placeholders, or with a value that creates a new placeholder, are
  modelled by `GetPortLabels` but not characterised by a lemma.
- The Mesos `labels`, `ports` and `discovery` wrapper structs are flattened
  into plain sequences.
- The probe handler's host and scheme are kept in the data but ignored, as
  in the source. Named (string) probe ports are read as port 0, as
  `IntVal` is.
- Several documented behaviours are not in the code and are not modelled:
  - secured records do not filter load-balancer tags;
  - the check comes from the liveness probe only, with no readiness
    preference;
  - there is no `service-port:` tag;
  - there is no local health polling before registration.
- The instance tag `instance:<pod>_<port>` is modelled as the code writes it.
- The Mesos hostname comes from `HOST`, as `mesos/provider.go:136` reads it.
  The tests set `MESOS_HOSTNAME` instead.
