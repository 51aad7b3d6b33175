/** mesos/provider.go: the records a Mesos task asks to register, read from the
    agent's state (the types of mesos/agent.go), the task's labels and the
    labels of its discovery ports. */
module Mesos {
  import opened Wrappers
  import opened Text
  import opened Seqs
  import opened Consul

  const ConsulLabelKey := "consul"
  const ConsulTagValue := "tag"
  const MarathonTaskTagPrefix := "marathon-task:"

  const MissingExecutorIdError := "missing MESOS_EXECUTOR_ID environmental variable"
  const MissingFrameworkIdError := "missing MESOS_FRAMEWORK_ID environmental variable"
  const MissingHostError := "missing HOST environmental variable"
  const NoTaskError := "no task in executor"

  // The prefixes the hook puts before the message of an error it passes on.
  const AgentApiError := "agent api error: "
  const TaskInfoError := "unable to find task info: "
  const TaskSearchError := "not enough data to search for task info: "
  const HostnameError := "unable to determine hostname: "

  // The agent's state document. The wrappers `labels`, `ports` and `discovery`
  // of the Go types are flattened: a port holds its label list and a task its
  // discovery ports.

  datatype Label = Label(key: string, value: string)
  datatype Port = Port(number: int, protocol: string, name: string, labels: seq<Label>)
  datatype Task = Task(id: string, labels: seq<Label>, ports: seq<Port>)
  datatype Executor = Executor(id: string, tasks: seq<Task>)
  datatype Framework = Framework(id: string, executors: seq<Executor>)
  datatype State = State(frameworks: seq<Framework>)

  // ---------------------------------------------------------------------------
  // getConsulServiceName

  /** The value of the first label keyed "consul", or "" when there is none. */
  function ConsulServiceName(labels: seq<Label>): string {
    if labels == [] then ""
    else if labels[0].key == ConsulLabelKey then labels[0].value
    else ConsulServiceName(labels[1..])
  }

  /** Without a consul label the name is empty ... */
  lemma {:induction false} ConsulServiceNameAbsent(labels: seq<Label>)
    requires forall i | 0 <= i < |labels| :: labels[i].key != ConsulLabelKey
    ensures ConsulServiceName(labels) == ""
  {
    if labels != [] {
      assert labels[0].key != ConsulLabelKey;
      ConsulServiceNameAbsent(labels[1..]);
    }
  }

  /** ... and otherwise it is the value of the first consul label; later ones
      are ignored. */
  lemma {:induction false} ConsulServiceNameIsFirst(labels: seq<Label>, i: nat)
    requires i < |labels| && labels[i].key == ConsulLabelKey
    requires forall j | 0 <= j < i :: labels[j].key != ConsulLabelKey
    ensures ConsulServiceName(labels) == labels[i].value
  {
    if i > 0 {
      assert labels[0].key != ConsulLabelKey;
      ConsulServiceNameIsFirst(labels[1..], i - 1);
    }
  }

  /** getConsulServiceName: the search loop with its early return. */
  method GetConsulServiceName(labels: seq<Label>) returns (name: string)
    ensures name == ConsulServiceName(labels)
  {
    for i := 0 to |labels|
      invariant ConsulServiceName(labels[i..]) == ConsulServiceName(labels)
    {
      if labels[i].key == ConsulLabelKey {
        return labels[i].value;
      }
      assert labels[i..][1..] == labels[i + 1..];
    }
    return "";
  }

  // ---------------------------------------------------------------------------
  // Tag labels

  /** The keys of the labels whose value is "tag", in label order. */
  function TagLabelKeys(labels: seq<Label>): seq<string> {
    if labels == [] then []
    else
      var last := labels[|labels| - 1];
      TagLabelKeys(labels[..|labels| - 1]) + (if last.value == ConsulTagValue then [last.key] else [])
  }

  /** Every tag label contributes its key, and nothing else is contributed. */
  lemma {:induction false} TagLabelKeysMembers(labels: seq<Label>)
    ensures |TagLabelKeys(labels)| <= |labels|
    ensures forall k | k in TagLabelKeys(labels) :: Label(k, ConsulTagValue) in labels
    ensures forall i | 0 <= i < |labels| && labels[i].value == ConsulTagValue :: labels[i].key in TagLabelKeys(labels)
  {
    if labels != [] {
      var prefix := labels[..|labels| - 1];
      TagLabelKeysMembers(prefix);
      forall i | 0 <= i < |labels| - 1 ensures labels[i] == prefix[i] {
      }
    }
  }

  // ---------------------------------------------------------------------------
  // getPlaceholders

  /** The placeholder a tag key uses for the port named `name`. */
  function Placeholder(name: string): string {
    "{port:" + name + "}"
  }

  /** The placeholder map after visiting `ports`: each named port maps its
      placeholder to its number, a later port overwriting an earlier one of the
      same name. */
  function PlaceholdersOf(ports: seq<Port>): map<string, string> {
    if ports == [] then map[]
    else
      var last := ports[|ports| - 1];
      var m := PlaceholdersOf(ports[..|ports| - 1]);
      if last.name != "" then m[Placeholder(last.name) := IntToString(last.number)] else m
  }

  /** getPlaceholders */
  method GetPlaceholders(ports: seq<Port>) returns (placeholders: map<string, string>)
    ensures placeholders == PlaceholdersOf(ports)
  {
    placeholders := map[];
    for i := 0 to |ports|
      invariant placeholders == PlaceholdersOf(ports[..i])
    {
      var name := ports[i].name;
      if name != "" {
        placeholders := placeholders[Placeholder(name) := IntToString(ports[i].number)];
      }
      assert ports[..i + 1][..i] == ports[..i];
    }
    assert ports[..|ports|] == ports;
  }

  /** Different names give different placeholders. */
  lemma PlaceholderInjective(a: string, b: string)
    requires Placeholder(a) == Placeholder(b)
    ensures a == b
  {
    assert a == Placeholder(a)[6..|Placeholder(a)| - 1];
    assert b == Placeholder(b)[6..|Placeholder(b)| - 1];
  }

  /** Only named ports have a placeholder, and every named port has one. */
  lemma {:induction false} PlaceholderKeys(ports: seq<Port>)
    ensures forall q | q in PlaceholdersOf(ports) :: exists i | 0 <= i < |ports| :: ports[i].name != "" && q == Placeholder(ports[i].name)
    ensures forall i | 0 <= i < |ports| && ports[i].name != "" :: Placeholder(ports[i].name) in PlaceholdersOf(ports)
  {
    if ports != [] {
      var prefix := ports[..|ports| - 1];
      PlaceholderKeys(prefix);
      forall i | 0 <= i < |ports| - 1 ensures ports[i] == prefix[i] {
      }
    }
  }

  /** A placeholder stands for the number of the last port with that name. */
  lemma {:induction false} LastNamedPortWins(ports: seq<Port>, i: nat)
    requires i < |ports| && ports[i].name != ""
    requires forall j | i < j < |ports| :: ports[j].name != ports[i].name
    ensures Placeholder(ports[i].name) in PlaceholdersOf(ports)
    ensures PlaceholdersOf(ports)[Placeholder(ports[i].name)] == IntToString(ports[i].number)
  {
    var prefix := ports[..|ports| - 1];
    var last := ports[|ports| - 1];
    if i < |ports| - 1 {
      assert prefix[i] == ports[i];
      LastNamedPortWins(prefix, i);
      if last.name != "" && Placeholder(last.name) == Placeholder(ports[i].name) {
        PlaceholderInjective(last.name, ports[i].name);
      }
    }
  }

  /** A placeholder value is a decimal number: it holds no brace. */
  lemma {:induction false} PlaceholderValuesPlain(ports: seq<Port>)
    ensures forall q | q in PlaceholdersOf(ports) :: '{' !in PlaceholdersOf(ports)[q]
  {
    if ports != [] {
      var last := ports[|ports| - 1];
      PlaceholderValuesPlain(ports[..|ports| - 1]);
      IntToStringChars(last.number);
    }
  }

  // ---------------------------------------------------------------------------
  // getPortLabels

  /** A tag key after the placeholders are visited in the order `order`: each
      placeholder the key still contains is replaced everywhere by its value. */
  function ApplyPlaceholders(key: string, placeholders: map<string, string>, order: seq<string>): string
    requires forall q | q in order :: q in placeholders && |q| > 0
  {
    if order == [] then key
    else Visit(ApplyPlaceholders(key, placeholders, order[..|order| - 1]), order[|order| - 1], placeholders)
  }

  /** One iteration of the placeholder loop: the key, if it contains the
      placeholder `q`, has every occurrence of `q` replaced by its value. */
  function Visit(key: string, q: string, placeholders: map<string, string>): string
    requires q in placeholders && |q| > 0
  {
    if Contains(key, q) then ReplaceAll(key, q, placeholders[q]) else key
  }

  /** `portLabels` are the keys `keys` with the placeholders applied, the
      placeholders of each key visited in its own order (a fresh iteration of
      the placeholder map per key). */
  predicate Rewritten(portLabels: seq<string>, keys: seq<string>, placeholders: map<string, string>,
                      orders: seq<seq<string>>)
    requires forall q | q in placeholders :: |q| > 0
  {
    && |portLabels| == |keys|
    && |orders| == |keys|
    && forall k | 0 <= k < |keys| ::
         && IsEnumeration(orders[k], placeholders.Keys)
         && portLabels[k] == ApplyPlaceholders(keys[k], placeholders, orders[k])
  }

  /** Appending one rewritten key keeps `Rewritten`. */
  lemma RewrittenSnoc(portLabels: seq<string>, keys: seq<string>, placeholders: map<string, string>,
                      orders: seq<seq<string>>, rewritten: string, key: string, order: seq<string>)
    requires forall q | q in placeholders :: |q| > 0
    requires Rewritten(portLabels, keys, placeholders, orders)
    requires IsEnumeration(order, placeholders.Keys)
    requires rewritten == ApplyPlaceholders(key, placeholders, order)
    ensures Rewritten(portLabels + [rewritten], keys + [key], placeholders, orders + [order])
  {
    var p', k', o' := portLabels + [rewritten], keys + [key], orders + [order];
    forall k | 0 <= k < |k'|
      ensures IsEnumeration(o'[k], placeholders.Keys) && p'[k] == ApplyPlaceholders(k'[k], placeholders, o'[k])
    {
      if k < |keys| {
        assert p'[k] == portLabels[k] && k'[k] == keys[k] && o'[k] == orders[k];
      }
    }
  }

  /** Every placeholder is non-empty and starts with an opening brace. */
  predicate BracedPlaceholders(m: map<string, string>) {
    forall q | q in m :: |q| > 0 && q[0] == '{'
  }

  /** Rewriting keeps every key that holds no opening brace. */
  lemma RewrittenKeepsPlainKeys(portLabels: seq<string>, keys: seq<string>, placeholders: map<string, string>,
                                orders: seq<seq<string>>)
    requires BracedPlaceholders(placeholders)
    requires Rewritten(portLabels, keys, placeholders, orders)
    ensures forall k | 0 <= k < |portLabels| && '{' !in keys[k] :: portLabels[k] == keys[k]
  {
    forall k | 0 <= k < |portLabels| && '{' !in keys[k] ensures portLabels[k] == keys[k] {
      KeyWithoutPlaceholderKept(keys[k], placeholders, orders[k]);
    }
  }

  /** The placeholders of the task's ports all start with an opening brace, so
      getPortLabels keeps every tag key without one. */
  lemma PlaceholdersBraced(ports: seq<Port>)
    ensures BracedPlaceholders(PlaceholdersOf(ports))
  {
    PlaceholderKeys(ports);
    forall q | q in PlaceholdersOf(ports) ensures |q| > 0 && q[0] == '{' {
      var i :| 0 <= i < |ports| && ports[i].name != "" && q == Placeholder(ports[i].name);
      PlaceholderShape(ports[i].name);
    }
  }

  /** getPortLabels: the keys of the tag labels, in label order, each with
      every placeholder it contains replaced; the placeholder map is iterated
      in the order `orders[k]` for the `k`-th key. */
  method GetPortLabels(labels: seq<Label>, placeholders: map<string, string>)
    returns (portLabels: seq<string>, ghost orders: seq<seq<string>>)
    requires forall q | q in placeholders :: |q| > 0
    ensures |portLabels| == |TagLabelKeys(labels)|
    ensures BracedPlaceholders(placeholders) ==>
              forall k | 0 <= k < |portLabels| && '{' !in TagLabelKeys(labels)[k] :: portLabels[k] == TagLabelKeys(labels)[k]
    ensures Rewritten(portLabels, TagLabelKeys(labels), placeholders, orders)
  {
    portLabels := [];
    orders := [];
    for i := 0 to |labels|
      invariant Rewritten(portLabels, TagLabelKeys(labels[..i]), placeholders, orders)
    {
      var tagLabel := labels[i];
      assert labels[..i + 1][..i] == labels[..i];
      if tagLabel.value == ConsulTagValue {
        var key := tagLabel.key;
        ghost var visited: seq<string> := [];
        var rest := placeholders.Keys;
        while rest != {}
          invariant rest <= placeholders.Keys
          invariant EnumeratedSoFar(visited, placeholders.Keys, rest)
          invariant key == ApplyPlaceholders(tagLabel.key, placeholders, visited)
          decreases |rest|
        {
          var placeholder :| placeholder in rest;
          EnumeratedStep(visited, placeholders.Keys, rest, placeholder);
          if Contains(key, placeholder) {
            key := ReplaceAll(key, placeholder, placeholders[placeholder]);
          }
          assert (visited + [placeholder])[..|visited|] == visited;
          visited := visited + [placeholder];
          rest := rest - {placeholder};
        }
        EnumeratedDone(visited, placeholders.Keys);
        RewrittenSnoc(portLabels, TagLabelKeys(labels[..i]), placeholders, orders, key, tagLabel.key, visited);
        portLabels := portLabels + [key];
        orders := orders + [visited];
      }
    }
    assert labels[..|labels|] == labels;
    if BracedPlaceholders(placeholders) {
      RewrittenKeepsPlainKeys(portLabels, TagLabelKeys(labels), placeholders, orders);
    }
  }

  /** A name that holds no brace. */
  predicate PlainName(name: string) {
    '{' !in name && '}' !in name
  }

  /** The characters of a placeholder: an opening brace, "port:", the name and
      a closing brace. */
  lemma PlaceholderShape(n: string)
    ensures |Placeholder(n)| == |n| + 7
    ensures Placeholder(n)[0] == '{' && Placeholder(n)[|n| + 6] == '}'
    ensures forall k | 1 <= k < 6 :: Placeholder(n)[k] != '{' && Placeholder(n)[k] != '}'
    ensures forall k | 0 <= k < |n| :: Placeholder(n)[k + 6] == n[k]
  {
    var p := Placeholder(n);
    assert p[..6] == "{port:";
    forall k | 1 <= k < 6 ensures p[k] != '{' && p[k] != '}' {
      assert p[k] == p[..6][k];
    }
  }

  /** The placeholders of two different plain names differ at some index both
      reach. */
  lemma PlaceholdersDiffer(n: string, n2: string) returns (k: nat)
    requires PlainName(n) && PlainName(n2) && n != n2
    ensures k < |Placeholder(n)| && k < |Placeholder(n2)|
    ensures Placeholder(n)[k] != Placeholder(n2)[k]
  {
    PlaceholderShape(n);
    PlaceholderShape(n2);
    if |n2| < |n| {
      k := 6 + |n2|;
      assert Placeholder(n)[k] == n[|n2|];
    } else if |n| < |n2| {
      k := 6 + |n|;
      assert Placeholder(n2)[k] == n2[|n|];
    } else {
      var j :| 0 <= j < |n| && n[j] != n2[j];
      k := 6 + j;
    }
  }

  /** The only brace opening in `a + Placeholder(n) + b` is the placeholder's,
      so no other placeholder of a plain name occurs there. */
  lemma OtherPlaceholderAbsent(a: string, n: string, b: string, n2: string)
    requires '{' !in a && '{' !in b && PlainName(n) && PlainName(n2) && n != n2
    ensures !Contains(a + Placeholder(n) + b, Placeholder(n2))
  {
    var p := Placeholder(n);
    var q := Placeholder(n2);
    var s := a + p + b;
    PlaceholderShape(n);
    PlaceholderShape(n2);
    assert !OccursAt(s, q, |a|) by {
      var k := PlaceholdersDiffer(n, n2);
      if |a| + |q| <= |s| {
        assert s[|a|..|a| + |q|][k] == p[k];
      }
    }
    forall i: nat | i <= |s| && i != |a| ensures !OccursAt(s, q, i) {
      if i + |q| <= |s| {
        assert s[i] != '{' by {
          if i < |a| {
            assert s[i] == a[i];
          } else if i < |a| + |p| {
            assert s[i] == p[i - |a|];
            if 6 <= i - |a| < 6 + |n| {
              assert p[i - |a|] == n[i - |a| - 6];
            }
          } else {
            assert s[i] == b[i - |a| - |p|];
          }
        }
        assert s[i..i + |q|][0] == s[i];
      }
    }
  }

  /** The placeholder map holds placeholders of plain names, mapped to values
      without braces. */
  predicate PlainPlaceholders(m: map<string, string>) {
    forall q | q in m :: IsPlainPlaceholder(q) && '{' !in m[q]
  }

  /** `q` is the placeholder of a plain name, the name being `q[6..|q| - 1]`. */
  predicate IsPlainPlaceholder(q: string) {
    |q| >= 7 && PlainName(q[6..|q| - 1]) && q == Placeholder(q[6..|q| - 1])
  }

  /** The one placeholder in `a + Placeholder(n) + b` is found and replaced. */
  lemma SubstituteHere(a: string, n: string, b: string, r: string)
    requires '{' !in a && '{' !in b && PlainName(n)
    ensures Contains(a + Placeholder(n) + b, Placeholder(n))
    ensures ReplaceAll(a + Placeholder(n) + b, Placeholder(n), r) == a + r + b
  {
    var p := Placeholder(n);
    PlaceholderShape(n);
    assert OccursAt(a + p + b, p, |a|);
    ReplaceAllSingle(a, p, b, r);
  }

  /** The key `a + Placeholder(n) + b` once its placeholder is `replaced`, or
      before. */
  function Substituted(a: string, n: string, b: string, m: map<string, string>, replaced: bool): string
    requires replaced ==> Placeholder(n) in m
  {
    if replaced then a + m[Placeholder(n)] + b else a + Placeholder(n) + b
  }

  /** A tag key with one placeholder, and no other brace opening, becomes the
      key with that placeholder's value in its place once the placeholder is
      visited, whatever the order of the visit; until then it is unchanged. */
  lemma {:induction false} SubstituteOne(a: string, n: string, b: string, m: map<string, string>, order: seq<string>)
    requires '{' !in a && '{' !in b && PlainName(n)
    requires PlainPlaceholders(m)
    requires forall q | q in order :: q in m && |q| > 0
    ensures ApplyPlaceholders(a + Placeholder(n) + b, m, order) == Substituted(a, n, b, m, Placeholder(n) in order)
  {
    if order != [] {
      SubstituteOne(a, n, b, m, order[..|order| - 1]);
      SubstituteLast(a, n, b, m, order);
    }
  }

  /** Visiting the last placeholder of `order` completes the substitution of
      the key's placeholder exactly when that placeholder occurs in `order`. */
  lemma SubstituteLast(a: string, n: string, b: string, m: map<string, string>, order: seq<string>)
    requires '{' !in a && '{' !in b && PlainName(n)
    requires PlainPlaceholders(m)
    requires order != [] && forall q | q in order :: q in m
    ensures var prefix := order[..|order| - 1];
            Visit(Substituted(a, n, b, m, Placeholder(n) in prefix), order[|order| - 1], m)
            == Substituted(a, n, b, m, Placeholder(n) in order)
  {
    var prefix := order[..|order| - 1];
    var q := order[|order| - 1];
    assert order == prefix + [q];
    SubstituteStep(a, n, b, m, q, Placeholder(n) in prefix);
  }

  /** Visiting one placeholder `q`: the key's own placeholder is replaced when
      `q` is it, and nothing else changes. */
  lemma SubstituteStep(a: string, n: string, b: string, m: map<string, string>, q: string, replaced: bool)
    requires '{' !in a && '{' !in b && PlainName(n)
    requires PlainPlaceholders(m) && q in m
    requires replaced ==> Placeholder(n) in m
    ensures |q| > 0
    ensures Visit(Substituted(a, n, b, m, replaced), q, m) == Substituted(a, n, b, m, replaced || q == Placeholder(n))
  {
    var p := Placeholder(n);
    var n2 := q[6..|q| - 1];
    if replaced {
      PlaceholderShape(n2);
      assert '{' !in a + m[p] + b;
      NoFirstCharNoContains(a + m[p] + b, q);
    } else if q == p {
      SubstituteHere(a, n, b, m[p]);
    } else {
      OtherPlaceholderAbsent(a, n, b, n2);
    }
  }

  /** getPortLabels on a port of `ports`: a tag key `a{port:NAME}b`, with no
      other brace opening, becomes `a`, the number of the last port named NAME,
      then `b`, whatever order the placeholder map is visited in. */
  lemma PortLabelSubstitution(ports: seq<Port>, i: nat, a: string, b: string, order: seq<string>)
    requires forall j | 0 <= j < |ports| :: PlainName(ports[j].name)
    requires i < |ports| && ports[i].name != ""
    requires forall j | i < j < |ports| :: ports[j].name != ports[i].name
    requires '{' !in a && '{' !in b
    requires IsEnumeration(order, PlaceholdersOf(ports).Keys)
    ensures forall q | q in order :: q in PlaceholdersOf(ports) && |q| > 0
    ensures ApplyPlaceholders(a + Placeholder(ports[i].name) + b, PlaceholdersOf(ports), order)
            == a + IntToString(ports[i].number) + b
  {
    var m := PlaceholdersOf(ports);
    PlaceholderKeys(ports);
    PlaceholderValuesPlain(ports);
    LastNamedPortWins(ports, i);
    forall q | q in m ensures IsPlainPlaceholder(q) {
      var j :| 0 <= j < |ports| && ports[j].name != "" && q == Placeholder(ports[j].name);
      PlaceholderShape(ports[j].name);
      assert q[6..|q| - 1] == ports[j].name;
    }
    SubstituteOne(a, ports[i].name, b, m, order);
  }

  /** A tag key without a brace opening is kept as it is. */
  lemma {:induction false} KeyWithoutPlaceholderKept(key: string, m: map<string, string>, order: seq<string>)
    requires '{' !in key
    requires forall q | q in order :: q in m && |q| > 0 && q[0] == '{'
    ensures ApplyPlaceholders(key, m, order) == key
  {
    if order != [] {
      var q := order[|order| - 1];
      KeyWithoutPlaceholderKept(key, m, order[..|order| - 1]);
      NoFirstCharNoContains(key, q);
    }
  }

  // ---------------------------------------------------------------------------
  // getTaskFromState

  /** The first task of the first executor with ID `executorId` and a task. */
  function TaskInExecutors(executors: seq<Executor>, executorId: string): Option<Task> {
    if executors == [] then None
    else if executors[0].id == executorId && |executors[0].tasks| > 0 then Some(executors[0].tasks[0])
    else TaskInExecutors(executors[1..], executorId)
  }

  /** The task found in the first framework with ID `frameworkId` that has one. */
  function TaskInFrameworks(frameworks: seq<Framework>, frameworkId: string, executorId: string): Option<Task> {
    if frameworks == [] then None
    else if frameworks[0].id == frameworkId && TaskInExecutors(frameworks[0].executors, executorId).Some? then
      TaskInExecutors(frameworks[0].executors, executorId)
    else TaskInFrameworks(frameworks[1..], frameworkId, executorId)
  }

  /** No executor before index `e` matches. */
  predicate NoMatchBefore(executors: seq<Executor>, executorId: string, e: nat)
    requires e <= |executors|
  {
    forall k | 0 <= k < e :: !(executors[k].id == executorId && |executors[k].tasks| > 0)
  }

  /** The executor search finds the first matching executor, and nothing when
      none matches. */
  lemma {:induction false} TaskInExecutorsIsFirst(executors: seq<Executor>, executorId: string)
    ensures TaskInExecutors(executors, executorId).None? <==> NoMatchBefore(executors, executorId, |executors|)
    ensures TaskInExecutors(executors, executorId).Some? ==>
              exists e | 0 <= e < |executors| ::
                && executors[e].id == executorId && |executors[e].tasks| > 0
                && NoMatchBefore(executors, executorId, e)
                && TaskInExecutors(executors, executorId) == Some(executors[e].tasks[0])
  {
    if executors != [] {
      TaskInExecutorsIsFirst(executors[1..], executorId);
      if !(executors[0].id == executorId && |executors[0].tasks| > 0) {
        forall k | 1 <= k <= |executors| ensures executors[1..][..k - 1] == executors[1..k] {
        }
        assert forall k | 1 <= k < |executors| :: executors[k] == executors[1..][k - 1];
        if TaskInExecutors(executors, executorId).Some? {
          var e :| 0 <= e < |executors[1..]| && executors[1..][e].id == executorId && |executors[1..][e].tasks| > 0
                   && NoMatchBefore(executors[1..], executorId, e)
                   && TaskInExecutors(executors[1..], executorId) == Some(executors[1..][e].tasks[0]);
          assert NoMatchBefore(executors, executorId, e + 1);
        }
      } else {
        assert NoMatchBefore(executors, executorId, 0);
      }
    }
  }

  /** getTaskFromState, with the executor and framework IDs read from the
      environment passed in ("" when unset). */
  method GetTaskFromState(s: State, executorId: string, frameworkId: string) returns (r: Result<Task>)
    ensures executorId == "" ==> r == Err(TaskSearchError + MissingExecutorIdError)
    ensures executorId != "" && frameworkId == "" ==> r == Err(TaskSearchError + MissingFrameworkIdError)
    ensures executorId != "" && frameworkId != "" ==>
              match TaskInFrameworks(s.frameworks, frameworkId, executorId)
              case Some(t) => r == Ok(t)
              case None => r == Err(NoTaskError)
  {
    if |executorId| == 0 {
      return Err(TaskSearchError + MissingExecutorIdError);
    } else if |frameworkId| == 0 {
      return Err(TaskSearchError + MissingFrameworkIdError);
    }
    for f := 0 to |s.frameworks|
      invariant TaskInFrameworks(s.frameworks[f..], frameworkId, executorId) == TaskInFrameworks(s.frameworks, frameworkId, executorId)
    {
      var framework := s.frameworks[f];
      assert s.frameworks[f..][1..] == s.frameworks[f + 1..];
      if framework.id == frameworkId {
        for e := 0 to |framework.executors|
          invariant TaskInExecutors(framework.executors[e..], executorId) == TaskInExecutors(framework.executors, executorId)
        {
          var executor := framework.executors[e];
          assert framework.executors[e..][1..] == framework.executors[e + 1..];
          if executor.id == executorId {
            if |executor.tasks| > 0 {
              return Ok(executor.tasks[0]);
            }
          }
        }
        assert framework.executors[|framework.executors|..] == [];
      }
    }
    assert s.frameworks[|s.frameworks|..] == [];
    return Err(NoTaskError);
  }

  // ---------------------------------------------------------------------------
  // buildServices and Get

  /** The task's tag label keys, then `marathon-task:<task ID>`. */
  function GlobalTags(t: Task): seq<string> {
    TagLabelKeys(t.labels) + [MarathonTaskTagPrefix + t.id]
  }

  /** The indices below `n` of the ports whose labels name a service. */
  function NamedPorts(ports: seq<Port>, n: nat): seq<nat>
    requires n <= |ports|
  {
    if n == 0 then []
    else NamedPorts(ports, n - 1) + (if ConsulServiceName(ports[n - 1].labels) != "" then [n - 1] else [])
  }

  /** The named ports are exactly the ports with a consul label of non-empty
      value, in port order. */
  lemma {:induction false} NamedPortsMembers(ports: seq<Port>, n: nat)
    requires n <= |ports|
    ensures forall k | 0 <= k < |NamedPorts(ports, n)| :: NamedPorts(ports, n)[k] < n && ConsulServiceName(ports[NamedPorts(ports, n)[k]].labels) != ""
    ensures forall i | 0 <= i < n && ConsulServiceName(ports[i].labels) != "" :: i in NamedPorts(ports, n)
    ensures forall a, b | 0 <= a < b < |NamedPorts(ports, n)| :: NamedPorts(ports, n)[a] < NamedPorts(ports, n)[b]
  {
    if n > 0 {
      NamedPortsMembers(ports, n - 1);
    }
  }

  /** The record of port `i` of the task: ID `<hostname>_<number>`, the port's
      service name, the port's tag keys with their placeholders replaced, then
      the global tags, and no check. */
  ghost predicate PortRecord(rec: ServiceInstance, t: Task, hostname: string, i: nat) {
    && i < |t.ports|
    && var port := t.ports[i];
    && rec.id == ServiceId(hostname, port.number)
    && rec.name == ConsulServiceName(port.labels)
    && rec.host == hostname
    && rec.port == port.number
    && rec.check == None
    && |rec.tags| >= |GlobalTags(t)|
    && rec.tags[|rec.tags| - |GlobalTags(t)|..] == GlobalTags(t)
    && PlainPlaceholderKeys(PlaceholdersOf(t.ports))
    && IsRewriting(rec.tags[..|rec.tags| - |GlobalTags(t)|], TagLabelKeys(port.labels), PlaceholdersOf(t.ports))
  }

  /** `portLabels` are the keys `keys` rewritten by getPortLabels, for some
      iteration order of the placeholder map. */
  ghost predicate IsRewriting(portLabels: seq<string>, keys: seq<string>, placeholders: map<string, string>)
    requires PlainPlaceholderKeys(placeholders)
  {
    exists orders :: Rewritten(portLabels, keys, placeholders, orders)
  }

  /** Every placeholder is non-empty (it is never the empty pattern). */
  predicate PlainPlaceholderKeys(m: map<string, string>) {
    forall q | q in m :: |q| > 0
  }

  lemma PlaceholderKeysNonEmpty(ports: seq<Port>)
    ensures PlainPlaceholderKeys(PlaceholdersOf(ports))
  {
    PlaceholderKeys(ports);
  }

  /** The record of the task-level fallback: the first port, the task's
      service name and the global tags. */
  function FallbackRecords(t: Task, hostname: string): seq<ServiceInstance> {
    if |t.ports| > 0 && ConsulServiceName(t.labels) != "" then
      [ServiceInstance(ServiceId(hostname, t.ports[0].number), ConsulServiceName(t.labels), hostname,
                       t.ports[0].number, GlobalTags(t), None)]
    else []
  }

  /** The records buildServices returns: one per named port, in port order;
      when no port is named, the fallback. */
  ghost predicate BuiltServices(services: seq<ServiceInstance>, t: Task, hostname: string) {
    var named := NamedPorts(t.ports, |t.ports|);
    if |named| > 0 then
      && |services| == |named|
      && forall k | 0 <= k < |services| :: PortRecord(services[k], t, hostname, named[k])
    else services == FallbackRecords(t, hostname)
  }

  /** buildServices, with the HOST environment variable passed in ("" when unset). */
  method BuildServices(t: Task, hostname: string) returns (r: Result<seq<ServiceInstance>>)
    ensures r.Err? <==> hostname == ""
    ensures r.Err? ==> r.message == HostnameError + MissingHostError
    ensures r.Ok? ==> BuiltServices(r.value, t, hostname)
  {
    if hostname == "" {
      return Err(HostnameError + MissingHostError);
    }
    var services: seq<ServiceInstance> := [];
    var globalTags: seq<string> := [];
    for i := 0 to |t.labels|
      invariant globalTags == TagLabelKeys(t.labels[..i])
    {
      assert t.labels[..i + 1][..i] == t.labels[..i];
      if t.labels[i].value == ConsulTagValue {
        globalTags := globalTags + [t.labels[i].key];
      }
    }
    assert t.labels[..|t.labels|] == t.labels;
    globalTags := globalTags + [MarathonTaskTagPrefix + t.id];
    var tagPlaceholders := GetPlaceholders(t.ports);
    PlaceholderKeysNonEmpty(t.ports);

    for i := 0 to |t.ports|
      invariant |services| == |NamedPorts(t.ports, i)|
      invariant forall k | 0 <= k < |services| :: PortRecord(services[k], t, hostname, NamedPorts(t.ports, i)[k])
    {
      var port := t.ports[i];
      var consulServiceName := GetConsulServiceName(port.labels);
      if consulServiceName != "" {
        var portTags;
        ghost var orders;
        portTags, orders := GetPortLabels(port.labels, tagPlaceholders);
        var service := ServiceInstance(ServiceId(hostname, port.number), consulServiceName, hostname, port.number,
                                       portTags + globalTags, None);
        assert PortRecord(service, t, hostname, i) by {
          assert service.tags[|service.tags| - |GlobalTags(t)|..] == GlobalTags(t);
          assert service.tags[..|service.tags| - |GlobalTags(t)|] == portTags;
        }
        services := services + [service];
      }
    }

    if |services| == 0 && |t.ports| > 0 {
      var consulServiceName := GetConsulServiceName(t.labels);
      if consulServiceName != "" {
        var port := t.ports[0].number;
        services := services + [ServiceInstance(ServiceId(hostname, port), consulServiceName, hostname, port, globalTags, None)];
      }
    }
    return Ok(services);
  }

  /** Get, with the agent's state (or the error fetching it), the executor and
      framework IDs and the HOST value passed in. */
  method Get(state: Result<State>, executorId: string, frameworkId: string, hostname: string)
    returns (r: Result<seq<ServiceInstance>>)
    ensures state.Err? ==> r == Err(AgentApiError + state.message)
    ensures state.Ok? && executorId == "" ==>
              r == Err(TaskInfoError + (TaskSearchError + MissingExecutorIdError))
    ensures state.Ok? && executorId != "" && frameworkId == "" ==>
              r == Err(TaskInfoError + (TaskSearchError + MissingFrameworkIdError))
    ensures state.Ok? && executorId != "" && frameworkId != "" ==>
              match TaskInFrameworks(state.value.frameworks, frameworkId, executorId)
              case None => r == Err(TaskInfoError + NoTaskError)
              case Some(t) =>
                && (r.Err? <==> hostname == "")
                && (r.Err? ==> r.message == HostnameError + MissingHostError)
                && (r.Ok? ==> BuiltServices(r.value, t, hostname))
  {
    if state.Err? {
      return Err(AgentApiError + state.message);
    }
    var task := GetTaskFromState(state.value, executorId, frameworkId);
    if task.Err? {
      return Err(TaskInfoError + task.message);
    }
    r := BuildServices(task.value, hostname);
  }

  /** The ID of port 1234 on host "hostname". */
  lemma Render1234()
    ensures ServiceId("hostname", 1234) == "hostname_1234"
  {
    assert NatToString(1) == "1";
    assert NatToString(12) == "12";
    assert NatToString(123) == "123";
    assert NatToString(1234) == "1234";
  }

  /** A task whose only port has no labels falls back to the task's own
      consul label: one record for the first port, tagged with the task tag. */
  lemma TaskLabelFallbackExample(services: seq<ServiceInstance>)
    requires BuiltServices(services, Task("", [Label("consul", "name")], [Port(1234, "", "", [])]), "hostname")
    ensures services == [ServiceInstance("hostname_1234", "name", "hostname", 1234, ["marathon-task:"], None)]
  {
    Render1234();
    var t := Task("", [Label("consul", "name")], [Port(1234, "", "", [])]);
    assert NamedPorts(t.ports, 1) == [];
    assert ConsulServiceName(t.labels) == "name";
    assert TagLabelKeys(t.labels) == [];
    assert MarathonTaskTagPrefix + t.id == "marathon-task:";
    assert GlobalTags(t) == ["marathon-task:"];
    assert ServiceId("hostname", t.ports[0].number) == "hostname_1234";
  }

  /** A port's consul label takes precedence over the task's: the record is
      the port's, and the task-level name is not used. */
  lemma PortLabelExample(services: seq<ServiceInstance>)
    requires BuiltServices(services, Task("", [Label("consul", "invalid-name")],
                                          [Port(1234, "", "", [Label("consul", "valid-name")])]), "hostname")
    ensures |services| == 1
    ensures services[0].id == "hostname_1234" && services[0].name == "valid-name"
    ensures services[0].host == "hostname" && services[0].port == 1234
  {
    Render1234();
    var t := Task("", [Label("consul", "invalid-name")], [Port(1234, "", "", [Label("consul", "valid-name")])]);
    assert ConsulServiceName(t.ports[0].labels) == "valid-name";
    assert NamedPorts(t.ports, 1) == [0];
    assert PortRecord(services[0], t, "hostname", 0);
  }
}
