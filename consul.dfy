/** The registration records and the write loop of consul/agent.go, run against
    an abstract Consul agent. */
module Consul {
  import opened Wrappers
  import opened Text

  /** consul.CheckType is a string type; these are its two named values. */
  type CheckType = string

  const CheckHTTPGet: CheckType := "HTTP_GET"
  const CheckTCP: CheckType := "TCP"

  /** consul.Check. Go's time.Duration fields are kept as whole seconds. */
  datatype Check = Check(checkType: CheckType, address: string, intervalSec: int, timeoutSec: int)

  /** consul.ServiceInstance: one record to register or deregister. */
  datatype ServiceInstance = ServiceInstance(
    id: string,
    name: string,
    host: string,
    port: int,
    tags: seq<string>,
    check: Option<Check>)

  /** A record that carries only an ID, every other field at Go's zero value. */
  function IdOnly(id: string): ServiceInstance {
    ServiceInstance(id, "", "", 0, [], None)
  }

  /** `<host>_<port>`: the ID every provider gives a plain record. */
  function ServiceId(host: string, port: int): string {
    host + "_" + IntToString(port)
  }

  /** On one host, an ID names exactly one port. */
  lemma ServiceIdDeterminesPort(host: string, p: int, q: int)
    requires ServiceId(host, p) == ServiceId(host, q)
    ensures p == q
  {
    var n := |host| + 1;
    assert IntToString(p) == ServiceId(host, p)[n..];
    assert IntToString(q) == ServiceId(host, q)[n..];
    IntToStringInjective(p, q);
  }

  /** The fields of api.AgentServiceCheck the hook sets; "" is Go's zero value. */
  datatype AgentCheck = AgentCheck(intervalSec: int, timeoutSec: int, http: string, httpMethod: string, tcp: string)

  /** The fields of api.AgentServiceRegistration the hook sets. */
  datatype Registration = Registration(
    id: string,
    name: string,
    port: int,
    address: string,
    tags: seq<string>,
    check: Option<AgentCheck>)

  /** The check part of a registration: the address goes to the HTTP field (with
      method GET) or to the TCP field according to the check type; any other
      type keeps only the interval and the timeout. */
  function ToAgentCheck(c: Check): (a: AgentCheck)
    ensures a.intervalSec == c.intervalSec && a.timeoutSec == c.timeoutSec
    ensures c.checkType == CheckHTTPGet ==> a.http == c.address && a.httpMethod == "GET" && a.tcp == ""
    ensures c.checkType == CheckTCP ==> a.tcp == c.address && a.http == "" && a.httpMethod == ""
    ensures c.checkType != CheckHTTPGet && c.checkType != CheckTCP ==> a.http == "" && a.httpMethod == "" && a.tcp == ""
  {
    var base := AgentCheck(c.intervalSec, c.timeoutSec, "", "", "");
    if c.checkType == CheckHTTPGet then base.(http := c.address, httpMethod := "GET")
    else if c.checkType == CheckTCP then base.(tcp := c.address)
    else base
  }

  /** The registration submitted for one record. */
  function ToRegistration(s: ServiceInstance): Registration {
    Registration(
      s.id, s.name, s.port, s.host, s.tags,
      match s.check
      case None => None
      case Some(c) => Some(ToAgentCheck(c)))
  }

  /** Reads a submitted check back: GET marks an HTTP check, anything else a TCP one. */
  function FromAgentCheck(a: AgentCheck): Check {
    if a.httpMethod == "GET" then Check(CheckHTTPGet, a.http, a.intervalSec, a.timeoutSec)
    else Check(CheckTCP, a.tcp, a.intervalSec, a.timeoutSec)
  }

  /** Reads a submitted registration back into a record. */
  function FromRegistration(r: Registration): ServiceInstance {
    ServiceInstance(
      r.id, r.name, r.address, r.port, r.tags,
      match r.check
      case None => None
      case Some(a) => Some(FromAgentCheck(a)))
  }

  /** The record has no check, or a check of one of the two named types. */
  predicate HasKnownCheck(s: ServiceInstance) {
    s.check.None? || s.check.value.checkType == CheckHTTPGet || s.check.value.checkType == CheckTCP
  }

  /** A registration keeps every field of its record (the host becoming the
      address) exactly when the record's check, if any, is HTTP_GET or TCP; a
      check of another type loses its address. */
  lemma RegistrationRoundTrip(s: ServiceInstance)
    ensures FromRegistration(ToRegistration(s)) == s <==> HasKnownCheck(s)
  {
    if s.check.Some? {
      var c := s.check.value;
      var back := FromAgentCheck(ToAgentCheck(c));
      if c.checkType == CheckHTTPGet {
        assert back == c;
      } else if c.checkType == CheckTCP {
        assert back == c;
      } else {
        assert back.checkType != c.checkType;
      }
    }
  }

  // ---------------------------------------------------------------------------
  // The agent client

  /** One call received by the Consul agent. */
  datatype Call = RegisterCall(registration: Registration) | DeregisterCall(id: string)

  /** The Consul agent as the hook's client sees it: the registrations it holds,
      keyed by ID, the calls it has received, and a failure oracle that gives
      the outcome (an error message or none) of the n-th call. */
  class Registry {
    var services: map<string, Registration>
    var calls: seq<Call>
    const errorAt: nat -> Option<string>

    constructor (errorAt: nat -> Option<string>)
      ensures services == map[] && calls == [] && this.errorAt == errorAt
    {
      services := map[];
      calls := [];
      this.errorAt := errorAt;
    }

    /** ServiceRegister: stores the registration unless the call fails. */
    method ServiceRegister(reg: Registration) returns (err: Option<string>)
      modifies this
      ensures err == errorAt(|old(calls)|)
      ensures calls == old(calls) + [RegisterCall(reg)]
      ensures services == if err.None? then old(services)[reg.id := reg] else old(services)
    {
      err := errorAt(|calls|);
      calls := calls + [RegisterCall(reg)];
      if err.None? {
        services := services[reg.id := reg];
      }
    }

    /** ServiceDeregister: drops the ID unless the call fails. */
    method ServiceDeregister(id: string) returns (err: Option<string>)
      modifies this
      ensures err == errorAt(|old(calls)|)
      ensures calls == old(calls) + [DeregisterCall(id)]
      ensures services == if err.None? then old(services) - {id} else old(services)
    {
      err := errorAt(|calls|);
      calls := calls + [DeregisterCall(id)];
      if err.None? {
        services := services - {id};
      }
    }
  }

  // ---------------------------------------------------------------------------
  // What a run of calls does, as functions of the oracle

  /** The position, among `count` calls starting with call number `start`, of
      the first one that fails, or `count` when none does. */
  function FirstFailure(errorAt: nat -> Option<string>, start: nat, count: nat): (k: nat)
    ensures k <= count
    ensures forall n | start <= n < start + k :: errorAt(n).None?
    ensures k < count ==> errorAt(start + k).Some?
    decreases count
  {
    if count == 0 then 0
    else
      var before := FirstFailure(errorAt, start, count - 1);
      if before < count - 1 then before
      else if errorAt(start + count - 1).Some? then count - 1
      else count
  }

  /** The register calls for `ss`, in order. */
  function RegisterCalls(ss: seq<ServiceInstance>): seq<Call> {
    if ss == [] then [] else RegisterCalls(ss[..|ss| - 1]) + [RegisterCall(ToRegistration(ss[|ss| - 1]))]
  }

  /** The deregister calls for `ss`, in order. */
  function DeregisterCalls(ss: seq<ServiceInstance>): seq<Call> {
    if ss == [] then [] else DeregisterCalls(ss[..|ss| - 1]) + [DeregisterCall(ss[|ss| - 1].id)]
  }

  /** The store after registering `ss` one after another, all successfully. */
  function Registered(m: map<string, Registration>, ss: seq<ServiceInstance>): map<string, Registration> {
    if ss == [] then m
    else
      var r := ToRegistration(ss[|ss| - 1]);
      Registered(m, ss[..|ss| - 1])[r.id := r]
  }

  /** The IDs of the records in `ss`. */
  function Ids(ss: seq<ServiceInstance>): set<string> {
    set s | s in ss :: s.id
  }

  /** After a run of successful registrations the store holds what it held
      before plus the ID of every record, each mapped to the last registration
      carrying that ID. */
  lemma {:induction false} RegisteredContents(m: map<string, Registration>, ss: seq<ServiceInstance>)
    ensures Registered(m, ss).Keys == m.Keys + Ids(ss)
    ensures |ss| > 0 ==> Registered(m, ss)[ss[|ss| - 1].id] == ToRegistration(ss[|ss| - 1])
  {
    if ss != [] {
      var prefix := ss[..|ss| - 1];
      RegisteredContents(m, prefix);
      assert ss == prefix + [ss[|ss| - 1]];
      assert Ids(ss) == Ids(prefix) + {ss[|ss| - 1].id};
    }
  }

  /** The error messages of the failing calls among `count` calls starting with
      call number `start`, in call order. */
  function Errors(errorAt: nat -> Option<string>, start: nat, count: nat): seq<string> {
    if count == 0 then []
    else
      Errors(errorAt, start, count - 1)
      + match errorAt(start + count - 1) case Some(e) => [e] case None => []
  }

  /** The text of `fmt.Errorf("%s", errs)` for a slice of errors: the
      messages in brackets, separated by single spaces. */
  function ErrorListText(errs: seq<string>): (t: string)
    ensures |t| >= 2 && t[0] == '[' && t[|t| - 1] == ']'
  {
    "[" + Join(errs, " ") + "]"
  }

  /** The messages can be read back from the text when none holds a space. */
  lemma ErrorListTextRoundTrip(errs: seq<string>)
    requires |errs| >= 1
    requires forall e | e in errs :: ' ' !in e
    ensures var t := ErrorListText(errs); Split(t[1..|t| - 1], " ") == errs
  {
    var t := ErrorListText(errs);
    assert t[1..|t| - 1] == Join(errs, [' ']);
    SplitJoin(errs, ' ');
  }

  /** No error is reported exactly when every call succeeds. */
  lemma {:induction false} ErrorsEmptyIffAllSucceed(errorAt: nat -> Option<string>, start: nat, count: nat)
    ensures Errors(errorAt, start, count) == [] <==> forall n | start <= n < start + count :: errorAt(n).None?
  {
    if count > 0 {
      ErrorsEmptyIffAllSucceed(errorAt, start, count - 1);
    }
  }

  /** One error is reported per failing call. */
  lemma {:induction false} ErrorsCount(errorAt: nat -> Option<string>, start: nat, count: nat)
    ensures |Errors(errorAt, start, count)| == |set n | start <= n < start + count && errorAt(n).Some?|
  {
    if count > 0 {
      ErrorsCount(errorAt, start, count - 1);
      var before := set n | start <= n < start + count - 1 && errorAt(n).Some?;
      var now := set n | start <= n < start + count && errorAt(n).Some?;
      if errorAt(start + count - 1).Some? {
        assert now == before + {start + count - 1};
      } else {
        assert now == before;
      }
    }
  }

  /** The IDs whose deregistration succeeds, for the records `ss` submitted from
      call number `start` on. */
  function Removed(ss: seq<ServiceInstance>, errorAt: nat -> Option<string>, start: nat): set<string> {
    set j | 0 <= j < |ss| && errorAt(start + j).None? :: ss[j].id
  }

  /** Submitting one more record removes its ID exactly when its call succeeds. */
  lemma RemovedSnoc(ss: seq<ServiceInstance>, errorAt: nat -> Option<string>, start: nat, i: nat)
    requires i < |ss|
    ensures Removed(ss[..i + 1], errorAt, start)
            == Removed(ss[..i], errorAt, start) + (if errorAt(start + i).None? then {ss[i].id} else {})
  {
    var before, after := ss[..i], ss[..i + 1];
    forall id | id in Removed(after, errorAt, start)
      ensures id in Removed(before, errorAt, start) + (if errorAt(start + i).None? then {ss[i].id} else {})
    {
      var j :| 0 <= j < |after| && errorAt(start + j).None? && after[j].id == id;
      if j < i {
        assert before[j] == after[j];
      }
    }
    forall id | id in Removed(before, errorAt, start) ensures id in Removed(after, errorAt, start) {
      var j :| 0 <= j < |before| && errorAt(start + j).None? && before[j].id == id;
      assert after[j] == before[j];
    }
    if errorAt(start + i).None? {
      assert after[i] == ss[i];
    }
  }

  /** One more registration call: its call is appended, and a successful call
      stores the record's registration. */
  lemma RegisterStep(ss: seq<ServiceInstance>, m: map<string, Registration>, i: nat)
    requires i < |ss|
    ensures RegisterCalls(ss[..i + 1]) == RegisterCalls(ss[..i]) + [RegisterCall(ToRegistration(ss[i]))]
    ensures Registered(m, ss[..i + 1]) == Registered(m, ss[..i])[ss[i].id := ToRegistration(ss[i])]
  {
    assert ss[..i + 1][..i] == ss[..i];
  }

  /** One more deregistration call: its call is appended, its error (if any)
      is appended, and its ID is removed when the call succeeds. */
  lemma DeregisterStep(ss: seq<ServiceInstance>, errorAt: nat -> Option<string>, start: nat, i: nat)
    requires i < |ss|
    ensures DeregisterCalls(ss[..i + 1]) == DeregisterCalls(ss[..i]) + [DeregisterCall(ss[i].id)]
    ensures Errors(errorAt, start, i + 1)
            == Errors(errorAt, start, i) + (if errorAt(start + i).Some? then [errorAt(start + i).value] else [])
    ensures forall m: map<string, Registration> ::
              (if errorAt(start + i).None? then (m - Removed(ss[..i], errorAt, start)) - {ss[i].id}
               else m - Removed(ss[..i], errorAt, start))
              == m - Removed(ss[..i + 1], errorAt, start)
  {
    assert ss[..i + 1][..i] == ss[..i];
    RemovedSnoc(ss, errorAt, start, i);
  }

  // ---------------------------------------------------------------------------
  // The write loop

  /** consul.Agent: registers and deregisters records through its client. */
  class Agent {
    const client: Registry

    constructor (client: Registry)
      ensures this.client == client
    {
      this.client := client;
    }

    /** Submits the records in order and stops at the first failing call,
        returning its error; the records after it are never submitted. */
    method Register(services: seq<ServiceInstance>) returns (err: Option<string>)
      modifies client
      ensures var start := |old(client.calls)|;
              var k := FirstFailure(client.errorAt, start, |services|);
              var submitted := if k < |services| then k + 1 else |services|;
              && client.calls == old(client.calls) + RegisterCalls(services[..submitted])
              && err == (if k < |services| then client.errorAt(start + k) else None)
              && client.services == Registered(old(client.services), services[..k])
    {
      ghost var start := |client.calls|;
      ghost var calls0, services0 := client.calls, client.services;
      ghost var k := FirstFailure(client.errorAt, start, |services|);
      var i := 0;
      while i < |services|
        invariant 0 <= i <= k
        invariant |client.calls| == start + i
        invariant client.calls == calls0 + RegisterCalls(services[..i])
        invariant client.services == Registered(services0, services[..i])
      {
        RegisterStep(services, services0, i);
        var e := client.ServiceRegister(ToRegistration(services[i]));
        if e.Some? {
          assert k == i;
          return e;
        }
        i := i + 1;
      }
      return None;
    }

    /** Attempts to deregister every record, in order, whatever the earlier
        calls returned, then reports all the failures together. */
    method Deregister(services: seq<ServiceInstance>) returns (err: Option<string>)
      modifies client
      ensures var start := |old(client.calls)|;
              var errs := Errors(client.errorAt, start, |services|);
              && client.calls == old(client.calls) + DeregisterCalls(services)
              && err == (if errs == [] then None else Some(ErrorListText(errs)))
              && client.services == old(client.services) - Removed(services, client.errorAt, start)
    {
      ghost var start := |client.calls|;
      ghost var calls0, services0 := client.calls, client.services;
      var errs: seq<string> := [];
      var i := 0;
      while i < |services|
        invariant 0 <= i <= |services|
        invariant |client.calls| == start + i
        invariant client.calls == calls0 + DeregisterCalls(services[..i])
        invariant errs == Errors(client.errorAt, start, i)
        invariant client.services == services0 - Removed(services[..i], client.errorAt, start)
      {
        DeregisterStep(services, client.errorAt, start, i);
        var e := client.ServiceDeregister(services[i].id);
        if e.Some? {
          errs := errs + [e.value];
        }
        i := i + 1;
      }
      assert services[..i] == services;
      if |errs| > 0 {
        return Some("[" + Join(errs, " ") + "]");
      }
      return None;
    }
  }

  /** Deregistering two records through an agent whose every call fails still
      attempts both, in order, and reports both failures in one error. */
  method DeregisterAttemptsEveryRecord() returns (calls: seq<Call>, err: Option<string>)
    ensures calls == [DeregisterCall("id1"), DeregisterCall("id2")]
    ensures err == Some("[error error]")
  {
    var registry := new Registry(n => Some("error"));
    var agent := new Agent(registry);
    err := agent.Deregister([IdOnly("id1"), IdOnly("id2")]);
    assert [IdOnly("id1"), IdOnly("id2")][..1] == [IdOnly("id1")];
    assert registry.errorAt(0) == Some("error") && registry.errorAt(1) == Some("error");
    assert Errors(registry.errorAt, 0, 1) == ["error"];
    assert Errors(registry.errorAt, 0, 2) == ["error", "error"];
    assert ["error", "error"][1..] == ["error"];
    assert Join(["error", "error"], " ") == "error error";
    assert ErrorListText(["error", "error"]) == "[error error]";
    calls := registry.calls;
  }
}
