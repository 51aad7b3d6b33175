/** k8s/util.go: translating a Kubernetes probe into a Consul check. */
module K8sUtil {
  import opened Wrappers
  import opened Text
  import opened Consul

  /** intstr.IntOrString: a probe port given as a number or by name. */
  datatype IntOrString = IntVal(intVal: int) | StrVal(strVal: string)

  /** The IntVal field of a port: zero when the port is given by name or unset. */
  function PortNumber(p: IntOrString): int {
    match p
    case IntVal(n) => n
    case StrVal(_) => 0
  }

  /** The HTTP GET handler of a probe; its own host and scheme play no part in the check. */
  datatype HttpGetAction = HttpGetAction(host: string, path: string, port: IntOrString, scheme: string)

  datatype TcpSocketAction = TcpSocketAction(host: string, port: IntOrString)

  /** corev1.Probe: at most the handlers the translation looks at, and its period and timeout. */
  datatype Probe = Probe(
    httpGet: Option<HttpGetAction>,
    tcpSocket: Option<TcpSocketAction>,
    periodSeconds: int,
    timeoutSeconds: int)

  /** An unset port, as a probe decoded without a port field has it. */
  const UnsetPort := IntVal(0)

  /** ConvertToConsulCheck: a missing probe, or one with neither an HTTP GET nor
      a TCP handler, gives no check; an HTTP GET handler (preferred when both
      are set) gives an http URL on the given host; a TCP handler gives the
      host and port. Interval and timeout are the probe's period and timeout. */
  function ConvertToConsulCheck(probe: Option<Probe>, host: string): (r: Option<Check>)
    ensures r.Some? <==> probe.Some? && (probe.value.httpGet.Some? || probe.value.tcpSocket.Some?)
    ensures r.Some? ==> r.value.intervalSec == probe.value.periodSeconds
    ensures r.Some? ==> r.value.timeoutSec == probe.value.timeoutSeconds
    ensures r.Some? ==> (r.value.checkType == CheckHTTPGet <==> probe.value.httpGet.Some?)
    ensures r.Some? ==> (r.value.checkType == CheckTCP <==> probe.value.httpGet.None?)
  {
    match probe
    case None => None
    case Some(p) =>
      if p.httpGet.Some? then
        var handler := p.httpGet.value;
        var hostPort := JoinHostPort(host, IntToString(PortNumber(handler.port)));
        Some(Check(CheckHTTPGet, HttpUrl(hostPort, handler.path), p.periodSeconds, p.timeoutSeconds))
      else if p.tcpSocket.Some? then
        var handler := p.tcpSocket.value;
        var address := JoinHostPort(host, IntToString(PortNumber(handler.port)));
        Some(Check(CheckTCP, address, p.periodSeconds, p.timeoutSeconds))
      else None
  }

  /** The probe's own host and scheme are ignored: an HTTPS probe still gives an
      http check on the host passed in. */
  lemma HttpCheckIgnoresProbeHostAndScheme(p: Probe, host: string, probeHost: string, scheme: string)
    requires p.httpGet.Some?
    ensures var q := p.(httpGet := Some(p.httpGet.value.(host := probeHost, scheme := scheme)));
            ConvertToConsulCheck(Some(q), host) == ConvertToConsulCheck(Some(p), host)
  {
  }

  /** The HTTP check's address is "http://", then the host and port, then the
      probe path; splitting the host-and-port part gives back the host passed
      in and the probe's port number. */
  lemma HttpCheckTargetsHostAndPort(p: Probe, host: string)
    requires p.httpGet.Some?
    requires p.httpGet.value.path == "" || p.httpGet.value.path[0] == '/'
    requires '[' !in host
    ensures var r := ConvertToConsulCheck(Some(p), host);
            var port := IntToString(PortNumber(p.httpGet.value.port));
            && r.Some?
            && r.value.address == "http://" + JoinHostPort(host, port) + p.httpGet.value.path
            && SplitHostPort(JoinHostPort(host, port)) == Some((host, port))
            && ParseInt(port) == Some(PortNumber(p.httpGet.value.port))
  {
    var port := IntToString(PortNumber(p.httpGet.value.port));
    IntToStringChars(PortNumber(p.httpGet.value.port));
    IntToStringRoundTrip(PortNumber(p.httpGet.value.port));
    SplitJoinHostPort(host, port);
  }

  /** The TCP check's address splits into the host passed in and the probe's
      port number, with no scheme and no path. */
  lemma TcpCheckTargetsHostAndPort(p: Probe, host: string)
    requires p.httpGet.None? && p.tcpSocket.Some?
    requires '[' !in host
    ensures var r := ConvertToConsulCheck(Some(p), host);
            && r.Some?
            && SplitHostPort(r.value.address) == Some((host, IntToString(PortNumber(p.tcpSocket.value.port))))
            && ParseInt(IntToString(PortNumber(p.tcpSocket.value.port))) == Some(PortNumber(p.tcpSocket.value.port))
  {
    var port := IntToString(PortNumber(p.tcpSocket.value.port));
    IntToStringChars(PortNumber(p.tcpSocket.value.port));
    IntToStringRoundTrip(PortNumber(p.tcpSocket.value.port));
    SplitJoinHostPort(host, port);
  }

  /** Port 8080 renders as "8080". */
  lemma Render8080()
    ensures IntToString(8080) == "8080"
  {
    assert NatToString(8) == "8";
    assert NatToString(80) == "80";
    assert NatToString(808) == "808";
  }

  /** An HTTP probe on port 8080 with path /ping, period and timeout 60, checked
      on localhost. */
  lemma HttpProbeExample()
    ensures ConvertToConsulCheck(
              Some(Probe(Some(HttpGetAction("localhost", "/ping", IntVal(8080), "")), None, 60, 60)),
              "localhost")
            == Some(Check(CheckHTTPGet, "http://localhost:8080/ping", 60, 60))
  {
    Render8080();
    assert ':' !in "localhost";
    assert JoinHostPort("localhost", "8080") == "localhost:8080";
    assert "/ping"[0] == '/';
    assert HttpUrl("localhost:8080", "/ping") == "http://localhost:8080/ping";
    assert PortNumber(IntVal(8080)) == 8080;
  }

  /** A TCP probe on port 8080, checked on localhost. */
  lemma TcpProbeExample()
    ensures ConvertToConsulCheck(
              Some(Probe(None, Some(TcpSocketAction("", IntVal(8080))), 60, 60)),
              "localhost")
            == Some(Check(CheckTCP, "localhost:8080", 60, 60))
  {
    Render8080();
    assert ':' !in "localhost";
    assert JoinHostPort("localhost", "8080") == "localhost:8080";
  }

  /** A probe whose port was never set, or is given by name, renders port 0:
      only the integer value of the port is read. */
  lemma UnsetOrNamedPortRendersZero(p: Probe, host: string)
    requires p.httpGet.Some? && (p.httpGet.value.port == UnsetPort || p.httpGet.value.port.StrVal?)
    ensures ConvertToConsulCheck(Some(p), host).Some?
    ensures ConvertToConsulCheck(Some(p), host).value.address
            == HttpUrl(JoinHostPort(host, "0"), p.httpGet.value.path)
  {
    assert PortNumber(p.httpGet.value.port) == 0;
    assert IntToString(0) == "0";
  }
}
