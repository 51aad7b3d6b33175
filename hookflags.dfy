/** hookflags/provider.go: one record built from command-line flag values. */
module HookFlags {
  import opened Wrappers
  import opened Text
  import opened Consul

  /** The separator of the service tags flag. */
  const ServiceTagsSeparator := ","

  /** The interval and timeout of the HTTP check, in seconds. */
  const CheckIntervalSec := 30
  const CheckTimeoutSec := 30

  /** The values the command line gives for the provider's flags: the service
      name, the pod IP, the container port (0 when unset), the comma-separated
      tags and the check path. */
  datatype FlagValues = FlagValues(
    serviceName: string,
    podIp: string,
    containerPort: int,
    serviceTags: string,
    checkPath: string)

  /** getTags: the tags flag split on commas. Joining the tags with commas gives
      the flag back, no tag holds a comma, and empty pieces are kept. */
  function GetTags(serviceTags: string): (tags: seq<string>)
    ensures |tags| >= 1
    ensures Join(tags, ServiceTagsSeparator) == serviceTags
    ensures forall tag | tag in tags :: ',' !in tag
    ensures ',' !in serviceTags ==> tags == [serviceTags]
  {
    JoinSplit(serviceTags, ServiceTagsSeparator);
    SplitPiecesAvoidSeparator(serviceTags, ',');
    if ',' !in serviceTags then
      SplitWithoutSeparator(serviceTags, ',');
      Split(serviceTags, ServiceTagsSeparator)
    else
      Split(serviceTags, ServiceTagsSeparator)
  }

  /** An empty tags flag gives one empty tag, not an empty list. */
  lemma EmptyTagsFlag()
    ensures GetTags("") == [""]
  {
  }

  /** Two commas give three tags, the empty pieces included. */
  lemma TagsKeepEmptyPieces()
    ensures GetTags("a,,b") == ["a", "", "b"]
  {
    SplitWithoutSeparator("b", ',');
    assert ",b"[..1] == "," && ",b"[1..] == "b";
    assert Split(",b", ",") == ["", "b"];
    assert ",,b"[..1] == "," && ",,b"[1..] == ",b";
    assert Split(",,b", ",") == ["", "", "b"];
    assert "a,,b"[..1] == "a" && "a,,b"[1..] == ",,b";
    assert ['a'] + "" == "a";
    assert ["", "", "b"][1..] == ["", "b"];
    assert Split("a,,b", ",") == ["a", "", "b"];
  }

  /** getConsulHTTPCheck: an HTTP GET check on `<host>:<port>` and the path,
      every 30 seconds with a 30-second timeout. */
  function GetConsulHttpCheck(host: string, port: int, path: string): (c: Check)
    ensures c.checkType == CheckHTTPGet
    ensures c.intervalSec == CheckIntervalSec && c.timeoutSec == CheckTimeoutSec
    ensures HasPrefix(c.address, "http://" + host + ":" + IntToString(port))
  {
    var hostPort := host + ":" + IntToString(port);
    var address := HttpUrl(hostPort, path);
    HttpUrlPrefix(hostPort, path);
    assert "http://" + hostPort == "http://" + host + ":" + IntToString(port);
    Check(CheckHTTPGet, address, CheckIntervalSec, CheckTimeoutSec)
  }

  /** The check address is `http://`, the host and the port joined by a colon
      with no IPv6 bracketing, then the path, with a separating slash before a
      relative path. This holds for every host, port and path. */
  lemma CheckAddress(host: string, port: int, path: string)
    ensures GetConsulHttpCheck(host, port, path).address
            == "http://" + host + ":" + IntToString(port) + (if path != "" && path[0] != '/' then "/" else "") + path
  {
  }

  /** Splitting the host-and-port part of the address gives back the host and
      the port number, for a host without a bracket. */
  lemma CheckTargetsHostAndPort(host: string, port: int)
    requires '[' !in host
    ensures SplitHostPort(host + ":" + IntToString(port)) == Some((host, IntToString(port)))
    ensures ParseInt(IntToString(port)) == Some(port)
  {
    IntToStringChars(port);
    IntToStringRoundTrip(port);
    SplitHostPortAtColon(host, IntToString(port));
  }

  /** Get: exactly one record, never an error. Its ID is `<host>_<port>`, its
      name, host and port are the flags', its tags are the split tags flag and
      nothing else, and it carries the HTTP check. */
  function Get(flags: FlagValues): (r: seq<ServiceInstance>)
    ensures |r| == 1
    ensures r[0].id == ServiceId(flags.podIp, flags.containerPort)
    ensures r[0].name == flags.serviceName && r[0].host == flags.podIp && r[0].port == flags.containerPort
    ensures Join(r[0].tags, ServiceTagsSeparator) == flags.serviceTags
    ensures forall tag | tag in r[0].tags :: ',' !in tag
    ensures r[0].check.Some? && r[0].check.value.checkType == CheckHTTPGet
    ensures r[0].check.value.intervalSec == CheckIntervalSec && r[0].check.value.timeoutSec == CheckTimeoutSec
    ensures r[0].tags == GetTags(flags.serviceTags)
    ensures r[0].check == Some(GetConsulHttpCheck(flags.podIp, flags.containerPort, flags.checkPath))
  {
    var host := flags.podIp;
    var port := flags.containerPort;
    var service := ServiceInstance(ServiceId(host, port), flags.serviceName, host, port, [],
                                   Some(GetConsulHttpCheck(host, port, flags.checkPath)));
    var tags := GetTags(flags.serviceTags);
    assert service.tags + tags == tags;
    [service.(tags := service.tags + tags)]
  }

  /** Records from two flag sets on the same pod IP share an ID only when they
      share the port. */
  lemma SameIdSamePort(f: FlagValues, g: FlagValues)
    requires f.podIp == g.podIp
    requires Get(f)[0].id == Get(g)[0].id
    ensures f.containerPort == g.containerPort
  {
    ServiceIdDeterminesPort(f.podIp, f.containerPort, g.containerPort);
  }
}
