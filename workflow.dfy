/** One run of the updater (update_dns_record.py, main): read the
    configuration, then resolve the public address, then update the record,
    each step only after the previous one succeeded. */
module Workflow {
  import opened Wrappers
  import opened Http
  import opened Effects
  import opened Config
  import opened PublicIp
  import opened GoDaddy

  /** The whole run, as a specification, given the parsed configuration and
      its interpolation, the three replies and the address check. */
  function UpdateRun(config: Parsed, interpolate: Interpolation,
                     echo: Response<string>, get: Response<seq<Record>>, put: Response<()>,
                     isValidIp: string -> bool): Run
  {
    match LoadCredentials(config, interpolate)
    case Failure(e) => Run([], Aborted(e))
    case Success(creds) =>
      match GetCurrentPublicIp(echo, isValidIp)
      case Failure(e) => Run([EchoRequest()], Aborted(e))
      case Success(ip) =>
        var dns := DnsUpdate(creds, ip, get, put);
        Run([EchoRequest()] + dns.trace, dns.outcome)
  }

  /** main: the three steps in sequence; an error in one ends the run. */
  method RunUpdate(config: Parsed, interpolate: Interpolation,
                   echo: Response<string>, get: Response<seq<Record>>, put: Response<()>,
                   isValidIp: string -> bool)
    returns (trace: seq<Event>, outcome: Outcome)
    ensures Run(trace, outcome) == UpdateRun(config, interpolate, echo, get, put, isValidIp)
  {
    var loaded := ReadConfigFile(config, interpolate);
    if loaded.Failure? {
      return [], Aborted(loaded.error);
    }
    var creds := loaded.value;
    trace := [EchoRequest()];
    var resolved := GetCurrentPublicIp(echo, isValidIp);
    if resolved.Failure? {
      return trace, Aborted(resolved.error);
    }
    var dnsTrace, dnsOutcome := UpdateGodaddyDnsEntry(creds, resolved.value, get, put);
    trace := trace + dnsTrace;
    outcome := dnsOutcome;
  }

  /** A configuration error ends the run before any request is issued. */
  lemma ConfigErrorPrecedesRequests(config: Parsed, interpolate: Interpolation,
                                    echo: Response<string>, get: Response<seq<Record>>,
                                    put: Response<()>, isValidIp: string -> bool)
    requires LoadCredentials(config, interpolate).Failure?
    ensures UpdateRun(config, interpolate, echo, get, put, isValidIp) == Run([], Aborted(LoadCredentials(config, interpolate).error))
    ensures Requests(UpdateRun(config, interpolate, echo, get, put, isValidIp).trace) == []
  {
  }

  /** An error while resolving the address ends the run after the echo request
      alone, before any request to the DNS provider. */
  lemma IpErrorPrecedesDnsRequests(config: Parsed, interpolate: Interpolation,
                                   echo: Response<string>, get: Response<seq<Record>>,
                                   put: Response<()>, isValidIp: string -> bool)
    requires LoadCredentials(config, interpolate).Success?
    requires GetCurrentPublicIp(echo, isValidIp).Failure?
    ensures UpdateRun(config, interpolate, echo, get, put, isValidIp) ==
      Run([EchoRequest()], Aborted(GetCurrentPublicIp(echo, isValidIp).error))
    ensures Requests(UpdateRun(config, interpolate, echo, get, put, isValidIp).trace) == [EchoRequest()]
  {
    assert [EchoRequest()][1..] == [];
  }

  /** Once both earlier steps succeed, the run is the echo request followed by
      the DNS step, and ends as the DNS step ends. */
  lemma DnsStepFollows(config: Parsed, interpolate: Interpolation,
                       echo: Response<string>, get: Response<seq<Record>>,
                       put: Response<()>, isValidIp: string -> bool)
    requires LoadCredentials(config, interpolate).Success?
    requires GetCurrentPublicIp(echo, isValidIp).Success?
    ensures var dns := DnsUpdate(LoadCredentials(config, interpolate).value, GetCurrentPublicIp(echo, isValidIp).value, get, put);
      var r := UpdateRun(config, interpolate, echo, get, put, isValidIp);
      Requests(r.trace) == [EchoRequest()] + Requests(dns.trace) &&
      Puts(r.trace) == Puts(dns.trace) &&
      Messages(r.trace) == Messages(dns.trace) &&
      r.outcome == dns.outcome
  {
    var dns := DnsUpdate(LoadCredentials(config, interpolate).value, GetCurrentPublicIp(echo, isValidIp).value, get, put);
    RequestsAppend([EchoRequest()], dns.trace);
    PutsAppend([EchoRequest()], dns.trace);
    MessagesAppend([EchoRequest()], dns.trace);
    assert [EchoRequest()][1..] == [];
  }

  /** Once both earlier steps succeed, the echo request comes first, the DNS
      provider is always asked, and every request after the first goes to the
      record endpoint of the configured domain with the configured
      credentials. */
  lemma StepsRunInOrder(config: Parsed, interpolate: Interpolation,
                        echo: Response<string>, get: Response<seq<Record>>,
                        put: Response<()>, isValidIp: string -> bool)
    requires LoadCredentials(config, interpolate).Success?
    requires GetCurrentPublicIp(echo, isValidIp).Success?
    ensures var creds := LoadCredentials(config, interpolate).value;
      var rs := Requests(UpdateRun(config, interpolate, echo, get, put, isValidIp).trace);
      |rs| >= 2 && rs[0] == EchoRequest() &&
      forall i :: 1 <= i < |rs| ==>
        rs[i].url == RecordsUrl(creds.domainName) && rs[i].headers == AuthHeaders(creds.apiKey, creds.apiSecret)
  {
    var creds := LoadCredentials(config, interpolate).value;
    var ip := GetCurrentPublicIp(echo, isValidIp).value;
    var dns := DnsUpdate(creds, ip, get, put);
    DnsStepFollows(config, interpolate, echo, get, put, isValidIp);
    var later := Requests(dns.trace);
    LookupComesFirst(creds, ip, get, put);
    SameEndpointAndHeaders(creds, ip, get, put);
    TailSharesEndpoint(EchoRequest(), later, RecordsUrl(creds.domainName), AuthHeaders(creds.apiKey, creds.apiSecret));
  }

  /** Lifts the endpoint fact from the DNS step's requests to every request of
      the run after the first. */
  lemma TailSharesEndpoint(first: Event, later: seq<Event>, url: string, headers: Headers)
    requires forall e :: e in later ==> !e.Message? && e.url == url && e.headers == headers
    ensures forall i :: 1 <= i < |[first] + later| ==>
      ([first] + later)[i].url == url && ([first] + later)[i].headers == headers
  {
    forall i | 1 <= i < |[first] + later|
      ensures ([first] + later)[i].url == url && ([first] + later)[i].headers == headers
    {
      assert ([first] + later)[i] == later[i - 1];
      assert later[i - 1] in later;
    }
  }

  /** A run issues at most one PUT, and what it writes into record 0 is an
      address that passed the address check. */
  lemma OnlyValidatedAddressWritten(config: Parsed, interpolate: Interpolation,
                                    echo: Response<string>, get: Response<seq<Record>>,
                                    put: Response<()>, isValidIp: string -> bool)
    ensures var r := UpdateRun(config, interpolate, echo, get, put, isValidIp);
      |Puts(r.trace)| <= 1 &&
      forall e :: e in Puts(r.trace) ==>
        |e.json| > 0 && "data" in e.json[0] && e.json[0]["data"].JString? && isValidIp(e.json[0]["data"].s)
  {
    var r := UpdateRun(config, interpolate, echo, get, put, isValidIp);
    if LoadCredentials(config, interpolate).Success? && GetCurrentPublicIp(echo, isValidIp).Success? {
      var creds := LoadCredentials(config, interpolate).value;
      var ip := GetCurrentPublicIp(echo, isValidIp).value;
      var dns := DnsUpdate(creds, ip, get, put);
      PutsAppend([EchoRequest()], dns.trace);
      assert [EchoRequest()][1..] == [];
      AtMostOnePut(creds, ip, get, put);
      if |Puts(dns.trace)| == 1 {
        StaleRecordWritesOnce(creds, ip, get.status, get.body, put);
        RewriteChangesOnlyFirstData(get.body, ip);
      }
    } else if LoadCredentials(config, interpolate).Success? {
      assert [EchoRequest()][1..] == [];
    }
  }

  // The worked example: credentials K and S for example.com, the echo service
  // answering 203.0.113.7, and a stale record 203.0.113.1.

  const ExampleSection: Section := map["api_key" := "K", "api_secret" := "S", "domain_name" := "example.com"]
  const ExampleConfig: Parsed := map["godaddy" := ExampleSection]
  const StaleRecord: Record :=
    map["data" := JString("203.0.113.1"), "type" := JString("A"), "name" := JString("@"), "ttl" := JNumber(600)]
  const UpdatedRecord: Record :=
    map["data" := JString("203.0.113.7"), "type" := JString("A"), "name" := JString("@"), "ttl" := JNumber(600)]
  const ExampleUrl: string := "https://api.godaddy.com/v1/domains/example.com/records/A/@"
  const ExampleHeaders: Headers := map["Authorization" := "sso-key K:S"]

  /** Values without `%` interpolate to themselves. */
  predicate PlainValuesKept(interpolate: Interpolation) {
    interpolate(ExampleSection, "K") == Some("K") &&
    interpolate(ExampleSection, "S") == Some("S") &&
    interpolate(ExampleSection, "example.com") == Some("example.com")
  }

  lemma ExampleConfigLoads(interpolate: Interpolation)
    requires PlainValuesKept(interpolate)
    ensures LoadCredentials(ExampleConfig, interpolate) == Success(Credentials("K", "S", "example.com"))
  {
    assert ExampleConfig["godaddy"]["api_key"] == "K";
  }

  lemma ExampleEndpoint()
    ensures RecordsUrl("example.com") == ExampleUrl
  {
    assert UrlPrefix + "example.com" == "https://api.godaddy.com/v1/domains/example.com";
  }

  lemma ExampleAuthorization()
    ensures AuthHeaders("K", "S") == ExampleHeaders
  {
    assert "sso-key " + "K" + ":" + "S" == "sso-key K:S";
  }

  lemma ExampleRewrite()
    ensures "data" in StaleRecord && !HoldsAddress(StaleRecord["data"], "203.0.113.7")
    ensures WithFirstData([StaleRecord], "203.0.113.7") == [UpdatedRecord]
  {
    assert StaleRecord["data" := JString("203.0.113.7")] == UpdatedRecord;
  }

  lemma ExampleDnsStep()
    ensures DnsUpdate(Credentials("K", "S", "example.com"), "203.0.113.7", Response(200, [StaleRecord]), Response(200, ())) ==
      Run([HttpGet(ExampleUrl, ExampleHeaders)] +
          ([HttpPut(ExampleUrl, ExampleHeaders, [UpdatedRecord])] + [Message("Successfully updated IP.")]), Done)
  {
    ExampleEndpoint();
    ExampleAuthorization();
    ExampleRewrite();
    assert WriteReport(200) == [Message("Successfully updated IP.")];
  }

  /** The worked example end to end: the run GETs the echo service and the
      record, PUTs the record back with only its address changed, prints the
      success line and ends normally. */
  lemma ExampleRun(interpolate: Interpolation, isValidIp: string -> bool)
    requires PlainValuesKept(interpolate)
    requires isValidIp("203.0.113.7")
    ensures UpdateRun(ExampleConfig, interpolate, Response(200, "203.0.113.7"), Response(200, [StaleRecord]), Response(200, ()), isValidIp) ==
      Run([HttpGet("https://ifconfig.me/ip", map[]), HttpGet(ExampleUrl, ExampleHeaders),
           HttpPut(ExampleUrl, ExampleHeaders, [UpdatedRecord]), Message("Successfully updated IP.")], Done)
  {
    ExampleConfigLoads(interpolate);
    ExampleDnsStep();
    assert GetCurrentPublicIp(Response(200, "203.0.113.7"), isValidIp) == Success("203.0.113.7");
  }
}
