/** Fetching the apex A-record list from the DNS provider and writing it back
    with a new address (update_dns_record.py, update_godaddy_dns_entry). */
module GoDaddy {
  import opened Http
  import opened Effects
  import opened Config

  const UpToDate: string := "IP already up to date."
  const UpdateFailed: string := "Failed to update IP."
  const UpdateSucceeded: string := "Successfully updated IP."

  const UrlPrefix: string := "https://api.godaddy.com/v1/domains/"
  const UrlSuffix: string := "/records/A/@"

  /** The endpoint of the apex A-record list of `domain`. */
  function RecordsUrl(domain: string): string {
    UrlPrefix + domain + UrlSuffix
  }

  /** The single authorisation header, "sso-key <key>:<secret>". */
  function AuthHeaders(key: string, secret: string): Headers {
    map["Authorization" := "sso-key " + key + ":" + secret]
  }

  /** Python's `==` between a decoded JSON value and a string: true only for a
      JSON string with exactly that text. */
  predicate HoldsAddress(v: Json, ip: string) {
    v == JString(ip)
  }

  /** The record list with the `data` field of record 0 set to `ip`. */
  function WithFirstData(records: seq<Record>, ip: string): seq<Record>
    requires |records| > 0
  {
    records[0 := records[0]["data" := JString(ip)]]
  }

  /** The lines printed once a PUT has come back with `status`: the failure
      line (for a 4xx/5xx) is followed by the success line all the same. */
  function WriteReport(status: int): seq<Event> {
    (if IsHttpError(status) then [Message(UpdateFailed)] else []) + [Message(UpdateSucceeded)]
  }

  /** The whole DNS step, as a specification: what is requested and printed,
      and how the step ends, given the GET and PUT replies. The PUT reply is
      only consulted when a PUT is issued. */
  function DnsUpdate(creds: Credentials, ip: string, get: Response<seq<Record>>, put: Response<()>): Run {
    var url := RecordsUrl(creds.domainName);
    var headers := AuthHeaders(creds.apiKey, creds.apiSecret);
    var fetch := [HttpGet(url, headers)];
    match get
    case TransportError => Run(fetch, Aborted(DnsUnreachable))
    case Response(status, records) =>
      if IsHttpError(status) then Run(fetch, Aborted(LookupFailed(status)))
      else if |records| == 0 then Run(fetch, Aborted(NoRecord))
      else if "data" !in records[0] then Run(fetch, Aborted(NoDataField))
      else if HoldsAddress(records[0]["data"], ip) then Run(fetch + [Message(UpToDate)], Done)
      else
        var store := [HttpPut(url, headers, WithFirstData(records, ip))];
        match put
        case TransportError => Run(fetch + store, Aborted(PutUnreachable))
        case Response(written, _) => Run(fetch + (store + WriteReport(written)), Done)
  }

  /** update_godaddy_dns_entry: GET the record list, compare record 0's
      address, rewrite it in place and PUT the list back, printing as it goes. */
  method UpdateGodaddyDnsEntry(creds: Credentials, ip: string, get: Response<seq<Record>>, put: Response<()>)
    returns (trace: seq<Event>, outcome: Outcome)
    ensures Run(trace, outcome) == DnsUpdate(creds, ip, get, put)
  {
    var url := RecordsUrl(creds.domainName);
    var headers := AuthHeaders(creds.apiKey, creds.apiSecret);
    trace := [HttpGet(url, headers)];
    if get.TransportError? {
      return trace, Aborted(DnsUnreachable);
    }
    if IsHttpError(get.status) {
      return trace, Aborted(LookupFailed(get.status));
    }
    var body := get.body;
    var records := new Record[|body|](i requires 0 <= i < |body| => body[i]);
    if records.Length == 0 {
      return trace, Aborted(NoRecord);
    }
    if "data" !in records[0] {
      return trace, Aborted(NoDataField);
    }
    if HoldsAddress(records[0]["data"], ip) {
      trace := trace + [Message(UpToDate)];
      return trace, Done;
    }
    records[0] := records[0]["data" := JString(ip)];
    assert records[..] == WithFirstData(body, ip);
    trace := trace + [HttpPut(url, headers, records[..])];
    if put.TransportError? {
      return trace, Aborted(PutUnreachable);
    }
    if IsHttpError(put.status) {
      trace := trace + [Message(UpdateFailed)];
    }
    trace := trace + [Message(UpdateSucceeded)];
    outcome := Done;
  }

  /** Distinct domains never give the same record URL string. */
  lemma RecordsUrlInjective(d1: string, d2: string)
    requires RecordsUrl(d1) == RecordsUrl(d2)
    ensures d1 == d2
  {
    var u := RecordsUrl(d1);
    assert |d1| == |d2|;
    assert d1 == u[|UrlPrefix|..|UrlPrefix| + |d1|];
    assert d2 == u[|UrlPrefix|..|UrlPrefix| + |d2|];
  }

  /** The rewrite sets record 0's address and keeps everything else: the other
      fields of record 0 (and which fields it has), and every other record. */
  lemma RewriteChangesOnlyFirstData(records: seq<Record>, ip: string)
    requires |records| > 0 && "data" in records[0]
    ensures |WithFirstData(records, ip)| == |records|
    ensures WithFirstData(records, ip)[0].Keys == records[0].Keys
    ensures HoldsAddress(WithFirstData(records, ip)[0]["data"], ip)
    ensures forall k :: k in records[0] && k != "data" ==> WithFirstData(records, ip)[0][k] == records[0][k]
    ensures forall i :: 1 <= i < |records| ==> WithFirstData(records, ip)[i] == records[i]
  {
  }

  /** The lines printed after a PUT are printed lines only. */
  lemma WriteReportPrintsOnly(status: int)
    ensures Requests(WriteReport(status)) == [] && Puts(WriteReport(status)) == []
    ensures Messages(WriteReport(status)) ==
      (if IsHttpError(status) then [UpdateFailed] else []) + [UpdateSucceeded]
  {
    var last := [Message(UpdateSucceeded)];
    FiltersCons(Message(UpdateSucceeded), []);
    assert [Message(UpdateSucceeded)] + [] == last;
    if IsHttpError(status) {
      FiltersCons(Message(UpdateFailed), last);
    }
  }

  /** The requests and lines of a trace that GETs, PUTs and then prints `report`. */
  lemma WriteTrace(g: Event, p: Event, report: seq<Event>)
    requires g.HttpGet? && p.HttpPut?
    requires Requests(report) == [] && Puts(report) == []
    ensures Requests([g] + ([p] + report)) == [g, p]
    ensures Puts([g] + ([p] + report)) == [p]
    ensures Messages([g] + ([p] + report)) == Messages(report)
  {
    FiltersCons(p, report);
    FiltersCons(g, [p] + report);
  }

  /** Whenever the GET fails, comes back with a 4xx/5xx, or holds no usable
      record 0, the step ends in the matching error after that GET alone:
      nothing is written and nothing is printed. */
  lemma LookupFailureWritesNothing(creds: Credentials, ip: string, get: Response<seq<Record>>, put: Response<()>)
    requires get.Response? ==> IsHttpError(get.status) || |get.body| == 0 || "data" !in get.body[0]
    ensures var r := DnsUpdate(creds, ip, get, put);
      Requests(r.trace) == [HttpGet(RecordsUrl(creds.domainName), AuthHeaders(creds.apiKey, creds.apiSecret))] &&
      Puts(r.trace) == [] && Messages(r.trace) == [] && r.outcome.Aborted?
    ensures get.TransportError? ==> DnsUpdate(creds, ip, get, put).outcome == Aborted(DnsUnreachable)
    ensures get.Response? && IsHttpError(get.status) ==>
      DnsUpdate(creds, ip, get, put).outcome == Aborted(LookupFailed(get.status))
    ensures get.Response? && !IsHttpError(get.status) && |get.body| == 0 ==>
      DnsUpdate(creds, ip, get, put).outcome == Aborted(NoRecord)
    ensures get.Response? && !IsHttpError(get.status) && |get.body| > 0 && "data" !in get.body[0] ==>
      DnsUpdate(creds, ip, get, put).outcome == Aborted(NoDataField)
  {
  }

  /** When record 0 already holds the address (exact string equality), the
      step prints the up-to-date line and issues no PUT. */
  lemma CurrentRecordWritesNothing(creds: Credentials, ip: string, status: int, records: seq<Record>, put: Response<()>)
    requires !IsHttpError(status) && |records| > 0 && "data" in records[0]
    requires HoldsAddress(records[0]["data"], ip)
    ensures var r := DnsUpdate(creds, ip, Response(status, records), put);
      Requests(r.trace) == [HttpGet(RecordsUrl(creds.domainName), AuthHeaders(creds.apiKey, creds.apiSecret))] &&
      Puts(r.trace) == [] && Messages(r.trace) == [UpToDate] && r.outcome == Done
  {
  }

  /** When record 0 holds anything else, the step issues exactly one PUT, to
      the URL and with the headers of the GET, whose body is the fetched list
      with only record 0's address replaced. */
  lemma StaleRecordWritesOnce(creds: Credentials, ip: string, status: int, records: seq<Record>, put: Response<()>)
    requires !IsHttpError(status) && |records| > 0 && "data" in records[0]
    requires !HoldsAddress(records[0]["data"], ip)
    ensures var r := DnsUpdate(creds, ip, Response(status, records), put);
      var url := RecordsUrl(creds.domainName);
      var headers := AuthHeaders(creds.apiKey, creds.apiSecret);
      Requests(r.trace) == [HttpGet(url, headers), HttpPut(url, headers, WithFirstData(records, ip))] &&
      Puts(r.trace) == [HttpPut(url, headers, WithFirstData(records, ip))]
  {
    var url := RecordsUrl(creds.domainName);
    var headers := AuthHeaders(creds.apiKey, creds.apiSecret);
    var p := HttpPut(url, headers, WithFirstData(records, ip));
    match put
    case TransportError =>
      WriteTrace(HttpGet(url, headers), p, []);
      assert [p] + [] == [p];
    case Response(s, _) =>
      WriteReportPrintsOnly(s);
      WriteTrace(HttpGet(url, headers), p, WriteReport(s));
  }

  /** The reply to the PUT never ends the step in an error: a failed status
      prints the failure line and then the success line anyway, a good one only
      the success line. Only a transport failure aborts. */
  lemma WriteReplyNeverRaises(creds: Credentials, ip: string, status: int, records: seq<Record>, put: Response<()>)
    requires !IsHttpError(status) && |records| > 0 && "data" in records[0]
    requires !HoldsAddress(records[0]["data"], ip)
    ensures put.Response? ==> DnsUpdate(creds, ip, Response(status, records), put).outcome == Done
    ensures put.Response? && IsHttpError(put.status) ==>
      Messages(DnsUpdate(creds, ip, Response(status, records), put).trace) == [UpdateFailed, UpdateSucceeded]
    ensures put.Response? && !IsHttpError(put.status) ==>
      Messages(DnsUpdate(creds, ip, Response(status, records), put).trace) == [UpdateSucceeded]
    ensures put.TransportError? ==>
      DnsUpdate(creds, ip, Response(status, records), put).outcome == Aborted(PutUnreachable) &&
      Messages(DnsUpdate(creds, ip, Response(status, records), put).trace) == []
  {
    var url := RecordsUrl(creds.domainName);
    var headers := AuthHeaders(creds.apiKey, creds.apiSecret);
    var p := HttpPut(url, headers, WithFirstData(records, ip));
    match put
    case TransportError =>
      WriteTrace(HttpGet(url, headers), p, []);
      assert [p] + [] == [p];
    case Response(s, _) =>
      WriteReportPrintsOnly(s);
      WriteTrace(HttpGet(url, headers), p, WriteReport(s));
  }

  /** A PUT is issued exactly when the lookup succeeds and record 0 does not
      already hold the address; there is never more than one. */
  lemma AtMostOnePut(creds: Credentials, ip: string, get: Response<seq<Record>>, put: Response<()>)
    ensures |Puts(DnsUpdate(creds, ip, get, put).trace)| <= 1
    ensures |Puts(DnsUpdate(creds, ip, get, put).trace)| == 1 <==>
      get.Response? && !IsHttpError(get.status) && |get.body| > 0 && "data" in get.body[0] &&
      !HoldsAddress(get.body[0]["data"], ip)
  {
    if get.Response? && !IsHttpError(get.status) && |get.body| > 0 && "data" in get.body[0] &&
       !HoldsAddress(get.body[0]["data"], ip) {
      StaleRecordWritesOnce(creds, ip, get.status, get.body, put);
    }
  }

  /** The step always begins with the GET of the record list. */
  lemma LookupComesFirst(creds: Credentials, ip: string, get: Response<seq<Record>>, put: Response<()>)
    ensures var t := DnsUpdate(creds, ip, get, put).trace;
      var g := HttpGet(RecordsUrl(creds.domainName), AuthHeaders(creds.apiKey, creds.apiSecret));
      |Requests(t)| >= 1 && Requests(t)[0] == g
  {
    var t := DnsUpdate(creds, ip, get, put).trace;
    var g := HttpGet(RecordsUrl(creds.domainName), AuthHeaders(creds.apiKey, creds.apiSecret));
    assert t == [g] + t[1..];
    RequestsAppend([g], t[1..]);
    assert [g][1..] == [];
  }

  /** Every request of the step goes to the record endpoint of the configured
      domain with the same authorisation header. */
  lemma SameEndpointAndHeaders(creds: Credentials, ip: string, get: Response<seq<Record>>, put: Response<()>)
    ensures forall e :: e in Requests(DnsUpdate(creds, ip, get, put).trace) ==>
      e.url == RecordsUrl(creds.domainName) && e.headers == AuthHeaders(creds.apiKey, creds.apiSecret)
  {
    var url := RecordsUrl(creds.domainName);
    var headers := AuthHeaders(creds.apiKey, creds.apiSecret);
    var rs := Requests(DnsUpdate(creds, ip, get, put).trace);
    if get.TransportError? || IsHttpError(get.status) || |get.body| == 0 || "data" !in get.body[0] {
      LookupFailureWritesNothing(creds, ip, get, put);
      assert rs == [HttpGet(url, headers)];
    } else if HoldsAddress(get.body[0]["data"], ip) {
      CurrentRecordWritesNothing(creds, ip, get.status, get.body, put);
      assert rs == [HttpGet(url, headers)];
    } else {
      StaleRecordWritesOnce(creds, ip, get.status, get.body, put);
      assert rs == [HttpGet(url, headers), HttpPut(url, headers, WithFirstData(get.body, ip))];
    }
  }

  /** The step prints only its three fixed lines, so never the credentials. */
  lemma OnlyFixedMessages(creds: Credentials, ip: string, get: Response<seq<Record>>, put: Response<()>)
    ensures forall m :: m in Messages(DnsUpdate(creds, ip, get, put).trace) ==>
      m == UpToDate || m == UpdateFailed || m == UpdateSucceeded
  {
    if get.TransportError? || IsHttpError(get.status) || |get.body| == 0 || "data" !in get.body[0] {
      LookupFailureWritesNothing(creds, ip, get, put);
    } else if HoldsAddress(get.body[0]["data"], ip) {
      CurrentRecordWritesNothing(creds, ip, get.status, get.body, put);
    } else {
      WriteReplyNeverRaises(creds, ip, get.status, get.body, put);
    }
  }

  /** Running the step again for the same address, against a provider that
      now returns the list written by the first run, writes nothing. */
  lemma RepeatRunWritesNothing(creds: Credentials, ip: string, get: Response<seq<Record>>, put: Response<()>,
                               status: int, put2: Response<()>)
    requires |Puts(DnsUpdate(creds, ip, get, put).trace)| == 1
    requires !IsHttpError(status)
    ensures var again := DnsUpdate(creds, ip, Response(status, Puts(DnsUpdate(creds, ip, get, put).trace)[0].json), put2);
      Puts(again.trace) == [] && Messages(again.trace) == [UpToDate] && again.outcome == Done
  {
    AtMostOnePut(creds, ip, get, put);
    StaleRecordWritesOnce(creds, ip, get.status, get.body, put);
    var written := WithFirstData(get.body, ip);
    RewriteChangesOnlyFirstData(get.body, ip);
    CurrentRecordWritesNothing(creds, ip, status, written, put2);
  }
}
