/** What one run of the updater does to the outside world, as a trace of the
    requests it issues and the lines it prints, and how the run ends. */
module Effects {
  import opened Http

  datatype Event =
    | HttpGet(url: string, headers: Headers)
    | HttpPut(url: string, headers: Headers, json: seq<Record>)
    | Message(text: string)

  /** The exceptions that end a run early. */
  datatype Error =
    | SectionMissing              // no [godaddy] section
    | FieldMissing(field: string) // a required field of the section is absent
    | InterpolationFailed(field: string) // a required field's value does not interpolate
    | EchoUnreachable             // transport failure on the IP-echo request
    | InvalidIp(text: string)     // the echo body is not an IP address
    | DnsUnreachable              // transport failure on the record GET
    | LookupFailed(status: int)   // the record GET came back with a 4xx/5xx
    | NoRecord                    // the fetched record list is empty
    | NoDataField                 // record 0 has no "data" field
    | PutUnreachable              // transport failure on the record PUT

  datatype Outcome = Done | Aborted(error: Error)

  datatype Run = Run(trace: seq<Event>, outcome: Outcome)

  /** The HTTP requests of a trace, in the order they were issued. */
  function Requests(t: seq<Event>): (r: seq<Event>)
    ensures |r| <= |t|
    ensures forall e :: e in r ==> !e.Message?
  {
    if t == [] then []
    else (if t[0].Message? then [] else [t[0]]) + Requests(t[1..])
  }

  /** The PUT requests of a trace, in the order they were issued. */
  function Puts(t: seq<Event>): (r: seq<Event>)
    ensures |r| <= |t|
    ensures forall e :: e in r ==> e.HttpPut?
  {
    if t == [] then []
    else (if t[0].HttpPut? then [t[0]] else []) + Puts(t[1..])
  }

  /** The lines a trace prints, in order. */
  function Messages(t: seq<Event>): (r: seq<string>)
    ensures |r| <= |t|
  {
    if t == [] then []
    else (if t[0].Message? then [t[0].text] else []) + Messages(t[1..])
  }

  lemma {:induction false} RequestsAppend(a: seq<Event>, b: seq<Event>)
    ensures Requests(a + b) == Requests(a) + Requests(b)
  {
    if a == [] {
      assert a + b == b;
    } else {
      assert (a + b)[0] == a[0];
      assert (a + b)[1..] == a[1..] + b;
      RequestsAppend(a[1..], b);
    }
  }

  lemma {:induction false} PutsAppend(a: seq<Event>, b: seq<Event>)
    ensures Puts(a + b) == Puts(a) + Puts(b)
  {
    if a == [] {
      assert a + b == b;
    } else {
      assert (a + b)[0] == a[0];
      assert (a + b)[1..] == a[1..] + b;
      PutsAppend(a[1..], b);
    }
  }

  lemma {:induction false} MessagesAppend(a: seq<Event>, b: seq<Event>)
    ensures Messages(a + b) == Messages(a) + Messages(b)
  {
    if a == [] {
      assert a + b == b;
    } else {
      assert (a + b)[0] == a[0];
      assert (a + b)[1..] == a[1..] + b;
      MessagesAppend(a[1..], b);
    }
  }

  /** The filters of a trace that starts with `e`. */
  lemma FiltersCons(e: Event, t: seq<Event>)
    ensures Requests([e] + t) == (if e.Message? then [] else [e]) + Requests(t)
    ensures Puts([e] + t) == (if e.HttpPut? then [e] else []) + Puts(t)
    ensures Messages([e] + t) == (if e.Message? then [e.text] else []) + Messages(t)
  {
    assert ([e] + t)[0] == e;
    assert ([e] + t)[1..] == t;
  }
}
