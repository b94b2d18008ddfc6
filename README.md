# GoDaddy dynamic-DNS updater, modelled in Dafny

The updater is a short script that keeps the apex A-record of a GoDaddy
domain pointing at the public address of the machine it runs on. One run
reads the `[godaddy]` section of its configuration (`api_key`, `api_secret`,
`domain_name`), asks an IP-echo service (`https://ifconfig.me/ip`) for the
public address, GETs the record list from
`https://api.godaddy.com/v1/domains/{domain_name}/records/A/@` with the header
`Authorization: sso-key {api_key}:{api_secret}`, and, unless record 0 already
holds the address, sets record 0's `data` field and PUTs the whole list back.

The model replaces every effect by data. The parsed configuration is a
`map<string, map<string, string>>` of raw values. Reading a value goes through
the parser's interpolation, which is the parameter
`interpolate: (Section, string) -> Option<string>`: it gives the value a read
returns, or `None` where interpolation raises. The three HTTP exchanges are inputs of
type `Response<T>`: either a status code with an already-decoded body, or a
transport failure. The library's address check is the parameter
`isValidIp: string -> bool`. A run produces a `Run`: the trace of requests it
issued and lines it printed, and how it ended (`Done`, or `Aborted` with the
exception that ended it).

Modules, one file each:

- `wrappers.dfy` (`Wrappers`): `Option` and `Result`.
- `http.dfy` (`Http`): decoded JSON values, record objects, responses, and the
  client library's failed-status rule (`IsHttpError`: 400 to 599).
- `effects.dfy` (`Effects`): trace events, the error kinds, and the filters
  `Requests`, `Puts` and `Messages` over a trace, with their append lemmas.
- `config.dfy` (`Config`): `read_config_file`. `LoadCredentials` is the
  specification; `ReadConfigFile` is the loop over the required fields,
  proved equal to it.
- `public_ip.dfy` (`PublicIp`): the acceptance decision of
  `get_current_public_ip`.
- `godaddy.dfy` (`GoDaddy`): `update_godaddy_dns_entry`. `DnsUpdate` is the
  specification of the step. `UpdateGodaddyDnsEntry` copies the fetched list
  into an array, rewrites element 0 in place and accumulates the trace; it is
  proved equal to `DnsUpdate`. The lemmas state what the step promises.
- `workflow.dfy` (`Workflow`): `main`. `UpdateRun` is the specification of a
  whole run; `RunUpdate` runs the three steps in sequence and is proved equal
  to it.

The model follows the script's code, including where it departs from what a
dynamic-DNS client might be expected to do:

- The echo reply's status code is never looked at, and its body is not
  trimmed: the body is accepted exactly as received when it passes the check.
- The record GET fails only for the codes the client library rejects
  (`raise_for_status`: 400 to 599), not for every non-2xx code. The same rule
  decides whether a PUT reply is `ok`.
- A PUT reply with a failed status does not end the run in an error, and it
  is not a distinct outcome either. The script prints "Failed to update IP."
  and then prints "Successfully updated IP." all the same.
- A transport failure on the PUT is not caught. It ends the run like every
  other exception.

## Model

| member | source | states |
|---|---|---|
| `Config.FirstMissing` | update_dns_record.py:43-45 | the index returned is the first field the section lacks, with every earlier field present; none is returned exactly when all fields are present |
| `Config.LoadCredentials` | update_dns_record.py:37-51 | a missing `godaddy` section is an error; otherwise the error names the first missing field of `api_key`, `api_secret`, `domain_name` (in that order); with all three present, the error names the first of them (in the same order) whose value does not interpolate; success exactly when all three are present and interpolate, returning their interpolated values in that order |
| `Config.LoneSignSecretFails` | update_dns_record.py:47-51 | the reads happen in tuple order: for an interpolation that keeps the key `K` and rejects the secret `a%b` (as the default interpolation rejects a lone `%`), loading fails with an interpolation error naming `api_secret` although all three fields are present, and the domain is never read |
| `Config.ReadConfigFile` | update_dns_record.py:27-51 | the loop over the required fields with its early exit, followed by the three interpolated reads in tuple order, gives exactly the outcome of `LoadCredentials` |
| `PublicIp.GetCurrentPublicIp` | update_dns_record.py:54-70 | accepted exactly when a reply arrived and its body passes the address check; the accepted address is the body unchanged; a transport failure and an invalid body are the two errors |
| `PublicIp.EchoStatusIgnored` | update_dns_record.py:64-68 | the outcome does not depend on the echo reply's status code |
| `GoDaddy.RecordsUrlInjective` | update_dns_record.py:83 | two domains that give the same record URL string are the same domain |
| `GoDaddy.RewriteChangesOnlyFirstData` | update_dns_record.py:99 | the rewritten list has the same length; record 0 has the same fields, `data` is the new address and every other field is unchanged; every other record is unchanged |
| `GoDaddy.UpdateGodaddyDnsEntry` | update_dns_record.py:73-105 | the imperative step (GET, in-place rewrite of element 0, optional PUT, prints) produces exactly the trace and outcome of `DnsUpdate` |
| `GoDaddy.LookupFailureWritesNothing` | update_dns_record.py:89-94 | a transport failure, a 4xx/5xx GET, an empty list or a record 0 without `data` each end the step in its own error after the GET alone, with no PUT and nothing printed |
| `GoDaddy.CurrentRecordWritesNothing` | update_dns_record.py:94-97 | when record 0's `data` equals the address as an exact string, the step prints only "IP already up to date.", issues no PUT and ends normally |
| `GoDaddy.StaleRecordWritesOnce` | update_dns_record.py:99-101 | otherwise the requests are the GET and then exactly one PUT to the same URL with the same headers, whose body is the fetched list with only record 0's address replaced |
| `GoDaddy.WriteReplyNeverRaises` | update_dns_record.py:101-105 | any PUT reply ends the step normally; a 4xx/5xx reply prints the failure line and then the success line, any other only the success line; only a transport failure aborts, printing nothing |
| `GoDaddy.AtMostOnePut` | update_dns_record.py:89-101 | the step issues at most one PUT, and issues one exactly when the lookup succeeds and record 0 holds a different value |
| `GoDaddy.LookupComesFirst` | update_dns_record.py:83-89 | the first request of the step is the GET of the record endpoint with the authorisation header |
| `GoDaddy.SameEndpointAndHeaders` | update_dns_record.py:83-101 | every request of the step goes to `https://api.godaddy.com/v1/domains/{domain_name}/records/A/@` with header `sso-key {api_key}:{api_secret}` |
| `GoDaddy.OnlyFixedMessages` | update_dns_record.py:96-105 | the step prints only its three fixed lines, so it never prints a credential |
| `GoDaddy.RepeatRunWritesNothing` | update_dns_record.py:94-101 | a second step for the same address, against a provider returning the list the first step wrote, prints "IP already up to date." and writes nothing |
| `Workflow.RunUpdate` | update_dns_record.py:108-117 | running config, address and DNS steps in sequence, stopping at the first error, gives exactly the trace and outcome of `UpdateRun` |
| `Workflow.ConfigErrorPrecedesRequests` | update_dns_record.py:113-115 | a configuration error ends the run with that error before any request |
| `Workflow.IpErrorPrecedesDnsRequests` | update_dns_record.py:114-117 | an address error ends the run with that error after the echo request alone, before any DNS request |
| `Workflow.DnsStepFollows` | update_dns_record.py:115-117 | after both earlier steps succeed, the run's requests are the echo request followed by the DNS step's, its PUTs and printed lines are the DNS step's, and it ends as the DNS step ends |
| `Workflow.StepsRunInOrder` | update_dns_record.py:113-117 | after both earlier steps succeed, the echo request comes first, the provider is always asked, and every later request uses the configured domain's endpoint and credentials |
| `Workflow.OnlyValidatedAddressWritten` | update_dns_record.py:64-101 | a run issues at most one PUT, and the address it writes into record 0 passed the address check |
| `Workflow.ExampleRun` | update_dns_record.py:108-117 | for credentials K/S on example.com, with an interpolation that keeps these three plain values and an address check that accepts 203.0.113.7, an echo reply 203.0.113.7 and a stale record 203.0.113.1, the run GETs the echo service and the record, PUTs the record with only `data` changed, prints the success line and ends normally |

## Left out

- Command-line parsing (`parse_arguments`) and the `__main__` guard: the run
  starts from the parsed configuration.
- Reading the INI file: the configuration is taken already parsed. The
  parser's merging of `DEFAULT` values into every section and its lower-casing
  of option names are assumed done before the map is formed.
- The rules of the parser's default interpolation (`%%` gives `%`, `%(name)s`
  substitutes another option, a lone `%` or an unknown name raises): they are
  the parameter `interpolate`. The model captures when interpolation fails and
  in which field, and that the interpolated value is the one returned, but no
  property depends on the rules themselves.
- HTTP transport: each exchange is an input (a status and a decoded body, or a
  transport failure). Timeouts, redirects and the reply body of the PUT are
  not modelled. A request is recorded as the URL string handed to the client,
  not as the request the client sends after parsing that string: a `?` or `#`
  in `domain_name` would end the path there, so two distinct URL strings can
  reach the same endpoint.
- JSON decoding: the record GET body is taken as an already-decoded list of
  record objects. A body that is not JSON, not a list, or whose element 0 is
  not an object is not modelled; JSON numbers are integers only. Record
  objects are maps, so the field order of a record object (kept by the
  script's dictionaries and by the PUT body's serialisation) is not modelled,
  and neither are non-object elements after index 0. Neither affects which
  requests are issued or what a record's fields hold.
- The IPv4/IPv6 grammar of the standard library's address parser: it is the
  parameter `isValidIp`, and no property depends on its rules.
- The text of the exception messages and of tracebacks: an abort carries the
  error kind (and the name of the missing or uninterpolated field), not the
  printed text.
