/** The HTTP and JSON vocabulary of the updater: decoded JSON values, the DNS
    record objects the provider returns, and responses as the HTTP client
    library hands them back. */
module Http {

  /** A decoded JSON value. Numbers are integers only. */
  datatype Json =
    | JNull
    | JBool(b: bool)
    | JNumber(n: int)
    | JString(s: string)
    | JArray(items: seq<Json>)
    | JObject(fields: map<string, Json>)

  /** One record object of the provider's record list, e.g.
      {"data": "203.0.113.1", "type": "A", "name": "@", "ttl": 600}. */
  type Record = map<string, Json>

  type Headers = map<string, string>

  /** What one HTTP exchange gives back: a response with its status code and
      its (already decoded) body, or a transport failure (connection refused,
      timeout, name resolution), which the client library raises. */
  datatype Response<+T> = Response(status: int, body: T) | TransportError

  /** The client library's notion of a failed status: `raise_for_status`
      raises, and `ok` is false, exactly for the 4xx and 5xx codes. */
  predicate IsHttpError(status: int) {
    400 <= status < 600
  }
}
