/** Accepting the caller's public IP address from the echo service
    (update_dns_record.py, get_current_public_ip). The address check of the
    standard library is the parameter `isValidIp`. */
module PublicIp {
  import opened Wrappers
  import opened Http
  import opened Effects

  const EchoUrl: string := "https://ifconfig.me/ip"

  /** The single request the step issues: a plain GET with no headers. */
  function EchoRequest(): Event {
    HttpGet(EchoUrl, map[])
  }

  /** The address is the echo body itself, kept only if it passes the address
      check; the response status is never looked at. */
  function GetCurrentPublicIp(reply: Response<string>, isValidIp: string -> bool): (r: Result<string, Error>)
    ensures r.Success? <==> reply.Response? && isValidIp(reply.body)
    ensures r.Success? ==> r.value == reply.body && isValidIp(r.value)
    ensures reply.TransportError? ==> r == Failure(EchoUnreachable)
    ensures reply.Response? && !isValidIp(reply.body) ==> r == Failure(InvalidIp(reply.body))
  {
    match reply
    case TransportError => Failure(EchoUnreachable)
    case Response(_, text) => if isValidIp(text) then Success(text) else Failure(InvalidIp(text))
  }

  /** Two replies with the same body but any two status codes are treated alike. */
  lemma EchoStatusIgnored(s1: int, s2: int, text: string, isValidIp: string -> bool)
    ensures GetCurrentPublicIp(Response(s1, text), isValidIp) == GetCurrentPublicIp(Response(s2, text), isValidIp)
  {
  }
}
