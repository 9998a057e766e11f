/** `get_client_ip` (users/signals.py): the address the login and logout log lines report. */
module RequestIp {
  import opened Common

  /** The first entry of a non-empty `X-Forwarded-For` header, else `REMOTE_ADDR` (possibly absent). */
  function ClientIp(forwardedFor: Option<string>, remoteAddr: Option<string>): (r: Option<string>)
    ensures !Truthy(forwardedFor) ==> r == remoteAddr
    ensures Truthy(forwardedFor) ==>
              && r.Some?
              && !Contains(r.value, ',')
              && |r.value| <= |forwardedFor.value| && r.value == forwardedFor.value[..|r.value|]
              && (|r.value| < |forwardedFor.value| ==> forwardedFor.value[|r.value|] == ',')
    ensures Truthy(forwardedFor) && !Contains(forwardedFor.value, ',') ==> r == forwardedFor
  {
    if Truthy(forwardedFor) then Some(BeforeFirst(forwardedFor.value, ',')) else remoteAddr
  }

  /** A proxy chain yields the client's own hop; the proxies behind it never show. */
  lemma {:induction false} FirstHopWins(client: string, proxies: string, remoteAddr: Option<string>)
    requires client != "" && !Contains(client, ',')
    ensures ClientIp(Some(client + "," + proxies), remoteAddr) == Some(client)
  {
    var h := client + "," + proxies;
    var r := ClientIp(Some(h), remoteAddr).value;
    assert h[|client|] == ',';
    assert r == h[..|client|] == client;
  }

  /** An empty header counts as no header. */
  lemma EmptyHeaderFallsBack(remoteAddr: Option<string>)
    ensures ClientIp(Some(""), remoteAddr) == remoteAddr
    ensures ClientIp(None, remoteAddr) == remoteAddr
  {
  }
}
