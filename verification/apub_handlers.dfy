/** The filters in front of the ActivityPub routes: the local-domain gate and the
    ActivityPub content type. */
module ApubHandlers {
  import opened Wrappers
  import opened Errors

  /** A request's `Host` authority: the host and an optional port. */
  datatype Authority = Authority(host: string, port: Option<int>)

  /** `set_domain`: the host of the request's authority, when it is one of the local
      domains; otherwise, or without an authority, the request is not found. */
  function SetDomain(localDomains: set<string>, authority: Option<Authority>): (r: Result<string, Rejection>)
    ensures r.Ok? <==> authority.Some? && authority.value.host in localDomains
    ensures r.Ok? ==> r.value == authority.value.host && r.value in localDomains
    ensures r.Err? ==> r.error == Reject
  {
    match authority
    case None => Err(Reject)
    case Some(a) => if a.host in localDomains then Ok(a.host) else Err(Reject)
  }

  /** The gate never looks at the port. */
  lemma SetDomainIgnoresPort(localDomains: set<string>, host: string, p1: Option<int>, p2: Option<int>)
    ensures SetDomain(localDomains, Some(Authority(host, p1))) == SetDomain(localDomains, Some(Authority(host, p2)))
  {
  }

  const ACTIVITY_JSON: string := "application/activity+json"

  /** A reply: its headers, by lower-case name, and its body. */
  datatype Reply<B> = Reply(headers: map<string, string>, body: B)

  /** `map_content_type_ap`: the reply with its content type set to ActivityPub's, in place
      of any it had; nothing else changes. */
  function MapContentTypeAp<B>(reply: Reply<B>): (r: Reply<B>)
    ensures "content-type" in r.headers && r.headers["content-type"] == ACTIVITY_JSON
    ensures r.body == reply.body
    ensures r.headers.Keys == reply.headers.Keys + {"content-type"}
    ensures forall k :: k in reply.headers && k != "content-type" ==> r.headers[k] == reply.headers[k]
  {
    reply.(headers := reply.headers["content-type" := ACTIVITY_JSON])
  }

  /** Setting the content type twice is setting it once. */
  lemma MapContentTypeApIdempotent<B>(reply: Reply<B>)
    ensures MapContentTypeAp(MapContentTypeAp(reply)) == MapContentTypeAp(reply)
  {
  }
}
