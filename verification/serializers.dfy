/** The JSON the server renders for a stored actor (`ActorSerializer`), with the image and
    JSON-LD context builders it uses. */
module Serializers {
  import opened Wrappers
  import opened Json
  import opened DbModels

  const ACTIVITYSTREAMS: string := "https://www.w3.org/ns/activitystreams"
  const LITEPUB: string := "https://litepub.social/context.jsonld"

  /** `get_context`: the ActivityStreams context, then the LitePub one. */
  function Context(): (v: Value)
    ensures v.Array? && |v.items| == 2
    ensures v.items[0] == Str(ACTIVITYSTREAMS) && v.items[1] == Str(LITEPUB)
  {
    Array([Str(ACTIVITYSTREAMS), Str(LITEPUB)])
  }

  /** `ImageSerializer::serialize`: an `Image` object with the url. */
  function Image(url: string): (v: Value)
    ensures Get(v, "type") == Str("Image") && Get(v, "url") == Str(url)
    ensures v.Object? && v.fields.Keys == {"type", "url"}
  {
    Object(map["type" := Str("Image"), "url" := Str(url)])
  }

  /** The id of an actor's key: its uri with the `#main-key` fragment. */
  function MainKeyId(uri: string): (r: string)
    ensures |r| == |uri| + 9 && r[..|uri|] == uri && r[|uri|..] == "#main-key"
  {
    uri + "#main-key"
  }

  /** The `publicKey` object both renderings of an actor carry: the main key of `uri`,
      owned by `uri`. */
  function PublicKeyObject(uri: string, pem: string): (v: Value)
    ensures Get(v, "id") == Str(MainKeyId(uri)) && Get(v, "owner") == Str(uri)
    ensures Get(v, "publicKeyPem") == Str(pem)
  {
    Object(map["id" := Str(MainKeyId(uri)), "owner" := Str(uri), "publicKeyPem" := Str(pem)])
  }

  /** `get_shared_inbox`: the inbox shared by every actor of the domain. */
  function SharedInbox(domain: string): (r: string)
    ensures |r| == |domain| + 14
    ensures r[..8] == "https://" && r[8..|r| - 6] == domain && r[|r| - 6..] == "/inbox"
  {
    "https://" + domain + "/inbox"
  }

  /** `ActorSerializer::serialize`. Unlike the wire conversion it writes the raw username,
      an empty name or summary as the empty string, and a missing url as `null`; the
      fields it shares with the wire form are in the `ApubModels.RenderingsAgree` lemmas. */
  function SerializeActor(a: Actor): (v: Value)
    ensures Get(v, "id") == Str(a.uri) && Get(v, "type") == Str(a.kind)
    ensures Get(v, "preferredUsername") == Str(a.username)
    ensures Get(v, "name") == Str(a.name) && Get(v, "summary") == Str(a.summary)
    ensures Get(v, "url") == (if a.url.Some? then Str(a.url.value) else Null)
  {
    Object(map[
      "@context" := Context(),
      "manuallyApprovesFollowers" := Bool(a.isLocked),
      "publicKey" := PublicKeyObject(a.uri, a.publicKeyPem),
      "endpoints" := Object(map["sharedInbox" := Str(SharedInbox(a.domain))]),
      "icon" := Image(a.avatarUrl),
      "url" := OptStr(a.url),
      "name" := Str(a.name),
      "summary" := Str(a.summary),
      "preferredUsername" := Str(a.username),
      "type" := Str(a.kind),
      "id" := Str(a.uri)])
  }
}
