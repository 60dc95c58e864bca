/** The ActivityPub documents the server reads and writes (W3C ActivityPub, section 4.1):
    the wire actor with its key check, the conversions between wire and stored actors, and
    the activity envelope. */
module ApubModels {
  import opened Wrappers
  import opened Json
  import opened Foreign
  import opened Username
  import opened Errors
  import opened DbModels
  import opened Serializers
  import opened Webfinger

  /** `empty_string_or_none`: an empty text is an absent one. */
  function EmptyStringOrNone(s: string): (r: Option<string>)
    ensures r == None <==> s == ""
    ensures r.Some? ==> r.value == s
    ensures r != Some("")
    ensures r.GetOr("") == s
  {
    if s == "" then None else Some(s)
  }

  /** The wire actor (`apub::models::Actor`). */
  datatype WireActor = WireActor(
    context: Option<Value>,
    kind: string,
    id: string,
    summary: Option<string>,
    following: Option<string>,
    followers: Option<string>,
    inbox: string,
    outbox: string,
    preferredUsername: string,
    name: Option<string>,
    publicKey: Value,
    url: string,
    icon: Option<Value>,
    endpoints: Option<Value>,
    manuallyApprovesFollowers: Option<bool>,
    suspended: Option<bool>)

  /** `get_public_key_pem`: the PEM, only when the key's owner is the actor and the key's
      id is the actor's `#main-key`. */
  function GetPublicKeyPem(w: WireActor): (r: Option<string>)
    ensures r.Some? <==> Get(w.publicKey, "owner") == Str(w.id) &&
                         Get(w.publicKey, "id") == Str(MainKeyId(w.id)) &&
                         Get(w.publicKey, "publicKeyPem").Str?
    ensures r.Some? ==> Get(w.publicKey, "publicKeyPem") == Str(r.value)
  {
    if Get(w.publicKey, "owner") == Str(w.id) && Get(w.publicKey, "id") == Str(MainKeyId(w.id)) then
      AsStr(Get(w.publicKey, "publicKeyPem"))
    else None
  }

  /** A key object whose id is another fragment, or another actor's, is refused. */
  lemma ForeignKeyRefused(w: WireActor, keyId: string)
    requires Get(w.publicKey, "id") == Str(keyId) && keyId != MainKeyId(w.id)
    ensures GetPublicKeyPem(w) == None
  {
  }

  /** `From<&db::Actor> for Actor`: the wire form of a stored actor. The url falls back to
      the uri, an empty name or summary is left out, and the username is published in its
      IDNA form. */
  function FromDbActor(libs: Libs, a: Actor): (w: WireActor)
    ensures w.id == a.uri && w.kind == a.kind && w.inbox == a.inboxUri && w.outbox == a.outboxUri
    ensures a.url.None? ==> w.url == a.uri
    ensures a.url.Some? ==> w.url == a.url.value
    ensures (w.name.None? <==> a.name == "") && w.name.GetOr("") == a.name
    ensures (w.summary.None? <==> a.summary == "") && w.summary.GetOr("") == a.summary
    ensures w.preferredUsername == UsernameToIdna(libs, a.username)
    ensures w.manuallyApprovesFollowers == Some(a.isLocked) && w.suspended == Some(a.isSuspended)
  {
    WireActor(
      Some(Context()),
      a.kind,
      a.uri,
      EmptyStringOrNone(a.summary),
      a.followingUri,
      a.followersUri,
      a.inboxUri,
      a.outboxUri,
      UsernameToIdna(libs, a.username),
      EmptyStringOrNone(a.name),
      PublicKeyObject(a.uri, a.publicKeyPem),
      a.url.GetOr(a.uri),
      Some(Image(a.avatarUrl)),
      Some(Object(map["sharedInbox" := Str(SharedInbox(a.domain))])),
      Some(a.isLocked),
      Some(a.isSuspended))
  }

  /** The key a stored actor publishes passes the key check and yields its PEM, and its
      shared inbox is on its domain. */
  lemma FromDbActorKeyChecks(libs: Libs, a: Actor)
    ensures GetPublicKeyPem(FromDbActor(libs, a)) == Some(a.publicKeyPem)
    ensures var e := FromDbActor(libs, a).endpoints;
            e.Some? && Get(e.value, "sharedInbox") == Str("https://" + a.domain + "/inbox")
  {
  }

  // The two renderings of a stored actor (the wire conversion and `ActorSerializer`)
  // agree on the context, id, type, key, endpoints, lock flag and icon.

  lemma RenderingsAgreeContext(libs: Libs, a: Actor)
    ensures Some(Get(SerializeActor(a), "@context")) == FromDbActor(libs, a).context
  {
  }

  lemma RenderingsAgreeId(libs: Libs, a: Actor)
    ensures Get(SerializeActor(a), "id") == Str(FromDbActor(libs, a).id)
  {
  }

  lemma RenderingsAgreeType(libs: Libs, a: Actor)
    ensures Get(SerializeActor(a), "type") == Str(FromDbActor(libs, a).kind)
  {
  }

  lemma RenderingsAgreeKey(libs: Libs, a: Actor)
    ensures Get(SerializeActor(a), "publicKey") == FromDbActor(libs, a).publicKey
  {
  }

  lemma RenderingsAgreeEndpoints(libs: Libs, a: Actor)
    ensures Some(Get(SerializeActor(a), "endpoints")) == FromDbActor(libs, a).endpoints
  {
  }

  lemma RenderingsAgreeLock(libs: Libs, a: Actor)
    ensures Some(Get(SerializeActor(a), "manuallyApprovesFollowers")) == OptBool(FromDbActor(libs, a).manuallyApprovesFollowers)
  {
  }

  lemma RenderingsAgreeIcon(libs: Libs, a: Actor)
    ensures Some(Get(SerializeActor(a), "icon")) == FromDbActor(libs, a).icon
  {
  }

  function OptBool(b: Option<bool>): Option<Value> {
    match b
    case Some(x) => Some(Bool(x))
    case None => None
  }

  /** The avatar a wire actor names: its icon's `url`, when that is a string. */
  function AvatarUrl(w: WireActor): Option<string> {
    match w.icon
    case Some(o) => AsStr(Get(o, "url"))
    case None => None
  }

  /** `TryFrom<&Actor> for NewActor`: `InvalidForm` unless the id is a URL with a host and
      the key check passes; the domain is that host, the language `und`, and the flags come
      from the document (absent meaning false) except `is_silenced`, always false. */
  function NewActorFromAp(libs: Libs, w: WireActor): (r: Result<NewActor, ActionError>)
    ensures r.Err? ==> r.error == InvalidForm
    ensures r.Ok? <==> libs.urlHost(w.id).Some? && GetPublicKeyPem(w).Some?
    ensures r.Ok? ==>
              && r.value.uri == w.id && r.value.domain == libs.urlHost(w.id).value
              && r.value.publicKeyPem == GetPublicKeyPem(w).value
              && r.value.lang == "und" && r.value.createdAt.None? && r.value.updatedAt.None?
              && r.value.isLocked == w.manuallyApprovesFollowers.GetOr(false)
              && r.value.isSuspended == w.suspended.GetOr(false)
              && !r.value.isSilenced
  {
    match libs.urlHost(w.id)
    case None => Err(InvalidForm)
    case Some(domain) =>
      match GetPublicKeyPem(w)
      case None => Err(InvalidForm)
      case Some(pem) =>
        Ok(NewActor(w.id, Some(w.url), w.kind, IdnaToUsername(libs, w.preferredUsername), domain,
                    w.name, w.summary, AvatarUrl(w), w.inbox, w.outbox, w.followers, w.following,
                    pem, None, None, "und", w.manuallyApprovesFollowers.GetOr(false),
                    w.suspended.GetOr(false), false))
  }

  /** `TryFrom<(&Actor, &WebfingerInfo)> for NewActor`: the plain conversion with the
      domain taken from the WebFinger account instead of the id's host. */
  function NewActorFromApWebfinger(libs: Libs, w: WireActor, info: Info): (r: Result<NewActor, ActionError>)
    ensures r.Ok? <==> NewActorFromAp(libs, w).Ok?
    ensures r.Err? ==> r.error == InvalidForm
    ensures r.Ok? ==> r.value.domain == info.acct.domain &&
                      r.value.(domain := NewActorFromAp(libs, w).value.domain) == NewActorFromAp(libs, w).value
  {
    match NewActorFromAp(libs, w)
    case Err(e) => Err(e)
    case Ok(n) => Ok(n.(domain := info.acct.domain))
  }

  /** Stored, published, read back: a stored actor whose uri's host is its domain and
      whose username survives IDNA encoding and decoding comes back as the same actor,
      except for the columns the wire does not carry (id, timestamps, language, the
      silence flag) and a url that now falls back to the uri. */
  lemma StoreWireStore(libs: Libs, a: Actor)
    requires libs.urlHost(a.uri) == Some(a.domain)
    requires IdnaToUsername(libs, UsernameToIdna(libs, a.username)) == a.username
    ensures NewActorFromAp(libs, FromDbActor(libs, a)).Ok?
    ensures var n := NewActorFromAp(libs, FromDbActor(libs, a)).value;
            && n.uri == a.uri && n.kind == a.kind && n.username == a.username && n.domain == a.domain
            && n.url == Some(a.url.GetOr(a.uri))
            && n.name.GetOr("") == a.name && n.summary.GetOr("") == a.summary
            && n.avatarUrl == Some(a.avatarUrl)
            && n.inboxUri == a.inboxUri && n.outboxUri == a.outboxUri
            && n.followersUri == a.followersUri && n.followingUri == a.followingUri
            && n.publicKeyPem == a.publicKeyPem
            && n.isLocked == a.isLocked && n.isSuspended == a.isSuspended
  {
    FromDbActorKeyChecks(libs, a);
  }

  /** The activity envelope (`apub::models::Activity`). */
  datatype Activity = Activity(
    context: Option<Value>,
    kind: string,
    id: string,
    actor: string,
    obj: Value,
    published: string,
    to: Value,
    cc: Value)

  /** A field serde reads as `String`. */
  predicate HasStr(v: Value, key: string) {
    v.Object? && key in v.fields && v.fields[key].Str?
  }

  /** The fields `from_value::<Activity>` demands: the four text fields as strings, and
      `object`, `to` and `cc` present with any value; only `@context` may be missing. */
  predicate IsActivityObject(v: Value) {
    && HasStr(v, "type") && HasStr(v, "id") && HasStr(v, "actor") && HasStr(v, "published")
    && "object" in v.fields && "to" in v.fields && "cc" in v.fields
  }

  /** `serde_json::from_value::<Activity>` on an object: a missing or `null` context is
      none; other fields are ignored. */
  function DecodeActivity(v: Value): (r: Option<Activity>)
    ensures r.Some? <==> IsActivityObject(v)
    ensures r.Some? ==> && EncodeActivity(r.value).fields.Keys <= v.fields.Keys
                        && r.value.kind == v.fields["type"].s && r.value.id == v.fields["id"].s
                        && r.value.actor == v.fields["actor"].s && r.value.published == v.fields["published"].s
                        && r.value.obj == v.fields["object"] && r.value.to == v.fields["to"]
                        && r.value.cc == v.fields["cc"]
                        && (r.value.context.None? <==> Get(v, "@context") == Null)
  {
    if IsActivityObject(v) then
      Some(Activity(
        if Get(v, "@context") == Null then None else Some(Get(v, "@context")),
        Get(v, "type").s, Get(v, "id").s, Get(v, "actor").s, Get(v, "object"),
        Get(v, "published").s, Get(v, "to"), Get(v, "cc")))
    else None
  }

  /** The JSON object of an activity, as the server would send it. */
  function EncodeActivity(a: Activity): (v: Value)
    ensures v.Object?
  {
    Object(map[
      "type" := Str(a.kind), "id" := Str(a.id), "actor" := Str(a.actor), "object" := a.obj,
      "published" := Str(a.published), "to" := a.to, "cc" := a.cc]
      + (if a.context.Some? then map["@context" := a.context.value] else map[]))
  }

  /** Decoding gives back an encoded activity, whose context, if any, is not `null`. */
  lemma DecodeEncodeActivity(a: Activity)
    requires a.context != Some(Null)
    ensures DecodeActivity(EncodeActivity(a)) == Some(a)
  {
    var v := EncodeActivity(a);
    assert IsActivityObject(v);
    assert Get(v, "@context") == (if a.context.Some? then a.context.value else Null);
  }
}
