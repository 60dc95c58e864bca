/** The stored records: actors (`db::models::Actor`, `NewActor`), follow edges
    (`db::models::Follow`), the four actor types, and the builder that lays out the URIs of
    a local actor. Timestamps are whole seconds. */
module DbModels {
  import opened Wrappers
  import opened Text
  import opened Foreign
  import opened Username

  /** A row of the `actors` table. */
  datatype Actor = Actor(
    id: int,
    uri: string,
    url: Option<string>,
    kind: string,
    username: string,
    domain: string,
    name: string,
    summary: string,
    avatarUrl: string,
    inboxUri: string,
    outboxUri: string,
    followersUri: Option<string>,
    followingUri: Option<string>,
    publicKeyPem: string,
    createdAt: int,
    updatedAt: Option<int>,
    lang: string,
    isLocked: bool,
    isSuspended: bool,
    isSilenced: bool)

  /** An actor to insert; the optional columns take the table's defaults. */
  datatype NewActor = NewActor(
    uri: string,
    url: Option<string>,
    kind: string,
    username: string,
    domain: string,
    name: Option<string>,
    summary: Option<string>,
    avatarUrl: Option<string>,
    inboxUri: string,
    outboxUri: string,
    followersUri: Option<string>,
    followingUri: Option<string>,
    publicKeyPem: string,
    createdAt: Option<int>,
    updatedAt: Option<int>,
    lang: string,
    isLocked: bool,
    isSuspended: bool,
    isSilenced: bool)

  /** `NewActor::default()` */
  const DefaultNewActor := NewActor("", None, "", "", "", None, None, None, "", "", None, None, "",
                                    None, None, "", false, false, false)

  /** A row of the `follows` table, keyed by `(followerId, followingId)`. */
  datatype Follow = Follow(followerId: int, followingId: int, createdAt: int, updatedAt: Option<int>, role: string)

  const PENDING := "pending"
  const FOLLOWER := "follower"

  datatype ActorType = Person | Service | Application | Group

  /** `From<&Actor> for ActorType`: the stored `kind`, with every unknown kind read as a
      person. */
  function ActorTypeOf(kind: string): (t: ActorType)
    ensures t == Service <==> kind == "Service"
    ensures t == Application <==> kind == "Application"
    ensures t == Group <==> kind == "Group"
    ensures t == Person <==> kind != "Service" && kind != "Application" && kind != "Group"
  {
    if kind == "Service" then Service
    else if kind == "Application" then Application
    else if kind == "Group" then Group
    else Person
  }

  /** `From<&ActorType> for String` */
  function ActorTypeName(t: ActorType): string {
    match t
    case Person => "Person"
    case Service => "Service"
    case Application => "Application"
    case Group => "Group"
  }

  /** Writing a type and reading it back gives the same type, so distinct types have
      distinct names. */
  lemma ActorTypeRoundTrip(t: ActorType)
    ensures ActorTypeOf(ActorTypeName(t)) == t
  {
  }

  /** `NewLocalActorBuilder` */
  datatype Builder = Builder(username: string, domain: string, lang: string, actorType: ActorType, publicKeyPem: string)

  /** The path segment of the actor's collection: communities for groups, users for
      everything else. */
  function Slug(t: ActorType): string {
    if t == Group then "communities" else "users"
  }

  /** `NewLocalActorBuilder::uri`: `https://<domain>/<slug>/<IDNA username>`. */
  function BuilderUri(libs: Libs, b: Builder): string {
    "https://" + b.domain + "/" + Slug(b.actorType) + "/" + UsernameToIdna(libs, b.username)
  }

  function InboxUri(libs: Libs, b: Builder): string {
    BuilderUri(libs, b) + "/inbox"
  }

  function OutboxUri(libs: Libs, b: Builder): string {
    BuilderUri(libs, b) + "/outbox"
  }

  /** Groups follow nobody, so they have no `following` collection. */
  function FollowingUri(libs: Libs, b: Builder): Option<string> {
    if b.actorType == Group then None else Some(BuilderUri(libs, b) + "/following")
  }

  function FollowersUri(libs: Libs, b: Builder): Option<string> {
    Some(BuilderUri(libs, b) + "/followers")
  }

  /** The profile page: the raw username, not its IDNA form. */
  function BuilderUrl(b: Builder): Option<string> {
    Some("https://" + b.domain + "/@" + b.username)
  }

  /** `NewLocalActorBuilder::build` at time `now`. */
  function Build(libs: Libs, b: Builder, now: int): (n: NewActor)
    ensures n.kind == ActorTypeName(b.actorType) && ActorTypeOf(n.kind) == b.actorType
    ensures n.username == b.username && n.domain == b.domain && n.publicKeyPem == b.publicKeyPem
    ensures n.createdAt == n.updatedAt == Some(now)
    ensures n.lang == "" && !n.isLocked && !n.isSuspended && !n.isSilenced
    ensures n.name.None? && n.summary.None? && n.avatarUrl.None?
    ensures n.uri == BuilderUri(libs, b) && n.url == BuilderUrl(b)
    ensures n.inboxUri == n.uri + "/inbox" && n.outboxUri == n.uri + "/outbox"
    ensures n.followersUri == Some(n.uri + "/followers")
    ensures n.followingUri == (if b.actorType == Group then None else Some(n.uri + "/following"))
  {
    ActorTypeRoundTrip(b.actorType);
    DefaultNewActor.(
      kind := ActorTypeName(b.actorType),
      username := b.username,
      domain := b.domain,
      uri := BuilderUri(libs, b),
      url := BuilderUrl(b),
      inboxUri := InboxUri(libs, b),
      outboxUri := OutboxUri(libs, b),
      followersUri := FollowersUri(libs, b),
      followingUri := FollowingUri(libs, b),
      createdAt := Some(now),
      updatedAt := Some(now),
      publicKeyPem := b.publicKeyPem)
  }

  /** The URI layout tells local actors apart: on domains without a `/`, two builders with
      the same URI have the same domain, the same group-ness and the same IDNA username. */
  lemma {:induction false} BuilderUriInjective(libs: Libs, b1: Builder, b2: Builder)
    requires '/' !in b1.domain && '/' !in b2.domain
    requires BuilderUri(libs, b1) == BuilderUri(libs, b2)
    ensures b1.domain == b2.domain
    ensures (b1.actorType == Group) == (b2.actorType == Group)
    ensures UsernameToIdna(libs, b1.username) == UsernameToIdna(libs, b2.username)
  {
    var u1 := UsernameToIdna(libs, b1.username);
    var u2 := UsernameToIdna(libs, b2.username);
    var r1 := Slug(b1.actorType) + "/" + u1;
    var r2 := Slug(b2.actorType) + "/" + u2;
    assert BuilderUri(libs, b1) == "https://" + (b1.domain + "/" + r1);
    assert BuilderUri(libs, b2) == "https://" + (b2.domain + "/" + r2);
    assert b1.domain + "/" + r1 == b2.domain + "/" + r2 by {
      var t := BuilderUri(libs, b1);
      assert b1.domain + "/" + r1 == t[8..];
    }
    SplitAtFirst(b1.domain, r1, b2.domain, r2, '/');
    assert '/' !in Slug(b1.actorType) && '/' !in Slug(b2.actorType);
    SplitAtFirst(Slug(b1.actorType), u1, Slug(b2.actorType), u2, '/');
  }
}
