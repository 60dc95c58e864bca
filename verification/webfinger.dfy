/** WebFinger (RFC 7033, section 4) with `acct:` URIs (RFC 7565): reading account handles,
    choosing the host to ask, reading a peer's JSON Resource Descriptor, and rendering the
    descriptor of a local actor. */
module Webfinger {
  import opened Wrappers
  import opened Text
  import Json
  import opened Foreign
  import opened Username
  import opened Errors
  import opened DbModels
  import opened Db

  /** `WebfingerAcct`: the two halves of `user@domain`. */
  datatype Acct = Acct(preferredUsername: string, domain: string)

  /** `WebfingerAP`: the actor document uri and the profile page. */
  datatype Ap = Ap(uri: string, url: string)

  /** `WebfingerInfo` */
  datatype Info = Info(acct: Acct, ap: Ap)

  /** A JRD link, as far as `query_webfinger` decodes it. */
  datatype Link = Link(rel: string, kind: Option<string>, href: Option<string>)

  /** The decoded JRD of a peer. */
  datatype Response = Response(subject: string, links: seq<Link>)

  const ACTIVITY_JSON: string := "application/activity+json"
  const PROFILE_PAGE: string := "http://webfinger.net/rel/profile-page"

  // ---------------------------------------------------------------------------------------
  // Account handles

  /** `parse_acct`: drops the first five bytes, whatever they are, and splits the rest on
      `@`; there must be exactly one. `None` when the string has fewer than five bytes or
      byte 5 falls inside a character. */
  function ParseAcct(subject: string): (r: Option<Acct>)
    ensures r.Some? <==> CharIndexAtByte(subject, 5).Some? &&
                         Occurrences(subject[CharIndexAtByte(subject, 5).value..], '@') == 1
    ensures r.Some? ==> '@' !in r.value.preferredUsername && '@' !in r.value.domain &&
                        subject[CharIndexAtByte(subject, 5).value..] == r.value.preferredUsername + "@" + r.value.domain
  {
    match CharIndexAtByte(subject, 5)
    case None => None
    case Some(k) =>
      var v := Split(subject[k..], '@');
      if |v| == 2 then
        JoinSplit(subject[k..], '@');
        assert v[1..] == [v[1]];
        Some(Acct(v[0], v[1]))
      else None
  }

  /** Any five ASCII characters followed by `user@domain` read as that account: the
      `acct:` scheme is not checked. */
  lemma ParseAcctOfHandle(prefix: string, user: string, domain: string)
    requires |prefix| == 5 && IsAscii(prefix)
    requires '@' !in user && '@' !in domain
    ensures ParseAcct(prefix + user + "@" + domain) == Some(Acct(user, domain))
  {
    var rest := user + "@" + domain;
    assert prefix + user + "@" + domain == prefix + rest;
    CharIndexAfterAscii(prefix, rest);
    assert (prefix + rest)[5..] == rest;
    assert Join([user, domain], ['@']) == rest;
    SplitJoin([user, domain], '@');
  }

  /** A remainder without `@`, or with more than one, is not an account. */
  lemma ParseAcctNeedsOneAt(prefix: string, rest: string)
    requires |prefix| == 5 && IsAscii(prefix)
    requires Occurrences(rest, '@') != 1
    ensures ParseAcct(prefix + rest) == None
  {
    CharIndexAfterAscii(prefix, rest);
    assert (prefix + rest)[5..] == rest;
  }

  /** `acct:notanemail` is refused. */
  lemma ParseAcctNotAnEmail()
    ensures ParseAcct("acct:notanemail") == None
  {
    var rest := "notanemail";
    assert "acct:notanemail" == "acct:" + rest;
    assert forall i :: 0 <= i < |rest| ==> rest[i] != '@';
    OccurrencesAbsent(rest, '@');
    ParseAcctNeedsOneAt("acct:", rest);
  }

  /** `acct:alice@example.com` reads as `alice` at `example.com`. */
  lemma ParseAcctAlice()
    ensures ParseAcct("acct:alice@example.com") == Some(Acct("alice", "example.com"))
  {
    assert "acct:alice@example.com" == "acct:" + "alice" + "@" + "example.com";
    ParseAcctOfHandle("acct:", "alice", "example.com");
  }

  /** Fewer than five bytes: no account. */
  lemma ParseAcctShort(subject: string)
    requires Utf8Length(subject) < 5
    ensures ParseAcct(subject) == None
  {
    CharIndexBeyondEnd(subject, 5);
  }

  /** `get_domain`: the account's domain for an `acct:` resource, the URL's host
      otherwise. */
  function GetDomain(libs: Libs, resource: string): (r: Option<string>)
    ensures StartsWith(resource, "acct:") ==>
              (r.Some? <==> ParseAcct(resource).Some?) &&
              (r.Some? ==> r.value == ParseAcct(resource).value.domain)
    ensures !StartsWith(resource, "acct:") ==> r == libs.urlHost(resource)
  {
    if StartsWith(resource, "acct:") then
      match ParseAcct(resource)
      case Some(a) => Some(a.domain)
      case None => None
    else libs.urlHost(resource)
  }

  /** The host asked about `acct:user@domain` is `domain`. */
  lemma GetDomainOfAcct(libs: Libs, user: string, domain: string)
    requires '@' !in user && '@' !in domain
    ensures GetDomain(libs, "acct:" + user + "@" + domain) == Some(domain)
  {
    ParseAcctOfHandle("acct:", user, domain);
    assert ("acct:" + user + "@" + domain)[..5] == "acct:";
  }

  // ---------------------------------------------------------------------------------------
  // Reading a peer's descriptor

  predicate IsApLink(l: Link) {
    l.kind == Some(ACTIVITY_JSON)
  }

  predicate IsProfileLink(l: Link) {
    !IsApLink(l) && l.rel == PROFILE_PAGE
  }

  /** One turn of the scan: an activity+json link sets the uri, otherwise a profile-page
      link sets the url; a missing href counts as the empty string. */
  function ScanStep(ap: Ap, l: Link): Ap {
    if IsApLink(l) then ap.(uri := l.href.GetOr(""))
    else if l.rel == PROFILE_PAGE then ap.(url := l.href.GetOr(""))
    else ap
  }

  /** The scan over `links`, from two empty strings. */
  function ScanLinks(links: seq<Link>): Ap {
    if |links| == 0 then Ap("", "") else ScanStep(ScanLinks(links[..|links| - 1]), links[|links| - 1])
  }

  /** The index of the last link satisfying `p`. */
  function LastWhere(links: seq<Link>, p: Link -> bool): (r: Option<nat>)
    ensures r.Some? ==> r.value < |links| && p(links[r.value]) &&
                        forall j :: r.value < j < |links| ==> !p(links[j])
    ensures r.None? ==> forall j :: 0 <= j < |links| ==> !p(links[j])
  {
    if |links| == 0 then None
    else if p(links[|links| - 1]) then Some(|links| - 1)
    else LastWhere(links[..|links| - 1], p)
  }

  /** The href of the link at `i`, or `""` when there is none. */
  function HrefAt(links: seq<Link>, i: Option<nat>): string
    requires i.Some? ==> i.value < |links|
  {
    match i
    case None => ""
    case Some(k) => links[k].href.GetOr("")
  }

  /** The scan keeps the last match: the uri comes from the last activity+json link and the
      url from the last profile-page link that is not one. */
  lemma {:induction false} ScanKeepsLastMatch(links: seq<Link>)
    ensures ScanLinks(links).uri == HrefAt(links, LastWhere(links, IsApLink))
    ensures ScanLinks(links).url == HrefAt(links, LastWhere(links, IsProfileLink))
  {
    if |links| > 0 {
      var init := links[..|links| - 1];
      ScanKeepsLastMatch(init);
      assert forall j :: 0 <= j < |init| ==> init[j] == links[j];
    }
  }

  /** The loop of `query_webfinger` over the links. */
  method ScanLinksLoop(links: seq<Link>) returns (uri: string, url: string)
    ensures Ap(uri, url) == ScanLinks(links)
  {
    uri, url := "", "";
    var i := 0;
    while i < |links|
      invariant 0 <= i <= |links|
      invariant Ap(uri, url) == ScanLinks(links[..i])
    {
      assert links[..i + 1][..i] == links[..i];
      var l := links[i];
      if l.kind == Some(ACTIVITY_JSON) {
        uri := l.href.GetOr("");
      } else if l.rel == PROFILE_PAGE {
        url := l.href.GetOr("");
      }
      i := i + 1;
    }
    assert links[..|links|] == links;
  }

  /** The address `query_webfinger` asks. */
  function WebfingerUrl(domain: string, resource: string): string {
    "https://" + domain + "/.well-known/webfinger?resource=" + resource
  }

  /** `query_webfinger`, with `fetch` standing for the GET and the JSON decoding (`None`
      when either fails). Every failure is `FetchError`; success needs a domain, a
      descriptor, an account subject and both a non-empty uri and a non-empty url. */
  function QueryWebfingerResult(libs: Libs, resource: string, fetch: string -> Option<Response>): (r: Result<Info, ActionError>)
    ensures r.Err? ==> r.error == FetchError
    ensures r.Ok? <==>
              GetDomain(libs, resource).Some? &&
              fetch(WebfingerUrl(GetDomain(libs, resource).value, resource)).Some? &&
              ParseAcct(fetch(WebfingerUrl(GetDomain(libs, resource).value, resource)).value.subject).Some? &&
              ScanLinks(fetch(WebfingerUrl(GetDomain(libs, resource).value, resource)).value.links).uri != "" &&
              ScanLinks(fetch(WebfingerUrl(GetDomain(libs, resource).value, resource)).value.links).url != ""
    ensures r.Ok? ==>
              var response := fetch(WebfingerUrl(GetDomain(libs, resource).value, resource)).value;
              r.value == Info(ParseAcct(response.subject).value, ScanLinks(response.links))
  {
    match GetDomain(libs, resource)
    case None => Err(FetchError)
    case Some(domain) =>
      match fetch(WebfingerUrl(domain, resource))
      case None => Err(FetchError)
      case Some(response) =>
        var ap := ScanLinks(response.links);
        match ParseAcct(response.subject)
        case None => Err(FetchError)
        case Some(acct) =>
          if ap.uri != "" && ap.url != "" then Ok(Info(acct, ap)) else Err(FetchError)
  }

  /** `query_webfinger`. */
  method QueryWebfinger(libs: Libs, resource: string, fetch: string -> Option<Response>) returns (r: Result<Info, ActionError>)
    ensures r == QueryWebfingerResult(libs, resource, fetch)
  {
    var domain := GetDomain(libs, resource);
    if domain.None? {
      return Err(FetchError);
    }
    var response := fetch(WebfingerUrl(domain.value, resource));
    if response.None? {
      return Err(FetchError);
    }
    var uri, url := ScanLinksLoop(response.value.links);
    var acct := ParseAcct(response.value.subject);
    if acct.None? {
      return Err(FetchError);
    }
    if uri != "" && url != "" {
      r := Ok(Info(acct.value, Ap(uri, url)));
    } else {
      r := Err(FetchError);
    }
  }

  // ---------------------------------------------------------------------------------------
  // The local descriptor

  /** The actor `get_webfinger` describes: by IDNA-decoded username and domain when the
      resource reads as an account, by uri otherwise. */
  function LookupResource(libs: Libs, actors: seq<Actor>, resource: string): (r: Result<Actor, ActionError>)
    ensures ParseAcct(resource).Some? ==>
              r == GetActorByUsernameDomain(actors, IdnaToUsername(libs, ParseAcct(resource).value.preferredUsername),
                                            ParseAcct(resource).value.domain)
    ensures ParseAcct(resource).None? ==> r == GetActorByUri(actors, resource)
  {
    match ParseAcct(resource)
    case Some(acct) => GetActorByUsernameDomain(actors, IdnaToUsername(libs, acct.preferredUsername), acct.domain)
    case None => GetActorByUri(actors, resource)
  }

  /** The account a local actor is published under. */
  function Subject(libs: Libs, a: Actor): string {
    "acct:" + UsernameToIdna(libs, a.username) + "@" + a.domain
  }

  /** The two links of the local descriptor, as a peer's scan decodes them. */
  function JrdLinks(a: Actor): seq<Link> {
    [Link(PROFILE_PAGE, Some("text/html"), a.url), Link("self", Some(ACTIVITY_JSON), Some(a.uri))]
  }

  function LinkJson(l: Link): Json.Value {
    Json.Object(map["rel" := Json.Str(l.rel), "type" := Json.OptStr(l.kind), "href" := Json.OptStr(l.href)])
  }

  /** The descriptor `get_webfinger` renders for `a`: the account as subject, the uri and
      the profile url (or `null`) as aliases, a profile-page link to the url and a `self`
      link of type `application/activity+json` to the uri. */
  function Jrd(libs: Libs, a: Actor): (r: Json.Value)
    ensures r.Object? && r.fields.Keys == {"subject", "aliases", "links"}
    ensures Json.Get(r, "subject") == Json.Str("acct:" + UsernameToIdna(libs, a.username) + "@" + a.domain)
    ensures var al := Json.Get(r, "aliases");
            al.Array? && |al.items| == 2 && al.items[0] == Json.Str(a.uri) &&
            al.items[1] == (if a.url.Some? then Json.Str(a.url.value) else Json.Null)
    ensures var ls := Json.Get(r, "links");
            && ls.Array? && |ls.items| == 2
            && Json.Get(ls.items[0], "rel") == Json.Str(PROFILE_PAGE)
            && Json.Get(ls.items[0], "type") == Json.Str("text/html")
            && Json.Get(ls.items[0], "href") == (if a.url.Some? then Json.Str(a.url.value) else Json.Null)
            && Json.Get(ls.items[1], "rel") == Json.Str("self")
            && Json.Get(ls.items[1], "type") == Json.Str(ACTIVITY_JSON)
            && Json.Get(ls.items[1], "href") == Json.Str(a.uri)
  {
    Json.Object(map[
      "subject" := Json.Str(Subject(libs, a)),
      "aliases" := Json.Array([Json.Str(a.uri), Json.OptStr(a.url)]),
      "links" := Json.Array([LinkJson(JrdLinks(a)[0]), LinkJson(JrdLinks(a)[1])])])
  }

  /** `get_webfinger`: the lookup's error, or the descriptor. */
  function GetWebfinger(libs: Libs, actors: seq<Actor>, resource: string): (r: Result<Json.Value, ActionError>)
    ensures r.Err? ==> LookupResource(libs, actors, resource) == Err(r.error)
    ensures r.Ok? ==> exists a :: a in actors && LookupResource(libs, actors, resource) == Ok(a) && r.value == Jrd(libs, a)
  {
    match LookupResource(libs, actors, resource)
    case Err(e) => Err(e)
    case Ok(a) => Ok(Jrd(libs, a))
  }

  /** What a peer's scan reads from the local descriptor is the actor's uri and its
      profile page (empty when the actor has none). */
  lemma ScanOfLocalDescriptor(a: Actor)
    ensures ScanLinks(JrdLinks(a)) == Ap(a.uri, a.url.GetOr(""))
  {
    var ls := JrdLinks(a);
    assert ls[..1][..0] == [];
    assert ls[..1] == [ls[0]];
    assert ls[..|ls| - 1] == [ls[0]];
  }

  /** The descriptor's subject reads back as the actor's IDNA username and domain. */
  lemma SubjectParses(libs: Libs, a: Actor)
    requires '@' !in UsernameToIdna(libs, a.username) && '@' !in a.domain
    ensures ParseAcct(Subject(libs, a)) == Some(Acct(UsernameToIdna(libs, a.username), a.domain))
  {
    ParseAcctOfHandle("acct:", UsernameToIdna(libs, a.username), a.domain);
  }

  /** Asking for the subject of a local actor's descriptor returns that descriptor, when
      IDNA decoding undoes IDNA encoding of the username and no other actor shares its
      username and domain. */
  lemma WebfingerOwnSubject(libs: Libs, actors: seq<Actor>, a: Actor)
    requires a in actors
    requires forall b :: b in actors && b.username == a.username && b.domain == a.domain ==> b == a
    requires '@' !in UsernameToIdna(libs, a.username) && '@' !in a.domain
    requires IdnaToUsername(libs, UsernameToIdna(libs, a.username)) == a.username
    ensures GetWebfinger(libs, actors, Subject(libs, a)) == Ok(Jrd(libs, a))
  {
    SubjectParses(libs, a);
  }

  /** A resource that is not an `acct:` handle but holds one `@` after its fifth byte is
      looked up as an account: `https://x@host` asks for username `://x` at `host`. */
  lemma UrlWithAtReadAsAccount(libs: Libs, actors: seq<Actor>, user: string, host: string)
    requires '@' !in user && '@' !in host
    ensures LookupResource(libs, actors, "https://" + user + "@" + host)
            == GetActorByUsernameDomain(actors, IdnaToUsername(libs, "://" + user), host)
  {
    assert "https://" + user + "@" + host == "https" + ("://" + user) + "@" + host;
    ParseAcctOfHandle("https", "://" + user, host);
  }
}
