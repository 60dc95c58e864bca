/** The HTTP Signatures gate in front of the inbox (`authenticate_http_signatures`) and the
    check that an activity comes from the actor that signed it (`must_authenticate`). */
module Auth {
  import opened Wrappers
  import opened Text
  import opened Foreign
  import opened Errors
  import opened DbModels
  import opened Db
  import opened Hancock
  import opened HancockLaws
  import opened Serializers
  import opened ApubModels
  import opened ActorActions

  const MAIN_KEY: string := "#main-key"

  /** The header the gate reads; header names are matched without regard to case. */
  const SIGNATURE_HEADER: HeaderName := "signature"

  /** The actor uri a key id names: the text before the first `#main-key`, when the key id
      ends with `#main-key`. */
  function ActorUriOfKeyId(keyId: string): (r: Option<string>)
    ensures r.Some? <==> EndsWith(keyId, MAIN_KEY)
    ensures r.Some? ==> StartsWith(keyId, r.value) && r.value == BeforeFirst(keyId, MAIN_KEY)
  {
    if EndsWith(keyId, MAIN_KEY) then Some(BeforeFirst(keyId, MAIN_KEY)) else None
  }

  /** The key id an actor publishes names that actor, when its uri holds no `#`. */
  lemma {:induction false} ActorUriOfMainKeyId(uri: string)
    requires '#' !in uri
    ensures ActorUriOfKeyId(MainKeyId(uri)) == Some(uri)
  {
    var k := MainKeyId(uri);
    assert k[|k| - |MAIN_KEY|..] == MAIN_KEY;
    assert OccursAt(k, MAIN_KEY, |uri|);
    forall j | 0 <= j < |uri| ensures !OccursAt(k, MAIN_KEY, j) {
      assert k[j] == uri[j] && uri[j] != '#';
      if j + |MAIN_KEY| <= |k| {
        assert k[j..j + |MAIN_KEY|][0] == k[j];
      }
    }
    assert FindFrom(k, MAIN_KEY, 0) == Some(|uri|);
  }

  /** The verification callback the gate hands to `verify`: RSA-SHA256 under `key`. */
  function VerifierOf(libs: Libs, key: PublicKey): (string, seq<byte>) -> Result<bool, CryptoError> {
    (body: string, sig: seq<byte>) => libs.rsaSha256Verify(key, body, sig)
  }

  /** The chain of checks after the actor is known: its stored PEM must parse, and `verify`
      must say true; a callback error counts as false. */
  function CheckSignature(libs: Libs, a: Actor, sig: Signature, req: Request, now: u64): (r: Result<Actor, Rejection>)
    ensures r.Ok? <==> libs.publicKeyFromPem(a.publicKeyPem).Some? &&
                       VerifyResult(sig, req, now, VerifierOf(libs, libs.publicKeyFromPem(a.publicKeyPem).value)) == Ok(true)
    ensures r.Ok? ==> r.value == a
    ensures r.Err? ==> r.error == Reject
  {
    match libs.publicKeyFromPem(a.publicKeyPem)
    case None => Err(Reject)
    case Some(key) =>
      match VerifyResult(sig, req, now, VerifierOf(libs, key))
      case Ok(true) => Ok(a)
      case _ => Err(Reject)
  }

  /** `authenticate_http_signatures` for a request with method `verb` on `path` at time
      `now`, over the actors table, whose resolution step may fetch and store the signer. */
  function Authenticate(rt: Runtime, libs: Libs, remote: Remote, actors: seq<Actor>, nextId: int,
                        verb: string, path: string, headers: HeaderMap, now: u64)
    : (r: (Result<Actor, Rejection>, seq<Actor>, int))
    ensures r.0.Err? ==> r.0.error == Reject
  {
    match Hancock.Get(headers, SIGNATURE_HEADER)
    case None => (Err(Reject), actors, nextId)
    case Some(value) =>
      match ParseResult(value, libs)
      case Err(_) => (Err(Reject), actors, nextId)
      case Ok(sig) =>
        match sig.keyId
        case None => (Err(Reject), actors, nextId)
        case Some(keyId) =>
          match ActorUriOfKeyId(keyId)
          case None => (Err(Reject), actors, nextId)
          case Some(uri) =>
            var (found, actors', nextId') := GetOrFetchResult(rt, libs, remote, actors, nextId, uri, now);
            match found
            case Err(_) => (Err(Reject), actors', nextId')
            case Ok(a) => (CheckSignature(libs, a, sig, Request(verb, path, headers), now), actors', nextId')
  }

  /** A missing header, a header that does not parse, a missing key id and a key id without
      the `#main-key` suffix are all rejected before any lookup, whatever the remote side
      would answer. */
  lemma EarlyRejections(rt: Runtime, libs: Libs, remote: Remote, actors: seq<Actor>, nextId: int,
                        verb: string, path: string, headers: HeaderMap, now: u64)
    requires || Hancock.Get(headers, SIGNATURE_HEADER).None?
             || ParseResult(Hancock.Get(headers, SIGNATURE_HEADER).value, libs).Err?
             || ParseResult(Hancock.Get(headers, SIGNATURE_HEADER).value, libs).value.keyId.None?
             || !EndsWith(ParseResult(Hancock.Get(headers, SIGNATURE_HEADER).value, libs).value.keyId.value, MAIN_KEY)
    ensures Authenticate(rt, libs, remote, actors, nextId, verb, path, headers, now) == (Err(Reject), actors, nextId)
  {
  }

  /** The gate lets a request through exactly when the key id's actor resolves, its PEM
      parses and the signature verifies, and then returns that actor. */
  lemma AcceptedIffVerified(rt: Runtime, libs: Libs, remote: Remote, actors: seq<Actor>, nextId: int,
                            verb: string, path: string, headers: HeaderMap, now: u64)
    ensures var r := Authenticate(rt, libs, remote, actors, nextId, verb, path, headers, now);
            r.0.Ok? <==>
              exists value, sig, uri ::
                && Hancock.Get(headers, SIGNATURE_HEADER) == Some(value)
                && ParseResult(value, libs) == Ok(sig)
                && sig.keyId.Some? && ActorUriOfKeyId(sig.keyId.value) == Some(uri)
                && GetOrFetchResult(rt, libs, remote, actors, nextId, uri, now).0.Ok?
                && CheckSignature(libs, GetOrFetchResult(rt, libs, remote, actors, nextId, uri, now).0.value,
                                  sig, Request(verb, path, headers), now).Ok?
  {
    var r := Authenticate(rt, libs, remote, actors, nextId, verb, path, headers, now);
    if r.0.Ok? {
      var value := Hancock.Get(headers, SIGNATURE_HEADER).value;
      var sig := ParseResult(value, libs).value;
      var uri := ActorUriOfKeyId(sig.keyId.value).value;
      assert Hancock.Get(headers, SIGNATURE_HEADER) == Some(value) && ParseResult(value, libs) == Ok(sig) &&
             ActorUriOfKeyId(sig.keyId.value) == Some(uri);
    }
  }

  lemma {:induction false} GetAllOther(h: seq<HeaderEntry>, e: HeaderEntry, n: HeaderName)
    requires n != e.name
    ensures GetAll(h + [e], n) == GetAll(h, n)
  {
    if |h| > 0 {
      assert (h + [e])[1..] == h[1..] + [e];
      GetAllOther(h[1..], e, n);
    }
  }

  /** Adding a header the names do not mention leaves every line as it was. */
  lemma {:induction false} LinesIgnoreAddedHeader(created: Option<u64>, expires: Option<u64>, verb: string, path: string,
                                                  h0: HeaderMap, h1: HeaderMap, e: HeaderEntry, ns: seq<SignatureHeaderName>)
    requires h1 == h0 + [e]
    requires forall i :: 0 <= i < |ns| ==> ns[i] != NormalHeader(e.name)
    ensures Lines(created, expires, Request(verb, path, h1), ns) == Lines(created, expires, Request(verb, path, h0), ns)
  {
    if |ns| > 0 {
      LineIgnoresAddedHeader(created, expires, verb, path, h0, h1, e, ns[0]);
      LinesIgnoreAddedHeader(created, expires, verb, path, h0, h1, e, ns[1..]);
    }
  }

  lemma LineIgnoresAddedHeader(created: Option<u64>, expires: Option<u64>, verb: string, path: string,
                               h0: HeaderMap, h1: HeaderMap, e: HeaderEntry, n: SignatureHeaderName)
    requires h1 == h0 + [e] && n != NormalHeader(e.name)
    ensures Line(created, expires, Request(verb, path, h1), n) == Line(created, expires, Request(verb, path, h0), n)
  {
    if n.NormalHeader? {
      GetAllOther(h0, e, n.name);
    }
  }

  lemma GetAdded(h0: HeaderMap, h1: HeaderMap, e: HeaderEntry)
    requires h1 == h0 + [e] && e.name !in Keys(h0)
    ensures GetAll(h1, e.name) == e.values
  {
    assert forall j :: 0 <= j < |h0| ==> h1[j].name != e.name by {
      forall j | 0 <= j < |h0| ensures h1[j].name != e.name {
        assert h1[j] == h0[j] && Keys(h0)[j] == h0[j].name;
      }
    }
    assert h1[|h0|] == e;
  }

  /** Appending a header whose name is new keeps a header map. */
  lemma AddedHeaderMap(h0: HeaderMap, e: HeaderEntry)
    requires e.name !in Keys(h0) && |e.values| > 0
    ensures IsHeaderMap(h0 + [e])
  {
    var h1 := h0 + [e];
    forall i, j | 0 <= i < j < |h1| ensures h1[i].name != h1[j].name {
      if j == |h0| {
        assert h1[i] == h0[i] && Keys(h0)[i] == h0[i].name;
      } else {
        assert h1[i] == h0[i] && h1[j] == h0[j];
      }
    }
  }

  /** The names `create` lists never name a header outside the request's map. */
  lemma CreatedNamesWithin(keyId: string, req: Request, lifetime: u64, now: u64, n: HeaderName)
    requires now + lifetime < U64_LIMIT && n !in Keys(req.headers)
    ensures forall i :: 0 <= i < |Unsigned(keyId, req, lifetime, now).headers.value| ==>
              Unsigned(keyId, req, lifetime, now).headers.value[i] != NormalHeader(n)
  {
    var ns := Unsigned(keyId, req, lifetime, now).headers.value;
    forall i | 0 <= i < |ns| ensures ns[i] != NormalHeader(n) {
      if i >= 3 {
        assert ns[i] == NormalNames(Keys(req.headers))[i - 3];
      }
    }
  }

  /** A stored actor that signs a request with `create` under its own `#main-key`, with a
      key its stored PEM verifies, and sends the rendered header along with the headers it
      signed, gets through the gate at any time up to the signature's expiry. */
  lemma SignedRequestAccepted<E>(rt: Runtime, libs: Libs, remote: Remote, actors: seq<Actor>, nextId: int, a: Actor,
                                 verb: string, path: string, h0: HeaderMap, lifetime: u64, now: u64, later: u64,
                                 key: PublicKey, sign: string -> Result<seq<byte>, CryptoError>)
    requires rt.poolOk && rt.taskOk
    requires GetActorByUri(actors, a.uri) == Ok(a)
    requires '#' !in a.uri && AllChars(MainKeyId(a.uri), IsParamChar)
    requires libs.publicKeyFromPem(a.publicKeyPem) == Some(key)
    requires KeyPair(sign, VerifierOf(libs, key)) && Base64Lawful(libs)
    requires SIGNATURE_HEADER !in Keys(h0)
    requires now + lifetime < U64_LIMIT && later <= now + lifetime
    requires SigningString(Unsigned(MainKeyId(a.uri), Request(verb, path, h0), lifetime, now), Request(verb, path, h0)).Some?
    requires SignWith(Unsigned(MainKeyId(a.uri), Request(verb, path, h0), lifetime, now), Request(verb, path, h0), sign).Ok?
    ensures var sig := SignWith(Unsigned(MainKeyId(a.uri), Request(verb, path, h0), lifetime, now), Request(verb, path, h0), sign).value;
            var e := HeaderEntry(SIGNATURE_HEADER, [HeaderText(sig, libs)]);
            IsHeaderMap(h0 + [e]) &&
            Authenticate(rt, libs, remote, actors, nextId, verb, path, h0 + [e], later) == (Ok(a), actors, nextId)
  {
    var req0 := Request(verb, path, h0);
    var sig := SignWith(Unsigned(MainKeyId(a.uri), req0, lifetime, now), req0, sign).value;
    var e := HeaderEntry(SIGNATURE_HEADER, [HeaderText(sig, libs)]);
    AddedHeaderMap(h0, e);
    var hm: HeaderMap := h0 + [e];
    GetAdded(h0, hm, e);
    CreateRenderParseVerify(MainKeyId(a.uri), req0, lifetime, now, later, libs, sign, VerifierOf(libs, key));
    ActorUriOfMainKeyId(a.uri);
    CreatedNamesWithin(MainKeyId(a.uri), req0, lifetime, now, SIGNATURE_HEADER);
    LinesIgnoreAddedHeader(sig.created, sig.expires, verb, path, h0, hm, e, sig.headers.value);
    assert SigningString(sig, Request(verb, path, hm)) == SigningString(sig, req0);
    assert HasUri(actors, a.uri);
  }

  /** `must_authenticate`: the activity must name the signer as its actor. */
  function MustAuthenticate(a: Actor, body: Activity): (r: Result<(), Rejection>)
    ensures r.Ok? <==> a.uri == body.actor
    ensures r.Err? ==> r.error == Reject
  {
    if a.uri == body.actor then Ok(()) else Err(Reject)
  }

  /** `authenticate_http_signatures` over the database. */
  method AuthenticateHttpSignatures(db: Database, rt: Runtime, libs: Libs, remote: Remote,
                                    verb: string, path: string, headers: HeaderMap, now: u64)
    returns (r: Result<Actor, Rejection>)
    requires db.Valid()
    modifies db
    ensures db.Valid() && db.follows == old(db.follows)
    ensures (r, db.actors, db.nextId) == Authenticate(rt, libs, remote, old(db.actors), old(db.nextId), verb, path, headers, now)
  {
    var value := Hancock.Get(headers, SIGNATURE_HEADER);
    if value.None? {
      return Err(Reject);
    }
    var sig := Parse(value.value, libs);
    if sig.Err? || sig.value.keyId.None? {
      return Err(Reject);
    }
    var uri := ActorUriOfKeyId(sig.value.keyId.value);
    if uri.None? {
      return Err(Reject);
    }
    var found := GetOrFetchActorByUri(db, rt, libs, remote, uri.value, now);
    if found.Err? {
      return Err(Reject);
    }
    var key := libs.publicKeyFromPem(found.value.publicKeyPem);
    if key.None? {
      return Err(Reject);
    }
    var verified := Verify(sig.value, Request(verb, path, headers), now, VerifierOf(libs, key.value));
    if verified == Ok(true) {
      r := Ok(found.value);
    } else {
      r := Err(Reject);
    }
  }
}
