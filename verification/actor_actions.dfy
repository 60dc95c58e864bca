/** Resolving a remote actor: fetch the actor document, ask WebFinger about it, convert and
    store it (`fetch_actor_by_uri`), or return the stored copy when there is one
    (`get_or_fetch_actor_by_uri`). */
module ActorActions {
  import opened Wrappers
  import opened Foreign
  import opened Errors
  import opened DbModels
  import opened Db
  import opened Webfinger
  import opened ApubModels
  import opened DbLaws

  /** The remote side: the GET of an actor document with its JSON decoding, and the
      WebFinger GET with its decoding; `None` for any network or decoding failure. */
  datatype Remote = Remote(fetchActor: string -> Option<WireActor>, fetchWebfinger: string -> Option<Webfinger.Response>)

  /** How the server's runtime behaves on this call: whether the pool hands out a
      connection, and whether the blocking task runs to completion. */
  datatype Runtime = Runtime(poolOk: bool, taskOk: bool)

  /** `fetch_actor`: every failure is `FetchError`. */
  function FetchActor(remote: Remote, uri: string): (r: Result<WireActor, ActionError>)
    ensures r.Ok? <==> remote.fetchActor(uri).Some?
    ensures r.Ok? ==> r.value == remote.fetchActor(uri).value
    ensures r.Err? ==> r.error == FetchError
  {
    match remote.fetchActor(uri)
    case Some(w) => Ok(w)
    case None => Err(FetchError)
  }

  /** The conversion of a fetched document: paired with the WebFinger account when the
      query about `uri` succeeds, plain otherwise; any failure is `InvalidForm`. */
  function Convert(libs: Libs, remote: Remote, uri: string, w: WireActor): (r: Result<NewActor, ActionError>)
    ensures r.Err? ==> r.error == InvalidForm
    ensures r.Ok? <==> NewActorFromAp(libs, w).Ok?
  {
    match QueryWebfingerResult(libs, uri, remote.fetchWebfinger)
    case Ok(info) => NewActorFromApWebfinger(libs, w, info)
    case Err(_) => NewActorFromAp(libs, w)
  }

  /** `fetch_actor_by_uri` on the actors table and the id counter at time `now`: a pool
      that hands out no connection is `InternalError`. */
  function FetchActorByUriResult(rt: Runtime, libs: Libs, remote: Remote, actors: seq<Actor>, nextId: int, uri: string, now: int)
    : (r: (Result<Actor, ActionError>, seq<Actor>, int))
    ensures r.0.Err? ==> r.1 == actors && r.2 == nextId
    ensures !rt.poolOk ==> r.0 == Err(InternalError)
  {
    if !rt.poolOk then (Err(InternalError), actors, nextId)
    else
      match FetchActor(remote, uri)
      case Err(e) => (Err(e), actors, nextId)
      case Ok(w) =>
        match Convert(libs, remote, uri, w)
        case Err(_) => (Err(InvalidForm), actors, nextId)
        case Ok(n) =>
          if !rt.taskOk then (Err(InternalError), actors, nextId)
          else
            var (res, actors', nextId') := InsertActorResult(actors, nextId, n, now);
            match res
            case Err(_) => (Err(InsertError), actors', nextId')
            case Ok(a) => (Ok(a), actors', nextId')
  }

  /** What `get_or_fetch_actor_by_uri` does with the lookup's outcome. */
  datatype Choice = Found(actor: Actor) | Fetch | Fail(error: ActionError)

  /** A hit is returned, only `NotFound` leads to a fetch, and every other error is passed
      on. */
  function Choose(lookup: Result<Actor, ActionError>): (c: Choice)
    ensures c.Found? <==> lookup.Ok?
    ensures c.Found? ==> c.actor == lookup.value
    ensures c == Fetch <==> lookup == Err(NotFound)
    ensures c.Fail? <==> lookup.Err? && lookup.error != NotFound
    ensures c.Fail? ==> c.error == lookup.error
  {
    match lookup
    case Ok(a) => Found(a)
    case Err(NotFound) => Fetch
    case Err(e) => Fail(e)
  }

  /** `get_or_fetch_actor_by_uri` on the actors table and the id counter at time `now`: a
      pool or blocking-task failure is `InternalError`. */
  function GetOrFetchResult(rt: Runtime, libs: Libs, remote: Remote, actors: seq<Actor>, nextId: int, uri: string, now: int)
    : (r: (Result<Actor, ActionError>, seq<Actor>, int))
    ensures r.0.Err? ==> r.1 == actors && r.2 == nextId
    ensures !rt.poolOk || !rt.taskOk ==> r.0 == Err(InternalError)
  {
    if !rt.poolOk || !rt.taskOk then (Err(InternalError), actors, nextId)
    else
      match Choose(GetActorByUri(actors, uri))
      case Found(a) => (Ok(a), actors, nextId)
      case Fetch => FetchActorByUriResult(rt, libs, remote, actors, nextId, uri, now)
      case Fail(e) => (Err(e), actors, nextId)
  }

  /** A stored actor is returned as it is, whatever the remote side would answer. */
  lemma LocalHitNeedsNoFetch(rt: Runtime, libs: Libs, r1: Remote, r2: Remote, actors: seq<Actor>, nextId: int, uri: string, now: int)
    requires rt.poolOk && rt.taskOk && HasUri(actors, uri)
    ensures GetOrFetchResult(rt, libs, r1, actors, nextId, uri, now) == GetOrFetchResult(rt, libs, r2, actors, nextId, uri, now)
    ensures GetOrFetchResult(rt, libs, r1, actors, nextId, uri, now) == (Ok(GetActorByUri(actors, uri).value), actors, nextId)
  {
  }

  /** An unknown uri is fetched. */
  lemma MissFetches(rt: Runtime, libs: Libs, remote: Remote, actors: seq<Actor>, nextId: int, uri: string, now: int)
    requires rt.poolOk && rt.taskOk && !HasUri(actors, uri)
    ensures GetOrFetchResult(rt, libs, remote, actors, nextId, uri, now) == FetchActorByUriResult(rt, libs, remote, actors, nextId, uri, now)
  {
    assert GetActorByUri(actors, uri) == Err(NotFound);
  }

  /** A document that cannot be fetched or decoded is `FetchError`, and one that does not
      convert is `InvalidForm`, whatever WebFinger says. Once converted, a failed blocking
      task is `InternalError` and a uri already stored is `InsertError`. */
  lemma FetchFailures(rt: Runtime, libs: Libs, remote: Remote, actors: seq<Actor>, nextId: int, uri: string, now: int)
    requires rt.poolOk
    ensures remote.fetchActor(uri).None? ==>
              FetchActorByUriResult(rt, libs, remote, actors, nextId, uri, now) == (Err(FetchError), actors, nextId)
    ensures remote.fetchActor(uri).Some? && NewActorFromAp(libs, remote.fetchActor(uri).value).Err? ==>
              FetchActorByUriResult(rt, libs, remote, actors, nextId, uri, now) == (Err(InvalidForm), actors, nextId)
    ensures remote.fetchActor(uri).Some? && Convert(libs, remote, uri, remote.fetchActor(uri).value).Ok? ==>
              var n := Convert(libs, remote, uri, remote.fetchActor(uri).value).value;
              && (!rt.taskOk ==> FetchActorByUriResult(rt, libs, remote, actors, nextId, uri, now) == (Err(InternalError), actors, nextId))
              && (rt.taskOk && HasUri(actors, n.uri) ==>
                    FetchActorByUriResult(rt, libs, remote, actors, nextId, uri, now) == (Err(InsertError), actors, nextId))
  {
  }

  /** A fetched actor is stored under the document's id, with the WebFinger account's
      domain when the query about `uri` succeeds and the id's host otherwise, and is what
      `get_actor_by_uri` then returns for that id. */
  lemma FetchedActorStored(rt: Runtime, libs: Libs, remote: Remote, actors: seq<Actor>, nextId: int, uri: string, now: int)
    requires FetchActorByUriResult(rt, libs, remote, actors, nextId, uri, now).0.Ok?
    ensures remote.fetchActor(uri).Some?
    ensures var w := remote.fetchActor(uri).value;
            var r := FetchActorByUriResult(rt, libs, remote, actors, nextId, uri, now);
            var q := QueryWebfingerResult(libs, uri, remote.fetchWebfinger);
            && r.1 == actors + [r.0.value]
            && r.0.value.uri == w.id
            && (q.Ok? ==> r.0.value.domain == q.value.acct.domain)
            && (q.Err? ==> Some(r.0.value.domain) == libs.urlHost(w.id))
            && GetActorByUri(r.1, w.id) == r.0
  {
    var w := remote.fetchActor(uri).value;
    var n := Convert(libs, remote, uri, w).value;
    InsertedActorRetrievable(actors, nextId, n, now);
  }

  /** Once an actor whose document id is the asked uri has been fetched, asking again
      returns the stored copy without fetching. */
  lemma SecondAskIsLocal(rt: Runtime, libs: Libs, remote: Remote, later: Remote, actors: seq<Actor>, nextId: int, uri: string, now: int, t: int)
    requires rt.poolOk && rt.taskOk
    requires FetchActorByUriResult(rt, libs, remote, actors, nextId, uri, now).0.Ok?
    requires remote.fetchActor(uri).Some? && remote.fetchActor(uri).value.id == uri
    ensures var r := FetchActorByUriResult(rt, libs, remote, actors, nextId, uri, now);
            GetOrFetchResult(rt, libs, later, r.1, r.2, uri, t) == (r.0, r.1, r.2)
  {
    FetchedActorStored(rt, libs, remote, actors, nextId, uri, now);
  }


  /** `fetch_actor_by_uri` over the database. */
  method FetchActorByUri(db: Database, rt: Runtime, libs: Libs, remote: Remote, uri: string, now: int)
    returns (r: Result<Actor, ActionError>)
    requires db.Valid()
    modifies db
    ensures db.Valid() && db.follows == old(db.follows)
    ensures (r, db.actors, db.nextId) == FetchActorByUriResult(rt, libs, remote, old(db.actors), old(db.nextId), uri, now)
  {
    if !rt.poolOk {
      return Err(InternalError);
    }
    var fetched := FetchActor(remote, uri);
    if fetched.Err? {
      return Err(fetched.error);
    }
    var w := fetched.value;
    var query := QueryWebfinger(libs, uri, remote.fetchWebfinger);
    var converted := if query.Ok? then NewActorFromApWebfinger(libs, w, query.value) else NewActorFromAp(libs, w);
    if converted.Err? {
      return Err(InvalidForm);
    }
    if !rt.taskOk {
      return Err(InternalError);
    }
    var inserted := db.InsertNewActor(converted.value, now);
    if inserted.Err? {
      return Err(InsertError);
    }
    r := inserted;
  }

  /** `get_or_fetch_actor_by_uri` over the database. */
  method GetOrFetchActorByUri(db: Database, rt: Runtime, libs: Libs, remote: Remote, uri: string, now: int)
    returns (r: Result<Actor, ActionError>)
    requires db.Valid()
    modifies db
    ensures db.Valid() && db.follows == old(db.follows)
    ensures (r, db.actors, db.nextId) == GetOrFetchResult(rt, libs, remote, old(db.actors), old(db.nextId), uri, now)
  {
    if !rt.poolOk || !rt.taskOk {
      return Err(InternalError);
    }
    var lookup := GetActorByUri(db.actors, uri);
    match Choose(lookup)
    case Found(a) => r := Ok(a);
    case Fetch => r := FetchActorByUri(db, rt, libs, remote, uri, now);
    case Fail(e) => r := Err(e);
  }
}
