/** The store: lookups over the `actors` table, the `follows` table with its primary key
    `(follower_id, following_id)`, and the followers queries, over an in-memory
    `Database`. */
module Db {
  import opened Wrappers
  import opened DbModels
  import opened Errors

  // ---------------------------------------------------------------------------------------
  // Lookups (src/db/actions/actor.rs)

  /** How a diesel query fails: no row, or anything else (a lost connection, say). */
  datatype QueryError = RowNotFound | OtherQueryError

  /** The `map_err` of both lookups: no row is `NotFound`, every other failure is
      `InternalError`. */
  function LookupError(e: QueryError): (r: ActionError)
    ensures r == NotFound <==> e == RowNotFound
    ensures r != NotFound ==> r == InternalError
  {
    match e
    case RowNotFound => NotFound
    case OtherQueryError => InternalError
  }

  /** `.first(db)` over the rows that satisfy a filter: the first such row, in table
      order. */
  function FirstWhere(actors: seq<Actor>, p: Actor -> bool): (r: Result<Actor, QueryError>)
    ensures r.Ok? ==> exists i :: 0 <= i < |actors| && actors[i] == r.value && p(actors[i]) &&
                                  forall j :: 0 <= j < i ==> !p(actors[j])
    ensures r.Err? ==> r.error == RowNotFound && forall i :: 0 <= i < |actors| ==> !p(actors[i])
  {
    if |actors| == 0 then Err(RowNotFound)
    else if p(actors[0]) then Ok(actors[0])
    else
      match FirstWhere(actors[1..], p)
      case Err(e) => Err(e)
      case Ok(a) =>
        ghost var i :| 0 <= i < |actors[1..]| && actors[1..][i] == a && p(actors[1..][i]) &&
                       forall j :: 0 <= j < i ==> !p(actors[1..][j]);
        assert actors[i + 1] == a;
        assert forall j :: 1 <= j < i + 1 ==> actors[j] == actors[1..][j - 1];
        Ok(a)
  }

  /** `get_actor_by_uri`: the stored actor with that uri, or `NotFound`. */
  function GetActorByUri(actors: seq<Actor>, uri: string): (r: Result<Actor, ActionError>)
    ensures r.Ok? ==> r.value in actors && r.value.uri == uri
    ensures r.Err? <==> forall i :: 0 <= i < |actors| ==> actors[i].uri != uri
    ensures r.Err? ==> r.error == NotFound
  {
    match FirstWhere(actors, (a: Actor) => a.uri == uri)
    case Ok(a) => Ok(a)
    case Err(e) => Err(LookupError(e))
  }

  /** `get_actor_by_username_domain`: the first stored actor with both that username and
      that domain, or `NotFound`. */
  function GetActorByUsernameDomain(actors: seq<Actor>, username: string, domain: string): (r: Result<Actor, ActionError>)
    ensures r.Ok? ==> r.value in actors && r.value.username == username && r.value.domain == domain
    ensures r.Err? <==> forall i :: 0 <= i < |actors| ==> actors[i].username != username || actors[i].domain != domain
    ensures r.Err? ==> r.error == NotFound
  {
    match FirstWhere(actors, (a: Actor) => a.username == username && a.domain == domain)
    case Ok(a) => Ok(a)
    case Err(e) => Err(LookupError(e))
  }

  // ---------------------------------------------------------------------------------------
  // The follows table

  predicate SameKey(e: Follow, followerId: int, followingId: int) {
    e.followerId == followerId && e.followingId == followingId
  }

  predicate HasKey(follows: seq<Follow>, followerId: int, followingId: int) {
    exists i :: 0 <= i < |follows| && SameKey(follows[i], followerId, followingId)
  }

  /** The primary key: no two edges share `(follower_id, following_id)`. */
  predicate KeysDistinct(follows: seq<Follow>) {
    forall i, j :: 0 <= i < j < |follows| ==>
      !SameKey(follows[j], follows[i].followerId, follows[i].followingId)
  }

  /** The role of a new edge: pending when the followed actor approves followers by hand. */
  function RoleFor(following: Actor): (role: string)
    ensures role == PENDING <==> following.isLocked
    ensures role == FOLLOWER <==> !following.isLocked
  {
    if following.isLocked then PENDING else FOLLOWER
  }

  /** The edge `follow_actor_by_uri` inserts at time `now`. */
  function NewEdge(follower: Actor, following: Actor, now: int): Follow {
    Follow(follower.id, following.id, now, Some(now), RoleFor(following))
  }

  /** `insert_into(follows)`: refused with `InsertError` when the key is taken. */
  function InsertEdge(follows: seq<Follow>, e: Follow): (r: (Result<Follow, ActionError>, seq<Follow>))
    ensures HasKey(follows, e.followerId, e.followingId) ==> r == (Err(InsertError), follows)
    ensures !HasKey(follows, e.followerId, e.followingId) ==> r == (Ok(e), follows + [e])
  {
    if HasKey(follows, e.followerId, e.followingId) then (Err(InsertError), follows)
    else (Ok(e), follows + [e])
  }

  /** `follow_actor_by_uri` on the tables: the two lookups, then the insert. */
  function FollowResult(actors: seq<Actor>, follows: seq<Follow>, followerUri: string, followingUri: string, now: int)
    : (Result<Follow, ActionError>, seq<Follow>)
  {
    match GetActorByUri(actors, followerUri)
    case Err(e) => (Err(e), follows)
    case Ok(follower) =>
      match GetActorByUri(actors, followingUri)
      case Err(e) => (Err(e), follows)
      case Ok(following) => InsertEdge(follows, NewEdge(follower, following, now))
  }

  /** The edges that survive `delete(follows.filter(..))`: every edge but those with the
      key. */
  function Without(follows: seq<Follow>, followerId: int, followingId: int): (r: seq<Follow>)
    ensures forall i :: 0 <= i < |r| ==> r[i] in follows && !SameKey(r[i], followerId, followingId)
    ensures forall i :: 0 <= i < |follows| && !SameKey(follows[i], followerId, followingId) ==> follows[i] in r
    ensures |r| <= |follows|
  {
    if |follows| == 0 then []
    else
      var rest := Without(follows[1..], followerId, followingId);
      assert forall i :: 1 <= i < |follows| ==> follows[i] == follows[1..][i - 1];
      if SameKey(follows[0], followerId, followingId) then rest else [follows[0]] + rest
  }

  /** `unfollow_actor_by_uri` on the tables: the two lookups, then the delete, which succeeds
      whether or not an edge was there. */
  function UnfollowResult(actors: seq<Actor>, follows: seq<Follow>, followerUri: string, followingUri: string)
    : (Result<(), ActionError>, seq<Follow>)
  {
    match GetActorByUri(actors, followerUri)
    case Err(e) => (Err(e), follows)
    case Ok(follower) =>
      match GetActorByUri(actors, followingUri)
      case Err(e) => (Err(e), follows)
      case Ok(following) => (Ok(()), Without(follows, follower.id, following.id))
  }

  // ---------------------------------------------------------------------------------------
  // The followers queries (src/db/actions/follow.rs)

  const PAGE_SIZE: int := 12

  /** A row of `actors INNER JOIN follows`. */
  datatype Row = Row(actor: Actor, edge: Follow)

  /** Whether an edge is one the followers queries count: into `actorId`, not pending. */
  predicate Counted(e: Follow, actorId: int) {
    e.followingId == actorId && e.role != PENDING
  }

  /** The join: for each counted edge, in table order, the row of every actor whose id is
      the edge's follower. */
  function FollowerRows(actors: seq<Actor>, follows: seq<Follow>, actorId: int): seq<Row> {
    if |follows| == 0 then []
    else
      var e := follows[|follows| - 1];
      FollowerRows(actors, follows[..|follows| - 1], actorId)
      + (if Counted(e, actorId) then MatchingActors(actors, e) else [])
  }

  function MatchingActors(actors: seq<Actor>, e: Follow): (r: seq<Row>)
    ensures forall i :: 0 <= i < |r| ==> r[i].edge == e && r[i].actor in actors && r[i].actor.id == e.followerId
  {
    if |actors| == 0 then []
    else (if actors[0].id == e.followerId then [Row(actors[0], e)] else []) + MatchingActors(actors[1..], e)
  }

  /** `ORDER BY follows.created_at DESC` */
  predicate NewestFirst(rows: seq<Row>) {
    forall i, j :: 0 <= i < j < |rows| ==> rows[i].edge.createdAt >= rows[j].edge.createdAt
  }

  /** Puts `r` into `sorted` after every row at least as recent. */
  function InsertRow(sorted: seq<Row>, r: Row): (out: seq<Row>)
    ensures multiset(out) == multiset(sorted) + multiset{r}
  {
    if |sorted| == 0 then [r]
    else
      var last := sorted[|sorted| - 1];
      assert sorted[..|sorted| - 1] + [last] == sorted;
      if last.edge.createdAt >= r.edge.createdAt then sorted + [r]
      else InsertRow(sorted[..|sorted| - 1], r) + [last]
  }

  lemma {:induction false} InsertRowNewestFirst(sorted: seq<Row>, r: Row)
    requires NewestFirst(sorted)
    ensures NewestFirst(InsertRow(sorted, r))
  {
    if |sorted| > 0 {
      var last := sorted[|sorted| - 1];
      var init := sorted[..|sorted| - 1];
      if last.edge.createdAt < r.edge.createdAt {
        InsertRowNewestFirst(init, r);
        var mid := InsertRow(init, r);
        var out := mid + [last];
        forall i, j | 0 <= i < j < |out| ensures out[i].edge.createdAt >= out[j].edge.createdAt {
          if j == |out| - 1 {
            assert out[i] == mid[i] && mid[i] in multiset(mid);
            assert mid[i] in multiset(init) || mid[i] == r;
          } else {
            assert out[i] == mid[i] && out[j] == mid[j];
          }
        }
      }
    }
  }

  /** Sorting the join newest first; rows created at the same time keep their table
      order. */
  function SortNewestFirst(rows: seq<Row>): (out: seq<Row>)
    ensures multiset(out) == multiset(rows) && NewestFirst(out)
  {
    if |rows| == 0 then []
    else
      assert rows[..|rows| - 1] + [rows[|rows| - 1]] == rows;
      InsertRowNewestFirst(SortNewestFirst(rows[..|rows| - 1]), rows[|rows| - 1]);
      InsertRow(SortNewestFirst(rows[..|rows| - 1]), rows[|rows| - 1])
  }

  /** `actor_get_followers`: page `page` (from 1) of the join, newest first, twelve to a
      page. A page below 1 makes the offset negative, which the database refuses, and the
      refusal is reported as `NotFound`. */
  function ActorGetFollowers(actors: seq<Actor>, follows: seq<Follow>, actor: Actor, page: int): (r: Result<seq<Actor>, ActionError>)
    ensures page < 1 <==> r == Err(NotFound)
    ensures r.Ok? ==> |r.value| <= PAGE_SIZE
  {
    if page < 1 then Err(NotFound)
    else Ok(ActorsOf(PageOf(SortNewestFirst(FollowerRows(actors, follows, actor.id)), page)))
  }

  /** `OFFSET 12 * (page - 1) LIMIT 12` */
  function PageOf(rows: seq<Row>, page: int): (slice: seq<Row>)
    requires page >= 1
    ensures |slice| <= PAGE_SIZE
    ensures |slice| == 0 || PAGE_SIZE * (page - 1) + |slice| <= |rows|
    ensures forall i :: 0 <= i < |slice| ==> slice[i] == rows[PAGE_SIZE * (page - 1) + i]
  {
    var from := PAGE_SIZE * (page - 1);
    if from >= |rows| then []
    else rows[from..if from + PAGE_SIZE <= |rows| then from + PAGE_SIZE else |rows|]
  }

  /** The actor half of each row. */
  function ActorsOf(rows: seq<Row>): (r: seq<Actor>)
    ensures |r| == |rows| && forall i :: 0 <= i < |rows| ==> r[i] == rows[i].actor
  {
    seq(|rows|, i requires 0 <= i < |rows| => rows[i].actor)
  }

  /** `actor_count_followers`: the number of rows of the join. */
  function ActorCountFollowers(actors: seq<Actor>, follows: seq<Follow>, actor: Actor): (r: Result<int, ActionError>)
    ensures r.Ok? && r.value >= 0
  {
    Ok(|FollowerRows(actors, follows, actor.id)|)
  }

  // ---------------------------------------------------------------------------------------
  // Inserting actors

  /** The row `insert_new_actor` stores: the next id, the optional text columns defaulting
      to the empty string and the creation time to `now`. */
  function StoredActor(n: NewActor, id: int, now: int): Actor {
    Actor(id, n.uri, n.url, n.kind, n.username, n.domain, n.name.GetOr(""), n.summary.GetOr(""),
          n.avatarUrl.GetOr(""), n.inboxUri, n.outboxUri, n.followersUri, n.followingUri,
          n.publicKeyPem, n.createdAt.GetOr(now), n.updatedAt, n.lang, n.isLocked, n.isSuspended, n.isSilenced)
  }

  predicate HasUri(actors: seq<Actor>, uri: string) {
    exists i :: 0 <= i < |actors| && actors[i].uri == uri
  }

  /** `insert_new_actor` on the table and the id counter: refused with `InsertError` when
      the uri is already stored, otherwise the new row under the next id. */
  function InsertActorResult(actors: seq<Actor>, nextId: int, n: NewActor, now: int): (Result<Actor, ActionError>, seq<Actor>, int) {
    if HasUri(actors, n.uri) then (Err(InsertError), actors, nextId)
    else (Ok(StoredActor(n, nextId, now)), actors + [StoredActor(n, nextId, now)], nextId + 1)
  }

  // ---------------------------------------------------------------------------------------
  // The database

  class Database {
    var actors: seq<Actor>
    var follows: seq<Follow>
    var nextId: int

    /** Ids and uris identify actors, ids are below `nextId`, every edge joins two stored
        actors, and the follow keys are distinct. */
    ghost predicate Valid()
      reads this
    {
      (forall i, j :: 0 <= i < j < |actors| ==> actors[i].id != actors[j].id && actors[i].uri != actors[j].uri) &&
      (forall i :: 0 <= i < |actors| ==> actors[i].id < nextId) &&
      (forall k :: 0 <= k < |follows| ==> ActorIds(actors, follows[k])) &&
      KeysDistinct(follows)
    }

    constructor ()
      ensures Valid() && actors == [] && follows == []
    {
      actors := [];
      follows := [];
      nextId := 1;
    }

    /** `insert_new_actor` at time `now`; the uniqueness check is a pass over the table. */
    method InsertNewActor(n: NewActor, now: int) returns (r: Result<Actor, ActionError>)
      requires Valid()
      modifies this
      ensures Valid()
      ensures follows == old(follows)
      ensures (r, actors, nextId) == InsertActorResult(old(actors), old(nextId), n, now)
    {
      var i := 0;
      while i < |actors|
        invariant 0 <= i <= |actors|
        invariant forall j :: 0 <= j < i ==> actors[j].uri != n.uri
      {
        if actors[i].uri == n.uri {
          return Err(InsertError);
        }
        i := i + 1;
      }
      var a := StoredActor(n, nextId, now);
      actors := actors + [a];
      nextId := nextId + 1;
      forall k | 0 <= k < |follows| ensures ActorIds(actors, follows[k]) {
        ActorIdsGrow(old(actors), a, follows[k]);
      }
      r := Ok(a);
    }

    /** The primary-key check and insert of one edge. */
    method InsertFollow(e: Follow) returns (r: Result<Follow, ActionError>)
      requires Valid() && ActorIds(actors, e)
      modifies this
      ensures Valid()
      ensures actors == old(actors) && nextId == old(nextId)
      ensures (r, follows) == InsertEdge(old(follows), e)
    {
      var i := 0;
      while i < |follows|
        invariant 0 <= i <= |follows|
        invariant forall j :: 0 <= j < i ==> !SameKey(follows[j], e.followerId, e.followingId)
      {
        if SameKey(follows[i], e.followerId, e.followingId) {
          return Err(InsertError);
        }
        i := i + 1;
      }
      follows := follows + [e];
      r := Ok(e);
    }

    /** `follow_actor_by_uri` at time `now`. */
    method FollowActorByUri(followerUri: string, followingUri: string, now: int) returns (r: Result<Follow, ActionError>)
      requires Valid()
      modifies this
      ensures Valid()
      ensures actors == old(actors) && nextId == old(nextId)
      ensures (r, follows) == FollowResult(old(actors), old(follows), followerUri, followingUri, now)
    {
      var follower := GetActorByUri(actors, followerUri);
      if follower.Err? {
        return Err(follower.error);
      }
      var following := GetActorByUri(actors, followingUri);
      if following.Err? {
        return Err(following.error);
      }
      var e := Follow(follower.value.id, following.value.id, now, Some(now),
                      if following.value.isLocked then PENDING else FOLLOWER);
      r := InsertFollow(e);
    }

    /** `unfollow_actor_by_uri`: the delete is a pass over the table that keeps every other
        edge. */
    method UnfollowActorByUri(followerUri: string, followingUri: string) returns (r: Result<(), ActionError>)
      requires Valid()
      modifies this
      ensures Valid()
      ensures actors == old(actors) && nextId == old(nextId)
      ensures (r, follows) == UnfollowResult(old(actors), old(follows), followerUri, followingUri)
    {
      var follower := GetActorByUri(actors, followerUri);
      if follower.Err? {
        return Err(follower.error);
      }
      var following := GetActorByUri(actors, followingUri);
      if following.Err? {
        return Err(following.error);
      }
      var a, b := follower.value.id, following.value.id;
      var kept := DeleteEdges(follows, a, b);
      WithoutKeepsValid(actors, follows, a, b);
      follows := kept;
      r := Ok(());
    }
  }

  /** The pass of the delete over the table. */
  method DeleteEdges(follows: seq<Follow>, a: int, b: int) returns (kept: seq<Follow>)
    ensures kept == Without(follows, a, b)
  {
    kept := [];
    var i := 0;
    while i < |follows|
      invariant 0 <= i <= |follows|
      invariant kept == Without(follows[..i], a, b)
    {
      WithoutSnoc(follows[..i], follows[i], a, b);
      assert follows[..i + 1] == follows[..i] + [follows[i]];
      if !SameKey(follows[i], a, b) {
        kept := kept + [follows[i]];
      }
      i := i + 1;
    }
    assert follows[..|follows|] == follows;
  }

  /** The edge joins two stored actors. */
  predicate ActorIds(actors: seq<Actor>, e: Follow) {
    (exists i :: 0 <= i < |actors| && actors[i].id == e.followerId) &&
    (exists i :: 0 <= i < |actors| && actors[i].id == e.followingId)
  }

  lemma ActorIdsGrow(actors: seq<Actor>, a: Actor, e: Follow)
    requires ActorIds(actors, e)
    ensures ActorIds(actors + [a], e)
  {
    var i :| 0 <= i < |actors| && actors[i].id == e.followerId;
    var j :| 0 <= j < |actors| && actors[j].id == e.followingId;
    assert (actors + [a])[i] == actors[i] && (actors + [a])[j] == actors[j];
  }

  lemma {:induction false} WithoutSnoc(follows: seq<Follow>, e: Follow, a: int, b: int)
    ensures Without(follows + [e], a, b) == Without(follows, a, b) + (if SameKey(e, a, b) then [] else [e])
  {
    if |follows| > 0 {
      assert (follows + [e])[1..] == follows[1..] + [e];
      WithoutSnoc(follows[1..], e, a, b);
    }
  }

  /** Deleting edges keeps the table valid. */
  lemma WithoutKeepsValid(actors: seq<Actor>, follows: seq<Follow>, a: int, b: int)
    requires forall k :: 0 <= k < |follows| ==> ActorIds(actors, follows[k])
    requires KeysDistinct(follows)
    ensures forall k :: 0 <= k < |Without(follows, a, b)| ==> ActorIds(actors, Without(follows, a, b)[k])
    ensures KeysDistinct(Without(follows, a, b))
  {
    var r := Without(follows, a, b);
    forall k | 0 <= k < |r| ensures ActorIds(actors, r[k]) {
      var j :| 0 <= j < |follows| && follows[j] == r[k];
    }
    WithoutKeepsDistinct(follows, a, b);
  }

  lemma {:induction false} WithoutKeepsDistinct(follows: seq<Follow>, a: int, b: int)
    requires KeysDistinct(follows)
    ensures KeysDistinct(Without(follows, a, b))
  {
    if |follows| > 0 {
      WithoutKeepsDistinct(follows[1..], a, b);
      var rest := Without(follows[1..], a, b);
      if !SameKey(follows[0], a, b) {
        var r := [follows[0]] + rest;
        forall i, j | 0 <= i < j < |r| ensures !SameKey(r[j], r[i].followerId, r[i].followingId) {
          if i == 0 {
            assert r[j] == rest[j - 1] && rest[j - 1] in follows[1..];
          } else {
            assert r[i] == rest[i - 1] && r[j] == rest[j - 1];
          }
        }
      }
    }
  }
}
