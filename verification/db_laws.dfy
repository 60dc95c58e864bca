/** What the store promises across calls: the role rule, the lookup and primary-key
    failures, follow then unfollow, and the followers queries. */
module DbLaws {
  import opened Wrappers
  import opened DbModels
  import opened Errors
  import opened Db

  /** A successful follow appends one edge, between the two looked-up actors, stamped `now`,
      pending exactly when the followed actor is locked. */
  lemma FollowAppendsEdge(actors: seq<Actor>, follows: seq<Follow>, followerUri: string, followingUri: string, now: int)
    requires FollowResult(actors, follows, followerUri, followingUri, now).0.Ok?
    ensures GetActorByUri(actors, followerUri).Ok? && GetActorByUri(actors, followingUri).Ok?
    ensures var e := FollowResult(actors, follows, followerUri, followingUri, now).0.value;
            var target := GetActorByUri(actors, followingUri).value;
            && e.followerId == GetActorByUri(actors, followerUri).value.id
            && e.followingId == target.id
            && e.createdAt == now && e.updatedAt == Some(now)
            && (e.role == PENDING <==> target.isLocked)
            && FollowResult(actors, follows, followerUri, followingUri, now).1 == follows + [e]
  {
  }

  /** Either uri unknown: both operations fail with `NotFound` and no edge changes. */
  lemma UnknownActorChangesNothing(actors: seq<Actor>, follows: seq<Follow>, followerUri: string, followingUri: string, now: int)
    requires !HasUri(actors, followerUri) || !HasUri(actors, followingUri)
    ensures FollowResult(actors, follows, followerUri, followingUri, now) == (Err(NotFound), follows)
    ensures UnfollowResult(actors, follows, followerUri, followingUri) == (Err(NotFound), follows)
  {
    if !HasUri(actors, followerUri) {
      assert GetActorByUri(actors, followerUri).Err?;
    } else {
      assert GetActorByUri(actors, followingUri).Err?;
    }
  }

  /** Following a pair that is already an edge is refused with `InsertError`. */
  lemma FollowTwiceRefused(actors: seq<Actor>, follows: seq<Follow>, followerUri: string, followingUri: string, t1: int, t2: int)
    requires FollowResult(actors, follows, followerUri, followingUri, t1).0.Ok?
    ensures var after := FollowResult(actors, follows, followerUri, followingUri, t1).1;
            FollowResult(actors, after, followerUri, followingUri, t2) == (Err(InsertError), after)
  {
    var r := FollowResult(actors, follows, followerUri, followingUri, t1);
    var after := r.1;
    assert after == follows + [r.0.value];
    assert SameKey(after[|follows|], r.0.value.followerId, r.0.value.followingId);
  }

  lemma {:induction false} WithoutAbsent(follows: seq<Follow>, a: int, b: int)
    requires !HasKey(follows, a, b)
    ensures Without(follows, a, b) == follows
  {
    if |follows| > 0 {
      assert forall i :: 0 <= i < |follows[1..]| ==> follows[1..][i] == follows[i + 1];
      WithoutAbsent(follows[1..], a, b);
      assert !SameKey(follows[0], a, b);
    }
  }

  /** Unfollowing right after a successful follow restores the table. */
  lemma FollowThenUnfollow(actors: seq<Actor>, follows: seq<Follow>, followerUri: string, followingUri: string, now: int)
    requires FollowResult(actors, follows, followerUri, followingUri, now).0.Ok?
    ensures UnfollowResult(actors, FollowResult(actors, follows, followerUri, followingUri, now).1, followerUri, followingUri)
            == (Ok(()), follows)
  {
    var follower := GetActorByUri(actors, followerUri).value;
    var following := GetActorByUri(actors, followingUri).value;
    var e := NewEdge(follower, following, now);
    assert !HasKey(follows, e.followerId, e.followingId);
    assert FollowResult(actors, follows, followerUri, followingUri, now).1 == follows + [e];
    WithoutSnoc(follows, e, follower.id, following.id);
    WithoutAbsent(follows, follower.id, following.id);
    assert Without(follows + [e], follower.id, following.id) == follows;
  }

  /** A successful unfollow leaves no edge with the pair, keeps every other edge and adds
      none. */
  lemma UnfollowRemovesExactly(actors: seq<Actor>, follows: seq<Follow>, followerUri: string, followingUri: string)
    requires UnfollowResult(actors, follows, followerUri, followingUri).0.Ok?
    ensures var a := GetActorByUri(actors, followerUri).value.id;
            var b := GetActorByUri(actors, followingUri).value.id;
            var after := UnfollowResult(actors, follows, followerUri, followingUri).1;
            && !HasKey(after, a, b)
            && (forall e :: e in follows && !SameKey(e, a, b) ==> e in after)
            && (forall e :: e in after ==> e in follows)
  {
  }

  // ---------------------------------------------------------------------------------------
  // The followers queries

  /** Actor ids are distinct and every edge's follower is stored. */
  predicate Joinable(actors: seq<Actor>, follows: seq<Follow>) {
    (forall i, j :: 0 <= i < j < |actors| ==> actors[i].id != actors[j].id) &&
    (forall k :: 0 <= k < |follows| ==> exists i :: 0 <= i < |actors| && actors[i].id == follows[k].followerId)
  }

  /** The reference count: the edges into `actorId` that are not pending. */
  function CountedEdges(follows: seq<Follow>, actorId: int): nat {
    if |follows| == 0 then 0
    else CountedEdges(follows[..|follows| - 1], actorId) + (if Counted(follows[|follows| - 1], actorId) then 1 else 0)
  }

  lemma {:induction false} MatchingUnique(actors: seq<Actor>, e: Follow, a: Actor)
    requires forall i, j :: 0 <= i < j < |actors| ==> actors[i].id != actors[j].id
    requires a in actors && a.id == e.followerId
    ensures MatchingActors(actors, e) == [Row(a, e)]
  {
    assert forall i :: 1 <= i < |actors| ==> actors[i] == actors[1..][i - 1];
    if actors[0] == a {
      MatchingNone(actors[1..], e);
    } else {
      MatchingUnique(actors[1..], e, a);
    }
  }

  lemma {:induction false} MatchingNone(actors: seq<Actor>, e: Follow)
    requires forall i :: 0 <= i < |actors| ==> actors[i].id != e.followerId
    ensures MatchingActors(actors, e) == []
  {
    if |actors| > 0 {
      assert forall i :: 0 <= i < |actors[1..]| ==> actors[1..][i] == actors[i + 1];
      MatchingNone(actors[1..], e);
    }
  }

  /** `actor_count_followers` counts exactly the non-pending edges into the actor. */
  lemma {:induction false} CountIsCountedEdges(actors: seq<Actor>, follows: seq<Follow>, actor: Actor)
    requires Joinable(actors, follows)
    ensures ActorCountFollowers(actors, follows, actor) == Ok(CountedEdges(follows, actor.id))
  {
    if |follows| > 0 {
      var init := follows[..|follows| - 1];
      var e := follows[|follows| - 1];
      assert forall k :: 0 <= k < |init| ==> init[k] == follows[k];
      CountIsCountedEdges(actors, init, actor);
      if Counted(e, actor.id) {
        var i :| 0 <= i < |actors| && actors[i].id == e.followerId;
        MatchingUnique(actors, e, actors[i]);
      }
    }
  }

  lemma {:induction false} RowsSound(actors: seq<Actor>, follows: seq<Follow>, actorId: int)
    ensures forall r :: r in FollowerRows(actors, follows, actorId) ==>
              r.actor in actors && r.edge in follows && Counted(r.edge, actorId) && r.edge.followerId == r.actor.id
  {
    if |follows| > 0 {
      var init := follows[..|follows| - 1];
      RowsSound(actors, init, actorId);
      assert forall e :: e in init ==> e in follows;
    }
  }

  /** Every actor on a followers page is a stored actor that follows `actor` through a
      non-pending edge. */
  lemma PageHoldsFollowers(actors: seq<Actor>, follows: seq<Follow>, actor: Actor, page: int)
    requires ActorGetFollowers(actors, follows, actor, page).Ok?
    ensures forall a :: a in ActorGetFollowers(actors, follows, actor, page).value ==>
              a in actors && exists k :: 0 <= k < |follows| && Counted(follows[k], actor.id) && follows[k].followerId == a.id
  {
    var rows := SortNewestFirst(FollowerRows(actors, follows, actor.id));
    RowsSound(actors, follows, actor.id);
    var slice := PageOf(rows, page);
    forall a | a in ActorsOf(slice)
      ensures a in actors && exists k :: 0 <= k < |follows| && Counted(follows[k], actor.id) && follows[k].followerId == a.id
    {
      var i :| 0 <= i < |slice| && slice[i].actor == a;
      var row := rows[PAGE_SIZE * (page - 1) + i];
      assert row in multiset(rows);
      assert row in FollowerRows(actors, follows, actor.id);
      var k :| 0 <= k < |follows| && follows[k] == row.edge;
    }
  }

  /** Paging misses no follower: the row of rank `k` in the newest-first order is entry
      `k % 12` of page `k / 12 + 1`. */
  lemma RowOnItsPage(actors: seq<Actor>, follows: seq<Follow>, actor: Actor, k: int)
    requires 0 <= k < |SortNewestFirst(FollowerRows(actors, follows, actor.id))|
    ensures ActorGetFollowers(actors, follows, actor, k / PAGE_SIZE + 1).Ok?
    ensures var page := ActorGetFollowers(actors, follows, actor, k / PAGE_SIZE + 1).value;
            && k % PAGE_SIZE < |page|
            && page[k % PAGE_SIZE] == SortNewestFirst(FollowerRows(actors, follows, actor.id))[k].actor
  {
    var rows := SortNewestFirst(FollowerRows(actors, follows, actor.id));
    RowInPageOf(rows, k);
    assert ActorGetFollowers(actors, follows, actor, k / PAGE_SIZE + 1).value == ActorsOf(PageOf(rows, k / PAGE_SIZE + 1));
  }

  lemma RowInPageOf(rows: seq<Row>, k: int)
    requires 0 <= k < |rows|
    ensures k % PAGE_SIZE < |PageOf(rows, k / PAGE_SIZE + 1)|
    ensures PageOf(rows, k / PAGE_SIZE + 1)[k % PAGE_SIZE] == rows[k]
  {
    var from := PAGE_SIZE * (k / PAGE_SIZE);
    assert from + k % PAGE_SIZE == k;
  }

  lemma {:induction false} NoCountedNoRows(actors: seq<Actor>, follows: seq<Follow>, actorId: int)
    requires forall k :: 0 <= k < |follows| ==> !Counted(follows[k], actorId)
    ensures FollowerRows(actors, follows, actorId) == []
  {
    if |follows| > 0 {
      NoCountedNoRows(actors, follows[..|follows| - 1], actorId);
    }
  }

  lemma SingleRowPage(actors: seq<Actor>, follows: seq<Follow>, actor: Actor, row: Row)
    requires FollowerRows(actors, follows, actor.id) == [row]
    ensures ActorGetFollowers(actors, follows, actor, 1) == Ok([row.actor])
    ensures ActorCountFollowers(actors, follows, actor) == Ok(1)
  {
    assert SortNewestFirst([row]) == [row] by {
      assert [row][..0] == [];
    }
    assert PageOf([row], 1) == [row];
    assert ActorsOf([row]) == [row.actor];
  }

  /** Following an unlocked actor that has no followers yet makes the follower the whole of
      page 1 and the count 1. */
  lemma FirstFollowerOnPageOne(actors: seq<Actor>, follows: seq<Follow>, followerUri: string, followingUri: string, now: int)
    requires forall i, j :: 0 <= i < j < |actors| ==> actors[i].id != actors[j].id
    requires FollowResult(actors, follows, followerUri, followingUri, now).0.Ok?
    requires !GetActorByUri(actors, followingUri).value.isLocked
    requires forall k :: 0 <= k < |follows| ==> !Counted(follows[k], GetActorByUri(actors, followingUri).value.id)
    ensures var target := GetActorByUri(actors, followingUri).value;
            var after := FollowResult(actors, follows, followerUri, followingUri, now).1;
            && ActorGetFollowers(actors, after, target, 1) == Ok([GetActorByUri(actors, followerUri).value])
            && ActorCountFollowers(actors, after, target) == Ok(1)
  {
    var follower := GetActorByUri(actors, followerUri).value;
    var target := GetActorByUri(actors, followingUri).value;
    var e := NewEdge(follower, target, now);
    var after := follows + [e];
    assert FollowResult(actors, follows, followerUri, followingUri, now).1 == after;
    assert after[..|after| - 1] == follows;
    NoCountedNoRows(actors, follows, target.id);
    MatchingUnique(actors, e, follower);
    assert Counted(e, target.id);
    assert FollowerRows(actors, after, target.id) == [Row(follower, e)];
    SingleRowPage(actors, after, target, Row(follower, e));
  }

  // ---------------------------------------------------------------------------------------
  // Actors

  /** An inserted actor is what `get_actor_by_uri` then returns for its uri; inserting a
      uri that is already stored is refused and changes nothing. */
  lemma InsertedActorRetrievable(actors: seq<Actor>, nextId: int, n: NewActor, now: int)
    ensures var res := InsertActorResult(actors, nextId, n, now);
            && (HasUri(actors, n.uri) <==> res.0 == Err(InsertError))
            && (res.0.Err? ==> res.1 == actors)
            && (res.0.Ok? ==> res.0.value.uri == n.uri && GetActorByUri(res.1, n.uri) == res.0)
  {
    if !HasUri(actors, n.uri) {
      var a := StoredActor(n, nextId, now);
      var grown := actors + [a];
      assert grown[|actors|].uri == n.uri;
      var r := GetActorByUri(grown, n.uri);
      var k :| 0 <= k < |grown| && grown[k] == r.value;
      assert forall j :: 0 <= j < |actors| ==> grown[j] == actors[j];
      assert k == |actors|;
    }
  }
}
