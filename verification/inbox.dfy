/** The inbox (`post_inbox` and its handlers): decode the activity, insist that it comes
    from the authenticated actor, and dispatch on its type; `Follow` and `Undo` of a
    `Follow` change the follow table. */
module Inbox {
  import opened Wrappers
  import opened Json
  import opened Errors
  import opened DbModels
  import opened Db
  import opened DbLaws
  import opened ApubModels
  import opened ActorActions
  import opened Auth

  /** `get_uri`: an object reference given as a string, or as an object with a string
      `id`. */
  function GetUri(v: Value): (r: Option<string>)
    ensures v.Str? ==> r == Some(v.s)
    ensures v.Object? ==> (r.Some? <==> HasStr(v, "id")) && (r.Some? ==> Str(r.value) == v.fields["id"])
    ensures !v.Str? && !v.Object? ==> r == None
  {
    match v
    case Str(s) => Some(s)
    case Object(fields) => if "id" in fields then AsStr(fields["id"]) else None
    case _ => None
  }

  /** Both ways of writing a reference give the same uri. */
  lemma GetUriForms(uri: string, rest: map<string, Value>)
    ensures GetUri(Str(uri)) == GetUri(Object(rest["id" := Str(uri)])) == Some(uri)
  {
  }

  /** `post_inbox_follow`: the object must be a uri given as a string; the follower is the
      activity's actor. A store failure, a missing connection or a failed task is a plain
      rejection. */
  function InboxFollow(rt: Runtime, actors: seq<Actor>, follows: seq<Follow>, activity: Activity, now: int)
    : (r: (Result<(), Rejection>, seq<Follow>))
    ensures r.0.Err? ==> r.1 == follows && r.0.error == Reject
  {
    match AsStr(activity.obj)
    case None => (Err(Reject), follows)
    case Some(target) =>
      if !rt.poolOk || !rt.taskOk then (Err(Reject), follows)
      else
        match FollowResult(actors, follows, activity.actor, target, now)
        case (Err(_), _) => (Err(Reject), follows)
        case (Ok(_), follows') => (Ok(()), follows')
  }

  /** `post_inbox_undo_follow`: unfollows the nested activity's object on behalf of the
      outer activity's actor; a store error is passed on as a custom rejection. */
  function InboxUndoFollow(rt: Runtime, actors: seq<Actor>, follows: seq<Follow>, activity: Activity)
    : (r: (Result<(), Rejection>, seq<Follow>))
    ensures r.0.Err? ==> r.1 == follows
  {
    match DecodeActivity(activity.obj)
    case None => (Err(Custom(InvalidForm)), follows)
    case Some(inner) =>
      match AsStr(inner.obj)
      case None => (Err(Reject), follows)
      case Some(target) =>
        if !rt.poolOk || !rt.taskOk then (Err(Reject), follows)
        else
          match UnfollowResult(actors, follows, activity.actor, target)
          case (Err(e), _) => (Err(Custom(e)), follows)
          case (Ok(_), follows') => (Ok(()), follows')
  }

  /** `post_inbox_undo`: only the undoing of a follow is understood. */
  function InboxUndo(rt: Runtime, actors: seq<Actor>, follows: seq<Follow>, activity: Activity)
    : (r: (Result<(), Rejection>, seq<Follow>))
    ensures r.0.Err? ==> r.1 == follows
  {
    match DecodeActivity(activity.obj)
    case None => (Err(Custom(InvalidForm)), follows)
    case Some(inner) =>
      if inner.kind == "Follow" then InboxUndoFollow(rt, actors, follows, activity) else (Err(Reject), follows)
  }

  /** `post_inbox` for the authenticated `actor` and the request body, over the follow
      table. */
  function PostInboxResult(rt: Runtime, actors: seq<Actor>, follows: seq<Follow>, actor: Actor, body: Value, now: int)
    : (r: (Result<(), Rejection>, seq<Follow>))
    ensures r.0.Err? ==> r.1 == follows
  {
    match DecodeActivity(body)
    case None => (Err(Custom(InvalidForm)), follows)
    case Some(activity) =>
      if actor.uri != activity.actor then (Err(NotAuthenticated), follows)
      else if activity.kind == "Create" then (Err(Reject), follows)
      else if activity.kind == "Follow" then InboxFollow(rt, actors, follows, activity, now)
      else if activity.kind == "Undo" then InboxUndo(rt, actors, follows, activity)
      else (Err(Reject), follows)
  }

  /** A body that is not an activity is refused as an invalid form. */
  lemma UndecodableRefused(rt: Runtime, actors: seq<Actor>, follows: seq<Follow>, actor: Actor, body: Value, now: int)
    requires DecodeActivity(body).None?
    ensures PostInboxResult(rt, actors, follows, actor, body, now) == (Err(Custom(InvalidForm)), follows)
  {
  }

  /** An activity whose actor is not the signer is refused as not authenticated, exactly
      when `must_authenticate` would refuse it, and nothing is dispatched. */
  lemma ImpostorRefused(rt: Runtime, actors: seq<Actor>, follows: seq<Follow>, actor: Actor, body: Value, now: int)
    requires DecodeActivity(body).Some?
    ensures PostInboxResult(rt, actors, follows, actor, body, now).0 == Err(NotAuthenticated)
            <==> MustAuthenticate(actor, DecodeActivity(body).value).Err?
    ensures MustAuthenticate(actor, DecodeActivity(body).value).Err? ==>
              PostInboxResult(rt, actors, follows, actor, body, now).1 == follows
  {
  }

  /** `Create` and every type other than `Follow` and `Undo` are refused and change
      nothing. */
  lemma OtherKindsRefused(rt: Runtime, actors: seq<Actor>, follows: seq<Follow>, actor: Actor, body: Value, now: int)
    requires DecodeActivity(body).Some? && DecodeActivity(body).value.actor == actor.uri
    requires DecodeActivity(body).value.kind != "Follow" && DecodeActivity(body).value.kind != "Undo"
    ensures PostInboxResult(rt, actors, follows, actor, body, now) == (Err(Reject), follows)
  {
  }

  /** A `Follow` whose object is not a string is refused without touching the table; one
      whose object is a uri follows it on behalf of the signer. */
  lemma FollowDispatch(rt: Runtime, actors: seq<Actor>, follows: seq<Follow>, actor: Actor, body: Value, now: int)
    requires rt.poolOk && rt.taskOk
    requires DecodeActivity(body).Some? && DecodeActivity(body).value.actor == actor.uri
    requires DecodeActivity(body).value.kind == "Follow"
    ensures !DecodeActivity(body).value.obj.Str? ==> PostInboxResult(rt, actors, follows, actor, body, now) == (Err(Reject), follows)
    ensures DecodeActivity(body).value.obj.Str? ==>
              var f := FollowResult(actors, follows, actor.uri, DecodeActivity(body).value.obj.s, now);
              PostInboxResult(rt, actors, follows, actor, body, now) == (if f.0.Ok? then (Ok(()), f.1) else (Err(Reject), follows))
  {
  }

  /** An `Undo` whose object is not an activity is an invalid form, one that undoes
      anything but a follow is refused, and one that undoes a follow unfollows the nested
      object on behalf of the outer actor. */
  lemma UndoDispatch(rt: Runtime, actors: seq<Actor>, follows: seq<Follow>, actor: Actor, body: Value, now: int)
    requires rt.poolOk && rt.taskOk
    requires DecodeActivity(body).Some? && DecodeActivity(body).value.actor == actor.uri
    requires DecodeActivity(body).value.kind == "Undo"
    ensures var outer := DecodeActivity(body).value;
            && (DecodeActivity(outer.obj).None? ==> PostInboxResult(rt, actors, follows, actor, body, now) == (Err(Custom(InvalidForm)), follows))
            && (DecodeActivity(outer.obj).Some? && DecodeActivity(outer.obj).value.kind != "Follow" ==>
                  PostInboxResult(rt, actors, follows, actor, body, now) == (Err(Reject), follows))
            && (DecodeActivity(outer.obj).Some? && DecodeActivity(outer.obj).value.kind == "Follow" &&
                DecodeActivity(outer.obj).value.obj.Str? ==>
                  var u := UnfollowResult(actors, follows, outer.actor, DecodeActivity(outer.obj).value.obj.s);
                  PostInboxResult(rt, actors, follows, actor, body, now) == (if u.0.Ok? then (Ok(()), u.1) else (Err(Custom(u.0.error)), follows)))
  {
  }

  /** A `Follow` that succeeds, then an `Undo` of that same `Follow` from the same actor,
      leave the follow table as it was. */
  lemma FollowThenUndo(rt: Runtime, actors: seq<Actor>, follows: seq<Follow>, actor: Actor, follow: Activity, undo: Activity, t1: int, t2: int)
    requires rt.poolOk && rt.taskOk
    requires follow.context != Some(Null) && undo.context != Some(Null)
    requires follow.kind == "Follow" && follow.actor == actor.uri && follow.obj.Str?
    requires undo.kind == "Undo" && undo.actor == actor.uri && undo.obj == EncodeActivity(follow)
    requires PostInboxResult(rt, actors, follows, actor, EncodeActivity(follow), t1).0.Ok?
    ensures var after := PostInboxResult(rt, actors, follows, actor, EncodeActivity(follow), t1).1;
            PostInboxResult(rt, actors, after, actor, EncodeActivity(undo), t2) == (Ok(()), follows)
  {
    DecodeEncodeActivity(follow);
    DecodeEncodeActivity(undo);
    FollowThenUnfollow(actors, follows, actor.uri, follow.obj.s, t1);
  }

  /** `post_inbox` over the database. */
  method PostInbox(db: Database, rt: Runtime, actor: Actor, body: Value, now: int) returns (r: Result<(), Rejection>)
    requires db.Valid()
    modifies db
    ensures db.Valid() && db.actors == old(db.actors) && db.nextId == old(db.nextId)
    ensures (r, db.follows) == PostInboxResult(rt, old(db.actors), old(db.follows), actor, body, now)
  {
    var decoded := DecodeActivity(body);
    if decoded.None? {
      return Err(Custom(InvalidForm));
    }
    var activity := decoded.value;
    if actor.uri != activity.actor {
      return Err(NotAuthenticated);
    }
    if activity.kind == "Follow" {
      var target := AsStr(activity.obj);
      if target.None? || !rt.poolOk || !rt.taskOk {
        return Err(Reject);
      }
      var followed := db.FollowActorByUri(activity.actor, target.value, now);
      r := if followed.Ok? then Ok(()) else Err(Reject);
    } else if activity.kind == "Undo" {
      var inner := DecodeActivity(activity.obj);
      if inner.None? {
        return Err(Custom(InvalidForm));
      }
      if inner.value.kind != "Follow" {
        return Err(Reject);
      }
      var target := AsStr(inner.value.obj);
      if target.None? || !rt.poolOk || !rt.taskOk {
        return Err(Reject);
      }
      var unfollowed := db.UnfollowActorByUri(activity.actor, target.value);
      r := if unfollowed.Ok? then Ok(()) else Err(Custom(unfollowed.error));
    } else {
      r := Err(Reject);
    }
  }
}
