/**
  The client's like toggles against the server's like and unlike actions: when a card or an
  item shows what the server holds, the toggle's request succeeds, the server's count is the
  one the post card guessed optimistically, and afterwards the two agree again; when the
  client is out of date, the request fails and the card rolls back.
 */
module LikeSync {
  import opened Common
  import opened Models
  import opened Serializers
  import opened Views
  import opened ClientData
  import PostCard

  /** The API client resolves a 2xx response with its body and rejects any other status. */
  function ClientOutcome(resp: LikeResponse): (o: Outcome<LikeResult>)
    ensures o.Ok? <==> 200 <= resp.status < 300
    ensures o.Ok? ==> o.value.likeCount == resp.likeCount.GetOr(0)
  {
    if 200 <= resp.status < 300 then Ok(LikeResult(resp.likeCount.GetOr(0))) else Failed
  }

  /** The server side of one toggle: unlike when the client thought it liked, like otherwise. */
  function ServerToggle(db: Tables, who: Requester, kind: ContentType, pk: nat, wasLiked: bool,
                        integrityError: bool, now: int): Effect
    requires UniqueKeys(db.likes)
  {
    if wasLiked then UnlikeEffect(db, who, kind, pk) else LikeEffect(db, who, kind, pk, integrityError, now)
  }

  /** The client shows the server's state: the flag the serializer reports for this requester
      and the object's like count. */
  predicate InSync(db: Tables, who: Requester, kind: ContentType, pk: nat, liked: bool, count: int) {
    liked == IsLiked(Some(who), db.users, db.likes, kind, pk) && count == LikeCount(db.likes, kind, pk)
  }

  /** A requester who has a viewer acts as that viewer and creates no user. */
  lemma ViewerActs(who: Requester, users: seq<User>)
    requires Viewer(who, users).Some?
    ensures ActingUser(who, users) == (Viewer(who, users).value, users)
  {
  }

  /** In sync, a toggle succeeds with exactly the optimistic count, and the client (flag
      flipped, that count) is in sync with the server afterwards. */
  lemma ToggleInSync(db: Tables, who: Requester, kind: ContentType, pk: nat, liked: bool, count: int, now: int)
    requires UniqueKeys(db.likes) && ObjectExists(db.posts, db.comments, kind, pk)
    requires LikersExist(db.users, db.likes)
    requires InSync(db, who, kind, pk, liked, count)
    ensures
      var e := ServerToggle(db, who, kind, pk, liked, false, now);
      var (liked', count') := PostCard.OptimisticToggle(liked, count);
      && ClientOutcome(e.resp).Ok? && ClientOutcome(e.resp).value.likeCount == count'
      && InSync(Tables(e.users, db.posts, db.comments, e.likes), who, kind, pk, liked', count')
  {
    var (liked', count') := PostCard.OptimisticToggle(liked, count);
    assert liked' == !liked && count' == (if liked then count - 1 else count + 1);
    if liked {
      UnlikeInSync(db, who, kind, pk, count);
    } else {
      LikeInSync(db, who, kind, pk, count, now);
    }
  }

  /** A like from a card that shows the server's state and does not like the object: 201 with
      the count one higher, and the card in sync afterwards. This includes the first anonymous
      like, which creates the demo user. */
  lemma LikeInSync(db: Tables, who: Requester, kind: ContentType, pk: nat, count: int, now: int)
    requires UniqueKeys(db.likes) && ObjectExists(db.posts, db.comments, kind, pk)
    requires LikersExist(db.users, db.likes)
    requires InSync(db, who, kind, pk, false, count)
    ensures
      var e := LikeEffect(db, who, kind, pk, false, now);
      && ClientOutcome(e.resp).Ok? && ClientOutcome(e.resp).value.likeCount == count + 1
      && InSync(Tables(e.users, db.posts, db.comments, e.likes), who, kind, pk, true, count + 1)
  {
    var (uid, users) := ActingUser(who, db.users);
    if Viewer(who, db.users).Some? {
      ViewerActs(who, db.users);
    } else {
      FirstAnonymousActor(db.users, db.likes, kind, pk);
    }
    LikeEffectSpec(db, who, kind, pk, false, now);
    var e := LikeEffect(db, who, kind, pk, false, now);
    SyncAfter(db, who, kind, pk, uid, e.users, e.likes, true, count + 1);
    assert ClientOutcome(e.resp).Ok? && ClientOutcome(e.resp).value.likeCount == count + 1;
  }

  /** A table whose like key and count match the client's flag and count is in sync with it. */
  lemma SyncAfter(db: Tables, who: Requester, kind: ContentType, pk: nat, uid: nat,
                  users: seq<User>, likes: seq<LikeRow>, liked: bool, count: int)
    requires Viewer(who, users) == Some(uid)
    requires liked <==> LikeKey(uid, kind, pk) in KeySet(likes)
    requires count == LikeCount(likes, kind, pk)
    ensures InSync(Tables(users, db.posts, db.comments, likes), who, kind, pk, liked, count)
  {
  }

  /** The server side of a like by a user who holds none on the object. */
  lemma LikeFacts(db: Tables, who: Requester, kind: ContentType, pk: nat, uid: nat, now: int)
    requires UniqueKeys(db.likes) && ObjectExists(db.posts, db.comments, kind, pk)
    requires ActingUser(who, db.users) == (uid, db.users)
    requires LikeKey(uid, kind, pk) !in KeySet(db.likes)
    ensures
      var e := LikeEffect(db, who, kind, pk, false, now);
      && e.users == db.users
      && LikeKey(uid, kind, pk) in KeySet(e.likes)
      && e.resp.status == HttpCreated
      && e.resp.likeCount == Some(LikeCount(e.likes, kind, pk))
      && LikeCount(e.likes, kind, pk) == LikeCount(db.likes, kind, pk) + 1
  {
    LikeEffectSpec(db, who, kind, pk, false, now);
  }

  lemma UnlikeInSync(db: Tables, who: Requester, kind: ContentType, pk: nat, count: int)
    requires UniqueKeys(db.likes) && ObjectExists(db.posts, db.comments, kind, pk)
    requires Viewer(who, db.users).Some?
    requires InSync(db, who, kind, pk, true, count)
    ensures
      var e := UnlikeEffect(db, who, kind, pk);
      && ClientOutcome(e.resp).Ok? && ClientOutcome(e.resp).value.likeCount == count - 1
      && InSync(Tables(e.users, db.posts, db.comments, e.likes), who, kind, pk, false, count - 1)
  {
    var uid := Viewer(who, db.users).value;
    ViewerActs(who, db.users);
    UnlikeFacts(db, who, kind, pk, uid);
    var e := UnlikeEffect(db, who, kind, pk);
    SyncAfter(db, who, kind, pk, uid, e.users, e.likes, false, count - 1);
    assert ClientOutcome(e.resp).Ok? && ClientOutcome(e.resp).value.likeCount == count - 1;
  }

  /** The server side of an unlike by a user who holds the like. */
  lemma UnlikeFacts(db: Tables, who: Requester, kind: ContentType, pk: nat, uid: nat)
    requires UniqueKeys(db.likes) && ObjectExists(db.posts, db.comments, kind, pk)
    requires ActingUser(who, db.users) == (uid, db.users)
    requires LikeKey(uid, kind, pk) in KeySet(db.likes)
    ensures
      var e := UnlikeEffect(db, who, kind, pk);
      && e.users == db.users
      && LikeKey(uid, kind, pk) !in KeySet(e.likes)
      && e.resp.status == HttpOk
      && e.resp.likeCount == Some(LikeCount(e.likes, kind, pk))
      && LikeCount(e.likes, kind, pk) + 1 == LikeCount(db.likes, kind, pk)
  {
  }

  /** Out of sync, the toggle asks for the change the server already has (or cannot do), the
      server answers with an error and changes no like, and the client rolls back. */
  lemma StaleToggleFails(db: Tables, who: Requester, kind: ContentType, pk: nat, liked: bool,
                         integrityError: bool, now: int)
    requires UniqueKeys(db.likes)
    requires Viewer(who, db.users).Some?
    requires liked != IsLiked(Some(who), db.users, db.likes, kind, pk)
    ensures
      var e := ServerToggle(db, who, kind, pk, liked, integrityError, now);
      ClientOutcome(e.resp).Failed? && e.likes == db.likes
  {
    ViewerActs(who, db.users);
    LikeEffectSpec(db, who, kind, pk, integrityError, now);
    var key := LikeKey(Viewer(who, db.users).value, kind, pk);
    assert liked <==> key !in KeySet(db.likes);
  }

  /** A like whose `get_or_create` re-raised an IntegrityError (409) also fails on the
      client, which rolls back. */
  lemma ConflictFails(db: Tables, who: Requester, kind: ContentType, pk: nat, now: int)
    requires UniqueKeys(db.likes)
    ensures var e := LikeEffect(db, who, kind, pk, true, now);
      ClientOutcome(e.resp).Failed? && e.likes == db.likes
  {
    LikeEffectSpec(db, who, kind, pk, true, now);
  }
}
