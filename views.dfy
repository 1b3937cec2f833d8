/**
  The REST views (feed/views.py): liking and unliking a post or a comment as operations on the
  like table with their status codes, retrieving one post, the leaderboard response, and the
  page-number pagination of the post list.
 */
module Views {
  import opened Common
  import opened Models
  import opened Karma
  import opened Serializers

  const HttpOk: nat := 200
  const HttpCreated: nat := 201
  const HttpBadRequest: nat := 400
  const HttpNotFound: nat := 404
  const HttpConflict: nat := 409

  lemma KeySetSnoc(likes: seq<LikeRow>, row: LikeRow)
    ensures KeySet(likes + [row]) == KeySet(likes) + {row.key}
  {
    assert (likes + [row])[..|likes|] == likes;
  }

  /** `Like.objects.get_or_create(...)`: insert the like unless its key is already present. */
  function AddLike(likes: seq<LikeRow>, key: LikeKey, now: int): (r: seq<LikeRow>)
    ensures KeySet(r) == KeySet(likes) + {key}
    ensures |r| == |likes| + (if key in KeySet(likes) then 0 else 1) && r[..|likes|] == likes
  {
    KeySetSnoc(likes, LikeRow(key, now));
    if key in KeySet(likes) then likes else likes + [LikeRow(key, now)]
  }

  /** Adding a like keeps the table free of duplicate keys. */
  lemma AddLikeKeepsUnique(likes: seq<LikeRow>, key: LikeKey, now: int)
    requires UniqueKeys(likes)
    ensures UniqueKeys(AddLike(likes, key, now))
  {
  }

  /** A new like raises the like count of its own target by one and of no other target. */
  lemma {:induction false} AddLikeCount(likes: seq<LikeRow>, key: LikeKey, now: int, contentType: ContentType, objectId: nat)
    requires key !in KeySet(likes)
    ensures LikeCount(AddLike(likes, key, now), contentType, objectId)
            == LikeCount(likes, contentType, objectId)
               + (if key.contentType == contentType && key.objectId == objectId then 1 else 0)
  {
    var r := AddLike(likes, key, now);
    assert r[..|r| - 1] == likes;
  }

  /** `like.delete()`: remove the rows carrying the key (by uniqueness, at most one). */
  function RemoveLike(likes: seq<LikeRow>, key: LikeKey): (r: seq<LikeRow>)
    ensures KeySet(r) == KeySet(likes) - {key}
    ensures |r| <= |likes|
  {
    if likes == [] then []
    else
      var last := likes[|likes| - 1];
      var rest := RemoveLike(likes[..|likes| - 1], key);
      assert likes == likes[..|likes| - 1] + [last];
      RemoveStepKeys(likes[..|likes| - 1], last, rest, key);
      if last.key == key then rest else rest + [last]
  }

  /** One step of `RemoveLike`: dropping the last row when it carries the key, keeping it
      otherwise, removes the key from the table's keys. */
  lemma RemoveStepKeys(init: seq<LikeRow>, last: LikeRow, rest: seq<LikeRow>, key: LikeKey)
    requires KeySet(rest) == KeySet(init) - {key}
    ensures KeySet(if last.key == key then rest else rest + [last]) == KeySet(init + [last]) - {key}
  {
    KeySetSnoc(rest, last);
    KeySetSnoc(init, last);
  }

  /** Removing a key that is absent changes nothing. */
  lemma {:induction false} RemoveAbsent(likes: seq<LikeRow>, key: LikeKey)
    requires key !in KeySet(likes)
    ensures RemoveLike(likes, key) == likes
  {
    if likes != [] {
      var init := likes[..|likes| - 1];
      var last := likes[|likes| - 1];
      assert likes == init + [last];
      KeySetSnoc(init, last);
      RemoveAbsent(init, key);
    }
  }

  lemma UniqueSnoc(likes: seq<LikeRow>, row: LikeRow)
    requires UniqueKeys(likes) && row.key !in KeySet(likes)
    ensures UniqueKeys(likes + [row])
  {
  }

  /** Removing a like keeps the table free of duplicate keys. */
  lemma {:induction false} RemoveLikeKeepsUnique(likes: seq<LikeRow>, key: LikeKey)
    requires UniqueKeys(likes)
    ensures UniqueKeys(RemoveLike(likes, key))
  {
    if likes != [] {
      var init := likes[..|likes| - 1];
      var last := likes[|likes| - 1];
      RemoveLikeKeepsUnique(init, key);
      if last.key != key {
        assert last.key !in KeySet(init);
        UniqueSnoc(RemoveLike(init, key), last);
      }
    }
  }

  /** Removing a present like lowers the like count of its own target by one and of no other
      target. */
  lemma {:induction false} RemoveLikeCount(likes: seq<LikeRow>, key: LikeKey, contentType: ContentType, objectId: nat)
    requires UniqueKeys(likes)
    ensures LikeCount(RemoveLike(likes, key), contentType, objectId)
            + (if key in KeySet(likes) && key.contentType == contentType && key.objectId == objectId then 1 else 0)
            == LikeCount(likes, contentType, objectId)
  {
    if likes != [] {
      var init := likes[..|likes| - 1];
      var last := likes[|likes| - 1];
      var rest := RemoveLike(init, key);
      RemoveLikeCount(init, key, contentType, objectId);
      if last.key == key {
        assert key !in KeySet(init);
        RemoveAbsent(init, key);
      } else {
        assert (rest + [last])[..|rest|] == rest;
      }
    }
  }

  /** Unliking right after a successful like restores the table exactly. */
  lemma UnlikeUndoesLike(likes: seq<LikeRow>, key: LikeKey, now: int)
    requires key !in KeySet(likes)
    ensures RemoveLike(AddLike(likes, key, now), key) == likes
  {
    var r := AddLike(likes, key, now);
    assert r[..|r| - 1] == likes;
    RemoveAbsent(likes, key);
  }

  /** Liking right after a successful unlike restores the set of likes. */
  lemma LikeUndoesUnlike(likes: seq<LikeRow>, key: LikeKey, now: int)
    requires key in KeySet(likes)
    ensures KeySet(AddLike(RemoveLike(likes, key), key, now)) == KeySet(likes)
  {
  }

  /** The object a like or unlike request names exists (`get_object_or_404`). */
  predicate ObjectExists(posts: seq<PostRow>, comments: seq<CommentRow>, kind: ContentType, pk: nat) {
    if kind == PostType then exists i :: 0 <= i < |posts| && posts[i].id == pk
    else exists i :: 0 <= i < |comments| && comments[i].id == pk
  }

  function Noun(kind: ContentType): string {
    if kind == PostType then "post" else "comment"
  }

  function Capitalized(kind: ContentType): string {
    if kind == PostType then "Post" else "Comment"
  }

  /** A response of the like and unlike actions: status, message (or error), `like_count`. */
  datatype LikeResponse = LikeResponse(status: nat, message: string, likeCount: Option<nat>)

  const NotFoundResponse := LikeResponse(HttpNotFound, "Not found.", None)

  function PostById(posts: seq<PostRow>, pk: nat): (r: Option<PostRow>)
    ensures r.Some? ==> r.value in posts && r.value.id == pk
    ensures r.None? <==> forall i :: 0 <= i < |posts| ==> posts[i].id != pk
  {
    if posts == [] then None else if posts[0].id == pk then Some(posts[0]) else PostById(posts[1..], pk)
  }

  /** A user appended to the table leaves every earlier lookup unchanged. */
  lemma FindUserAppend(users: seq<User>, u: User, id: nat)
    requires FindUser(users, id).Some?
    ensures FindUser(users + [u], id) == FindUser(users, id)
  {
    if users[0].id != id {
      assert (users + [u])[1..] == users[1..] + [u];
      FindUserAppend(users[1..], u, id);
    }
  }

  /** What a like or unlike request returns and leaves behind in the user and like tables. */
  datatype Effect = Effect(resp: LikeResponse, users: seq<User>, likes: seq<LikeRow>)

  /** The count a 409 reports: the rolled-back transaction's own insert is gone, but the
      concurrent request's like of the same object is committed and counted. */
  function CountWithRival(likes: seq<LikeRow>, kind: ContentType, pk: nat): nat {
    LikeCount(likes, kind, pk) + 1
  }

  /** `PostViewSet.like` and `CommentViewSet.like`: 404 for a missing object; otherwise insert
      the acting user's like (201), report an existing one (400), or answer 409 when
      `get_or_create` re-raises the IntegrityError of its insert, which the input
      `integrityError` stands for. `like_count` is counted after the change; after a 409 it
      includes the like the concurrent request committed. `LikeEffectSpec` states each case. */
  function LikeEffect(db: Tables, who: Requester, kind: ContentType, pk: nat, integrityError: bool, now: int)
    : (e: Effect)
    requires UniqueKeys(db.likes)
    ensures UniqueKeys(e.likes)
  {
    if !ObjectExists(db.posts, db.comments, kind, pk) then Effect(NotFoundResponse, db.users, db.likes)
    else
      var (uid, users) := ActingUser(who, db.users);
      var key := LikeKey(uid, kind, pk);
      if key in KeySet(db.likes) then
        Effect(LikeResponse(HttpBadRequest, "You have already liked this " + Noun(kind),
                            Some(LikeCount(db.likes, kind, pk))), users, db.likes)
      else if integrityError then
        Effect(LikeResponse(HttpConflict, "Concurrency error - please try again",
                            Some(CountWithRival(db.likes, kind, pk))), users, db.likes)
      else
        var likes := AddLike(db.likes, key, now);
        AddLikeKeepsUnique(db.likes, key, now);
        Effect(LikeResponse(HttpCreated, Capitalized(kind) + " liked successfully",
                            Some(LikeCount(likes, kind, pk))), users, likes)
  }

  /** The cases of a like: 404 exactly for a missing object; otherwise 201 exactly when the
      acting user's like is new and `get_or_create` raises nothing, with the key added and the
      count one higher; 400 exactly when the like exists, and 409 exactly when the like is new
      but `get_or_create` re-raised an IntegrityError, both with the table unchanged. */
  lemma LikeEffectSpec(db: Tables, who: Requester, kind: ContentType, pk: nat, integrityError: bool, now: int)
    requires UniqueKeys(db.likes)
    ensures var e := LikeEffect(db, who, kind, pk, integrityError, now);
      && (e.resp.status == HttpNotFound <==> !ObjectExists(db.posts, db.comments, kind, pk))
      && (!ObjectExists(db.posts, db.comments, kind, pk) ==> e.users == db.users && e.likes == db.likes)
      && (ObjectExists(db.posts, db.comments, kind, pk) ==>
        var key := LikeKey(ActingUser(who, db.users).0, kind, pk);
        && e.users == ActingUser(who, db.users).1
        && (e.resp.status == HttpCreated <==> key !in KeySet(db.likes) && !integrityError)
        && (e.resp.status == HttpBadRequest <==> key in KeySet(db.likes))
        && (e.resp.status == HttpConflict <==> key !in KeySet(db.likes) && integrityError)
        && (e.resp.status == HttpCreated ==>
              && KeySet(e.likes) == KeySet(db.likes) + {key}
              && |e.likes| == |db.likes| + 1
              && LikeCount(e.likes, kind, pk) == LikeCount(db.likes, kind, pk) + 1
              && e.resp.likeCount == Some(LikeCount(e.likes, kind, pk)))
        && (e.resp.status != HttpCreated ==> e.likes == db.likes))
  {
    if ObjectExists(db.posts, db.comments, kind, pk) {
      var key := LikeKey(ActingUser(who, db.users).0, kind, pk);
      if key !in KeySet(db.likes) && !integrityError {
        AddLikeCount(db.likes, key, now, kind, pk);
      }
    }
  }

  /** The counts a refused like reports: 400 reports the object's likes as they stand, and
      409 reports one more, the like the concurrent request committed. */
  lemma LikeEffectCounts(db: Tables, who: Requester, kind: ContentType, pk: nat, integrityError: bool, now: int)
    requires UniqueKeys(db.likes)
    ensures var e := LikeEffect(db, who, kind, pk, integrityError, now);
      && (e.resp.status == HttpBadRequest ==> e.resp.likeCount == Some(LikeCount(db.likes, kind, pk)))
      && (e.resp.status == HttpConflict ==> e.resp.likeCount == Some(LikeCount(db.likes, kind, pk) + 1))
  {
  }

  /** `PostViewSet.unlike` and `CommentViewSet.unlike`: 404 for a missing object; otherwise
      delete the acting user's like (200) or report that there is none (400). `like_count` is
      counted after the change. */
  function UnlikeEffect(db: Tables, who: Requester, kind: ContentType, pk: nat): (e: Effect)
    requires UniqueKeys(db.likes)
    ensures UniqueKeys(e.likes)
    ensures e.resp.status == HttpNotFound <==> !ObjectExists(db.posts, db.comments, kind, pk)
    ensures !ObjectExists(db.posts, db.comments, kind, pk) ==> e.users == db.users && e.likes == db.likes
    ensures ObjectExists(db.posts, db.comments, kind, pk) ==>
      var key := LikeKey(ActingUser(who, db.users).0, kind, pk);
      && e.users == ActingUser(who, db.users).1
      && (e.resp.status == HttpOk <==> key in KeySet(db.likes))
      && (e.resp.status == HttpBadRequest <==> key !in KeySet(db.likes))
      && (e.resp.status == HttpOk ==>
            && KeySet(e.likes) == KeySet(db.likes) - {key}
            && |e.likes| == |db.likes| - 1
            && e.resp.likeCount.Some? && e.resp.likeCount.value + 1 == LikeCount(db.likes, kind, pk))
      && (e.resp.status != HttpOk ==>
            e.likes == db.likes && e.resp.likeCount == Some(LikeCount(db.likes, kind, pk)))
  {
    if !ObjectExists(db.posts, db.comments, kind, pk) then Effect(NotFoundResponse, db.users, db.likes)
    else
      var (uid, users) := ActingUser(who, db.users);
      var key := LikeKey(uid, kind, pk);
      if key in KeySet(db.likes) then
        var likes := RemovedLike(db.likes, uid, kind, pk);
        Effect(LikeResponse(HttpOk, Capitalized(kind) + " unliked successfully",
                            Some(LikeCount(likes, kind, pk))), users, likes)
      else
        Effect(LikeResponse(HttpBadRequest, "You have not liked this " + Noun(kind),
                            Some(LikeCount(db.likes, kind, pk))), users, db.likes)
  }

  /** Removing a like that is present: one row fewer, one like fewer on its target. */
  function RemovedLike(likes: seq<LikeRow>, uid: nat, kind: ContentType, pk: nat): (r: seq<LikeRow>)
    requires UniqueKeys(likes) && LikeKey(uid, kind, pk) in KeySet(likes)
    ensures r == RemoveLike(likes, LikeKey(uid, kind, pk))
    ensures UniqueKeys(r) && |r| == |likes| - 1 && KeySet(r) == KeySet(likes) - {LikeKey(uid, kind, pk)}
    ensures LikeCount(r, kind, pk) + 1 == LikeCount(likes, kind, pk)
  {
    var key := LikeKey(uid, kind, pk);
    RemoveLikeCount(likes, key, kind, pk);
    RemoveLikeKeepsUnique(likes, key);
    RemoveLikeLength(likes, key);
    RemoveLike(likes, key)
  }

  /** With unique keys, removing a present like removes exactly one row. */
  lemma {:induction false} RemoveLikeLength(likes: seq<LikeRow>, key: LikeKey)
    requires UniqueKeys(likes) && key in KeySet(likes)
    ensures |RemoveLike(likes, key)| == |likes| - 1
  {
    var init := likes[..|likes| - 1];
    var last := likes[|likes| - 1];
    if last.key == key {
      assert key !in KeySet(init);
      RemoveAbsent(init, key);
    } else {
      RemoveLikeLength(init, key);
    }
  }

  /** A successful like followed by an unlike of the same object by the same requester
      restores the like table and reports the original count. */
  lemma LikeThenUnlike(db: Tables, who: Requester, kind: ContentType, pk: nat, now: int)
    requires UniqueKeys(db.likes) && ObjectExists(db.posts, db.comments, kind, pk)
    requires LikeEffect(db, who, kind, pk, false, now).resp.status == HttpCreated
    ensures var liked := LikeEffect(db, who, kind, pk, false, now);
      var unliked := UnlikeEffect(Tables(liked.users, db.posts, db.comments, liked.likes), who, kind, pk);
      && unliked.resp.status == HttpOk
      && unliked.likes == db.likes
      && unliked.resp.likeCount == Some(LikeCount(db.likes, kind, pk))
  {
    var liked := LikeEffect(db, who, kind, pk, false, now);
    LikeEffectSpec(db, who, kind, pk, false, now);
    var key := LikeKey(ActingUser(who, db.users).0, kind, pk);
    assert ActingUser(who, liked.users) == ActingUser(who, db.users) by {
      ActingUserStable(who, db.users);
    }
    UnlikeUndoesLike(db.likes, key, now);
  }

  /** Resolving the acting user a second time finds the same user and creates nothing. */
  lemma ActingUserStable(who: Requester, users: seq<User>)
    ensures ActingUser(who, ActingUser(who, users).1) == ActingUser(who, users)
  {
    if who.Anonymous? && FindByUsername(users, DemoUsername).None? {
      var u := GetOrCreateDemo(users).0;
      FindByUsernameAppend(users, u);
    }
  }

  lemma {:induction false} FindByUsernameAppend(users: seq<User>, u: User)
    requires FindByUsername(users, u.username).None?
    ensures FindByUsername(users + [u], u.username) == Some(u)
  {
    if users != [] {
      assert (users + [u])[1..] == users[1..] + [u];
      FindByUsernameAppend(users[1..], u);
    }
  }

  /** The leaderboard endpoint's body. */
  datatype LeaderboardResponse = LeaderboardResponse(leaderboard: seq<LeaderboardUser>, period: string, updatedAt: int)

  const LeaderboardLimit: nat := 5

  /** `StandardResultsSetPagination`. */
  const PageSize: nat := 20
  const PageSizeQueryParam: string := "page_size"
  const MaxPageSize: nat := 100

  /** The page size of a list request: the `page_size` query parameter when it is a positive
      integer, capped at the maximum; otherwise the default. */
  function EffectivePageSize(requested: Option<int>): (n: nat)
    ensures 1 <= n <= MaxPageSize
    ensures requested.Some? && 1 <= requested.value <= MaxPageSize ==> n == requested.value
    ensures requested.Some? && requested.value > MaxPageSize ==> n == MaxPageSize
    ensures requested.None? || requested.value < 1 ==> n == PageSize
  {
    match requested
    case Some(k) => if k < 1 then PageSize else if k > MaxPageSize then MaxPageSize else k
    case None => PageSize
  }

  datatype Page<T> = Page(results: seq<T>, hasNext: bool, hasPrevious: bool)

  /** The index of the first item of page `number`: `(number - 1) * size`. */
  function PageStart(number: nat, size: nat): nat
    requires number >= 1
  {
    if number == 1 then 0 else PageStart(number - 1, size) + size
  }

  lemma {:induction false} PageStartIsProduct(number: nat, size: nat)
    requires number >= 1
    ensures PageStart(number, size) == (number - 1) * size
  {
    if number > 1 {
      PageStartIsProduct(number - 1, size);
    }
  }

  /** Page `number` of `items`, or None when that page does not exist (a 404). Page 1 always
      exists; a later page exists when items remain before it. */
  function PageOf<T>(items: seq<T>, number: int, size: nat): (r: Option<Page<T>>)
    requires size > 0
    ensures r.Some? <==> number >= 1 && (number == 1 || PageStart(number, size) < |items|)
    ensures r.Some? ==>
      var start := PageStart(number, size);
      && |r.value.results| <= size
      && start + |r.value.results| <= |items|
      && r.value.results == items[start..start + |r.value.results|]
      && (r.value.hasNext <==> start + |r.value.results| < |items|)
      && (r.value.hasNext ==> |r.value.results| == size)
      && (r.value.hasPrevious <==> number > 1)
  {
    if number < 1 || (number > 1 && PageStart(number, size) >= |items|) then None
    else
      var start := PageStart(number, size);
      var end := if start + size < |items| then start + size else |items|;
      Some(Page(items[start..end], start + size < |items|, number > 1))
  }

  /** The first page of a list request always exists and holds the effective page size's
      worth of items, or all of them when there are fewer: a valid `page_size` is honoured,
      no page exceeds the maximum, and without the parameter a page holds 20. */
  lemma FirstPageSize<T>(items: seq<T>, requested: Option<int>)
    ensures var size := EffectivePageSize(requested);
      var p := PageOf(items, 1, size);
      && p.Some?
      && |p.value.results| == (if |items| < size then |items| else size)
      && |p.value.results| <= MaxPageSize
      && (requested.Some? && 1 <= requested.value <= MaxPageSize && requested.value <= |items|
          ==> |p.value.results| == requested.value)
      && (requested.None? && PageSize <= |items| ==> |p.value.results| == PageSize)
  {
    var size := EffectivePageSize(requested);
    assert PageStart(1, size) == 0;
  }

  /** The items of page `number` and of every page after it, following `next` links. */
  function PagesFrom<T>(items: seq<T>, number: nat, size: nat): seq<T>
    requires size > 0 && PageOf(items, number, size).Some?
    decreases |items| - PageStart(number, size)
  {
    var p := PageOf(items, number, size).value;
    p.results + (if p.hasNext then PagesFrom(items, number + 1, size) else [])
  }

  /** Following `next` from page `number` yields every item from that page's start, in order. */
  lemma {:induction false} PagesFromSuffix<T>(items: seq<T>, number: nat, size: nat)
    requires size > 0 && PageOf(items, number, size).Some?
    ensures PagesFrom(items, number, size) == items[PageStart(number, size)..]
    decreases |items| - PageStart(number, size)
  {
    var p := PageOf(items, number, size).value;
    var start := PageStart(number, size);
    if p.hasNext {
      assert PageStart(number + 1, size) == start + size;
      assert PageOf(items, number + 1, size).Some?;
      PagesFromSuffix(items, number + 1, size);
      assert PagesFrom(items, number, size) == p.results + items[start + size..];
      assert p.results == items[start..start + size];
      assert items[start..] == items[start..start + size] + items[start + size..];
    } else {
      assert PagesFrom(items, number, size) == p.results;
      assert items[start..] == p.results;
    }
  }

  /** Walking the pages from the first one returns every item exactly once, in order. */
  lemma AllPages<T>(items: seq<T>, size: nat)
    requires size > 0
    ensures PageOf(items, 1, size).Some? && PagesFrom(items, 1, size) == items
  {
    PagesFromSuffix(items, 1, size);
  }

  /** Posts in the table are in creation order, so `created_at` never decreases along it. */
  predicate Chronological(posts: seq<PostRow>) {
    forall i, j :: 0 <= i < j < |posts| ==> posts[i].createdAt <= posts[j].createdAt
  }

  /** `order_by('-created_at')`: newest first. */
  function NewestFirst(posts: seq<PostRow>): (r: seq<PostRow>)
    ensures |r| == |posts| && forall i :: 0 <= i < |r| ==> r[i] == posts[|posts| - 1 - i]
  {
    if posts == [] then [] else [posts[|posts| - 1]] + NewestFirst(posts[..|posts| - 1])
  }

  /** The listed posts are ordered by creation time, newest first. */
  lemma NewestFirstSorted(posts: seq<PostRow>)
    requires Chronological(posts)
    ensures forall i, j :: 0 <= i < j < |posts| ==> NewestFirst(posts)[i].createdAt >= NewestFirst(posts)[j].createdAt
  {
  }

  /** The database behind the views. */
  class FeedDb {
    var users: seq<User>
    var posts: seq<PostRow>
    var comments: seq<CommentRow>
    var likes: seq<LikeRow>

    /** The uniqueness constraint on likes and the foreign keys the serializers follow. */
    ghost predicate Valid()
      reads this
    {
      UniqueKeys(likes) && ForeignKeys(users, posts, comments)
    }

    function State(): Tables
      reads this
    {
      Tables(users, posts, comments, likes)
    }

    constructor(users: seq<User>, posts: seq<PostRow>, comments: seq<CommentRow>, likes: seq<LikeRow>)
      requires UniqueKeys(likes) && Integrity(Tables(users, posts, comments, likes))
      ensures Valid() && State() == Tables(users, posts, comments, likes)
    {
      this.users := users;
      this.posts := posts;
      this.comments := comments;
      this.likes := likes;
    }

    /** The acting user of a write: get or create "demo_user" for an anonymous request. */
    method ResolveActingUser(who: Requester) returns (uid: nat)
      requires Valid()
      modifies this`users
      ensures Valid()
      ensures (uid, users) == ActingUser(who, old(users))
    {
      var r := ActingUser(who, users);
      if r.1 != users {
        var u := GetOrCreateDemo(users).0;
        forall p | p in posts ensures FindUser(users + [u], p.author).Some? {
          FindUserAppend(users, u, p.author);
        }
        forall c | c in comments ensures FindUser(users + [u], c.author).Some? {
          FindUserAppend(users, u, c.author);
        }
      }
      uid := r.0;
      users := r.1;
    }

    /** `PostViewSet.like` and `CommentViewSet.like`, step by step. */
    method Like(who: Requester, kind: ContentType, pk: nat, integrityError: bool, now: int)
      returns (resp: LikeResponse)
      requires Valid() && (kind == PostType || kind == CommentType)
      modifies this`users, this`likes
      ensures Valid()
      ensures Effect(resp, users, likes) == LikeEffect(old(State()), who, kind, pk, integrityError, now)
    {
      if !ObjectExists(posts, comments, kind, pk) {
        return NotFoundResponse;
      }
      ghost var db := State();
      var uid := ResolveActingUser(who);
      assert ActingUser(who, db.users).0 == uid && ActingUser(who, db.users).1 == users;
      var key := LikeKey(uid, kind, pk);
      if key in KeySet(likes) {
        resp := LikeResponse(HttpBadRequest, "You have already liked this " + Noun(kind), Some(LikeCount(likes, kind, pk)));
      } else if integrityError {
        resp := LikeResponse(HttpConflict, "Concurrency error - please try again", Some(CountWithRival(likes, kind, pk)));
      } else {
        AddLikeKeepsUnique(likes, key, now);
        likes := AddLike(likes, key, now);
        resp := LikeResponse(HttpCreated, Capitalized(kind) + " liked successfully", Some(LikeCount(likes, kind, pk)));
      }
    }

    /** `PostViewSet.unlike` and `CommentViewSet.unlike`, step by step. */
    method Unlike(who: Requester, kind: ContentType, pk: nat) returns (resp: LikeResponse)
      requires Valid() && (kind == PostType || kind == CommentType)
      modifies this`users, this`likes
      ensures Valid()
      ensures Effect(resp, users, likes) == UnlikeEffect(old(State()), who, kind, pk)
    {
      if !ObjectExists(posts, comments, kind, pk) {
        return NotFoundResponse;
      }
      ghost var e := UnlikeEffect(State(), who, kind, pk);
      var uid := ResolveActingUser(who);
      var key := LikeKey(uid, kind, pk);
      if key in KeySet(likes) {
        var remaining := RemovedLike(likes, uid, kind, pk);
        resp := LikeResponse(HttpOk, Capitalized(kind) + " unliked successfully", Some(LikeCount(remaining, kind, pk)));
        likes := remaining;
      } else {
        resp := LikeResponse(HttpBadRequest, "You have not liked this " + Noun(kind), Some(LikeCount(likes, kind, pk)));
      }
    }

    /** `PostViewSet.retrieve`: the post with its whole comment tree, or 404 "Post not found". */
    method Retrieve(request: Option<Requester>, pk: nat, now: int) returns (r: Result<PostOut, string>)
      requires Valid()
      ensures r.Failure? <==> forall i :: 0 <= i < |posts| ==> posts[i].id != pk
      ensures r.Failure? ==> r.error == "Post not found"
      ensures r.Success? ==>
        && r.value.id == pk
        && r.value.comments == GetComments(State(), request, now, pk, true)
        && r.value.commentCount == CommentCount(State(), pk)
        && r.value.likeCount == LikeCount(likes, PostType, pk)
        && r.value.isLiked == IsLiked(request, users, likes, PostType, pk)
        && PostById(posts, pk).Some?
        && r.value.author.id == PostById(posts, pk).value.author
        && r.value.author.karma24h == UserKarma24h(likes, posts, comments, PostById(posts, pk).value.author, now)
        && r.value == SerializePost(State(), request, now, PostById(posts, pk).value, true)
    {
      var post := PostById(posts, pk);
      if post.None? {
        return Failure("Post not found");
      }
      r := Success(SerializePost(State(), request, now, post.value, true));
    }

    /** `LeaderboardViewSet.list`: at most five users ranked by their karma over the last
        24 hours, labelled with the period and the time of the request. */
    method Leaderboard(now: int) returns (resp: LeaderboardResponse)
      ensures |resp.leaderboard| <= LeaderboardLimit
      ensures resp.period == "24 hours" && resp.updatedAt == now
      ensures forall i :: 0 <= i < |resp.leaderboard| ==>
        && FindUser(users, resp.leaderboard[i].id) == Some(User(resp.leaderboard[i].id, resp.leaderboard[i].username))
        && resp.leaderboard[i].karma24h == UserKarma24h(likes, posts, comments, resp.leaderboard[i].id, now)
        && resp.leaderboard[i].karma24h > 0
      ensures forall i, j :: 0 <= i < j < |resp.leaderboard| ==>
        resp.leaderboard[i].karma24h >= resp.leaderboard[j].karma24h && resp.leaderboard[i].id != resp.leaderboard[j].id
      ensures forall uid ::
        (UserKarma24h(likes, posts, comments, uid, now) > 0 && FindUser(users, uid).Some?
         && (forall i :: 0 <= i < |resp.leaderboard| ==> resp.leaderboard[i].id != uid))
        ==> exists ahead :: Outranked(likes, posts, comments, now, uid, ahead, LeaderboardLimit, resp.leaderboard, users)
    {
      var top := GetLeaderboardUsers(likes, posts, comments, users, now, LeaderboardLimit);
      var data := seq(|top|, i requires 0 <= i < |top| =>
        LeaderboardUser(top[i].id, top[i].username, AttachedKarma(Some(top[i].karma24h))));
      assert forall i :: 0 <= i < |data| ==> data[i].id == top[i].id && data[i].karma24h == top[i].karma24h;
      assert data == top;
      resp := LeaderboardResponse(data, "24 hours", now);
    }

    /** `PostViewSet.list`: one page of the posts, newest first, or None (a 404) for a page
        that does not exist. */
    method List(request: Option<Requester>, number: int, requestedSize: Option<int>, now: int)
      returns (r: Option<Page<PostOut>>)
      requires Valid()
      ensures var size := EffectivePageSize(requestedSize);
        && (r.Some? <==> PageOf(NewestFirst(posts), number, size).Some?)
        && (r.Some? ==>
              var p := PageOf(NewestFirst(posts), number, size).value;
              && r.value.hasNext == p.hasNext && r.value.hasPrevious == p.hasPrevious
              && |r.value.results| == |p.results|
              && forall i :: 0 <= i < |p.results| ==>
                   r.value.results[i] == SerializePost(State(), request, now, p.results[i], false))
    {
      var size := EffectivePageSize(requestedSize);
      var page := PageOf(NewestFirst(posts), number, size);
      if page.None? {
        return None;
      }
      var p := page.value;
      assert forall i :: 0 <= i < |p.results| ==> p.results[i] in posts by {
        forall i | 0 <= i < |p.results| ensures p.results[i] in posts {
          var k := PageStart(number, size) + i;
          assert p.results[i] == NewestFirst(posts)[k];
        }
      }
      var db := State();
      var out := seq(|p.results|, i requires 0 <= i < |p.results| =>
        SerializePost(db, request, now, p.results[i], false));
      r := Some(Page(out, p.hasNext, p.hasPrevious));
    }
  }
}
