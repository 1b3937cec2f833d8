/**
  The computed fields of the REST serializers (feed/serializers.py): the comment tree built
  by filtering on `parent_id`, the comment count, the viewer-relative `is_liked` flag, the
  leaderboard's `karma_24h` and the duplicate check of `LikeSerializer.create`.
 */
module Serializers {
  import opened Common
  import opened Models
  import opened Karma

  /** The comments, in order, that satisfy `keep` (a Python list comprehension). */
  function Filter(s: seq<CommentRow>, keep: CommentRow -> bool): (r: seq<CommentRow>)
    ensures |r| <= |s|
  {
    if s == [] then [] else (if keep(s[0]) then [s[0]] else []) + Filter(s[1..], keep)
  }

  /** A comprehension keeps exactly the elements that pass its test. */
  lemma {:induction false} FilterMembers(s: seq<CommentRow>, keep: CommentRow -> bool)
    ensures forall c :: c in Filter(s, keep) <==> c in s && keep(c)
  {
    if s != [] {
      FilterMembers(s[1..], keep);
      assert s == [s[0]] + s[1..];
    }
  }

  /** A comprehension keeps the original order: filtering a concatenation filters each part. */
  lemma {:induction false} FilterConcat(a: seq<CommentRow>, b: seq<CommentRow>, keep: CommentRow -> bool)
    ensures Filter(a + b, keep) == Filter(a, keep) + Filter(b, keep)
  {
    if a != [] {
      assert (a + b)[1..] == a[1..] + b;
      FilterConcat(a[1..], b, keep);
    } else {
      assert a + b == b;
    }
  }

  predicate IsTopLevel(c: CommentRow) {
    c.parent.None?
  }

  predicate IsReply(c: CommentRow) {
    c.parent.Some?
  }

  predicate IsReplyTo(id: nat, c: CommentRow) {
    c.parent == Some(id)
  }

  /** `get_comments` with prefetched comments: those whose `parent_id is None`. */
  function TopLevelComments(comments: seq<CommentRow>): seq<CommentRow> {
    Filter(comments, IsTopLevel)
  }

  /** `prefetched_replies` and `get_replies`: the comments whose `parent_id` is `id`. */
  function DirectReplies(comments: seq<CommentRow>, id: nat): seq<CommentRow> {
    Filter(comments, c => IsReplyTo(id, c))
  }

  /** The top-level list holds exactly the comments without a parent, in their order. */
  lemma TopLevelExactly(comments: seq<CommentRow>, more: seq<CommentRow>)
    ensures forall c :: c in TopLevelComments(comments) <==> c in comments && c.parent.None?
    ensures TopLevelComments(comments + more) == TopLevelComments(comments) + TopLevelComments(more)
  {
    FilterMembers(comments, IsTopLevel);
    FilterConcat(comments, more, IsTopLevel);
  }

  /** A comment's replies are exactly the comments whose parent is that comment, in order. */
  lemma DirectRepliesExactly(comments: seq<CommentRow>, more: seq<CommentRow>, id: nat)
    ensures forall c :: c in DirectReplies(comments, id) <==> c in comments && c.parent == Some(id)
    ensures DirectReplies(comments + more, id) == DirectReplies(comments, id) + DirectReplies(more, id)
  {
    FilterMembers(comments, c => IsReplyTo(id, c));
    FilterConcat(comments, more, c => IsReplyTo(id, c));
  }

  /** The request context's user: authenticated, or anonymous (acting as "demo_user"). */
  datatype Requester = Authenticated(id: nat) | Anonymous

  const DemoUsername: string := "demo_user"

  function FindByUsername(users: seq<User>, name: string): (r: Option<User>)
    ensures r.Some? ==> r.value in users && r.value.username == name
    ensures r.None? ==> forall i :: 0 <= i < |users| ==> users[i].username != name
  {
    if users == [] then None
    else if users[0].username == name then Some(users[0])
    else FindByUsername(users[1..], name)
  }

  /** The id the database assigns to the next user row. */
  function NextUserId(users: seq<User>): (id: nat)
    ensures forall i :: 0 <= i < |users| ==> users[i].id < id
  {
    if users == [] then 1
    else var rest := NextUserId(users[1..]); if users[0].id < rest then rest else users[0].id + 1
  }

  /** `User.objects.get_or_create(username='demo_user')`: the existing demo user, or a new row. */
  function GetOrCreateDemo(users: seq<User>): (r: (User, seq<User>))
    ensures r.0.username == DemoUsername && r.0 in r.1
    ensures FindByUsername(users, DemoUsername).Some? ==> r.1 == users
    ensures FindByUsername(users, DemoUsername).None? ==>
      r.1 == users + [r.0] && forall i :: 0 <= i < |users| ==> users[i].id != r.0.id
  {
    match FindByUsername(users, DemoUsername)
    case Some(u) => (u, users)
    case None => var u := User(NextUserId(users), DemoUsername); (u, users + [u])
  }

  /** The acting user of a write (`like`, `unlike`, `perform_create`, `LikeSerializer.create`)
      and the user table afterwards. */
  function ActingUser(who: Requester, users: seq<User>): (r: (nat, seq<User>))
    ensures who.Authenticated? ==> r == (who.id, users)
    ensures who.Anonymous? ==> (exists u :: u in r.1 && u.id == r.0 && u.username == DemoUsername)
  {
    match who
    case Authenticated(id) => (id, users)
    case Anonymous => var (u, users') := GetOrCreateDemo(users); (u.id, users')
  }

  /** The foreign key of `Like.user`: every like belongs to a row of the user table. */
  predicate LikersExist(users: seq<User>, likes: seq<LikeRow>) {
    forall k :: 0 <= k < |likes| ==> exists i :: 0 <= i < |users| && users[i].id == likes[k].key.user
  }

  /** Before anyone has acted anonymously there is no demo user, and so no like of the new demo
      user's id: creating it makes it the viewer, with none of the existing likes. */
  lemma FirstAnonymousActor(users: seq<User>, likes: seq<LikeRow>, kind: ContentType, pk: nat)
    requires LikersExist(users, likes) && Viewer(Anonymous, users).None?
    ensures var (uid, users') := ActingUser(Anonymous, users);
      && Viewer(Anonymous, users') == Some(uid)
      && LikeKey(uid, kind, pk) !in KeySet(likes)
  {
    var (u, users') := GetOrCreateDemo(users);
    FindByUsernameAppend(users, u, DemoUsername);
  }

  /** A name absent from the table is found in the row appended after it. */
  lemma {:induction false} FindByUsernameAppend(users: seq<User>, u: User, name: string)
    requires FindByUsername(users, name).None? && u.username == name
    ensures FindByUsername(users + [u], name) == Some(u)
  {
    if users != [] {
      assert (users + [u])[1..] == users[1..] + [u];
      FindByUsernameAppend(users[1..], u, name);
    }
  }

  /** The viewer of a read (`get_is_liked`): anonymous readers are the demo user if it exists. */
  function Viewer(who: Requester, users: seq<User>): (r: Option<nat>)
    ensures who.Authenticated? ==> r == Some(who.id)
    ensures who.Anonymous? && r.Some? ==> exists u :: u in users && u.id == r.value && u.username == DemoUsername
    ensures who.Anonymous? && r.None? ==> forall i :: 0 <= i < |users| ==> users[i].username != DemoUsername
  {
    match who
    case Authenticated(id) => Some(id)
    case Anonymous =>
      match FindByUsername(users, DemoUsername)
      case Some(u) => Some(u.id)
      case None => None
  }

  /** `get_is_liked`: false without a request or without a demo user for an anonymous request;
      otherwise whether the viewer has a like on the object. */
  function IsLiked(request: Option<Requester>, users: seq<User>, likes: seq<LikeRow>,
                   contentType: ContentType, objectId: nat): (liked: bool)
    ensures liked <==> request.Some? && Viewer(request.value, users).Some?
                       && LikeKey(Viewer(request.value, users).value, contentType, objectId) in KeySet(likes)
  {
    match request
    case None => false
    case Some(who) =>
      match Viewer(who, users)
      case None => false
      case Some(uid) => exists i :: 0 <= i < |likes| && likes[i].key == LikeKey(uid, contentType, objectId)
  }

  /** `LeaderboardUserSerializer.get_karma_24h`: the attached karma, 0 when none is attached. */
  function AttachedKarma(attached: Option<nat>): (k: nat)
    ensures attached.Some? ==> k == attached.value
    ensures attached.None? ==> k == 0
  {
    attached.GetOr(0)
  }

  datatype LikeError = AlreadyLiked(message: string)

  datatype Created = Created(row: LikeRow, likes: seq<LikeRow>)

  /** `LikeSerializer.create`: insert a like; the uniqueness constraint turns a second like of
      the same object by the same user into a validation error. */
  function CreateLike(likes: seq<LikeRow>, key: LikeKey, now: int): (r: Result<Created, LikeError>)
    requires UniqueKeys(likes)
    ensures r.Failure? <==> key in KeySet(likes)
    ensures r.Failure? ==> r.error == AlreadyLiked("You have already liked this content.")
    ensures r.Success? ==> && UniqueKeys(r.value.likes)
                           && KeySet(r.value.likes) == KeySet(likes) + {key}
                           && r.value.row == LikeRow(key, now)
  {
    if key in KeySet(likes) then Failure(AlreadyLiked("You have already liked this content."))
    else
      var likes' := likes + [LikeRow(key, now)];
      assert likes'[..|likes|] == likes;
      Success(Created(LikeRow(key, now), likes'))
  }

  /** Filtering twice is filtering once by both tests. */
  lemma {:induction false} FilterTwice(s: seq<CommentRow>, first: CommentRow -> bool,
                                       second: CommentRow -> bool, both: CommentRow -> bool)
    requires forall c :: c in s ==> (both(c) <==> first(c) && second(c))
    ensures Filter(Filter(s, first), second) == Filter(s, both)
  {
    if s != [] {
      var t := s[1..];
      assert forall c :: c in t ==> c in s;
      FilterTwice(t, first, second, both);
      var head := if first(s[0]) then [s[0]] else [];
      assert Filter(s, first) == head + Filter(t, first);
      FilterConcat(head, Filter(t, first), second);
      assert Filter(head, second) == if both(s[0]) then [s[0]] else [];
    }
  }

  /** The tables the serializers read. */
  datatype Tables = Tables(users: seq<User>, posts: seq<PostRow>, comments: seq<CommentRow>, likes: seq<LikeRow>)

  /** The foreign keys the serializers follow: every author exists, comment ids are primary
      keys, and every reply's parent is a stored comment. */
  predicate Integrity(db: Tables) {
    ForeignKeys(db.users, db.posts, db.comments)
  }

  predicate ForeignKeys(users: seq<User>, posts: seq<PostRow>, comments: seq<CommentRow>) {
    && (forall p :: p in posts ==> FindUser(users, p.author).Some?)
    && (forall c :: c in comments ==> FindUser(users, c.author).Some?)
    && UniqueCommentIds(comments)
    && ParentsExist(ParentMap(comments))
  }

  /** One comment row per id: every row's id differs from the ids of the rows before it. */
  predicate UniqueCommentIds(comments: seq<CommentRow>) {
    || comments == []
    || (&& UniqueCommentIds(comments[..|comments| - 1])
        && forall c :: c in comments[..|comments| - 1] ==> c.id != comments[|comments| - 1].id)
  }

  /** The comment table as id -> parent id. */
  function ParentMap(comments: seq<CommentRow>): (m: map<nat, Option<nat>>)
    requires UniqueCommentIds(comments)
    ensures forall c :: c in comments ==> c.id in m && m[c.id] == c.parent
  {
    if comments == [] then map[]
    else
      var last := comments[|comments| - 1];
      ParentMap(comments[..|comments| - 1])[last.id := last.parent]
  }

  /** A top-level comment stands at depth 0: its chain ends at once. */
  lemma TopLevelAtDepth(comments: seq<CommentRow>, c: CommentRow)
    requires UniqueCommentIds(comments) && ParentsExist(ParentMap(comments))
    requires c in comments && c.parent.None?
    ensures AtDepth(ParentMap(comments), c.id, 0) && ChainEnds(ParentMap(comments), c.id)
  {
    assert Up(ParentMap(comments), c.id, 1).None?;
  }

  /** A reply is on the same post as its parent (the API does not enforce this). */
  predicate RepliesOnParentsPost(comments: seq<CommentRow>) {
    forall c, d :: c in comments && d in comments && c.parent == Some(d.id) ==> c.post == d.post
  }

  datatype AuthorOut = AuthorOut(id: nat, username: string, karma24h: nat)

  /** `UserSerializer`: id, username and the karma the user earned in the last 24 hours. */
  function SerializeUser(db: Tables, uid: nat, now: int): (r: AuthorOut)
    requires FindUser(db.users, uid).Some?
    ensures r.id == uid && Some(User(uid, r.username)) == FindUser(db.users, uid)
    ensures r.karma24h == UserKarma24h(db.likes, db.posts, db.comments, uid, now)
  {
    AuthorOut(uid, FindUser(db.users, uid).value.username, UserKarma24h(db.likes, db.posts, db.comments, uid, now))
  }

  /** The serialized comment: `replies` nests the direct replies, each serialized the same way. */
  datatype CommentOut = CommentOut(
    id: nat, content: string, author: AuthorOut, post: nat, parent: Option<nat>,
    likeCount: nat, isLiked: bool, replies: seq<CommentOut>)

  /** Where `get_replies` looks: the attached `prefetched_replies` source when there is one,
      otherwise the comment table (`obj.replies`). */
  function ReplySource(db: Tables, prefetched: Option<seq<CommentRow>>, id: nat): seq<CommentRow> {
    DirectReplies(prefetched.GetOr(db.comments), id)
  }

  /** Every reply `get_replies` serializes is a stored comment whose parent is the comment,
      one level deeper in the thread; its depth stays below the number of comments, so the
      recursion ends for every comment whose parent chain ends. */
  lemma ReplySourceFacts(db: Tables, prefetched: Option<seq<CommentRow>>, c: CommentRow)
    requires Integrity(db) && c in db.comments && ChainEnds(ParentMap(db.comments), c.id)
    requires prefetched.Some? ==> forall x :: x in prefetched.value ==> x in db.comments
    ensures forall r :: r in ReplySource(db, prefetched, c.id) ==>
      && r in db.comments && r.parent == Some(c.id)
      && ChainEnds(ParentMap(db.comments), r.id)
      && Depth(ParentMap(db.comments), r.id) == Depth(ParentMap(db.comments), c.id) + 1
      && Depth(ParentMap(db.comments), r.id) < |ParentMap(db.comments)|
  {
    var pm := ParentMap(db.comments);
    DirectRepliesExactly(prefetched.GetOr(db.comments), [], c.id);
    forall r | r in ReplySource(db, prefetched, c.id)
      ensures ChainEnds(pm, r.id) && Depth(pm, r.id) == Depth(pm, c.id) + 1 && Depth(pm, r.id) < |pm|
    {
      DepthStep(pm, r.id, c.id);
      DepthBelowSize(pm, r.id);
    }
  }

  /** A stored comment standing `depth` steps below a top-level comment. */
  predicate Placed(db: Tables, c: CommentRow, depth: nat) {
    Integrity(db) && c in db.comments && AtDepth(ParentMap(db.comments), c.id, depth)
  }

  /** A stored reply of a comment `d` steps below a top-level comment stands one step lower,
      still above the number of comments. */
  lemma ReplyDeeper(db: Tables, c: CommentRow, d: nat, r: CommentRow)
    requires Placed(db, c, d)
    requires r in db.comments && r.parent == Some(c.id)
    ensures Placed(db, r, d + 1) && d + 1 < |ParentMap(db.comments)|
  {
    ReplyAtDepth(ParentMap(db.comments), r.id, c.id, d);
  }

  /** `CommentSerializer(c).data`. Replies of replies carry no prefetched list, so below the
      first level the whole tree is read from the comment table. The ghost `depth` is where
      the comment stands in its thread; it bounds the recursion. */
  function SerializeComment(db: Tables, request: Option<Requester>, now: int, c: CommentRow,
                            prefetched: Option<seq<CommentRow>>, ghost depth: nat): (r: CommentOut)
    requires Placed(db, c, depth)
    requires prefetched.Some? ==> forall x :: x in prefetched.value ==> x in db.comments
    ensures r.id == c.id && r.parent == c.parent && r.post == c.post
    ensures r.likeCount == LikeCount(db.likes, CommentType, c.id)
    ensures r.isLiked == IsLiked(request, db.users, db.likes, CommentType, c.id)
    ensures |r.replies| == |ReplySource(db, prefetched, c.id)|
    ensures forall i :: 0 <= i < |r.replies| ==>
      (r.replies[i].id == ReplySource(db, prefetched, c.id)[i].id && r.replies[i].parent == Some(c.id))
    decreases |ParentMap(db.comments)| - depth, 1, 0
  {
    DirectRepliesExactly(prefetched.GetOr(db.comments), [], c.id);
    AtDepthIsDepth(ParentMap(db.comments), c.id, depth);
    CommentOut(
      c.id, c.content, SerializeUser(db, c.author, now), c.post, c.parent,
      LikeCount(db.likes, CommentType, c.id),
      IsLiked(request, db.users, db.likes, CommentType, c.id),
      SerializeReplies(db, request, now, c, depth, ReplySource(db, prefetched, c.id)))
  }

  /** `get_replies`: the replies serialized one by one, in order, each without a prefetched list. */
  function SerializeReplies(db: Tables, request: Option<Requester>, now: int, c: CommentRow,
                            ghost depth: nat, replies: seq<CommentRow>): (r: seq<CommentOut>)
    requires Placed(db, c, depth)
    requires depth < |ParentMap(db.comments)|
    requires forall x :: x in replies ==> x in db.comments && x.parent == Some(c.id)
    ensures |r| == |replies|
    ensures forall i :: 0 <= i < |r| ==> r[i].id == replies[i].id && r[i].parent == Some(c.id)
    decreases |ParentMap(db.comments)| - depth, 0, |replies|
  {
    if replies == [] then []
    else
      ReplyDeeper(db, c, depth, replies[0]);
      var head := SerializeComment(db, request, now, replies[0], None, depth + 1);
      var rest := SerializeReplies(db, request, now, c, depth, replies[1..]);
      [head] + rest
  }

  predicate OnPost(postId: nat, c: CommentRow) {
    c.post == postId
  }

  /** `get_optimized_post_with_comments`: all comments of the post, in creation order. */
  function PostComments(db: Tables, postId: nat): seq<CommentRow> {
    Filter(db.comments, c => OnPost(postId, c))
  }

  /** The top-level comments `get_comments` serializes: from the prefetched comments when the
      post carries them (`retrieve`), otherwise `obj.comments.filter(parent=None)` (lists). */
  function TopLevelOf(db: Tables, postId: nat, prefetched: bool): seq<CommentRow> {
    if prefetched then TopLevelComments(PostComments(db, postId))
    else Filter(db.comments, c => OnPost(postId, c) && IsTopLevel(c))
  }

  /** Every comment `get_comments` starts from is a top-level comment of the post. */
  lemma TopLevelOfMembers(db: Tables, postId: nat, prefetched: bool)
    ensures forall c :: c in TopLevelOf(db, postId, prefetched) <==>
      c in db.comments && c.post == postId && c.parent.None?
  {
    FilterMembers(db.comments, c => OnPost(postId, c));
    FilterMembers(PostComments(db, postId), IsTopLevel);
    FilterMembers(db.comments, c => OnPost(postId, c) && IsTopLevel(c));
  }

  /** `PostSerializer.get_comments`: the top-level comments, each with its replies. */
  function GetComments(db: Tables, request: Option<Requester>, now: int, postId: nat, prefetched: bool)
    : (r: seq<CommentOut>)
    requires Integrity(db)
    ensures |r| == |TopLevelOf(db, postId, prefetched)|
    ensures forall i :: 0 <= i < |r| ==>
      (r[i].id == TopLevelOf(db, postId, prefetched)[i].id && r[i].parent.None? && r[i].post == postId)
  {
    var top := TopLevelOf(db, postId, prefetched);
    var source := if prefetched then Some(PostComments(db, postId)) else None;
    TopLevelOfMembers(db, postId, prefetched);
    FilterMembers(db.comments, c => OnPost(postId, c));
    seq(|top|, i requires 0 <= i < |top| =>
      assert top[i] in db.comments;
      TopLevelAtDepth(db.comments, top[i]);
      SerializeComment(db, request, now, top[i], source, 0))
  }

  /** Serializing a comment depends on its prefetched list only through its direct replies. */
  lemma SerializeAgrees(db: Tables, request: Option<Requester>, now: int, d: CommentRow, depth: nat,
                        pc: seq<CommentRow>)
    requires Placed(db, d, depth)
    requires forall x :: x in pc ==> x in db.comments
    requires ReplySource(db, Some(pc), d.id) == ReplySource(db, None, d.id)
    ensures SerializeComment(db, request, now, d, Some(pc), depth)
         == SerializeComment(db, request, now, d, None, depth)
  {
  }

  /** Both paths of `get_comments` start from the same top-level comments. */
  lemma TopsAgree(db: Tables, postId: nat)
    ensures TopLevelOf(db, postId, true) == TopLevelOf(db, postId, false)
  {
    FilterTwice(db.comments, c => OnPost(postId, c), IsTopLevel, c => OnPost(postId, c) && IsTopLevel(c));
  }

  /** A comment's replies among its post's comments are all its replies, when replies stay on
      their parent's post. */
  lemma RepliesAgree(db: Tables, postId: nat, d: CommentRow)
    requires RepliesOnParentsPost(db.comments) && d in db.comments && d.post == postId
    ensures ReplySource(db, Some(PostComments(db, postId)), d.id) == ReplySource(db, None, d.id)
  {
    forall c | c in db.comments ensures IsReplyTo(d.id, c) <==> OnPost(postId, c) && IsReplyTo(d.id, c) {
      if IsReplyTo(d.id, c) {
        assert c.post == d.post;
      }
    }
    FilterTwice(db.comments, c => OnPost(postId, c), c => IsReplyTo(d.id, c), c => IsReplyTo(d.id, c));
  }

  /** When replies stay on their parent's post, the prefetched path of `get_comments` and the
      fallback path produce the same comment tree. */
  lemma PrefetchAgrees(db: Tables, request: Option<Requester>, now: int, postId: nat)
    requires Integrity(db) && RepliesOnParentsPost(db.comments)
    ensures GetComments(db, request, now, postId, true) == GetComments(db, request, now, postId, false)
  {
    var pc := PostComments(db, postId);
    TopsAgree(db, postId);
    var top := TopLevelOf(db, postId, true);
    TopLevelOfMembers(db, postId, true);
    FilterMembers(db.comments, c => OnPost(postId, c));
    var a := GetComments(db, request, now, postId, true);
    var b := GetComments(db, request, now, postId, false);
    forall i | 0 <= i < |top| ensures a[i] == b[i] {
      RepliesAgree(db, postId, top[i]);
      TopLevelAtDepth(db.comments, top[i]);
      SerializeAgrees(db, request, now, top[i], 0, pc);
    }
  }

  /** `get_comment_count`: `obj.comments.count()`, every comment on the post at any depth. */
  function CommentCount(db: Tables, postId: nat): (n: nat)
    ensures n <= |db.comments|
    ensures n == 0 <==> forall c :: c in db.comments ==> c.post != postId
  {
    FilterMembers(db.comments, c => OnPost(postId, c));
    var pc := PostComments(db, postId);
    assert pc != [] ==> pc[0] in pc;
    |pc|
  }

  /** The count is the number of top-level comments plus the number of replies at any depth. */
  lemma CommentCountSplits(db: Tables, postId: nat)
    ensures CommentCount(db, postId)
            == |TopLevelOf(db, postId, true)| + |Filter(PostComments(db, postId), IsReply)|
  {
    FilterSplit(PostComments(db, postId), IsTopLevel, IsReply);
  }

  /** A test and its negation split a list between them. */
  lemma {:induction false} FilterSplit(s: seq<CommentRow>, keep: CommentRow -> bool, drop: CommentRow -> bool)
    requires forall c :: c in s ==> (drop(c) <==> !keep(c))
    ensures |Filter(s, keep)| + |Filter(s, drop)| == |s|
  {
    if s != [] {
      assert forall c :: c in s[1..] ==> c in s;
      FilterSplit(s[1..], keep, drop);
    }
  }

  datatype PostOut = PostOut(
    id: nat, content: string, author: AuthorOut, likeCount: nat, isLiked: bool,
    comments: seq<CommentOut>, commentCount: nat)

  /** `PostSerializer(post).data`. */
  function SerializePost(db: Tables, request: Option<Requester>, now: int, post: PostRow, prefetched: bool)
    : (r: PostOut)
    requires Integrity(db) && post in db.posts
    ensures r.id == post.id && r.author.id == post.author
    ensures r.author.karma24h == UserKarma24h(db.likes, db.posts, db.comments, post.author, now)
    ensures r.likeCount == LikeCount(db.likes, PostType, post.id)
    ensures r.isLiked == IsLiked(request, db.users, db.likes, PostType, post.id)
    ensures r.comments == GetComments(db, request, now, post.id, prefetched)
    ensures r.commentCount == CommentCount(db, post.id)
  {
    PostOut(
      post.id, post.content, SerializeUser(db, post.author, now),
      LikeCount(db.likes, PostType, post.id),
      IsLiked(request, db.users, db.likes, PostType, post.id),
      GetComments(db, request, now, post.id, prefetched),
      CommentCount(db, post.id))
  }

  /** The loop of `get_comments` that attaches `prefetched_replies` to each top-level comment. */
  method AttachPrefetchedReplies(prefetched: seq<CommentRow>)
    returns (attached: seq<(CommentRow, seq<CommentRow>)>)
    ensures |attached| == |TopLevelComments(prefetched)|
    ensures forall i :: 0 <= i < |attached| ==>
      && attached[i].0 == TopLevelComments(prefetched)[i]
      && attached[i].0.parent.None?
      && (forall c :: c in attached[i].1 <==> c in prefetched && c.parent == Some(attached[i].0.id))
  {
    var top := TopLevelComments(prefetched);
    TopLevelExactly(prefetched, []);
    attached := [];
    for k := 0 to |top|
      invariant |attached| == k
      invariant forall i :: 0 <= i < k ==> attached[i] == (top[i], DirectReplies(prefetched, top[i].id))
    {
      attached := attached + [(top[k], DirectReplies(prefetched, top[k].id))];
    }
    forall i | 0 <= i < |attached|
      ensures forall c :: c in attached[i].1 <==> c in prefetched && c.parent == Some(attached[i].0.id)
    {
      DirectRepliesExactly(prefetched, [], top[i].id);
    }
  }
}
