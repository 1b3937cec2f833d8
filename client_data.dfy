/**
  The JSON the React components hold in their state, the partial objects they merge into it,
  and the requests they send. Fields a response may omit are `Option`s; JavaScript's falsy
  defaults (`x || 0`) become `GetOr`.
 */
module ClientData {
  import opened Common

  /** A comment as the client holds it. `parent` is an id or null; `replies` may be absent. */
  datatype CommentJson = CommentJson(
    id: nat, content: string, parent: Option<nat>, likeCount: int, isLiked: bool,
    replies: Option<seq<CommentJson>>)

  /** The object handed to `onUpdate(comment.id, updates)`. */
  datatype CommentPatch = CommentPatch(likeCount: Option<int>, isLiked: Option<bool>)

  /** `{ ...comment, ...updates }`: the fields present in the patch win. */
  function MergeComment(c: CommentJson, patch: CommentPatch): (r: CommentJson)
    ensures r.id == c.id && r.parent == c.parent && r.content == c.content && r.replies == c.replies
    ensures r.likeCount == patch.likeCount.GetOr(c.likeCount) && r.isLiked == patch.isLiked.GetOr(c.isLiked)
  {
    c.(likeCount := patch.likeCount.GetOr(c.likeCount), isLiked := patch.isLiked.GetOr(c.isLiked))
  }

  /** A post as the feed holds it; the count and flag fields may be absent. */
  datatype PostJson = PostJson(
    id: nat, content: string, likeCount: Option<int>, isLiked: Option<bool>,
    commentCount: Option<int>, comments: Option<seq<CommentJson>>)

  /** The object a post card hands to `onUpdate`: the id and the fields that changed. */
  datatype PostPatch = PostPatch(id: nat, likeCount: Option<int>, isLiked: Option<bool>, commentCount: Option<int>)

  /** `{ ...post, ...updatedPost }`. */
  function MergePost(p: PostJson, patch: PostPatch): (r: PostJson)
    ensures r.id == p.id && r.content == p.content && r.comments == p.comments
    ensures patch.likeCount.Some? ==> r.likeCount == patch.likeCount
    ensures patch.likeCount.None? ==> r.likeCount == p.likeCount
    ensures patch.isLiked.Some? ==> r.isLiked == patch.isLiked
    ensures patch.isLiked.None? ==> r.isLiked == p.isLiked
    ensures patch.commentCount.Some? ==> r.commentCount == patch.commentCount
    ensures patch.commentCount.None? ==> r.commentCount == p.commentCount
  {
    p.(likeCount := if patch.likeCount.Some? then patch.likeCount else p.likeCount,
       isLiked := if patch.isLiked.Some? then patch.isLiked else p.isLiked,
       commentCount := if patch.commentCount.Some? then patch.commentCount else p.commentCount)
  }

  /** A page of `GET /posts/?page=n`: its posts and the link to the next page, if any. */
  datatype PageJson = PageJson(results: seq<PostJson>, next: Option<string>)

  /** `!!data.next`: a present, non-empty link. */
  predicate HasNextLink(page: PageJson) {
    page.next.Some? && page.next.value != ""
  }

  /** One row of `data.leaderboard`. */
  datatype LeaderJson = LeaderJson(id: nat, username: string, karma24h: int)

  datatype LeaderboardJson = LeaderboardJson(leaderboard: seq<LeaderJson>, updatedAt: string)

  /** The body of a like or unlike response the client reads. */
  datatype LikeResult = LikeResult(likeCount: int)

  /** The remote operations of the API client the components call. */
  datatype Request =
    | GetPosts(page: int)
    | CreatePost(content: string)
    | LikePost(postId: nat)
    | UnlikePost(postId: nat)
    | CreateComment(postId: nat, content: string, parentId: Option<nat>)
    | LikeComment(commentId: nat)
    | UnlikeComment(commentId: nat)
    | GetLeaderboard

  /** `prev.map(x => x.id === id ? merge(x) : x)` over comments. */
  function MergeCommentById(list: seq<CommentJson>, id: nat, patch: CommentPatch): (r: seq<CommentJson>)
    ensures |r| == |list|
    ensures forall i :: 0 <= i < |list| ==>
      r[i] == (if list[i].id == id then MergeComment(list[i], patch) else list[i])
  {
    if list == [] then []
    else [if list[0].id == id then MergeComment(list[0], patch) else list[0]]
         + MergeCommentById(list[1..], id, patch)
  }

  /** `prev.map(post => post.id === updatedPost.id ? { ...post, ...updatedPost } : post)`. */
  function MergePostById(list: seq<PostJson>, patch: PostPatch): (r: seq<PostJson>)
    ensures |r| == |list|
    ensures forall i :: 0 <= i < |list| ==>
      r[i] == (if list[i].id == patch.id then MergePost(list[i], patch) else list[i])
  {
    if list == [] then []
    else [if list[0].id == patch.id then MergePost(list[0], patch) else list[0]]
         + MergePostById(list[1..], patch)
  }


  /** Applying the same comment patch twice is applying it once. */
  lemma MergeIdempotent(list: seq<CommentJson>, id: nat, patch: CommentPatch)
    ensures MergeCommentById(MergeCommentById(list, id, patch), id, patch) == MergeCommentById(list, id, patch)
  {
  }

  /** Applying the same post patch twice is applying it once. */
  lemma MergePostIdempotent(list: seq<PostJson>, patch: PostPatch)
    ensures MergePostById(MergePostById(list, patch), patch) == MergePostById(list, patch)
  {
  }

  /** JavaScript's `!comment.parent`: null, absent or the id 0. */
  predicate IsFalsyParent(c: CommentJson) {
    c.parent.None? || c.parent.value == 0
  }

  /** `localComments.filter(comment => !comment.parent)`. */
  function TopLevel(list: seq<CommentJson>): (r: seq<CommentJson>)
    ensures |r| <= |list|
    ensures forall c :: c in r ==> IsFalsyParent(c)
  {
    if list == [] then []
    else (if IsFalsyParent(list[0]) then [list[0]] else []) + TopLevel(list[1..])
  }

  /** The filter keeps exactly the entries with a falsy parent. */
  lemma {:induction false} TopLevelMembers(list: seq<CommentJson>)
    ensures forall c :: c in TopLevel(list) <==> c in list && IsFalsyParent(c)
  {
    if list != [] {
      TopLevelMembers(list[1..]);
      assert list == [list[0]] + list[1..];
    }
  }

  /** The filter keeps the original order: it distributes over concatenation. */
  lemma {:induction false} TopLevelConcat(a: seq<CommentJson>, b: seq<CommentJson>)
    ensures TopLevel(a + b) == TopLevel(a) + TopLevel(b)
  {
    if a == [] {
      assert a + b == b;
    } else {
      assert (a + b)[1..] == a[1..] + b;
      TopLevelConcat(a[1..], b);
    }
  }

  /** Merging a patch into the list and then filtering is filtering and then merging: a
      patch never moves a comment in or out of the top level. */
  lemma {:induction false} TopLevelMergeCommutes(list: seq<CommentJson>, id: nat, patch: CommentPatch)
    ensures TopLevel(MergeCommentById(list, id, patch)) == MergeCommentById(TopLevel(list), id, patch)
  {
    if list != [] {
      var m := MergeCommentById(list, id, patch);
      assert m[1..] == MergeCommentById(list[1..], id, patch);
      TopLevelMergeCommutes(list[1..], id, patch);
    }
  }

  /** `handleReplyCreated`'s map: append `reply` to the `replies` (absent meaning empty) of
      the entries whose id is `parentId`. */
  function AttachReply(list: seq<CommentJson>, parentId: nat, reply: CommentJson): (r: seq<CommentJson>)
    ensures |r| == |list|
    ensures forall i :: 0 <= i < |list| ==>
      r[i] == (if list[i].id == parentId
               then list[i].(replies := Some(list[i].replies.GetOr([]) + [reply]))
               else list[i])
  {
    if list == [] then []
    else [if list[0].id == parentId then list[0].(replies := Some(list[0].replies.GetOr([]) + [reply])) else list[0]]
         + AttachReply(list[1..], parentId, reply)
  }

  /** Attaching a reply touches no entry's id, parent or counts, so it never changes which
      comments are top-level. */
  lemma {:induction false} TopLevelAttachCommutes(list: seq<CommentJson>, parentId: nat, reply: CommentJson)
    ensures TopLevel(AttachReply(list, parentId, reply)) == AttachReply(TopLevel(list), parentId, reply)
  {
    if list != [] {
      var m := AttachReply(list, parentId, reply);
      assert m[1..] == AttachReply(list[1..], parentId, reply);
      TopLevelAttachCommutes(list[1..], parentId, reply);
    }
  }

  /** JavaScript's `s.length`: the number of UTF-16 code units. */
  function Utf16Length(s: string): (n: nat)
    ensures |s| <= n <= 2 * |s|
  {
    if s == [] then 0 else (if (s[0] as int) < 0x1_0000 then 1 else 2) + Utf16Length(s[1..])
  }

  /** JavaScript's `s.charCodeAt(0)`: the first UTF-16 code unit (a high surrogate for a
      character outside the Basic Multilingual Plane). */
  function FirstCodeUnit(c: char): (u: nat)
    ensures u < 0x1_0000
    ensures (c as int) < 0x1_0000 ==> u == c as int
    ensures (c as int) >= 0x1_0000 ==> 0xD800 <= u < 0xDC00
  {
    if (c as int) < 0x1_0000 then c as int else 0xD800 + ((c as int) - 0x1_0000) / 0x400
  }

  /** `getAvatarColor`'s index `username.charCodeAt(0) % colors.length`; an empty name gives
      NaN, and indexing with NaN yields no colour. */
  function AvatarIndex(username: string, colors: nat): (r: Option<nat>)
    requires colors > 0
    ensures r.None? <==> username == ""
    ensures r.Some? ==> r.value < colors && r.value == FirstCodeUnit(username[0]) % colors
  {
    if username == "" then None else Some(FirstCodeUnit(username[0]) % colors)
  }

  /** The colour depends on the first character only: two names that start alike share it. */
  lemma AvatarByFirstCharacter(a: string, b: string, colors: nat)
    requires colors > 0 && a != "" && b != "" && a[0] == b[0]
    ensures AvatarIndex(a, colors) == AvatarIndex(b, colors)
  {
  }

  /** Every colour of the palette is reached: a one-character name whose code is `k` gets
      colour `k`. */
  lemma EveryAvatarColourUsed(k: nat, colors: nat)
    requires k < colors <= 0xD800
    ensures AvatarIndex([k as char], colors) == Some(k)
  {
  }
}
