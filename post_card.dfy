/**
  A post card of the feed (frontend/src/components/PostCard.js): its optimistic like toggle with
  exact rollback, its local comment list and count, and the update it hands to the feed.

  `handleLike` awaits the server, so it is split at the `await`: `BeginLike` is the code before
  it (the guard, the snapshot and the optimistic flip) and `FinishLike` the code after it,
  given the snapshot the closure captured and the outcome of the call. `HandleLike` is the two
  run back to back.
 */
module PostCard {
  import opened Common
  import opened ClientData

  /** The optimistic step: flip the flag and move the count one step toward the new state. */
  function OptimisticToggle(liked: bool, count: int): (r: (bool, int))
  {
    (!liked, if liked then count - 1 else count + 1)
  }

  /** Toggling twice puts both the flag and the count back. */
  lemma ToggleTwiceRestores(liked: bool, count: int)
    ensures OptimisticToggle(OptimisticToggle(liked, count).0, OptimisticToggle(liked, count).1) == (liked, count)
  {
  }

  /** The server call the toggle makes: unlike a liked post, like one that is not. */
  function LikeRequest(postId: nat, wasLiked: bool): (r: Request)
  {
    if wasLiked then UnlikePost(postId) else LikePost(postId)
  }

  class Card {
    const postId: nat
    /** Whether the parent passed an `onUpdate` callback. */
    const hasOnUpdate: bool

    var showComments: bool
    var isLiking: bool
    var likeCount: int
    var isLiked: bool
    var commentCount: int
    var localComments: seq<CommentJson>

    /** The initial state: absent counts are 0, an absent flag false, absent comments []. */
    constructor(post: PostJson, hasOnUpdate: bool)
      ensures this.postId == post.id && this.hasOnUpdate == hasOnUpdate
      ensures !showComments && !isLiking
      ensures likeCount == post.likeCount.GetOr(0)
      ensures isLiked == post.isLiked.GetOr(false)
      ensures commentCount == post.commentCount.GetOr(0)
      ensures localComments == post.comments.GetOr([])
    {
      this.postId := post.id;
      this.hasOnUpdate := hasOnUpdate;
      showComments := false;
      isLiking := false;
      likeCount := post.likeCount.GetOr(0);
      isLiked := post.isLiked.GetOr(false);
      commentCount := post.commentCount.GetOr(0);
      localComments := post.comments.GetOr([]);
    }

    /** The code before the `await`. With a toggle already in flight nothing happens and no
        call is made; otherwise the snapshot is returned, the state is flipped optimistically
        and the request is issued. */
    method BeginLike() returns (call: Option<Request>, wasLiked: bool, prevCount: int)
      modifies this`isLiked, this`likeCount, this`isLiking
      ensures old(isLiking) ==> call.None? && unchanged(this)
      ensures !old(isLiking) ==>
        && wasLiked == old(isLiked) && prevCount == old(likeCount)
        && (isLiked, likeCount) == OptimisticToggle(wasLiked, prevCount)
        && isLiking
        && call == Some(LikeRequest(postId, wasLiked))
    {
      if isLiking {
        return None, isLiked, likeCount;
      }
      wasLiked := isLiked;
      prevCount := likeCount;
      isLiked := !wasLiked;
      likeCount := if wasLiked then prevCount - 1 else prevCount + 1;
      isLiking := true;
      call := Some(LikeRequest(postId, wasLiked));
    }

    /** The code after the `await`, given the captured snapshot. On success the server's
        count replaces the optimistic one and the feed is told the id, that count and the new
        flag; on failure the snapshot is restored exactly and the feed hears nothing. Either
        way the toggle is no longer in flight. */
    method FinishLike(wasLiked: bool, prevCount: int, outcome: Outcome<LikeResult>) returns (update: Option<PostPatch>)
      modifies this`isLiked, this`likeCount, this`isLiking
      ensures !isLiking
      ensures outcome.Ok? ==>
        && likeCount == outcome.value.likeCount && isLiked == old(isLiked)
        && update == (if hasOnUpdate then Some(PostPatch(postId, Some(outcome.value.likeCount), Some(!wasLiked), None)) else None)
      ensures outcome.Failed? ==> isLiked == wasLiked && likeCount == prevCount && update.None?
    {
      update := None;
      match outcome {
        case Ok(response) =>
          likeCount := response.likeCount;
          if hasOnUpdate {
            update := Some(PostPatch(postId, Some(response.likeCount), Some(!wasLiked), None));
          }
        case Failed =>
          isLiked := wasLiked;
          likeCount := prevCount;
      }
      isLiking := false;
    }

    /** A whole like toggle. In flight: a no-op. Otherwise the flag ends flipped with the
        server's count, or, when the call fails, exactly as it was. */
    method HandleLike(outcome: Outcome<LikeResult>) returns (call: Option<Request>, update: Option<PostPatch>)
      modifies this`isLiked, this`likeCount, this`isLiking
      ensures old(isLiking) ==> call.None? && update.None? && unchanged(this)
      ensures !old(isLiking) ==>
        && call == Some(LikeRequest(postId, old(isLiked)))
        && !isLiking
        && (outcome.Ok? ==>
             && isLiked == !old(isLiked) && likeCount == outcome.value.likeCount
             && update == (if hasOnUpdate then Some(PostPatch(postId, Some(outcome.value.likeCount), Some(isLiked), None)) else None))
        && (outcome.Failed? ==> isLiked == old(isLiked) && likeCount == old(likeCount) && update.None?)
    {
      var wasLiked, prevCount;
      call, wasLiked, prevCount := BeginLike();
      if call.None? {
        return call, None;
      }
      update := FinishLike(wasLiked, prevCount, outcome);
    }

    /** `handleCommentCreated`: the comment goes at the end of the local list, the count goes
        up by one and the feed is told the new count. */
    method HandleCommentCreated(newComment: CommentJson) returns (update: Option<PostPatch>)
      modifies this`localComments, this`commentCount
      ensures localComments == old(localComments) + [newComment]
      ensures commentCount == old(commentCount) + 1
      ensures update == (if hasOnUpdate then Some(PostPatch(postId, None, None, Some(commentCount))) else None)
    {
      localComments := localComments + [newComment];
      commentCount := commentCount + 1;
      update := if hasOnUpdate then Some(PostPatch(postId, None, None, Some(commentCount))) else None;
    }

    /** The comments button shows or hides the comment section. */
    method ToggleComments()
      modifies this`showComments
      ensures showComments == !old(showComments)
    {
      showComments := !showComments;
    }
  }

  /** The palette size of the post card's avatar. */
  const PostAvatarColors: nat := 6

  /** `getAvatarColor`'s index into its six gradients. */
  function PostAvatarIndex(username: string): (r: Option<nat>)
    ensures r.None? <==> username == ""
    ensures r.Some? ==> r.value < PostAvatarColors
  {
    AvatarIndex(username, PostAvatarColors)
  }
}
