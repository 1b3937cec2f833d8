/**
  The comment section under a post (frontend/src/components/CommentSection.js): its own copy of
  the post's comments, the new-comment form, the merges it applies when an item reports a like
  or a reply, and the top-level filter it renders from.
 */
module CommentSection {
  import opened Common
  import opened ClientData

  class Section {
    const postId: nat
    /** Whether the card passed an `onCommentCreated` callback. */
    const hasOnCommentCreated: bool

    var newComment: string
    var isSubmitting: bool
    var localComments: seq<CommentJson>

    constructor(postId: nat, comments: seq<CommentJson>, hasOnCommentCreated: bool)
      ensures this.postId == postId && this.hasOnCommentCreated == hasOnCommentCreated
      ensures newComment == "" && !isSubmitting && localComments == comments
    {
      this.postId := postId;
      this.hasOnCommentCreated := hasOnCommentCreated;
      newComment := "";
      isSubmitting := false;
      localComments := comments;
    }

    /** The effect on a new `comments` prop: the local list is replaced wholesale. */
    method SyncProps(comments: seq<CommentJson>)
      modifies this`localComments
      ensures localComments == comments
    {
      localComments := comments;
    }

    /** Typing in the comment box. */
    method EditComment(text: string)
      modifies this`newComment
      ensures newComment == text
    {
      newComment := text;
    }

    /** Submitting, before the `await`: a blank comment changes nothing and sends nothing;
        otherwise a top-level comment with the text as typed is sent. */
    method BeginSubmit() returns (call: Option<Request>)
      modifies this`isSubmitting
      ensures IsBlank(newComment) ==> call.None? && isSubmitting == old(isSubmitting)
      ensures !IsBlank(newComment) ==> isSubmitting && call == Some(CreateComment(postId, newComment, None))
    {
      if IsBlank(newComment) {
        return None;
      }
      isSubmitting := true;
      call := Some(CreateComment(postId, newComment, None));
    }

    /** After the `await`: the created comment goes at the end of the list, the box is
        cleared and the card is told once; a failure leaves list and box as they were. */
    method FinishSubmit(outcome: Outcome<CommentJson>) returns (created: Option<CommentJson>)
      modifies this`isSubmitting, this`localComments, this`newComment
      ensures !isSubmitting
      ensures outcome.Ok? ==>
        && localComments == old(localComments) + [outcome.value] && newComment == ""
        && created == (if hasOnCommentCreated then Some(outcome.value) else None)
      ensures outcome.Failed? ==>
        localComments == old(localComments) && newComment == old(newComment) && created.None?
    {
      created := None;
      match outcome {
        case Ok(c) =>
          localComments := localComments + [c];
          newComment := "";
          if hasOnCommentCreated {
            created := Some(c);
          }
        case Failed =>
      }
      isSubmitting := false;
    }

    /** `handleCommentUpdate`: the patch is merged into the entries of the list itself with
        that id. */
    method HandleCommentUpdate(commentId: nat, updates: CommentPatch)
      modifies this`localComments
      ensures localComments == MergeCommentById(old(localComments), commentId, updates)
    {
      localComments := MergeCommentById(localComments, commentId, updates);
    }

    /** `handleReplyCreated`: the reply is appended to the replies of the entries of the list
        itself with that id. */
    method HandleReplyCreated(parentId: nat, newReply: CommentJson)
      modifies this`localComments
      ensures localComments == AttachReply(old(localComments), parentId, newReply)
    {
      localComments := AttachReply(localComments, parentId, newReply);
    }

    /** `topLevelComments`, the entries the section renders. */
    function TopLevelComments(): (r: seq<CommentJson>)
      reads this
    {
      TopLevel(localComments)
    }
  }

  /** An update reported for an id that is no entry of the list itself (for instance a
      nested reply's) leaves the list unchanged. */
  lemma {:induction false} UpdateOfNestedIsNoOp(list: seq<CommentJson>, id: nat, patch: CommentPatch)
    requires forall c :: c in list ==> c.id != id
    ensures MergeCommentById(list, id, patch) == list
  {
    if list != [] {
      UpdateOfNestedIsNoOp(list[1..], id, patch);
      assert list[0] in list;
    }
  }

  /** A reply to an id that is no entry of the list itself leaves the list unchanged. */
  lemma {:induction false} ReplyToNestedIsNoOp(list: seq<CommentJson>, parentId: nat, reply: CommentJson)
    requires forall c :: c in list ==> c.id != parentId
    ensures AttachReply(list, parentId, reply) == list
  {
    if list != [] {
      ReplyToNestedIsNoOp(list[1..], parentId, reply);
      assert list[0] in list;
    }
  }

  /** A reply lands at the end of its parent's replies and nowhere else. */
  lemma ReplyAppended(list: seq<CommentJson>, parentId: nat, reply: CommentJson, i: nat)
    requires i < |list| && list[i].id == parentId
    ensures AttachReply(list, parentId, reply)[i].replies == Some(list[i].replies.GetOr([]) + [reply])
    ensures AttachReply(list, parentId, reply)[i].(replies := list[i].replies) == list[i]
  {
  }

  /** After a comment like is reported, a top-level comment with that id shows the server's
      count and the flipped flag, and the set of rendered comments keeps its shape. */
  lemma {:induction false} LikeUpdateShown(list: seq<CommentJson>, c: CommentJson, likeCount: int)
    requires c in TopLevel(list)
    ensures
      var after := TopLevel(MergeCommentById(list, c.id, CommentPatch(Some(likeCount), Some(!c.isLiked))));
      |after| == |TopLevel(list)|
      && c.(likeCount := likeCount, isLiked := !c.isLiked) in after
  {
    var patch := CommentPatch(Some(likeCount), Some(!c.isLiked));
    TopLevelMergeCommutes(list, c.id, patch);
    var tops := TopLevel(list);
    var i :| 0 <= i < |tops| && tops[i] == c;
    assert MergeCommentById(tops, c.id, patch)[i] == c.(likeCount := likeCount, isLiked := !c.isLiked);
  }

  /** A created comment is top-level, so the rendered list grows by exactly that comment at
      its end. */
  lemma CreatedCommentShownLast(list: seq<CommentJson>, created: CommentJson)
    requires created.parent.None?
    ensures TopLevel(list + [created]) == TopLevel(list) + [created]
  {
    TopLevelConcat(list, [created]);
  }
}
