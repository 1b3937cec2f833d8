/**
  One comment of a comment thread (frontend/src/components/CommentItem.js): its like toggle,
  which changes nothing locally and reports the server's answer to the section, its reply form,
  the depth limit on replying, the relative age label and the avatar colour.
 */
module CommentItem {
  import opened Common
  import opened ClientData

  /** Replies may be written below this depth. */
  const MaxDepth: nat := 3

  const MsPerMinute: nat := 60000

  /** The relative age of a comment, as `formatDate` labels it. */
  datatype Age = JustNow | MinutesAgo(minutes: int) | HoursAgo(hours: int) | DaysAgo(days: int) | CalendarDate

  /** `formatDate` for a comment created `diffMs` milliseconds ago: the floored minutes,
      hours and days pick the first bucket that fits. */
  function FormatDate(diffMs: int): (r: Age)
  {
    var diffMins := diffMs / MsPerMinute;
    var diffHours := diffMins / 60;
    var diffDays := diffHours / 24;
    if diffMins < 1 then JustNow
    else if diffMins < 60 then MinutesAgo(diffMins)
    else if diffHours < 24 then HoursAgo(diffHours)
    else if diffDays < 7 then DaysAgo(diffDays)
    else CalendarDate
  }

  /** Each bucket covers one range of elapsed milliseconds, and its number is the elapsed
      time floored to whole minutes, hours or days. A clock running ahead (negative
      difference) reads "just now". */
  lemma FormatDateBuckets(diffMs: int)
    ensures FormatDate(diffMs) == JustNow <==> diffMs < 60000
    ensures FormatDate(diffMs).MinutesAgo? <==> 60000 <= diffMs < 3600000
    ensures FormatDate(diffMs).HoursAgo? <==> 3600000 <= diffMs < 86400000
    ensures FormatDate(diffMs).DaysAgo? <==> 86400000 <= diffMs < 604800000
    ensures FormatDate(diffMs) == CalendarDate <==> 604800000 <= diffMs
    ensures FormatDate(diffMs).MinutesAgo? ==>
      var n := FormatDate(diffMs).minutes; 1 <= n < 60 && n * 60000 <= diffMs < (n + 1) * 60000
    ensures FormatDate(diffMs).HoursAgo? ==>
      var n := FormatDate(diffMs).hours; 1 <= n < 24 && n * 3600000 <= diffMs < (n + 1) * 3600000
    ensures FormatDate(diffMs).DaysAgo? ==>
      var n := FormatDate(diffMs).days; 1 <= n < 7 && n * 86400000 <= diffMs < (n + 1) * 86400000
  {
    var m := diffMs / 60000;
    var h := diffMs / 3600000;
    var d := diffMs / 86400000;
    assert m * 60000 <= diffMs < (m + 1) * 60000;
    assert h * 3600000 <= diffMs < (h + 1) * 3600000;
    assert d * 86400000 <= diffMs < (d + 1) * 86400000;
  }

  /** The label text for the relative buckets; the calendar date is locale formatting. */
  function AgeLabel(a: Age): (r: Option<string>)
    ensures r.None? <==> a == CalendarDate
    ensures a == JustNow ==> r == Some("just now")
    ensures a.MinutesAgo? && a.minutes >= 0 ==> r == Some(Decimal(a.minutes) + "m ago")
    ensures a.HoursAgo? && a.hours >= 0 ==> r == Some(Decimal(a.hours) + "h ago")
    ensures a.DaysAgo? && a.days >= 0 ==> r == Some(Decimal(a.days) + "d ago")
  {
    match a
    case JustNow => Some("just now")
    case MinutesAgo(n) => Some((if n >= 0 then Decimal(n) else "-") + "m ago")
    case HoursAgo(n) => Some((if n >= 0 then Decimal(n) else "-") + "h ago")
    case DaysAgo(n) => Some((if n >= 0 then Decimal(n) else "-") + "d ago")
    case CalendarDate => None
  }

  /** The text shown for a comment created `diffMs` milliseconds ago: "just now" under a
      minute, then the elapsed whole minutes, hours or days, and no relative text from a
      week on. */
  lemma AgeText(diffMs: int)
    ensures diffMs < 60000 ==> AgeLabel(FormatDate(diffMs)) == Some("just now")
    ensures 60000 <= diffMs < 3600000 ==>
      AgeLabel(FormatDate(diffMs)) == Some(Decimal(diffMs / 60000) + "m ago")
    ensures 3600000 <= diffMs < 86400000 ==>
      AgeLabel(FormatDate(diffMs)) == Some(Decimal(diffMs / 3600000) + "h ago")
    ensures 86400000 <= diffMs < 604800000 ==>
      AgeLabel(FormatDate(diffMs)) == Some(Decimal(diffMs / 86400000) + "d ago")
    ensures 604800000 <= diffMs ==> AgeLabel(FormatDate(diffMs)).None?
  {
    FormatDateBuckets(diffMs);
    var m := diffMs / 60000;
    assert m / 60 == diffMs / 3600000;
    assert m / 60 / 24 == diffMs / 86400000;
  }

  /** The size of the comment avatar's palette. */
  const CommentAvatarColors: nat := 5

  /** `getAvatarColor`'s index into its five gradients. */
  function CommentAvatarIndex(username: string): (r: Option<nat>)
    ensures r.None? <==> username == ""
    ensures r.Some? ==> r.value < CommentAvatarColors
  {
    AvatarIndex(username, CommentAvatarColors)
  }

  /** The request the like button sends for a comment in its current state. */
  function CommentLikeRequest(comment: CommentJson): (r: Request)
  {
    if comment.isLiked then UnlikeComment(comment.id) else LikeComment(comment.id)
  }

  class Item {
    const postId: nat
    /** The nesting level this item is rendered at: 0 for a top-level comment. */
    const depth: nat

    var showReplyForm: bool
    var replyContent: string
    var isSubmittingReply: bool
    var isLiking: bool
    var showReplies: bool

    constructor(postId: nat, depth: nat)
      ensures this.postId == postId && this.depth == depth
      ensures !showReplyForm && replyContent == "" && !isSubmittingReply && !isLiking && showReplies
    {
      this.postId := postId;
      this.depth := depth;
      showReplyForm := false;
      replyContent := "";
      isSubmittingReply := false;
      isLiking := false;
      showReplies := true;
    }

    /** Whether the Reply button is rendered. */
    predicate CanReply()
    {
      depth < MaxDepth
    }

    /** The depth the item's replies are rendered at. */
    function ChildDepth(): (d: nat)
      ensures d == depth + 1
    {
      depth + 1
    }

    /** The like button before the `await`: ignored while a toggle is in flight, otherwise
        it marks one in flight and sends the request. The comment itself is not touched. */
    method BeginLike(comment: CommentJson) returns (call: Option<Request>)
      modifies this`isLiking
      ensures isLiking
      ensures old(isLiking) ==> call.None?
      ensures !old(isLiking) ==> call == Some(CommentLikeRequest(comment))
    {
      if isLiking {
        return None;
      }
      isLiking := true;
      call := Some(CommentLikeRequest(comment));
    }

    /** After the `await`: on success the section is told the comment's id, the server's
        count and the flipped flag; on failure it is told nothing. The toggle is over either way. */
    method FinishLike(comment: CommentJson, outcome: Outcome<LikeResult>) returns (update: Option<(nat, CommentPatch)>)
      modifies this`isLiking
      ensures !isLiking
      ensures outcome.Ok? ==> update == Some((comment.id, CommentPatch(Some(outcome.value.likeCount), Some(!comment.isLiked))))
      ensures outcome.Failed? ==> update.None?
    {
      match outcome {
        case Ok(response) =>
          update := Some((comment.id, CommentPatch(Some(response.likeCount), Some(!comment.isLiked))));
        case Failed =>
          update := None;
      }
      isLiking := false;
    }

    /** A whole comment like: a no-op while in flight; otherwise one request, and an update
        only when the server answered. */
    method HandleLike(comment: CommentJson, outcome: Outcome<LikeResult>) returns (call: Option<Request>, update: Option<(nat, CommentPatch)>)
      modifies this`isLiking
      ensures old(isLiking) ==> call.None? && update.None? && isLiking
      ensures !old(isLiking) ==>
        && call == Some(CommentLikeRequest(comment)) && !isLiking
        && (outcome.Ok? ==> update == Some((comment.id, CommentPatch(Some(outcome.value.likeCount), Some(!comment.isLiked)))))
        && (outcome.Failed? ==> update.None?)
    {
      call := BeginLike(comment);
      if call.None? {
        return call, None;
      }
      update := FinishLike(comment, outcome);
    }

    /** Typing in the reply box. */
    method EditReply(text: string)
      modifies this`replyContent
      ensures replyContent == text
    {
      replyContent := text;
    }

    /** The Reply button shows or hides the form; it is only rendered below the maximum depth. */
    method ToggleReplyForm()
      modifies this`showReplyForm
      ensures CanReply() ==> showReplyForm == !old(showReplyForm)
      ensures !CanReply() ==> showReplyForm == old(showReplyForm)
    {
      if CanReply() {
        showReplyForm := !showReplyForm;
      }
    }

    /** Cancel hides the form and throws the draft away. */
    method CancelReply()
      modifies this`showReplyForm, this`replyContent
      ensures !showReplyForm && replyContent == ""
    {
      showReplyForm := false;
      replyContent := "";
    }

    /** The replies button shows or hides the item's replies. */
    method ToggleReplies()
      modifies this`showReplies
      ensures showReplies == !old(showReplies)
    {
      showReplies := !showReplies;
    }

    /** Whether the reply submit button is disabled: while submitting, or while the draft is
        nothing but whitespace. */
    function ReplySubmitDisabled(): (disabled: bool)
      reads this
      ensures disabled <==> isSubmittingReply || forall i :: 0 <= i < |replyContent| ==> IsWhitespace(replyContent[i])
    {
      BlankIffAllWhitespace(replyContent);
      isSubmittingReply || IsBlank(replyContent)
    }

    /** Submitting a reply, before the `await`: a blank draft changes nothing and sends
        nothing; otherwise the reply to this comment is sent with the draft as typed. */
    method BeginReply(comment: CommentJson) returns (call: Option<Request>)
      modifies this`isSubmittingReply
      ensures IsBlank(replyContent) ==> call.None? && isSubmittingReply == old(isSubmittingReply)
      ensures !IsBlank(replyContent) ==> isSubmittingReply && call == Some(CreateComment(postId, replyContent, Some(comment.id)))
    {
      if IsBlank(replyContent) {
        return None;
      }
      isSubmittingReply := true;
      call := Some(CreateComment(postId, replyContent, Some(comment.id)));
    }

    /** After the `await`: the created reply goes to the section under this comment's id,
        and the draft is cleared and the form hidden; a failure keeps the draft and the form. */
    method FinishReply(comment: CommentJson, outcome: Outcome<CommentJson>) returns (created: Option<(nat, CommentJson)>)
      modifies this`isSubmittingReply, this`replyContent, this`showReplyForm
      ensures !isSubmittingReply
      ensures outcome.Ok? ==> created == Some((comment.id, outcome.value)) && replyContent == "" && !showReplyForm
      ensures outcome.Failed? ==> created.None? && replyContent == old(replyContent) && showReplyForm == old(showReplyForm)
    {
      match outcome {
        case Ok(reply) =>
          created := Some((comment.id, reply));
          replyContent := "";
          showReplyForm := false;
        case Failed =>
          created := None;
      }
      isSubmittingReply := false;
    }
  }

  /** A thread as it is rendered: the top-level item at the default depth 0, and each reply
      item at its parent's `ChildDepth()`. The item `k` levels down stands at depth `k` and
      offers Reply exactly when `k` is at most 2, so threads grow to depth 3 from the client. */
  lemma {:induction false} ReplyAffordance(thread: seq<Item>)
    requires |thread| > 0 ==> thread[0].depth == 0
    requires forall k :: 0 < k < |thread| ==> thread[k].depth == thread[k - 1].ChildDepth()
    ensures forall k :: 0 <= k < |thread| ==> thread[k].depth == k
    ensures forall k :: 0 <= k < |thread| ==> (thread[k].CanReply() <==> k <= 2)
  {
    if |thread| > 1 {
      var init := thread[..|thread| - 1];
      ReplyAffordance(init);
      forall k | 0 <= k < |thread| ensures thread[k].depth == k {
        if k < |init| {
          assert thread[k] == init[k];
        } else {
          assert thread[k - 1] == init[k - 1];
        }
      }
    }
  }
}
