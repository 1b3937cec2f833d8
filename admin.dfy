/**
  The list-column previews of the admin site (feed/admin.py): post and comment content cut to
  a fixed number of characters, with an ellipsis when something was cut.
 */
module Admin {
  import opened Common

  const Ellipsis: string := "..."
  const PostPreviewLength: nat := 50
  const CommentPreviewLength: nat := 30

  /** `content[:limit] + "..." if len(content) > limit else content`. */
  function Preview(content: string, limit: nat): (r: string)
    ensures |content| <= limit ==> r == content
    ensures |content| > limit ==> |r| == limit + 3 && r[..limit] == content[..limit] && r[limit..] == Ellipsis
    ensures |r| <= limit + 3
  {
    if |content| > limit then Take(content, limit) + Ellipsis else content
  }

  /** A preview that ends without the ellipsis is the whole content; one that carries it
      starts with the content's first `limit` characters, so the content can be told from the
      preview exactly when it fits. */
  lemma PreviewKeepsShortContent(a: string, b: string, limit: nat)
    requires |a| <= limit && |b| <= limit
    ensures Preview(a, limit) == Preview(b, limit) <==> a == b
  {
  }

  /** `PostAdmin.content_preview`. */
  function PostPreview(content: string): (r: string)
    ensures |content| <= 50 ==> r == content
    ensures |content| > 50 ==> r == content[..50] + "..." && |r| == 53
  {
    Preview(content, PostPreviewLength)
  }

  /** `CommentAdmin.content_preview`. */
  function CommentPreview(content: string): (r: string)
    ensures |content| <= 30 ==> r == content
    ensures |content| > 30 ==> r == content[..30] + "..." && |r| == 33
  {
    Preview(content, CommentPreviewLength)
  }
}
