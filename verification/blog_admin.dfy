/** The comment list of the admin site (blog/admin.py). */
module BlogAdmin {
  import opened BlogModels
  import opened Preview

  /** The "content" column: the comment's text, shortened past 50 characters. */
  function ContentPreview(c: Comment): (r: string)
    ensures |c.content| <= PreviewLength ==> r == c.content
    ensures |c.content| > PreviewLength ==> |r| == PreviewLength + |Ellipsis| && r[..PreviewLength] == c.content[..PreviewLength] && r[PreviewLength..] == Ellipsis
    ensures |r| <= PreviewLength + |Ellipsis|
  {
    Excerpt(c.content)
  }
}
