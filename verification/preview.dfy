/** The shortened text the admin lists show for long text columns. */
module Preview {
  const PreviewLength: nat := 50
  const Ellipsis: string := "..."

  function Min(a: nat, b: nat): nat {
    if a <= b then a else b
  }

  /**
   * Text of at most 50 characters is shown whole; longer text is cut to its
   * first 50 characters followed by an ellipsis.
   */
  function Excerpt(text: string): (r: string)
    ensures |text| <= PreviewLength ==> r == text
    ensures |r| <= PreviewLength + |Ellipsis|
    ensures |text| > PreviewLength ==> |r| == PreviewLength + |Ellipsis| && r[PreviewLength..] == Ellipsis
    ensures r[..Min(|text|, PreviewLength)] == text[..Min(|text|, PreviewLength)]
  {
    if |text| > PreviewLength then text[..PreviewLength] + Ellipsis else text
  }

  /** Shortening a preview again changes nothing. */
  lemma ExcerptIdempotent(text: string)
    ensures Excerpt(Excerpt(text)) == Excerpt(text)
  {
    if |text| > PreviewLength {
      var r := Excerpt(text);
      assert r[..PreviewLength] == text[..PreviewLength];
    }
  }
}
