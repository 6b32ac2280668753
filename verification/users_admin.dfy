/** The profile list of the admin site (users/admin.py). */
module UsersAdmin {
  import opened Auth
  import opened UsersModels
  import opened Preview

  /** The "biography" column: the bio, shortened past 50 characters. */
  function BioPreview(p: Profile): (r: string)
    ensures |p.bio| <= PreviewLength ==> r == p.bio
    ensures |p.bio| > PreviewLength ==> |r| == PreviewLength + |Ellipsis| && r[..PreviewLength] == p.bio[..PreviewLength] && r[PreviewLength..] == Ellipsis
    ensures |r| <= PreviewLength + |Ellipsis|
    ensures p.bio == "" ==> r == ""
  {
    Excerpt(p.bio)
  }

  /** A fresh profile shows an empty biography column. */
  lemma DefaultProfilePreview(user: UserId)
    ensures BioPreview(DefaultProfile(user)) == ""
    ensures DefaultProfile(user).user == user && DefaultProfile(user).image == DefaultImage
  {
  }
}
