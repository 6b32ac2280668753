/** The Profile record of users/models.py. */
module UsersModels {
  import opened Auth

  type ProfileId = nat

  const DefaultImage: string := "default.jpg"

  /** `max_length` of the biography; it may also be left blank. */
  const BioMaxLength: nat := 500

  /** One profile per account (a one-to-one link to the user). */
  datatype Profile = Profile(user: UserId, image: string, bio: string)

  predicate BioValid(bio: string) {
    |bio| <= BioMaxLength
  }

  /** The profile a new row receives when only its user is given. */
  function DefaultProfile(user: UserId): (p: Profile)
    ensures p.user == user && p.image == DefaultImage && p.bio == ""
    ensures BioValid(p.bio)
  {
    Profile(user, DefaultImage, "")
  }

  const ProfileStrPrefix: string := "Профіль "

  /** `str(profile)`, given the profile's user. */
  function ProfileStr(user: User): (s: string)
    ensures |s| == |ProfileStrPrefix| + |user.username|
    ensures s[..|ProfileStrPrefix|] == ProfileStrPrefix
    ensures s[|ProfileStrPrefix|..] == user.username
  {
    ProfileStrPrefix + user.username
  }
}
