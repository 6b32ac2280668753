/**
 * The hook of users/signals.py, run after every save of a user, and the two
 * user writes that run it: creating an account and saving an existing one.
 * Together they keep exactly one profile per user.
 */
module UsersSignals {
  import opened Wrappers
  import opened Auth
  import opened UsersModels
  import opened Store

  /** Every user has a profile and every profile belongs to a user (at most one each by `Valid`). */
  ghost predicate OneProfilePerUser(db: Database)
    reads db
  {
    db.Valid() && db.ProfileOwners() == db.users.Keys
  }

  /**
   * What the hook did: made a new profile, found the existing one, or was
   * refused by the one-to-one constraint (a new user that somehow already has
   * a profile).
   */
  datatype HookResult = ProfileCreated(id: ProfileId) | ProfileFound(id: ProfileId) | DuplicateProfile

  /**
   * `create_or_update_profile`: a newly created user gets a default profile
   * by a plain insert; a saved existing user gets one only if it has none.
   */
  method CreateOrUpdateProfile(db: Database, user: UserId, created: bool) returns (r: HookResult)
    requires db.Valid() && user in db.users
    modifies db`profiles, db`nextProfileId
    ensures db.Valid()
    ensures created ==> (r.DuplicateProfile? <==> old(db.HasProfile(user))) && !r.ProfileFound?
    ensures !created ==> !r.DuplicateProfile? && (r.ProfileFound? <==> old(db.HasProfile(user)))
    ensures r.ProfileCreated? ==>
              r.id !in old(db.profiles) && db.profiles == old(db.profiles)[r.id := DefaultProfile(user)]
    ensures !r.ProfileCreated? ==> db.profiles == old(db.profiles)
    ensures r.ProfileFound? ==> r.id in db.profiles && db.profiles[r.id].user == user
    ensures !r.DuplicateProfile? ==> db.ProfileOwners() == old(db.ProfileOwners()) + {user}
  {
    if created {
      var inserted := db.InsertProfile(DefaultProfile(user));
      r := if inserted.Some? then ProfileCreated(inserted.value) else DuplicateProfile;
    } else {
      var existing := db.ProfileOf(user);
      if existing.Some? {
        assert user in db.ProfileOwners();
        r := ProfileFound(existing.value);
      } else {
        var inserted := db.InsertProfile(DefaultProfile(user));
        r := ProfileCreated(inserted.value);
      }
    }
  }

  /** Registers a new account (refused if the username is taken) and runs the hook as a creation. */
  method CreateUser(db: Database, user: User) returns (r: Option<UserId>, ghost profile: Option<ProfileId>)
    requires db.Valid()
    modifies db`users, db`nextUserId, db`profiles, db`nextProfileId
    ensures db.Valid()
    ensures r.None? <==> old(db.UsernameTaken(user.username))
    ensures r.None? ==> db.users == old(db.users) && db.profiles == old(db.profiles)
    ensures r.Some? ==> r.value !in old(db.users) && db.users == old(db.users)[r.value := user]
    ensures profile.Some? <==> r.Some?
    ensures r.Some? ==> profile.value !in old(db.profiles) &&
                        db.profiles == old(db.profiles)[profile.value := DefaultProfile(r.value)]
    ensures old(OneProfilePerUser(db)) ==> OneProfilePerUser(db)
  {
    r := db.InsertUser(user);
    profile := None;
    if r.Some? {
      assert !db.HasProfile(r.value);
      var hook := CreateOrUpdateProfile(db, r.value, true);
      profile := Some(hook.id);
    }
  }

  /**
   * Saves new field values of an existing account (refused if another user
   * has the new username) and runs the hook as an update: the profile is
   * created only if missing and otherwise left exactly as it was.
   */
  method SaveUser(db: Database, id: UserId, user: User) returns (ok: bool, ghost profile: Option<ProfileId>)
    requires db.Valid() && id in db.users
    modifies db`users, db`profiles, db`nextProfileId
    ensures db.Valid()
    ensures ok <==> !old(db.UsernameTakenByOther(user.username, id))
    ensures db.users == if ok then old(db.users)[id := user] else old(db.users)
    ensures profile.Some? <==> ok && !old(db.HasProfile(id))
    ensures profile.None? ==> db.profiles == old(db.profiles)
    ensures profile.Some? ==> profile.value !in old(db.profiles) &&
                              db.profiles == old(db.profiles)[profile.value := DefaultProfile(id)]
    ensures ok ==> db.HasProfile(id)
    ensures old(OneProfilePerUser(db)) ==> OneProfilePerUser(db)
  {
    ok := db.UpdateUser(id, user);
    profile := None;
    if ok {
      var hook := CreateOrUpdateProfile(db, id, false);
      if hook.ProfileCreated? {
        profile := Some(hook.id);
      }
    }
  }

  /**
   * Deletes an account. The cascade takes the user's posts, their comments,
   * the comments on their posts and their profile, and keeps every other row
   * as it was, so every remaining user still has exactly one profile.
   */
  method DeleteAccount(db: Database, id: UserId)
    requires db.Valid() && id in db.users
    modifies db`users, db`posts, db`comments, db`profiles
    ensures db.Valid()
    ensures db.users == old(db.users) - {id}
    ensures forall p :: p in db.posts <==> p in old(db.posts) && old(db.posts)[p].author != id
    ensures forall p :: p in db.posts ==> db.posts[p] == old(db.posts)[p]
    ensures forall c :: c in db.comments <==>
              c in old(db.comments) && old(db.comments)[c].author != id && old(db.comments)[c].post in db.posts
    ensures forall c :: c in db.comments ==> db.comments[c] == old(db.comments)[c]
    ensures forall q :: q in db.profiles <==> q in old(db.profiles) && old(db.profiles)[q].user != id
    ensures forall q :: q in db.profiles ==> db.profiles[q] == old(db.profiles)[q]
    ensures !db.HasProfile(id)
    ensures old(OneProfilePerUser(db)) ==> OneProfilePerUser(db)
  {
    db.DeleteUser(id);
    assert id !in db.ProfileOwners();
  }

  /**
   * Saving the same values twice has exactly the effect of saving them once:
   * the second save gives the same answer as the first and, finding the
   * profile the first one guaranteed, leaves the profiles alone.
   */
  method SaveUserTwice(db: Database, id: UserId, user: User)
    returns (first: bool, second: bool, ghost created: Option<ProfileId>)
    requires db.Valid() && id in db.users
    modifies db`users, db`profiles, db`nextProfileId
    ensures db.Valid()
    ensures first <==> !old(db.UsernameTakenByOther(user.username, id))
    ensures second == first
    ensures db.users == if first then old(db.users)[id := user] else old(db.users)
    ensures created.Some? <==> first && !old(db.HasProfile(id))
    ensures created.None? ==> db.profiles == old(db.profiles)
    ensures created.Some? ==> created.value !in old(db.profiles) &&
                              db.profiles == old(db.profiles)[created.value := DefaultProfile(id)]
    ensures old(OneProfilePerUser(db)) ==> OneProfilePerUser(db)
  {
    first, created := SaveUser(db, id, user);
    ghost var again;
    second, again := SaveUser(db, id, user);
  }

  lemma {:induction false} OwnersCard(profiles: map<ProfileId, Profile>)
    requires ProfilesUnique(profiles)
    ensures |Owners(profiles)| == |profiles|
    decreases |profiles|
  {
    if profiles != map[] {
      var k :| k in profiles;
      var rest := profiles - {k};
      assert ProfilesUnique(rest);
      assert |rest| == |profiles| - 1 by {
        assert rest.Keys == profiles.Keys - {k};
      }
      OwnersCard(rest);
      assert Owners(profiles) == Owners(rest) + {profiles[k].user} by {
        forall u | u in Owners(profiles) ensures u in Owners(rest) + {profiles[k].user} {
          var j :| j in profiles && profiles[j].user == u;
          if j != k { assert j in rest; }
        }
      }
      assert profiles[k].user !in Owners(rest) by {
        forall j | j in rest ensures rest[j].user != profiles[k].user {
          assert j != k;
        }
      }
    }
  }

  /** There are exactly as many profiles as users. */
  lemma ProfileCountIsUserCount(db: Database)
    requires OneProfilePerUser(db)
    ensures |db.profiles| == |db.users|
  {
    OwnersCard(db.profiles);
    assert |db.users.Keys| == |db.users|;
  }

  /** Each user's profile is unique: the one `ProfileOf` finds. */
  lemma ExactlyOneProfile(db: Database, user: UserId)
    requires OneProfilePerUser(db) && user in db.users
    ensures db.ProfileOf(user).Some?
    ensures forall q :: q in db.profiles && db.profiles[q].user == user ==> q == db.ProfileOf(user).value
  {
    assert user in db.ProfileOwners();
  }
}
