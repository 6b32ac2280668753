/**
 * The database behind the blog: one table per record type, keyed by an
 * auto-incremented primary key, and a clock that stamps new rows. Deletes
 * follow the `on_delete=CASCADE` links of blog/models.py and users/models.py:
 * a post goes with its author, a comment with its post or its author, a
 * profile with its user.
 */
module Store {
  import opened Wrappers
  import opened Auth
  import opened BlogModels
  import opened UsersModels

  /** The unique constraint on usernames. */
  predicate UniqueUsernames(users: map<UserId, User>) {
    forall u, v :: u in users && v in users && users[u].username == users[v].username ==> u == v
  }

  /** The unique constraint of the one-to-one link: at most one profile per user. */
  predicate ProfilesUnique(profiles: map<ProfileId, Profile>) {
    forall q, r :: q in profiles && r in profiles && profiles[q].user == profiles[r].user ==> q == r
  }

  predicate KeysBelow<V>(m: map<nat, V>, n: nat) {
    forall k :: k in m ==> k < n
  }

  /** Every post has an existing author (a foreign key), and a past timestamp and a title within 200 characters (invariants). */
  predicate PostsRefer(posts: map<PostId, Post>, users: map<UserId, User>, clock: nat) {
    forall p :: p in posts ==>
      posts[p].author in users && posts[p].datePosted <= clock && |posts[p].title| <= TitleMaxLength
  }

  /** Every comment has an existing post and author (foreign keys) and a past timestamp (an invariant). */
  predicate CommentsRefer(comments: map<CommentId, Comment>, posts: map<PostId, Post>, users: map<UserId, User>, clock: nat) {
    forall c :: c in comments ==>
      comments[c].post in posts && comments[c].author in users && comments[c].datePosted <= clock
  }

  /** Every profile has an existing user (a foreign key) and a bio within 500 characters (an invariant). */
  predicate ProfilesRefer(profiles: map<ProfileId, Profile>, users: map<UserId, User>) {
    forall q :: q in profiles ==> profiles[q].user in users && BioValid(profiles[q].bio)
  }

  /**
   * What the tables always satisfy. The database itself enforces the primary
   * keys, the unique usernames, the foreign keys and the one-to-one link of
   * profiles. The model additionally keeps, as invariants of its writers,
   * timestamps no later than the clock and titles and bios within their
   * length limits.
   */
  predicate TablesValid(users: map<UserId, User>, posts: map<PostId, Post>,
                        comments: map<CommentId, Comment>, profiles: map<ProfileId, Profile>,
                        clock: nat, nextUserId: nat, nextPostId: nat, nextCommentId: nat, nextProfileId: nat)
  {
    && KeysBelow(users, nextUserId) && KeysBelow(posts, nextPostId)
    && KeysBelow(comments, nextCommentId) && KeysBelow(profiles, nextProfileId)
    && UniqueUsernames(users)
    && PostsRefer(posts, users, clock)
    && CommentsRefer(comments, posts, users, clock)
    && ProfilesRefer(profiles, users)
    && ProfilesUnique(profiles)
  }

  /** The users that have a profile. */
  function Owners(profiles: map<ProfileId, Profile>): set<UserId> {
    set q | q in profiles :: profiles[q].user
  }

  /** The posts left when `user`'s posts cascade away. */
  function PostsNotBy(posts: map<PostId, Post>, user: UserId): (r: map<PostId, Post>)
    ensures forall p :: p in r <==> p in posts && posts[p].author != user
    ensures forall p :: p in r ==> r[p] == posts[p]
  {
    map p | p in posts && posts[p].author != user :: posts[p]
  }

  /** The comments left when `user`'s comments, and those on posts no longer kept, cascade away. */
  function CommentsKept(comments: map<CommentId, Comment>, user: UserId, keptPosts: map<PostId, Post>)
    : (r: map<CommentId, Comment>)
    ensures forall c :: c in r <==> c in comments && comments[c].author != user && comments[c].post in keptPosts
    ensures forall c :: c in r ==> r[c] == comments[c]
  {
    map c | c in comments && comments[c].author != user && comments[c].post in keptPosts :: comments[c]
  }

  /** The profiles left when `user`'s profile cascades away. */
  function ProfilesNotOf(profiles: map<ProfileId, Profile>, user: UserId): (r: map<ProfileId, Profile>)
    ensures forall q :: q in r <==> q in profiles && profiles[q].user != user
    ensures forall q :: q in r ==> r[q] == profiles[q]
  {
    map q | q in profiles && profiles[q].user != user :: profiles[q]
  }

  /** Removing a user with everything that cascades from it keeps every constraint. */
  lemma CascadeKeepsTablesValid(users: map<UserId, User>, posts: map<PostId, Post>,
                                comments: map<CommentId, Comment>, profiles: map<ProfileId, Profile>,
                                clock: nat, nU: nat, nP: nat, nC: nat, nQ: nat, id: UserId)
    requires TablesValid(users, posts, comments, profiles, clock, nU, nP, nC, nQ)
    ensures TablesValid(users - {id}, PostsNotBy(posts, id), CommentsKept(comments, id, PostsNotBy(posts, id)),
                        ProfilesNotOf(profiles, id), clock, nU, nP, nC, nQ)
  {
  }

  lemma OwnersInsert(profiles: map<ProfileId, Profile>, q: ProfileId, profile: Profile)
    requires q !in profiles
    ensures Owners(profiles[q := profile]) == Owners(profiles) + {profile.user}
  {
    var after := profiles[q := profile];
    forall u | u in Owners(profiles) ensures u in Owners(after) {
      var k :| k in profiles && profiles[k].user == u;
      assert after[k] == profiles[k];
    }
    assert after[q].user == profile.user;
  }

  lemma OwnersRemove(profiles: map<ProfileId, Profile>, kept: map<ProfileId, Profile>, user: UserId)
    requires forall q :: q in kept <==> q in profiles && profiles[q].user != user
    requires forall q :: q in kept ==> kept[q] == profiles[q]
    ensures Owners(kept) == Owners(profiles) - {user}
  {
    forall u | u in Owners(profiles) - {user} ensures u in Owners(kept) {
      var k :| k in profiles && profiles[k].user == u;
      assert k in kept;
    }
  }

  /**
   * A post stamped with the current time is at least as new as every stored
   * post, so the newest-first lists can show it ahead of all of them.
   */
  lemma NewPostIsNewest(posts: map<PostId, Post>, users: map<UserId, User>, clock: nat,
                        title: string, content: string, author: UserId)
    requires PostsRefer(posts, users, clock)
    ensures forall p :: p in posts ==> posts[p].datePosted <= NewPost(title, content, author, clock).datePosted
  {
  }

  /**
   * A comment stamped with the current time is at least as new as every
   * stored comment, so the oldest-first comment list can show it last.
   */
  lemma NewCommentIsNewest(comments: map<CommentId, Comment>, posts: map<PostId, Post>,
                           users: map<UserId, User>, clock: nat, post: PostId, author: UserId, content: string)
    requires CommentsRefer(comments, posts, users, clock)
    ensures forall c :: c in comments ==> comments[c].datePosted <= NewComment(post, author, content, clock).datePosted
  {
  }

  /** The label of every stored post fits the title column. */
  lemma PostLabelFitsColumn(posts: map<PostId, Post>, users: map<UserId, User>, clock: nat, p: PostId)
    requires PostsRefer(posts, users, clock) && p in posts
    ensures |PostStr(posts[p])| <= TitleMaxLength
  {
  }

  /** Usernames are unique and each user has at most one profile, so no two profiles share a label. */
  lemma ProfileLabelsDistinct(users: map<UserId, User>, profiles: map<ProfileId, Profile>, q1: ProfileId, q2: ProfileId)
    requires UniqueUsernames(users) && ProfilesUnique(profiles) && ProfilesRefer(profiles, users)
    requires q1 in profiles && q2 in profiles && q1 != q2
    ensures ProfileStr(users[profiles[q1].user]) != ProfileStr(users[profiles[q2].user])
  {
    var u1, u2 := users[profiles[q1].user], users[profiles[q2].user];
    assert u1.username != u2.username;
    var n := |ProfileStrPrefix|;
    assert ProfileStr(u1)[n..] != ProfileStr(u2)[n..];
  }

  class Database {
    var users: map<UserId, User>
    var posts: map<PostId, Post>
    var comments: map<CommentId, Comment>
    var profiles: map<ProfileId, Profile>
    /** The current time; every stored timestamp is at most this. */
    var clock: nat
    var nextUserId: nat
    var nextPostId: nat
    var nextCommentId: nat
    var nextProfileId: nat

    /** The tables satisfy `TablesValid`: the database's constraints and the model's invariants. */
    ghost predicate Valid()
      reads this
    {
      TablesValid(users, posts, comments, profiles, clock,
                  nextUserId, nextPostId, nextCommentId, nextProfileId)
    }

    function ProfileOwners(): set<UserId>
      reads this
    {
      Owners(profiles)
    }

    predicate HasProfile(user: UserId)
      reads this
    {
      exists q :: q in profiles && profiles[q].user == user
    }

    predicate UsernameTaken(name: string)
      reads this
    {
      exists u :: u in users && users[u].username == name
    }

    /** Some user other than `id` already has the username `name`. */
    predicate UsernameTakenByOther(name: string, id: UserId)
      reads this
    {
      exists u :: u in users && u != id && users[u].username == name
    }

    /** The user with this username, if there is one. */
    function UserNamed(name: string): (r: Option<UserId>)
      reads this
      requires UniqueUsernames(users)
      ensures r.Some? ==> r.value in users && users[r.value].username == name
      ensures r.None? <==> !UsernameTaken(name)
    {
      if UsernameTaken(name) then
        Some(var u :| u in users && users[u].username == name; u)
      else
        None
    }

    /** The profile of this user, if there is one. */
    function ProfileOf(user: UserId): (r: Option<ProfileId>)
      reads this
      requires ProfilesUnique(profiles)
      ensures r.Some? ==> r.value in profiles && profiles[r.value].user == user
      ensures r.None? <==> !HasProfile(user)
    {
      if HasProfile(user) then
        Some(var q :| q in profiles && profiles[q].user == user; q)
      else
        None
    }

    constructor ()
      ensures Valid()
      ensures users == map[] && posts == map[] && comments == map[] && profiles == map[]
      ensures clock == 0
    {
      users, posts, comments, profiles := map[], map[], map[], map[];
      clock := 0;
      nextUserId, nextPostId, nextCommentId, nextProfileId := 0, 0, 0, 0;
    }

    /** Time passes. */
    method Tick(elapsed: nat)
      requires Valid()
      modifies this`clock
      ensures Valid()
      ensures clock == old(clock) + elapsed
    {
      clock := clock + elapsed;
    }

    /** Inserts a user row; refused when the username is taken. */
    method InsertUser(user: User) returns (r: Option<UserId>)
      requires Valid()
      modifies this`users, this`nextUserId
      ensures Valid()
      ensures r.None? <==> old(UsernameTaken(user.username))
      ensures r.None? ==> users == old(users)
      ensures r.Some? ==> r.value !in old(users) && users == old(users)[r.value := user]
    {
      if UsernameTaken(user.username) {
        r := None;
      } else {
        r := Some(nextUserId);
        users := users[nextUserId := user];
        nextUserId := nextUserId + 1;
      }
    }

    /** Updates a user row; refused when another user has the new username. */
    method UpdateUser(id: UserId, user: User) returns (ok: bool)
      requires Valid() && id in users
      modifies this`users
      ensures Valid()
      ensures ok <==> !old(UsernameTakenByOther(user.username, id))
      ensures users == if ok then old(users)[id := user] else old(users)
    {
      ok := !UsernameTakenByOther(user.username, id);
      if ok {
        users := users[id := user];
      }
    }

    /** Deletes a user with everything that cascades from it. */
    method DeleteUser(id: UserId)
      requires Valid() && id in users
      modifies this`users, this`posts, this`comments, this`profiles
      ensures Valid()
      ensures users == old(users) - {id}
      ensures forall p :: p in posts <==> p in old(posts) && old(posts)[p].author != id
      ensures forall p :: p in posts ==> posts[p] == old(posts)[p]
      ensures forall c :: c in comments <==>
                c in old(comments) && old(comments)[c].author != id && old(comments)[c].post in posts
      ensures forall c :: c in comments ==> comments[c] == old(comments)[c]
      ensures forall q :: q in profiles <==> q in old(profiles) && old(profiles)[q].user != id
      ensures forall q :: q in profiles ==> profiles[q] == old(profiles)[q]
      ensures ProfileOwners() == old(ProfileOwners()) - {id}
    {
      var keptPosts := PostsNotBy(posts, id);
      var keptComments := CommentsKept(comments, id, keptPosts);
      var keptProfiles := ProfilesNotOf(profiles, id);
      OwnersRemove(profiles, keptProfiles, id);
      CascadeKeepsTablesValid(users, posts, comments, profiles, clock,
                              nextUserId, nextPostId, nextCommentId, nextProfileId, id);
      users, posts, comments, profiles := users - {id}, keptPosts, keptComments, keptProfiles;
    }

    method InsertPost(post: Post) returns (id: PostId)
      requires Valid()
      requires post.author in users && post.datePosted <= clock && |post.title| <= TitleMaxLength
      modifies this`posts, this`nextPostId
      ensures Valid()
      ensures id !in old(posts) && posts == old(posts)[id := post]
    {
      id := nextPostId;
      posts := posts[id := post];
      nextPostId := nextPostId + 1;
    }

    method UpdatePost(id: PostId, post: Post)
      requires Valid() && id in posts
      requires post.author in users && post.datePosted <= clock && |post.title| <= TitleMaxLength
      modifies this`posts
      ensures Valid()
      ensures posts == old(posts)[id := post]
    {
      posts := posts[id := post];
    }

    /** Deletes a post and, by cascade, exactly its comments. */
    method DeletePost(id: PostId)
      requires Valid() && id in posts
      modifies this`posts, this`comments
      ensures Valid()
      ensures posts == old(posts) - {id}
      ensures forall c :: c in comments <==> c in old(comments) && old(comments)[c].post != id
      ensures forall c :: c in comments ==> comments[c] == old(comments)[c]
    {
      posts := posts - {id};
      comments := map c | c in comments && comments[c].post != id :: comments[c];
    }

    method InsertComment(comment: Comment) returns (id: CommentId)
      requires Valid()
      requires comment.post in posts && comment.author in users && comment.datePosted <= clock
      modifies this`comments, this`nextCommentId
      ensures Valid()
      ensures id !in old(comments) && comments == old(comments)[id := comment]
    {
      id := nextCommentId;
      comments := comments[id := comment];
      nextCommentId := nextCommentId + 1;
    }

    method DeleteComment(id: CommentId)
      requires Valid() && id in comments
      modifies this`comments
      ensures Valid()
      ensures comments == old(comments) - {id}
    {
      comments := comments - {id};
    }

    /** Inserts a profile row; refused by the one-to-one constraint when the user has one. */
    method InsertProfile(profile: Profile) returns (r: Option<ProfileId>)
      requires Valid() && profile.user in users && BioValid(profile.bio)
      modifies this`profiles, this`nextProfileId
      ensures Valid()
      ensures r.None? <==> old(HasProfile(profile.user))
      ensures r.None? ==> profiles == old(profiles)
      ensures r.Some? ==> r.value !in old(profiles) && profiles == old(profiles)[r.value := profile]
      ensures ProfileOwners() == old(ProfileOwners()) + {profile.user}
    {
      if HasProfile(profile.user) {
        var q :| q in profiles && profiles[q].user == profile.user;
        assert profile.user in Owners(profiles);
        r := None;
      } else {
        r := Some(nextProfileId);
        OwnersInsert(profiles, nextProfileId, profile);
        profiles := profiles[nextProfileId := profile];
        nextProfileId := nextProfileId + 1;
      }
    }
  }
}
