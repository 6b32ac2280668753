/**
 * The request handlers of blog/views.py, each an explicit function of the
 * requester, the request and the store. Reading handlers are functions;
 * handlers that write go through the store's methods and report the response
 * the client gets (a page, a redirect, 403 or 404) with the notice shown.
 */
module BlogViews {
  import opened Wrappers
  import opened Auth
  import opened Ordering
  import opened BlogModels
  import opened BlogForms
  import opened Store

  /** Posts per page of the post lists. */
  const PageSize: nat := 5

  datatype Verb = GET | POST

  datatype Request = Request(user: Actor, verb: Verb, data: FormData)

  datatype Outcome =
    | Render                          // 200: the entry form or the confirmation page
    | Invalid(errors: Errors)         // 200: the form shown again with its errors
    | RedirectLogin                   // 302 to the sign-in page
    | RedirectDetail(post: PostId)    // 302 to the post's detail page
    | RedirectHome                    // 302 to the post list
    | Forbidden                       // 403
    | NotFound                        // 404
    | ServerError                     // 500: a comment saved with no signed-in author

  /** The one-off message shown on the next page. */
  datatype Notice = NoNotice | Success(text: string) | Failure(text: string)

  datatype Response = Response(outcome: Outcome, notice: Notice)

  const PostCreatedText: string := "Пост успішно створено!"
  const PostUpdatedText: string := "Пост оновлено!"
  const PostDeletedText: string := "Пост видалено!"
  const CommentAddedText: string := "Коментар додано!"
  const CommentDeletedText: string := "Коментар видалено!"
  const NotYourCommentText: string := "Ви не можете видалити чужий коментар!"

  /** The identity provider only ever names accounts that exist. */
  predicate KnownActor(db: Database, actor: Actor)
    reads db
  {
    actor.Authenticated? ==> actor.id in db.users
  }

  /** The ownership rule: the requester is the record's author. Nobody signed in owns nothing. */
  function Owns(actor: Actor, author: UserId): (r: bool)
    ensures r <==> actor == Authenticated(author)
    ensures r ==> actor.Authenticated?
  {
    actor.Authenticated? && actor.id == author
  }

  /** Every post, newest first (the queryset of the post list). */
  function AllPosts(db: Database): (r: seq<PostId>)
    reads db
    requires db.Valid()
    ensures Keyed(r, PostDates(db.posts)) && Sorted(r, PostDates(db.posts), PostOrder)
    ensures forall p :: p in r <==> p in db.posts
    ensures Distinct(r)
    ensures |r| == |db.posts|
  {
    assert |db.posts.Keys| == |db.posts|;
    OrderedRows(db.posts.Keys, db.nextPostId, PostDates(db.posts), PostOrder)
  }

  /** The first page of the post list: at most five posts, none older than a post left off. */
  function HomePage(db: Database): (page: seq<PostId>)
    reads db
    requires db.Valid()
    ensures |page| == if |db.posts| < PageSize then |db.posts| else PageSize
    ensures forall i :: 0 <= i < |page| ==> page[i] in db.posts
    ensures Distinct(page)
    ensures forall i, j :: 0 <= i < j < |page| ==>
              db.posts[page[i]].datePosted >= db.posts[page[j]].datePosted
    ensures forall i, q :: 0 <= i < |page| && q in db.posts && q !in page ==>
              db.posts[page[i]].datePosted >= db.posts[q].datePosted
  {
    FirstPage(AllPosts(db), PageSize, PostDates(db.posts), PostOrder)
  }

  /** The posts of the user with this username, newest first; 404 when there is no such user. */
  function UserPosts(db: Database, username: string): (r: Option<seq<PostId>>)
    reads db
    requires db.Valid()
    ensures r.None? <==> !db.UsernameTaken(username)
    ensures r.Some? ==> forall p :: p in r.value <==>
              p in db.posts && db.users[db.posts[p].author].username == username
    ensures r.Some? ==> Distinct(r.value)
    ensures r.Some? ==> forall i, j :: 0 <= i < j < |r.value| ==>
              r.value[i] in db.posts && db.posts[r.value[i]].datePosted >= db.posts[r.value[j]].datePosted
  {
    match db.UserNamed(username)
    case None => None
    case Some(author) =>
      Some(OrderedRows((set p | p in db.posts && db.posts[p].author == author),
                       db.nextPostId, PostDates(db.posts), PostOrder))
  }

  /** What the detail page of a post shows: the post and its comments, oldest first. */
  datatype DetailPage = DetailPage(post: Post, comments: seq<CommentId>)

  function PostDetail(db: Database, pk: PostId): (r: Option<DetailPage>)
    reads db
    requires db.Valid()
    ensures r.None? <==> pk !in db.posts
    ensures r.Some? ==> r.value.post == db.posts[pk]
    ensures r.Some? ==> forall c :: c in r.value.comments <==> c in db.comments && db.comments[c].post == pk
    ensures r.Some? ==> Distinct(r.value.comments)
    ensures r.Some? ==> forall i, j :: 0 <= i < j < |r.value.comments| ==>
              r.value.comments[i] in db.comments &&
              db.comments[r.value.comments[i]].datePosted <= db.comments[r.value.comments[j]].datePosted
  {
    if pk !in db.posts then None
    else
      Some(DetailPage(db.posts[pk],
                      OrderedRows((set c | c in db.comments && db.comments[c].post == pk),
                                  db.nextCommentId, CommentDates(db.comments), CommentOrder)))
  }

  /** PostCreateView: sign-in required; a valid form becomes a post by the requester, stamped now. */
  method PostCreate(db: Database, req: Request) returns (resp: Response)
    requires db.Valid() && KnownActor(db, req.user)
    modifies db`posts, db`nextPostId
    ensures db.Valid()
    ensures req.user.Anonymous? ==> resp == Response(RedirectLogin, NoNotice) && unchanged(db)
    ensures req.user.Authenticated? && req.verb == GET ==> resp == Response(Render, NoNotice) && unchanged(db)
    ensures req.user.Authenticated? && req.verb == POST && CleanPostForm(req.data).Err? ==>
              resp == Response(Invalid(CleanPostForm(req.data).error), NoNotice) && unchanged(db)
    ensures req.user.Authenticated? && req.verb == POST && CleanPostForm(req.data).Ok? ==>
              && resp.notice == Success(PostCreatedText)
              && resp.outcome.RedirectDetail?
              && resp.outcome.post !in old(db.posts)
              && db.posts == old(db.posts)[resp.outcome.post :=
                   Post(Field(req.data, "title"), Field(req.data, "content"), db.clock, req.user.id)]
              && forall p :: p in db.posts ==> db.posts[p].datePosted <= db.posts[resp.outcome.post].datePosted
  {
    if req.user.Anonymous? {
      return Response(RedirectLogin, NoNotice);
    }
    if req.verb == GET {
      return Response(Render, NoNotice);
    }
    match CleanPostForm(req.data)
    case Err(errors) =>
      resp := Response(Invalid(errors), NoNotice);
    case Ok(fields) =>
      NewPostIsNewest(db.posts, db.users, db.clock, fields.title, fields.content, req.user.id);
      var id := db.InsertPost(NewPost(fields.title, fields.content, req.user.id, db.clock));
      resp := Response(RedirectDetail(id), Success(PostCreatedText));
  }

  /**
   * PostUpdateView: sign-in required, then the post must exist and belong to
   * the requester; a valid form replaces the title and content only.
   */
  method PostUpdate(db: Database, req: Request, pk: PostId) returns (resp: Response)
    requires db.Valid() && KnownActor(db, req.user)
    modifies db`posts
    ensures db.Valid()
    ensures req.user.Anonymous? ==> resp == Response(RedirectLogin, NoNotice) && unchanged(db)
    ensures req.user.Authenticated? && pk !in old(db.posts) ==> resp == Response(NotFound, NoNotice) && unchanged(db)
    ensures req.user.Authenticated? && pk in old(db.posts) && !Owns(req.user, old(db.posts[pk].author)) ==>
              resp == Response(Forbidden, NoNotice) && unchanged(db)
    ensures pk in old(db.posts) && Owns(req.user, old(db.posts[pk].author)) && req.verb == GET ==>
              resp == Response(Render, NoNotice)
    ensures pk in old(db.posts) && Owns(req.user, old(db.posts[pk].author)) && req.verb == POST &&
            CleanPostForm(req.data).Err? ==>
              resp == Response(Invalid(CleanPostForm(req.data).error), NoNotice)
    ensures resp.outcome.RedirectDetail? <==>
              && pk in old(db.posts) && Owns(req.user, old(db.posts[pk].author))
              && req.verb == POST && CleanPostForm(req.data).Ok?
    ensures !resp.outcome.RedirectDetail? ==> unchanged(db)
    ensures resp.outcome.RedirectDetail? ==>
              && resp == Response(RedirectDetail(pk), Success(PostUpdatedText))
              && db.posts == old(db.posts)[pk := old(db.posts[pk]).(title := Field(req.data, "title"),
                                                                     content := Field(req.data, "content"))]
  {
    if req.user.Anonymous? {
      return Response(RedirectLogin, NoNotice);
    }
    if pk !in db.posts {
      return Response(NotFound, NoNotice);
    }
    var post := db.posts[pk];
    if !Owns(req.user, post.author) {
      return Response(Forbidden, NoNotice);
    }
    if req.verb == GET {
      return Response(Render, NoNotice);
    }
    match CleanPostForm(req.data)
    case Err(errors) =>
      resp := Response(Invalid(errors), NoNotice);
    case Ok(fields) =>
      // form_valid stamps the requester as author again; the ownership check made them equal.
      db.UpdatePost(pk, Post(fields.title, fields.content, post.datePosted, req.user.id));
      resp := Response(RedirectDetail(pk), Success(PostUpdatedText));
  }

  /**
   * PostDeleteView: sign-in required, then the post must exist and belong to
   * the requester; a POST deletes it together with its comments.
   */
  method PostDelete(db: Database, req: Request, pk: PostId) returns (resp: Response)
    requires db.Valid() && KnownActor(db, req.user)
    modifies db`posts, db`comments
    ensures db.Valid()
    ensures req.user.Anonymous? ==> resp == Response(RedirectLogin, NoNotice) && unchanged(db)
    ensures req.user.Authenticated? && pk !in old(db.posts) ==> resp == Response(NotFound, NoNotice) && unchanged(db)
    ensures req.user.Authenticated? && pk in old(db.posts) && !Owns(req.user, old(db.posts[pk].author)) ==>
              resp == Response(Forbidden, NoNotice) && unchanged(db)
    ensures pk in old(db.posts) && Owns(req.user, old(db.posts[pk].author)) && req.verb == GET ==>
              resp == Response(Render, NoNotice)
    ensures resp.outcome.RedirectHome? <==>
              pk in old(db.posts) && Owns(req.user, old(db.posts[pk].author)) && req.verb == POST
    ensures !resp.outcome.RedirectHome? ==> unchanged(db)
    ensures resp.outcome.RedirectHome? ==>
              && resp.notice == Success(PostDeletedText)
              && db.posts == old(db.posts) - {pk}
              && (forall c :: c in db.comments <==> c in old(db.comments) && old(db.comments)[c].post != pk)
              && (forall c :: c in db.comments ==> db.comments[c] == old(db.comments)[c])
  {
    if req.user.Anonymous? {
      return Response(RedirectLogin, NoNotice);
    }
    if pk !in db.posts {
      return Response(NotFound, NoNotice);
    }
    if !Owns(req.user, db.posts[pk].author) {
      return Response(Forbidden, NoNotice);
    }
    if req.verb == GET {
      return Response(Render, NoNotice);
    }
    db.DeletePost(pk);
    resp := Response(RedirectHome, Success(PostDeletedText));
  }

  /**
   * add_comment: 404 for an unknown post; a valid POST adds one comment on
   * that post by the requester; every other outcome goes back to the post.
   * There is no sign-in check: saving a comment with nobody signed in fails.
   */
  method AddComment(db: Database, req: Request, pk: PostId) returns (resp: Response, ghost added: Option<CommentId>)
    requires db.Valid() && KnownActor(db, req.user)
    modifies db`comments, db`nextCommentId
    ensures db.Valid()
    ensures pk !in old(db.posts) ==> resp == Response(NotFound, NoNotice)
    ensures resp.outcome.ServerError? <==>
              pk in old(db.posts) && req.verb == POST && CleanCommentForm(req.data).Ok? && req.user.Anonymous?
    ensures resp.outcome.ServerError? ==> resp == Response(ServerError, NoNotice) && unchanged(db)
    ensures added.Some? <==>
              pk in old(db.posts) && req.verb == POST && CleanCommentForm(req.data).Ok? && req.user.Authenticated?
    ensures added.None? ==> unchanged(db)
    ensures added.Some? ==>
              && resp == Response(RedirectDetail(pk), Success(CommentAddedText))
              && added.value !in old(db.comments)
              && db.comments == old(db.comments)[added.value :=
                   Comment(pk, req.user.id, Field(req.data, "content"), db.clock)]
    ensures pk in old(db.posts) && !resp.outcome.ServerError? ==> resp.outcome == RedirectDetail(pk)
    ensures pk in old(db.posts) && added.None? && !resp.outcome.ServerError? ==> resp.notice == NoNotice
  {
    added := None;
    if pk !in db.posts {
      resp := Response(NotFound, NoNotice);
      return;
    }
    if req.verb == POST {
      match CleanCommentForm(req.data)
      case Ok(content) =>
        if req.user.Anonymous? {
          resp := Response(ServerError, NoNotice);
          return;
        }
        var id := db.InsertComment(NewComment(pk, req.user.id, content, db.clock));
        added := Some(id);
        resp := Response(RedirectDetail(pk), Success(CommentAddedText));
        return;
      case Err(_) =>
    }
    resp := Response(RedirectDetail(pk), NoNotice);
  }

  /**
   * delete_comment, for any request method: 404 for an unknown comment; the
   * author deletes it; anyone else gets an error notice and nothing changes.
   * Both go back to the comment's post.
   */
  method DeleteComment(db: Database, req: Request, pk: CommentId) returns (resp: Response)
    requires db.Valid() && KnownActor(db, req.user)
    modifies db`comments
    ensures db.Valid()
    ensures pk !in old(db.comments) ==> resp == Response(NotFound, NoNotice) && unchanged(db)
    ensures pk in old(db.comments) ==> resp.outcome == RedirectDetail(old(db.comments[pk].post))
    ensures pk in old(db.comments) && Owns(req.user, old(db.comments[pk].author)) ==>
              resp.notice == Success(CommentDeletedText) && db.comments == old(db.comments) - {pk}
    ensures pk in old(db.comments) && !Owns(req.user, old(db.comments[pk].author)) ==>
              resp.notice == Failure(NotYourCommentText) && unchanged(db)
  {
    if pk !in db.comments {
      return Response(NotFound, NoNotice);
    }
    var comment := db.comments[pk];
    if Owns(req.user, comment.author) {
      db.DeleteComment(pk);
      resp := Response(RedirectDetail(comment.post), Success(CommentDeletedText));
    } else {
      resp := Response(RedirectDetail(comment.post), Failure(NotYourCommentText));
    }
  }
}
