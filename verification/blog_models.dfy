/** Post and Comment records of blog/models.py. */
module BlogModels {
  import opened Auth
  import opened Ordering

  type PostId = nat
  type CommentId = nat

  /** `max_length` of the title column. */
  const TitleMaxLength: nat := 200

  datatype Post = Post(title: string, content: string, datePosted: nat, author: UserId)

  /** A comment belongs to one post (reached back as `post.comments`) and one author. */
  datatype Comment = Comment(post: PostId, author: UserId, content: string, datePosted: nat)

  /** `Meta.ordering` of each table: posts newest first, comments oldest first. */
  const PostOrder: Direction := Descending
  const CommentOrder: Direction := Ascending

  /** A new post; its timestamp defaults to the time of creation. */
  function NewPost(title: string, content: string, author: UserId, now: nat): (p: Post)
    ensures p.author == author && p.datePosted == now
    ensures p.title == title && p.content == content
  {
    Post(title, content, now, author)
  }

  /** A new comment; its timestamp defaults to the time of creation. */
  function NewComment(post: PostId, author: UserId, content: string, now: nat): (c: Comment)
    ensures c.post == post && c.author == author && c.datePosted == now
    ensures c.content == content
  {
    Comment(post, author, content, now)
  }

  /** The `date_posted` column of the post table, as an ordering key. */
  function PostDates(posts: map<PostId, Post>): (key: map<nat, int>)
    ensures key.Keys == posts.Keys
    ensures forall p :: p in posts ==> key[p] == posts[p].datePosted
  {
    map p | p in posts :: posts[p].datePosted
  }

  /** The `date_posted` column of the comment table, as an ordering key. */
  function CommentDates(comments: map<CommentId, Comment>): (key: map<nat, int>)
    ensures key.Keys == comments.Keys
    ensures forall c :: c in comments ==> key[c] == comments[c].datePosted
  {
    map c | c in comments :: comments[c].datePosted
  }

  /** `str(post)`. */
  function PostStr(p: Post): (s: string)
    ensures s == p.title
  {
    p.title
  }

  const CommentStrPrefix: string := "Коментар від "
  const CommentStrMiddle: string := " до \""

  /** `str(comment)`, given the comment's author and post. */
  function CommentStr(author: User, post: Post): (s: string)
    ensures |s| == |CommentStrPrefix| + |author.username| + |CommentStrMiddle| + |post.title| + 1
    ensures s[..|CommentStrPrefix|] == CommentStrPrefix && s[|s| - 1] == '"'
    ensures s[|CommentStrPrefix|..|CommentStrPrefix| + |author.username|] == author.username
    ensures s[|CommentStrPrefix| + |author.username|..|s| - 1 - |post.title|] == CommentStrMiddle
    ensures s[|s| - 1 - |post.title|..|s| - 1] == post.title
  {
    CommentStrPrefix + author.username + CommentStrMiddle + post.title + "\""
  }

  /** The longest prefix of `s` without a space. */
  function UpToSpace(s: string): string {
    if s == [] || s[0] == ' ' then [] else [s[0]] + UpToSpace(s[1..])
  }

  lemma {:induction false} UpToSpaceOf(name: string, rest: string)
    requires ' ' !in name
    ensures UpToSpace(name + " " + rest) == name
  {
    if name != [] {
      assert (name + " " + rest)[1..] == name[1..] + " " + rest;
      UpToSpaceOf(name[1..], rest);
    }
  }

  /**
   * Usernames contain no spaces (letters, digits and @ . + - _), so the
   * label of a comment names its author and its post's title unambiguously.
   */
  lemma CommentStrInjective(a1: User, p1: Post, a2: User, p2: Post)
    requires ' ' !in a1.username && ' ' !in a2.username
    requires CommentStr(a1, p1) == CommentStr(a2, p2)
    ensures a1.username == a2.username && p1.title == p2.title
  {
    var n := |CommentStrPrefix|;
    var s := CommentStr(a1, p1);
    var tail1 := CommentStrMiddle[1..] + p1.title + "\"";
    var tail2 := CommentStrMiddle[1..] + p2.title + "\"";
    assert s[n..] == a1.username + " " + tail1;
    assert s[n..] == a2.username + " " + tail2;
    UpToSpaceOf(a1.username, tail1);
    UpToSpaceOf(a2.username, tail2);
    var m := n + |a1.username| + |CommentStrMiddle|;
    assert p1.title == s[m..|s| - 1];
    assert p2.title == s[m..|s| - 1];
  }
}
