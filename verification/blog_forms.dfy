/**
 * PostForm and CommentForm of blog/forms.py, reduced to what decides their
 * validity: the fields each form accepts and the column constraints behind
 * them (required text, at most 200 characters of title).
 */
module BlogForms {
  import opened Wrappers
  import opened Auth
  import opened BlogModels

  /** Submitted form data, field name to value (the request's POST data). */
  type FormData = map<string, string>

  datatype FieldError = Required | TooLong(limit: nat, length: nat)

  /** Validation errors keyed by field name. */
  type Errors = map<string, FieldError>

  /** The value submitted for a field; a field left out counts as empty. */
  function Field(data: FormData, name: string): string {
    if name in data then data[name] else ""
  }

  /** The fields a PostForm accepts. Neither form accepts an author or a post. */
  const PostFormFields: set<string> := {"title", "content"}

  /** The field a CommentForm accepts. */
  const CommentFormFields: set<string> := {"content"}

  datatype PostFields = PostFields(title: string, content: string)

  predicate TitleValid(title: string) {
    title != "" && |title| <= TitleMaxLength
  }

  predicate PostFieldsValid(title: string, content: string) {
    TitleValid(title) && content != ""
  }

  function TitleErrors(title: string): Errors {
    if title == "" then map["title" := Required]
    else if |title| > TitleMaxLength then map["title" := TooLong(TitleMaxLength, |title|)]
    else map[]
  }

  function ContentErrors(content: string): Errors {
    if content == "" then map["content" := Required] else map[]
  }

  /** The cleaned data of a bound PostForm, or its errors. */
  function CleanPostForm(data: FormData): (r: Result<PostFields, Errors>)
    ensures r.Ok? <==> PostFieldsValid(Field(data, "title"), Field(data, "content"))
    ensures r.Ok? ==> r.value == PostFields(Field(data, "title"), Field(data, "content"))
    ensures r.Err? ==> r.error.Keys <= PostFormFields && r.error != map[]
    ensures r.Err? ==> ("title" in r.error <==> !TitleValid(Field(data, "title")))
    ensures r.Err? ==> ("content" in r.error <==> Field(data, "content") == "")
    ensures r.Err? && Field(data, "title") == "" ==> r.error["title"] == Required
    ensures r.Err? && |Field(data, "title")| > TitleMaxLength ==>
              r.error["title"] == TooLong(TitleMaxLength, |Field(data, "title")|)
  {
    var title, content := Field(data, "title"), Field(data, "content");
    var errors := TitleErrors(title) + ContentErrors(content);
    assert !TitleValid(title) ==> "title" in errors;
    assert content == "" ==> "content" in errors;
    if errors == map[] then Ok(PostFields(title, content)) else Err(errors)
  }

  /** The cleaned content of a bound CommentForm, or its errors. */
  function CleanCommentForm(data: FormData): (r: Result<string, Errors>)
    ensures r.Ok? <==> Field(data, "content") != ""
    ensures r.Ok? ==> r.value == Field(data, "content")
    ensures r.Err? ==> r.error == map["content" := Required]
  {
    var content := Field(data, "content");
    if content == "" then Err(map["content" := Required]) else Ok(content)
  }

  /**
   * Whatever else the client submits (an author, a post, a date) has no
   * effect on a form that does not declare that field.
   */
  lemma UndeclaredFieldsIgnored(data: FormData, name: string, value: string)
    ensures name !in PostFormFields ==> CleanPostForm(data[name := value]) == CleanPostForm(data)
    ensures name !in CommentFormFields ==> CleanCommentForm(data[name := value]) == CleanCommentForm(data)
  {
    if name != "title" {
      assert Field(data[name := value], "title") == Field(data, "title");
    }
    if name != "content" {
      assert Field(data[name := value], "content") == Field(data, "content");
    }
  }

  /** A title one character over the limit is refused, with a too-long error on "title". */
  lemma OverlongTitleRejected(data: FormData)
    requires |Field(data, "title")| == TitleMaxLength + 1
    ensures CleanPostForm(data).Err?
    ensures "title" in CleanPostForm(data).error
    ensures CleanPostForm(data).error["title"] == TooLong(200, 201)
  {
  }

  /**
   * A post built from an accepted form has the requester as author and a
   * label that is non-empty and fits the title column.
   */
  lemma AcceptedPostLabel(data: FormData, author: UserId, now: nat)
    requires CleanPostForm(data).Ok?
    ensures var p := NewPost(CleanPostForm(data).value.title, CleanPostForm(data).value.content, author, now);
            && 0 < |PostStr(p)| <= TitleMaxLength
            && p.author == author && p.datePosted == now
  {
  }
}
