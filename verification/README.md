# BlogQA blog core, modelled in Dafny

A model of the rules at the heart of a small multi-user blog built on Django
(applications `blog` and `users`): who may create, edit and delete posts and
comments; how posts and comments are stamped with their author and creation
time; how deleting a user or a post cascades; the order in which lists show
posts and comments; the validity rules of the post and comment forms; the
hook that gives every user exactly one profile; and the shortened previews
of the admin lists.

The database is one object, `Store.Database`, holding one map per table
(`users`, `posts`, `comments`, `profiles`) keyed by auto-incremented primary
keys, plus a natural-number clock. Its invariant `Valid()` has two parts.
The first is what the database enforces: every foreign key points at an
existing row, usernames are unique, and at most one profile references a
user. The second is what the model's writers keep without the database
checking it: no timestamp lies after the clock (`default=timezone.now` is a
default, not a check), titles have at most 200 characters (whether a
`max_length` column rejects longer text depends on the database engine), and
bios have at most 500 (a limit only the generated profile form applies).
Deletes remove the dependent rows that `on_delete=CASCADE` names.

Modules, one per source file or component:

- `Wrappers`: `Option` and `Result`.
- `Ordering`: ordered queries. A table scan in key order followed by a sort
  on the timestamp column, and the first page of such a result.
- `Auth`: the framework's accounts. A user with a username, and the requester:
  `Anonymous` or `Authenticated(id)`.
- `BlogModels` (blog/models.py): `Post`, `Comment`, their default timestamps,
  their `Meta.ordering` and their `__str__`.
- `UsersModels` (users/models.py): `Profile`, its defaults and its `__str__`.
- `BlogForms` (blog/forms.py): the post and comment forms as functions from
  the submitted data to cleaned values or errors keyed by field name.
- `Preview`, `BlogAdmin`, `UsersAdmin` (blog/admin.py, users/admin.py): the
  50-character previews.
- `Store`: the database object with the constraints and cascades above.
- `UsersSignals` (users/signals.py): the post-save hook, called explicitly by
  the two user writes `CreateUser` and `SaveUser`.
- `BlogViews` (blog/views.py): each request handler as a function (for reads)
  or as a method that takes the database and modifies it (for writes). Each returns the response, a
  page, a redirect, 403, 404 or 500, together with the notice shown.

The create and update views build their own form from the fields `title` and
`content`. Those are the same fields and constraints as `PostForm`, so
`BlogForms.CleanPostForm` stands for both. The requester's identity comes
from the framework's identity provider, which only ever names existing
accounts. The handlers require this as `KnownActor`.

## Model

| member | source | states |
|---|---|---|
| `BlogViews.AllPosts` | blog/views.py:11-17 | the post list holds every post exactly once, newest first |
| `BlogViews.HomePage` | blog/views.py:17-18 | the first page holds min(5, number of posts) distinct posts, newest first, and none is older than a post left off the page |
| `BlogViews.UserPosts` | blog/views.py:29-31 | 404 exactly when no user has the username; otherwise exactly that user's posts, each once, newest first |
| `BlogViews.PostDetail` | blog/views.py:45-49 | 404 exactly for an unknown post; otherwise the post and exactly its comments, each once, oldest first |
| `BlogViews.PostCreate` | blog/views.py:52-62 | anonymous: login redirect, nothing changes; GET: the form; invalid data: its errors, nothing changes; valid data: one new post with the submitted title and content, the requester as author and the current time, no older than any other post so it can head the newest-first list, plus a success notice and a redirect to it |
| `BlogViews.PostUpdate` | blog/views.py:65-79 | anonymous: login redirect; unknown post: 404; anyone not signed in as the post's author: 403; the author's GET: the form; the author's invalid POST: its errors; nothing changes in all these; exactly the author's valid POST changes the post, only its title and content, keeping author and date, with a success notice and a redirect to it |
| `BlogViews.PostDelete` | blog/views.py:82-95 | anonymous: login redirect; unknown post: 404; anyone not signed in as the post's author: 403; the author's GET: the confirmation page; nothing changes in these cases; exactly the author's POST deletes the post with exactly its comments, with a success notice and a redirect home |
| `BlogViews.AddComment` | blog/views.py:98-112 | unknown post: 404; a valid POST by a signed-in user adds exactly one comment on that post by that user, stamped now; a valid POST with nobody signed in, and nothing else, fails with 500 and changes nothing; anything else changes nothing and shows no notice; every outcome but 404 and the anonymous valid POST redirects to the post |
| `BlogViews.DeleteComment` | blog/views.py:115-126 | unknown comment: 404; the comment is deleted exactly when the requester is its author, otherwise nothing changes and an error notice is shown; both redirect to the comment's post |
| `BlogViews.Owns` | blog/views.py:77-79 | the ownership test: true exactly when the requester is signed in as the record's author; what it decides is stated by the 403 clauses of `BlogViews.PostUpdate` and `BlogViews.PostDelete` and the deletion clause of `BlogViews.DeleteComment` |
| `BlogModels.NewPost` | blog/models.py:12 | a new post takes its fields from the arguments and is stamped with the current time; `Store.NewPostIsNewest` shows it is then no older than any stored post |
| `BlogModels.NewComment` | blog/models.py:33 | a new comment takes its fields from the arguments and is stamped with the current time; `Store.NewCommentIsNewest` shows it is then no older than any stored comment |
| `BlogModels.PostStr` | blog/models.py:20-21 | a post's label is its title; `Store.PostLabelFitsColumn` and `BlogForms.AcceptedPostLabel` show that it has 1 to 200 characters for any post an accepted form builds, and at most 200 for every stored post |
| `BlogModels.CommentStr` | blog/models.py:40-41 | a comment's label is "Коментар від ", then exactly the author's username, then ' до "', then exactly the post's title, then a closing quote |
| `BlogModels.CommentStrInjective` | blog/models.py:40-41 | a comment's label determines its author's username and its post's title, since usernames hold no spaces |
| `UsersModels.DefaultProfile` | users/models.py:9-10 | a profile created with only its user has image "default.jpg" and an empty bio; `UsersAdmin.DefaultProfilePreview` shows its empty preview, and `UsersSignals.CreateUser` shows that every new account receives one |
| `UsersModels.ProfileStr` | users/models.py:16-17 | a profile's label is "Профіль " followed by the username, so the username can be read back from it; `Store.ProfileLabelsDistinct` shows that different profiles have different labels |
| `BlogForms.CleanPostForm` | blog/forms.py:5-10 | the post form is valid exactly when the title is non-empty and at most 200 characters and the content is non-empty; then it yields those two values; otherwise its errors are keyed "title" and "content", present exactly for the invalid fields, with the kind of error |
| `BlogForms.CleanCommentForm` | blog/forms.py:23-28 | the comment form is valid exactly when the content is non-empty and then yields it; otherwise its only error is "content" required |
| `BlogForms.UndeclaredFieldsIgnored` | blog/forms.py:8-10 | a submitted field the post form does not declare (anything but title and content, such as an author or a post) leaves its result unchanged; a field other than content, title included, leaves the comment form's result unchanged |
| `BlogForms.AcceptedPostLabel` | blog/forms.py:5-10 | a post built from an accepted form has the requester as author, the given time, and a label that is non-empty and fits the 200-character title column |
| `BlogForms.OverlongTitleRejected` | blog/models.py:10 | every 201-character title is refused with a too-long error on "title" naming the limit 200 and the length 201 |
| `Store.NewPostIsNewest` | blog/models.py:12 | a post stamped now is at least as new as every stored post |
| `Store.NewCommentIsNewest` | blog/models.py:33 | a comment stamped now is at least as new as every stored comment |
| `Store.PostLabelFitsColumn` | blog/models.py:20-21 | the label of every stored post has at most 200 characters |
| `Store.ProfileLabelsDistinct` | users/models.py:16-17 | in a store that keeps its constraints, two different profiles never have the same label |
| `UsersAdmin.DefaultProfilePreview` | users/admin.py:10-11 | a fresh profile shows an empty biography column |
| `Preview.Excerpt` | blog/admin.py:21 | text of at most 50 characters is kept whole; longer text becomes its first 50 characters and "..."; a preview never exceeds 53 characters and always starts with the text's first min(50, length) characters |
| `Preview.ExcerptIdempotent` | blog/admin.py:21 | previewing a preview changes nothing |
| `BlogAdmin.ContentPreview` | blog/admin.py:20-21 | a comment's preview is its content when that has at most 50 characters, otherwise its first 50 characters and "..."; never over 53 characters |
| `UsersAdmin.BioPreview` | users/admin.py:10-11 | a profile's preview is its bio when that has at most 50 characters, otherwise its first 50 characters and "..."; never over 53 characters; empty for an empty bio |
| `Store.Database.DeleteUser` | blog/models.py:13 | deleting a user removes exactly their posts, their comments and the comments on their posts, and their profile; every other row is kept unchanged and the constraints still hold |
| `Store.Database.DeletePost` | blog/models.py:30 | deleting a post removes exactly its comments and keeps every other post and comment unchanged |
| `Store.Database.InsertPost` | blog/models.py:7-13 | a post is stored under a fresh key and nothing else changes |
| `Store.Database.InsertComment` | blog/models.py:27-33 | a comment is stored under a fresh key and nothing else changes |
| `Store.Database.UpdatePost` | blog/views.py:75 | saving an edited post replaces exactly that row and keeps every other post |
| `Store.Database.DeleteComment` | blog/views.py:121 | deleting a comment removes exactly that row and keeps every other comment |
| `Store.Database.InsertUser` | users/signals.py:8 | a new account is refused exactly when its username is taken; otherwise it is stored under a fresh key and no other user changes |
| `Store.Database.UpdateUser` | users/signals.py:8 | saving an account is refused exactly when another user has the new username; otherwise only that user's row changes |
| `Store.Database.InsertProfile` | users/models.py:8 | a second profile for the same user is refused by the one-to-one constraint; otherwise the profile is stored under a fresh key |
| `Store.Database.UserNamed` | blog/views.py:30 | finds the one user with the username, or reports there is none |
| `Store.Database.ProfileOf` | users/signals.py:17 | finds the one profile of the user, or reports there is none |
| `Store.CascadeKeepsTablesValid` | blog/models.py:31 | after a user's cascade no row refers to a missing user or post, and every other constraint still holds |
| `UsersSignals.CreateOrUpdateProfile` | users/signals.py:8-17 | on a creation: inserts a default profile, and fails exactly when the user already has one; on a save: never fails, finds the existing profile and leaves every profile as it was, or creates the missing default one; afterwards the user has a profile |
| `UsersSignals.CreateUser` | users/signals.py:14-15 | an account is refused exactly when its username is taken; otherwise it gets exactly one new default profile and no other profile changes; if every user had one profile before, that still holds |
| `UsersSignals.SaveUser` | users/signals.py:16-17 | saving is refused exactly when another user has the new username; a saved account gets a default profile only if it had none, and otherwise every profile is left untouched; afterwards it has a profile, and one profile per user is kept |
| `UsersSignals.DeleteAccount` | users/models.py:8 | deleting an account removes exactly that user, their posts, their comments, the comments on their posts and their profile, and keeps every other row unchanged; if every user had exactly one profile before, every remaining user still does |
| `UsersSignals.SaveUserTwice` | users/signals.py:16-17 | saving the same values twice has exactly the effect of one save: both are refused exactly when another user has the username; the profiles gain one default profile only if the account had none, and are otherwise unchanged |
| `UsersSignals.ProfileCountIsUserCount` | users/models.py:8 | when every user has a profile there are exactly as many profiles as users |
| `UsersSignals.ExactlyOneProfile` | users/models.py:8 | when every user has a profile each user has exactly one, the one the lookup finds |

Beyond the table, `Ordering.OrderedRows`, `Ordering.SortBy` and
`Ordering.FirstPage` state the properties the list queries rely on:
the result is sorted, it is a permutation of the matching rows, and it holds
each row once.

## Left out

- Image resizing in `Profile.save` (users/models.py:19-28): file I/O through an imaging library.
- users/forms.py and the register and profile views: the email, password and duplicate-username checks live in framework forms that are not part of this model. New and saved users enter only through `UsersSignals.CreateUser` and `UsersSignals.SaveUser`, whose only check is the unique username.
- Templates, widgets, labels, URLs and admin list settings. A redirect is the target's tag, and the message framework is the `Notice` of a response.
- Sessions and login: the requester is a parameter, `Anonymous` or `Authenticated(id)`.
- Request methods other than GET and POST: the create and update views also accept PUT as a form submission, and an HTTP DELETE reaches the post-delete view's `delete()`. Requests are reduced to GET and POST here.
- Pages after the first: the paginator is not part of this model; only the first page of the home list is modelled.
- Wall-clock time: the clock is a natural number advanced by `Store.Database.Tick`. Posts or comments with equal timestamps are only ordered up to ties, as the database leaves their order open.
- BlogForms.CleanPostForm: does not strip surrounding whitespace, which the framework's form fields do before every check. So a title or content of spaces only counts as non-empty here, the 200-character limit is measured on the unstripped title, and the unstripped value is what gets stored.
- BlogForms.CleanPostForm: does not reject values that contain a NUL character, which the framework's text fields refuse.
- BlogForms.CleanCommentForm: has the same two gaps as the post form: no whitespace stripping (before the required check and on the stored value) and no NUL-character rejection.
- BlogViews.PostDelete: the success notice is modelled as always emitted on deletion. Whether the framework routes a POST through the overridden `delete()` depends on its version, which is not part of this model.
- BlogViews.AddComment: the 500 for a valid comment with nobody signed in stands for the exception the framework raises when an anonymous requester is assigned as author.
- `get_absolute_url` is the `RedirectDetail(pk)` outcome, and the `author` context of the user post list is left out.
