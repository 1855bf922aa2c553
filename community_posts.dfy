/** The post routes of the community board: `new_post`, `edit_post` and `delete_post`. */
module CommunityPosts {
  import opened Wrappers
  import opened Lists
  import opened CommunityText
  import opened CommunityForms
  import opened CommunityRecords
  import opened CommunityGuards

  /** The submitted post form after WTForms has run: whether it validates, and its fields.
      `submitDraft` is whether the "save draft" button was the one pressed. */
  datatype PostForm = PostForm(
    valid: bool, content: string, commentPermission: seq<string>, visibility: string,
    isAdult: bool, isAnonymous: bool, categories: seq<int>, tags: Option<string>,
    accessibleUsers: Option<string>, submitDraft: bool)

  /** What `save_picture` did with the uploaded file: there was none, it was stored under a
      file name, it raised `ValueError` with a message, or it raised anything else. */
  datatype Upload = NoFile | Saved(filename: string) | Refused(message: string) | Crashed

  const ImageExtensions: seq<string> := ["png", "jpg", "jpeg", "gif", "webp"]

  /** `'draft' if 'submit_draft' in request.form else 'published'`. */
  function Status(submitDraft: bool): (s: string)
    ensures s == "draft" <==> submitDraft
    ensures s == "published" <==> !submitDraft
  {
    if submitDraft then "draft" else "published"
  }

  /** `name.rsplit('.', 1)[1]`: the text after the last ".", or none when there is no "."
      (where the indexing raises `IndexError`). */
  function Extension(name: string): (r: Option<string>)
    ensures r.None? <==> '.' !in name
    ensures r.Some? ==> (|r.value| < |name| && name[|name| - |r.value| - 1] == '.'
                         && name[|name| - |r.value|..] == r.value && '.' !in r.value)
  {
    if name == [] then None
    else if name[|name| - 1] == '.' then Some([])
    else
      match Extension(name[..|name| - 1])
      case None =>
        assert forall c :: c in name ==> c in name[..|name| - 1] || c == name[|name| - 1];
        None
      case Some(e) =>
        var e' := e + [name[|name| - 1]];
        assert name[|name| - |e'|..] == name[..|name| - 1][|name| - 1 - |e|..] + [name[|name| - 1]];
        Some(e')
  }

  /** The media type stored for an uploaded file: "image" iff the lower-cased extension is
      one of the image extensions, otherwise "other"; a file name without "." fails. */
  function MediaType(filename: string): (r: Outcome<string>)
    ensures r.Ok? <==> '.' in filename
    ensures r.Ok? ==> (r.value == "image" <==> Lower(Extension(filename).value) in ImageExtensions)
    ensures r.Ok? ==> r.value == "image" || r.value == "other"
  {
    match Extension(filename)
    case None => Err(500, "IndexError: list index out of range")
    case Some(ext) => Ok(if Lower(ext) in ImageExtensions then "image" else "other")
  }

  /** `[uname.strip() for uname in s.split(',') if uname.strip()]`. */
  function Usernames(s: string): (r: seq<string>)
    ensures forall k :: 0 <= k < |r| ==> r[k] != [] && ',' !in r[k]
  {
    var pieces := SplitOn(s, IsComma);
    var kept := Filter(pieces, NotBlank);
    var r := Map(kept, Strip);
    assert forall k :: 0 <= k < |r| ==> r[k] != [] && ',' !in r[k] by {
      forall k | 0 <= k < |r| ensures r[k] != [] && ',' !in r[k] {
        assert kept[k] in kept;
        assert kept[k] in pieces;
      }
    }
    r
  }

  /** `User.username.in_(names)`. */
  function NamedIn(names: seq<string>): User -> bool
  {
    (u: User) => u.username in names
  }

  function UserIdOf(u: User): int
  {
    u.id
  }

  /** The users whose name is listed, in table order, as ids. */
  function Accessible(users: seq<User>, names: seq<string>): (r: seq<int>)
    ensures forall id :: id in r <==> exists k :: 0 <= k < |users| && users[k].id == id && users[k].username in names
  {
    var kept := Filter(users, NamedIn(names));
    var r := Map(kept, UserIdOf);
    assert forall id :: id in r <==> exists u :: u in kept && u.id == id by {
      forall id ensures id in r <==> exists u :: u in kept && u.id == id {
        if id in r {
          var k :| 0 <= k < |r| && r[k] == id;
          assert kept[k] in kept;
        }
        if exists u :: u in kept && u.id == id {
          var u :| u in kept && u.id == id;
          var k :| 0 <= k < |kept| && kept[k] == u;
          assert r[k] == id;
        }
      }
    }
    r
  }

  /** The accessible users a post gets from the form: only a private post with a non-empty
      field has any. */
  function AccessibleFromForm(users: seq<User>, form: PostForm): (r: seq<int>)
    ensures form.visibility != "private" || form.accessibleUsers.None? || form.accessibleUsers.value == [] ==> r == []
    ensures form.visibility == "private" && form.accessibleUsers.Some? ==>
      forall id :: id in r <==> (exists k :: 0 <= k < |users| && users[k].id == id
                                  && users[k].username in Usernames(form.accessibleUsers.value))
  {
    if form.visibility == "private" && form.accessibleUsers.Some? && form.accessibleUsers.value != [] then
      Accessible(users, Usernames(form.accessibleUsers.value))
    else []
  }

  /** `Category.id.in_(selected)`. */
  function Selected(selected: seq<int>): int -> bool
  {
    (c: int) => c in selected
  }

  /** The stored media of a post after an upload, or the failure the upload raises. */
  function StoredMedia(upload: Upload, current: (Option<string>, Option<string>))
    : (r: Outcome<(Option<string>, Option<string>)>)
    ensures upload.NoFile? ==> r == Ok(current)
    ensures upload.Saved? && r.Ok? ==> (MediaType(upload.filename).Ok? && r.value.0 == Some(upload.filename)
                                        && r.value.1 == Some(MediaType(upload.filename).value))
    ensures upload.Saved? ==> (r.Ok? <==> '.' in upload.filename)
  {
    match upload
    case NoFile => Ok(current)
    case Saved(f) =>
      (match MediaType(f)
       case Err(code, detail) => Err(code, detail)
       case Ok(t) => Ok((Some(f), Some(t))))
    case Refused(message) => Err(400, message)
    case Crashed => Err(500, "Internal Server Error")
  }

  // ---------------------------------------------------------------- new_post

  /** The message `new_post` answers with when the upload raises anything but `ValueError`. */
  const UploadFailed: string := "ファイルのアップロード中にエラーが発生しました。"

  function PostIdOf(p: Post): int
  {
    p.id
  }

  /** The ids in the posts table. */
  function PostIds(posts: seq<Post>): (ids: seq<int>)
    ensures |ids| == |posts| && forall k :: 0 <= k < |posts| ==> ids[k] == posts[k].id
  {
    Map(posts, PostIdOf)
  }

  /** The post `new_post` builds from a validated form: the form's content, permissions,
      visibility and flags, the status the button chose, the stored upload, the selected
      categories, the cleaned tags and (for a private post) the listed users. */
  function Drafted(id: int, authorId: int, users: seq<User>, categories: seq<int>, form: PostForm,
                   media: (Option<string>, Option<string>), now: int)
    : (p: Post)
    ensures p.id == id && p.authorId == authorId && p.createdAt == now
    ensures p.content == form.content && (p.status == "draft" <==> form.submitDraft)
    ensures p.mediaFilename == media.0 && p.mediaType == media.1
    ensures p.tags == CleanedTags(form.tags) && p.accessibleUsers == AccessibleFromForm(users, form)
    ensures forall c :: c in p.categories <==> c in categories && c in form.categories
  {
    Post(id, authorId, form.content, Status(form.submitDraft), JoinWith(form.commentPermission, ','),
         form.visibility, form.isAdult, form.isAnonymous, media.0, media.1,
         Filter(categories, Selected(form.categories)), CleanedTags(form.tags),
         AccessibleFromForm(users, form), now)
  }

  /** `new_post` on POST: signed in; 400 for a form that does not validate; then the upload,
      where a `ValueError` answers 400 with its message and any other failure 500; the new
      post gets the next id and the caller as author. The reply is the message shown. */
  function NewPostStep(users: seq<User>, posts: seq<Post>, categories: seq<int>, session: Option<int>,
                       form: PostForm, upload: Upload, now: int)
    : (r: Outcome<(seq<Post>, string)>)
    ensures r.Ok? ==> SignedIn(users, session).Ok? && form.valid && StoredMedia(upload, (None, None)).Ok?
    ensures SignedIn(users, session).Ok? && !form.valid ==> r == Err(400, "入力内容にエラーがあります。")
    ensures r.Ok? ==>
      r.value.0 == posts + [Drafted(NextId(PostIds(posts)), session.value, users, categories, form,
                                    StoredMedia(upload, (None, None)).value, now)]
    ensures (SignedIn(users, session).Ok? && form.valid && upload.Saved? && '.' !in upload.filename)
            ==> r == Err(500, UploadFailed)
    ensures SignedIn(users, session).Ok? && form.valid && upload.Refused? ==> r == Err(400, upload.message)
    ensures SignedIn(users, session).Ok? && form.valid && StoredMedia(upload, (None, None)).Ok? ==> r.Ok?
  {
    match SignedIn(users, session)
    case Err(code, detail) => Err(code, detail)
    case Ok(me) =>
      if !form.valid then Err(400, "入力内容にエラーがあります。")
      else
        match StoredMedia(upload, (None, None))
        case Err(code, detail) => if code == 400 then Err(400, detail) else Err(500, UploadFailed)
        case Ok(media) =>
          var post := Drafted(NextId(PostIds(posts)), me.id, users, categories, form, media, now);
          Ok((posts + [post], if post.status == "draft" then "投稿を下書きに保存しました。" else "新しい投稿を作成しました！"))
  }

  method NewPost(site: Site, session: Option<int>, form: PostForm, upload: Upload, now: int) returns (r: Outcome<string>)
    modifies site`posts
    ensures Settles(NewPostStep(site.users, old(site.posts), site.categories, session, form, upload, now),
                    old(site.posts), site.posts, r)
  {
    var signedIn := SignedIn(site.users, session);
    if signedIn.Err? {
      return Err(signedIn.status, signedIn.detail);
    }
    if !form.valid {
      return Err(400, "入力内容にエラーがあります。");
    }
    var media := StoredMedia(upload, (None, None));
    if media.Err? {
      return if media.status == 400 then Err(400, media.detail) else Err(500, UploadFailed);
    }
    var tags := CleanTags(form.tags);
    var post := Post(NextId(PostIds(site.posts)), signedIn.value.id, form.content, Status(form.submitDraft),
                     JoinWith(form.commentPermission, ','), form.visibility, form.isAdult, form.isAnonymous,
                     media.value.0, media.value.1, Filter(site.categories, Selected(form.categories)), tags,
                     AccessibleFromForm(site.users, form), now);
    site.posts := site.posts + [post];
    r := Ok(if post.status == "draft" then "投稿を下書きに保存しました。" else "新しい投稿を作成しました！");
  }

  /** A new post never reuses an id: unique ids stay unique. */
  lemma NewPostKeepsIdsUnique(users: seq<User>, posts: seq<Post>, categories: seq<int>, session: Option<int>,
                              form: PostForm, upload: Upload, now: int)
    requires UniquePostIds(posts)
    requires NewPostStep(users, posts, categories, session, form, upload, now).Ok?
    ensures UniquePostIds(NewPostStep(users, posts, categories, session, form, upload, now).value.0)
  {
  }

  /** Saving the edit form of a post unchanged, as it was created, gives back the same post. */
  lemma ResubmitUnchanged(id: int, authorId: int, users: seq<User>, categories: seq<int>, form: PostForm,
                          media: (Option<string>, Option<string>), now: int)
    ensures var p := Drafted(id, authorId, users, categories, form, media, now);
      Edited(p, users, categories, form, media) == p
  {
  }

  // ---------------------------------------------------------------- edit_post

  /** The post after the form's fields are assigned: content, comment permission, visibility,
      flags, status, the new upload if any, the selected categories, the tag list replaced by
      the cleaned tags, and the accessible users reset and re-read from the form. */
  function Edited(p: Post, users: seq<User>, categories: seq<int>, form: PostForm, media: (Option<string>, Option<string>))
    : (p': Post)
    ensures p'.id == p.id && p'.authorId == p.authorId && p'.createdAt == p.createdAt
    ensures p'.content == form.content && (p'.status == "draft" <==> form.submitDraft)
    ensures p'.tags == CleanedTags(form.tags) && p'.accessibleUsers == AccessibleFromForm(users, form)
    ensures forall c :: c in p'.categories <==> c in categories && c in form.categories
  {
    p.(content := form.content, commentPermission := JoinWith(form.commentPermission, ','),
       visibility := form.visibility, isAdult := form.isAdult, isAnonymous := form.isAnonymous,
       status := Status(form.submitDraft), mediaFilename := media.0, mediaType := media.1,
       categories := Filter(categories, Selected(form.categories)), tags := CleanedTags(form.tags),
       accessibleUsers := AccessibleFromForm(users, form))
  }

  /** `edit_post` on POST: signed in; 404 for a missing post; 403 unless the caller is its
      author or an admin; 400 for a form that does not validate. The old content goes to the
      history only when the content changes. */
  function EditPostStep(users: seq<User>, posts: seq<Post>, histories: seq<EditHistory>, categories: seq<int>,
                        session: Option<int>, postId: int, form: PostForm, upload: Upload)
    : (r: Outcome<((seq<Post>, seq<EditHistory>), string)>)
    ensures r.Ok? ==> SignedIn(users, session).Ok? && FindPost(posts, postId).Some? && form.valid
    ensures r.Ok? ==> MayModify(posts[FindPost(posts, postId).value].authorId, SignedIn(users, session).value)
    ensures SignedIn(users, session).Ok? && FindPost(posts, postId).None? ==> r == Err(404, "Not Found")
    ensures SignedIn(users, session).Ok? && FindPost(posts, postId).Some? ==>
      var p := posts[FindPost(posts, postId).value];
      && (!MayModify(p.authorId, SignedIn(users, session).value) ==> r == Err(403, "Forbidden"))
      && (MayModify(p.authorId, SignedIn(users, session).value) && !form.valid ==> r == Err(400, "入力内容にエラーがあります。"))
      && ((MayModify(p.authorId, SignedIn(users, session).value) && form.valid
           && StoredMedia(upload, (p.mediaFilename, p.mediaType)).Ok?) ==> r.Ok?)
    ensures r.Ok? ==> var i := FindPost(posts, postId).value;
      var p := posts[i];
      var (posts', histories') := r.value.0;
      && |posts'| == |posts|
      && (forall k :: 0 <= k < |posts| && k != i ==> posts'[k] == posts[k])
      && StoredMedia(upload, (p.mediaFilename, p.mediaType)).Ok?
      && posts'[i] == Edited(p, users, categories, form, StoredMedia(upload, (p.mediaFilename, p.mediaType)).value)
      && histories' == if p.content != form.content then histories + [EditHistory(p.content, p.id, "Post")] else histories
  {
    match SignedIn(users, session)
    case Err(code, detail) => Err(code, detail)
    case Ok(me) =>
      match FindPost(posts, postId)
      case None => Err(404, "Not Found")
      case Some(i) =>
        var p := posts[i];
        if !MayModify(p.authorId, me) then Err(403, "Forbidden")
        else if !form.valid then Err(400, "入力内容にエラーがあります。")
        else
          match StoredMedia(upload, (p.mediaFilename, p.mediaType))
          case Err(code, detail) => Err(code, detail)
          case Ok(media) =>
            var histories' := if p.content != form.content then histories + [EditHistory(p.content, p.id, "Post")] else histories;
            var p' := Edited(p, users, categories, form, media);
            Ok(((posts[i := p'], histories'), if p'.status == "draft" then "下書きを更新しました。" else "投稿を更新しました。"))
  }

  method EditPost(site: Site, session: Option<int>, postId: int, form: PostForm, upload: Upload) returns (r: Outcome<string>)
    modifies site`posts, site`histories
    ensures Settles(EditPostStep(site.users, old(site.posts), old(site.histories), site.categories, session, postId, form, upload),
                    (old(site.posts), old(site.histories)), (site.posts, site.histories), r)
  {
    var signedIn := SignedIn(site.users, session);
    if signedIn.Err? {
      return Err(signedIn.status, signedIn.detail);
    }
    var found := FindPost(site.posts, postId);
    if found.None? {
      return Err(404, "Not Found");
    }
    var i := found.value;
    var p := site.posts[i];
    if !MayModify(p.authorId, signedIn.value) {
      return Err(403, "Forbidden");
    }
    if !form.valid {
      return Err(400, "入力内容にエラーがあります。");
    }
    var media := StoredMedia(upload, (p.mediaFilename, p.mediaType));
    if media.Err? {
      return Err(media.status, media.detail);
    }
    if p.content != form.content {
      site.histories := site.histories + [EditHistory(p.content, p.id, "Post")];
    }
    var p' := Edited(p, site.users, site.categories, form, media.value);
    site.posts := site.posts[i := p'];
    r := Ok(if p'.status == "draft" then "下書きを更新しました。" else "投稿を更新しました。");
  }

  /** An edit replaces the tag list and the accessible users outright: what the post had
      before has no bearing on them. */
  lemma EditReplacesTags(p: Post, oldTags: seq<string>, oldAccessible: seq<int>, users: seq<User>, categories: seq<int>,
                         form: PostForm, media: (Option<string>, Option<string>))
    ensures Edited(p.(tags := oldTags, accessibleUsers := oldAccessible), users, categories, form, media)
         == Edited(p, users, categories, form, media)
  {
  }

  /** Turning a post public clears its accessible users. */
  lemma EditPublicClearsAccess(p: Post, users: seq<User>, categories: seq<int>, form: PostForm,
                               media: (Option<string>, Option<string>))
    requires form.visibility != "private"
    ensures Edited(p, users, categories, form, media).accessibleUsers == []
  {
  }

  // ---------------------------------------------------------------- delete_post

  /** `delete_post`: signed in; 404 for a missing post; 403 unless the caller is its author
      or an admin; then the post's row is removed. */
  function DeletePostStep(users: seq<User>, posts: seq<Post>, session: Option<int>, postId: int)
    : (r: Outcome<(seq<Post>, int)>)
    ensures r.Ok? ==> SignedIn(users, session).Ok? && FindPost(posts, postId).Some?
    ensures r.Ok? ==> MayModify(posts[FindPost(posts, postId).value].authorId, SignedIn(users, session).value)
    ensures r.Ok? ==> var i := FindPost(posts, postId).value;
      r.value.0 == posts[..i] + posts[i + 1..] && r.value.1 == postId
    ensures (SignedIn(users, session).Ok? && FindPost(posts, postId).Some?
             && !MayModify(posts[FindPost(posts, postId).value].authorId, SignedIn(users, session).value))
            ==> r == Err(403, "Forbidden")
    ensures SignedIn(users, session).Ok? && FindPost(posts, postId).None? ==> r == Err(404, "Not Found")
    ensures (SignedIn(users, session).Ok? && FindPost(posts, postId).Some?
             && MayModify(posts[FindPost(posts, postId).value].authorId, SignedIn(users, session).value))
            ==> r.Ok?
  {
    match SignedIn(users, session)
    case Err(code, detail) => Err(code, detail)
    case Ok(me) =>
      match FindPost(posts, postId)
      case None => Err(404, "Not Found")
      case Some(i) =>
        if !MayModify(posts[i].authorId, me) then Err(403, "Forbidden")
        else Ok((posts[..i] + posts[i + 1..], posts[i].id))
  }

  method DeletePost(site: Site, session: Option<int>, postId: int) returns (r: Outcome<int>)
    modifies site`posts
    ensures Settles(DeletePostStep(site.users, old(site.posts), session, postId), old(site.posts), site.posts, r)
  {
    var signedIn := SignedIn(site.users, session);
    if signedIn.Err? {
      return Err(signedIn.status, signedIn.detail);
    }
    var found := FindPost(site.posts, postId);
    if found.None? {
      return Err(404, "Not Found");
    }
    var i := found.value;
    if !MayModify(site.posts[i].authorId, signedIn.value) {
      return Err(403, "Forbidden");
    }
    var deleted := site.posts[i].id;
    site.posts := site.posts[..i] + site.posts[i + 1..];
    r := Ok(deleted);
  }

  /** After a delete no post with that id is left, when ids are unique. */
  lemma DeletePostRemoves(users: seq<User>, posts: seq<Post>, session: Option<int>, postId: int)
    requires UniquePostIds(posts)
    requires DeletePostStep(users, posts, session, postId).Ok?
    ensures var posts' := DeletePostStep(users, posts, session, postId).value.0;
      FindPost(posts', postId).None? && |posts'| == |posts| - 1
  {
    var i := FindPost(posts, postId).value;
    var posts' := posts[..i] + posts[i + 1..];
    forall j | 0 <= j < |posts'| ensures posts'[j].id != postId {
      if j < i {
        assert posts'[j] == posts[j];
      } else {
        assert posts'[j] == posts[j + 1];
      }
    }
  }

  // ---------------------------------------------------------------- the edit form's fields

  function LeadSpace(name: string): string
  {
    " " + name
  }

  /** `', '.join(names)`, written as a join on "," of the names with a space before every
      name but the first. */
  function CommaSpaceJoin(names: seq<string>): string
  {
    if names == [] then [] else JoinWith(Spaced(names), ',')
  }

  /** A name the parser keeps as it is: non-empty, without ",", not starting or ending with
      whitespace. */
  predicate PlainName(n: string)
  {
    n != [] && ',' !in n && !IsSpace(n[0]) && !IsSpace(n[|n| - 1])
  }

  /** The pieces `', '.join(names)` is made of. */
  function Spaced(names: seq<string>): (pieces: seq<string>)
    requires names != []
    ensures |pieces| == |names| && pieces[0] == names[0]
    ensures forall k :: 1 <= k < |names| ==> pieces[k] == " " + names[k]
  {
    [names[0]] + Map(names[1..], LeadSpace)
  }

  lemma SpacedCommaFree(names: seq<string>)
    requires names != []
    requires forall k :: 0 <= k < |names| ==> PlainName(names[k])
    ensures var pieces := Spaced(names);
      forall k :: 0 <= k < |pieces| ==> forall i :: 0 <= i < |pieces[k]| ==> !IsComma(pieces[k][i])
  {
    var pieces := Spaced(names);
    forall k, i | 0 <= k < |pieces| && 0 <= i < |pieces[k]| ensures !IsComma(pieces[k][i]) {
      if k > 0 && i > 0 {
        assert pieces[k][i] == names[k][i - 1];
        assert names[k][i - 1] in names[k];
      } else if k == 0 {
        assert pieces[k][i] in names[0];
      }
    }
  }

  lemma SpacedStrip(names: seq<string>)
    requires names != []
    requires forall k :: 0 <= k < |names| ==> PlainName(names[k])
    ensures var pieces := Spaced(names);
      forall k :: 0 <= k < |pieces| ==> NotBlank(pieces[k]) && Strip(pieces[k]) == names[k]
  {
    var pieces := Spaced(names);
    forall k | 0 <= k < |pieces| ensures Strip(pieces[k]) == names[k] {
      if k > 0 {
        StripPadded([' '], names[k], []);
        assert [' '] + names[k] + [] == pieces[k];
      } else {
        StripPadded([], names[0], []);
        assert [] + names[0] + [] == pieces[0];
      }
    }
  }

  /** The accessible users shown on the edit form read back as the same names: parsing
      `', '.join(names)` gives `names`. */
  lemma UsernamesRoundTrip(names: seq<string>)
    requires forall k :: 0 <= k < |names| ==> PlainName(names[k])
    ensures Usernames(CommaSpaceJoin(names)) == names
  {
    if names != [] {
      var pieces := Spaced(names);
      SpacedCommaFree(names);
      SpacedStrip(names);
      SplitJoin(pieces, ',', IsComma);
      FilterAll(pieces, NotBlank);
      var r := Map(pieces, Strip);
      assert |r| == |names|;
      assert forall k :: 0 <= k < |r| ==> r[k] == names[k];
    }
  }

  /** The comment permissions the edit form shows: the stored string split on ",", or none
      when it is empty. */
  function ShownPermissions(p: Post): seq<string>
  {
    if p.commentPermission == [] then [] else SplitOn(p.commentPermission, IsComma)
  }

  /** Saving the permissions shown on the edit form keeps them: the edit form reads back
      exactly the roles that were ticked, when each role name is non-empty and has no ",". */
  lemma PermissionsRoundTrip(p: Post, users: seq<User>, categories: seq<int>, form: PostForm,
                             media: (Option<string>, Option<string>))
    requires forall k :: 0 <= k < |form.commentPermission| ==> form.commentPermission[k] != [] && ',' !in form.commentPermission[k]
    ensures ShownPermissions(Edited(p, users, categories, form, media)) == form.commentPermission
  {
    var perms := form.commentPermission;
    if perms != [] {
      forall k | 0 <= k < |perms| ensures forall i :: 0 <= i < |perms[k]| ==> !IsComma(perms[k][i]) {
        assert forall i :: 0 <= i < |perms[k]| ==> perms[k][i] in perms[k];
      }
      SplitJoin(perms, ',', IsComma);
    }
  }
}
