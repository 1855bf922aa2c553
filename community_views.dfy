/** The board's pages: the flags `board_index` derives from its query string, and
    `post_detail`, which decides who may see a post and who may comment on it. */
module CommunityViews {
  import opened Wrappers
  import opened Lists
  import opened CommunityText
  import opened CommunityRecords
  import opened CommunityGuards

  // ---------------------------------------------------------------- board_index

  /** What `board_index` hands to the post query besides the raw arguments. */
  datatype BoardFlags = BoardFlags(anonymousOnly: bool, roleFilter: Option<string>)

  /** The flags for the `mode` and `feed` arguments: anonymous posts only in the anonymous
      mode; a role filter only for the three role feeds. */
  function Flags(mode: string, feed: string): (f: BoardFlags)
    ensures f.anonymousOnly <==> mode == "anonymous"
    ensures f.roleFilter.Some? <==> feed in ["vtuber", "fan", "creator"]
    ensures f.roleFilter.Some? ==> f.roleFilter.value == feed
  {
    BoardFlags(mode == "anonymous", if feed in ["vtuber", "fan", "creator"] then Some(feed) else None)
  }

  /** `board_index` sits behind `age_verified` alone: anyone passes but a signed-in user
      with no birthdate. */
  function BoardGuard(users: seq<User>, session: Option<int>): (r: Outcome<()>)
    ensures r.Ok? <==> Viewer(users, session).None? || Viewer(users, session).value.birthdate.Some?
  {
    AgeVerified(Viewer(users, session))
  }

  // ---------------------------------------------------------------- post_detail

  /** The private-post rule: only a signed-in author or a listed user may see it. */
  predicate MaySee(viewer: Option<User>, p: Post)
  {
    p.visibility != "private" || (viewer.Some? && (viewer.value.id == p.authorId || viewer.value.id in p.accessibleUsers))
  }

  /** The viewer and the author are apart: either one blocks the other. */
  predicate Estranged(me: User, author: User)
  {
    Blocks(me, author) || Blocks(author, me)
  }

  /** The checks `post_detail` makes before anything else: `age_verified`, `check_banned`,
      404 for a missing post, 403 for a private post the viewer may not see, then — for a
      signed-in viewer — 403 when a block stands between viewer and author (a missing
      author row fails there). On success, the index of the post. */
  function DetailGuard(users: seq<User>, posts: seq<Post>, session: Option<int>, postId: int): (r: Outcome<nat>)
    ensures r.Ok? ==> r.value < |posts| && posts[r.value].id == postId && FindPost(posts, postId) == Some(r.value)
    ensures r.Ok? ==> MaySee(Viewer(users, session), posts[r.value])
    ensures r.Ok? && Viewer(users, session).Some? ==>
      var author := FindUser(users, posts[r.value].authorId);
      author.Some? && !Estranged(Viewer(users, session).value, users[author.value])
    ensures (AgeVerified(Viewer(users, session)).Ok? && CheckBanned(Viewer(users, session)).Ok?
             && FindPost(posts, postId).Some? && !MaySee(Viewer(users, session), posts[FindPost(posts, postId).value]))
            ==> r == Err(403, "Forbidden")
    ensures r.Ok? <==>
      && AgeVerified(Viewer(users, session)).Ok? && CheckBanned(Viewer(users, session)).Ok?
      && FindPost(posts, postId).Some?
      && var p := posts[FindPost(posts, postId).value];
         && MaySee(Viewer(users, session), p)
         && (Viewer(users, session).Some? ==>
               FindUser(users, p.authorId).Some?
               && !Estranged(Viewer(users, session).value, users[FindUser(users, p.authorId).value]))
  {
    var viewer := Viewer(users, session);
    if AgeVerified(viewer).Err? then Err(302, "community.verify_age")
    else if CheckBanned(viewer).Err? then Err(302, "main.top_page")
    else
      match FindPost(posts, postId)
      case None => Err(404, "Not Found")
      case Some(i) =>
        var p := posts[i];
        if !MaySee(viewer, p) then Err(403, "Forbidden")
        else if viewer.None? then Ok(i)
        else
          match FindUser(users, p.authorId)
          case None => Err(500, "AttributeError: 'NoneType' object has no attribute 'is_blocking'")
          case Some(a) => if Estranged(viewer.value, users[a]) then Err(403, "Forbidden") else Ok(i)
  }

  /** A private post is shown to nobody but its author and its listed users; a signed-in
      stranger and an anonymous visitor both get 403. */
  lemma PrivateIsPrivate(users: seq<User>, posts: seq<Post>, session: Option<int>, postId: int)
    requires DetailGuard(users, posts, session, postId).Ok?
    requires posts[FindPost(posts, postId).value].visibility == "private"
    ensures Viewer(users, session).Some?
    ensures var p := posts[FindPost(posts, postId).value];
      session.value == p.authorId || session.value in p.accessibleUsers
  {
  }

  /** Blocking works both ways: if either side blocks the other, the signed-in viewer is
      turned away. */
  lemma BlockHides(users: seq<User>, posts: seq<Post>, session: Option<int>, postId: int, a: nat)
    requires Viewer(users, session).Some? && FindPost(posts, postId).Some?
    requires a < |users| && FindUser(users, posts[FindPost(posts, postId).value].authorId) == Some(a)
    requires Estranged(Viewer(users, session).value, users[a])
    ensures DetailGuard(users, posts, session, postId).Err?
  {
  }

  /** The comment form: whether it validates, the text, and the hidden parent id field
      (`parent_id.data or None`: only the empty field counts as none; any id given, zero
      included, is kept). */
  datatype CommentForm = CommentForm(valid: bool, content: string, parentId: Option<int>)

  /** `post.get_allowed_comment_roles()` (a model method outside this model), taken to be
      the stored permission string split on ",". */
  function AllowedRoles(p: Post): seq<string>
  {
    SplitOn(p.commentPermission, IsComma)
  }

  /** The commenting rules in order: the role must be allowed, the user not banned, and at
      least 14 years old on `today`. */
  function MayComment(me: User, p: Post, today: Date): (r: Outcome<()>)
    ensures r.Ok? <==> (me.role in AllowedRoles(p) && !me.isBanned
                        && (me.birthdate.Some? ==> CalculateAge(me.birthdate, today).value >= 14))
    ensures me.role !in AllowedRoles(p) ==> r == Err(403, "この投稿にコメントする権限がありません。")
  {
    if me.role !in AllowedRoles(p) then Err(403, "この投稿にコメントする権限がありません。")
    else if me.isBanned then Err(403, "あなたのアカウントは、コミュニティ機能の利用が制限されています。")
    else if me.birthdate.Some? && CalculateAge(me.birthdate, today).value < 14 then
      Err(403, "14歳未満の方はコメントを投稿できません。")
    else Ok(())
  }

  function CommentIdOf(c: Comment): int
  {
    c.id
  }

  /** The checks of `post_detail` on POST, in order: the guard; 400 for a form that does
      not validate; an anonymous visitor fails on `current_user.role`; the commenting
      rules. On success, the post and the commenter. */
  function CommentGate(users: seq<User>, posts: seq<Post>, session: Option<int>, postId: int, form: CommentForm, today: Date)
    : (r: Outcome<(Post, User)>)
    ensures r.Ok? ==> DetailGuard(users, posts, session, postId).Ok? && form.valid && Viewer(users, session).Some?
    ensures r.Ok? ==> r.value == (posts[DetailGuard(users, posts, session, postId).value], Viewer(users, session).value)
    ensures r.Ok? ==> MayComment(r.value.1, r.value.0, today).Ok?
    ensures (DetailGuard(users, posts, session, postId).Ok? && form.valid && Viewer(users, session).None?)
            ==> r.Err? && r.status == 500
    ensures r.Ok? <==>
      && DetailGuard(users, posts, session, postId).Ok? && form.valid && Viewer(users, session).Some?
      && MayComment(Viewer(users, session).value, posts[DetailGuard(users, posts, session, postId).value], today).Ok?
  {
    match DetailGuard(users, posts, session, postId)
    case Err(code, detail) => Err(code, detail)
    case Ok(i) =>
      var p := posts[i];
      var viewer := Viewer(users, session);
      if !form.valid then Err(400, "入力内容にエラーがあります。")
      else if viewer.None? then Err(500, "AttributeError: 'AnonymousUserMixin' object has no attribute 'role'")
      else
        var me := viewer.value;
        match MayComment(me, p, today)
        case Err(code, detail) => Err(code, detail)
        case Ok(_) => Ok((p, me))
  }

  /** The comment `me` adds to `p`: the next id, and the form's parent id as given. */
  function NewComment(comments: seq<Comment>, p: Post, me: User, form: CommentForm, now: int): (c: Comment)
    ensures forall k :: 0 <= k < |comments| ==> comments[k].id < c.id
    ensures c.postId == p.id && c.authorId == me.id && c.parentId == form.parentId
    ensures c.content == form.content && !c.isBestAnswer && c.createdAt == now
  {
    var ids := Map(comments, CommentIdOf);
    assert forall k :: 0 <= k < |comments| ==> ids[k] == comments[k].id;
    Comment(NextId(ids), p.id, me.id, form.parentId, form.content, false, now)
  }

  /** `post_detail` on POST: past the checks, the comment is added, and the post's author
      is notified unless the commenter is the author. */
  function CommentStep(users: seq<User>, posts: seq<Post>, comments: seq<Comment>, notifications: seq<Notification>,
                       session: Option<int>, postId: int, form: CommentForm, today: Date, now: int)
    : (r: Outcome<((seq<Comment>, seq<Notification>), string)>)
    ensures r.Ok? ==> DetailGuard(users, posts, session, postId).Ok? && form.valid && Viewer(users, session).Some?
    ensures (DetailGuard(users, posts, session, postId).Ok? && form.valid && Viewer(users, session).None?)
            ==> r.Err? && r.status == 500
    ensures r.Ok? <==>
      && DetailGuard(users, posts, session, postId).Ok? && form.valid && Viewer(users, session).Some?
      && MayComment(Viewer(users, session).value, posts[DetailGuard(users, posts, session, postId).value], today).Ok?
  {
    match CommentGate(users, posts, session, postId, form, today)
    case Err(code, detail) => Err(code, detail)
    case Ok((p, me)) =>
      var notifications' :=
        if p.authorId != me.id then Notify(notifications, p.authorId, "new_comment", now) else notifications;
      Ok(((comments + [NewComment(comments, p, me, form, now)], notifications'), "コメントを投稿しました。"))
  }

  /** A comment gets in only past the commenting rules; it is appended with a fresh id,
      the post's id, the commenter, the form's text and parent id as given, and
      the post's author is notified unless they wrote it. */
  lemma CommentAdded(users: seq<User>, posts: seq<Post>, comments: seq<Comment>, notifications: seq<Notification>,
                     session: Option<int>, postId: int, form: CommentForm, today: Date, now: int)
    requires CommentStep(users, posts, comments, notifications, session, postId, form, today, now).Ok?
    ensures var r := CommentStep(users, posts, comments, notifications, session, postId, form, today, now);
      var me := Viewer(users, session).value;
      var p := posts[DetailGuard(users, posts, session, postId).value];
      && MayComment(me, p, today).Ok?
      && me.role in AllowedRoles(p) && !me.isBanned && CalculateAge(me.birthdate, today).value >= 14
      && var (comments', notifications') := r.value.0;
      && |comments'| == |comments| + 1 && comments'[..|comments|] == comments
      && var c := comments'[|comments|];
      && c.postId == postId && c.authorId == me.id && c.content == form.content && !c.isBestAnswer
      && c.parentId == form.parentId
      && (forall k :: 0 <= k < |comments| ==> comments[k].id < c.id)
      && (if p.authorId != me.id then notifications' == Notify(notifications, p.authorId, "new_comment", now)
          else notifications' == notifications)
  {
  }

  method PostComment(site: Site, session: Option<int>, postId: int, form: CommentForm, today: Date, now: int)
    returns (r: Outcome<string>)
    modifies site`comments, site`notifications
    ensures Settles(CommentStep(site.users, site.posts, old(site.comments), old(site.notifications), session, postId, form, today, now),
                    (old(site.comments), old(site.notifications)), (site.comments, site.notifications), r)
  {
    var gate := CommentGate(site.users, site.posts, session, postId, form, today);
    if gate.Err? {
      return Err(gate.status, gate.detail);
    }
    var (p, me) := gate.value;
    site.comments := site.comments + [NewComment(site.comments, p, me, form, now)];
    if p.authorId != me.id {
      site.notifications := Notify(site.notifications, p.authorId, "new_comment", now);
    }
    r := Ok("コメントを投稿しました。");
  }

  /** `check_banned` stops a banned user before the view runs, so the view's own ban check
      never fires. */
  lemma BannedNeverReachesCommentRules(users: seq<User>, posts: seq<Post>, session: Option<int>, postId: int)
    requires Viewer(users, session).Some? && Viewer(users, session).value.isBanned
    ensures DetailGuard(users, posts, session, postId).Err?
  {
  }

  /** A reply — any comment whose form carries a parent id, zero included — never shows
      among the post's top-level comments. */
  lemma ReplyNotTopLevel(users: seq<User>, posts: seq<Post>, comments: seq<Comment>, notifications: seq<Notification>,
                         session: Option<int>, postId: int, form: CommentForm, today: Date, now: int)
    requires CommentStep(users, posts, comments, notifications, session, postId, form, today, now).Ok?
    requires form.parentId.Some?
    ensures var comments' := CommentStep(users, posts, comments, notifications, session, postId, form, today, now).value.0.0;
      comments'[|comments'| - 1] !in TopLevelComments(comments', postId)
  {
  }

  /** Commenting on one's own post notifies nobody. */
  lemma OwnPostNoNotification(users: seq<User>, posts: seq<Post>, comments: seq<Comment>, notifications: seq<Notification>,
                              session: Option<int>, postId: int, form: CommentForm, today: Date, now: int)
    requires CommentStep(users, posts, comments, notifications, session, postId, form, today, now).Ok?
    requires posts[FindPost(posts, postId).value].authorId == session.value
    ensures CommentStep(users, posts, comments, notifications, session, postId, form, today, now).value.0.1 == notifications
  {
  }

  /** Nobody under 14 on `today` gets a comment in. */
  lemma UnderFourteenRefused(users: seq<User>, posts: seq<Post>, comments: seq<Comment>, notifications: seq<Notification>,
                             session: Option<int>, postId: int, form: CommentForm, today: Date, now: int)
    requires Viewer(users, session).Some?
    requires CalculateAge(Viewer(users, session).value.birthdate, today).Some?
    requires CalculateAge(Viewer(users, session).value.birthdate, today).value < 14
    ensures CommentStep(users, posts, comments, notifications, session, postId, form, today, now).Err?
  {
  }

  // ---------------------------------------------------------------- the comment list

  function NegCreated(c: Comment): int
  {
    -c.createdAt
  }

  /** The top-level comments of a post. */
  function IsTopLevelOf(postId: int): Comment -> bool
  {
    (c: Comment) => c.postId == postId && c.parentId.None?
  }

  /** The comments `post_detail` lists: the post's comments without a parent, oldest first. */
  function TopLevelComments(comments: seq<Comment>, postId: int): (r: seq<Comment>)
    ensures forall i, j :: 0 <= i < j < |r| ==> r[i].createdAt <= r[j].createdAt
    ensures multiset(r) == multiset(Filter(comments, IsTopLevelOf(postId)))
    ensures forall c :: c in r <==> c in comments && c.postId == postId && c.parentId.None?
  {
    var kept := Filter(comments, IsTopLevelOf(postId));
    var r := SortDesc(kept, NegCreated);
    assert forall c :: c in r <==> c in kept by {
      forall c ensures c in r <==> c in kept {
        assert c in r <==> c in multiset(r);
        assert c in kept <==> c in multiset(kept);
      }
    }
    assert forall i, j :: 0 <= i < j < |r| ==> NegCreated(r[i]) >= NegCreated(r[j]);
    r
  }
}
