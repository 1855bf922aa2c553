/** Record shapes of the community board's tables, and the site object that holds one list
    per table. A route loads rows, changes them and commits; here a table is a `seq` field of
    `Site` that the route methods reassign. */
module CommunityRecords {
  import opened Wrappers
  import opened Lists

  /** A calendar date as `datetime.date` holds it. */
  datatype Date = Date(year: int, month: int, day: int)

  /** A user row; `profileImage` is the `image_file` of the user's profile row, `None` when
      the user has no profile. */
  datatype User = User(
    id: int, username: string, handle: string, role: string,
    isAdmin: bool, isBanned: bool, dangerPoints: Option<int>, birthdate: Option<Date>,
    blocking: seq<int>, showAdult: bool,
    likedPosts: seq<int>, bookmarkedPosts: seq<int>, likedComments: seq<int>, favoriteTags: seq<int>,
    profileImage: Option<string>)

  datatype Post = Post(
    id: int, authorId: int, content: string, status: string, commentPermission: string,
    visibility: string, isAdult: bool, isAnonymous: bool,
    mediaFilename: Option<string>, mediaType: Option<string>,
    categories: seq<int>, tags: seq<string>, accessibleUsers: seq<int>, createdAt: int)

  datatype Comment = Comment(
    id: int, postId: int, authorId: int, parentId: Option<int>, content: string,
    isBestAnswer: bool, createdAt: int)

  /** An `EditHistory` row: the content a post or comment had before an edit. */
  datatype EditHistory = EditHistory(content: string, editableId: int, editableType: string)

  datatype Report = Report(
    reporterId: int, reportedUserId: int, postId: Option<int>, commentId: Option<int>,
    reason: string, details: string)

  datatype Notification = Notification(id: int, userId: int, name: string, timestamp: int, isRead: bool)

  datatype PollOption = PollOption(id: int, pollId: int, text: string)

  datatype Vote = Vote(userId: int, optionId: int)

  datatype Tag = Tag(id: int, name: string)

  /** The board's tables. */
  class Site {
    var users: seq<User>
    var posts: seq<Post>
    var comments: seq<Comment>
    var histories: seq<EditHistory>
    var reports: seq<Report>
    var notifications: seq<Notification>
    var options: seq<PollOption>
    var votes: seq<Vote>
    var tags: seq<Tag>
    var categories: seq<int>

    constructor ()
      ensures users == [] && posts == [] && comments == [] && histories == [] && reports == []
      ensures notifications == [] && options == [] && votes == [] && tags == [] && categories == []
    {
      users, posts, comments, histories, reports := [], [], [], [], [];
      notifications, options, votes, tags, categories := [], [], [], [], [];
    }
  }

  /** `User.query.get(id)`, as an index into the table. */
  function FindUser(users: seq<User>, id: int): (r: Option<nat>)
    ensures r.Some? ==> r.value < |users| && users[r.value].id == id
    ensures r.Some? ==> forall j :: 0 <= j < r.value ==> users[j].id != id
    ensures r.None? <==> forall j :: 0 <= j < |users| ==> users[j].id != id
  {
    FindFirst(users, (u: User) => u.id == id)
  }

  function FindPost(posts: seq<Post>, id: int): (r: Option<nat>)
    ensures r.Some? ==> r.value < |posts| && posts[r.value].id == id
    ensures r.Some? ==> forall j :: 0 <= j < r.value ==> posts[j].id != id
    ensures r.None? <==> forall j :: 0 <= j < |posts| ==> posts[j].id != id
  {
    FindFirst(posts, (p: Post) => p.id == id)
  }

  function FindComment(comments: seq<Comment>, id: int): (r: Option<nat>)
    ensures r.Some? ==> r.value < |comments| && comments[r.value].id == id
    ensures r.Some? ==> forall j :: 0 <= j < r.value ==> comments[j].id != id
    ensures r.None? <==> forall j :: 0 <= j < |comments| ==> comments[j].id != id
  {
    FindFirst(comments, (c: Comment) => c.id == id)
  }

  function FindOption(options: seq<PollOption>, id: int): (r: Option<nat>)
    ensures r.Some? ==> r.value < |options| && options[r.value].id == id
    ensures r.Some? ==> forall j :: 0 <= j < r.value ==> options[j].id != id
    ensures r.None? <==> forall j :: 0 <= j < |options| ==> options[j].id != id
  {
    FindFirst(options, (o: PollOption) => o.id == id)
  }

  /** `Tag.query.filter_by(name=name).first()`. */
  function FindTag(tags: seq<Tag>, name: string): (r: Option<nat>)
    ensures r.Some? ==> r.value < |tags| && tags[r.value].name == name
    ensures r.Some? ==> forall j :: 0 <= j < r.value ==> tags[j].name != name
    ensures r.None? <==> forall j :: 0 <= j < |tags| ==> tags[j].name != name
  {
    FindFirst(tags, (t: Tag) => t.name == name)
  }

  /** The current user: the row the session's user id loads, or none (anonymous). */
  function Viewer(users: seq<User>, session: Option<int>): (r: Option<User>)
    ensures r.Some? ==> session.Some? && r.value in users && r.value.id == session.value
    ensures r.None? ==> session.None? || forall j :: 0 <= j < |users| ==> users[j].id != session.value
  {
    if session.None? then None
    else match FindUser(users, session.value)
      case None => None
      case Some(i) => Some(users[i])
  }

  function NotificationIdOf(n: Notification): int
  {
    n.id
  }

  /** `add_notification(name, ...)` on the recipient (a model method outside this model,
      taken to add one unread row with the next id). */
  function Notify(notifications: seq<Notification>, userId: int, name: string, now: int): (r: seq<Notification>)
    ensures |r| == |notifications| + 1 && r[..|notifications|] == notifications
    ensures var n := r[|notifications|];
      n.userId == userId && n.name == name && !n.isRead && n.timestamp == now
      && forall k :: 0 <= k < |notifications| ==> notifications[k].id < n.id
  {
    var ids := Map(notifications, NotificationIdOf);
    notifications + [Notification(NextId(ids), userId, name, now, false)]
  }

  /** Primary keys are unique. */
  predicate UniqueUserIds(users: seq<User>)
  {
    forall i, j :: 0 <= i < j < |users| ==> users[i].id != users[j].id
  }

  predicate UniquePostIds(posts: seq<Post>)
  {
    forall i, j :: 0 <= i < j < |posts| ==> posts[i].id != posts[j].id
  }

  predicate UniqueCommentIds(comments: seq<Comment>)
  {
    forall i, j :: 0 <= i < j < |comments| ==> comments[i].id != comments[j].id
  }

  /** `a.is_blocking(b)`. */
  predicate Blocks(a: User, b: User)
  {
    b.id in a.blocking
  }

  /** `post.author == current_user or current_user.is_admin`: who may edit or delete. */
  predicate MayModify(authorId: int, me: User)
  {
    authorId == me.id || me.isAdmin
  }
}
