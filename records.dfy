/** Record shapes of the backend's tables, and the store that holds one list per table.
    Each route loads a table, changes records in it and saves it back; here a table is a
    `seq` field of `Store` that the route methods reassign. */
module Records {
  import opened Wrappers
  import opened Lists

  type UserId = string

  /** A JSON value as it may sit in a profile dictionary. */
  datatype Json = JNull | JStr(s: string) | JInt(n: int) | JBool(b: bool)
                | JList(items: seq<string>) | JObj(fields: map<string, string>)

  type Dict = map<string, Json>

  /** `semiban_until`: None (or empty), an ISO timestamp (here seconds), or a string that does not parse. */
  datatype Semiban = NotSet | Until(t: int) | Malformed

  datatype Notification = Notification(kind: string, from: UserId, messageId: Option<int>, createdAt: int)

  datatype User = User(
    email: string, userId: UserId, username: string, password: string, role: string,
    createdAt: int,
    profile: Dict, collabProfile: Dict, creatorProfile: Dict,
    followers: seq<UserId>, following: seq<UserId>, interested: seq<UserId>,
    bookmarks: seq<int>, notifications: seq<Notification>, achievements: seq<string>,
    reportPoints: int, semibanUntil: Semiban, blocks: seq<UserId>, materialBox: seq<int>)

  /** A user record as the API returns it: without password, report_points and semiban_until. */
  datatype PublicUser = PublicUser(
    email: string, userId: UserId, username: string, role: string,
    createdAt: int,
    profile: Dict, collabProfile: Dict, creatorProfile: Dict,
    followers: seq<UserId>, following: seq<UserId>, interested: seq<UserId>,
    bookmarks: seq<int>, notifications: seq<Notification>, achievements: seq<string>,
    blocks: seq<UserId>, materialBox: seq<int>)

  datatype Post = Post(
    id: int, authorId: UserId, content: string, tags: seq<string>, category: Option<string>,
    anonymous: bool, bestAnswerId: Option<int>, likes: seq<UserId>, retweets: seq<UserId>,
    image: Option<string>, createdAt: int)

  datatype Comment = Comment(id: int, postId: int, authorId: UserId, content: string, createdAt: int)

  datatype Report = Report(
    id: int, targetType: string, targetId: int, reporterId: UserId,
    category: string, reason: string, createdAt: int)

  datatype Message = Message(id: int, senderId: UserId, receiverId: UserId, content: string, createdAt: int)

  datatype Group = Group(id: int, name: string, members: seq<UserId>)

  datatype GroupMessage = GroupMessage(id: int, groupId: int, senderId: UserId, content: string, createdAt: int)

  datatype FanPost = FanPost(id: int, authorId: UserId, content: string, createdAt: int)

  datatype Appeal = Appeal(id: int, userId: UserId, message: string, status: string, createdAt: int)

  datatype Material = Material(
    id: int, uploaderId: UserId, title: string, description: string,
    category: string, url: string, createdAt: int)

  datatype Poll = Poll(
    id: int, authorId: UserId, question: string, options: seq<string>,
    votes: seq<seq<UserId>>, createdAt: int)

  datatype Schedule = Schedule(id: int, authorId: UserId, events: seq<Dict>, template: string, createdAt: int)

  /** The backend's tables. */
  class Store {
    var users: seq<User>
    var posts: seq<Post>
    var comments: seq<Comment>
    var reports: seq<Report>
    var messages: seq<Message>
    var groups: seq<Group>
    var groupMessages: seq<GroupMessage>
    var fanPosts: seq<FanPost>
    var appeals: seq<Appeal>
    var materials: seq<Material>
    var polls: seq<Poll>
    var schedules: seq<Schedule>

    constructor ()
      ensures users == [] && posts == [] && comments == [] && reports == []
      ensures messages == [] && groups == [] && groupMessages == [] && fanPosts == []
      ensures appeals == [] && materials == [] && polls == [] && schedules == []
    {
      users, posts, comments, reports := [], [], [], [];
      messages, groups, groupMessages, fanPosts := [], [], [], [];
      appeals, materials, polls, schedules := [], [], [], [];
    }
  }

  /** `next((u for u in users if u["user_id"] == id), None)`, as an index. */
  function FindUser(users: seq<User>, id: UserId): (r: Option<nat>)
    ensures r.Some? ==> r.value < |users| && users[r.value].userId == id
    ensures r.Some? ==> forall j :: 0 <= j < r.value ==> users[j].userId != id
    ensures r.None? <==> forall j :: 0 <= j < |users| ==> users[j].userId != id
  {
    FindFirst(users, (u: User) => u.userId == id)
  }

  /** `any(u["user_id"] == id for u in users)`. */
  predicate UserExists(users: seq<User>, id: UserId)
  {
    FindUser(users, id).Some?
  }

  function FindPost(posts: seq<Post>, id: int): (r: Option<nat>)
    ensures r.Some? ==> r.value < |posts| && posts[r.value].id == id
    ensures r.Some? ==> forall j :: 0 <= j < r.value ==> posts[j].id != id
    ensures r.None? <==> forall j :: 0 <= j < |posts| ==> posts[j].id != id
  {
    FindFirst(posts, (p: Post) => p.id == id)
  }

  /** The two lists have the same user ids position by position. */
  predicate SameIds(a: seq<User>, b: seq<User>)
  {
    |a| == |b| && forall k :: 0 <= k < |a| ==> a[k].userId == b[k].userId
  }

  /** Replacing a record by one with the same id keeps the ids. */
  lemma SameIdsUpdate(users: seq<User>, i: nat, u: User)
    requires i < |users| && u.userId == users[i].userId
    ensures SameIds(users, users[i := u])
  {
  }

  lemma SameIdsFind(a: seq<User>, b: seq<User>, id: UserId)
    requires SameIds(a, b)
    ensures FindUser(a, id) == FindUser(b, id)
  {
  }

  /** No two users share a user_id. */
  predicate UniqueIds(users: seq<User>)
  {
    forall i, j :: 0 <= i < j < |users| ==> users[i].userId != users[j].userId
  }

  /** The per-user invariant the routes keep: every relation list is free of duplicates and
      the stored report points stay below the semiban threshold. */
  predicate WellFormed(u: User)
  {
    && NoDup(u.followers) && NoDup(u.following) && NoDup(u.interested)
    && NoDup(u.bookmarks) && NoDup(u.achievements) && NoDup(u.blocks) && NoDup(u.materialBox)
    && 0 <= u.reportPoints < 3
  }

  /** The users table invariant. */
  predicate ValidUsers(users: seq<User>)
  {
    UniqueIds(users) && forall i :: 0 <= i < |users| ==> WellFormed(users[i])
  }

  lemma SameIdsValid(a: seq<User>, b: seq<User>)
    requires SameIds(a, b) && ValidUsers(a)
    requires forall k :: 0 <= k < |b| ==> WellFormed(b[k])
    ensures ValidUsers(b)
  {
  }

  /** `p.copy()` with the author shown as "匿名" when the post is anonymous. */
  function Mask(p: Post): (r: Post)
    ensures r.id == p.id && r.createdAt == p.createdAt && r.likes == p.likes && r.retweets == p.retweets
    ensures r.category == p.category && r.anonymous == p.anonymous && r.tags == p.tags
    ensures r.authorId == if p.anonymous then "匿名" else p.authorId
  {
    if p.anonymous then p.(authorId := "匿名") else p
  }

  /** The masked copies of the posts `keep` selects, sorted: a reordering of those copies, so
      each listed item is the copy of a selected post and each selected post is listed. */
  lemma SortedMasked(posts: seq<Post>, keep: Post -> bool, key: Post -> int)
    ensures var r := SortDesc(Map(Filter(posts, keep), Mask), key);
      && multiset(r) == multiset(Map(Filter(posts, keep), Mask))
      && (forall x :: x in r ==> exists p :: p in posts && keep(p) && x == Mask(p))
      && (forall p :: p in posts && keep(p) ==> Mask(p) in r)
  {
    var kept := Filter(posts, keep);
    var masked := Map(kept, Mask);
    var r := SortDesc(masked, key);
    forall x | x in r ensures exists p :: p in posts && keep(p) && x == Mask(p) {
      assert x in multiset(masked);
      var j :| 0 <= j < |masked| && masked[j] == x;
      assert kept[j] in kept;
    }
    forall p | p in posts && keep(p) ensures Mask(p) in r {
      var j :| 0 <= j < |kept| && kept[j] == p;
      assert masked[j] == Mask(p);
      assert Mask(p) in multiset(masked);
    }
  }

  /** The loop shared by `list_bookmarks` and `posts_by_tag`: a masked copy of every post
      `keep` selects, in table order. */
  method CollectMasked(posts: seq<Post>, keep: Post -> bool) returns (result: seq<Post>)
    ensures result == Map(Filter(posts, keep), Mask)
  {
    result := [];
    var i := 0;
    while i < |posts|
      invariant 0 <= i <= |posts|
      invariant result == Map(Filter(posts[..i], keep), Mask)
    {
      var p := posts[i];
      ghost var before := Filter(posts[..i], keep);
      assert posts[..i + 1] == posts[..i] + [p];
      FilterSnoc(posts[..i], p, keep);
      if keep(p) {
        MapSnoc(before, p, Mask);
        result := result + [Mask(p)];
      }
      i := i + 1;
    }
    assert posts[..i] == posts;
  }
}
