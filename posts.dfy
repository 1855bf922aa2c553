/** The post routes of the backend: creating and listing posts, the ranked feeds, reactions,
    bookmarks, comments, best answers and reports. */
module Posts {
  import opened Wrappers
  import opened Lists
  import opened Records
  import opened Utils
  import Users

  // ---------------------------------------------------------------- create_post

  /** The body of `POST /posts`. */
  datatype PostCreate = PostCreate(
    authorId: UserId, content: string, tags: Option<seq<string>>,
    category: Option<string>, anonymous: bool, image: Option<string>)

  function PostId(p: Post): int { p.id }

  /** No two posts share an id. */
  predicate UniquePostIds(posts: seq<Post>)
  {
    forall i, j :: 0 <= i < j < |posts| ==> posts[i].id != posts[j].id
  }

  /** Some post in the table is by `author`. */
  predicate HasPostBy(posts: seq<Post>, author: UserId)
  {
    exists i :: 0 <= i < |posts| && posts[i].authorId == author
  }

  /** `POST /posts`: the author must exist and not be semibanned; the new post gets the next
      id, no likes, retweets or best answer, and the author earns the first-post achievement
      when the table held no post by them. Returns the new users and posts tables. */
  function CreatePostStep(users: seq<User>, posts: seq<Post>, req: PostCreate, now: int)
    : (r: Outcome<((seq<User>, seq<Post>), Post)>)
    ensures r.Err? <==> !UserExists(users, req.authorId)
                        || IsSemibanned(users[FindUser(users, req.authorId).value], now)
    ensures !UserExists(users, req.authorId) ==> r == Err(404, "User not found")
    ensures UserExists(users, req.authorId) && r.Err? ==> r == Err(403, "Temporarily banned")
    ensures r.Ok? ==> var ((users', posts'), item) := r.value;
      && posts' == posts + [item]
      && (forall i :: 0 <= i < |posts| ==> posts[i].id < item.id)
      && item.authorId == req.authorId && item.content == req.content
      && item.category == req.category && item.anonymous == req.anonymous && item.image == req.image
      && item.tags == (if req.tags.Some? then req.tags.value else [])
      && item.likes == [] && item.retweets == [] && item.bestAnswerId.None? && item.createdAt == now
      && SameIds(users, users')
  {
    var found := FindUser(users, req.authorId);
    if found.None? then Err(404, "User not found")
    else if IsSemibanned(users[found.value], now) then Err(403, "Temporarily banned")
    else
      var first := !HasPostBy(posts, req.authorId);
      var item := Post(NextId(Map(posts, PostId)), req.authorId, req.content,
                       if req.tags.Some? then req.tags.value else [], req.category, req.anonymous,
                       None, [], [], req.image, now);
      var users' := if first then users[found.value := AddAchievement(users[found.value], FirstPostAchievement)]
                    else users;
      Ok(((users', posts + [item]), item))
  }

  method CreatePost(db: Store, req: PostCreate, now: int) returns (r: Outcome<Post>)
    modifies db`users, db`posts
    ensures Settles(CreatePostStep(old(db.users), old(db.posts), req, now),
                    (old(db.users), old(db.posts)), (db.users, db.posts), r)
  {
    var found := FindUser(db.users, req.authorId);
    if found.None? {
      return Err(404, "User not found");
    }
    var user := db.users[found.value];
    if IsSemibanned(user, now) {
      return Err(403, "Temporarily banned");
    }
    var first := !HasPostBy(db.posts, req.authorId);
    var tags := if req.tags.Some? then req.tags.value else [];
    var item := Post(NextId(Map(db.posts, PostId)), req.authorId, req.content, tags, req.category,
                     req.anonymous, None, [], [], req.image, now);
    db.posts := db.posts + [item];
    if first {
      db.users := db.users[found.value := AddAchievement(user, FirstPostAchievement)];
    }
    r := Ok(item);
  }

  /** Creating a post keeps post ids unique and the users table valid. */
  lemma CreatePostKeepsInvariants(users: seq<User>, posts: seq<Post>, req: PostCreate, now: int)
    requires UniquePostIds(posts) && ValidUsers(users)
    requires CreatePostStep(users, posts, req, now).Ok?
    ensures var (users', posts') := CreatePostStep(users, posts, req, now).value.0;
      UniquePostIds(posts') && ValidUsers(users')
  {
    var (users', posts') := CreatePostStep(users, posts, req, now).value.0;
    SameIdsValid(users, users');
  }

  /** The first-post achievement: granted to the author exactly when the table held no post
      by them; otherwise the users table is unchanged. */
  lemma CreatePostAchievement(users: seq<User>, posts: seq<Post>, req: PostCreate, now: int)
    requires CreatePostStep(users, posts, req, now).Ok?
    ensures var users' := CreatePostStep(users, posts, req, now).value.0.0;
      var i := FindUser(users, req.authorId).value;
      && (HasPostBy(posts, req.authorId) ==> users' == users)
      && (!HasPostBy(posts, req.authorId) ==>
            users' == users[i := users[i].(achievements := users'[i].achievements)]
            && FirstPostAchievement in users'[i].achievements)
  {
  }

  // ---------------------------------------------------------------- list_posts

  /** The query parameters of `GET /posts`. */
  datatype PostQuery = PostQuery(
    feed: Option<string>, userId: Option<UserId>, category: Option<string>, anonymous: Option<bool>)

  /** Python truthiness of an optional string. */
  predicate Truthy(s: Option<string>)
  {
    s.Some? && s.value != ""
  }

  function QueryUser(q: PostQuery): UserId
  {
    if q.userId.Some? then q.userId.value else ""
  }

  predicate FollowingFeed(q: PostQuery)
  {
    q.feed == Some("following") && Truthy(q.userId)
  }

  predicate UserFeed(q: PostQuery)
  {
    q.feed == Some("user") && Truthy(q.userId)
  }

  /** Some user named `a` has `b` in their block list. */
  predicate Blocks(users: seq<User>, a: UserId, b: UserId)
  {
    exists k :: 0 <= k < |users| && users[k].userId == a && b in users[k].blocks
  }

  /** The viewer of the query exists, and the viewer blocks `author` or is blocked by them. */
  predicate BlockedForViewer(users: seq<User>, q: PostQuery, author: UserId)
  {
    && Truthy(q.userId)
    && FindUser(users, q.userId.value).Some?
    && (author in users[FindUser(users, q.userId.value).value].blocks || Blocks(users, author, q.userId.value))
  }

  /** Which posts the query shows, stated as one condition per parameter. */
  predicate Shown(users: seq<User>, q: PostQuery, p: Post)
  {
    && (Truthy(q.category) ==> p.category == q.category)
    && (q.anonymous.Some? ==> p.anonymous == q.anonymous.value)
    && (FollowingFeed(q) ==>
          && UserExists(users, QueryUser(q))
          && (p.authorId in users[FindUser(users, QueryUser(q)).value].following || p.authorId == QueryUser(q)))
    && (UserFeed(q) ==> p.authorId == QueryUser(q))
    && !BlockedForViewer(users, q, p.authorId)
  }

  function ShownBy(users: seq<User>, q: PostQuery): Post -> bool
  {
    (p: Post) => Shown(users, q, p)
  }

  function CreatedKey(p: Post): int { p.createdAt }

  function ByCategory(q: PostQuery): Post -> bool
  {
    (p: Post) => p.category == q.category
  }

  function ByAnonymous(q: PostQuery): Post -> bool
  {
    (p: Post) => q.anonymous.Some? && p.anonymous == q.anonymous.value
  }

  /** Posts by the viewer or by someone the viewer follows (the viewer is `users[me]`). */
  function ByFollowing(users: seq<User>, q: PostQuery, me: Option<nat>): Post -> bool
  {
    (p: Post) => me.Some? && me.value < |users| && (p.authorId in users[me.value].following || p.authorId == QueryUser(q))
  }

  function ByAuthor(q: PostQuery): Post -> bool
  {
    (p: Post) => p.authorId == QueryUser(q)
  }

  function Visible(users: seq<User>, q: PostQuery): Post -> bool
  {
    (p: Post) => !BlockedForViewer(users, q, p.authorId)
  }

  /** The viewer's record, when `user_id` is given and known. */
  function Viewer(users: seq<User>, q: PostQuery): Option<nat>
  {
    if Truthy(q.userId) then FindUser(users, q.userId.value) else None
  }

  /** `list_posts`, first the category filter, then the anonymity filter, then the feed. */
  function AfterCategory(posts: seq<Post>, q: PostQuery): seq<Post>
  {
    if Truthy(q.category) then Filter(posts, ByCategory(q)) else posts
  }

  function AfterAnonymous(posts: seq<Post>, q: PostQuery): seq<Post>
  {
    var ps := AfterCategory(posts, q);
    if q.anonymous.Some? then Filter(ps, ByAnonymous(q)) else ps
  }

  function AfterFeed(users: seq<User>, posts: seq<Post>, q: PostQuery): seq<Post>
  {
    var ps := AfterAnonymous(posts, q);
    if FollowingFeed(q) then Filter(ps, ByFollowing(users, q, Viewer(users, q)))
    else if UserFeed(q) then Filter(ps, ByAuthor(q))
    else ps
  }

  /** The posts `GET /posts` keeps, before masking and sorting: the filters applied in turn,
      then the authors blocked either way dropped. */
  function KeptPosts(users: seq<User>, posts: seq<Post>, q: PostQuery): seq<Post>
  {
    Filter(AfterFeed(users, posts, q), Visible(users, q))
  }

  predicate PassesFilters(q: PostQuery, p: Post)
  {
    (Truthy(q.category) ==> p.category == q.category) && (q.anonymous.Some? ==> p.anonymous == q.anonymous.value)
  }

  predicate PassesFeed(users: seq<User>, q: PostQuery, p: Post)
  {
    && PassesFilters(q, p)
    && (FollowingFeed(q) ==> ByFollowing(users, q, Viewer(users, q))(p))
    && (UserFeed(q) ==> p.authorId == QueryUser(q))
  }

  lemma AfterAnonymousFilter(posts: seq<Post>, q: PostQuery)
    ensures AfterAnonymous(posts, q) == Filter(posts, (p: Post) => PassesFilters(q, p))
  {
    var c1 := (p: Post) => Truthy(q.category) ==> ByCategory(q)(p);
    var c2 := (p: Post) => q.anonymous.Some? ==> ByAnonymous(q)(p);
    FilterIf(posts, Truthy(q.category), ByCategory(q), c1);
    FilterIf(AfterCategory(posts, q), q.anonymous.Some?, ByAnonymous(q), c2);
    FilterFilter(posts, c1, c2, (p: Post) => PassesFilters(q, p));
  }

  lemma AfterFeedFilter(users: seq<User>, posts: seq<Post>, q: PostQuery)
    ensures AfterFeed(users, posts, q) == Filter(posts, (p: Post) => PassesFeed(users, q, p))
  {
    var me := Viewer(users, q);
    var c3 := (p: Post) => (FollowingFeed(q) ==> ByFollowing(users, q, me)(p)) && (UserFeed(q) ==> ByAuthor(q)(p));
    AfterAnonymousFilter(posts, q);
    FilterIf2(AfterAnonymous(posts, q), FollowingFeed(q), ByFollowing(users, q, me), UserFeed(q), ByAuthor(q), c3);
    FilterFilter(posts, (p: Post) => PassesFilters(q, p), c3, (p: Post) => PassesFeed(users, q, p));
  }

  /** The chain of filters is the single filter by `Shown`. */
  lemma KeptPostsShown(users: seq<User>, posts: seq<Post>, q: PostQuery)
    requires !(FollowingFeed(q) && !UserExists(users, QueryUser(q)))
    ensures KeptPosts(users, posts, q) == Filter(posts, ShownBy(users, q))
  {
    var c := (p: Post) => PassesFeed(users, q, p) && Visible(users, q)(p);
    AfterFeedFilter(users, posts, q);
    FilterFilter(posts, (p: Post) => PassesFeed(users, q, p), Visible(users, q), c);
    FilterExt(posts, c, ShownBy(users, q));
  }

  /** `GET /posts`: the filters of the query applied in turn, blocked authors skipped, anonymous
      authors masked, newest first. The following feed of an unknown user is a 404. */
  function ListPosts(users: seq<User>, posts: seq<Post>, q: PostQuery): (r: Outcome<seq<Post>>)
    ensures r.Err? <==> FollowingFeed(q) && !UserExists(users, QueryUser(q))
    ensures r.Err? ==> r == Err(404, "User not found")
    ensures r.Ok? ==> SortedDesc(r.value, CreatedKey)
    ensures r.Ok? ==> multiset(r.value) == multiset(Map(Filter(posts, ShownBy(users, q)), Mask))
  {
    if FollowingFeed(q) && Viewer(users, q).None? then Err(404, "User not found")
    else
      KeptPostsShown(users, posts, q);
      Ok(SortDesc(Map(KeptPosts(users, posts, q), Mask), CreatedKey))
  }

  /** What `ListPosts` returns, element by element: a masked copy of a shown post. Anonymous
      posts never reveal their author, and no post by a user the viewer blocks, or who blocks
      the viewer, is listed under its author's name. */
  lemma ListPostsMembers(users: seq<User>, posts: seq<Post>, q: PostQuery, x: Post)
    requires ListPosts(users, posts, q).Ok? && x in ListPosts(users, posts, q).value
    ensures exists p :: p in posts && Shown(users, q, p) && x == Mask(p)
    ensures x.anonymous ==> x.authorId == "匿名"
    ensures !x.anonymous ==> !BlockedForViewer(users, q, x.authorId)
  {
    var kept := Filter(posts, ShownBy(users, q));
    var masked := Map(kept, Mask);
    assert x in multiset(masked);
    var j :| 0 <= j < |masked| && masked[j] == x;
    assert kept[j] in kept;
  }

  // ---------------------------------------------------------------- ranked feeds

  function FollowerCount(u: User): int { |u.followers| }

  /** `GET /recommended_users`: the five users with the most followers, ties in table order. */
  function RecommendedUsers(users: seq<User>): (r: seq<PublicUser>)
    ensures |r| == if |users| <= 5 then |users| else 5
    ensures forall i :: 0 <= i < |r| ==> r[i] in Map(users, RemoveSensitiveFields)
    ensures forall i, j :: 0 <= i < j < |r| ==> |r[i].followers| >= |r[j].followers|
    ensures multiset(r) <= multiset(Map(users, RemoveSensitiveFields))
  {
    var ranked := SortDesc(users, FollowerCount);
    var top := Take(ranked, 5);
    TopMembers(users, FollowerCount, 5);
    TopSub(users, FollowerCount, 5, RemoveSensitiveFields);
    MapMembers(users, top, RemoveSensitiveFields);
    MapKeepsSorted(top, RemoveSensitiveFields, FollowerCount, PublicFollowerCount);
    Map(top, RemoveSensitiveFields)
  }

  function PublicFollowerCount(u: PublicUser): int { |u.followers| }

  /** A user left out of the recommendations has no more followers than any recommended one. */
  lemma RecommendedUsersTop(users: seq<User>, u: User)
    requires u in users
    ensures var r := RecommendedUsers(users);
      RemoveSensitiveFields(u) in r || forall i :: 0 <= i < |r| ==> |u.followers| <= |r[i].followers|
  {
    TopTakeMapped(users, FollowerCount, 5, RemoveSensitiveFields, PublicFollowerCount, u);
  }

  /** Ties are broken in table order: the recommended users with `c` followers are the first
      few users with `c` followers, in the order the table holds them. */
  lemma RecommendedUsersTies(users: seq<User>, c: int)
    ensures Filter(RecommendedUsers(users), KeyIs(PublicFollowerCount, c))
         <= Map(Filter(users, KeyIs(FollowerCount, c)), RemoveSensitiveFields)
  {
    TopTies(users, FollowerCount, 5, RemoveSensitiveFields, PublicFollowerCount, c);
  }

  /** Likes plus retweets, the ranking of `GET /trending_posts`. */
  function Score(p: Post): int { |p.likes| + |p.retweets| }

  /** `GET /trending_posts`: the ten posts with the highest score, ties in table order, masked. */
  function TrendingPosts(posts: seq<Post>): (r: seq<Post>)
    ensures |r| == if |posts| <= 10 then |posts| else 10
    ensures forall i :: 0 <= i < |r| ==> r[i] in Map(posts, Mask)
    ensures SortedDesc(r, Score)
    ensures multiset(r) <= multiset(Map(posts, Mask))
  {
    var ranked := SortDesc(posts, Score);
    var top := Take(ranked, 10);
    TopMembers(posts, Score, 10);
    TopSub(posts, Score, 10, Mask);
    MapMembers(posts, top, Mask);
    MapKeepsSorted(top, Mask, Score, Score);
    Map(top, Mask)
  }

  /** A post left out of the trending list scores no higher than any listed one. */
  lemma TrendingPostsTop(posts: seq<Post>, p: Post)
    requires p in posts
    ensures var r := TrendingPosts(posts);
      Mask(p) in r || forall i :: 0 <= i < |r| ==> Score(p) <= Score(r[i])
  {
    TopTakeMapped(posts, Score, 10, Mask, Score, p);
  }

  /** Ties are broken in table order: the trending posts with score `c` are the first few
      posts scoring `c`, in the order the table holds them. */
  lemma TrendingPostsTies(posts: seq<Post>, c: int)
    ensures Filter(TrendingPosts(posts), KeyIs(Score, c)) <= Map(Filter(posts, KeyIs(Score, c)), Mask)
  {
    TopTies(posts, Score, 10, Mask, Score, c);
  }

  // ---------------------------------------------------------------- popular_tags

  /** One entry of `GET /popular_tags`. */
  datatype TagCount = TagCount(name: string, count: int)

  function CountKey(c: TagCount): int { c.count }

  /** Every tag of every post, in table order. */
  function AllTags(posts: seq<Post>): seq<string>
  {
    if posts == [] then [] else AllTags(posts[..|posts| - 1]) + posts[|posts| - 1].tags
  }

  /** For each key, its number of occurrences in `tags`. */
  function CountsOf(keys: seq<string>, tags: seq<string>): (r: seq<TagCount>)
    ensures |r| == |keys|
    ensures forall i :: 0 <= i < |r| ==> r[i] == TagCount(keys[i], Count(tags, keys[i]))
  {
    seq(|keys|, i requires 0 <= i < |keys| => TagCount(keys[i], Count(tags, keys[i])))
  }

  /** `Counter.most_common(10)` over all tags: the tags in first-seen order with their counts,
      stably sorted by count, the first ten. */
  function PopularTagsOf(posts: seq<Post>): (r: seq<TagCount>)
    ensures |r| <= 10
    ensures SortedDesc(r, CountKey)
    ensures forall i :: 0 <= i < |r| ==> r[i].name in AllTags(posts) && r[i].count == Count(AllTags(posts), r[i].name)
    ensures multiset(r) <= multiset(CountsOf(Dedup(AllTags(posts)), AllTags(posts)))
    ensures forall i, j :: 0 <= i < j < |r| ==> r[i].name != r[j].name
  {
    var all := AllTags(posts);
    var items := CountsOf(Dedup(all), all);
    var ranked := SortDesc(items, CountKey);
    var r := Take(ranked, 10);
    TopSubPlain(items, CountKey, 10);
    CountsDrawn(Dedup(all), all, r);
    r
  }

  /** A sub-multiset of the counts of distinct keys pairs keys with their counts and names
      each key at most once. */
  lemma CountsDrawn(keys: seq<string>, tags: seq<string>, r: seq<TagCount>)
    requires NoDup(keys) && multiset(r) <= multiset(CountsOf(keys, tags))
    ensures forall i :: 0 <= i < |r| ==> r[i].name in keys && r[i].count == Count(tags, r[i].name)
    ensures forall i, j :: 0 <= i < j < |r| ==> r[i].name != r[j].name
  {
    var items := CountsOf(keys, tags);
    forall i | 0 <= i < |r| ensures r[i].name in keys && r[i].count == Count(tags, r[i].name) {
      assert r[i] in multiset(items);
    }
    SubNoDup(r, items);
    forall i, j | 0 <= i < j < |r| ensures r[i].name != r[j].name {
      assert r[i] in multiset(items) && r[j] in multiset(items);
      var a :| 0 <= a < |items| && items[a] == r[i];
      var b :| 0 <= b < |items| && items[b] == r[j];
      assert a != b;
    }
  }

  /** The popular tags with count `c` come in the order the tags were first seen, as
      `Counter.most_common` keeps insertion order among equal counts. */
  lemma PopularTagsTies(posts: seq<Post>, c: int)
    ensures Filter(PopularTagsOf(posts), KeyIs(CountKey, c))
         <= Filter(CountsOf(Dedup(AllTags(posts)), AllTags(posts)), KeyIs(CountKey, c))
  {
    var all := AllTags(posts);
    TopTiesPlain(CountsOf(Dedup(all), all), CountKey, 10, c);
  }

  /** A tag missing from the popular list occurs no more often than any listed tag. */
  lemma PopularTagsTop(posts: seq<Post>, t: string)
    requires t in AllTags(posts)
    ensures var r := PopularTagsOf(posts);
      (exists i :: 0 <= i < |r| && r[i].name == t)
      || (|r| == 10 && forall i :: 0 <= i < |r| ==> Count(AllTags(posts), t) <= r[i].count)
  {
    var all := AllTags(posts);
    var keys := Dedup(all);
    var items := CountsOf(keys, all);
    var k :| 0 <= k < |keys| && keys[k] == t;
    var x := items[k];
    var ranked := SortDesc(items, CountKey);
    assert x in multiset(ranked);
    TopTake(ranked, CountKey, 10, x);
    var r := Take(ranked, 10);
    if x in r {
      var i :| 0 <= i < |r| && r[i] == x;
    }
  }

  /** The counter agrees with the tags seen so far: `order` lists them by first sighting and
      `counter` holds each one's number of occurrences. */
  ghost predicate Tallied(order: seq<string>, counter: map<string, nat>, seen: seq<string>)
  {
    && order == Dedup(seen)
    && (forall t :: t in counter <==> t in seen)
    && (forall t :: t in counter ==> counter[t] == Count(seen, t))
  }

  /** One `counter[t] += 1`, with `t` added to the order on its first sighting. */
  function Bump(order: seq<string>, counter: map<string, nat>, t: string): (seq<string>, map<string, nat>)
  {
    if t in counter then (order, counter[t := counter[t] + 1]) else (order + [t], counter[t := 1])
  }

  /** Counting one more tag keeps the counter in agreement with the tags seen. */
  lemma TallyOne(order: seq<string>, counter: map<string, nat>, seen: seq<string>, t: string)
    requires Tallied(order, counter, seen)
    ensures var (o, c) := Bump(order, counter, t); Tallied(o, c, seen + [t])
  {
    var (o, c) := Bump(order, counter, t);
    DedupSnoc(seen, t);
    assert o == Dedup(seen + [t]);
    forall u ensures u in c <==> u in seen + [t] { }
    forall u | u in c ensures c[u] == Count(seen + [t], u) {
      CountSnoc(seen, t, u);
      if u == t && t !in counter {
        CountPositive(seen, t);
      }
    }
  }

  /** The inner loop of `popular_tags`: `counter[t] += 1` for each tag of one post. */
  method Tally(order: seq<string>, counter: map<string, nat>, ghost seen: seq<string>, tags: seq<string>)
    returns (order': seq<string>, counter': map<string, nat>)
    requires Tallied(order, counter, seen)
    ensures Tallied(order', counter', seen + tags)
  {
    order', counter' := order, counter;
    assert seen + tags[..0] == seen;
    for j := 0 to |tags|
      invariant Tallied(order', counter', seen + tags[..j])
    {
      var t := tags[j];
      TallyOne(order', counter', seen + tags[..j], t);
      assert seen + tags[..j + 1] == seen + tags[..j] + [t];
      var next := Bump(order', counter', t);
      order', counter' := next.0, next.1;
    }
    assert tags[..|tags|] == tags;
  }

  /** The outer loop of `popular_tags`: every tag of every post through the counter. */
  method TallyPosts(posts: seq<Post>) returns (order: seq<string>, counter: map<string, nat>)
    ensures Tallied(order, counter, AllTags(posts))
  {
    order, counter := [], map[];
    assert posts[..0] == [];
    for i := 0 to |posts|
      invariant Tallied(order, counter, AllTags(posts[..i]))
    {
      assert posts[..i + 1][..i] == posts[..i];
      order, counter := Tally(order, counter, AllTags(posts[..i]), posts[i].tags);
    }
    assert posts[..|posts|] == posts;
  }

  /** `counter.items()` in first-insertion order. */
  method CounterItems(order: seq<string>, counter: map<string, nat>, ghost seen: seq<string>) returns (items: seq<TagCount>)
    requires Tallied(order, counter, seen)
    ensures items == CountsOf(order, seen)
  {
    items := [];
    for k := 0 to |order|
      invariant |items| == k
      invariant forall m :: 0 <= m < k ==> items[m] == TagCount(order[m], Count(seen, order[m]))
    {
      DedupMembers(seen, order[k]);
      items := items + [TagCount(order[k], counter[order[k]])];
    }
  }

  /** `GET /popular_tags`: counts every tag of every post in a counter that remembers first
      insertion order, then takes the ten most common. */
  method PopularTags(posts: seq<Post>) returns (r: seq<TagCount>)
    ensures r == PopularTagsOf(posts)
  {
    var order, counter := TallyPosts(posts);
    var items := CounterItems(order, counter, AllTags(posts));
    r := Take(SortDesc(items, CountKey), 10);
  }

  lemma DedupSnoc(s: seq<string>, x: string)
    ensures Dedup(s + [x]) == if x in s then Dedup(s) else Dedup(s) + [x]
  {
    assert (s + [x])[..|s|] == s;
  }

  lemma DedupMembers(s: seq<string>, x: string)
    requires x in Dedup(s)
    ensures x in s
  {
  }

  // ---------------------------------------------------------------- single post and by tag

  /** `GET /posts/{post_id}`: the first post with the id, masked. */
  function GetPost(posts: seq<Post>, postId: int): (r: Outcome<Post>)
    ensures r.Err? <==> forall i :: 0 <= i < |posts| ==> posts[i].id != postId
    ensures r.Err? ==> r == Err(404, "Post not found")
    ensures r.Ok? ==> exists i :: 0 <= i < |posts| && posts[i].id == postId && r.value == Mask(posts[i])
                                  && forall j :: 0 <= j < i ==> posts[j].id != postId
  {
    var found := FindPost(posts, postId);
    if found.None? then Err(404, "Post not found") else Ok(Mask(posts[found.value]))
  }

  function HasTag(tag: string): Post -> bool
  {
    (p: Post) => tag in p.tags
  }

  /** The posts carrying `tag`, masked, highest id first. */
  function TagFeed(posts: seq<Post>, tag: string): (r: seq<Post>)
    ensures SortedDesc(r, PostId)
    ensures forall i :: 0 <= i < |r| ==> tag in r[i].tags
    ensures forall p :: p in posts && tag in p.tags ==> Mask(p) in r
    ensures forall x :: x in r ==> exists p :: p in posts && tag in p.tags && x == Mask(p)
    ensures multiset(r) == multiset(Map(Filter(posts, HasTag(tag)), Mask))
    ensures |r| <= |posts|
  {
    var r := SortDesc(Map(Filter(posts, HasTag(tag)), Mask), PostId);
    SortedMasked(posts, HasTag(tag), PostId);
    forall i | 0 <= i < |r| ensures tag in r[i].tags {
      assert r[i] in r;
      var p :| p in posts && HasTag(tag)(p) && r[i] == Mask(p);
    }
    r
  }


  /** `GET /posts/by_tag`. */
  method PostsByTag(posts: seq<Post>, tag: string) returns (r: seq<Post>)
    ensures r == TagFeed(posts, tag)
  {
    var result := CollectMasked(posts, HasTag(tag));
    r := SortDesc(result, PostId);
  }

  // ---------------------------------------------------------------- likers and comments

  /** `GET /posts/{post_id}/likers`: the public view of every user who liked the post. */
  function ListLikers(users: seq<User>, posts: seq<Post>, postId: int): (r: Outcome<seq<PublicUser>>)
    ensures r.Err? <==> FindPost(posts, postId).None?
    ensures r.Err? ==> r == Err(404, "Post not found")
    ensures r.Ok? ==> forall x :: x in r.value <==>
      x in Map(users, RemoveSensitiveFields) && x.userId in posts[FindPost(posts, postId).value].likes
  {
    var found := FindPost(posts, postId);
    if found.None? then Err(404, "Post not found")
    else
      var likes := posts[found.value].likes;
      Ok(Users.PublicWhere(users, (u: PublicUser) => u.userId in likes))
  }

  /** `GET /posts/{post_id}/comments`: the post's comments in table order (no check that the
      post exists). */
  function ListComments(comments: seq<Comment>, postId: int): (r: seq<Comment>)
    ensures forall c :: c in r <==> c in comments && c.postId == postId
    ensures |r| <= |comments|
  {
    Filter(comments, (c: Comment) => c.postId == postId)
  }

  // ---------------------------------------------------------------- like / retweet

  datatype Reaction = Like | Retweet

  /** The list a reaction lives in. */
  function Reactors(p: Post, kind: Reaction): seq<UserId>
  {
    if kind == Like then p.likes else p.retweets
  }

  function WithReactors(p: Post, kind: Reaction, who: seq<UserId>): (r: Post)
    ensures Reactors(r, kind) == who
    ensures kind == Like ==> r == p.(likes := who)
    ensures kind == Retweet ==> r == p.(retweets := who)
  {
    if kind == Like then p.(likes := who) else p.(retweets := who)
  }

  /** `like`, `unlike`, `retweet` and `unretweet` on the stored post: adding appends the user
      when absent, removing drops the first occurrence when present; the reply is the new
      length of the list. Only the one list of the one post changes. */
  function ReactStep(posts: seq<Post>, postId: int, userId: UserId, kind: Reaction, add: bool)
    : (r: Outcome<(seq<Post>, int)>)
    ensures r.Err? <==> FindPost(posts, postId).None?
    ensures r.Err? ==> r == Err(404, "Post not found")
    ensures r.Ok? ==> var i := FindPost(posts, postId).value;
      var (posts', n) := r.value;
      var after := AddOrRemove(Reactors(posts[i], kind), userId, add);
      posts' == posts[i := WithReactors(posts[i], kind, after)] && n == |after|
  {
    var found := FindPost(posts, postId);
    if found.None? then Err(404, "Post not found")
    else
      var p := posts[found.value];
      var list' := AddOrRemove(Reactors(p, kind), userId, add);
      Ok((posts[found.value := WithReactors(p, kind, list')], |list'|))
  }

  method React(db: Store, postId: int, userId: UserId, kind: Reaction, add: bool) returns (r: Outcome<int>)
    modifies db`posts
    ensures Settles(ReactStep(old(db.posts), postId, userId, kind, add), old(db.posts), db.posts, r)
  {
    var found := FindPost(db.posts, postId);
    if found.None? {
      return Err(404, "Post not found");
    }
    var p := db.posts[found.value];
    var list := Reactors(p, kind);
    if add {
      if userId !in list {
        list := list + [userId];
      }
    } else if userId in list {
      list := RemoveFirst(list, userId);
    }
    db.posts := db.posts[found.value := WithReactors(p, kind, list)];
    r := Ok(|list|);
  }

  /** Reacting twice the same way is the same as reacting once (for removal this needs the
      list to be duplicate-free, as the routes keep it). */
  lemma ReactIdempotent(posts: seq<Post>, postId: int, userId: UserId, kind: Reaction, add: bool)
    requires ReactStep(posts, postId, userId, kind, add).Ok?
    requires !add ==> NoDup(Reactors(posts[FindPost(posts, postId).value], kind))
    ensures var (posts', n) := ReactStep(posts, postId, userId, kind, add).value;
      ReactStep(posts', postId, userId, kind, add) == Ok((posts', n))
  {
    var i := FindPost(posts, postId).value;
    var (posts', n) := ReactStep(posts, postId, userId, kind, add).value;
    FindPostUpdate(posts, i, posts'[i], postId);
    var before := Reactors(posts[i], kind);
    var after := Reactors(posts'[i], kind);
    assert AddOrRemove(after, userId, add) == after;
    assert WithReactors(posts'[i], kind, after) == posts'[i];
    assert posts'[i := posts'[i]] == posts';
  }

  /** Adding a reaction the user had not made, then removing it, restores the posts table. */
  lemma ReactRoundTrip(posts: seq<Post>, postId: int, userId: UserId, kind: Reaction)
    requires ReactStep(posts, postId, userId, kind, true).Ok?
    requires userId !in Reactors(posts[FindPost(posts, postId).value], kind)
    ensures var posts' := ReactStep(posts, postId, userId, kind, true).value.0;
      ReactStep(posts', postId, userId, kind, false) == Ok((posts, |Reactors(posts[FindPost(posts, postId).value], kind)|))
  {
    var i := FindPost(posts, postId).value;
    var posts' := ReactStep(posts, postId, userId, kind, true).value.0;
    var before := Reactors(posts[i], kind);
    FindPostUpdate(posts, i, posts'[i], postId);
    AddThenRemove(before, userId);
    assert WithReactors(posts'[i], kind, before) == posts[i];
    assert posts'[i := posts[i]] == posts;
  }

  // ---------------------------------------------------------------- bookmarks

  /** `bookmark` and `unbookmark`: the post must exist, then the user; adding appends the
      post id when absent, removing drops its first occurrence; the reply is the new number
      of bookmarks. Only that user's bookmarks change. */
  function BookmarkStep(users: seq<User>, posts: seq<Post>, postId: int, userId: UserId, add: bool)
    : (r: Outcome<(seq<User>, int)>)
    ensures FindPost(posts, postId).None? ==> r == Err(404, "Post not found")
    ensures FindPost(posts, postId).Some? && !UserExists(users, userId) ==> r == Err(404, "User not found")
    ensures r.Ok? <==> FindPost(posts, postId).Some? && UserExists(users, userId)
    ensures r.Ok? ==> var i := FindUser(users, userId).value;
      var (users', n) := r.value;
      var after := AddOrRemove(users[i].bookmarks, postId, add);
      users' == users[i := users[i].(bookmarks := after)] && n == |after|
  {
    if FindPost(posts, postId).None? then Err(404, "Post not found")
    else
      var found := FindUser(users, userId);
      if found.None? then Err(404, "User not found")
      else
        var u := users[found.value];
        var marks := AddOrRemove(u.bookmarks, postId, add);
        Ok((users[found.value := u.(bookmarks := marks)], |marks|))
  }

  method Bookmark(db: Store, postId: int, userId: UserId, add: bool) returns (r: Outcome<int>)
    modifies db`users
    ensures Settles(BookmarkStep(old(db.users), db.posts, postId, userId, add), old(db.users), db.users, r)
  {
    if FindPost(db.posts, postId).None? {
      return Err(404, "Post not found");
    }
    var found := FindUser(db.users, userId);
    if found.None? {
      return Err(404, "User not found");
    }
    var u := db.users[found.value];
    var marks := u.bookmarks;
    if add {
      if postId !in marks {
        marks := marks + [postId];
      }
    } else if postId in marks {
      marks := RemoveFirst(marks, postId);
    }
    db.users := db.users[found.value := u.(bookmarks := marks)];
    r := Ok(|marks|);
  }

  /** Bookmarking keeps the users table valid, and bookmarking a post not yet bookmarked then
      unbookmarking it restores the table. */
  lemma BookmarkRoundTrip(users: seq<User>, posts: seq<Post>, postId: int, userId: UserId)
    requires ValidUsers(users)
    requires BookmarkStep(users, posts, postId, userId, true).Ok?
    requires postId !in users[FindUser(users, userId).value].bookmarks
    ensures var users' := BookmarkStep(users, posts, postId, userId, true).value.0;
      && ValidUsers(users')
      && BookmarkStep(users', posts, postId, userId, false).Ok?
      && BookmarkStep(users', posts, postId, userId, false).value.0 == users
  {
    var i := FindUser(users, userId).value;
    var users' := BookmarkStep(users, posts, postId, userId, true).value.0;
    SameIdsUpdate(users, i, users'[i]);
    SameIdsValid(users, users');
    SameIdsFind(users, users', userId);
    AddThenRemove(users[i].bookmarks, postId);
    assert users'[i := users[i]] == users;
  }

  // ---------------------------------------------------------------- comments

  /** The body of `POST /posts/{post_id}/comments`. */
  datatype CommentCreate = CommentCreate(authorId: UserId, content: string)

  function CommentId(c: Comment): int { c.id }

  predicate UniqueCommentIds(comments: seq<Comment>)
  {
    forall i, j :: 0 <= i < j < |comments| ==> comments[i].id != comments[j].id
  }

  predicate HasCommentBy(comments: seq<Comment>, author: UserId)
  {
    exists i :: 0 <= i < |comments| && comments[i].authorId == author
  }

  /** `POST /posts/{post_id}/comments`: the post must exist, the author exist and not be
      semibanned; the comment gets the next id, and the author earns the first-comment
      achievement when the table held no comment by them. */
  function CreateCommentStep(users: seq<User>, posts: seq<Post>, comments: seq<Comment>, postId: int,
                             req: CommentCreate, now: int)
    : (r: Outcome<((seq<User>, seq<Comment>), Comment)>)
    ensures FindPost(posts, postId).None? ==> r == Err(404, "Post not found")
    ensures FindPost(posts, postId).Some? && !UserExists(users, req.authorId) ==> r == Err(404, "User not found")
    ensures (FindPost(posts, postId).Some? && UserExists(users, req.authorId)
             && IsSemibanned(users[FindUser(users, req.authorId).value], now)) ==> r == Err(403, "Temporarily banned")
    ensures r.Ok? ==> FindPost(posts, postId).Some? && UserExists(users, req.authorId)
                      && !IsSemibanned(users[FindUser(users, req.authorId).value], now)
    ensures r.Ok? ==> var ((users', comments'), item) := r.value;
      && comments' == comments + [item]
      && (forall i :: 0 <= i < |comments| ==> comments[i].id < item.id)
      && item == Comment(item.id, postId, req.authorId, req.content, now)
      && SameIds(users, users')
  {
    if FindPost(posts, postId).None? then Err(404, "Post not found")
    else
      var found := FindUser(users, req.authorId);
      if found.None? then Err(404, "User not found")
      else if IsSemibanned(users[found.value], now) then Err(403, "Temporarily banned")
      else
        var first := !HasCommentBy(comments, req.authorId);
        var item := Comment(NextId(Map(comments, CommentId)), postId, req.authorId, req.content, now);
        var users' := if first then users[found.value := AddAchievement(users[found.value], FirstCommentAchievement)]
                      else users;
        Ok(((users', comments + [item]), item))
  }

  method CreateComment(db: Store, postId: int, req: CommentCreate, now: int) returns (r: Outcome<Comment>)
    modifies db`users, db`comments
    ensures Settles(CreateCommentStep(old(db.users), db.posts, old(db.comments), postId, req, now),
                    (old(db.users), old(db.comments)), (db.users, db.comments), r)
  {
    if FindPost(db.posts, postId).None? {
      return Err(404, "Post not found");
    }
    var found := FindUser(db.users, req.authorId);
    if found.None? {
      return Err(404, "User not found");
    }
    var user := db.users[found.value];
    if IsSemibanned(user, now) {
      return Err(403, "Temporarily banned");
    }
    var first := !HasCommentBy(db.comments, req.authorId);
    var item := Comment(NextId(Map(db.comments, CommentId)), postId, req.authorId, req.content, now);
    db.comments := db.comments + [item];
    if first {
      db.users := db.users[found.value := AddAchievement(user, FirstCommentAchievement)];
    }
    r := Ok(item);
  }

  /** Commenting keeps comment ids unique and the users table valid; the first-comment
      achievement is granted exactly to a first-time commenter. */
  lemma CreateCommentKeepsInvariants(users: seq<User>, posts: seq<Post>, comments: seq<Comment>, postId: int,
                                     req: CommentCreate, now: int)
    requires UniqueCommentIds(comments) && ValidUsers(users)
    requires CreateCommentStep(users, posts, comments, postId, req, now).Ok?
    ensures var (users', comments') := CreateCommentStep(users, posts, comments, postId, req, now).value.0;
      var i := FindUser(users, req.authorId).value;
      && UniqueCommentIds(comments') && ValidUsers(users')
      && (HasCommentBy(comments, req.authorId) ==> users' == users)
      && (!HasCommentBy(comments, req.authorId) ==> FirstCommentAchievement in users'[i].achievements)
  {
    var (users', comments') := CreateCommentStep(users, posts, comments, postId, req, now).value.0;
    SameIdsValid(users, users');
  }

  // ---------------------------------------------------------------- best answer

  /** `PUT /posts/{post_id}/best_answer`: only the post's author may choose, the comment must
      belong to the post, and choosing the current best answer again clears it. */
  function BestAnswerStep(posts: seq<Post>, comments: seq<Comment>, postId: int, userId: UserId, commentId: int)
    : (r: Outcome<(seq<Post>, Option<int>)>)
    ensures FindPost(posts, postId).None? ==> r == Err(404, "Post not found")
    ensures FindPost(posts, postId).Some? && posts[FindPost(posts, postId).value].authorId != userId
            ==> r == Err(403, "Forbidden")
    ensures r.Ok? <==> FindPost(posts, postId).Some? && posts[FindPost(posts, postId).value].authorId == userId
                       && exists c :: c in comments && c.id == commentId && c.postId == postId
    ensures r.Err? && FindPost(posts, postId).Some? && posts[FindPost(posts, postId).value].authorId == userId
            ==> r == Err(404, "Comment not found")
    ensures r.Ok? ==> var i := FindPost(posts, postId).value;
      var (posts', best) := r.value;
      && posts' == posts[i := posts[i].(bestAnswerId := best)]
      && (best == if posts[i].bestAnswerId == Some(commentId) then None else Some(commentId))
  {
    var found := FindPost(posts, postId);
    if found.None? then Err(404, "Post not found")
    else
      var p := posts[found.value];
      if p.authorId != userId then Err(403, "Forbidden")
      else if !(exists c :: c in comments && c.id == commentId && c.postId == postId) then Err(404, "Comment not found")
      else
        var best := if p.bestAnswerId == Some(commentId) then None else Some(commentId);
        Ok((posts[found.value := p.(bestAnswerId := best)], best))
  }

  method SetBestAnswer(db: Store, postId: int, userId: UserId, commentId: int) returns (r: Outcome<Option<int>>)
    modifies db`posts
    ensures Settles(BestAnswerStep(old(db.posts), db.comments, postId, userId, commentId), old(db.posts), db.posts, r)
  {
    var found := FindPost(db.posts, postId);
    if found.None? {
      return Err(404, "Post not found");
    }
    var p := db.posts[found.value];
    if p.authorId != userId {
      return Err(403, "Forbidden");
    }
    var belongs := false;
    var k := 0;
    while k < |db.comments|
      invariant 0 <= k <= |db.comments|
      invariant belongs <==> exists m :: 0 <= m < k && db.comments[m].id == commentId && db.comments[m].postId == postId
    {
      if db.comments[k].id == commentId && db.comments[k].postId == postId {
        belongs := true;
      }
      k := k + 1;
    }
    if !belongs {
      return Err(404, "Comment not found");
    }
    if p.bestAnswerId == Some(commentId) {
      p := p.(bestAnswerId := None);
    } else {
      p := p.(bestAnswerId := Some(commentId));
    }
    db.posts := db.posts[found.value := p];
    r := Ok(p.bestAnswerId);
  }

  /** Replacing a post by one with the same id does not change which post an id finds. */
  lemma FindPostUpdate(posts: seq<Post>, i: nat, p: Post, id: int)
    requires i < |posts| && p.id == posts[i].id
    ensures FindPost(posts[i := p], id) == FindPost(posts, id)
  {
    var posts' := posts[i := p];
    assert forall j :: 0 <= j < |posts| ==> posts'[j].id == posts[j].id;
  }

  /** Choosing the same comment twice restores the post's previous best answer when it was
      unset or was that comment; choosing it once from anything else makes it the answer. */
  lemma BestAnswerToggle(posts: seq<Post>, comments: seq<Comment>, postId: int, userId: UserId, commentId: int)
    requires BestAnswerStep(posts, comments, postId, userId, commentId).Ok?
    ensures var posts' := BestAnswerStep(posts, comments, postId, userId, commentId).value.0;
      var i := FindPost(posts, postId).value;
      && BestAnswerStep(posts', comments, postId, userId, commentId).Ok?
      && (posts[i].bestAnswerId.None? || posts[i].bestAnswerId == Some(commentId) ==>
            BestAnswerStep(posts', comments, postId, userId, commentId).value.0 == posts)
      && (posts[i].bestAnswerId != Some(commentId) ==> posts'[i].bestAnswerId == Some(commentId))
  {
    var i := FindPost(posts, postId).value;
    var posts' := BestAnswerStep(posts, comments, postId, userId, commentId).value.0;
    FindPostUpdate(posts, i, posts'[i], postId);
    assert posts'[i := posts[i]] == posts;
  }

  // ---------------------------------------------------------------- reports

  /** What is reported: `POST /reports/post/{id}` or `POST /reports/comment/{id}`. */
  datatype ReportTarget = OnPost(postId: int) | OnComment(commentId: int)

  /** The body of a report request. */
  datatype ReportCreate = ReportCreate(reporterId: UserId, category: string, reason: Option<string>)

  function TargetType(t: ReportTarget): string
  {
    if t.OnPost? then "post" else "comment"
  }

  function TargetId(t: ReportTarget): int
  {
    if t.OnPost? then t.postId else t.commentId
  }

  function ReportId(r: Report): int { r.id }

  /** The author of the reported post or comment, or the 404 for a missing target. */
  function TargetAuthor(posts: seq<Post>, comments: seq<Comment>, t: ReportTarget): (r: Outcome<UserId>)
    ensures t.OnPost? ==> (r.Ok? <==> FindPost(posts, t.postId).Some?)
    ensures t.OnComment? ==> (r.Ok? <==> exists c :: c in comments && c.id == t.commentId)
  {
    match t
    case OnPost(id) =>
      var found := FindPost(posts, id);
      if found.None? then Err(404, "Post not found") else Ok(posts[found.value].authorId)
    case OnComment(id) =>
      var found := FindFirst(comments, (c: Comment) => c.id == id);
      if found.None? then Err(404, "Comment not found") else Ok(comments[found.value].authorId)
  }

  /** The reporter already reported this target. */
  predicate AlreadyReported(reports: seq<Report>, t: ReportTarget, reporterId: UserId)
  {
    exists r :: r in reports && r.targetType == TargetType(t) && r.targetId == TargetId(t) && r.reporterId == reporterId
  }

  /** Adds the report's weight to the user's points; reaching the threshold starts a
      seven-day semiban and resets the points to zero. */
  function Penalize(u: User, weight: int, now: int): (r: User)
    ensures r == u.(reportPoints := r.reportPoints, semibanUntil := r.semibanUntil)
    ensures u.reportPoints + weight >= SemibanThreshold ==>
              r.reportPoints == 0 && r.semibanUntil == Until(now + SemibanSeconds)
    ensures u.reportPoints + weight < SemibanThreshold ==>
              r.reportPoints == u.reportPoints + weight && r.semibanUntil == u.semibanUntil
  {
    var points := u.reportPoints + weight;
    if points >= SemibanThreshold then u.(reportPoints := 0, semibanUntil := Until(now + SemibanSeconds))
    else u.(reportPoints := points)
  }

  /** `report_post` and `report_comment`: the target must exist, then the reporter; the
      category must be one of the four; a reporter reports a target once. The report is
      appended with the next id, and the target's author, when they exist, is penalized by
      the reporter's role weight. */
  function ReportStep(users: seq<User>, posts: seq<Post>, comments: seq<Comment>, reports: seq<Report>,
                      t: ReportTarget, req: ReportCreate, now: int)
    : (r: Outcome<((seq<User>, seq<Report>), string)>)
    ensures TargetAuthor(posts, comments, t).Err? ==> r.Err? && r.status == 404
    ensures TargetAuthor(posts, comments, t).Ok? && !UserExists(users, req.reporterId) ==> r == Err(404, "User not found")
    ensures TargetAuthor(posts, comments, t).Ok? && UserExists(users, req.reporterId) && req.category !in ReportCategories
            ==> r == Err(400, "Invalid category")
    ensures (TargetAuthor(posts, comments, t).Ok? && UserExists(users, req.reporterId) && req.category in ReportCategories
             && AlreadyReported(reports, t, req.reporterId)) ==> r == Err(400, "Already reported")
    ensures r.Ok? <==> TargetAuthor(posts, comments, t).Ok? && UserExists(users, req.reporterId)
                       && req.category in ReportCategories && !AlreadyReported(reports, t, req.reporterId)
  {
    match ReportGate(users, posts, comments, reports, t, req)
    case Err(code, detail) => Err(code, detail)
    case Ok((author, rep)) =>
      var target := FindUser(users, author);
      var users' := if target.None? then users
                    else users[target.value := Penalize(users[target.value], ReportWeight(users[rep].role), now)];
      Ok(((users', reports + [NewReport(reports, t, req, now)]), "reported"))
  }

  /** The checks of `report_post` and `report_comment`, in order. On success, the target's
      author and the reporter's row. */
  function ReportGate(users: seq<User>, posts: seq<Post>, comments: seq<Comment>, reports: seq<Report>,
                      t: ReportTarget, req: ReportCreate)
    : (r: Outcome<(UserId, nat)>)
    ensures r.Ok? ==> TargetAuthor(posts, comments, t).Ok? && FindUser(users, req.reporterId).Some?
    ensures r.Ok? ==> r.value == (TargetAuthor(posts, comments, t).value, FindUser(users, req.reporterId).value)
    ensures r.Ok? ==> r.value.1 < |users|
  {
    var author := TargetAuthor(posts, comments, t);
    if author.Err? then Err(author.status, author.detail)
    else
      var rep := FindUser(users, req.reporterId);
      if rep.None? then Err(404, "User not found")
      else if req.category !in ReportCategories then Err(400, "Invalid category")
      else if AlreadyReported(reports, t, req.reporterId) then Err(400, "Already reported")
      else Ok((author.value, rep.value))
  }

  /** The report appended: the next id, the target, the reporter, the category and the
      reason, empty when none was given. */
  function NewReport(reports: seq<Report>, t: ReportTarget, req: ReportCreate, now: int): Report
  {
    Report(NextId(Map(reports, ReportId)), TargetType(t), TargetId(t), req.reporterId,
           req.category, if req.reason.Some? then req.reason.value else "", now)
  }

  /** An accepted report is appended with an id above every earlier one, the target's type
      and id, the reporter, the category and the reason (empty when none), and the users
      keep their ids. */
  lemma ReportRecorded(users: seq<User>, posts: seq<Post>, comments: seq<Comment>, reports: seq<Report>,
                       t: ReportTarget, req: ReportCreate, now: int)
    requires ReportStep(users, posts, comments, reports, t, req, now).Ok?
    ensures var ((users', reports'), msg) := ReportStep(users, posts, comments, reports, t, req, now).value;
      && msg == "reported"
      && |reports'| == |reports| + 1 && reports'[..|reports|] == reports
      && var item := reports'[|reports|];
      && (forall i :: 0 <= i < |reports| ==> reports[i].id < item.id)
      && item == Report(item.id, TargetType(t), TargetId(t), req.reporterId, req.category,
                        if req.reason.Some? then req.reason.value else "", now)
      && SameIds(users, users')
  {
    var ids := Map(reports, ReportId);
    forall i | 0 <= i < |reports| ensures reports[i].id < NextId(ids) {
      assert ids[i] == reports[i].id;
    }
  }

  method FileReport(db: Store, t: ReportTarget, req: ReportCreate, now: int) returns (r: Outcome<string>)
    modifies db`users, db`reports
    ensures Settles(ReportStep(old(db.users), db.posts, db.comments, old(db.reports), t, req, now),
                    (old(db.users), old(db.reports)), (db.users, db.reports), r)
  {
    var gate := ReportGate(db.users, db.posts, db.comments, db.reports, t, req);
    if gate.Err? {
      return Err(gate.status, gate.detail);
    }
    var (author, rep) := gate.value;
    db.reports := db.reports + [NewReport(db.reports, t, req, now)];
    var target := FindUser(db.users, author);
    if target.Some? {
      var weight := ReportWeight(db.users[rep].role);
      db.users := db.users[target.value := Penalize(db.users[target.value], weight, now)];
    }
    r := Ok("reported");
  }

  /** A report keeps the users table valid (stored points stay below the threshold) and,
      once accepted, the same reporter cannot report the same target again. */
  lemma ReportKeepsInvariants(users: seq<User>, posts: seq<Post>, comments: seq<Comment>, reports: seq<Report>,
                              t: ReportTarget, req: ReportCreate, now: int, later: int)
    requires ValidUsers(users)
    requires ReportStep(users, posts, comments, reports, t, req, now).Ok?
    ensures var (users', reports') := ReportStep(users, posts, comments, reports, t, req, now).value.0;
      && ValidUsers(users')
      && ReportStep(users', posts, comments, reports', t, req, later) == Err(400, "Already reported")
  {
    var (users', reports') := ReportStep(users, posts, comments, reports, t, req, now).value.0;
    ReportRecorded(users, posts, comments, reports, t, req, now);
    SameIdsValid(users, users');
    SameIdsFind(users, users', req.reporterId);
    assert reports'[|reports|] in reports';
  }

  /** The penalty on the target's author: one point per report, and the report that brings
      the points to three semibans the author for seven days from now. */
  lemma ReportPenalty(users: seq<User>, posts: seq<Post>, comments: seq<Comment>, reports: seq<Report>,
                      t: ReportTarget, req: ReportCreate, now: int)
    requires ReportStep(users, posts, comments, reports, t, req, now).Ok?
    requires UserExists(users, TargetAuthor(posts, comments, t).value)
    ensures var users' := ReportStep(users, posts, comments, reports, t, req, now).value.0.0;
      var i := FindUser(users, TargetAuthor(posts, comments, t).value).value;
      && users' == users[i := users'[i]]
      && (users[i].reportPoints + 1 < SemibanThreshold ==> users'[i].reportPoints == users[i].reportPoints + 1)
      && (users[i].reportPoints + 1 >= SemibanThreshold ==>
            users'[i].reportPoints == 0 && IsSemibanned(users'[i], now)
            && users'[i].semibanUntil == Until(now + SemibanSeconds))
  {
  }
}
