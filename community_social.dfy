/** The social actions of the community board: liking and bookmarking a post, and adding a
    tag to or removing it from one's favourites. */
module CommunitySocial {
  import opened Wrappers
  import opened Lists
  import opened CommunityText
  import opened CommunityRecords
  import opened CommunityGuards

  /** Removes `x` when it is there, appends it otherwise: how a relationship list is flipped. */
  function Toggle<T(==,!new)>(s: seq<T>, x: T): (r: seq<T>)
    ensures x !in s ==> x in r
    ensures NoDup(s) ==> (x in r <==> x !in s)
    ensures forall y :: y != x ==> (y in r <==> y in s)
    ensures NoDup(s) ==> NoDup(r)
  {
    AddOrRemove(s, x, x !in s)
  }

  /** Flipping twice restores membership, and restores the list itself when `x` was absent. */
  lemma ToggleTwice<T(!new)>(s: seq<T>, x: T)
    requires NoDup(s)
    ensures forall y :: y in Toggle(Toggle(s, x), x) <==> y in s
    ensures x !in s ==> Toggle(Toggle(s, x), x) == s
  {
    if x !in s {
      AddThenRemove(s, x);
    }
  }

  /** `post.liked_by.count()`: how many users have the post among their liked posts. */
  function Likers(users: seq<User>, postId: int): (n: nat)
    ensures n <= |users|
  {
    if users == [] then 0
    else (if postId in users[0].likedPosts then 1 else 0) + Likers(users[1..], postId)
  }

  /** Replacing one user changes the count by that user's own change, and by nothing else. */
  lemma {:induction false} LikersUpdate(users: seq<User>, j: nat, u: User, postId: int)
    requires j < |users|
    ensures Likers(users[j := u], postId)
         == Likers(users, postId) - (if postId in users[j].likedPosts then 1 else 0)
            + (if postId in u.likedPosts then 1 else 0)
  {
    if j > 0 {
      LikersUpdate(users[1..], j - 1, u, postId);
      assert users[j := u][1..] == users[1..][j - 1 := u];
    } else {
      assert users[j := u][1..] == users[1..];
    }
  }

  /** The index of the signed-in user's own row. */
  function Own(users: seq<User>, me: User): (j: nat)
    requires me in users
    ensures j < |users| && users[j].id == me.id
  {
    var k :| 0 <= k < |users| && users[k] == me;
    FindUser(users, me.id).value
  }

  // ---------------------------------------------------------------- like_post

  /** The JSON `like_post` answers with. */
  datatype LikeReply = LikeReply(liked: bool, likesCount: int)

  /** `like_post`: the three decorators; 404 for a missing post; the caller's liked posts
      flip; a like (not an unlike) of someone else's post notifies its author, which fails
      when the author row is gone; the reply carries the new state and the count after the
      flip. */
  function LikePostStep(users: seq<User>, posts: seq<Post>, notifications: seq<Notification>,
                        session: Option<int>, postId: int, now: int)
    : (r: Outcome<((seq<User>, seq<Notification>), LikeReply)>)
    ensures r.Ok? ==> Admit(users, session).Ok? && FindPost(posts, postId).Some?
    ensures Admit(users, session).Ok? && FindPost(posts, postId).None? ==> r == Err(404, "Not Found")
    ensures Admit(users, session).Ok? && FindPost(posts, postId).Some? ==>
      var me := Admit(users, session).value;
      var author := posts[FindPost(posts, postId).value].authorId;
      (r.Ok? <==> postId in me.likedPosts || author == me.id || FindUser(users, author).Some?)
  {
    match Admit(users, session)
    case Err(code, detail) => Err(code, detail)
    case Ok(me) =>
      match FindPost(posts, postId)
      case None => Err(404, "Not Found")
      case Some(i) =>
        var p := posts[i];
        var j := Own(users, me);
        var liked := postId !in users[j].likedPosts;
        var users' := users[j := users[j].(likedPosts := Toggle(users[j].likedPosts, postId))];
        if liked && p.authorId != me.id && FindUser(users, p.authorId).None? then
          Err(500, "AttributeError: 'NoneType' object has no attribute 'add_notification'")
        else
          var notifications' :=
            if liked && p.authorId != me.id then Notify(notifications, p.authorId, "new_like", now) else notifications;
          Ok(((users', notifications'), LikeReply(liked, Likers(users', postId))))
  }

  /** A like flips the post in the caller's liked posts and nothing else; the reply says
      which way and counts the likers afterwards; only a new like on someone else's post
      notifies its author. */
  lemma LikeEffects(users: seq<User>, posts: seq<Post>, notifications: seq<Notification>,
                    session: Option<int>, postId: int, now: int)
    requires LikePostStep(users, posts, notifications, session, postId, now).Ok?
    ensures var r := LikePostStep(users, posts, notifications, session, postId, now);
      var me := Admit(users, session).value;
      var j := Own(users, me);
      var p := posts[FindPost(posts, postId).value];
      var (users', notifications') := r.value.0;
      && (r.value.1.liked <==> postId !in me.likedPosts)
      && users' == users[j := users[j].(likedPosts := Toggle(users[j].likedPosts, postId))]
      && r.value.1.likesCount == Likers(users', postId)
      && (if r.value.1.liked && p.authorId != me.id
          then notifications' == Notify(notifications, p.authorId, "new_like", now)
          else notifications' == notifications)
  {
    assert users[Own(users, Admit(users, session).value)] == Admit(users, session).value;
  }

  method LikePost(site: Site, session: Option<int>, postId: int, now: int) returns (r: Outcome<LikeReply>)
    modifies site`users, site`notifications
    ensures Settles(LikePostStep(old(site.users), site.posts, old(site.notifications), session, postId, now),
                    (old(site.users), old(site.notifications)), (site.users, site.notifications), r)
  {
    var admitted := Admit(site.users, session);
    if admitted.Err? {
      return Err(admitted.status, admitted.detail);
    }
    var me := admitted.value;
    var found := FindPost(site.posts, postId);
    if found.None? {
      return Err(404, "Not Found");
    }
    var p := site.posts[found.value];
    var j := Own(site.users, me);
    var liked := postId !in site.users[j].likedPosts;
    if liked && p.authorId != me.id {
      if FindUser(site.users, p.authorId).None? {
        return Err(500, "AttributeError: 'NoneType' object has no attribute 'add_notification'");
      }
      site.notifications := Notify(site.notifications, p.authorId, "new_like", now);
    }
    site.users := site.users[j := site.users[j].(likedPosts := Toggle(site.users[j].likedPosts, postId))];
    r := Ok(LikeReply(liked, Likers(site.users, postId)));
  }

  /** The count in the reply moves by exactly one: up on a like, down on an unlike. */
  lemma LikeCountMoves(users: seq<User>, posts: seq<Post>, notifications: seq<Notification>,
                       session: Option<int>, postId: int, now: int)
    requires LikePostStep(users, posts, notifications, session, postId, now).Ok?
    requires NoDup(Admit(users, session).value.likedPosts)
    ensures var reply := LikePostStep(users, posts, notifications, session, postId, now).value.1;
      reply.likesCount == Likers(users, postId) + (if reply.liked then 1 else -1)
  {
    var me := Admit(users, session).value;
    var j := Own(users, me);
    LikeEffects(users, posts, notifications, session, postId, now);
    LikersUpdate(users, j, users[j].(likedPosts := Toggle(users[j].likedPosts, postId)), postId);
  }

  /** Liking one's own post never notifies anyone; unliking never does either. */
  lemma NoSelfNotification(users: seq<User>, posts: seq<Post>, notifications: seq<Notification>,
                           session: Option<int>, postId: int, now: int)
    requires LikePostStep(users, posts, notifications, session, postId, now).Ok?
    requires (posts[FindPost(posts, postId).value].authorId == session.value
              || !LikePostStep(users, posts, notifications, session, postId, now).value.1.liked)
    ensures LikePostStep(users, posts, notifications, session, postId, now).value.0.1 == notifications
  {
    LikeEffects(users, posts, notifications, session, postId, now);
  }

  /** Rewriting a row without changing its id or the fields the decorators read lets the
      same request through as the same (rewritten) user. */
  lemma AdmitAfterUpdate(users: seq<User>, session: Option<int>, j: nat, u: User)
    requires Admit(users, session).Ok? && j < |users| && users[j] == Admit(users, session).value
    requires FindUser(users, users[j].id) == Some(j)
    requires u.id == users[j].id && u.birthdate == users[j].birthdate && u.isBanned == users[j].isBanned
    ensures FindUser(users[j := u], u.id) == Some(j)
    ensures Admit(users[j := u], session) == Ok(u)
  {
    var users' := users[j := u];
    assert forall k :: 0 <= k < j ==> users'[k].id == users[k].id;
    assert users'[j].id == u.id;
  }

  /** Liking a post and then liking it again leaves the caller's liked posts as they were. */
  lemma LikeTwiceRestores(users: seq<User>, posts: seq<Post>, notifications: seq<Notification>,
                          session: Option<int>, postId: int, now: int)
    requires LikePostStep(users, posts, notifications, session, postId, now).Ok?
    requires postId !in Admit(users, session).value.likedPosts
    ensures var (users', notifications') := LikePostStep(users, posts, notifications, session, postId, now).value.0;
      var again := LikePostStep(users', posts, notifications', session, postId, now);
      again.Ok? && again.value.0.0 == users && !again.value.1.liked
  {
    var me := Admit(users, session).value;
    var j := Own(users, me);
    var (users', notifications') := LikePostStep(users, posts, notifications, session, postId, now).value.0;
    LikeEffects(users, posts, notifications, session, postId, now);
    var u' := users[j].(likedPosts := Toggle(users[j].likedPosts, postId));
    assert users[j] == me;
    AdmitAfterUpdate(users, session, j, u');
    assert users' == users[j := u'];
    AddThenRemove(users[j].likedPosts, postId);
    UnlikeStep(users', posts, notifications', session, postId, now, j);
    assert users'[j := u'.(likedPosts := Toggle(u'.likedPosts, postId))] == users;
  }

  /** Liking a post the caller already likes takes it out of their liked posts. */
  lemma UnlikeStep(users: seq<User>, posts: seq<Post>, notifications: seq<Notification>,
                   session: Option<int>, postId: int, now: int, j: nat)
    requires Admit(users, session).Ok? && FindPost(posts, postId).Some?
    requires j < |users| && users[j] == Admit(users, session).value
    requires FindUser(users, users[j].id) == Some(j)
    requires postId in users[j].likedPosts
    ensures var again := LikePostStep(users, posts, notifications, session, postId, now);
      && again.Ok? && !again.value.1.liked
      && again.value.0.0 == users[j := users[j].(likedPosts := Toggle(users[j].likedPosts, postId))]
  {
    assert Own(users, users[j]) == j;
  }

  // ---------------------------------------------------------------- bookmark_post

  /** `bookmark_post`: the three decorators; 404 for a missing post; the caller's bookmarks
      flip, and the reply says which way. */
  function BookmarkStep(users: seq<User>, posts: seq<Post>, session: Option<int>, postId: int)
    : (r: Outcome<(seq<User>, string)>)
    ensures r.Ok? ==> Admit(users, session).Ok? && FindPost(posts, postId).Some?
    ensures Admit(users, session).Ok? && FindPost(posts, postId).None? ==> r == Err(404, "Not Found")
    ensures Admit(users, session).Ok? && FindPost(posts, postId).Some? ==> r.Ok?
    ensures r.Ok? ==>
      var me := Admit(users, session).value;
      var j := Own(users, me);
      && (r.value.1 == "bookmarked" <==> postId !in me.bookmarkedPosts)
      && (r.value.1 == "unbookmarked" <==> postId in me.bookmarkedPosts)
      && |r.value.0| == |users|
      && (forall k :: 0 <= k < |users| && k != j ==> r.value.0[k] == users[k])
      && r.value.0[j] == users[j].(bookmarkedPosts := Toggle(users[j].bookmarkedPosts, postId))
  {
    match Admit(users, session)
    case Err(code, detail) => Err(code, detail)
    case Ok(me) =>
      if FindPost(posts, postId).None? then Err(404, "Not Found")
      else
        var j := Own(users, me);
        var status := if postId in users[j].bookmarkedPosts then "unbookmarked" else "bookmarked";
        Ok((users[j := users[j].(bookmarkedPosts := Toggle(users[j].bookmarkedPosts, postId))], status))
  }

  method BookmarkPost(site: Site, session: Option<int>, postId: int) returns (r: Outcome<string>)
    modifies site`users
    ensures Settles(BookmarkStep(old(site.users), site.posts, session, postId), old(site.users), site.users, r)
  {
    var admitted := Admit(site.users, session);
    if admitted.Err? {
      return Err(admitted.status, admitted.detail);
    }
    if FindPost(site.posts, postId).None? {
      return Err(404, "Not Found");
    }
    var j := Own(site.users, admitted.value);
    var status := if postId in site.users[j].bookmarkedPosts then "unbookmarked" else "bookmarked";
    site.users := site.users[j := site.users[j].(bookmarkedPosts := Toggle(site.users[j].bookmarkedPosts, postId))];
    r := Ok(status);
  }

  // ---------------------------------------------------------------- favorite_tag_action

  /** `tag_name.strip().lstrip('#')`. */
  function TagName(raw: string): (r: string)
    ensures r != [] ==> r[0] != '#' && !IsSpace(r[|r| - 1])
    ensures forall c :: c in r ==> c in raw
  {
    var s := Strip(raw);
    var r := LStrip(s, IsHash);
    SuffixMembers(s, |s| - |r|);
    assert r != [] ==> r[|r| - 1] == s[|s| - 1];
    r
  }

  /** Every character of a suffix occurs in the string. */
  lemma SuffixMembers(s: string, k: nat)
    requires k <= |s|
    ensures forall c :: c in s[k..] ==> c in s
  {
    forall c | c in s[k..] ensures c in s {
      var i :| 0 <= i < |s[k..]| && s[k..][i] == c;
      assert s[k + i] == c;
    }
  }

  /** A tag name a link can carry: non-empty, not starting with "#" or whitespace, not
      ending with whitespace. */
  predicate PlainTag(name: string)
  {
    name != [] && name[0] != '#' && !IsSpace(name[0]) && !IsSpace(name[|name| - 1])
  }

  /** The tag named with its "#" (and any surrounding whitespace) comes back as the name. */
  lemma TagNameOfHashed(name: string, before: string, after: string)
    requires PlainTag(name)
    requires forall i :: 0 <= i < |before| ==> IsSpace(before[i])
    requires forall i :: 0 <= i < |after| ==> IsSpace(after[i])
    ensures TagName(before + "#" + name + after) == name
  {
    var s := "#" + name;
    assert Strip(before + "#" + name + after) == s by {
      assert before + "#" + name + after == before + s + after;
      assert s[|s| - 1] == name[|name| - 1];
      StripPadded(before, s, after);
    }
    OneHashStripped(name);
  }

  /** `lstrip('#')` takes exactly one "#" off a name that does not start with one. */
  lemma OneHashStripped(name: string)
    requires name != [] ==> name[0] != '#'
    ensures LStrip("#" + name, IsHash) == name
  {
    var s := "#" + name;
    assert s[1..] == name;
    assert Leading(s[1..], IsHash) == 0;
    assert Leading(s, IsHash) == 1;
  }

  function TagIdOf(t: Tag): int
  {
    t.id
  }

  function TagIds(tags: seq<Tag>): (ids: seq<int>)
    ensures |ids| == |tags| && forall k :: 0 <= k < |tags| ==> ids[k] == tags[k].id
  {
    Map(tags, TagIdOf)
  }

  /** The JSON `favorite_tag_action` answers with. */
  datatype FavoriteReply = FavoriteReply(favorited: bool, tagName: string)

  /** `favorite_tag_action`: signed in only; 400 when nothing is left of the name; the tag
      is looked up by name and created with the next id when missing; the caller's favourite
      tags then flip. */
  function FavoriteTagStep(users: seq<User>, tags: seq<Tag>, session: Option<int>, raw: string)
    : (r: Outcome<((seq<User>, seq<Tag>), FavoriteReply)>)
    ensures r.Ok? ==> SignedIn(users, session).Ok? && TagName(raw) != []
    ensures SignedIn(users, session).Ok? && TagName(raw) == [] ==> r == Err(400, "タグ名が無効です。")
    ensures SignedIn(users, session).Ok? && TagName(raw) != [] ==> r.Ok?
    ensures r.Ok? ==> FindTag(r.value.0.1, TagName(raw)).Some?
    ensures r.Ok? ==>
      var me := SignedIn(users, session).value;
      var j := Own(users, me);
      var (users', tags') := r.value.0;
      var t := tags'[FindTag(tags', TagName(raw)).value];
      (tags' == tags || (FindTag(tags, TagName(raw)).None? && tags' == tags + [t]))
      && r.value.1.tagName == TagName(raw)
      && (r.value.1.favorited <==> t.id !in me.favoriteTags)
      && users' == users[j := users[j].(favoriteTags := Toggle(users[j].favoriteTags, t.id))]
  {
    match SignedIn(users, session)
    case Err(code, detail) => Err(code, detail)
    case Ok(me) =>
      var name := TagName(raw);
      if name == [] then Err(400, "タグ名が無効です。")
      else
        var tags' :=
          if FindTag(tags, name).Some? then tags
          else tags + [Tag(NextId(TagIds(tags)), name)];
        assert FindTag(tags', name).Some? by {
          if FindTag(tags, name).None? {
            assert tags'[|tags|].name == name;
          }
        }
        var t := tags'[FindTag(tags', name).value];
        var j := Own(users, me);
        Ok(((users[j := users[j].(favoriteTags := Toggle(users[j].favoriteTags, t.id))], tags'),
            FavoriteReply(t.id !in users[j].favoriteTags, name)))
  }

  method FavoriteTag(site: Site, session: Option<int>, raw: string) returns (r: Outcome<FavoriteReply>)
    modifies site`users, site`tags
    ensures Settles(FavoriteTagStep(old(site.users), old(site.tags), session, raw),
                    (old(site.users), old(site.tags)), (site.users, site.tags), r)
  {
    var signedIn := SignedIn(site.users, session);
    if signedIn.Err? {
      return Err(signedIn.status, signedIn.detail);
    }
    var name := TagName(raw);
    if name == [] {
      return Err(400, "タグ名が無効です。");
    }
    if FindTag(site.tags, name).None? {
      site.tags := site.tags + [Tag(NextId(TagIds(site.tags)), name)];
      assert site.tags[|site.tags| - 1].name == name;
    }
    var t := site.tags[FindTag(site.tags, name).value];
    var j := Own(site.users, signedIn.value);
    var favorited := t.id !in site.users[j].favoriteTags;
    site.users := site.users[j := site.users[j].(favoriteTags := Toggle(site.users[j].favoriteTags, t.id))];
    r := Ok(FavoriteReply(favorited, name));
  }

  /** A tag that did not exist is created and lands in the caller's favourites, as long as
      no stale favourite points at the new id. */
  lemma NewTagIsFavorited(users: seq<User>, tags: seq<Tag>, session: Option<int>, raw: string)
    requires FavoriteTagStep(users, tags, session, raw).Ok?
    requires FindTag(tags, TagName(raw)).None?
    requires forall x :: x in SignedIn(users, session).value.favoriteTags ==> x in TagIds(tags)
    ensures var r := FavoriteTagStep(users, tags, session, raw).value;
      |r.0.1| == |tags| + 1 && r.1.favorited
  {
    NewTagLands(tags, TagName(raw));
  }

  /** A tag appended under a name no tag has is the one the name finds, and its id is new. */
  lemma NewTagLands(tags: seq<Tag>, name: string)
    requires FindTag(tags, name).None?
    ensures var tags' := tags + [Tag(NextId(TagIds(tags)), name)];
      FindTag(tags', name) == Some(|tags|) && NextId(TagIds(tags)) !in TagIds(tags)
  {
    var tags' := tags + [Tag(NextId(TagIds(tags)), name)];
    assert tags'[|tags|].name == name;
    assert forall j :: 0 <= j < |tags| ==> tags'[j] == tags[j];
  }
}
